/** Values of unknown shape, as they reach the parsers, and the scope entries,
    instants and revocation answers shared by the authority pipeline. */
module Values {
  import opened Options
  import opened Text
  import opened Sorting

  /** A field of an incoming record. `Entry` is an object read through `type` and `ref`, `Target` one read
      through `adapter` and `operation`, `Hashed` one read through `capability_hash`; `Object` is any
      other object, told apart by a number, and `Other` anything that is none of these. */
  datatype Value =
    | Undefined
    | Null
    | Str(s: string)
    | Arr(items: seq<Value>)
    | Entry(kind: Value, ref: Value)
    | Target(adapter: Value, operation: Value)
    | Hashed(capabilityHash: Value)
    | Object(id: nat)
    | Other

  predicate IsObject(v: Value) {
    v.Entry? || v.Target? || v.Hashed? || v.Object?
  }

  predicate NonBlank(v: Value) {
    v.Str? && Trim(v.s) != ""
  }

  function StrOpt(o: Option<string>): Value {
    match o
    case None => Undefined
    case Some(s) => Str(s)
  }

  /** A `Date`: its milliseconds and the text `toISOString` gives for it. */
  datatype Instant = Instant(millis: int, iso: string)

  /** The shape `toISOString` gives: a time to the second, a point, three digits and a `Z`. */
  predicate MillisText(iso: string) {
    && |iso| == 24 && IsoSecond(iso[..19] + "Z") && iso[19] == '.' && iso[23] == 'Z'
  }

  /** The second an instant falls into, as the texts without milliseconds write it. */
  function SecondOf(now: Instant): string
    requires MillisText(now.iso)
  {
    now.iso[..19] + "Z"
  }

  // ---------- scope entries ----------

  datatype Scope = Scope(kind: string, ref: string)

  const SCOPE_KINDS := ["content", "field", "pack"]

  predicate ValidKind(kind: string) {
    kind in SCOPE_KINDS
  }

  function Key(e: Scope): string {
    e.kind + ":" + e.ref
  }

  predicate ScopeLeq(a: Scope, b: Scope) {
    if a.kind == b.kind then StrLeq(a.ref, b.ref) else StrLeq(a.kind, b.kind)
  }

  predicate KeyLeq(a: Scope, b: Scope) {
    StrLeq(Key(a), Key(b))
  }

  lemma StringOrder()
    ensures TotalPreorder(StrLeq) && Antisymmetric(StrLeq)
  {
    forall x, y ensures StrLeq(x, y) || StrLeq(y, x) {
      StrLeqTotal(x, y);
    }
    forall x, y, z | StrLeq(x, y) && StrLeq(y, z) ensures StrLeq(x, z) {
      StrLeqTransitive(x, y, z);
    }
    forall x, y | StrLeq(x, y) && StrLeq(y, x) ensures x == y {
      StrLeqAntisymmetric(x, y);
    }
  }

  lemma ScopeOrder()
    ensures TotalPreorder(ScopeLeq) && Antisymmetric(ScopeLeq)
  {
    StringOrder();
    forall x, y, z | ScopeLeq(x, y) && ScopeLeq(y, z) ensures ScopeLeq(x, z) {
      assert StrLeq(x.kind, y.kind) && StrLeq(y.kind, z.kind) ==> StrLeq(x.kind, z.kind);
      if x.kind == z.kind && x.kind != y.kind {
        StrLeqAntisymmetric(x.kind, y.kind);
      }
    }
    forall x, y | ScopeLeq(x, y) && ScopeLeq(y, x) ensures x == y {
    }
  }

  lemma KeyOrder()
    ensures TotalPreorder(KeyLeq)
  {
    StringOrder();
    forall x, y ensures KeyLeq(x, y) || KeyLeq(y, x) {
      StrLeqTotal(Key(x), Key(y));
    }
    forall x, y, z | KeyLeq(x, y) && KeyLeq(y, z) ensures KeyLeq(x, z) {
      StrLeqTransitive(Key(x), Key(y), Key(z));
    }
  }

  /** For the three scope kinds, ordering by key text is ordering by kind, then reference. */
  lemma KeyOrderIsScopeOrder(a: Scope, b: Scope)
    requires ValidKind(a.kind) && ValidKind(b.kind)
    ensures KeyLeq(a, b) <==> ScopeLeq(a, b)
  {
    if a.kind == b.kind {
      StrLeqPrefix(a.kind + ":", a.ref, b.ref);
    } else {
      assert a.kind[0] != b.kind[0];
      assert Key(a)[0] == a.kind[0] && Key(b)[0] == b.kind[0];
    }
  }

  /** A key with a colon-free kind and reference on one side splits one way only. */
  lemma KeyInjective(a: Scope, b: Scope)
    requires ':' !in a.kind && ':' !in a.ref
    requires Key(a) == Key(b)
    ensures a == b
  {
    var k := Key(a);
    assert k[|a.kind|] == ':' && k[|b.kind|] == ':';
    assert forall i | 0 <= i < |a.kind| :: k[i] == a.kind[i];
    assert forall i | 0 <= i < |a.ref| :: k[|a.kind| + 1 + i] == a.ref[i];
    assert forall i | 0 <= i < |k| && i != |a.kind| :: k[i] != ':' by {
      forall i | 0 <= i < |k| && i != |a.kind| ensures k[i] != ':' {
        if i > |a.kind| {
          assert k[i] == a.ref[i - |a.kind| - 1];
        }
      }
    }
    assert |a.kind| == |b.kind|;
    assert a.kind == k[..|a.kind|] == b.kind;
    assert a.ref == k[|a.kind| + 1..] == b.ref;
  }

  lemma ValidKindPlain(kind: string)
    requires ValidKind(kind)
    ensures ':' !in kind && Trim(kind) == kind && kind != ""
  {
    TrimFixed(kind);
  }

  lemma HexPlain(ref: string)
    requires Hex64(ref)
    ensures ':' !in ref
  {
    assert forall i | 0 <= i < |ref| :: HexChar(ref[i]);
  }

  function Keys(scope: seq<Scope>): set<string> {
    set e | e in scope :: Key(e)
  }

  /** Among well-formed entries, a key stands for one entry. */
  lemma KeyMember(e: Scope, scope: seq<Scope>)
    requires forall x | x in scope :: ValidKind(x.kind) && Hex64(x.ref)
    ensures Key(e) in Keys(scope) <==> e in scope
  {
    if Key(e) in Keys(scope) {
      var x :| x in scope && Key(x) == Key(e);
      ValidKindPlain(x.kind);
      HexPlain(x.ref);
      KeyInjective(x, e);
    }
  }

  // ---------- typed lists as incoming values ----------

  function EmbedScope(scope: seq<Scope>): Value {
    Arr(seq(|scope|, i requires 0 <= i < |scope| => Entry(Str(scope[i].kind), Str(scope[i].ref))))
  }

  function EmbedStrings(strings: seq<string>): Value {
    Arr(seq(|strings|, i requires 0 <= i < |strings| => Str(strings[i])))
  }

  // ---------- hashing ----------

  function ZeroHash<P>(p: P): string {
    seq(64, i => '0')
  }

  /** SHA-256 over canonical text: some function of the payload with 64 lower-case hex digits. */
  type Digest<!P(!new)> = h: P -> string | forall p :: Hex64(h(p)) witness x => ZeroHash(x)

  // ---------- revocation ----------

  datatype SubjectKind = ConsentGrant | CapabilityGrant

  datatype Subject = Subject(id: string, kind: SubjectKind)

  /** What a revocation port can do when asked. */
  datatype PortAnswer = VerifiedNotRevoked | Revoked | Unknown | Malformed | Throws

  type Port = Subject -> PortAnswer

  datatype RevocationStatus = IsClear | IsRevoked | IsUnknown

  /** A malformed answer or an exception counts as unknown, never as clear. */
  function Resolve(answer: PortAnswer): RevocationStatus {
    match answer
    case VerifiedNotRevoked => IsClear
    case Revoked => IsRevoked
    case _ => IsUnknown
  }

  /** `Date.parse`: milliseconds, or nothing when the text is not a date. */
  type DateParse = string -> Option<int>

  /** Two date texts order as strings the way they order as instants, when both can be read. */
  ghost predicate Agree(a: string, b: string, parse: DateParse) {
    parse(a).Some? && parse(b).Some? ==> (StrLeq(a, b) <==> parse(a).value <= parse(b).value)
  }

  ghost predicate Orderly(texts: set<string>, parse: DateParse) {
    forall a, b | a in texts && b in texts :: Agree(a, b, parse)
  }

  /** An instant's text and its milliseconds tell the same time. */
  ghost predicate Reads(now: Instant, parse: DateParse) {
    && MillisText(now.iso)
    && parse(SecondOf(now)).Some?
    && parse(SecondOf(now)).value <= now.millis < parse(SecondOf(now)).value + 1000
  }

  /** Texts that are dates to the second, read in their own order: what holds of real calendar times. */
  ghost predicate Calendar(texts: set<string>, parse: DateParse) {
    Orderly(texts, parse) && forall t | t in texts :: parse(t).Some? && parse(t).value % 1000 == 0
  }

  /** Within one calendar, texts compare as whole seconds do, and different texts are at least a second apart. */
  lemma CalendarCompares(a: string, b: string, texts: set<string>, parse: DateParse)
    requires Calendar(texts, parse) && a in texts && b in texts
    ensures StrLeq(a, b) <==> parse(a).value < parse(b).value + 1000
    ensures a == b <==> parse(a).value == parse(b).value
  {
    assert Agree(a, b, parse) && Agree(b, a, parse);
    var x, y := parse(a).value / 1000, parse(b).value / 1000;
    assert parse(a).value == 1000 * x && parse(b).value == 1000 * y;
    if parse(a).value == parse(b).value {
      StrLeqAntisymmetric(a, b);
    }
  }
}
