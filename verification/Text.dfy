/** ASCII strings as the protocol handles them: trimming, lower-casing, the
    code-unit order behind JavaScript's `<` and `sort`, and the shared field patterns. */
module Text {

  // ---------- trimming and lower-casing ----------

  predicate Blank(c: char) {
    c == ' ' || '\t' <= c <= '\r'
  }

  function TrimLeft(s: string): string {
    if s != "" && Blank(s[0]) then TrimLeft(s[1..]) else s
  }

  function TrimRight(s: string): string {
    if s != "" && Blank(s[|s| - 1]) then TrimRight(s[..|s| - 1]) else s
  }

  function Trim(s: string): string {
    TrimRight(TrimLeft(s))
  }

  function LowerChar(c: char): char {
    if 'A' <= c <= 'Z' then (c as int + 32) as char else c
  }

  function Lower(s: string): string {
    seq(|s|, i requires 0 <= i < |s| => LowerChar(s[i]))
  }

  /** The normal form of hashes, scope references and permissions. */
  function Norm(s: string): string {
    Lower(Trim(s))
  }

  /** A trimmed string is empty or has a non-blank character at both ends. */
  predicate Trimmed(s: string) {
    s == "" || (!Blank(s[0]) && !Blank(s[|s| - 1]))
  }

  lemma TrimLeftShape(s: string)
    ensures TrimLeft(s) == "" || !Blank(TrimLeft(s)[0])
  {
  }

  lemma TrimRightShape(s: string)
    ensures TrimRight(s) <= s
    ensures TrimRight(s) == "" || !Blank(TrimRight(s)[|TrimRight(s)| - 1])
  {
  }

  lemma TrimShape(s: string)
    ensures Trimmed(Trim(s))
  {
    TrimLeftShape(s);
    TrimRightShape(TrimLeft(s));
  }

  /** A space, or a tab, line feed, vertical tab, form feed or carriage return. */
  ghost predicate White(s: string) {
    forall i | 0 <= i < |s| :: s[i] in {' ', '\t', '\n', 11 as char, 12 as char, '\r'}
  }

  /** Trimming takes white space off both ends, and all of it. */
  lemma TrimTells(s: string) returns (front: string, back: string)
    ensures s == front + Trim(s) + back && White(front) && White(back)
    ensures Trim(s) != "" ==> !White(Trim(s)[..1]) && !White(Trim(s)[|Trim(s)| - 1..])
  {
    front := LeftTells(s);
    back := RightTells(TrimLeft(s));
    Joined(s, front, TrimLeft(s), Trim(s), back);
    TrimShape(s);
    if Trim(s) != "" {
      TrimmedEnds(Trim(s));
    }
  }

  lemma Joined(s: string, front: string, rest: string, middle: string, back: string)
    requires s == front + rest && rest == middle + back
    ensures s == front + middle + back
  {
  }

  lemma TrimmedEnds(s: string)
    requires Trimmed(s) && s != ""
    ensures !White(s[..1]) && !White(s[|s| - 1..])
  {
    assert s[..1][0] == s[0] && s[|s| - 1..][0] == s[|s| - 1];
  }

  lemma LeftTells(s: string) returns (front: string)
    ensures s == front + TrimLeft(s) && White(front)
  {
    front := "";
    if s != "" && Blank(s[0]) {
      front := LeftTells(s[1..]);
      front := [s[0]] + front;
    }
  }

  lemma RightTells(s: string) returns (back: string)
    ensures s == TrimRight(s) + back && White(back)
  {
    back := "";
    if s != "" && Blank(s[|s| - 1]) {
      back := RightTells(s[..|s| - 1]);
      back := back + [s[|s| - 1]];
    }
  }

  /** Lower-casing changes capital letters to small ones and nothing else. */
  lemma LowerTells(s: string, i: nat)
    requires i < |s|
    ensures |Lower(s)| == |s|
    ensures 'A' <= s[i] <= 'Z' ==> 'a' <= Lower(s)[i] <= 'z' && Lower(s)[i] - 'a' == s[i] - 'A'
    ensures !('A' <= s[i] <= 'Z') ==> Lower(s)[i] == s[i]
  {
  }

  lemma TrimFixed(s: string)
    requires Trimmed(s)
    ensures Trim(s) == s
  {
  }

  lemma TrimIdempotent(s: string)
    ensures Trim(Trim(s)) == Trim(s)
  {
    TrimShape(s);
    TrimFixed(Trim(s));
  }

  lemma NormIdempotent(s: string)
    ensures Trim(Norm(s)) == Norm(s)
    ensures Norm(Norm(s)) == Norm(s)
    ensures Norm(s) == "" <==> Trim(s) == ""
  {
    TrimShape(s);
    var n := Norm(s);
    assert Trimmed(n);
    TrimFixed(n);
    assert Lower(n) == n;
  }

  // ---------- the code-unit order ----------

  predicate StrLeq(a: string, b: string) {
    a == "" || (b != "" && (a[0] < b[0] || (a[0] == b[0] && StrLeq(a[1..], b[1..]))))
  }

  predicate StrLt(a: string, b: string) {
    !StrLeq(b, a)
  }

  lemma StrLeqTotal(a: string, b: string)
    ensures StrLeq(a, b) || StrLeq(b, a)
  {
  }

  lemma StrLeqAntisymmetric(a: string, b: string)
    requires StrLeq(a, b) && StrLeq(b, a)
    ensures a == b
  {
    if a != "" {
      StrLeqAntisymmetric(a[1..], b[1..]);
      assert a == [a[0]] + a[1..] && b == [b[0]] + b[1..];
    }
  }

  lemma StrLeqTransitive(a: string, b: string, c: string)
    requires StrLeq(a, b) && StrLeq(b, c)
    ensures StrLeq(a, c)
  {
  }

  /** Texts of one length that compare at every place compare as a whole. */
  lemma PointwiseLeq(a: string, b: string)
    requires |a| == |b| && forall i | 0 <= i < |a| :: a[i] <= b[i]
    ensures StrLeq(a, b)
  {
    if a != "" {
      assert forall i | 0 <= i < |a| - 1 :: a[1..][i] == a[i + 1] && b[1..][i] == b[i + 1];
      PointwiseLeq(a[1..], b[1..]);
    }
  }

  /** Two texts differ first at a place. */
  ghost predicate DifferAt(a: string, b: string, k: int) {
    0 <= k < |a| && k < |b| && a[..k] == b[..k] && a[k] != b[k]
  }

  ghost predicate Smaller(a: string, b: string) {
    exists k :: DifferAt(a, b, k) && a[k] < b[k]
  }

  lemma SmallerCons(a: string, b: string)
    requires a != "" && b != ""
    ensures Smaller(a, b) <==> a[0] < b[0] || (a[0] == b[0] && Smaller(a[1..], b[1..]))
  {
    var c, d := a[1..], b[1..];
    assert a == [a[0]] + c && b == [b[0]] + d;
    if a[0] != b[0] {
      assert DifferAt(a, b, 0);
    }
    if Smaller(a, b) {
      var k :| DifferAt(a, b, k) && a[k] < b[k];
      if k > 0 {
        assert a[..k][0] == b[..k][0];
        assert c[..k - 1] == a[..k][1..] && d[..k - 1] == b[..k][1..];
        assert DifferAt(c, d, k - 1);
      }
    }
    if a[0] == b[0] && Smaller(c, d) {
      var k :| DifferAt(c, d, k) && c[k] < d[k];
      assert a[..k + 1] == [a[0]] + c[..k] && b[..k + 1] == [b[0]] + d[..k];
      assert DifferAt(a, b, k + 1);
    }
  }

  /** One text is at most another exactly when it begins it, or is smaller in code units where they first differ. */
  lemma {:induction false} StrLeqTells(a: string, b: string)
    ensures StrLeq(a, b) <==> a <= b || Smaller(a, b)
  {
    if a != "" && b != "" {
      assert a == [a[0]] + a[1..] && b == [b[0]] + b[1..];
      StrLeqTells(a[1..], b[1..]);
      SmallerCons(a, b);
    }
  }

  /** A common prefix does not change an order comparison. */
  lemma {:induction false} StrLeqPrefix(p: string, a: string, b: string)
    ensures StrLeq(p + a, p + b) <==> StrLeq(a, b)
  {
    if p == "" {
      assert p + a == a && p + b == b;
    } else {
      StrLeqPrefix(p[1..], a, b);
      assert (p + a)[1..] == p[1..] + a && (p + b)[1..] == p[1..] + b;
    }
  }

  /** A difference inside two equally long heads settles the comparison, whatever follows. */
  lemma {:induction false} StrLeqHeads(p: string, q: string, a: string, b: string)
    requires |p| == |q| && p != q
    ensures StrLeq(p + a, q + b) <==> StrLeq(p, q)
  {
    if p != "" {
      assert p == [p[0]] + p[1..] && q == [q[0]] + q[1..];
      assert (p + a)[1..] == p[1..] + a && (q + b)[1..] == q[1..] + b;
      if p[0] == q[0] {
        StrLeqHeads(p[1..], q[1..], a, b);
      }
    }
  }

  // ---------- field patterns ----------

  predicate Digit(c: char) {
    '0' <= c <= '9'
  }

  predicate LowerAlpha(c: char) {
    'a' <= c <= 'z'
  }

  predicate HexChar(c: char) {
    Digit(c) || 'a' <= c <= 'f'
  }

  /** 64 lower-case hexadecimal digits. */
  predicate Hex64(s: string) {
    |s| == 64 && forall i | 0 <= i < |s| :: HexChar(s[i])
  }

  predicate DidMethodChar(c: char) {
    LowerAlpha(c) || Digit(c)
  }

  predicate DidIdChar(c: char) {
    LowerAlpha(c) || 'A' <= c <= 'Z' || Digit(c) || c == '.' || c == '_' || c == '%' || c == '-'
  }

  /** `did:` method `:` identifier, with method and identifier non-empty. */
  predicate Did(s: string) {
    && "did:" <= s
    && exists k | 5 <= k < |s| - 1 :: DidSplit(s, k)
  }

  predicate DidSplit(s: string, k: nat)
    requires 4 <= k < |s|
  {
    && s[k] == ':'
    && (forall i | 4 <= i < k :: DidMethodChar(s[i]))
    && (forall i | k < i < |s| :: DidIdChar(s[i]))
  }

  /** `YYYY-MM-DDTHH:MM:SSZ`, by shape only. */
  predicate IsoSecond(s: string) {
    && |s| == 20
    && (forall i | 0 <= i < 20 && i !in {4, 7, 10, 13, 16, 19} :: Digit(s[i]))
    && s[4] == '-' && s[7] == '-' && s[10] == 'T' && s[13] == ':' && s[16] == ':' && s[19] == 'Z'
  }

  /** One or more digits, a dot, one or more digits. */
  predicate VersionText(s: string) {
    exists k | 0 < k < |s| - 1 ::
      s[k] == '.' && forall i | 0 <= i < |s| && i != k :: Digit(s[i])
  }

  lemma OneDotZero()
    ensures VersionText("1.0")
  {
    var v := "1.0";
    assert v[1] == '.' && Digit(v[0]) && Digit(v[2]);
  }

  /** One or more lower-case letters, digits or hyphens. */
  predicate PermissionText(s: string) {
    s != "" && forall i | 0 <= i < |s| :: LowerAlpha(s[i]) || Digit(s[i]) || s[i] == '-'
  }

  lemma DidTrimmed(s: string)
    requires Did(s)
    ensures Trim(s) == s
  {
    var k :| 5 <= k < |s| - 1 && DidSplit(s, k);
    assert s[0] == 'd' && DidIdChar(s[|s| - 1]);
    TrimFixed(s);
  }

  lemma Hex64Normal(s: string)
    requires Hex64(s)
    ensures Trim(s) == s && Norm(s) == s
  {
    assert HexChar(s[0]) && HexChar(s[|s| - 1]);
    TrimFixed(s);
    assert Lower(s) == s;
  }

  lemma PermissionNormal(s: string)
    requires PermissionText(s)
    ensures Trim(s) == s && Norm(s) == s
  {
    TrimFixed(s);
    assert Lower(s) == s;
  }

  // ---------- keys made of two names ----------

  /** `${a}::${b}`, the key under which snapshots, prices and bill lines are kept. */
  function PairKey(a: string, b: string): string {
    a + "::" + b
  }

  /** Which names give one key: those of which the one is the other's with some of its second name moved over. */
  lemma PairKeyEqual(a: string, b: string, a': string, b': string)
    requires |a| <= |a'|
    ensures PairKey(a, b) == PairKey(a', b') <==>
      a + "::" <= a' + "::" && b == (a' + "::")[|a| + 2..] + b'
  {
    var front, front' := a + "::", a' + "::";
    if PairKey(a, b) == PairKey(a', b') {
      assert front == PairKey(a, b)[..|front|] == front'[..|front|];
      assert b == PairKey(a, b)[|front|..] == (front' + b')[|front|..] == front'[|front|..] + b';
    }
    if front <= front' && b == front'[|front|..] + b' {
      assert front' == front + front'[|front|..];
      assert front + (front'[|front|..] + b') == front' + b';
    }
  }

  /** Two first names can ever share a key exactly when the one with its colons begins the other with its colons. */
  lemma PairKeyCollision(a: string, a': string)
    ensures (exists b, b' :: PairKey(a, b) == PairKey(a', b')) <==> a + "::" <= a' + "::" || a' + "::" <= a + "::"
  {
    forall b, b' | PairKey(a, b) == PairKey(a', b') ensures a + "::" <= a' + "::" || a' + "::" <= a + "::" {
      if |a| <= |a'| {
        PairKeyEqual(a, b, a', b');
      } else {
        PairKeyEqual(a', b', a, b);
      }
    }
    if a + "::" <= a' + "::" {
      PairKeyEqual(a, (a' + "::")[|a| + 2..] + "", a', "");
    } else if a' + "::" <= a + "::" {
      PairKeyEqual(a', (a + "::")[|a'| + 2..] + "", a, "");
    }
  }

  /** Of two different first names without a colon neither, with its colons, begins the other. */
  lemma PlainNamesApart(a: string, a': string)
    requires ':' !in a && ':' !in a' && a + "::" <= a' + "::"
    ensures a == a'
  {
    var front, front' := a + "::", a' + "::";
    assert front'[|a|] == front[|a|] == ':';
    assert forall i | 0 <= i < |a'| :: front'[i] == a'[i] != ':';
    assert a == front[..|a|] == front'[..|a'|] == a';
  }

  /** So keys of colon-free first names give both names back. */
  lemma PairKeyInjective(a: string, b: string, a': string, b': string)
    requires ':' !in a && ':' !in a'
    ensures PairKey(a, b) == PairKey(a', b') <==> a == a' && b == b'
  {
    if PairKey(a, b) == PairKey(a', b') {
      if |a| <= |a'| {
        PairKeyEqual(a, b, a', b');
        PlainNamesApart(a, a');
      } else {
        PairKeyEqual(a', b', a, b);
        PlainNamesApart(a', a);
      }
      assert b == (a + "::" + b)[|a| + 2..] == b';
    }
  }

  // ---------- decimal numerals ----------

  function DigitChar(d: nat): char
    requires d < 10
  {
    ('0' as int + d) as char
  }

  function Decimal(n: nat): (s: string)
    ensures s != ""
  {
    if n < 10 then [DigitChar(n)] else Decimal(n / 10) + [DigitChar(n % 10)]
  }

  lemma {:induction false} DecimalInjective(m: nat, n: nat)
    requires Decimal(m) == Decimal(n)
    ensures m == n
  {
    var a, b := Decimal(m), Decimal(n);
    assert a[|a| - 1] == DigitChar(m % 10) && b[|b| - 1] == DigitChar(n % 10);
    if m >= 10 && n >= 10 {
      assert a[..|a| - 1] == Decimal(m / 10) && b[..|b| - 1] == Decimal(n / 10);
      DecimalInjective(m / 10, n / 10);
    }
  }

  /** Numbered identifiers under one prefix are distinct for distinct numbers. */
  lemma NumberedInjective(prefix: string, m: nat, n: nat)
    requires prefix + Decimal(m) == prefix + Decimal(n)
    ensures m == n
  {
    assert (prefix + Decimal(m))[|prefix|..] == Decimal(m);
    assert (prefix + Decimal(n))[|prefix|..] == Decimal(n);
    DecimalInjective(m, n);
  }
}
