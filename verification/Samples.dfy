/** One consent and one request to mint from it, for the instances elsewhere. */
module Samples {
  import opened Capability
  import opened Options
  import opened Text
  import opened Sorting
  import opened Values
  import C = Consent

  function Hex(): string { seq(64, i => 'a') }

  const T0 := "2025-01-01T00:00:00Z"
  const T1 := "2026-01-01T00:00:00Z"

  function SampleConsent(): C.Consent {
    C.Consent("1.0", "did:a:b", "did:a:c", C.Grant, [Scope("field", Hex())], ["read"], None, None, T0, Some(T1), None,
              Hex())
  }

  /** A request that leaves the expiry to the consent. */
  function SampleMint(): MintInput {
    MintInput(C.Embed(SampleConsent()), [Scope("field", Hex())], ["read"], T0, None, None, None, Undefined,
              _ => VerifiedNotRevoked)
  }

  /** The two dates can be read, the later as the later. */
  ghost predicate ReadsSample(parseDate: DateParse) {
    parseDate(T0).Some? && parseDate(T1).Some? && parseDate(T0).value < parseDate(T1).value
  }

  lemma SampleStrings()
    ensures Hex64(Hex()) && VersionText("1.0") && Did("did:a:b") && Did("did:a:c") && PermissionText("read")
    ensures IsoSecond(T0) && IsoSecond(T1)
  {
    OneDotZero();
    assert DidSplit("did:a:b", 5) && DidSplit("did:a:c", 5);
  }

  lemma SampleOrder()
    ensures !StrLeq(T1, T0)
  {
    var early, late := "5-01-01T00:00:00Z", "6-01-01T00:00:00Z";
    assert T0 == "202" + early && T1 == "202" + late;
    StrLeqPrefix("202", late, early);
  }

  lemma SampleNormal()
    ensures Norm(Hex()) == Hex() && Trim(Hex()) == Hex() && Trim("1.0") == "1.0"
    ensures Trim("did:a:b") == "did:a:b" && Trim("did:a:c") == "did:a:c"
    ensures Norm("read") == "read" && Trim(T0) == T0 && Trim(T1) == T1 && Trim("read") == "read"
  {
    SampleStrings();
    Hex64Normal(Hex());
    PermissionNormal("read");
    DidTrimmed("did:a:b");
    DidTrimmed("did:a:c");
    TrimFixed("1.0");
    TrimFixed(T0);
    TrimFixed(T1);
  }

  lemma SampleReads(parseDate: DateParse)
    requires ReadsSample(parseDate)
    ensures C.NormalizeConsent(C.Embed(SampleConsent()), parseDate) == Ok(SampleConsent())
  {
    SampleNormal();
    var c := SampleConsent();
    C.ScopeRoundTrip(c.scope);
    C.PermissionsRoundTrip(c.permissions);
    var input := C.Embed(c);
    assert input.scope == EmbedScope(c.scope) && input.permissions == EmbedStrings(c.permissions);
    assert C.Parsable(input, parseDate) && C.Normalisable(input);
  }

  lemma SamplePlain()
    ensures C.PlainFields(SampleConsent())
  {
    SampleStrings();
    SampleOrder();
  }

  lemma SampleReparsable(parseDate: DateParse)
    requires ReadsSample(parseDate)
    ensures C.Reparsable(SampleConsent(), parseDate)
  {
    SampleNormal();
  }

  lemma SampleValid(parseDate: DateParse)
    requires ReadsSample(parseDate)
    ensures C.ValidConsent(SampleConsent(), parseDate)
  {
    SampleStrings();
    SamplePlain();
    SampleReparsable(parseDate);
    OneEntryValid(SampleConsent(), Scope("field", Hex()), "read", parseDate);
  }

  lemma OneEntryValid(c: C.Consent, e: Scope, permission: string, parseDate: DateParse)
    requires C.PlainFields(c) && C.Reparsable(c, parseDate) && c.scope == [e] && c.permissions == [permission]
    requires ValidEntry(e) && PermissionText(permission)
    ensures C.ValidConsent(c, parseDate)
  {
  }

  lemma SampleMintScope()
    ensures MintScope([Scope("field", Hex())]) == [Scope("field", Hex())]
    ensures MintPermissions(["read"]) == ["read"]
  {
    SampleNormal();
    assert NormalScope([Scope("field", Hex())]) == [Scope("field", Hex())];
    assert NormalPermissions(["read"]) == ["read"];
    DedupeFixed(["read"]);
    SortFixed(["read"], StrLeq);
    SortFixed([Scope("field", Hex())], KeyLeq);
  }

  lemma SampleReady(parseDate: DateParse)
    requires ReadsSample(parseDate)
    ensures AssertConsentReady(SampleMint().consent, parseDate(T0).value, SampleMint().consentPort, parseDate)
         == Ok(SampleConsent())
  {
    SampleReads(parseDate);
    SampleValid(parseDate);
  }

  lemma SampleRequest()
    ensures MintRequestError(SampleMint(), SampleConsent()).None?
  {
    SampleMintScope();
    var e := Scope("field", Hex());
    assert e in SampleConsent().scope;
    assert Key(e) in Keys(SampleConsent().scope);
  }

  lemma SampleTimes()
    ensures MintTimeError(SampleMint(), T1, Some(T1)).None?
  {
    SampleStrings();
    SampleOrder();
    TimesToTheLimit(SampleMint(), T1);
  }

  lemma TimesToTheLimit(m: MintInput, limit: string)
    requires IsoSecond(limit) && !StrLeq(limit, m.issuedAt) && m.notBefore.None?
    ensures MintTimeError(m, limit, Some(limit)).None?
  {
    StrLeqTotal(limit, limit);
  }

  /** One mint in the concrete, for every hash and every date reader that can read its issue time. */
  lemma SampleIsMinted(hash: HashFn, parseDate: DateParse)
    requires ReadsSample(parseDate)
    ensures MintCapability(SampleMint(), hash, parseDate).Ok?
  {
    SampleStrings();
    SampleReady(parseDate);
    SampleRequest();
    SampleTimes();
  }
}
