/** What is minted and cannot be verified: from a consent with a blank market maker, or with metadata that is no
    object. */
module Unverifiable {
  import opened Samples
  import opened Capability
  import opened Options
  import opened Text
  import opened Values
  import C = Consent

  /** A blank market maker passes every check of the mint. */
  function Blanked(m: MintInput): MintInput
    requires m.consent.ConsentRecord?
  {
    m.(consent := m.consent.(marketMakerId := Str(" ")))
  }

  lemma BlankedReady(m: MintInput, nowMillis: int, parseDate: DateParse)
    requires m.consent.ConsentRecord? && m.consent.marketMakerId.Undefined?
    requires AssertConsentReady(m.consent, nowMillis, m.consentPort, parseDate).Ok?
    ensures AssertConsentReady(Blanked(m).consent, nowMillis, m.consentPort, parseDate)
         == Ok(AssertConsentReady(m.consent, nowMillis, m.consentPort, parseDate).value.(marketMakerId := Some("")))
  {
    assert Trim(" ") == "" by {
      assert " "[1..] == "";
    }
    ReadyConsent(m.consent, nowMillis, m.consentPort, parseDate);
    var consent := AssertConsentReady(m.consent, nowMillis, m.consentPort, parseDate).value;
    assert C.NormalizeConsent(Blanked(m).consent, parseDate) == Ok(consent.(marketMakerId := Some("")));
    assert C.ValidConsent(consent.(marketMakerId := Some("")), parseDate);
  }

  lemma BlankedRequest(m: MintInput, other: C.ConsentInput, consent: C.Consent)
    requires consent.marketMakerId.None? && MintRequestError(m, consent).None?
    ensures MintRequestError(m.(consent := other), consent.(marketMakerId := Some(""))).None?
  {
    assert m.marketMakerId.None?;
    var n, blanked := m.(consent := other), consent.(marketMakerId := Some(""));
    assert n.scope == m.scope && n.permissions == m.permissions;
    assert blanked.scope == consent.scope && blanked.permissions == consent.permissions;
  }

  lemma BlankedTimes(m: MintInput, other: C.ConsentInput, expiresAt: string, limit: Option<string>)
    ensures MintTimeError(m.(consent := other), expiresAt, limit) == MintTimeError(m, expiresAt, limit)
  {
  }

  lemma BlankedMints(m: MintInput, hash: HashFn, parseDate: DateParse)
    requires MintCapability(m, hash, parseDate).Ok? && m.consent.ConsentRecord? && m.consent.marketMakerId.Undefined?
    ensures MintCapability(Blanked(m), hash, parseDate).Ok?
    ensures MintCapability(Blanked(m), hash, parseDate).value.marketMakerId == Some("")
  {
    var consent := AssertConsentReady(m.consent, parseDate(m.issuedAt).value, m.consentPort, parseDate).value;
    BlankedReady(m, parseDate(m.issuedAt).value, parseDate);
    BlankedRequest(m, Blanked(m).consent, consent);
    var expiresAt := if m.expiresAt.Some? then m.expiresAt.value else consent.expiresAt.value;
    BlankedTimes(m, Blanked(m).consent, expiresAt, consent.expiresAt);
  }

  /** Whatever can be minted from a consent without a market maker can be minted with a blank one, and then the
      verifier turns down what the mint has just sealed. */
  lemma BlankMarketMakerBreaks(m: MintInput, hash: HashFn, parseDate: DateParse)
    requires MintCapability(m, hash, parseDate).Ok? && m.consent.ConsentRecord? && m.consent.marketMakerId.Undefined?
    ensures MintCapability(Blanked(m), hash, parseDate).Ok?
    ensures VerifyCapability(Embed(MintCapability(Blanked(m), hash, parseDate).value), hash)
         == Rejected([BadMarketMaker])
  {
    BlankedMints(m, hash, parseDate);
    MintIsCanonical(Blanked(m), hash, parseDate);
    var c := MintCapability(Blanked(m), hash, parseDate).value;
    CanonicalIsItsOwnSpelling(c, hash);
    CanonicalVerifies(c, c, hash);
  }

  /** Metadata reaches the capability as it comes and decides nothing in the mint. */
  lemma MetadataIsCopied(m: MintInput, metadata: Value, hash: HashFn, parseDate: DateParse)
    requires MintCapability(m, hash, parseDate).Ok?
    ensures MintCapability(m.(metadata := metadata), hash, parseDate)
         == Ok(MintCapability(m, hash, parseDate).value.(metadata := metadata))
  {
    var consent := AssertConsentReady(m.consent, parseDate(m.issuedAt).value, m.consentPort, parseDate).value;
    MetadataIsUnchecked(m, metadata, consent);
    var expiresAt := if m.expiresAt.Some? then m.expiresAt.value else consent.expiresAt.value;
    MetadataIsUntimed(m, metadata, expiresAt, consent.expiresAt);
  }

  lemma MetadataIsUnchecked(m: MintInput, metadata: Value, consent: C.Consent)
    ensures MintRequestError(m.(metadata := metadata), consent) == MintRequestError(m, consent)
  {
    var n := m.(metadata := metadata);
    assert n.scope == m.scope && n.permissions == m.permissions;
  }

  lemma MetadataIsUntimed(m: MintInput, metadata: Value, expiresAt: string, limit: Option<string>)
    ensures MintTimeError(m.(metadata := metadata), expiresAt, limit) == MintTimeError(m, expiresAt, limit)
  {
  }

  /** Whatever can be minted can be minted with metadata that is no object, and the verifier then turns it down. */
  lemma MetadataBreaks(m: MintInput, metadata: Value, hash: HashFn, parseDate: DateParse)
    requires MintCapability(m, hash, parseDate).Ok? && !ObjectOrNone(metadata)
    ensures var minted := MintCapability(m.(metadata := metadata), hash, parseDate);
      var consent := C.NormalizeConsent(m.consent, parseDate).value;
      && minted.Ok?
      && VerifyCapability(Embed(minted.value), hash)
      == Rejected([if consent.marketMakerId == Some("") then BadMarketMaker else BadMetadata])
  {
    C.NormalizedStrings(m.consent, parseDate);
    MintAttenuates(m, hash, parseDate);
    MetadataIsCopied(m, metadata, hash, parseDate);
    MintIsCanonical(m.(metadata := metadata), hash, parseDate);
    var c := MintCapability(m.(metadata := metadata), hash, parseDate).value;
    CanonicalIsItsOwnSpelling(c, hash);
    CanonicalVerifies(c, c, hash);
  }

  /** A consent whose market maker is one blank: the mint seals a capability that the verifier turns down. */
  lemma BlankMarketMakerExample(hash: HashFn, parseDate: DateParse)
    requires ReadsSample(parseDate)
    ensures SampleMint().consent.ConsentRecord?
    ensures var minted := MintCapability(Blanked(SampleMint()), hash, parseDate);
      minted.Ok? && VerifyCapability(Embed(minted.value), hash) == Rejected([BadMarketMaker])
  {
    SampleIsMinted(hash, parseDate);
    BlankMarketMakerBreaks(SampleMint(), hash, parseDate);
  }

  /** A request with `metadata: null`, and no market maker at all: minted and turned down. */
  lemma NullMetadataExample(hash: HashFn, parseDate: DateParse)
    requires ReadsSample(parseDate)
    ensures var minted := MintCapability(SampleMint().(metadata := Null), hash, parseDate);
      minted.Ok? && VerifyCapability(Embed(minted.value), hash) == Rejected([BadMetadata])
  {
    SampleIsMinted(hash, parseDate);
    SampleReads(parseDate);
    MetadataBreaks(SampleMint(), Null, hash, parseDate);
  }
}
