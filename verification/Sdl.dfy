/** SDL paths: the split-based parser, the validator, and the vault's regular expression. */
module Sdl {
  import opened Options
  import Text

  // ---------- regular expressions, by their language ----------

  datatype CharClass = LetterClass | SegmentClass | DotClass

  datatype Regex = Class(c: CharClass) | Cat(left: Regex, right: Regex) | Star(body: Regex)

  predicate InClass(c: CharClass, x: char) {
    match c
    case LetterClass => Text.LowerAlpha(x)
    case SegmentClass => Text.LowerAlpha(x) || Text.Digit(x) || x == '-'
    case DotClass => x == '.'
  }

  ghost predicate Matches(re: Regex, s: string)
    decreases re, |s|
  {
    match re
    case Class(c) => |s| == 1 && InClass(c, s[0])
    case Cat(left, right) => exists k | 0 <= k <= |s| :: Matches(left, s[..k]) && Matches(right, s[k..])
    case Star(body) => s == "" || exists k | 0 < k <= |s| :: Matches(body, s[..k]) && Matches(re, s[k..])
  }

  function Plus(re: Regex): Regex {
    Cat(re, Star(re))
  }

  /** `[a-z][a-z0-9-]*` */
  const SEGMENT := Cat(Class(LetterClass), Star(Class(SegmentClass)))

  const DOT_SEGMENT := Cat(Class(DotClass), SEGMENT)

  /** `[a-z][a-z0-9-]*(\.[a-z][a-z0-9-]*)+` */
  const SDL_PATH := Cat(SEGMENT, Plus(DOT_SEGMENT))

  // ---------- splitting and joining ----------

  /** `s.split('.')` */
  function Split(s: string): (r: seq<string>)
    ensures r != []
  {
    if s == "" then [""]
    else
      var rest := Split(s[1..]);
      if s[0] == '.' then [""] + rest else [[s[0]] + rest[0]] + rest[1..]
  }

  /** `segments.join('.')` */
  function Join(segments: seq<string>): string
    requires segments != []
  {
    if |segments| == 1 then segments[0] else segments[0] + "." + Join(segments[1..])
  }

  lemma {:induction false} JoinSplit(s: string)
    ensures Join(Split(s)) == s
  {
    if s != "" {
      var rest := Split(s[1..]);
      JoinSplit(s[1..]);
      assert s == [s[0]] + s[1..];
      if s[0] == '.' {
        assert ([""] + rest)[1..] == rest;
      } else if |rest| > 1 {
        assert ([[s[0]] + rest[0]] + rest[1..])[1..] == rest[1..];
        assert [s[0]] + rest[0] + "." + Join(rest[1..]) == [s[0]] + (rest[0] + "." + Join(rest[1..]));
      }
    }
  }

  lemma {:induction false} SplitPlain(s: string)
    requires '.' !in s
    ensures Split(s) == [s]
  {
    if s != "" {
      assert s == [s[0]] + s[1..];
      SplitPlain(s[1..]);
    }
  }

  lemma {:induction false} SplitAfterPlain(s: string, t: string)
    requires '.' !in s
    ensures Split(s + "." + t) == [s] + Split(t)
  {
    if s == "" {
      assert (s + "." + t)[1..] == t;
    } else {
      assert (s + "." + t)[1..] == s[1..] + "." + t;
      SplitAfterPlain(s[1..], t);
      assert s == [s[0]] + s[1..];
    }
  }

  lemma {:induction false} SplitJoin(segments: seq<string>)
    requires segments != [] && forall s | s in segments :: '.' !in s
    ensures Split(Join(segments)) == segments
  {
    if |segments| == 1 {
      SplitPlain(segments[0]);
    } else {
      SplitJoin(segments[1..]);
      SplitAfterPlain(segments[0], Join(segments[1..]));
    }
  }

  // ---------- the language of segments ----------

  /** The segment test as the parser and the validator apply it. */
  predicate IsSegment(s: string) {
    s != "" && Text.LowerAlpha(s[0]) && forall i | 0 <= i < |s| :: InClass(SegmentClass, s[i])
  }

  lemma {:induction false} StarOfClass(c: CharClass, s: string)
    ensures Matches(Star(Class(c)), s) <==> forall i | 0 <= i < |s| :: InClass(c, s[i])
  {
    if s != "" {
      StarOfClass(c, s[1..]);
      if Matches(Star(Class(c)), s) {
        var k :| 0 < k <= |s| && Matches(Class(c), s[..k]) && Matches(Star(Class(c)), s[k..]);
        assert k == 1;
        assert forall i | 1 <= i < |s| :: s[i] == s[1..][i - 1];
      }
      if forall i | 0 <= i < |s| :: InClass(c, s[i]) {
        assert Matches(Class(c), s[..1]);
        assert Matches(Star(Class(c)), s[1..]);
      }
    }
  }

  /** The segment test accepts exactly the language of the segment pattern. */
  lemma SegmentLanguage(s: string)
    ensures Matches(SEGMENT, s) <==> IsSegment(s)
  {
    if Matches(SEGMENT, s) {
      var k :| 0 <= k <= |s| && Matches(Class(LetterClass), s[..k]) && Matches(Star(Class(SegmentClass)), s[k..]);
      StarOfClass(SegmentClass, s[k..]);
      assert k == 1 && forall i | 1 <= i < |s| :: s[i] == s[1..][i - 1];
    }
    if IsSegment(s) {
      StarOfClass(SegmentClass, s[1..]);
      assert Matches(Class(LetterClass), s[..1]);
    }
  }

  lemma SegmentPlain(s: string)
    requires IsSegment(s)
    ensures '.' !in s && forall i | 0 <= i < |s| :: !Text.Blank(s[i])
  {
    forall i | 0 <= i < |s| ensures s[i] != '.' && !Text.Blank(s[i]) {
      assert InClass(SegmentClass, s[i]);
    }
  }

  // ---------- the language of paths ----------

  /** Segments, each with a dot before it. */
  ghost function Dotted(segments: seq<string>): string {
    if segments == [] then "" else "." + segments[0] + Dotted(segments[1..])
  }

  lemma {:induction false} JoinDotted(segments: seq<string>)
    requires segments != []
    ensures Join(segments) == segments[0] + Dotted(segments[1..])
  {
    if |segments| > 1 {
      JoinDotted(segments[1..]);
      assert segments[0] + "." + (segments[1] + Dotted(segments[2..]))
        == segments[0] + ("." + segments[1] + Dotted(segments[2..]));
      assert segments[1..][1..] == segments[2..];
    } else {
      assert segments[0] + "" == segments[0];
    }
  }

  ghost predicate AllSegments(segments: seq<string>) {
    forall s | s in segments :: IsSegment(s)
  }

  lemma DotSegmentLanguage(s: string)
    ensures Matches(DOT_SEGMENT, s) <==> s != "" && s[0] == '.' && IsSegment(s[1..])
  {
    if Matches(DOT_SEGMENT, s) {
      var k :| 0 <= k <= |s| && Matches(Class(DotClass), s[..k]) && Matches(SEGMENT, s[k..]);
      assert k == 1;
      SegmentLanguage(s[1..]);
    }
    if s != "" && s[0] == '.' && IsSegment(s[1..]) {
      SegmentLanguage(s[1..]);
      assert Matches(Class(DotClass), s[..1]);
    }
  }

  lemma {:induction false} DottedFromStar(s: string) returns (segments: seq<string>)
    requires Matches(Star(DOT_SEGMENT), s)
    ensures AllSegments(segments) && s == Dotted(segments)
    decreases |s|
  {
    if s == "" {
      return [];
    }
    var k :| 0 < k <= |s| && Matches(DOT_SEGMENT, s[..k]) && Matches(Star(DOT_SEGMENT), s[k..]);
    DotSegmentLanguage(s[..k]);
    var rest := DottedFromStar(s[k..]);
    segments := [s[..k][1..]] + rest;
    assert segments[1..] == rest;
    assert s == s[..k] + s[k..] && s[..k] == "." + s[..k][1..];
  }

  lemma {:induction false} StarFromDotted(segments: seq<string>)
    requires AllSegments(segments)
    ensures Matches(Star(DOT_SEGMENT), Dotted(segments))
  {
    if segments != [] {
      StarFromDotted(segments[1..]);
      var s, head := Dotted(segments), "." + segments[0];
      assert head[1..] == segments[0];
      DotSegmentLanguage(head);
      assert s[..|head|] == head && s[|head|..] == Dotted(segments[1..]);
    }
  }

  /** The path pattern's language: two or more segments joined by dots. */
  lemma PathLanguage(s: string)
    ensures Matches(SDL_PATH, s) <==> |Split(s)| >= 2 && AllSegments(Split(s))
  {
    if Matches(SDL_PATH, s) {
      var k :| 0 <= k <= |s| && Matches(SEGMENT, s[..k]) && Matches(Plus(DOT_SEGMENT), s[k..]);
      SegmentLanguage(s[..k]);
      PathSplits(s, k);
    }
    if |Split(s)| >= 2 && AllSegments(Split(s)) {
      PathFromSegments(Split(s));
      JoinSplit(s);
    }
  }

  lemma PathSplits(s: string, k: nat)
    requires k <= |s| && IsSegment(s[..k]) && Matches(Plus(DOT_SEGMENT), s[k..])
    ensures |Split(s)| >= 2 && AllSegments(Split(s))
  {
    var t := s[k..];
    var j :| 0 <= j <= |t| && Matches(DOT_SEGMENT, t[..j]) && Matches(Star(DOT_SEGMENT), t[j..]);
    DotSegmentLanguage(t[..j]);
    var rest := DottedFromStar(t[j..]);
    var tail := [t[..j][1..]] + rest;
    assert tail[1..] == rest;
    assert t == t[..j] + t[j..] && t[..j] == "." + t[..j][1..];
    var segments := [s[..k]] + tail;
    assert segments[1..] == tail;
    assert s == s[..k] + t;
    JoinDotted(segments);
    forall x | x in segments ensures IsSegment(x) && '.' !in x {
      assert x == s[..k] || x == t[..j][1..] || x in rest;
      SegmentPlain(x);
    }
    SplitJoin(segments);
  }

  lemma PathFromSegments(segments: seq<string>)
    requires |segments| >= 2 && AllSegments(segments)
    ensures Matches(SDL_PATH, Join(segments))
  {
    var s, head, tail := Join(segments), segments[0], segments[1..];
    JoinDotted(segments);
    SegmentLanguage(head);
    var first := "." + tail[0];
    assert first[1..] == tail[0];
    DotSegmentLanguage(first);
    StarFromDotted(tail[1..]);
    var t := Dotted(tail);
    assert t[..|first|] == first && t[|first|..] == Dotted(tail[1..]);
    assert Matches(Plus(DOT_SEGMENT), t);
    assert s[..|head|] == head && s[|head|..] == t;
  }

  // ---------- the parser ----------

  datatype Segment = Segment(value: string, index: int)

  datatype Path = Path(raw: string, segments: seq<Segment>, domain: string, attribute: string)

  datatype ErrorCode = EmptyInput | LeadingDot | TrailingDot | EmptySegment | TooFewSegments | InvalidSegment

  datatype ParseError = ParseError(input: string, code: ErrorCode)

  function Indexed(values: seq<string>): seq<Segment> {
    seq(|values|, i requires 0 <= i < |values| => Segment(values[i], i))
  }

  function Values(segments: seq<Segment>): seq<string> {
    seq(|segments|, i requires 0 <= i < |segments| => segments[i].value)
  }

  function PathOf(raw: string, values: seq<string>): Path
    requires values != []
  {
    Path(raw, Indexed(values), values[0], values[|values| - 1])
  }

  function ParseSDLPath(input: string): Result<Path, ParseError> {
    var trimmed := Text.Trim(input);
    if trimmed == "" then Err(ParseError(input, EmptyInput))
    else if trimmed[0] == '.' then Err(ParseError(trimmed, LeadingDot))
    else if trimmed[|trimmed| - 1] == '.' then Err(ParseError(trimmed, TrailingDot))
    else
      var values := Split(trimmed);
      if exists v | v in values :: v == "" then Err(ParseError(trimmed, EmptySegment))
      else if |values| < 2 then Err(ParseError(trimmed, TooFewSegments))
      else if exists v | v in values :: !IsSegment(v) then Err(ParseError(trimmed, InvalidSegment))
      else Ok(PathOf(trimmed, values))
  }

  lemma EndsOfSplit(s: string)
    requires s != ""
    ensures s[0] == '.' ==> Split(s)[0] == ""
    ensures s[|s| - 1] == '.' ==> Split(s)[|Split(s)| - 1] == ""
  {
    if s[|s| - 1] == '.' {
      TrailingDotSplits(s);
    }
  }

  lemma {:induction false} TrailingDotSplits(s: string)
    requires s != "" && s[|s| - 1] == '.'
    ensures |Split(s)| >= 2 && Split(s)[|Split(s)| - 1] == ""
  {
    var rest := Split(s[1..]);
    if |s| == 1 {
      assert s[1..] == "" && rest == [""];
    } else {
      TrailingDotSplits(s[1..]);
    }
    var head := if s[0] == '.' then [""] + rest else [[s[0]] + rest[0]] + rest[1..];
    assert Split(s) == head && head[|head| - 1] == rest[|rest| - 1];
  }

  /** The parser's checks come down to this: at least two segments, all well formed. */
  lemma ParseExactly(input: string)
    ensures var t := Text.Trim(input);
      && (ParseSDLPath(input).Ok? <==> |Split(t)| >= 2 && AllSegments(Split(t)))
      && (ParseSDLPath(input).Ok? ==> ParseSDLPath(input).value == PathOf(t, Split(t)))
  {
    var t := Text.Trim(input);
    if t != "" {
      EndsOfSplit(t);
      if AllSegments(Split(t)) {
        assert Split(t)[0] in Split(t) && Split(t)[|Split(t)| - 1] in Split(t);
      }
    }
  }

  lemma {:induction false} OnePart(s: string)
    ensures |Split(s)| == 1 <==> '.' !in s
  {
    if s != "" {
      OnePart(s[1..]);
      assert s == [s[0]] + s[1..];
    }
  }

  /** A dot that nothing follows, or another dot. */
  ghost predicate DotEnds(s: string) {
    exists i :: 0 <= i < |s| && s[i] == '.' && (i == |s| - 1 || s[i + 1] == '.')
  }

  lemma DotEndsCons(s: string)
    requires s != ""
    ensures DotEnds(s) <==> (s[0] == '.' && (s[1..] == "" || s[1] == '.')) || DotEnds(s[1..])
  {
    var rest := s[1..];
    if i :| 0 <= i < |s| && s[i] == '.' && (i == |s| - 1 || s[i + 1] == '.') {
      if i > 0 {
        assert rest[i - 1] == '.' && (i - 1 == |rest| - 1 || rest[i] == '.');
      }
    }
    if i :| 0 <= i < |rest| && rest[i] == '.' && (i == |rest| - 1 || rest[i + 1] == '.') {
      assert s[i + 1] == '.' && (i + 1 == |s| - 1 || s[i + 2] == '.');
    }
    if s[0] == '.' && (rest == "" || s[1] == '.') {
      assert s[0] == '.';
    }
  }

  /** The first part is empty exactly at a leading dot, and another exactly behind a dot with nothing before the
      next. */
  lemma {:induction false} EmptyParts(s: string)
    ensures Split(s)[0] == "" <==> s == "" || s[0] == '.'
    ensures "" in Split(s)[1..] <==> DotEnds(s)
  {
    if s != "" {
      var rest := Split(s[1..]);
      EmptyParts(s[1..]);
      DotEndsCons(s);
      assert "" in rest <==> rest[0] == "" || "" in rest[1..] by {
        assert rest == [rest[0]] + rest[1..];
      }
      if s[0] == '.' {
        assert Split(s)[1..] == rest;
      } else {
        assert Split(s)[1..] == rest[1..];
      }
    }
  }

  ghost predicate DotTwice(s: string) {
    exists i :: 0 <= i < |s| - 1 && s[i] == '.' && s[i + 1] == '.'
  }

  /** What the parser makes of a path: trimmed, in numbered segments of the pattern, the first of them its domain and
      the last its attribute. */
  lemma ParsedTells(input: string)
    requires ParseSDLPath(input).Ok?
    ensures var path := ParseSDLPath(input).value;
      && path.raw == Text.Trim(input) && |path.segments| >= 2 && Join(Values(path.segments)) == path.raw
      && (forall i | 0 <= i < |path.segments| ::
            path.segments[i].index == i && Matches(SEGMENT, path.segments[i].value))
      && path.domain == path.segments[0].value && path.attribute == path.segments[|path.segments| - 1].value
  {
    var t := Text.Trim(input);
    ParseExactly(input);
    JoinSplit(t);
    PathTells(t, Split(t));
  }

  lemma PathTells(raw: string, values: seq<string>)
    requires |values| >= 2 && AllSegments(values) && Join(values) == raw
    ensures var path := PathOf(raw, values);
      && path.raw == raw && |path.segments| == |values| && Join(Values(path.segments)) == raw
      && (forall i | 0 <= i < |path.segments| ::
            path.segments[i].index == i && Matches(SEGMENT, path.segments[i].value))
      && path.domain == path.segments[0].value && path.attribute == path.segments[|path.segments| - 1].value
  {
    ValuesOfIndexed(values);
    SegmentsMatch(values);
  }

  lemma SegmentsMatch(values: seq<string>)
    requires AllSegments(values)
    ensures forall i | 0 <= i < |values| :: Matches(SEGMENT, values[i])
  {
    forall i | 0 <= i < |values| ensures Matches(SEGMENT, values[i]) {
      assert values[i] in values;
      SegmentLanguage(values[i]);
    }
  }

  /** Why an input is refused, and what the error repeats of it. */
  lemma RefusedTells(input: string)
    requires ParseSDLPath(input).Err?
    ensures var e, t := ParseSDLPath(input).error, Text.Trim(input);
      && e.input == (if t == "" then input else t)
      && (e.code == EmptyInput <==> t == "")
      && (e.code == LeadingDot <==> t != "" && t[0] == '.')
      && (e.code == TrailingDot <==> t != "" && t[0] != '.' && t[|t| - 1] == '.')
      && (e.code == EmptySegment <==> t != "" && t[0] != '.' && t[|t| - 1] != '.' && DotTwice(t))
      && (e.code == TooFewSegments <==> t != "" && '.' !in t)
  {
    var t := Text.Trim(input);
    if t != "" {
      OnePart(t);
      EmptyParts(t);
      assert "" in Split(t) <==> Split(t)[0] == "" || "" in Split(t)[1..] by {
        assert Split(t) == [Split(t)[0]] + Split(t)[1..];
      }
      if t[|t| - 1] != '.' {
        if i :| 0 <= i < |t| && t[i] == '.' && (i == |t| - 1 || t[i + 1] == '.') {
          assert t[i] == '.' && t[i + 1] == '.';
        }
        if DotTwice(t) {
          assert DotEnds(t);
        }
      }
    }
  }

  // ---------- the vault's recogniser ----------

  ghost predicate VaultAccepts(path: string) {
    var normalized := Text.Trim(path);
    normalized != "" && Matches(SDL_PATH, normalized)
  }

  /** The parser succeeds on exactly the strings the vault's pattern accepts. */
  lemma RecognisersAgree(input: string)
    ensures ParseSDLPath(input).Ok? <==> VaultAccepts(input)
  {
    ParseExactly(input);
    PathLanguage(Text.Trim(input));
  }

  // ---------- the validator ----------

  ghost predicate AllValid(segments: seq<Segment>) {
    forall s | s in segments :: IsSegment(s.value)
  }

  ghost predicate ValidPath(path: Path) {
    |path.segments| >= 2 && AllValid(path.segments)
  }

  function SegmentError(raw: string, value: string): seq<ParseError> {
    if value == "" then [ParseError(raw, EmptySegment)]
    else if !IsSegment(value) then [ParseError(raw, InvalidSegment)]
    else []
  }

  /** One error per faulty segment, after the count error if any. */
  function ValidationErrors(path: Path): seq<ParseError> {
    (if |path.segments| < 2 then [ParseError(path.raw, TooFewSegments)] else [])
    + SegmentErrors(path.raw, path.segments)
  }

  function SegmentErrors(raw: string, segments: seq<Segment>): seq<ParseError> {
    if segments == [] then []
    else SegmentErrors(raw, segments[..|segments| - 1]) + SegmentError(raw, segments[|segments| - 1].value)
  }

  function NormalPath(path: Path): Path
    requires path.segments != []
  {
    PathOf(Join(Values(path.segments)), Values(path.segments))
  }

  lemma AllValidSnoc(init: seq<Segment>, last: Segment)
    ensures AllValid(init + [last]) <==> AllValid(init) && IsSegment(last.value)
  {
    var all := init + [last];
    assert all[|init|] == last;
    assert forall s | s in init :: s in all;
    assert forall s | s in all :: s in init || s == last;
  }

  lemma SegmentErrorNone(raw: string, value: string)
    ensures SegmentError(raw, value) == [] <==> IsSegment(value)
  {
  }

  ghost function FaultyCount(segments: seq<Segment>): nat {
    if segments == [] then 0
    else
      var last := segments[|segments| - 1];
      FaultyCount(segments[..|segments| - 1]) + if Matches(SEGMENT, last.value) then 0 else 1
  }

  lemma {:induction false} SegmentErrorsTell(raw: string, segments: seq<Segment>)
    ensures var errors := SegmentErrors(raw, segments);
      && |errors| == FaultyCount(segments)
      && (ParseError(raw, EmptySegment) in errors <==> exists s :: s in segments && s.value == "")
      && (ParseError(raw, InvalidSegment) in errors <==>
            exists s :: s in segments && s.value != "" && !Matches(SEGMENT, s.value))
      && forall e | e in errors :: e == ParseError(raw, EmptySegment) || e == ParseError(raw, InvalidSegment)
  {
    if segments != [] {
      var front, last := segments[..|segments| - 1], segments[|segments| - 1];
      SegmentErrorsTell(raw, front);
      SegmentLanguage(last.value);
      assert segments == front + [last];
    }
  }

  /** Which errors validation lists: one for too few segments, first of all, and one for each faulty segment. */
  lemma ErrorsTell(path: Path)
    ensures var errors := ValidationErrors(path);
      && (|path.segments| < 2 <==> errors != [] && errors[0] == ParseError(path.raw, TooFewSegments))
      && |errors| == FaultyCount(path.segments) + (if |path.segments| < 2 then 1 else 0)
      && (ParseError(path.raw, EmptySegment) in errors <==> exists s :: s in path.segments && s.value == "")
      && (ParseError(path.raw, InvalidSegment) in errors <==>
            exists s :: s in path.segments && s.value != "" && !Matches(SEGMENT, s.value))
      && forall e | e in errors :: e.input == path.raw && e.code in {TooFewSegments, EmptySegment, InvalidSegment}
  {
    SegmentErrorsTell(path.raw, path.segments);
    var found := SegmentErrors(path.raw, path.segments);
    if found != [] {
      assert found[0] in found;
    }
  }

  lemma {:induction false} NoErrorsMeansSegments(raw: string, segments: seq<Segment>)
    ensures SegmentErrors(raw, segments) == [] <==> AllValid(segments)
  {
    if segments != [] {
      var init, last := segments[..|segments| - 1], segments[|segments| - 1];
      NoErrorsMeansSegments(raw, init);
      assert segments == init + [last];
      AllValidSnoc(init, last);
      SegmentErrorNone(raw, last.value);
    }
  }

  lemma NextSegmentErrors(raw: string, segments: seq<Segment>, i: nat)
    requires i < |segments|
    ensures SegmentErrors(raw, segments[..i + 1])
         == SegmentErrors(raw, segments[..i]) + SegmentError(raw, segments[i].value)
  {
    assert segments[..i + 1][..i] == segments[..i];
  }

  method CheckSegments(raw: string, segments: seq<Segment>) returns (errors: seq<ParseError>)
    ensures errors == SegmentErrors(raw, segments)
  {
    errors := [];
    for i := 0 to |segments|
      invariant errors == SegmentErrors(raw, segments[..i])
    {
      var value := segments[i].value;
      NextSegmentErrors(raw, segments, i);
      if value == "" {
        errors := errors + [ParseError(raw, EmptySegment)];
      } else if !IsSegment(value) {
        errors := errors + [ParseError(raw, InvalidSegment)];
      }
    }
    assert segments[..|segments|] == segments;
  }

  method ValidateSDLPath(path: Path) returns (normalized: Option<Path>, errors: seq<ParseError>)
    ensures normalized.Some? <==> ValidPath(path)
    ensures normalized.Some? ==> normalized.value == NormalPath(path)
    ensures errors == ValidationErrors(path)
  {
    errors := [];
    if |path.segments| < 2 {
      errors := errors + [ParseError(path.raw, TooFewSegments)];
    }
    var found := CheckSegments(path.raw, path.segments);
    errors := errors + found;
    NoErrorsMeansSegments(path.raw, path.segments);
    if |errors| > 0 {
      return None, errors;
    }
    var values := Values(path.segments);
    normalized := Some(PathOf(Join(values), values));
  }

  method ParseAndValidateSDLPath(input: string) returns (normalized: Option<Path>, errors: seq<ParseError>)
    ensures normalized.Some? <==> VaultAccepts(input)
    ensures normalized.Some? ==> ParseSDLPath(input) == Ok(normalized.value) && errors == []
    ensures normalized.None? ==> ParseSDLPath(input).Err? && errors == [ParseSDLPath(input).error]
  {
    RecognisersAgree(input);
    match ParseSDLPath(input) {
      case Err(error) => return None, [error];
      case Ok(path) =>
        ParsedIsNormal(input);
        normalized, errors := ValidateSDLPath(path);
        NoErrorsMeansSegments(path.raw, path.segments);
    }
  }

  // ---------- round trips ----------

  lemma JoinedTrimmed(segments: seq<string>)
    requires segments != [] && AllSegments(segments)
    ensures Text.Trimmed(Join(segments)) && Join(segments) != ""
  {
    assert segments[0] in segments;
    SegmentPlain(segments[0]);
    JoinDotted(segments);
    JoinedEnd(segments);
  }

  lemma {:induction false} JoinedEnd(segments: seq<string>)
    requires segments != [] && AllSegments(segments)
    ensures Join(segments) != "" && !Text.Blank(Join(segments)[|Join(segments)| - 1])
  {
    assert segments[0] in segments;
    SegmentPlain(segments[0]);
    if |segments| > 1 {
      JoinedEnd(segments[1..]);
    }
  }

  lemma ValuesOfIndexed(values: seq<string>)
    ensures Values(Indexed(values)) == values
  {
  }

  lemma IndexedValid(values: seq<string>)
    requires AllSegments(values)
    ensures AllValid(Indexed(values))
  {
    forall s | s in Indexed(values) ensures IsSegment(s.value) {
      var i :| 0 <= i < |values| && Indexed(values)[i] == s;
      assert values[i] in values;
    }
  }

  /** What the parser returns prints back to its raw text, parses again to itself, and is valid and normal. */
  lemma ParsedIsNormal(input: string)
    requires ParseSDLPath(input).Ok?
    ensures var path := ParseSDLPath(input).value;
      && Join(Values(path.segments)) == path.raw
      && ParseSDLPath(path.raw) == Ok(path)
      && ValidPath(path) && NormalPath(path) == path
  {
    var t := Text.Trim(input);
    var path := ParseSDLPath(input).value;
    ParseExactly(input);
    ParseExactly(t);
    Text.TrimIdempotent(input);
    JoinSplit(t);
    ValuesOfIndexed(Split(t));
    IndexedValid(Split(t));
  }

  /** Whatever path the validator accepts, however its raw text and indexes read, its normal form parses to itself. */
  lemma ValidatedReparses(path: Path)
    requires ValidPath(path)
    ensures ParseSDLPath(NormalPath(path).raw) == Ok(NormalPath(path))
  {
    var values := Values(path.segments);
    forall v | v in values ensures IsSegment(v) && '.' !in v {
      var i :| 0 <= i < |values| && values[i] == v;
      assert path.segments[i] in path.segments;
      SegmentPlain(v);
    }
    JoinedTrimmed(values);
    Text.TrimFixed(Join(values));
    SplitJoin(values);
    ParseExactly(Join(values));
  }
}
