/** The languages of the protocol's field patterns, part by part. */
module Patterns {
  import opened Text
  import Tok = CapabilityToken

  /** Made of the characters of an alphabet. */
  ghost predicate Over(s: string, alphabet: string) {
    forall i | 0 <= i < |s| :: s[i] in alphabet
  }

  const DIGITS := "0123456789"
  const LETTERS := "abcdefghijklmnopqrstuvwxyz"
  const CAPITALS := "ABCDEFGHIJKLMNOPQRSTUVWXYZ"

  lemma DigitTells(c: char)
    ensures Digit(c) <==> c in DIGITS
  {
    if Digit(c) {
      assert DIGITS[c as int - '0' as int] == c;
    }
  }

  lemma LetterTells(c: char)
    ensures LowerAlpha(c) <==> c in LETTERS
  {
    if LowerAlpha(c) {
      assert LETTERS[c as int - 'a' as int] == c;
    }
  }

  lemma CapitalTells(c: char)
    ensures 'A' <= c <= 'Z' <==> c in CAPITALS
  {
    if 'A' <= c <= 'Z' {
      assert CAPITALS[c as int - 'A' as int] == c;
    }
  }

  lemma HexTells(c: char)
    ensures HexChar(c) <==> c in "0123456789abcdef"
  {
    if 'a' <= c <= 'f' {
      assert "0123456789abcdef"[10 + (c as int - 'a' as int)] == c;
    } else if '0' <= c <= '9' {
      assert "0123456789abcdef"[c as int - '0' as int] == c;
    }
  }

  /** A hash: 64 lower-case hexadecimal digits. */
  lemma HashLanguage(s: string)
    ensures Hex64(s) <==> |s| == 64 && Over(s, "0123456789abcdef")
  {
    forall c ensures HexChar(c) <==> c in "0123456789abcdef" {
      HexTells(c);
    }
  }

  lemma DigitsTell(s: string)
    ensures Over(s, DIGITS) <==> forall i | 0 <= i < |s| :: Digit(s[i])
  {
    forall c ensures Digit(c) <==> c in DIGITS {
      DigitTells(c);
    }
  }

  /** A permission: lower-case letters, digits and hyphens, at least one. */
  lemma PermissionLanguage(s: string)
    ensures PermissionText(s) <==> s != "" && Over(s, LETTERS + DIGITS + "-")
  {
    forall c ensures LowerAlpha(c) || Digit(c) || c == '-' <==> c in LETTERS + DIGITS + "-" {
      LetterTells(c);
      DigitTells(c);
    }
  }

  /** A market maker: up to 128 lower-case letters, digits, dots, underscores and hyphens, the first a letter or
      digit. */
  lemma MarketMakerLanguage(s: string)
    ensures Tok.MarketMakerText(s) <==>
      1 <= |s| <= 128 && Over(s, LETTERS + DIGITS + "._-") && s[0] in LETTERS + DIGITS
  {
    forall c ensures Tok.MarketMakerChar(c) <==> c in LETTERS + DIGITS + "._-" {
      LetterTells(c);
      DigitTells(c);
    }
    if s != "" {
      LetterTells(s[0]);
      DigitTells(s[0]);
    }
  }

  /** A version: two numerals with a dot between them. */
  lemma VersionLanguage(s: string)
    ensures VersionText(s) <==>
      exists major, minor ::
        major != "" && minor != "" && Over(major, DIGITS) && Over(minor, DIGITS) && s == major + "." + minor
  {
    if VersionText(s) {
      var k :| 0 < k < |s| - 1 && s[k] == '.' && forall i | 0 <= i < |s| && i != k :: Digit(s[i]);
      DigitsTell(s[..k]);
      DigitsTell(s[k + 1..]);
      assert s == s[..k] + "." + s[k + 1..];
    }
    if major, minor :|
        major != "" && minor != "" && Over(major, DIGITS) && Over(minor, DIGITS) && s == major + "." + minor
    {
      DigitsTell(major);
      DigitsTell(minor);
      assert s[|major|] == '.';
      forall i | 0 <= i < |s| && i != |major| ensures Digit(s[i]) {
        assert s[i] == if i < |major| then major[i] else minor[i - |major| - 1];
      }
    }
  }

  ghost predicate MethodText(s: string) {
    s != "" && Over(s, LETTERS + DIGITS)
  }

  ghost predicate IdText(s: string) {
    s != "" && Over(s, LETTERS + CAPITALS + DIGITS + "._%-")
  }

  lemma MethodTells(s: string)
    ensures Over(s, LETTERS + DIGITS) <==> forall i | 0 <= i < |s| :: DidMethodChar(s[i])
  {
    forall c ensures DidMethodChar(c) <==> c in LETTERS + DIGITS {
      LetterTells(c);
      DigitTells(c);
    }
  }

  lemma IdTells(s: string)
    ensures Over(s, LETTERS + CAPITALS + DIGITS + "._%-") <==> forall i | 0 <= i < |s| :: DidIdChar(s[i])
  {
    forall c ensures DidIdChar(c) <==> c in LETTERS + CAPITALS + DIGITS + "._%-" {
      LetterTells(c);
      CapitalTells(c);
      DigitTells(c);
    }
  }

  lemma DidPlaces(name: string, id: string)
    ensures var s, k := "did:" + name + ":" + id, 4 + |name|;
      && "did:" <= s && |s| == k + 1 + |id| && s[k] == ':'
      && (forall i | 4 <= i < k :: s[i] == name[i - 4]) && forall i | k < i < |s| :: s[i] == id[i - k - 1]
  {
  }

  lemma DidSplits(s: string, k: nat)
    requires "did:" <= s && 4 <= k < |s| && s[k] == ':'
    ensures s == "did:" + s[4..k] + ":" + s[k + 1..]
  {
    assert s[..4] == "did:";
  }

  lemma DidParts(s: string) returns (name: string, id: string)
    requires Did(s)
    ensures MethodText(name) && IdText(id) && s == "did:" + name + ":" + id
  {
    var k :| 5 <= k < |s| - 1 && DidSplit(s, k);
    name, id := s[4..k], s[k + 1..];
    MethodTells(name);
    IdTells(id);
    DidSplits(s, k);
  }

  lemma PartsAreDid(name: string, id: string)
    requires MethodText(name) && IdText(id)
    ensures Did("did:" + name + ":" + id)
  {
    MethodTells(name);
    IdTells(id);
    DidPlaces(name, id);
    assert DidSplit("did:" + name + ":" + id, 4 + |name|);
  }

  /** A DID: `did:`, a method of lower-case letters and digits, a colon, and an identifier. */
  lemma DidLanguage(s: string)
    ensures Did(s) <==> exists name, id :: MethodText(name) && IdText(id) && s == "did:" + name + ":" + id
  {
    if Did(s) {
      var name, id := DidParts(s);
    }
    if name, id :| MethodText(name) && IdText(id) && s == "did:" + name + ":" + id {
      PartsAreDid(name, id);
    }
  }

  /** A date to the second: six numbers of so many digits, with their separators. */
  ghost predicate Numbers(
    year: string, month: string, day: string, hour: string, minute: string, second: string)
  {
    && |year| == 4 && |month| == 2 && |day| == 2 && |hour| == 2 && |minute| == 2 && |second| == 2
    && Over(year, DIGITS) && Over(month, DIGITS) && Over(day, DIGITS)
    && Over(hour, DIGITS) && Over(minute, DIGITS) && Over(second, DIGITS)
  }

  ghost function Joined(a: string, b: string, c: string, mark: string): string {
    a + mark + b + mark + c
  }

  ghost function DateText(
    year: string, month: string, day: string, hour: string, minute: string, second: string): string
  {
    Joined(year, month, day, "-") + "T" + Joined(hour, minute, second, ":") + "Z"
  }

  lemma DateLanguage(s: string)
    ensures IsoSecond(s) <==>
      exists year, month, day, hour, minute, second ::
        Numbers(year, month, day, hour, minute, second) && s == DateText(year, month, day, hour, minute, second)
  {
    forall c ensures Digit(c) <==> c in DIGITS {
      DigitTells(c);
    }
    if IsoSecond(s) {
      var year, month, day := s[..4], s[5..7], s[8..10];
      var hour, minute, second := s[11..13], s[14..16], s[17..19];
      assert Numbers(year, month, day, hour, minute, second);
      assert s[..10] == Joined(year, month, day, "-") && s[11..19] == Joined(hour, minute, second, ":");
      assert s == s[..10] + "T" + s[11..19] + "Z";
    }
    if year, month, day, hour, minute, second :|
        Numbers(year, month, day, hour, minute, second) && s == DateText(year, month, day, hour, minute, second)
    {
      DateIsIso(year, month, day, hour, minute, second);
    }
  }

  lemma JoinedPlaces(a: string, b: string, c: string, mark: string)
    requires |mark| == 1 && |b| == |c| == 2
    ensures var s, n := Joined(a, b, c, mark), |a|;
      && |s| == n + 6 && s[n] == s[n + 3] == mark[0]
      && (forall i | 0 <= i < n :: s[i] == a[i])
      && s[n + 1] == b[0] && s[n + 2] == b[1] && s[n + 4] == c[0] && s[n + 5] == c[1]
  {
  }

  lemma DateIsIso(year: string, month: string, day: string, hour: string, minute: string, second: string)
    requires Numbers(year, month, day, hour, minute, second)
    ensures IsoSecond(DateText(year, month, day, hour, minute, second))
  {
    DigitsTell(year);
    DigitsTell(month);
    DigitsTell(day);
    DigitsTell(hour);
    DigitsTell(minute);
    DigitsTell(second);
    JoinedPlaces(year, month, day, "-");
    JoinedPlaces(hour, minute, second, ":");
    HalvesAreIso(Joined(year, month, day, "-"), Joined(hour, minute, second, ":"));
  }

  lemma HalvesAreIso(date: string, time: string)
    requires |date| == 10 && |time| == 8 && date[4] == date[7] == '-' && time[2] == time[5] == ':'
    requires forall i | 0 <= i < 10 && i != 4 && i != 7 :: Digit(date[i])
    requires forall i | 0 <= i < 8 && i != 2 && i != 5 :: Digit(time[i])
    ensures IsoSecond(date + "T" + time + "Z")
  {
    var s := date + "T" + time + "Z";
    assert forall i | 0 <= i < 10 :: s[i] == date[i];
    assert forall i | 11 <= i < 19 :: s[i] == time[i - 11];
  }
}
