/**
 * Parsing a user id from its text form, as `uuid.UUID(text)` does when a token's subject
 * is turned back into a primary key, and the canonical form that `str(uuid)` prints.
 */
module Uuid {
  import opened Wrappers
  import opened Text

  predicate IsHexDigit(c: char) {
    ('0' <= c <= '9') || ('a' <= c <= 'f') || ('A' <= c <= 'F')
  }

  predicate IsLowerHexDigit(c: char) {
    ('0' <= c <= '9') || ('a' <= c <= 'f')
  }

  /** A group of the canonical form: lower-case hex digits only. */
  predicate AllLowerHex(p: string) {
    forall i :: 0 <= i < |p| ==> IsLowerHexDigit(p[i])
  }

  predicate HyphenAt(i: int) {
    i == 8 || i == 13 || i == 18 || i == 23
  }

  /** `str(u)` of a UUID: 32 lower-case hex digits grouped 8-4-4-4-12 by hyphens. */
  predicate IsCanonicalUuid(s: string) {
    |s| == 36 && forall i :: 0 <= i < 36 ==> if HyphenAt(i) then s[i] == '-' else IsLowerHexDigit(s[i])
  }

  function Hyphenate(h: string): string
    requires |h| == 32
  {
    h[..8] + "-" + h[8..12] + "-" + h[12..16] + "-" + h[16..20] + "-" + h[20..]
  }

  lemma HyphenateCanonical(h: string)
    requires |h| == 32 && AllLowerHex(h)
    ensures IsCanonicalUuid(Hyphenate(h))
  {
    var r := Hyphenate(h);
    forall i | 0 <= i < 36
      ensures if HyphenAt(i) then r[i] == '-' else IsLowerHexDigit(r[i])
    {
      if i < 8 { assert r[i] == h[i]; }
      else if 8 < i < 13 { assert r[i] == h[i - 1]; }
      else if 13 < i < 18 { assert r[i] == h[i - 2]; }
      else if 18 < i < 23 { assert r[i] == h[i - 3]; }
      else if 23 < i { assert r[i] == h[i - 4]; }
    }
  }

  /** Reading the digits back out of the grouped text gives the digits. */
  lemma HyphenateHexPart(h: string)
    requires |h| == 32 && AllLowerHex(h)
    ensures HexPart(Hyphenate(h)) == h
  {
    var r := Hyphenate(h);
    HyphenateCanonical(h);
    CanonicalHexPart(r);
    assert r[..8] == h[..8];
    assert r[9..13] == h[8..12];
    assert r[14..18] == h[12..16];
    assert r[19..23] == h[16..20];
    assert r[24..] == h[20..];
    assert h == h[..8] + (h[8..12] + (h[12..16] + (h[16..20] + h[20..])));
  }

  /** `s.strip("{}")`. */
  function StripBraces(s: string): (r: string)
    ensures |r| <= |s|
  {
    if |s| > 0 && (s[0] == '{' || s[0] == '}') then StripBraces(s[1..])
    else if |s| > 0 && (s[|s| - 1] == '{' || s[|s| - 1] == '}') then StripBraces(s[..|s| - 1])
    else s
  }

  /** The 32 digits `uuid.UUID` reads: the text with `urn:` and `uuid:` removed, the braces
      at either end stripped and the hyphens removed. */
  function HexPart(s: string): string {
    ReplaceAll(StripBraces(ReplaceAll(ReplaceAll(s, "urn:", ""), "uuid:", "")), "-", "")
  }

  /** `uuid.UUID(s)`, as its canonical text, or `None` where it raises `ValueError`: the
      result's digits are the input's 32 hex digits, lower-cased and in order. */
  function ParseUuid(s: string): (r: Option<string>)
    ensures r.Some? ==> IsCanonicalUuid(r.value)
    ensures r.Some? <==> |HexPart(s)| == 32 && forall i :: 0 <= i < 32 ==> IsHexDigit(HexPart(s)[i])
    ensures r.Some? ==> HexPart(r.value) == LowerAscii(HexPart(s))
  {
    var hex := HexPart(s);
    if |hex| == 32 && forall i :: 0 <= i < 32 ==> IsHexDigit(hex[i]) then
      var lower := LowerAscii(hex);
      assert AllLowerHex(lower);
      HyphenateCanonical(lower);
      var r := Hyphenate(lower);
      HyphenateHexPart(lower);
      Some(r)
    else None
  }

  // ---------------------------------------------------------------------------
  // the canonical form parses to itself

  /** Text lacking one character of `pat` cannot contain `pat`. */
  lemma MissingCharNotContains(s: string, pat: string, j: nat)
    requires j < |pat| && pat[j] !in s
    ensures !Contains(s, pat)
  {
    forall k | 0 <= k <= |s| ensures !StartsWith(s[k..], pat) {
      if k + |pat| <= |s| {
        assert s[k..][..|pat|][j] == s[k + j];
      }
    }
  }

  lemma StartsWithOneChar(s: string, pat: string)
    requires |pat| == 1 && |s| > 0
    ensures StartsWith(s, pat) <==> s[0] == pat[0]
  {
    if s[0] == pat[0] {
      assert s[..1] == pat;
    }
  }

  /** `s` without the occurrences of `c`. */
  function DropChar(s: string, c: char): string {
    if s == [] then []
    else if s[0] == c then DropChar(s[1..], c)
    else [s[0]] + DropChar(s[1..], c)
  }

  /** Replacing a one-character pattern by nothing drops that character. */
  lemma {:induction false} RemoveOneCharIsDrop(s: string, c: char)
    ensures ReplaceAll(s, [c], "") == DropChar(s, c)
    decreases |s|
  {
    if s != [] {
      StartsWithOneChar(s, [c]);
      RemoveOneCharIsDrop(s[1..], c);
    }
  }

  lemma {:induction false} DropCharConcat(a: string, b: string, c: char)
    ensures DropChar(a + b, c) == DropChar(a, c) + DropChar(b, c)
    decreases |a|
  {
    if a == [] {
      assert a + b == b;
    } else {
      var ab := a + b;
      assert ab[0] == a[0] && ab[1..] == a[1..] + b;
      DropCharConcat(a[1..], b, c);
      if a[0] != c {
        var x, y := DropChar(a[1..], c), DropChar(b, c);
        assert DropChar(ab, c) == [a[0]] + (x + y);
        assert [a[0]] + (x + y) == ([a[0]] + x) + y;
      }
    }
  }

  /** Removing the hyphens works piece by piece. */
  lemma RemoveHyphensConcat(a: string, b: string)
    ensures ReplaceAll(a + b, "-", "") == ReplaceAll(a, "-", "") + ReplaceAll(b, "-", "")
  {
    RemoveOneCharIsDrop(a + b, '-');
    RemoveOneCharIsDrop(a, '-');
    RemoveOneCharIsDrop(b, '-');
    DropCharConcat(a, b, '-');
  }

  lemma RemoveHyphensOfHex(p: string)
    requires AllLowerHex(p)
    ensures ReplaceAll(p, "-", "") == p
  {
    MissingCharNotContains(p, "-", 0);
    ReplaceAllAbsent(p, "-", "");
  }

  /** Removing the hyphens around one hyphen-free hex group. */
  lemma DropHyphenAfter(p: string, rest: string)
    requires AllLowerHex(p)
    ensures ReplaceAll(p + "-" + rest, "-", "") == p + ReplaceAll(rest, "-", "")
  {
    var head := p + "-";
    assert ReplaceAll(head, "-", "") == p by {
      RemoveHyphensOfHex(p);
      assert ReplaceAll("-", "-", "") == [];
      RemoveHyphensConcat(p, "-");
    }
    RemoveHyphensConcat(head, rest);
  }

  /** The canonical text has nothing for `urn:`, `uuid:` or the brace strip to remove. */
  lemma CanonicalPrefixFree(s: string)
    requires IsCanonicalUuid(s)
    ensures StripBraces(ReplaceAll(ReplaceAll(s, "urn:", ""), "uuid:", "")) == s
  {
    assert ':' !in s by {
      forall i | 0 <= i < |s| ensures s[i] != ':' {
        assert HyphenAt(i) || IsLowerHexDigit(s[i]);
      }
    }
    MissingCharNotContains(s, "urn:", 3);
    ReplaceAllAbsent(s, "urn:", "");
    MissingCharNotContains(s, "uuid:", 4);
    ReplaceAllAbsent(s, "uuid:", "");
    assert !HyphenAt(0) && !HyphenAt(35);
  }

  /** The five groups of the canonical text are hyphen-free hex. */
  lemma CanonicalGroups(s: string)
    requires IsCanonicalUuid(s)
    ensures AllLowerHex(s[..8]) && AllLowerHex(s[9..13]) && AllLowerHex(s[14..18])
    ensures AllLowerHex(s[19..23]) && AllLowerHex(s[24..])
  {
    forall i | 0 <= i < 8 ensures IsLowerHexDigit(s[..8][i]) { assert !HyphenAt(i); }
    forall i | 0 <= i < 4 ensures IsLowerHexDigit(s[9..13][i]) { assert !HyphenAt(i + 9); }
    forall i | 0 <= i < 4 ensures IsLowerHexDigit(s[14..18][i]) { assert !HyphenAt(i + 14); }
    forall i | 0 <= i < 4 ensures IsLowerHexDigit(s[19..23][i]) { assert !HyphenAt(i + 19); }
    forall i | 0 <= i < 12 ensures IsLowerHexDigit(s[24..][i]) { assert !HyphenAt(i + 24); }
  }

  /** One more hex group in front: its hyphen goes, the group stays. */
  lemma DropHyphenBefore(p: string, rest: string, restOut: string)
    requires AllLowerHex(p)
    requires ReplaceAll(rest, "-", "") == restOut
    ensures ReplaceAll(p + "-" + rest, "-", "") == p + restOut
  {
    DropHyphenAfter(p, rest);
  }

  /** Removing the four hyphens between five hex groups leaves the groups joined. */
  lemma RemoveGroupHyphens(p1: string, p2: string, p3: string, p4: string, p5: string)
    requires AllLowerHex(p1)
    requires AllLowerHex(p2)
    requires AllLowerHex(p3)
    requires AllLowerHex(p4)
    requires AllLowerHex(p5)
    ensures ReplaceAll(p1 + "-" + (p2 + "-" + (p3 + "-" + (p4 + "-" + p5))), "-", "") == p1 + (p2 + (p3 + (p4 + p5)))
  {
    RemoveHyphensOfHex(p5);
    DropHyphenBefore(p4, p5, p5);
    DropHyphenBefore(p3, p4 + "-" + p5, p4 + p5);
    DropHyphenBefore(p2, p3 + "-" + (p4 + "-" + p5), p3 + (p4 + p5));
    DropHyphenBefore(p1, p2 + "-" + (p3 + "-" + (p4 + "-" + p5)), p2 + (p3 + (p4 + p5)));
  }

  /** A hyphen at `j` splits the tail of `t` from `i` around it. */
  lemma SplitAtHyphen(t: string, i: nat, j: nat)
    requires i <= j < |t| && t[j] == '-'
    ensures t[i..] == t[i..j] + "-" + t[j + 1..]
  {
    assert t[i..] == t[i..j] + t[j..];
    assert t[j..] == "-" + t[j + 1..];
  }

  /** The hex digits of the canonical text, in order. */
  lemma CanonicalHexPart(s: string)
    requires IsCanonicalUuid(s)
    ensures HexPart(s) == s[..8] + (s[9..13] + (s[14..18] + (s[19..23] + s[24..])))
  {
    CanonicalPrefixFree(s);
    CanonicalGroups(s);
    var p1, p2, p3, p4, p5 := s[..8], s[9..13], s[14..18], s[19..23], s[24..];
    assert HyphenAt(8) && HyphenAt(13) && HyphenAt(18) && HyphenAt(23);
    var q4 := p4 + "-" + p5;
    assert s[19..] == q4 by { SplitAtHyphen(s, 19, 23); }
    var q3 := p3 + "-" + q4;
    assert s[14..] == q3 by { SplitAtHyphen(s, 14, 18); }
    var q2 := p2 + "-" + q3;
    assert s[9..] == q2 by { SplitAtHyphen(s, 9, 13); }
    assert s == p1 + "-" + q2 by { SplitAtHyphen(s, 0, 8); assert s[0..] == s; }
    RemoveGroupHyphens(p1, p2, p3, p4, p5);
  }

  /** `uuid.UUID(str(u))` is `u`: the canonical text of an id parses to itself. */
  lemma ParseCanonicalUuid(s: string)
    requires IsCanonicalUuid(s)
    ensures ParseUuid(s) == Some(s)
  {
    CanonicalHexPart(s);
    CanonicalGroups(s);
    var p1, p2, p3, p4, p5 := s[..8], s[9..13], s[14..18], s[19..23], s[24..];
    var hex := HexPart(s);
    assert hex == p1 + (p2 + (p3 + (p4 + p5)));
    assert hex[..8] == p1 && hex[8..12] == p2 && hex[12..16] == p3 && hex[16..20] == p4 && hex[20..] == p5;
    assert forall i :: 0 <= i < 32 ==> IsLowerHexDigit(hex[i]) by {
      forall i | 0 <= i < 32 ensures IsLowerHexDigit(hex[i]) {
        if i < 8 { assert hex[i] == p1[i]; }
        else if i < 12 { assert hex[i] == p2[i - 8]; }
        else if i < 16 { assert hex[i] == p3[i - 12]; }
        else if i < 20 { assert hex[i] == p4[i - 16]; }
        else { assert hex[i] == p5[i - 20]; }
      }
    }
    assert LowerAscii(hex) == hex;
    assert s == p1 + "-" + p2 + "-" + p3 + "-" + p4 + "-" + p5 by {
      assert HyphenAt(8) && HyphenAt(13) && HyphenAt(18) && HyphenAt(23);
    }
  }
}
