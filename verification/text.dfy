/** Case-insensitive substring containment, the test the device resolver
    applies to every device name. Case folding is ASCII lower-casing; the
    locale-dependent folding of the platform is not modelled. */
module Text {

  /** ASCII lower-casing of one character; every other character is kept. */
  function LowerChar(c: char): (r: char) {
    if 'A' <= c <= 'Z' then (c as int + 32) as char else c
  }

  /** Lower-casing of a whole string, character by character. */
  function Lower(s: string): (r: string)
    ensures |r| == |s|
    ensures forall i :: 0 <= i < |s| ==> r[i] == LowerChar(s[i])
  {
    seq(|s|, i requires 0 <= i < |s| => LowerChar(s[i]))
  }

  /** `needle` occurs in `hay` at offset `i`, ignoring case. */
  predicate MatchesAt(hay: string, needle: string, i: int)
    requires 0 <= i && i + |needle| <= |hay|
  {
    forall k :: 0 <= k < |needle| ==> LowerChar(hay[i + k]) == LowerChar(needle[k])
  }

  /** The meaning of `localizedCaseInsensitiveContains`: some offset of `hay`
      holds `needle` up to case. An empty needle is never contained, as the
      platform's range search reports no range for an empty string. */
  predicate ContainsIgnoringCase(hay: string, needle: string) {
    && |needle| > 0
    && |needle| <= |hay|
    && exists i :: 0 <= i <= |hay| - |needle| && MatchesAt(hay, needle, i)
  }

  /** A search that decides `ContainsIgnoringCase`: try every offset in turn
      and compare character by character. */
  method LocalizedCaseInsensitiveContains(hay: string, needle: string) returns (found: bool)
    ensures found <==> ContainsIgnoringCase(hay, needle)
  {
    if |needle| == 0 || |needle| > |hay| {
      return false;
    }
    var i := 0;
    while i <= |hay| - |needle|
      invariant 0 <= i <= |hay| - |needle| + 1
      invariant forall j :: 0 <= j < i ==> !MatchesAt(hay, needle, j)
    {
      var k := 0;
      while k < |needle| && LowerChar(hay[i + k]) == LowerChar(needle[k])
        invariant 0 <= k <= |needle|
        invariant forall m :: 0 <= m < k ==> LowerChar(hay[i + m]) == LowerChar(needle[m])
      {
        k := k + 1;
      }
      if k == |needle| {
        assert MatchesAt(hay, needle, i);
        return true;
      }
      i := i + 1;
    }
    return false;
  }

  lemma LowerCharIdempotent(c: char)
    ensures LowerChar(LowerChar(c)) == LowerChar(c)
  {
  }

  /** Containment ignores the case of the name: lower-casing the name first
      changes nothing. */
  lemma ContainsIgnoresCaseOfHay(hay: string, needle: string)
    ensures ContainsIgnoringCase(Lower(hay), needle) <==> ContainsIgnoringCase(hay, needle)
  {
    var low := Lower(hay);
    forall j | 0 <= j < |hay|
      ensures LowerChar(low[j]) == LowerChar(hay[j])
    {
      LowerCharIdempotent(hay[j]);
    }
    forall i | 0 <= i <= |hay| - |needle|
      ensures MatchesAt(low, needle, i) <==> MatchesAt(hay, needle, i)
    {
    }
  }

  /** Containment ignores the case of the fragment searched for. */
  lemma ContainsIgnoresCaseOfNeedle(hay: string, needle: string)
    ensures ContainsIgnoringCase(hay, Lower(needle)) <==> ContainsIgnoringCase(hay, needle)
  {
    var low := Lower(needle);
    forall i | 0 <= i <= |hay| - |needle|
      ensures MatchesAt(hay, low, i) <==> MatchesAt(hay, needle, i)
    {
      forall k | 0 <= k < |needle|
        ensures LowerChar(low[k]) == LowerChar(needle[k])
      {
        LowerCharIdempotent(needle[k]);
      }
    }
  }

  /** Device names as the platform reports them are found by the fragments
      the bridge searches for, whatever their case. */
  lemma TypicalNamesMatch()
    ensures ContainsIgnoringCase("BlackHole 2ch", "BlackHole")
    ensures ContainsIgnoringCase("blackhole 16ch", "BlackHole")
    ensures ContainsIgnoringCase("DELL U2723QE", "U2723QE")
    ensures !ContainsIgnoringCase("MacBook Pro Speakers", "BlackHole")
  {
    assert MatchesAt("BlackHole 2ch", "BlackHole", 0);
    assert MatchesAt("blackhole 16ch", "BlackHole", 0);
    assert MatchesAt("DELL U2723QE", "U2723QE", 5);
    var other := "MacBook Pro Speakers";
    assert 'l' !in other && 'L' !in other;
    forall i | 0 <= i <= |other| - |"BlackHole"|
      ensures !MatchesAt(other, "BlackHole", i)
    {
      assert other[i + 1] in other;
      assert LowerChar(other[i + 1]) != LowerChar("BlackHole"[1]);
    }
  }
}
