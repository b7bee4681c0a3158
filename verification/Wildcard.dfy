/** The greedy `*` matcher of record search against declarative glob matching. */
module Wildcard {
  import opened Wrappers

  /** What a pattern means: a star stands for any run of characters, every other
      character for itself, and the whole text must be used. */
  ghost predicate Glob(pat: string, txt: string) {
    if |pat| == 0 then txt == ""
    else if pat[0] == '*' then exists k | 0 <= k <= |txt| :: Glob(pat[1..], txt[k..])
    else |txt| > 0 && txt[0] == pat[0] && Glob(pat[1..], txt[1..])
  }

  predicate OccursAt(txt: string, s: string, i: nat) {
    i + |s| <= |txt| && txt[i..i + |s|] == s
  }

  ghost predicate Contains(txt: string, s: string) {
    exists i: nat :: OccursAt(txt, s, i)
  }

  predicate StartsWith(txt: string, s: string) {
    OccursAt(txt, s, 0)
  }

  predicate EndsWith(txt: string, s: string) {
    |s| <= |txt| && OccursAt(txt, s, |txt| - |s|)
  }

  /** The leftmost occurrence of `s`. */
  method Find(txt: string, s: string) returns (pos: Option<nat>)
    ensures pos.None? ==> !Contains(txt, s)
    ensures pos.Some? ==> OccursAt(txt, s, pos.value) && forall i | 0 <= i < pos.value :: !OccursAt(txt, s, i)
  {
    var i := 0;
    while i + |s| <= |txt|
      invariant forall j | 0 <= j < i :: !OccursAt(txt, s, j)
      decreases |txt| - i
    {
      if txt[i..i + |s|] == s {
        return Some(i);
      }
      i := i + 1;
    }
    pos := None;
  }

  // --------------------------------------------------------------- pattern segments

  ghost function Join(segments: seq<string>): string
    requires |segments| > 0
  {
    if |segments| == 1 then segments[0] else segments[0] + "*" + Join(segments[1..])
  }

  ghost predicate Literal(segments: seq<string>) {
    forall i | 0 <= i < |segments| :: '*' !in segments[i]
  }

  /** The pieces of a pattern between its stars. */
  method Split(pat: string) returns (segments: seq<string>)
    ensures |segments| > 0 && Literal(segments) && Join(segments) == pat
    ensures '*' in pat ==> |segments| >= 2
  {
    segments := [""];
    var i := |pat|;
    while i > 0
      invariant 0 <= i <= |pat|
      invariant |segments| > 0 && Literal(segments) && Join(segments) == pat[i..]
      invariant '*' in pat[i..] ==> |segments| >= 2
    {
      i := i - 1;
      assert pat[i..] == [pat[i]] + pat[i + 1..];
      if pat[i] == '*' {
        assert ([""] + segments)[1..] == segments;
        segments := [""] + segments;
      } else {
        ghost var before := segments;
        segments := [[pat[i]] + segments[0]] + segments[1..];
        assert segments[1..] == before[1..];
      }
    }
  }

  /** The text is the first segment, a gap, the second segment, a gap, and so on to
      the last segment, which ends it. */
  ghost predicate Spells(segments: seq<string>, txt: string)
    requires |segments| > 0
    decreases |segments|, 0
  {
    if |segments| == 1 then txt == segments[0]
    else StartsWith(txt, segments[0]) && Floats(segments[1..], txt[|segments[0]|..])
  }

  /** The text is a gap followed by what the segments spell. */
  ghost predicate Floats(segments: seq<string>, txt: string)
    requires |segments| > 0
    decreases |segments|, 1
  {
    exists k | 0 <= k <= |txt| :: Spells(segments, txt[k..])
  }

  lemma {:induction false} GlobLiteral(s: string, pat: string, txt: string)
    requires '*' !in s
    ensures Glob(s + pat, txt) <==> StartsWith(txt, s) && Glob(pat, txt[|s|..])
  {
    if |s| == 0 {
      assert s + pat == pat && txt[0..] == txt;
    } else {
      assert (s + pat)[1..] == s[1..] + pat;
      if |txt| > 0 {
        GlobLiteral(s[1..], pat, txt[1..]);
        if |s| <= |txt| {
          assert txt[..|s|] == [txt[0]] + txt[1..][..|s| - 1];
          assert s == [s[0]] + s[1..];
          assert txt[1..][|s| - 1..] == txt[|s|..];
        }
      }
    }
  }

  /** Splitting at the stars keeps the meaning of the pattern. */
  lemma {:induction false} GlobIsSpells(segments: seq<string>, txt: string)
    requires |segments| > 0 && Literal(segments)
    ensures Glob(Join(segments), txt) <==> Spells(segments, txt)
    decreases |segments|
  {
    var s := segments[0];
    if |segments| == 1 {
      GlobLiteral(s, "", txt);
      assert s + "" == s;
      if StartsWith(txt, s) && txt[|s|..] == "" {
        assert txt == txt[..|s|] + txt[|s|..];
      }
    } else {
      var rest := Join(segments[1..]);
      assert Join(segments) == s + ("*" + rest);
      GlobLiteral(s, "*" + rest, txt);
      if StartsWith(txt, s) {
        var tail := txt[|s|..];
        assert ("*" + rest)[1..] == rest;
        forall k | 0 <= k <= |tail| ensures Glob(rest, tail[k..]) <==> Spells(segments[1..], tail[k..]) {
          GlobIsSpells(segments[1..], tail[k..]);
        }
      }
    }
  }

  // ------------------------------------------------------------------- greedy search

  /** Text in front only widens the gap. */
  lemma FloatsFurther(segments: seq<string>, txt: string, k: nat)
    requires |segments| > 0 && k <= |txt|
    ensures Floats(segments, txt[k..]) ==> Floats(segments, txt)
  {
    if Floats(segments, txt[k..]) {
      var j :| 0 <= j <= |txt[k..]| && Spells(segments, txt[k..][j..]);
      assert txt[k..][j..] == txt[k + j..];
    }
  }

  /** Any occurrence can be traded for the leftmost one. */
  lemma LeftmostIsBest(segments: seq<string>, txt: string, pos: nat)
    requires |segments| >= 2 && OccursAt(txt, segments[0], pos)
    requires forall i | 0 <= i < pos :: !OccursAt(txt, segments[0], i)
    ensures Floats(segments, txt) <==> Floats(segments[1..], txt[pos + |segments[0]|..])
  {
    var s, rest := segments[0], segments[1..];
    var after := txt[pos + |s|..];
    if Floats(rest, after) {
      assert txt[pos..][|s|..] == after && txt[pos..][..|s|] == s;
      assert Spells(segments, txt[pos..]);
    }
    if Floats(segments, txt) {
      var k :| 0 <= k <= |txt| && Spells(segments, txt[k..]);
      assert txt[k..][..|s|] == txt[k..k + |s|];
      assert OccursAt(txt, s, k);
      assert txt[k..][|s|..] == after[k - pos..];
      FloatsFurther(rest, after, k - pos);
    }
  }

  lemma NoOccurrence(segments: seq<string>, txt: string)
    requires |segments| >= 2 && !Contains(txt, segments[0])
    ensures !Floats(segments, txt)
  {
    var s := segments[0];
    forall k | 0 <= k <= |txt| ensures !Spells(segments, txt[k..]) {
      assert !OccursAt(txt, s, k);
      assert k + |s| <= |txt| ==> txt[k..][..|s|] == txt[k..k + |s|];
    }
  }

  lemma EmptySegment(segments: seq<string>, txt: string)
    requires |segments| >= 2 && segments[0] == ""
    ensures Floats(segments, txt) <==> Floats(segments[1..], txt)
    ensures Spells(segments, txt) <==> Floats(segments[1..], txt)
  {
    assert txt[0..] == txt;
    LeftmostIsBest(segments, txt, 0);
  }

  lemma LastSegment(last: string, txt: string)
    ensures Floats([last], txt) <==> EndsWith(txt, last)
    ensures last == "" ==> EndsWith(txt, last)
  {
    if EndsWith(txt, last) {
      var k := |txt| - |last|;
      assert txt[k..] == txt[k..k + |last|];
      assert Spells([last], txt[k..]);
    }
  }

  /** The first segment still to be found: segment 0 is anchored before the scan and
      the last one after it. */
  ghost function Pending(i: nat, n: nat): nat
    requires n >= 2
  {
    if i == 0 then 1 else if i >= n then n - 1 else i
  }

  /** The matcher: a prefix, the middle segments leftmost first, a suffix. */
  method WildcardMatchLower(pat: string, txt: string) returns (matches: bool)
    ensures '*' in pat ==> (matches <==> Glob(pat, txt))
    ensures '*' !in pat ==> (matches <==> Contains(txt, pat))
  {
    if '*' !in pat {
      var at := Find(txt, pat);
      return at.Some?;
    }
    var segments := Split(pat);
    GlobIsSpells(segments, txt);
    matches := MatchSegments(segments, txt);
  }

  method MatchSegments(segments: seq<string>, txt: string) returns (matches: bool)
    requires |segments| >= 2
    ensures matches <==> Spells(segments, txt)
  {
    var n := |segments|;
    var needsPrefix := segments[0] != "";
    var needsSuffix := segments[n - 1] != "";
    var cursor := txt;
    if needsPrefix {
      if !StartsWith(cursor, segments[0]) {
        return false;
      }
      cursor := cursor[|segments[0]|..];
    } else {
      EmptySegment(segments, txt);
    }
    var middleStart := if needsPrefix then 1 else 0;
    var middleEnd := if needsSuffix then n - 1 else n;
    for i := middleStart to middleEnd
      invariant Spells(segments, txt) <==> Floats(segments[Pending(i, n)..], cursor)
    {
      var segment := segments[i];
      ghost var here := segments[Pending(i, n)..];
      if segment == "" {
        if 0 < i < n - 1 {
          EmptySegment(here, cursor);
        }
        continue;
      }
      assert here[0] == segment && here[1..] == segments[i + 1..];
      var pos := Find(cursor, segment);
      if pos.None? {
        NoOccurrence(here, cursor);
        return false;
      }
      LeftmostIsBest(here, cursor, pos.value);
      cursor := cursor[pos.value + |segment|..];
    }
    assert segments[n - 1..] == [segments[n - 1]];
    LastSegment(segments[n - 1], cursor);
    if needsSuffix {
      return EndsWith(cursor, segments[n - 1]);
    }
    matches := true;
  }

  // ------------------------------------------------------------------- consequences

  /** Two neighbouring stars mean the same as one. */
  lemma StarStar(rest: string, txt: string)
    ensures Glob("**" + rest, txt) <==> Glob("*" + rest, txt)
  {
    var one, two := "*" + rest, "**" + rest;
    assert two[1..] == one && one[1..] == rest;
    if Glob(one, txt) {
      assert txt[0..] == txt;
      assert Glob(two, txt);
    }
    if Glob(two, txt) {
      var k :| 0 <= k <= |txt| && Glob(one, txt[k..]);
      var j :| 0 <= j <= |txt[k..]| && Glob(rest, txt[k..][j..]);
      assert txt[k..][j..] == txt[k + j..];
    }
  }

  /** A pattern without stars behaves as the same pattern between two stars. */
  lemma PlainIsStarred(pat: string, txt: string)
    requires '*' !in pat
    ensures Contains(txt, pat) <==> Glob("*" + pat + "*", txt)
  {
    var segments := ["", pat, ""];
    assert segments[1..] == [pat, ""] && [pat, ""][1..] == [""];
    assert Join([pat, ""]) == pat + "*" + Join([""]);
    assert Join(segments) == "" + "*" + Join([pat, ""]);
    assert Join(segments) == "*" + pat + "*";
    GlobIsSpells(segments, txt);
    EmptySegment(segments, txt);
    assert Spells(segments, txt) <==> Floats([pat, ""], txt);
    if Contains(txt, pat) {
      var i: nat :| OccursAt(txt, pat, i);
      assert txt[i..][..|pat|] == pat;
      LastSegment("", txt[i..][|pat|..]);
      assert Spells([pat, ""], txt[i..]);
    } else {
      NoOccurrence([pat, ""], txt);
    }
  }
}
