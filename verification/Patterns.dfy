// The ACL wildcard matcher (src/utils/helpers.rs:28-66): a greedy left-to-right
// search over the segments between the stars, proved to decide the declarative
// meaning of a pattern whose only metacharacter is `*`.
module Patterns {
  import opened Texts
  import opened Wrappers

  // What a pattern means: `*` stands for any text, every other character for itself.
  ghost predicate Glob(pattern: string, value: string) {
    if pattern == "" then value == ""
    else if pattern[0] == '*' then exists i | 0 <= i <= |value| :: Glob(pattern[1..], value[i..])
    else value != "" && value[0] == pattern[0] && Glob(pattern[1..], value[1..])
  }

  predicate StartsWith(value: string, prefix: string) {
    prefix <= value
  }

  predicate EndsWith(value: string, suffix: string) {
    |suffix| <= |value| && value[|value| - |suffix|..] == suffix
  }

  predicate OccursAt(segment: string, value: string, i: nat) {
    i <= |value| && StartsWith(value[i..], segment)
  }

  // `*segments[0]*segments[1]*...*segments[n-1]` matches `value`.
  ghost predicate Tail(segments: seq<string>, value: string) {
    if segments == [] then value == ""
    else exists i: nat {:trigger OccursAt(segments[0], value, i)} ::
           OccursAt(segments[0], value, i) && Tail(segments[1..], value[i + |segments[0]|..])
  }

  // `segments[0]*segments[1]*...*segments[n-1]` matches `value`.
  ghost predicate Fits(segments: seq<string>, value: string)
    requires segments != []
  {
    OccursAt(segments[0], value, 0) && Tail(segments[1..], value[|segments[0]|..])
  }

  lemma FitsBehind(segments: seq<string>, value: string, i: nat)
    requires segments != [] && i <= |value|
    ensures Fits(segments, value[i..]) <==>
            OccursAt(segments[0], value, i) && Tail(segments[1..], value[i + |segments[0]|..])
  {
    assert value[i..][0..] == value[i..];
    if OccursAt(segments[0], value, i) {
      assert value[i..][|segments[0]|..] == value[i + |segments[0]|..];
    }
  }

  lemma FitsOneMore(c: char, rest: seq<string>, value: string)
    requires rest != []
    ensures Fits([[c] + rest[0]] + rest[1..], value) <==> value != "" && value[0] == c && Fits(rest, value[1..])
  {
    var first := [c] + rest[0];
    assert value[0..] == value;
    assert ([first] + rest[1..])[1..] == rest[1..];
    if value != "" {
      assert value[1..][0..] == value[1..];
      assert StartsWith(value, first) <==> value[0] == c && StartsWith(value[1..], rest[0]) by {
        assert value == [value[0]] + value[1..];
      }
      if StartsWith(value, first) {
        assert value[1..][|rest[0]|..] == value[|first|..];
      }
    }
  }

  lemma {:induction false} GlobIsSegments(pattern: string, value: string)
    ensures Glob(pattern, value) <==> Fits(Split(pattern, '*'), value)
  {
    assert value[0..] == value;
    if pattern != "" {
      var rest := Split(pattern[1..], '*');
      if pattern[0] == '*' {
        assert ([""] + rest)[1..] == rest;
        if Glob(pattern, value) {
          var i: nat :| i <= |value| && Glob(pattern[1..], value[i..]);
          GlobIsSegments(pattern[1..], value[i..]);
          FitsBehind(rest, value, i);
        }
        if Tail(rest, value) {
          var i: nat :| OccursAt(rest[0], value, i) && Tail(rest[1..], value[i + |rest[0]|..]);
          FitsBehind(rest, value, i);
          GlobIsSegments(pattern[1..], value[i..]);
        }
      } else {
        if value != "" {
          GlobIsSegments(pattern[1..], value[1..]);
        }
        FitsOneMore(pattern[0], rest, value);
      }
    }
  }

  // A star before the first segment absorbs any text in front.
  lemma TailAbsorbs(segments: seq<string>, value: string, skip: nat)
    requires segments != [] && skip <= |value| && Tail(segments, value[skip..])
    ensures Tail(segments, value)
  {
    var w := value[skip..];
    var i: nat :| OccursAt(segments[0], w, i) && Tail(segments[1..], w[i + |segments[0]|..]);
    assert w[i..] == value[skip + i..];
    assert w[i + |segments[0]|..] == value[skip + i + |segments[0]|..];
    assert OccursAt(segments[0], value, skip + i);
  }

  // Taking the leftmost occurrence of a segment loses no match.
  lemma GreedyIsComplete(segments: seq<string>, value: string, leftmost: nat)
    requires |segments| >= 2 && OccursAt(segments[0], value, leftmost)
    requires forall j: nat {:trigger OccursAt(segments[0], value, j)} :: j < leftmost ==>
      !OccursAt(segments[0], value, j)
    ensures Tail(segments, value) <==> Tail(segments[1..], value[leftmost + |segments[0]|..])
  {
    if Tail(segments, value) {
      var i: nat :| OccursAt(segments[0], value, i) && Tail(segments[1..], value[i + |segments[0]|..]);
      var w := value[leftmost + |segments[0]|..];
      assert w[i - leftmost..] == value[i + |segments[0]|..];
      TailAbsorbs(segments[1..], w, i - leftmost);
    }
  }

  // An empty segment between two stars asks for nothing.
  lemma EmptySegment(segments: seq<string>, value: string)
    requires |segments| >= 2 && segments[0] == ""
    ensures Tail(segments, value) <==> Tail(segments[1..], value)
  {
    assert value[0..] == value;
    GreedyIsComplete(segments, value, 0);
  }

  lemma LastSegment(segment: string, value: string)
    ensures Tail([segment], value) <==> EndsWith(value, segment)
  {
    assert [segment][1..] == [];
    if Tail([segment], value) {
      var i: nat :| OccursAt(segment, value, i) && Tail([], value[i + |segment|..]);
      assert value[i..] == segment;
    }
    if EndsWith(value, segment) {
      var i := |value| - |segment|;
      assert value[i + |segment|..] == "";
      assert OccursAt([segment][0], value, i);
    }
  }

  lemma {:induction false} StarsInSplit(pattern: string)
    requires '*' in pattern
    ensures |Split(pattern, '*')| >= 2
    ensures pattern[0] == '*' ==> Split(pattern, '*')[0] == ""
  {
    if pattern[0] != '*' {
      assert pattern == [pattern[0]] + pattern[1..];
      StarsInSplit(pattern[1..]);
    }
  }

  // The last piece is what follows the last star.
  lemma {:induction false} LastPiece(pattern: string)
    requires '*' in pattern
    ensures pattern[|pattern| - 1] == '*' <==> Split(pattern, '*')[|Split(pattern, '*')| - 1] == ""
  {
    var tail := pattern[1..];
    assert pattern == [pattern[0]] + tail;
    if '*' in tail {
      StarsInSplit(tail);
      LastPiece(tail);
      assert pattern[|pattern| - 1] == tail[|tail| - 1];
    } else {
      SplitOne(tail, '*');
      assert tail != "" ==> pattern[|pattern| - 1] == tail[|tail| - 1] && tail[|tail| - 1] in tail;
    }
  }

  // str::find: the leftmost occurrence at or after `from`.
  method Find(value: string, segment: string, from: nat) returns (found: Option<nat>)
    requires from <= |value|
    ensures found.Some? ==> from <= found.value && OccursAt(segment, value, found.value)
    ensures found.Some? ==> forall j :: from <= j < found.value ==> !OccursAt(segment, value, j)
    ensures found.None? ==> forall j :: from <= j ==> !OccursAt(segment, value, j)
  {
    var i := from;
    while i <= |value|
      invariant from <= i <= |value| + 1
      invariant forall j :: from <= j < i ==> !OccursAt(segment, value, j)
    {
      if OccursAt(segment, value, i) {
        return Some(i);
      }
      i := i + 1;
    }
    found := None;
  }

  // match_pattern.
  method MatchPattern(pattern: string, value: string) returns (matched: bool)
    ensures matched <==> Glob(pattern, value)
  {
    GlobIsSegments(pattern, value);
    var segments := Split(pattern, '*');
    if pattern == "*" {
      assert segments == ["", ""] && segments[1..] == [""] && value[0..] == value;
      LastSegment("", value);
      return true;
    }
    if '*' !in pattern {
      SplitOne(pattern, '*');
      assert segments[1..] == [] && value[0..] == value;
      return pattern == value;
    }
    StarsInSplit(pattern);
    LastPiece(pattern);
    var pos := 0;
    if pattern[0] != '*' {
      if !StartsWith(value, segments[0]) {
        return false;
      }
      pos := |segments[0]|;
    }
    var last := segments[|segments| - 1];
    var found := FindSegments(segments[1..], value, pos);
    if !found {
      return false;
    }
    matched := pattern[|pattern| - 1] == '*' || EndsWith(value, last);
  }

  // The interior loop of `match_pattern`: each segment is looked for behind
  // the one before. What is left to ask is where the value ends.
  method FindSegments(segments: seq<string>, value: string, from: nat) returns (found: bool)
    requires segments != [] && from <= |value|
    ensures !found ==> !Tail(segments, value[from..])
    ensures found ==> (Tail(segments, value[from..]) <==>
                       segments[|segments| - 1] == "" || EndsWith(value, segments[|segments| - 1]))
  {
    var pos, k := from, 0;
    ghost var last := segments[|segments| - 1];
    while k < |segments|
      invariant 0 <= k <= |segments| && from <= pos <= |value|
      invariant k < |segments| ==> (Tail(segments, value[from..]) <==> Tail(segments[k..], value[pos..]))
      invariant k == |segments| ==> (Tail(segments, value[from..]) <==> last == "" || EndsWith(value, last))
    {
      assert k + 1 < |segments| ==> segments[k..][1..] == segments[k + 1..];
      assert k + 1 == |segments| ==> segments[k..] == [last];
      if segments[k] == "" {
        if k + 1 < |segments| {
          EmptySegment(segments[k..], value[pos..]);
        } else {
          LastSegment(last, value[pos..]);
        }
      } else {
        var idx := Find(value, segments[k], pos);
        if idx.None? {
          NoOccurrence(segments[k..], value, pos);
          return false;
        }
        SegmentFound(segments[k..], value, pos, idx.value);
        pos := idx.value + |segments[k]|;
      }
      k := k + 1;
    }
    found := true;
  }

  lemma OccursBehind(segment: string, value: string, pos: nat, i: nat)
    requires pos <= |value|
    ensures OccursAt(segment, value[pos..], i) <==> OccursAt(segment, value, pos + i)
  {
    if i <= |value| - pos {
      assert value[pos..][i..] == value[pos + i..];
    }
  }

  lemma NoOccurrence(segments: seq<string>, value: string, pos: nat)
    requires segments != [] && pos <= |value|
    requires forall j :: pos <= j ==> !OccursAt(segments[0], value, j)
    ensures !Tail(segments, value[pos..])
  {
    forall i: nat ensures !OccursAt(segments[0], value[pos..], i) {
      OccursBehind(segments[0], value, pos, i);
    }
  }

  // One step of the search: with more segments to come the match continues
  // behind the leftmost occurrence; for the last one only the end of the
  // value counts, and the occurrence leaves room for it.
  lemma SegmentFound(segments: seq<string>, value: string, pos: nat, found: nat)
    requires segments != [] && pos <= found && OccursAt(segments[0], value, found)
    requires forall j :: pos <= j < found ==> !OccursAt(segments[0], value, j)
    ensures |segments| >= 2 ==>
              (Tail(segments, value[pos..]) <==> Tail(segments[1..], value[found + |segments[0]|..]))
    ensures |segments| == 1 ==> (Tail(segments, value[pos..]) <==> EndsWith(value, segments[0]))
  {
    var w, leftmost := value[pos..], found - pos;
    if |segments| >= 2 {
      forall j: nat ensures OccursAt(segments[0], w, j) <==> OccursAt(segments[0], value, pos + j) {
        OccursBehind(segments[0], value, pos, j);
      }
      GreedyIsComplete(segments, w, leftmost);
      assert w[leftmost + |segments[0]|..] == value[found + |segments[0]|..];
    } else {
      assert segments == [segments[0]];
      LastSegment(segments[0], w);
      assert w[|w| - |segments[0]|..] == value[|value| - |segments[0]|..];
    }
  }
}
