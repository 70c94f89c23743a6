/** The checker for component labels (GraphalyticsValidate::equivalence_match). */
module Validate {
  import opened Ranges

  type Line = (int, int)   // vertex, component

  datatype Verdict = Accepted | Fatal

  // ----- reading a line

  /** `strtoll`: a number above the largest signed 64-bit integer is read as that. */
  function Clamp(x: int): int
  {
    if x > INT64_MAX then INT64_MAX else x
  }

  function Parse(written: Line): Line
  {
    (Clamp(written.0), Clamp(written.1))
  }

  /** What `parse_value` makes of the numbers that a file holds. */
  function Parsed(written: seq<Line>): (lines: seq<Line>)
    ensures |lines| == |written| && forall i :: 0 <= i < |lines| ==> lines[i] == Parse(written[i])
  {
    seq(|written|, i requires 0 <= i < |written| => Parse(written[i]))
  }

  /** Lines as they can be read. */
  ghost predicate InRange(lines: seq<Line>)
  {
    forall i :: 0 <= i < |lines| ==> 0 <= lines[i].0 <= INT64_MAX && 0 <= lines[i].1 <= INT64_MAX
  }

  // ----- what is accepted

  /** The lines of the result file as a map; a later line for the same vertex wins. */
  function Components(lines: seq<Line>): map<int, int>
  {
    if lines == [] then map[] else Components(lines[..|lines| - 1])[lines[|lines| - 1].0 := lines[|lines| - 1].1]
  }

  /** Two lines have the same reference label exactly if their vertices have the same result label. */
  ghost predicate SamePartition(found: map<int, int>, lines: seq<Line>)
  {
    && (forall i :: 0 <= i < |lines| ==> lines[i].0 in found)
    && (forall i, j :: 0 <= i < |lines| && 0 <= j < |lines| ==>
          (lines[i].1 == lines[j].1 <==> found[lines[i].0] == found[lines[j].0]))
  }

  /** What the checker accepts (see `EquivalenceMatch`). */
  ghost predicate IsAccepted(result: seq<Line>, expected: seq<Line>)
  {
    SamePartition(Components(result), expected) && |Components(result)| <= |expected|
  }

  ghost predicate IsBijection(m: map<int, int>)
  {
    forall x, y :: x in m && y in m && m[x] == m[y] ==> x == y
  }

  // The local state: the mapping of reference labels to result labels, and the labels it maps to.
  datatype Seen = Seen(mapping: map<int, int>, unique: set<int>, errors: nat)

  /**
   While there is no error, `mapping` relates exactly the labels of the lines read so far, and is a bijection onto
   `unique`.
   */
  ghost predicate Tracks(found: map<int, int>, lines: seq<Line>, s: Seen)
  {
    && (s.errors == 0 <==> SamePartition(found, lines))
    && (s.errors == 0 ==>
          && IsBijection(s.mapping)
          && (forall i :: 0 <= i < |lines| ==> lines[i].1 in s.mapping && s.mapping[lines[i].1] == found[lines[i].0])
          && (forall r :: r in s.mapping ==> exists i :: 0 <= i < |lines| && lines[i].1 == r)
          && (forall c :: c in s.unique <==> exists r :: r in s.mapping && s.mapping[r] == c))
  }

  /** One line of the reference file. */
  function CheckLine(found: map<int, int>, line: Line, s: Seen): Seen
  {
    if line.0 !in found then s.(errors := s.errors + 1)
    else
      var c := found[line.0];
      if line.1 !in s.mapping then
        Seen(s.mapping[line.1 := c], s.unique + {c}, if c in s.unique then s.errors + 1 else s.errors)
      else if s.mapping[line.1] != c then s.(errors := s.errors + 1)
      else s
  }

  lemma PrefixPartition(found: map<int, int>, lines: seq<Line>, line: Line)
    requires SamePartition(found, lines + [line])
    ensures SamePartition(found, lines) && line.0 in found
  {
    var all := lines + [line];
    assert forall i :: 0 <= i < |lines| ==> all[i] == lines[i];
    assert all[|lines|] == line;
  }

  lemma NewLabelTracks(found: map<int, int>, lines: seq<Line>, line: Line, s: Seen)
    requires Tracks(found, lines, s) && s.errors == 0 && line.0 in found && line.1 !in s.mapping
    ensures Tracks(found, lines + [line], CheckLine(found, line, s))
  {
    var all, c := lines + [line], found[line.0];
    assert forall i :: 0 <= i < |lines| ==> all[i] == lines[i];
    assert all[|lines|] == line;
    if c in s.unique {
      var r :| r in s.mapping && s.mapping[r] == c;
      var i :| 0 <= i < |lines| && lines[i].1 == r;
      assert all[i].1 != all[|lines|].1 && found[all[i].0] == found[all[|lines|].0];
    } else {
      var t := CheckLine(found, line, s);
      forall r | r in t.mapping
        ensures exists i :: 0 <= i < |all| && all[i].1 == r
      {
        if r in s.mapping {
          var i :| 0 <= i < |lines| && lines[i].1 == r;
          assert all[i].1 == r;
        }
      }
    }
  }

  lemma OldLabelTracks(found: map<int, int>, lines: seq<Line>, line: Line, s: Seen)
    requires Tracks(found, lines, s) && s.errors == 0 && line.0 in found && line.1 in s.mapping
    ensures Tracks(found, lines + [line], CheckLine(found, line, s))
  {
    var all := lines + [line];
    assert forall i :: 0 <= i < |lines| ==> all[i] == lines[i];
    assert all[|lines|] == line;
    var k :| 0 <= k < |lines| && lines[k].1 == line.1;
    assert all[k].1 == all[|lines|].1;
    if s.mapping[line.1] == found[line.0] {
      forall r | r in s.mapping
        ensures exists i :: 0 <= i < |all| && all[i].1 == r
      {
        var i :| 0 <= i < |lines| && lines[i].1 == r;
        assert all[i].1 == r;
      }
    }
  }

  lemma CheckLineTracks(found: map<int, int>, lines: seq<Line>, line: Line, s: Seen)
    requires Tracks(found, lines, s)
    ensures Tracks(found, lines + [line], CheckLine(found, line, s))
  {
    if s.errors > 0 || line.0 !in found {
      if SamePartition(found, lines + [line]) {
        PrefixPartition(found, lines, line);
      }
    } else if line.1 !in s.mapping {
      NewLabelTracks(found, lines, line, s);
    } else {
      OldLabelTracks(found, lines, line, s);
    }
  }

  /** ERROR_COUNT: the first error is fatal if one is the maximum, else the one that reaches the maximum. */
  predicate FatalAt(errors: nat, maxNumErrors: nat)
  {
    errors > 0 && (maxNumErrors == 1 || (maxNumErrors > 1 && errors == maxNumErrors))
  }

  lemma NothingTracked(found: map<int, int>)
    ensures Tracks(found, [], Seen(map[], {}, 0))
  {
  }

  /** The result file as a map. */
  method ReadResult(result: seq<Line>) returns (found: map<int, int>)
    ensures found == Components(Parsed(result))
  {
    ghost var read := Parsed(result);
    found := map[];
    for k := 0 to |result|
      invariant found == Components(read[..k])
    {
      assert read[..k + 1][..k] == read[..k];
      var line := Parse(result[k]);
      found := found[line.0 := line.1];
    }
    assert read[..|result|] == read;
  }

  /**
   Accepted exactly if every reference vertex has a result, the labels correspond one to one, and there are enough
   lines, all as they are read.
   */
  method EquivalenceMatch(result: seq<Line>, expected: seq<Line>, maxNumErrors: nat) returns (verdict: Verdict)
    ensures verdict == Accepted <==> IsAccepted(Parsed(result), Parsed(expected))
  {
    ghost var reference := Parsed(expected);
    var found := ReadResult(result);
    NothingTracked(found);
    assert reference[..0] == [];
    hide SamePartition, IsBijection;
    var s := Seen(map[], {}, 0);
    var lineno := 0;
    while lineno < |expected|
      invariant lineno <= |expected| && Tracks(found, reference[..lineno], s)
    {
      var line := Parse(expected[lineno]);
      CheckLineTracks(found, reference[..lineno], line, s);
      assert reference[..lineno + 1] == reference[..lineno] + [line];
      var errors := s.errors;
      s := CheckLine(found, line, s);
      if s.errors > errors && FatalAt(s.errors, maxNumErrors) {
        NoRecovery(found, reference, lineno + 1);
        return Fatal;
      }
      lineno := lineno + 1;
    }
    assert reference[..lineno] == reference;
    if lineno < |found| {
      return Fatal;
    }
    return if s.errors > 0 then Fatal else Accepted;
  }

  /** An error in a prefix is an error of the whole file. */
  lemma NoRecovery(found: map<int, int>, lines: seq<Line>, k: nat)
    requires k <= |lines| && !SamePartition(found, lines[..k])
    ensures !SamePartition(found, lines)
  {
    if SamePartition(found, lines) {
      assert forall i :: 0 <= i < k ==> lines[..k][i] == lines[i];
      assert SamePartition(found, lines[..k]);
    }
  }

  // ----- what it is meant to accept

  ghost predicate SameComponents(result: seq<Line>, expected: seq<Line>)
  {
    VerticesOf(result) == VerticesOf(expected) && SamePartition(Components(result), expected)
  }

  ghost predicate DecidesRight(result: seq<Line>, expected: seq<Line>)
  {
    IsAccepted(result, expected) <==> SameComponents(result, expected)
  }

  ghost predicate OneLinePerVertex(lines: seq<Line>)
  {
    forall i, j :: 0 <= i < j < |lines| ==> lines[i].0 != lines[j].0
  }

  function VerticesOf(lines: seq<Line>): set<int>
  {
    set i | 0 <= i < |lines| :: lines[i].0
  }

  lemma VerticesAppend(front: seq<Line>, last: Line)
    ensures VerticesOf(front + [last]) == VerticesOf(front) + {last.0}
  {
    var lines := front + [last];
    forall v | v in VerticesOf(front) ensures v in VerticesOf(lines) {
      var i :| 0 <= i < |front| && front[i].0 == v;
      assert lines[i].0 == v;
    }
    assert lines[|front|].0 == last.0;
  }

  lemma {:induction false} ComponentsAre(lines: seq<Line>)
    ensures Components(lines).Keys == VerticesOf(lines)
  {
    if lines != [] {
      var front, last := lines[..|lines| - 1], lines[|lines| - 1];
      ComponentsAre(front);
      assert lines == front + [last];
      VerticesAppend(front, last);
    }
  }

  /** The map holds the last line of each vertex. */
  lemma {:induction false} LastLine(lines: seq<Line>, j: nat) returns (i: nat)
    requires j < |lines|
    ensures i < |lines| && lines[i].0 == lines[j].0
    ensures lines[j].0 in Components(lines) && Components(lines)[lines[j].0] == lines[i].1
    decreases |lines|
  {
    var last := |lines| - 1;
    if lines[last].0 == lines[j].0 {
      i := last;
    } else {
      i := LastLine(lines[..last], j);
    }
  }

  lemma OneMoreKey(m: map<int, int>, k: int, v: int)
    requires k !in m
    ensures |m[k := v]| == |m| + 1
  {
    assert m[k := v].Keys == m.Keys + {k};
    assert |m[k := v].Keys| == |m[k := v]| && |m.Keys| == |m|;
  }

  lemma {:induction false} ComponentsOfDistinct(lines: seq<Line>)
    requires OneLinePerVertex(lines)
    ensures forall i :: 0 <= i < |lines| ==>
      lines[i].0 in Components(lines) && Components(lines)[lines[i].0] == lines[i].1
    ensures |Components(lines)| == |lines|
  {
    if lines != [] {
      var front, last := lines[..|lines| - 1], lines[|lines| - 1];
      ComponentsOfDistinct(front);
      ComponentsAre(front);
      assert last.0 !in Components(front);
      assert Components(lines) == Components(front)[last.0 := last.1];
      hide Components, VerticesOf, OneLinePerVertex;
      OneMoreKey(Components(front), last.0, last.1);
      forall i | 0 <= i < |front|
        ensures front[i] == lines[i] && front[i].0 != last.0
      {
        assert front[i].0 in Components(front);
      }
    }
  }

  lemma VerticesSize(lines: seq<Line>)
    requires OneLinePerVertex(lines)
    ensures |VerticesOf(lines)| == |lines|
  {
    ComponentsAre(lines);
    ComponentsOfDistinct(lines);
    assert |Components(lines).Keys| == |Components(lines)|;
  }

  /**
   For reference files with one line per vertex: accepted iff the vertex sets coincide and the labels are related by a
   bijection.
   */
  lemma AcceptedIffSameComponents(result: seq<Line>, expected: seq<Line>)
    requires OneLinePerVertex(expected)
    ensures DecidesRight(result, expected)
  {
    var found := Components(result);
    ComponentsAre(result);
    VerticesSize(expected);
    assert |found.Keys| == |found|;
    if SamePartition(found, expected) {
      forall v | v in VerticesOf(expected) ensures v in found {
        var i :| 0 <= i < |expected| && expected[i].0 == v;
      }
      assert VerticesOf(expected) <= found.Keys;
      if |found| <= |expected| {
        SubsetSize(VerticesOf(expected), found.Keys);
      }
    }
  }

  /** A repeated reference line hides a vertex that the reference does not know. */
  lemma RepeatedLinesHideVertices()
    ensures var result, expected := [(1, 1), (2, 2)], [(1, 1), (1, 1)];
      IsAccepted(result, expected) && VerticesOf(result) != VerticesOf(expected)
  {
    var result, expected: seq<Line> := [(1, 1), (2, 2)], [(1, 1), (1, 1)];
    ComponentsAre(result);
    assert result[1].0 in VerticesOf(result);
    assert 2 !in VerticesOf(expected);
    assert result[..1] == [(1, 1)] && [(1, 1)][..0] == [];
    assert Components(result) == map[1 := 1, 2 := 2];
  }

  // ----- the exact condition on the reference file

  /** Two lines give one vertex different labels. */
  ghost predicate Contradicts(lines: seq<Line>)
  {
    exists i, j :: 0 <= i < |lines| && 0 <= j < |lines| && lines[i].0 == lines[j].0 && lines[i].1 != lines[j].1
  }

  /** No result agrees with a reference that contradicts itself. */
  lemma ContradictionIsRefused(result: seq<Line>, expected: seq<Line>)
    requires Contradicts(expected)
    ensures !SamePartition(Components(result), expected)
  {
    var i, j :| 0 <= i < |expected| && 0 <= j < |expected| && expected[i].0 == expected[j].0
      && expected[i].1 != expected[j].1;
    hide Components;
  }

  lemma {:induction false} RepeatedVerticesAreFewer(lines: seq<Line>)
    ensures |VerticesOf(lines)| <= |lines|
    ensures !OneLinePerVertex(lines) ==> |VerticesOf(lines)| < |lines|
  {
    if lines != [] {
      var front, last := lines[..|lines| - 1], lines[|lines| - 1];
      assert lines == front + [last];
      RepeatedVerticesAreFewer(front);
      VerticesAppend(front, last);
      if OneLinePerVertex(front) && !OneLinePerVertex(lines) {
        var i, j :| 0 <= i < j < |lines| && lines[i].0 == lines[j].0;
        assert front[i].0 == last.0 && front[i].0 in VerticesOf(front);
        assert VerticesOf(lines) == VerticesOf(front);
      }
    }
  }

  /** A file that does not contradict itself, read as a map. */
  lemma {:induction false} ComponentsOfConsistent(lines: seq<Line>)
    requires !Contradicts(lines)
    ensures forall i :: 0 <= i < |lines| ==>
      lines[i].0 in Components(lines) && Components(lines)[lines[i].0] == lines[i].1
  {
    if lines != [] {
      var front, last := lines[..|lines| - 1], lines[|lines| - 1];
      assert forall i :: 0 <= i < |front| ==> front[i] == lines[i];
      ComponentsOfConsistent(front);
      forall i | 0 <= i < |lines|
        ensures lines[i].0 in Components(lines) && Components(lines)[lines[i].0] == lines[i].1
      {
        if i < |front| {
          assert front[i] == lines[i];
        }
      }
    }
  }

  ghost predicate NamesAll(lines: seq<Line>)
  {
    forall v: int :: 0 <= v <= INT64_MAX ==> v in VerticesOf(lines)
  }

  /** The reference itself with one vertex more is accepted, since the repeated line makes up for it. */
  lemma OneVertexTooMany(expected: seq<Line>) returns (result: seq<Line>)
    requires InRange(expected) && !OneLinePerVertex(expected) && !Contradicts(expected) && !NamesAll(expected)
    ensures InRange(result) && IsAccepted(result, expected) && VerticesOf(result) != VerticesOf(expected)
  {
    var v: int :| 0 <= v <= INT64_MAX && v !in VerticesOf(expected);
    var extra: Line := (v, 0);
    result := expected + [extra];
    assert result[..|result| - 1] == expected;
    RepeatedVerticesAreFewer(expected);
    ComponentsOfConsistent(expected);
    ComponentsAre(result);
    VerticesAppend(expected, extra);
    assert v in VerticesOf(result);
    assert |Components(result)| == |Components(result).Keys| == |VerticesOf(expected)| + 1;
    KeepsPartition(expected, extra);
  }

  /** If the reference names every vertex there is, a result cannot name more. */
  lemma NothingToHide(result: seq<Line>, expected: seq<Line>)
    requires InRange(result) && InRange(expected) && NamesAll(expected)
    ensures DecidesRight(result, expected)
  {
    if SamePartition(Components(result), expected) {
      ComponentsAre(result);
      forall v | v in VerticesOf(expected) ensures v in VerticesOf(result) {
        var i :| 0 <= i < |expected| && expected[i].0 == v;
      }
      forall v | v in VerticesOf(result) ensures v in VerticesOf(expected) {
        var i :| 0 <= i < |result| && result[i].0 == v;
      }
      RepeatedVerticesAreFewer(expected);
      assert |Components(result)| == |Components(result).Keys|;
    }
  }

  lemma KeepsPartition(expected: seq<Line>, extra: Line)
    requires extra.0 !in VerticesOf(expected)
    requires forall i :: 0 <= i < |expected| ==>
      expected[i].0 in Components(expected) && Components(expected)[expected[i].0] == expected[i].1
    ensures SamePartition(Components(expected + [extra]), expected)
  {
    assert (expected + [extra])[..|expected|] == expected;
    forall i | 0 <= i < |expected|
      ensures expected[i].0 != extra.0
    {
      assert expected[i].0 in VerticesOf(expected);
    }
  }

  /**
   The checker decides right about every result file if and only if the reference has one line per vertex, or
   contradicts itself, so that nothing is accepted, or names every vertex that can be read.
   */
  lemma DecidesRightIff(expected: seq<Line>)
    requires InRange(expected)
    ensures (forall result :: InRange(result) ==> DecidesRight(result, expected)) <==>
      OneLinePerVertex(expected) || Contradicts(expected) || NamesAll(expected)
  {
    hide SamePartition, Components, OneLinePerVertex, VerticesOf, InRange, NamesAll, Contradicts;
    if OneLinePerVertex(expected) {
      forall result ensures DecidesRight(result, expected) { AcceptedIffSameComponents(result, expected); }
    } else if Contradicts(expected) {
      forall result ensures DecidesRight(result, expected) { ContradictionIsRefused(result, expected); }
    } else if NamesAll(expected) {
      forall result | InRange(result) ensures DecidesRight(result, expected) { NothingToHide(result, expected); }
    } else {
      var result := OneVertexTooMany(expected);
      assert !DecidesRight(result, expected);
    }
  }
}
