/**
 * The bookkeeping of `diarize_dataset` before any recording is processed:
 * the `SPKR-INFO` lines of the reference RTTM file (when the oracle number
 * of speakers is used) and the sorted list of recording ids in the CSV.
 */
module Dataset {
  import opened Wrappers
  import opened PyStrings

  /**
   * Lines 299-303: the reference RTTM file read line by line, each line
   * without its last character (the newline, or the last real character of
   * a final line that has none).
   */
  method ReadRttm(lines: seq<string>) returns (rttm: seq<string>)
    ensures |rttm| == |lines|
    ensures forall i :: 0 <= i < |lines| ==>
      (|lines[i]| > 0 ==> rttm[i] + [lines[i][|lines[i]| - 1]] == lines[i])
      && (|lines[i]| == 0 ==> rttm[i] == [])
  {
    rttm := [];
    for i := 0 to |lines|
      invariant |rttm| == i
      invariant forall j :: 0 <= j < i ==> rttm[j] == DropLast(lines[j])
    {
      var entry := DropLast(lines[i]);
      rttm := rttm + [entry];
    }
  }

  const SpkrInfoTag: string := "SPKR-INFO"

  /** Lines 305-307: the lines that start with `SPKR-INFO`, in file order. */
  function SpkrInfo(rttm: seq<string>): (r: seq<string>)
    ensures |r| <= |rttm|
    ensures forall x :: x in r ==> x in rttm && StartsWith(x, SpkrInfoTag)
  {
    if rttm == [] then []
    else (if StartsWith(rttm[0], SpkrInfoTag) then [rttm[0]] else []) + SpkrInfo(rttm[1..])
  }

  /** The positions of the `SPKR-INFO` lines, in order. */
  function SpkrInfoPositions(rttm: seq<string>): seq<nat>
  {
    if rttm == [] then []
    else (if StartsWith(rttm[0], SpkrInfoTag) then [0] else []) + Shift(SpkrInfoPositions(rttm[1..]))
  }

  lemma {:induction false} PositionsPick(rttm: seq<string>)
    ensures var idx := SpkrInfoPositions(rttm);
      && |idx| == |SpkrInfo(rttm)|
      && forall j :: 0 <= j < |idx| ==> idx[j] < |rttm| && SpkrInfo(rttm)[j] == rttm[idx[j]]
  {
    if rttm != [] {
      PositionsPick(rttm[1..]);
      var rest := SpkrInfoPositions(rttm[1..]);
      var tail := SpkrInfo(rttm[1..]);
      var idx := SpkrInfoPositions(rttm);
      var out := SpkrInfo(rttm);
      var d := if StartsWith(rttm[0], SpkrInfoTag) then 1 else 0;
      assert idx == (if d == 1 then [0] else []) + Shift(rest);
      assert out == (if d == 1 then [rttm[0]] else []) + tail;
      forall j | d <= j < |idx|
        ensures idx[j] < |rttm| && out[j] == rttm[idx[j]]
      {
        assert idx[j] == rest[j - d] + 1 && out[j] == tail[j - d];
      }
    }
  }

  predicate Increasing(idx: seq<nat>)
  {
    forall j, k :: 0 <= j < k < |idx| ==> idx[j] < idx[k]
  }

  lemma {:induction false} PositionsIncrease(rttm: seq<string>)
    ensures Increasing(SpkrInfoPositions(rttm))
  {
    if rttm != [] {
      var rest := SpkrInfoPositions(rttm[1..]);
      PositionsIncrease(rttm[1..]);
      var idx := SpkrInfoPositions(rttm);
      var d := if StartsWith(rttm[0], SpkrInfoTag) then 1 else 0;
      assert idx == (if d == 1 then [0] else []) + Shift(rest);
      forall j, k | 0 <= j < k < |idx|
        ensures idx[j] < idx[k]
      {
        assert idx[k] == rest[k - d] + 1;
        if j >= d {
          assert idx[j] == rest[j - d] + 1;
        }
      }
    }
  }

  lemma {:induction false} PositionsMembers(rttm: seq<string>)
    ensures forall i :: 0 <= i < |rttm| ==> (StartsWith(rttm[i], SpkrInfoTag) <==> i in SpkrInfoPositions(rttm))
  {
    if rttm != [] {
      var rest := SpkrInfoPositions(rttm[1..]);
      PositionsMembers(rttm[1..]);
      ShiftMembers(rest, 0);
      forall i | 1 <= i < |rttm|
        ensures StartsWith(rttm[i], SpkrInfoTag) <==> i in SpkrInfoPositions(rttm)
      {
        assert rttm[i] == rttm[1..][i - 1];
        ShiftMembers(rest, i - 1);
      }
    }
  }

  /**
   * The filter keeps exactly the `SPKR-INFO` lines, in their order: the
   * result is the input at the strictly increasing positions `idx`, and a
   * position is among them exactly when its line starts with the tag.
   */
  lemma SpkrInfoSelects(rttm: seq<string>) returns (idx: seq<nat>)
    ensures |idx| == |SpkrInfo(rttm)|
    ensures forall j :: 0 <= j < |idx| ==> idx[j] < |rttm| && SpkrInfo(rttm)[j] == rttm[idx[j]]
    ensures Increasing(idx)
    ensures forall i :: 0 <= i < |rttm| ==> (StartsWith(rttm[i], SpkrInfoTag) <==> i in idx)
  {
    idx := SpkrInfoPositions(rttm);
    PositionsPick(rttm);
    PositionsIncrease(rttm);
    PositionsMembers(rttm);
  }

  /** Every position moved one place on. */
  function Shift(idx: seq<nat>): (r: seq<nat>)
    ensures |r| == |idx|
    ensures forall j :: 0 <= j < |idx| ==> r[j] == idx[j] + 1
  {
    seq(|idx|, j requires 0 <= j < |idx| => idx[j] + 1)
  }

  lemma ShiftMembers(idx: seq<nat>, i: nat)
    ensures i in idx <==> i + 1 in Shift(idx)
    ensures 0 !in Shift(idx)
  {
    var r := Shift(idx);
    if i in idx {
      var j :| 0 <= j < |idx| && idx[j] == i;
      assert r[j] == i + 1;
    }
    if i + 1 in r {
      var j :| 0 <= j < |r| && r[j] == i + 1;
      assert idx[j] == i;
    }
  }

  /** Python's `a < b` holds between every earlier and later element. */
  predicate StrictlyAscending(s: seq<string>)
  {
    forall i, j :: 0 <= i < j < |s| ==> LexLess(s[i], s[j])
  }

  /** A strictly ascending list holds no value twice. */
  lemma AscendingNoDuplicates(s: seq<string>)
    requires StrictlyAscending(s)
    ensures forall i, j :: 0 <= i < j < |s| ==> s[i] != s[j]
  {
    forall i, j | 0 <= i < j < |s|
      ensures s[i] != s[j]
    {
      LexLessIrreflexive(s[i]);
    }
  }

  /** Add `x` to a strictly ascending list unless it is already there. */
  function InsertUnique(x: string, s: seq<string>): (r: seq<string>)
    ensures forall y :: y in r <==> y == x || y in s
    ensures |r| > 0 && (r[0] == x || (s != [] && r[0] == s[0]))
  {
    if s == [] then [x]
    else if x == s[0] then s
    else if LexLess(x, s[0]) then [x] + s
    else [s[0]] + InsertUnique(x, s[1..])
  }

  lemma {:induction false} InsertUniqueAscending(x: string, s: seq<string>)
    requires StrictlyAscending(s)
    ensures StrictlyAscending(InsertUnique(x, s))
  {
    if s == [] || x == s[0] {
    } else if LexLess(x, s[0]) {
      forall j | 0 <= j < |s|
        ensures LexLess(x, s[j])
      {
        if j > 0 {
          LexLessTransitive(x, s[0], s[j]);
        }
      }
    } else {
      LexLessTrichotomy(x, s[0]);
      var rest := InsertUnique(x, s[1..]);
      InsertUniqueAscending(x, s[1..]);
      var r := [s[0]] + rest;
      forall i, j | 0 <= i < j < |r|
        ensures LexLess(r[i], r[j])
      {
        if i == 0 {
          assert r[j] in rest;
        } else {
          assert r[i] == rest[i - 1] && r[j] == rest[j - 1];
        }
      }
    }
  }

  /** `sorted(set(xs))`: the distinct values of `xs`, strictly ascending. */
  function SortedSet(xs: seq<string>): (r: seq<string>)
    ensures StrictlyAscending(r)
    ensures forall y :: y in r <==> y in xs
  {
    if xs == [] then []
    else
      var rest := SortedSet(xs[1..]);
      InsertUniqueAscending(xs[0], rest);
      assert forall y :: y in xs <==> y == xs[0] || y in xs[1..];
      InsertUnique(xs[0], rest)
  }

  /** The first element of a strictly ascending list is below all the others. */
  lemma AscendingFirst(s: seq<string>, y: string)
    requires StrictlyAscending(s) && y in s
    ensures y == s[0] || LexLess(s[0], y)
  {
  }

  /**
   * Only one strictly ascending list has a given set of elements, so the
   * recording-id list does not depend on the order in which the set yields
   * its elements.
   */
  lemma {:induction false} AscendingUnique(a: seq<string>, b: seq<string>)
    requires StrictlyAscending(a) && StrictlyAscending(b)
    requires forall x :: x in a <==> x in b
    ensures a == b
  {
    if a != [] {
      assert a[0] in b;
    }
    if b != [] {
      assert b[0] in a;
    }
    if a != [] && b != [] {
      AscendingFirst(a, b[0]);
      AscendingFirst(b, a[0]);
      LexLessTrichotomy(a[0], b[0]);
      assert a[0] == b[0];
      forall x
        ensures x in a[1..] <==> x in b[1..]
      {
        LexLessIrreflexive(x);
        TailMember(a, x);
        TailMember(b, x);
      }
      AscendingUnique(a[1..], b[1..]);
      assert a == [a[0]] + a[1..] && b == [b[0]] + b[1..];
    }
  }

  /** In a strictly ascending list, the tail holds exactly the elements above the first. */
  lemma TailMember(s: seq<string>, x: string)
    requires StrictlyAscending(s) && s != []
    ensures x in s[1..] <==> x in s && LexLess(s[0], x)
  {
    if x in s[1..] {
      var k :| 0 <= k < |s| - 1 && s[1..][k] == x;
      assert s[k + 1] == x;
    }
    if x in s && LexLess(s[0], x) {
      var k :| 0 <= k < |s| && s[k] == x;
      LexLessIrreflexive(x);
      assert k != 0;
      assert s[1..][k - 1] == x;
    }
  }

  /** `row[0].rstrip().split("_")[0]`: the recording id in a CSV row. */
  function RecordingIdOf(row: seq<string>): (id: string)
    requires |row| > 0
    ensures '_' !in id
    ensures |id| <= |row[0]| && row[0][..|id|] == id
    ensures |id| <= |RStrip(row[0])| && RStrip(row[0])[..|id|] == id
    ensures |id| < |RStrip(row[0])| ==> RStrip(row[0])[|id|] == '_'
  {
    FirstField(RStrip(row[0]), '_')
  }

  /** The exception of line 310: a CSV row without fields has no `row[0]`. */
  datatype DatasetError = IndexError

  /** `A`: the recording id of every row, header included. */
  function RecordingIdList(rows: seq<seq<string>>): (a: seq<string>)
    requires forall i :: 0 <= i < |rows| ==> |rows[i]| > 0
    ensures |a| == |rows|
    ensures forall i :: 0 <= i < |rows| ==> a[i] == RecordingIdOf(rows[i])
  {
    seq(|rows|, i requires 0 <= i < |rows| && |rows[i]| > 0 => RecordingIdOf(rows[i]))
  }

  lemma TailMembers(rows: seq<seq<string>>, x: string)
    requires |rows| > 0 && forall i :: 0 <= i < |rows| ==> |rows[i]| > 0
    ensures x in RecordingIdList(rows)[1..] <==> exists i :: 1 <= i < |rows| && |rows[i]| > 0 && x == RecordingIdOf(rows[i])
  {
    var a := RecordingIdList(rows);
    if x in a[1..] {
      var k :| 0 <= k < |a| - 1 && a[1..][k] == x;
      assert a[k + 1] == x;
    }
    if exists i :: 1 <= i < |rows| && |rows[i]| > 0 && x == RecordingIdOf(rows[i]) {
      var i :| 1 <= i < |rows| && |rows[i]| > 0 && x == RecordingIdOf(rows[i]);
      assert a[1..][i - 1] == x;
    }
  }

  /**
   * Lines 310-312: the recording ids of the CSV, header row excluded,
   * each once, in ascending order; an empty row anywhere (the header
   * included) raises `IndexError`.
   */
  function RecordingIds(csv: seq<seq<string>>): (r: Result<seq<string>, DatasetError>)
    ensures r.Failure? <==> exists i :: 0 <= i < |csv| && csv[i] == []
    ensures r.Success? ==> StrictlyAscending(r.value)
    ensures r.Success? ==>
      forall x :: x in r.value <==> exists i :: 1 <= i < |csv| && |csv[i]| > 0 && x == RecordingIdOf(csv[i])
  {
    if exists i :: 0 <= i < |csv| && csv[i] == [] then Failure(IndexError)
    else if |csv| == 0 then Success([])
    else
      var a := RecordingIdList(csv);
      var ids := SortedSet(a[1..]);
      assert forall x :: x in ids <==> exists i :: 1 <= i < |csv| && |csv[i]| > 0 && x == RecordingIdOf(csv[i]) by {
        forall x
          ensures x in ids <==> exists i :: 1 <= i < |csv| && |csv[i]| > 0 && x == RecordingIdOf(csv[i])
        {
          TailMembers(csv, x);
        }
      }
      Success(ids)
  }
}
