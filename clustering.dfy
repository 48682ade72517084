/**
 * `do_spec_clustering` and `Spec_Cluster`: spectral clustering of the
 * embeddings of one recording, then the conversion of the cluster labels
 * into `[recording, start, end, speaker]` entries sorted by start time.
 * The merge and overlap-splitting steps and the RTTM writer that follow
 * belong to a helper module that is not part of this model.
 */
module SpecClustering {
  import opened Wrappers
  import opened PyStrings
  import opened Affinity
  import opened Spectral

  /** One `[rec_id, sseg_start, sseg_end, spkr_id]` entry of the list `lol`. */
  datatype Entry = Entry(rec: string, start: real, end: real, spkr: string)

  /** The Python exception raised by the conversion loop. */
  datatype ErrorKind =
    | IndexError   // a subsegment id is missing, or has too few `_`-fields
    | ValueError   // `float()` rejected a start or end field

  /** The exception and the loop iteration that raised it. */
  datatype ClusteringError = ClusteringError(position: nat, kind: ErrorKind)

  /**
   * Lines 240-243 for one subsegment id `<rec>_<start>_<end>`: `rsplit("_", 2)`,
   * then `float()` of the start field, then of the end field. `parse` is
   * Python's `float()` on a string, `None` where it raises.
   */
  function ParseSubsegment(id: string, parse: string -> Option<real>): (r: Result<(string, real, real), ErrorKind>)
    ensures r.Success? ==> r.value.0 == RecordingOf(id)
  {
    var parts := RSplit(id, '_', 2);
    if |parts| < 2 then Failure(IndexError)
    else match parse(parts[1])
      case None => Failure(ValueError)
      case Some(start) =>
        if |parts| < 3 then Failure(IndexError)
        else match parse(parts[2])
          case None => Failure(ValueError)
          case Some(end) =>
            Success((parts[0], start, end))
  }

  /** An id without `_` has no start field: `splitted[1]` raises `IndexError`. */
  lemma ParseWithoutSeparator(id: string, parse: string -> Option<real>)
    requires '_' !in id
    ensures ParseSubsegment(id, parse) == Failure(IndexError)
  {
    assert RSplit(id, '_', 2) == [id];
  }

  /**
   * An id `rec_a` with a single `_` raises `ValueError` when `float(a)` does,
   * and otherwise `IndexError` at `splitted[2]`.
   */
  lemma ParseOneSeparator(rec: string, a: string, parse: string -> Option<real>)
    requires '_' !in rec && '_' !in a
    ensures ParseSubsegment(rec + "_" + a, parse)
      == if parse(a).None? then Failure(ValueError) else Failure(IndexError)
  {
    var s := rec + "_" + a;
    LastIndexOfSplit(rec, '_', a);
    assert s[..|rec|] == rec && s[|rec| + 1..] == a;
    assert RSplit(rec, '_', 1) == [rec];
    assert RSplit(s, '_', 2) == [rec, a];
  }

  /**
   * An id `rec_a_b` (the recording may hold `_`) raises `ValueError` when
   * `float()` rejects the start, or else the end.
   */
  lemma ParseRejectedTimes(rec: string, a: string, b: string, parse: string -> Option<real>)
    requires '_' !in a && '_' !in b
    ensures parse(a).None? ==> ParseSubsegment(Join([rec, a, b], '_'), parse) == Failure(ValueError)
    ensures parse(a).Some? && parse(b).None? ==> ParseSubsegment(Join([rec, a, b], '_'), parse) == Failure(ValueError)
  {
    RSplitUnique(Join([rec, a, b], '_'), '_', 2, [rec, a, b]);
  }

  /**
   * A parsed id is `rec + "_" + start + "_" + end` with start and end the
   * fields that `float()` accepted, neither containing `_`.
   */
  lemma ParsedSubsegmentFields(id: string, parse: string -> Option<real>)
    requires ParseSubsegment(id, parse).Success?
    ensures var r := ParseSubsegment(id, parse).value;
      exists a, b :: Join([r.0, a, b], '_') == id && '_' !in a && '_' !in b
        && parse(a) == Some(r.1) && parse(b) == Some(r.2)
  {
    var parts := RSplit(id, '_', 2);
    RSplitParts(id, '_', 2);
    assert parts == [parts[0], parts[1], parts[2]];
  }

  /**
   * An id written as `rec + "_" + start + "_" + end`, with start and end
   * free of `_`, parses back to its recording and times, however many `_`
   * the recording id itself contains.
   */
  lemma SubsegmentIdRoundTrip(rec: string, a: string, b: string, parse: string -> Option<real>, start: real, end: real)
    requires '_' !in a && '_' !in b
    requires parse(a) == Some(start) && parse(b) == Some(end)
    ensures ParseSubsegment(Join([rec, a, b], '_'), parse) == Success((rec, start, end))
  {
    RSplitUnique(Join([rec, a, b], '_'), '_', 2, [rec, a, b]);
  }

  /** The recording part of a subsegment id. */
  function RecordingOf(id: string): string
  {
    RSplit(id, '_', 2)[0]
  }

  /**
   * How the loop reads one subsegment id: its recording, start and end, or
   * the exception raised. The loop below is stated for any reader;
   * `do_spec_clustering` uses `SubsegmentReader`.
   */
  type IdReader = string -> Result<(string, real, real), ErrorKind>

  /** Lines 240-243 as a reader: `rsplit("_", 2)`, then `float()` of each time. */
  function SubsegmentReader(parse: string -> Option<real>): IdReader
  {
    (id: string) => ParseSubsegment(id, parse)
  }

  /** The exception raised at iteration `i`, if any: `subseg_ids[i]` out of range, or a parse failure. */
  function StepError(ids: seq<string>, i: nat, read: IdReader): Option<ErrorKind>
  {
    if i >= |ids| then Some(IndexError)
    else match read(ids[i])
      case Failure(kind) => Some(kind)
      case Success(_) => None
  }

  /**
   * An iteration is clean exactly when its id exists and is read; a missing
   * id raises `IndexError`, and a failed read raises the reader's exception.
   */
  lemma StepErrorCases(ids: seq<string>, i: nat, read: IdReader)
    ensures StepError(ids, i, read).None? <==> i < |ids| && read(ids[i]).Success?
    ensures i >= |ids| ==> StepError(ids, i, read) == Some(IndexError)
    ensures i < |ids| && read(ids[i]).Failure? ==> StepError(ids, i, read) == Some(read(ids[i]).error)
  {
  }

  /** Every iteration of the loop over the labels succeeds. */
  predicate ParsedOk(labels: seq<int>, ids: seq<string>, read: IdReader)
  {
    forall i :: 0 <= i < |labels| ==> StepError(ids, i, read).None?
  }

  /**
   * The value of `rec_id` when iteration `i` builds its speaker id: the
   * function's argument at first, then the recording read at the iteration
   * before.
   */
  function SpeakerPrefix(recId: string, ids: seq<string>, read: IdReader, i: nat): string
    requires i == 0 || StepError(ids, i - 1, read).None?
  {
    if i == 0 then recId else read(ids[i - 1]).value.0
  }

  /** The entry that iteration `i` appends to `lol`. */
  function EntryAt(labels: seq<int>, ids: seq<string>, recId: string, read: IdReader, i: nat): Entry
    requires i < |labels| && StepError(ids, i, read).None? && (i == 0 || StepError(ids, i - 1, read).None?)
  {
    var p := read(ids[i]).value;
    Entry(p.0, p.1, p.2, SpeakerPrefix(recId, ids, read, i) + "_" + IntToString(labels[i]))
  }

  /**
   * Iteration `i`'s entry; an iteration that raises has no entry, and the
   * placeholder it gets is never part of a result.
   */
  function EntryOrBlank(labels: seq<int>, ids: seq<string>, recId: string, read: IdReader, i: nat): Entry
  {
    if i < |labels| && StepError(ids, i, read).None? && (i == 0 || StepError(ids, i - 1, read).None?)
    then EntryAt(labels, ids, recId, read, i)
    else Entry([], 0.0, 0.0, [])
  }

  /** The entries of the first `n` iterations, in iteration order. */
  function EntriesUpTo(labels: seq<int>, ids: seq<string>, recId: string, read: IdReader, n: nat)
    : (r: seq<Entry>)
    ensures |r| == n
  {
    if n == 0 then [] else EntriesUpTo(labels, ids, recId, read, n - 1) + [EntryOrBlank(labels, ids, recId, read, n - 1)]
  }

  lemma {:induction false} EntriesUpToAt(labels: seq<int>, ids: seq<string>, recId: string, read: IdReader, n: nat, j: nat)
    requires j < n
    ensures EntriesUpTo(labels, ids, recId, read, n)[j] == EntryOrBlank(labels, ids, recId, read, j)
  {
    if j < n - 1 {
      EntriesUpToAt(labels, ids, recId, read, n - 1, j);
    }
  }

  /** `lol` before sorting: one entry per label, in label order. */
  function UnsortedEntries(labels: seq<int>, ids: seq<string>, recId: string, read: IdReader): seq<Entry>
    requires ParsedOk(labels, ids, read)
  {
    EntriesUpTo(labels, ids, recId, read, |labels|)
  }

  /** The first failing iteration at or after `from`. */
  function FirstError(ids: seq<string>, n: nat, read: IdReader, from: nat): (r: Option<ClusteringError>)
    decreases n - from
    ensures r.None? <==> forall j :: from <= j < n ==> StepError(ids, j, read).None?
    ensures r.Some? ==>
      && from <= r.value.position < n
      && StepError(ids, r.value.position, read) == Some(r.value.kind)
      && forall j :: from <= j < r.value.position ==> StepError(ids, j, read).None?
  {
    if from >= n then None
    else match StepError(ids, from, read)
      case Some(kind) => Some(ClusteringError(from, kind))
      case None => FirstError(ids, n, read, from + 1)
  }

  /**
   * The outcome of lines 231-249: the first exception the loop raises, or
   * the entries sorted by start time.
   */
  function ConvertLabels(labels: seq<int>, ids: seq<string>, recId: string, read: IdReader)
    : (r: Result<seq<Entry>, ClusteringError>)
    ensures r.Success? <==> ParsedOk(labels, ids, read)
    ensures r.Failure? ==>
      && r.error.position < |labels|
      && StepError(ids, r.error.position, read) == Some(r.error.kind)
      && forall j :: 0 <= j < r.error.position ==> StepError(ids, j, read).None?
  {
    match FirstError(ids, |labels|, read, 0)
    case Some(e) => Failure(e)
    case None => Success(SortByStart(UnsortedEntries(labels, ids, recId, read)))
  }

  /**
   * One iteration `i` of the loop from the state `(lol, rec_id)`: the
   * speaker id is formed from the current `rec_id`, then `subseg_ids[i]` is
   * split and parsed and its recording becomes the new `rec_id`.
   */
  function Iterate(cluster: int, ids: seq<string>, i: nat, read: IdReader, st: (seq<Entry>, string))
    : Result<(seq<Entry>, string), ClusteringError>
  {
    var spkr := st.1 + "_" + IntToString(cluster);
    if i >= |ids| then Failure(ClusteringError(i, IndexError))
    else match read(ids[i])
      case Failure(kind) => Failure(ClusteringError(i, kind))
      case Success(p) => Success((st.0 + [Entry(p.0, p.1, p.2, spkr)], p.0))
  }

  /**
   * One iteration succeeds exactly when its id exists and is read; it then
   * keeps `lol` and appends one entry holding the recording, start and end
   * read from the id and a speaker named after the old `rec_id`; the
   * recording read becomes the new `rec_id`. Otherwise it raises the iteration's
   * exception.
   */
  lemma IterateStep(cluster: int, ids: seq<string>, i: nat, read: IdReader, st: (seq<Entry>, string))
    ensures var r := Iterate(cluster, ids, i, read, st);
      && (r.Success? <==> StepError(ids, i, read).None?)
      && (r.Failure? ==> r.error == ClusteringError(i, StepError(ids, i, read).value))
      && (r.Success? ==>
          && |r.value.0| == |st.0| + 1 && r.value.0[..|st.0|] == st.0
          && r.value.0[|st.0|]
             == Entry(read(ids[i]).value.0, read(ids[i]).value.1, read(ids[i]).value.2, st.1 + "_" + IntToString(cluster))
          && r.value.1 == r.value.0[|st.0|].rec)
  {
  }

  /** The state `(lol, rec_id)` after the first `n` iterations, or the exception one of them raised. */
  function LoopState(labels: seq<int>, ids: seq<string>, recId: string, read: IdReader, n: nat)
    : Result<(seq<Entry>, string), ClusteringError>
    requires n <= |labels|
  {
    if n == 0 then Success(([], recId))
    else match LoopState(labels, ids, recId, read, n - 1)
      case Failure(e) => Failure(e)
      case Success(st) => Iterate(labels[n - 1], ids, n - 1, read, st)
  }

  /** An iteration that fails after clean ones is the first failure. */
  lemma FirstErrorIs(ids: seq<string>, n: nat, read: IdReader, e: ClusteringError)
    requires e.position < n && StepError(ids, e.position, read) == Some(e.kind)
    requires forall j :: 0 <= j < e.position ==> StepError(ids, j, read).None?
    ensures FirstError(ids, n, read, 0) == Some(e)
  {
  }

  /** The first failure among `n + 1` iterations is the first among `n`, or else iteration `n`'s. */
  lemma FirstErrorExtend(ids: seq<string>, n: nat, read: IdReader)
    ensures FirstError(ids, n + 1, read, 0) ==
      match FirstError(ids, n, read, 0)
      case Some(e) => Some(e)
      case None =>
        match StepError(ids, n, read)
        case Some(kind) => Some(ClusteringError(n, kind))
        case None => None
  {
    match FirstError(ids, n, read, 0)
    case Some(e) =>
      FirstErrorIs(ids, n + 1, read, e);
    case None =>
      match StepError(ids, n, read)
      case Some(kind) =>
        FirstErrorIs(ids, n + 1, read, ClusteringError(n, kind));
      case None =>
  }

  /**
   * After `n` iterations the loop has raised the first exception among them,
   * or it holds their entries and the recording parsed by the last one.
   */
  lemma {:induction false} LoopStateMeaning(labels: seq<int>, ids: seq<string>, recId: string, read: IdReader, n: nat)
    requires n <= |labels|
    ensures FirstError(ids, n, read, 0).Some? ==> LoopState(labels, ids, recId, read, n) == Failure(FirstError(ids, n, read, 0).value)
    ensures FirstError(ids, n, read, 0).None? ==>
      && n <= |ids|
      && LoopState(labels, ids, recId, read, n)
         == Success((EntriesUpTo(labels, ids, recId, read, n), SpeakerPrefix(recId, ids, read, n)))
  {
    if n > 0 {
      LoopStateMeaning(labels, ids, recId, read, n - 1);
      FirstErrorExtend(ids, n - 1, read);
      if FirstError(ids, n - 1, read, 0).None? {
        LoopStepFromClean(labels, ids, recId, read, n - 1);
      }
    }
  }

  /** One more iteration after `m` clean ones raises iteration `m`'s exception or appends its entry. */
  lemma LoopStepFromClean(labels: seq<int>, ids: seq<string>, recId: string, read: IdReader, m: nat)
    requires m < |labels| && m <= |ids|
    requires forall j :: 0 <= j < m ==> StepError(ids, j, read).None?
    requires LoopState(labels, ids, recId, read, m)
      == Success((EntriesUpTo(labels, ids, recId, read, m), SpeakerPrefix(recId, ids, read, m)))
    ensures StepError(ids, m, read).Some? ==>
      LoopState(labels, ids, recId, read, m + 1) == Failure(ClusteringError(m, StepError(ids, m, read).value))
    ensures StepError(ids, m, read).None? ==>
      && m + 1 <= |ids|
      && LoopState(labels, ids, recId, read, m + 1)
         == Success((EntriesUpTo(labels, ids, recId, read, m + 1), SpeakerPrefix(recId, ids, read, m + 1)))
  {
  }

  /** A loop state that holds an exception keeps it through the remaining iterations. */
  lemma {:induction false} LoopStateFailureStays(labels: seq<int>, ids: seq<string>, recId: string, read: IdReader, m: nat, n: nat)
    requires m <= n <= |labels| && LoopState(labels, ids, recId, read, m).Failure?
    ensures LoopState(labels, ids, recId, read, n) == LoopState(labels, ids, recId, read, m)
  {
    if m < n {
      LoopStateFailureStays(labels, ids, recId, read, m, n - 1);
    }
  }

  /** From the state after `i` iterations, iteration `i` raises, and so ends the loop, or appends its entry. */
  lemma LoopStateAdvance(labels: seq<int>, ids: seq<string>, recId: string, read: IdReader,
                         i: nat, lol: seq<Entry>, rec: string)
    requires i < |labels| && LoopState(labels, ids, recId, read, i) == Success((lol, rec))
    ensures i >= |ids| ==> LoopState(labels, ids, recId, read, |labels|) == Failure(ClusteringError(i, IndexError))
    ensures i < |ids| && read(ids[i]).Failure? ==>
      LoopState(labels, ids, recId, read, |labels|) == Failure(ClusteringError(i, read(ids[i]).error))
    ensures i < |ids| && read(ids[i]).Success? ==>
      var p := read(ids[i]).value;
      LoopState(labels, ids, recId, read, i + 1)
        == Success((lol + [Entry(p.0, p.1, p.2, rec + "_" + IntToString(labels[i]))], p.0))
  {
    if LoopState(labels, ids, recId, read, i + 1).Failure? {
      LoopStateFailureStays(labels, ids, recId, read, i + 1, |labels|);
    }
  }

  /** Running the loop to the end and sorting gives the conversion's outcome. */
  lemma LoopComputesConversion(labels: seq<int>, ids: seq<string>, recId: string, read: IdReader)
    ensures ConvertLabels(labels, ids, recId, read) ==
      match LoopState(labels, ids, recId, read, |labels|)
      case Failure(e) => Failure(e)
      case Success(st) => Success(SortByStart(st.0))
  {
    LoopStateMeaning(labels, ids, recId, read, |labels|);
  }

  /**
   * Lines 233-246 as written: append one entry per label to `lol`, forming
   * each speaker id from `rec_id` before `rec_id` is reassigned. Returns the
   * final `(lol, rec_id)`, or the exception an iteration raised.
   */
  method CollectEntries(labels: seq<int>, ids: seq<string>, recId: string, read: IdReader)
    returns (r: Result<(seq<Entry>, string), ClusteringError>)
    ensures r == LoopState(labels, ids, recId, read, |labels|)
  {
    var lol: seq<Entry> := [];
    var rec := recId;
    var i := 0;
    while i < |labels|
      invariant i <= |labels|
      invariant LoopState(labels, ids, recId, read, i) == Success((lol, rec))
    {
      LoopStateAdvance(labels, ids, recId, read, i, lol, rec);
      var spkr := rec + "_" + IntToString(labels[i]);
      if i >= |ids| {
        return Failure(ClusteringError(i, IndexError));
      }
      var parsed := read(ids[i]);
      if parsed.Failure? {
        return Failure(ClusteringError(i, parsed.error));
      }
      rec := parsed.value.0;
      lol := lol + [Entry(rec, parsed.value.1, parsed.value.2, spkr)];
      i := i + 1;
    }
    r := Success((lol, rec));
  }

  /** Lines 231-249: run the loop, then sort `lol` by start time. */
  method LabelsToEntries(labels: seq<int>, ids: seq<string>, recId: string, read: IdReader)
    returns (r: Result<seq<Entry>, ClusteringError>)
    ensures r == ConvertLabels(labels, ids, recId, read)
  {
    LoopComputesConversion(labels, ids, recId, read);
    var run := CollectEntries(labels, ids, recId, read);
    if run.Failure? {
      return Failure(run.error);
    }
    var lol := run.value.0;
    r := Success(SortByStart(lol));
  }

  /** A failure at iteration `i`, after `i` clean iterations, is the outcome. */
  lemma ConvertLabelsFailsAt(labels: seq<int>, ids: seq<string>, recId: string, read: IdReader, i: nat)
    requires i < |labels| && StepError(ids, i, read).Some?
    requires forall j :: 0 <= j < i ==> StepError(ids, j, read).None?
    ensures ConvertLabels(labels, ids, recId, read) == Failure(ClusteringError(i, StepError(ids, i, read).value))
  {
    assert !ParsedOk(labels, ids, read);
  }

  /**
   * Each speaker id is built from the recording of the entry before it (the
   * argument `rec_id` for the first), because `rec_id` is overwritten only
   * after the speaker id is formed.
   */
  lemma SpeakerIdsFollowPreviousRecording(labels: seq<int>, ids: seq<string>, recId: string, read: IdReader)
    requires ParsedOk(labels, ids, read)
    ensures var u := UnsortedEntries(labels, ids, recId, read);
      && |u| == |labels|
      && (|u| > 0 ==> u[0].spkr == recId + "_" + IntToString(labels[0]))
      && forall i :: 1 <= i < |u| ==> u[i].spkr == u[i - 1].rec + "_" + IntToString(labels[i])
  {
    LoopStateMeaning(labels, ids, recId, read, |labels|);
    LoopStateChained(labels, ids, recId, read, |labels|);
  }

  /**
   * What the loop keeps about `(lol, rec_id)`: the first speaker id starts
   * with the argument `rec_id`, every later one with the recording of the
   * entry before it, and `rec_id` is the recording of the last entry.
   */
  predicate SpeakersChained(labels: seq<int>, recId: string, lol: seq<Entry>, rec: string)
    requires |lol| <= |labels|
  {
    && (|lol| == 0 ==> rec == recId)
    && (|lol| > 0 ==> lol[0].spkr == recId + "_" + IntToString(labels[0]) && rec == lol[|lol| - 1].rec)
    && forall i :: 1 <= i < |lol| ==> lol[i].spkr == lol[i - 1].rec + "_" + IntToString(labels[i])
  }

  /** One iteration keeps the chaining, whatever id it parses. */
  lemma IterateChains(labels: seq<int>, ids: seq<string>, recId: string, read: IdReader, i: nat, st: (seq<Entry>, string))
    requires i < |labels| && |st.0| == i && SpeakersChained(labels, recId, st.0, st.1)
    ensures var r := Iterate(labels[i], ids, i, read, st);
      r.Success? ==> |r.value.0| == i + 1 && SpeakersChained(labels, recId, r.value.0, r.value.1)
  {
    if i < |ids| && read(ids[i]).Success? {
      var p := read(ids[i]).value;
      AppendChains(labels, recId, st.0, st.1, Entry(p.0, p.1, p.2, st.1 + "_" + IntToString(labels[i])));
    }
  }

  /** Appending an entry whose speaker id starts with the current `rec_id`, and moving `rec_id` to its recording, keeps the chaining. */
  lemma AppendChains(labels: seq<int>, recId: string, lol: seq<Entry>, rec: string, e: Entry)
    requires |lol| < |labels| && SpeakersChained(labels, recId, lol, rec)
    requires e.spkr == rec + "_" + IntToString(labels[|lol|])
    ensures SpeakersChained(labels, recId, lol + [e], e.rec)
  {
    var next := lol + [e];
    forall j | 1 <= j < |next|
      ensures next[j].spkr == next[j - 1].rec + "_" + IntToString(labels[j])
    {
      if j < |lol| {
        assert next[j] == lol[j] && next[j - 1] == lol[j - 1];
      } else {
        assert next[j - 1] == lol[j - 1];
      }
    }
  }

  /** After `n` clean iterations the loop holds `n` entries whose speaker ids are chained. */
  lemma {:induction false} LoopStateChained(labels: seq<int>, ids: seq<string>, recId: string, read: IdReader, n: nat)
    requires n <= |labels|
    ensures var r := LoopState(labels, ids, recId, read, n);
      r.Success? ==> |r.value.0| == n && SpeakersChained(labels, recId, r.value.0, r.value.1)
  {
    if n > 0 {
      LoopStateChained(labels, ids, recId, read, n - 1);
      match LoopState(labels, ids, recId, read, n - 1)
      case Failure(_) =>
      case Success(st) =>
        IterateChains(labels, ids, recId, read, n - 1, st);
    }
  }

  /** Position `i` of the loop's list holds the entry iteration `i` appends. */
  lemma UnsortedIsEntryAt(labels: seq<int>, ids: seq<string>, recId: string, read: IdReader, i: nat)
    requires ParsedOk(labels, ids, read) && i < |labels|
    ensures StepError(ids, i, read).None? && (i == 0 || StepError(ids, i - 1, read).None?)
    ensures UnsortedEntries(labels, ids, recId, read)[i] == EntryAt(labels, ids, recId, read, i)
  {
    assert StepError(ids, i, read).None? && (i == 0 || StepError(ids, i - 1, read).None?);
    EntriesUpToAt(labels, ids, recId, read, |labels|, i);
  }

  /** The entry at position `i` of the loop's list, field by field. */
  lemma UnsortedAt(labels: seq<int>, ids: seq<string>, recId: string, read: IdReader, i: nat)
    requires ParsedOk(labels, ids, read) && i < |labels|
    ensures i < |ids| && read(ids[i]).Success?
    ensures var e := UnsortedEntries(labels, ids, recId, read)[i];
      && e.rec == read(ids[i]).value.0
      && e.start == read(ids[i]).value.1
      && e.end == read(ids[i]).value.2
      && e.spkr == SpeakerPrefix(recId, ids, read, i) + "_" + IntToString(labels[i])
  {
    UnsortedIsEntryAt(labels, ids, recId, read, i);
  }

  /**
   * When every subsegment belongs to the recording `rec_id` names, each
   * speaker id is `rec_id + "_" + str(label)` for the entry's own label, and
   * two entries share a speaker id exactly when they share a label.
   */
  lemma SpeakerIdsOfOneRecording(labels: seq<int>, ids: seq<string>, recId: string, read: IdReader)
    requires ParsedOk(labels, ids, read)
    requires forall i :: 0 <= i < |labels| && i < |ids| && read(ids[i]).Success? ==> read(ids[i]).value.0 == recId
    ensures var u := UnsortedEntries(labels, ids, recId, read);
      && (forall i :: 0 <= i < |u| ==> u[i].rec == recId && u[i].spkr == recId + "_" + IntToString(labels[i]))
      && forall i, j :: 0 <= i < |u| && 0 <= j < |u| ==> (u[i].spkr == u[j].spkr <==> labels[i] == labels[j])
  {
    var u := UnsortedEntries(labels, ids, recId, read);
    forall i | 0 <= i < |u|
      ensures u[i].rec == recId && u[i].spkr == recId + "_" + IntToString(labels[i])
    {
      UnsortedAt(labels, ids, recId, read, i);
      assert i == 0 || (StepError(ids, i - 1, read).None? && read(ids[i - 1]).value.0 == recId);
    }
    forall i, j | 0 <= i < |u| && 0 <= j < |u|
      ensures u[i].spkr == u[j].spkr <==> labels[i] == labels[j]
    {
      var pre := recId + "_";
      if u[i].spkr == u[j].spkr {
        assert IntToString(labels[i]) == u[i].spkr[|pre|..];
        assert IntToString(labels[j]) == u[j].spkr[|pre|..];
      }
      IntToStringInjective(labels[i], labels[j]);
    }
  }

  /**
   * On success the list has one entry per label and is a stable sort of the
   * loop's entries: a permutation of them, ordered by start time, entries
   * with equal start in loop order.
   */
  lemma ConvertedEntriesSorted(labels: seq<int>, ids: seq<string>, recId: string, read: IdReader, k: real)
    requires ParsedOk(labels, ids, read)
    ensures var r := ConvertLabels(labels, ids, recId, read);
      var u := UnsortedEntries(labels, ids, recId, read);
      && r.Success?
      && |r.value| == |labels|
      && multiset(r.value) == multiset(u)
      && SortedByStart(r.value)
      && WithStart(r.value, k) == WithStart(u, k)
  {
    SortIsStable(UnsortedEntries(labels, ids, recId, read), k);
  }

  // ---------------------------------------------------------------------
  // `lol.sort(key=lambda x: float(x[1]))`: Python's stable sort by start time

  predicate SortedByStart(s: seq<Entry>)
  {
    forall i, j :: 0 <= i < j < |s| ==> s[i].start <= s[j].start
  }

  /** Insert `e` before the first entry that does not start earlier than it. */
  function InsertByStart(e: Entry, s: seq<Entry>): (r: seq<Entry>)
    ensures |r| == |s| + 1
    ensures multiset(r) == multiset(s) + multiset{e}
    ensures r[0] == e || (s != [] && r[0] == s[0])
  {
    if s == [] || e.start <= s[0].start then [e] + s
    else
      assert s == [s[0]] + s[1..];
      [s[0]] + InsertByStart(e, s[1..])
  }

  lemma {:induction false} InsertKeepsSorted(e: Entry, s: seq<Entry>)
    requires SortedByStart(s)
    ensures SortedByStart(InsertByStart(e, s))
  {
    if s != [] && e.start > s[0].start {
      var rest := InsertByStart(e, s[1..]);
      InsertKeepsSorted(e, s[1..]);
      var r := [s[0]] + rest;
      assert rest[0] == e || rest[0] == s[1];
      forall i, j | 0 <= i < j < |r|
        ensures r[i].start <= r[j].start
      {
        if i == 0 {
          assert rest[0].start <= rest[j - 1].start;
        } else {
          assert r[i] == rest[i - 1] && r[j] == rest[j - 1];
        }
      }
    }
  }

  /** Sort by start time, keeping entries with equal start in their original order. */
  function SortByStart(s: seq<Entry>): (r: seq<Entry>)
    ensures |r| == |s|
    ensures multiset(r) == multiset(s)
    ensures SortedByStart(r)
  {
    if s == [] then []
    else
      assert s == [s[0]] + s[1..];
      InsertKeepsSorted(s[0], SortByStart(s[1..]));
      InsertByStart(s[0], SortByStart(s[1..]))
  }

  /** The entries starting at `k`, in order. */
  function WithStart(s: seq<Entry>, k: real): seq<Entry>
  {
    if s == [] then []
    else (if s[0].start == k then [s[0]] else []) + WithStart(s[1..], k)
  }

  /** Two prefixes, one of them empty, can be put in either order. */
  lemma SwapEmpty<T>(a: seq<T>, b: seq<T>, w: seq<T>)
    requires a == [] || b == []
    ensures a + (b + w) == b + (a + w)
  {
    if a == [] {
      assert a + (b + w) == b + w == b + (a + w);
    } else {
      assert a + (b + w) == a + w == b + (a + w);
    }
  }

  lemma {:induction false} InsertWithStart(e: Entry, s: seq<Entry>, k: real)
    ensures WithStart(InsertByStart(e, s), k) == (if e.start == k then [e] else []) + WithStart(s, k)
  {
    var pe := if e.start == k then [e] else [];
    if s == [] || e.start <= s[0].start {
      var r := [e] + s;
      assert r[0] == e && r[1..] == s;
      assert WithStart(r, k) == pe + WithStart(s, k);
    } else {
      var rest := InsertByStart(e, s[1..]);
      InsertWithStart(e, s[1..], k);
      var r := [s[0]] + rest;
      assert r[0] == s[0] && r[1..] == rest;
      var ps := if s[0].start == k then [s[0]] else [];
      var w := WithStart(s[1..], k);
      assert WithStart(r, k) == ps + (pe + w);
      assert WithStart(s, k) == ps + w;
      assert ps == [] || pe == [];
      SwapEmpty(ps, pe, w);
    }
  }

  /**
   * Stability: for every start time, the entries with that start appear in
   * the sorted list in the same order as in the input.
   */
  lemma {:induction false} SortIsStable(s: seq<Entry>, k: real)
    ensures WithStart(SortByStart(s), k) == WithStart(s, k)
  {
    if s != [] {
      SortIsStable(s[1..], k);
      InsertWithStart(s[0], SortByStart(s[1..]), k);
    }
  }

  // ---------------------------------------------------------------------
  // `Spec_Cluster` and `do_spec_clustering`

  /** The state `perform_sc` leaves on a `SpectralClustering` object. */
  class SpecCluster {
    const nClusters: nat
    var affinityMatrix: Matrix
    var labels: seq<int>

    constructor (nClusters: nat)
      ensures this.nClusters == nClusters && affinityMatrix == [] && labels == []
    {
      this.nClusters := nClusters;
      affinityMatrix := [];
      labels := [];
    }

    /**
     * `perform_sc`: the symmetrised connectivity becomes the affinity matrix,
     * and spectral clustering of it with `nClusters` clusters the labels.
     */
    method PerformSc(connectivity: Matrix, num: Numerics)
      requires IsSquare(connectivity, |connectivity|)
      modifies this
      ensures affinityMatrix == Symmetrize(connectivity)
      ensures labels == SpectralClusteringSb(affinityMatrix, nClusters, None, num)
    {
      affinityMatrix := Symmetrize(connectivity);
      labels := SpectralClusteringSb(affinityMatrix, nClusters, None, num);
    }
  }

  /**
   * `do_spec_clustering` up to the sort: cluster the recording's
   * embeddings (given as their k-nearest-neighbour connectivity) into `k`
   * speakers and convert the labels into sorted entries.
   */
  method DoSpecClustering(
    connectivity: Matrix, ids: seq<string>, recId: string, k: nat, num: Numerics, parse: string -> Option<real>)
    returns (r: Result<seq<Entry>, ClusteringError>)
    requires IsSquare(connectivity, |connectivity|)
    ensures r == ConvertLabels(SpectralClusteringSb(Symmetrize(connectivity), k, None, num), ids, recId, SubsegmentReader(parse))
  {
    var clust := new SpecCluster(k);
    clust.PerformSc(connectivity, num);
    var labels := clust.labels;
    r := LabelsToEntries(labels, ids, recId, SubsegmentReader(parse));
  }
}
