/**
 * `dev_tuner`: run the whole pipeline once for every candidate number of
 * speakers 1..max_num_spkrs, record the diarization error rate of each run,
 * and keep the candidate with the lowest.
 */
module Tuner {
  import opened Wrappers

  /** The exception of line 437: `min()` of an empty list raises `ValueError`. */
  datatype TunerError = ValueError

  /** `min(xs)` */
  function Min(xs: seq<real>): (m: real)
    requires |xs| > 0
    ensures m in xs
    ensures forall x :: x in xs ==> m <= x
  {
    if |xs| == 1 then xs[0]
    else
      var rest := Min(xs[1..]);
      assert forall x :: x in xs ==> x == xs[0] || x in xs[1..];
      if xs[0] <= rest then xs[0] else rest
  }

  /** `xs.index(v)`: the first position holding `v`. */
  function IndexOf(xs: seq<real>, v: real): (i: nat)
    requires v in xs
    ensures i < |xs| && xs[i] == v
    ensures forall j :: 0 <= j < i ==> xs[j] != v
  {
    if xs[0] == v then 0
    else
      assert v in xs[1..];
      1 + IndexOf(xs[1..], v)
  }

  /**
   * `dev_tuner`, with `der(n)` the diarization error rate of the dev set
   * diarized with n speakers. The result is a candidate in
   * [1, maxNumSpkrs] whose error rate is no larger than any other's and
   * strictly smaller than that of every smaller candidate: ties go to the
   * smallest number of speakers. With no candidate at all, `min()` fails.
   */
  method DevTuner(maxNumSpkrs: int, der: int -> real) returns (r: Result<int, TunerError>)
    ensures r.Failure? <==> maxNumSpkrs < 1
    ensures r.Success? ==> 1 <= r.value <= maxNumSpkrs
    ensures r.Success? ==> forall n :: 1 <= n <= maxNumSpkrs ==> der(r.value) <= der(n)
    ensures r.Success? ==> forall n :: 1 <= n < r.value ==> der(r.value) < der(n)
  {
    var derList: seq<real> := [];
    var nLambdas := 1;
    while nLambdas < maxNumSpkrs + 1
      invariant 1 <= nLambdas && (maxNumSpkrs >= 1 ==> nLambdas <= maxNumSpkrs + 1)
      invariant maxNumSpkrs < 1 ==> nLambdas == 1
      invariant |derList| == nLambdas - 1
      invariant forall j :: 0 <= j < |derList| ==> derList[j] == der(j + 1)
    {
      derList := derList + [der(nLambdas)];
      nLambdas := nLambdas + 1;
    }
    if derList == [] {
      return Failure(ValueError);
    }
    var best := Min(derList);
    var tuned := IndexOf(derList, best) + 1;
    forall n | 1 <= n <= maxNumSpkrs
      ensures der(tuned) <= der(n)
    {
      assert derList[n - 1] in derList;
    }
    forall n | 1 <= n < tuned
      ensures der(tuned) < der(n)
    {
      assert derList[n - 1] in derList && derList[n - 1] != best;
    }
    r := Success(tuned);
  }
}
