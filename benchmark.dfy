// The latency/throughput benchmark at the end of `main`
// (census_income_demo.py:259-285).
//
// The model runs the same accounting loop as the source. The wall-clock
// duration of each repetition (`end_time - start_time`) is an input, one
// entry per repetition. Python's `ZeroDivisionError`s become error results.
module Benchmark {

  /** The three divisions in the benchmark that can fail. */
  datatype BenchError =
    | ZeroBatchSize   // `len(test_data) / args.batch_size`, line 264
    | NoSamples       // `total_time / total_sample`, line 281
    | ZeroTotalTime   // `total_sample / total_time`, line 283

  datatype Result<T> = Ok(value: T) | Err(error: BenchError)

  /** What the benchmark prints: the step count and totals it used, latency in ms per sample and throughput in samples per second. */
  datatype Report = Report(numIter: nat, totalSample: nat, totalTime: real, latency: real, throughput: real)

  /**
   * Steps per repetition, `min(int(len / batch_size), num_iter)` (lines 264-265):
   * never more than the cap, never more full batches than the data holds,
   * and equal to one of the two bounds.
   */
  function NumIter(datasetLen: nat, batchSize: nat, cap: nat): (n: nat)
    requires batchSize > 0
    ensures n <= cap
    ensures n * batchSize <= datasetLen
    ensures n == cap || datasetLen < (n + 1) * batchSize
  {
    var fullBatches := datasetLen / batchSize;
    if fullBatches < cap then fullBatches else cap
  }

  /** Repetition `i` counts towards the totals (line 275). */
  predicate Contributes(i: nat, numWarmup: nat)
  {
    i > numWarmup
  }

  /** How many of the repetitions `0 .. epochs - 1` contribute. */
  function ContributingCount(epochs: nat, numWarmup: nat): nat
  {
    if epochs == 0 then 0
    else ContributingCount(epochs - 1, numWarmup) + (if Contributes(epochs - 1, numWarmup) then 1 else 0)
  }

  /** The sum of the durations of the contributing repetitions among `durations`. */
  function ContributingTime(durations: seq<real>, numWarmup: nat): real
  {
    if durations == [] then 0.0
    else
      var last := |durations| - 1;
      ContributingTime(durations[..last], numWarmup) + (if Contributes(last, numWarmup) then durations[last] else 0.0)
  }

  /** `total_sample` after the first `k` repetitions (line 277). */
  function SampleTotalAfter(k: nat, numWarmup: nat, numIter: nat, batchSize: nat): nat
  {
    ContributingCount(k, numWarmup) * numIter * batchSize
  }

  /**
   * The benchmark loop of lines 262-285. `durations[i]` is the measured time
   * of repetition `i`. Each division by zero in the source is an error here;
   * otherwise the report holds the totals over the contributing repetitions
   * and the two ratios the source prints.
   */
  method Evaluate(datasetLen: nat, batchSize: nat, epochs: nat, numWarmup: nat, numIterCap: nat, durations: seq<real>)
    returns (r: Result<Report>)
    requires |durations| == epochs
    ensures batchSize == 0 <==> r == Err(ZeroBatchSize)
    ensures batchSize > 0 ==>
      var n := NumIter(datasetLen, batchSize, numIterCap);
      var samples := SampleTotalAfter(epochs, numWarmup, n, batchSize);
      var time := ContributingTime(durations, numWarmup);
      && (r == Err(NoSamples) <==> samples == 0)
      && (r == Err(ZeroTotalTime) <==> samples > 0 && time == 0.0)
      && (r.Ok? ==> r.value == Report(n, samples, time, time / samples as real * 1000.0, samples as real / time))
  {
    if batchSize == 0 {
      return Err(ZeroBatchSize);
    }
    var totalTime := 0.0;
    var totalSample := 0;
    var numIter := datasetLen / batchSize;
    if numIterCap < numIter {
      numIter := numIterCap;
    }
    var i := 0;
    while i < epochs
      invariant i <= epochs
      invariant totalSample == SampleTotalAfter(i, numWarmup, numIter, batchSize)
      invariant totalTime == ContributingTime(durations[..i], numWarmup)
    {
      var duration := durations[i];
      if i > numWarmup {
        totalTime := totalTime + duration;
        totalSample := totalSample + numIter * batchSize;
      }
      assert durations[..i + 1][..i] == durations[..i];
      i := i + 1;
    }
    assert durations[..epochs] == durations;
    if totalSample == 0 {
      return Err(NoSamples);
    }
    var latency := totalTime / totalSample as real * 1000.0;
    if totalTime == 0.0 {
      return Err(ZeroTotalTime);
    }
    var throughput := totalSample as real / totalTime;
    r := Ok(Report(numIter, totalSample, totalTime, latency, throughput));
  }

  /**
   * Exactly `max(0, epochs - num_warmup - 1)` repetitions contribute:
   * indices `0 .. num_warmup` are all dropped.
   */
  lemma {:induction false} ContributingCountClosedForm(epochs: nat, numWarmup: nat)
    ensures ContributingCount(epochs, numWarmup) == if epochs > numWarmup + 1 then epochs - numWarmup - 1 else 0
  {
    if epochs > 0 {
      ContributingCountClosedForm(epochs - 1, numWarmup);
    }
  }

  /** With 5 repetitions and 3 warm-up repetitions, only repetition 4 contributes. */
  lemma WarmupExample()
    ensures ContributingCount(5, 3) == 1
    ensures forall i: nat | i < 5 :: Contributes(i, 3) <==> i == 4
  {
    ContributingCountClosedForm(5, 3);
  }

  /** With 100 samples, batches of 10 and a cap of 200, each repetition runs 10 steps. */
  lemma NumIterExample()
    ensures NumIter(100, 10, 200) == 10
  {
  }

  /** No repetition contributes, and so the benchmark has no samples, exactly when `epochs <= num_warmup + 1`. */
  lemma NoSamplesIff(datasetLen: nat, batchSize: nat, epochs: nat, numWarmup: nat, numIterCap: nat)
    requires batchSize > 0
    ensures SampleTotalAfter(epochs, numWarmup, NumIter(datasetLen, batchSize, numIterCap), batchSize) == 0
        <==> epochs <= numWarmup + 1 || NumIter(datasetLen, batchSize, numIterCap) == 0
  {
    ContributingCountClosedForm(epochs, numWarmup);
  }

  /** `total_sample` never decreases from one repetition to a later one. */
  lemma {:induction false} SampleTotalNeverDecreases(k1: nat, k2: nat, numWarmup: nat, numIter: nat, batchSize: nat)
    requires k1 <= k2
    ensures SampleTotalAfter(k1, numWarmup, numIter, batchSize) <= SampleTotalAfter(k2, numWarmup, numIter, batchSize)
  {
    ContributingCountClosedForm(k1, numWarmup);
    ContributingCountClosedForm(k2, numWarmup);
    var c1, c2 := ContributingCount(k1, numWarmup), ContributingCount(k2, numWarmup);
    assert c1 <= c2;
    assert c1 * (numIter * batchSize) <= c2 * (numIter * batchSize) by {
      MulMonotone(c1, c2, numIter * batchSize);
    }
  }

  lemma MulMonotone(a: nat, b: nat, m: nat)
    requires a <= b
    ensures a * m <= b * m
  {
  }

  /** Durations of excluded repetitions do not affect `total_time`. */
  lemma {:induction false} WarmupDurationsIgnored(d1: seq<real>, d2: seq<real>, numWarmup: nat)
    requires |d1| == |d2|
    requires forall i :: numWarmup < i < |d1| ==> d1[i] == d2[i]
    ensures ContributingTime(d1, numWarmup) == ContributingTime(d2, numWarmup)
  {
    if d1 != [] {
      var last := |d1| - 1;
      WarmupDurationsIgnored(d1[..last], d2[..last], numWarmup);
    }
  }

  /** Plain sum of a sequence of durations, front to back. */
  function Sum(s: seq<real>): real
  {
    if s == [] then 0.0 else s[0] + Sum(s[1..])
  }

  lemma {:induction false} SumAppend(s: seq<real>, x: real)
    ensures Sum(s + [x]) == Sum(s) + x
  {
    if s != [] {
      assert (s + [x])[1..] == s[1..] + [x];
      SumAppend(s[1..], x);
    }
  }

  /**
   * `total_time` is the plain sum of the durations from repetition
   * `num_warmup + 1` on, and 0 when there are no such repetitions.
   */
  lemma {:induction false} ContributingTimeIsSuffixSum(durations: seq<real>, numWarmup: nat)
    ensures ContributingTime(durations, numWarmup) == if |durations| > numWarmup + 1 then Sum(durations[numWarmup + 1..]) else 0.0
  {
    if durations != [] {
      var last := |durations| - 1;
      var init := durations[..last];
      ContributingTimeIsSuffixSum(init, numWarmup);
      if |durations| > numWarmup + 1 {
        if last > numWarmup + 1 {
          assert durations[numWarmup + 1..] == init[numWarmup + 1..] + [durations[last]];
          SumAppend(init[numWarmup + 1..], durations[last]);
        } else {
          assert durations[numWarmup + 1..] == [durations[last]];
        }
      }
    }
  }

  /** With non-negative durations `total_time` is non-negative, so latency and throughput are too. */
  lemma {:induction false} ContributingTimeNonNegative(durations: seq<real>, numWarmup: nat)
    requires forall i :: 0 <= i < |durations| ==> durations[i] >= 0.0
    ensures ContributingTime(durations, numWarmup) >= 0.0
  {
    if durations != [] {
      ContributingTimeNonNegative(durations[..|durations| - 1], numWarmup);
    }
  }
}
