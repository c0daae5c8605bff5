/** One full experiment run: a sweep over doubling input sizes, and at each size a batch
    of timed calls to FibLoopBig whose CPU times are summed and averaged. The stopwatch is
    not modelled; its readings arrive as a stream of non-negative samples, one per trial,
    in the order the trials run. */
module Experiment {
  import opened JavaInt
  import Fibonacci

  /** The constants that shape a run: MININPUTSIZE, MAXINPUTSIZE and numberOfTrials. */
  datatype Config = Config(minInputSize: int, maxInputSize: int, numberOfTrials: int)

  /** The values the benchmark is compiled with: sizes 1 up to 2^18, ten trials per size. */
  const SourceConfig: Config := Config(1, 0x4_0000, 10)

  /** Java `int` constants for which the sweep ends without `inputSize *= 2` wrapping
      and the average divides by a positive trial count. */
  predicate ValidConfig(c: Config)
  {
    1 <= c.minInputSize <= INT_MAX &&
    INT_MIN <= c.maxInputSize < 0x4000_0000 &&
    1 <= c.numberOfTrials <= INT_MAX
  }

  /** One output line: an input size, the batch's summed CPU time, and the average per trial. */
  datatype ResultRecord = ResultRecord(inputSize: int, batchElapsedTime: int, average: real)

  /** m doubled k times, that is m * 2^k. */
  function Doubled(m: int, k: nat): int
  {
    if k == 0 then m else 2 * Doubled(m, k - 1)
  }

  /** The input sizes a sweep visits: minSize, then doubled while it stays within maxSize. */
  function SweepSizes(minSize: int, maxSize: int): seq<int>
    requires minSize >= 1
    decreases maxSize - minSize
  {
    if minSize > maxSize then [] else [minSize] + SweepSizes(2 * minSize, maxSize)
  }

  /** Where the readings of batch b begin in the stream: after b batches of `trials`
      readings each, counted up batch by batch as the runner does. */
  function BatchStart(b: nat, trials: nat): nat
  {
    if b == 0 then 0 else BatchStart(b - 1, trials) + trials
  }

  /** The sum of a batch of samples, added in the order the trials ran. */
  function Sum(s: seq<nat>): nat
  {
    if s == [] then 0 else Sum(s[..|s| - 1]) + s[|s| - 1]
  }

  /** The summed batch times of a sequence of records. */
  function TotalElapsed(records: seq<ResultRecord>): int
  {
    if records == [] then 0
    else TotalElapsed(records[..|records| - 1]) + records[|records| - 1].batchElapsedTime
  }

  /** records[b] holds the sum of the b-th run of `trials` consecutive readings. */
  ghost predicate BatchesPrefix(records: seq<ResultRecord>, elapsed: seq<nat>, trials: nat)
  {
    forall b :: 0 <= b < |records| ==>
      BatchStart(b, trials) + trials <= |elapsed| &&
      records[b].batchElapsedTime == Sum(elapsed[BatchStart(b, trials) .. BatchStart(b, trials) + trials])
  }

  /** As BatchesPrefix, and the records use up the readings exactly. */
  ghost predicate BatchesFrom(records: seq<ResultRecord>, elapsed: seq<nat>, trials: nat)
  {
    BatchStart(|records|, trials) == |elapsed| && BatchesPrefix(records, elapsed, trials)
  }

  /** The average time per trial of a batch (exact, where Java divides two doubles): the
      value that, counted once per trial, gives back the batch total. */
  function Average(batchElapsedTime: nat, trials: int): (average: real)
    requires trials >= 1
    ensures average * (trials as real) == batchElapsedTime as real
    ensures 0.0 <= average <= batchElapsedTime as real
  {
    batchElapsedTime as real / trials as real
  }

  /** Every record's average is its batch total spread evenly over `trials` trials. */
  predicate AveragesHold(records: seq<ResultRecord>, trials: int)
  {
    forall b :: 0 <= b < |records| ==>
      records[b].average * (trials as real) == records[b].batchElapsedTime as real
  }

  /** A record whose average is computed from its total extends AveragesHold. */
  lemma AveragesHoldExtend(records: seq<ResultRecord>, trials: int, r: ResultRecord)
    requires trials >= 1 && r.batchElapsedTime >= 0
    requires AveragesHold(records, trials)
    requires r.average == Average(r.batchElapsedTime, trials)
    ensures AveragesHold(records + [r], trials)
  {
  }

  /** A record for the next run of readings extends BatchesPrefix by one batch. */
  lemma BatchesPrefixExtend(records: seq<ResultRecord>, elapsed: seq<nat>, trials: nat, r: ResultRecord)
    requires BatchesPrefix(records, elapsed, trials)
    requires BatchStart(|records|, trials) + trials <= |elapsed|
    requires r.batchElapsedTime == Sum(elapsed[BatchStart(|records|, trials) .. BatchStart(|records|, trials) + trials])
    ensures BatchesPrefix(records + [r], elapsed, trials)
  {
  }

  /** Doubling m + m k times is doubling m k + 1 times. */
  lemma {:induction false} DoubledShift(m: int, k: nat)
    ensures Doubled(2 * m, k) == Doubled(m, k + 1)
  {
    if k > 0 {
      DoubledShift(m, k - 1);
    }
  }

  /** Doubling a positive size more often gives a larger size. */
  lemma {:induction false} DoubledIncreasing(m: int, j: nat, k: nat)
    requires m >= 1 && j < k
    ensures 1 <= Doubled(m, j) < Doubled(m, k)
  {
    if j < k - 1 {
      DoubledIncreasing(m, j, k - 1);
    } else if j > 0 {
      DoubledIncreasing(m, j - 1, j);
    }
  }

  /** The k-th size of a sweep is minSize * 2^k and within maxSize, and the sweep stops
      only once the next doubling would pass maxSize. */
  lemma {:induction false} SweepSizesShape(minSize: int, maxSize: int)
    requires minSize >= 1
    ensures forall k :: 0 <= k < |SweepSizes(minSize, maxSize)| ==>
      SweepSizes(minSize, maxSize)[k] == Doubled(minSize, k) <= maxSize
    ensures Doubled(minSize, |SweepSizes(minSize, maxSize)|) > maxSize
    decreases maxSize - minSize
  {
    if minSize <= maxSize {
      var s, t := SweepSizes(minSize, maxSize), SweepSizes(2 * minSize, maxSize);
      SweepSizesShape(2 * minSize, maxSize);
      forall k | 0 <= k < |s|
        ensures s[k] == Doubled(minSize, k) <= maxSize
      {
        if k > 0 {
          assert s[k] == t[k - 1];
          DoubledShift(minSize, k - 1);
        }
      }
      DoubledShift(minSize, |t|);
    }
  }

  /** A sweep starts at minSize when minSize is within maxSize, each size is double the
      one before, and the sizes strictly increase. */
  lemma SweepSizesOrdered(minSize: int, maxSize: int)
    requires minSize >= 1
    ensures var s := SweepSizes(minSize, maxSize);
      (minSize <= maxSize <==> |s| > 0) &&
      (|s| > 0 ==> s[0] == minSize) &&
      (forall k :: 0 < k < |s| ==> s[k] == 2 * s[k - 1]) &&
      (forall j, k :: 0 <= j < k < |s| ==> s[j] < s[k])
  {
    var s := SweepSizes(minSize, maxSize);
    SweepSizesShape(minSize, maxSize);
    forall j, k | 0 <= j < k < |s|
      ensures s[j] < s[k]
    {
      DoubledIncreasing(minSize, j, k);
    }
  }

  /** Whether the sweep reaches its k-th size is decided by minSize * 2^k alone. */
  lemma SweepSizesAt(minSize: int, maxSize: int, k: nat)
    requires minSize >= 1
    ensures k < |SweepSizes(minSize, maxSize)| <==> Doubled(minSize, k) <= maxSize
    ensures k < |SweepSizes(minSize, maxSize)| ==> SweepSizes(minSize, maxSize)[k] == Doubled(minSize, k)
  {
    var s := SweepSizes(minSize, maxSize);
    SweepSizesShape(minSize, maxSize);
    if k > |s| {
      DoubledIncreasing(minSize, |s|, k);
    }
  }

  /** With the compiled-in constants the sweep visits 1, 2, 4, ..., 2^18: nineteen sizes. */
  lemma SweepOfSourceConfig()
    ensures ValidConfig(SourceConfig)
    ensures var s := SweepSizes(SourceConfig.minInputSize, SourceConfig.maxInputSize);
      |s| == 19 && s[0] == 1 && s[18] == 0x4_0000
  {
    assert Doubled(1, 9) == 0x200;
    assert Doubled(1, 18) == 0x4_0000 && Doubled(1, 19) == 0x8_0000;
    SweepSizesAt(1, 0x4_0000, 18);
    SweepSizesAt(1, 0x4_0000, 19);
    SweepSizesAt(1, 0x4_0000, 0);
  }

  /** A sweep from 1 to 8 visits exactly 1, 2, 4 and 8. */
  lemma SweepOneToEight()
    ensures SweepSizes(1, 8) == [1, 2, 4, 8]
  {
  }

  /** Summing two runs of readings one after the other adds their sums. */
  lemma {:induction false} SumConcat(a: seq<nat>, b: seq<nat>)
    ensures Sum(a + b) == Sum(a) + Sum(b)
    decreases |b|
  {
    if b == [] {
      assert a + b == a;
    } else {
      assert (a + b)[..|a + b| - 1] == a + b[..|b| - 1];
      SumConcat(a, b[..|b| - 1]);
    }
  }

  /** Batch b ends no later than batch n begins, for b before n. */
  lemma {:induction false} BatchBeforeStart(b: nat, n: nat, trials: nat)
    requires b < n
    ensures BatchStart(b, trials) + trials <= BatchStart(n, trials)
  {
    if b < n - 1 {
      BatchBeforeStart(b, n - 1, trials);
    }
  }

  /** BatchStart is the product of its arguments. */
  lemma {:induction false} BatchStartIsProduct(b: nat, trials: nat)
    ensures BatchStart(b, trials) == b * trials
  {
    if b > 0 {
      BatchStartIsProduct(b - 1, trials);
    }
  }

  /** The first n batches lie within the readings up to where batch n begins. */
  lemma BatchesPrefixTake(records: seq<ResultRecord>, elapsed: seq<nat>, trials: nat, n: nat)
    requires BatchesPrefix(records, elapsed, trials) && n <= |records|
    requires BatchStart(n, trials) <= |elapsed|
    ensures BatchesPrefix(records[..n], elapsed[..BatchStart(n, trials)], trials)
  {
    var front := elapsed[..BatchStart(n, trials)];
    forall b | 0 <= b < n
      ensures BatchStart(b, trials) + trials <= |front|
      ensures records[..n][b].batchElapsedTime == Sum(front[BatchStart(b, trials) .. BatchStart(b, trials) + trials])
    {
      BatchBeforeStart(b, n, trials);
      assert front[BatchStart(b, trials) .. BatchStart(b, trials) + trials]
          == elapsed[BatchStart(b, trials) .. BatchStart(b, trials) + trials];
    }
  }

  /** Splitting off the last batch leaves batches over the readings before it. */
  lemma BatchesFromDropLast(records: seq<ResultRecord>, elapsed: seq<nat>, trials: nat)
    requires BatchesFrom(records, elapsed, trials) && records != []
    ensures var n := |records| - 1;
      BatchStart(n, trials) <= |elapsed| &&
      BatchesFrom(records[..n], elapsed[..BatchStart(n, trials)], trials) &&
      records[n].batchElapsedTime == Sum(elapsed[BatchStart(n, trials)..])
  {
    var n := |records| - 1;
    var cut := BatchStart(n, trials);
    BatchesPrefixTake(records, elapsed, trials, n);
    assert elapsed[cut..] == elapsed[cut .. cut + trials];
  }

  /** Every reading is counted in exactly one batch: the batch totals add up to the sum of
      all readings. */
  lemma {:induction false} BatchesCoverReadings(records: seq<ResultRecord>, elapsed: seq<nat>, trials: nat)
    requires BatchesFrom(records, elapsed, trials)
    ensures TotalElapsed(records) == Sum(elapsed)
    decreases |records|
  {
    if records == [] {
      assert elapsed == [];
    } else {
      var n := |records| - 1;
      var cut := BatchStart(n, trials);
      BatchesFromDropLast(records, elapsed, trials);
      BatchesCoverReadings(records[..n], elapsed[..cut], trials);
      assert elapsed == elapsed[..cut] + elapsed[cut..];
      SumConcat(elapsed[..cut], elapsed[cut..]);
    }
  }

  /** What the runner has produced after |records| sizes: one record per size visited so
      far, each with its batch's total and average. */
  ghost predicate RecordsSoFar(records: seq<ResultRecord>, sizes: seq<int>, elapsed: seq<nat>, trials: nat)
  {
    |records| <= |sizes| &&
    (forall b :: 0 <= b < |records| ==> records[b].inputSize == sizes[b]) &&
    BatchesPrefix(records, elapsed, trials) &&
    AveragesHold(records, trials)
  }

  /** The record of the next size, with the total of the next run of readings and the
      average of that total, extends RecordsSoFar. */
  lemma RecordsSoFarExtend(records: seq<ResultRecord>, sizes: seq<int>, elapsed: seq<nat>, trials: nat,
                           taken: nat, r: ResultRecord)
    requires RecordsSoFar(records, sizes, elapsed, trials) && |records| < |sizes|
    requires taken == BatchStart(|records|, trials) && taken + trials <= |elapsed|
    requires r.inputSize == sizes[|records|]
    requires r.batchElapsedTime == Sum(elapsed[taken .. taken + trials])
    requires trials >= 1 && r.average == Average(r.batchElapsedTime, trials)
    ensures RecordsSoFar(records + [r], sizes, elapsed, trials)
  {
    BatchesPrefixExtend(records, elapsed, trials, r);
    AveragesHoldExtend(records, trials, r);
    assert forall b :: 0 <= b < |records| ==> (records + [r])[b] == records[b];
  }

  /** The trial loop for one input size: the total starts at 0 and each of the
      numberOfTrials trials calls FibLoopBig(inputSize) and adds the stopwatch reading
      taken around that call; `readings` are those readings, one per trial. */
  method RunBatch(inputSize: int, numberOfTrials: int, readings: seq<nat>) returns (batchElapsedTime: nat)
    requires IsInt(inputSize) && |readings| == numberOfTrials
    ensures batchElapsedTime == Sum(readings)
  {
    batchElapsedTime := 0;
    var trial := 0;
    while trial < numberOfTrials
      invariant 0 <= trial <= numberOfTrials
      invariant batchElapsedTime == Sum(readings[..trial])
    {
      var fibTest := Fibonacci.FibLoopBig(inputSize);
      assert readings[..trial + 1][..trial] == readings[..trial];
      batchElapsedTime := batchElapsedTime + readings[trial];
      trial := trial + 1;
    }
    assert readings[..trial] == readings;
  }

  /** runFullExperiment without its file output: for each size of the sweep, run a batch
      of numberOfTrials trials over the next numberOfTrials readings, and record the size,
      the batch total and the average per trial. */
  method RunFullExperiment(config: Config, elapsed: seq<nat>) returns (records: seq<ResultRecord>)
    requires ValidConfig(config)
    requires |elapsed| == BatchStart(|SweepSizes(config.minInputSize, config.maxInputSize)|, config.numberOfTrials)
    ensures |records| == |SweepSizes(config.minInputSize, config.maxInputSize)|
    ensures forall b :: 0 <= b < |records| ==>
      records[b].inputSize == SweepSizes(config.minInputSize, config.maxInputSize)[b]
    ensures BatchesFrom(records, elapsed, config.numberOfTrials)
    ensures AveragesHold(records, config.numberOfTrials)
  {
    var trials := config.numberOfTrials;
    ghost var sizes := SweepSizes(config.minInputSize, config.maxInputSize);
    records := [];
    var taken := 0;  // readings used so far
    var inputSize := config.minInputSize;
    while inputSize <= config.maxInputSize
      invariant RecordsSoFar(records, sizes, elapsed, trials)
      invariant inputSize == Doubled(config.minInputSize, |records|)
      invariant taken == BatchStart(|records|, trials)
      decreases config.maxInputSize - inputSize
    {
      SweepSizesAt(config.minInputSize, config.maxInputSize, |records|);
      if |records| > 0 {
        DoubledIncreasing(config.minInputSize, 0, |records|);
      }
      BatchBeforeStart(|records|, |sizes|, trials);
      var batchElapsedTime := RunBatch(inputSize, trials, elapsed[taken .. taken + trials]);
      var average := Average(batchElapsedTime, trials);
      var record := ResultRecord(inputSize, batchElapsedTime, average);
      RecordsSoFarExtend(records, sizes, elapsed, trials, taken, record);
      assert BatchStart(|records| + 1, trials) == taken + trials;
      records := records + [record];
      taken := taken + trials;
      inputSize := WrapInt(inputSize * 2);
    }
    SweepSizesAt(config.minInputSize, config.maxInputSize, |records|);
  }
}
