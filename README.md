# FibLoopBigPerformance in Dafny

A model of a small Java benchmark. The benchmark times an iterative arbitrary-precision
Fibonacci routine, `FibLoopBig`, over input sizes that double from `MININPUTSIZE` (1) to
`MAXINPUTSIZE` (2^18). At each size it runs `numberOfTrials` (10) timed calls and sums their
per-thread CPU times. It then writes the size and the average time per trial to a results file.

The model has three modules:

- `JavaInt` (`java_int.dfy`): the bounds of Java's `int` and `long`, and `int` wrap-around
  (`WrapInt`).
- `Fibonacci` (`fibonacci.dfy`):
  - the specification function `Fib`;
  - `FibLoopBig` as a method with the source's three accumulators and a loop proved against `Fib`;
  - the closing self-check loop of `main` (`VerificationTest`);
  - lemmas on monotonicity, the quoted values and the `long` range;
  - the wrap-around of the Java loop counter (see Findings).
- `Experiment` (`experiment.dfy`): the part of `runFullExperiment` that computes.
  - The sweep loop doubles `inputSize`, specified by `SweepSizes`.
  - The trial loop sums one batch of stopwatch readings (`RunBatch`), specified by `Sum`.
  - Each record carries a size, its batch total and the average per trial.

The stopwatch is a parameter, not a model. `RunFullExperiment` receives the readings it would
produce as a sequence `elapsed` of non-negative integers, one per trial, in the order the
trials run. Batch `b` uses the readings from `BatchStart(b, numberOfTrials)`, which equals
`b * numberOfTrials`. The results file is the returned sequence of `ResultRecord`s.
`BigInteger` is Dafny's unbounded `int`.

## Model

| member | source | states |
|---|---|---|
| `Fibonacci.FibLoopBig` | src/FibLoopBigPerformance.java:108-121 | Returns 0 for any `x <= 0`, since the loop body never runs. Returns `Fib(x)` for `x >= 0`. So the result is 0 at 0, 1 at 1, and for `x >= 2` the sum of the two results before it. The loop invariant says that after `i` passes `current == Fib(i)` and `minusOne == Fib(i-1)`, with `Fib(-1) = 1`. |
| `Fibonacci.VerificationTest` | src/FibLoopBigPerformance.java:35-36 | Calls `FibLoopBig(i)` for every `i` from 0 to 93, and the i-th value collected is `Fib(i)`. |
| `Fibonacci.FibMonotone` | src/FibLoopBigPerformance.java:115-120 | The result never decreases as the argument grows. |
| `Fibonacci.FibStrictlyIncreasing` | src/FibLoopBigPerformance.java:115-119 | From index 2 on, a larger index gives a strictly larger result. |
| `Fibonacci.FibQuotedValues` | src/FibLoopBigPerformance.java:103 | Indices 0 to 11 give the documented sequence 0, 1, 1, 2, 3, 5, 8, 13, 21, 34, 55, 89. Also `Fib(20) = 6765` and `Fib(50) = 12586269025`. |
| `Fibonacci.FibLongLimit` | src/FibLoopBigPerformance.java:104 | `Fib(n)` fits in a Java `long` (at most 2^63 - 1) exactly when `n <= 92`. So index 92 is the last that fits, and every later index overflows. |
| `Fibonacci.CounterAfter` | src/FibLoopBigPerformance.java:115 | The Java `int` loop counter after `n` increments always lies in the `int` range. |
| `Fibonacci.CounterExact` | src/FibLoopBigPerformance.java:115 | Up to `INT_MAX` increments, the `int` counter equals the number of passes. |
| `Fibonacci.IntCounterNeverReaches` | src/FibLoopBigPerformance.java:108-115 | For a `long` argument `x > INT_MAX`, the guard `i < x` holds after every number of passes, because one increment past `INT_MAX` gives `INT_MIN`. So the loop as written never returns. A real JVM would stop it with an exception once the numbers grow too large. |
| `JavaInt.WrapInt` | src/FibLoopBigPerformance.java:55 | Java `int` arithmetic: the result is in `int` range and congruent to the exact value modulo 2^32, and equals the exact value when that value fits. |
| `Experiment.SweepSizesShape` | src/FibLoopBigPerformance.java:55 | The k-th swept size is `MININPUTSIZE * 2^k` and at most `MAXINPUTSIZE`. The sweep stops only once the next doubling would exceed `MAXINPUTSIZE`. |
| `Experiment.SweepSizesOrdered` | src/FibLoopBigPerformance.java:55 | The sweep is non-empty exactly when `MININPUTSIZE <= MAXINPUTSIZE`. It starts at `MININPUTSIZE`. Each size is double the previous one, and the sizes strictly increase. |
| `Experiment.SweepSizesAt` | src/FibLoopBigPerformance.java:55 | The sweep has a k-th size exactly when `MININPUTSIZE * 2^k <= MAXINPUTSIZE`, and that size is `MININPUTSIZE * 2^k`. |
| `Experiment.SweepOfSourceConfig` | src/FibLoopBigPerformance.java:15-17 | The compiled-in constants are acceptable to the runner. Their sweep has exactly 19 sizes, from 1 to 2^18. |
| `Experiment.SweepOneToEight` | src/FibLoopBigPerformance.java:55 | With sizes 1 to 8, the sweep is exactly 1, 2, 4, 8. |
| `Experiment.Average` | src/FibLoopBigPerformance.java:92 | The average per trial, multiplied by the trial count, gives back the batch total. It lies between 0 and the total. |
| `Experiment.BatchesCoverReadings` | src/FibLoopBigPerformance.java:60-90 | When each record's total is the sum of its own run of consecutive readings, the totals add up to the sum of all readings. So each reading is counted in exactly one batch. |
| `Experiment.RunBatch` | src/FibLoopBigPerformance.java:77-90 | The batch total starts at 0. It ends as the sum of exactly `numberOfTrials` readings, one per call of `FibLoopBig(inputSize)`. |
| `Experiment.RunFullExperiment` | src/FibLoopBigPerformance.java:55-100 | There is one record per swept size, in sweep order. Record `b` holds the sum of readings `b * numberOfTrials` up to `(b + 1) * numberOfTrials`, and the readings are used up exactly (`BatchesFrom`). Each average is its total divided by `numberOfTrials` (`AveragesHold`). |

## Left out

- File output is not modelled because it is I/O. This covers building the results-file path from `ResultsFolderPath` and the file name, opening the results file, the `#X AverageTime` header, the `printf` column formatting, flushing, and the message and early return when the file cannot be opened.
- `System.gc()`, the `ThreadMXBean` and the two `ThreadCpuStopWatch` objects are left out; the CPU-time readings are the `elapsed` parameter instead. The `ThreadCpuStopWatch` class is not defined in `FibLoopBigPerformance.java`.
- The progress messages written to standard output are left out.
- `main`'s three back-to-back runs are left out because they only exist to warm up the JIT. `main`'s printing of the self-check values is also left out; `VerificationTest` returns the values instead.
- The unused `Math.log`/`Math.floor` value `N` (line 94) is left out because nothing uses it. So are the unused constants `MAXVALUE` and `MINVALUE`.
- Experiment.Average: computes the exact rational quotient, not the double-precision one, so double rounding is not modelled.
- Experiment.RunBatch: adds the readings as unbounded integers. The 64-bit wrap-around of `long batchElapsedTime` is not modelled; nanosecond CPU times stay far below 2^63.
- Experiment.RunFullExperiment: requires `MAXINPUTSIZE < 2^30`. At or above that bound, `inputSize *= 2` can wrap to a negative `int`, and then the Java sweep may never end. For example, with sizes 1 to 2^30 the size after 2^30 wraps to `INT_MIN`, then to 0, and stays 0. The compiled-in 2^18 is well inside the bound.
- Experiment.RunFullExperiment: requires `numberOfTrials >= 1`. With 0 trials Java would compute `0.0 / 0.0 = NaN`. With a negative count the trial loop runs no pass and Java writes an average of `-0.0`. Neither case is modelled.
- Experiment.RunFullExperiment: requires MININPUTSIZE >= 1, as the compiled-in `MININPUTSIZE = 1` (line 17) is. A non-positive minimum at or below `MAXINPUTSIZE` is not modelled, and Java behaves as follows. A minimum of 0 loops forever, because `0 * 2` stays 0. A minimum of `-2^a` doubles down to `INT_MIN` and then wraps to 0. From there it loops forever when `MAXINPUTSIZE >= 0`, and otherwise it stops. Any other negative minimum visits negative sizes until a doubling wraps to a positive size, and from there it behaves like a positive sweep. Such a sweep may stop: with minimum -3 and maximum 2^18 it writes 30 records, -3·2^k for k = 0 to 29, and then -3·2^30 wraps to 2^30, which ends the loop. When the minimum is non-positive and `MAXINPUTSIZE` is below it, Java writes a table with only its header.
- Experiment.RunFullExperiment: requires exactly one reading per trial, because the stopwatch is given as data.
- Fibonacci.FibLoopBig: uses a counter as wide as its argument, not the Java `int` counter. The `int` behaviour is modelled separately (see Findings).

## Findings

| source | as written | input that shows it | evidently intended | confidence | as-written member | corrected member |
|---|---|---|---|---|---|---|
| src/FibLoopBigPerformance.java:115 | `FibLoopBig(long x)` counts its passes in an `int i`, so `i++` wraps from `INT_MAX` to `INT_MIN`. | `x = 2147483648` (2^31): after 2^31 passes `i` is `-2^31`, still below `x`, and `i < x` never becomes false. | The loop runs `x` times and returns `Fib(x)`, with the counter as wide as `x`. | high; not executed. The benchmark itself only passes sizes up to 2^18. | `Fibonacci.IntCounterNeverReaches` | `Fibonacci.FibLoopBig` |
