# Census-income MMoE demo: benchmark accounting and label bookkeeping

This project models the two pieces of exact bookkeeping in
`census_income_demo.py`, the multi-gate mixture-of-experts demo on the census
income data set:

- **The evaluation benchmark** at the end of `main` (`benchmark.dfy`, module
  `Benchmark`). It repeats `model.evaluate` `epochs` times over the test rows.
  Each repetition runs `num_iter = min(int(len(test_data) / batch_size), num_iter cap)` steps.
  Repetition `i` counts only when `i > num_warmup`. The benchmark adds the
  counted samples and wall-clock durations into `total_sample` and
  `total_time`. It then prints latency (`total_time / total_sample * 1000`, ms
  per sample) and throughput (`total_sample / total_time`, samples per second).
  `Benchmark.Evaluate` is a method with the source's loop and its two
  accumulators. The measured duration of each repetition is an input sequence.
  Each of the three divisions that Python can abort with `ZeroDivisionError` is
  an explicit error result.
- **The label bookkeeping of `data_preparation`** (`data_preparation.dfy`,
  module `DataPreparation`, with Python's string order and `sorted` in
  `task_order.dfy`, module `TaskOrder`). Each raw label column becomes
  width-2 one-hot rows. The dicts `dict_outputs`, `dict_train_labels` and
  `dict_other_labels` are read out in `sorted` key order, so `output_info` and
  every label list are aligned by task (income, then marital status). The
  "other" rows are split into validation positions, a random sample that is
  an input here, and test positions, which are the set complement.

The warm-up rule is modelled as the code writes it. The test `i > num_warmup`
drops repetitions `0 .. num_warmup`, which is `num_warmup + 1` of them. So five
repetitions with `num_warmup` 3 leave one counted repetition (repetition 4),
not the two that reading `num_warmup` as a count of warm-up repetitions would
suggest (`Benchmark.WarmupExample`). Likewise the benchmark fails whenever
`epochs <= num_warmup + 1`, not only when `num_warmup >= epochs`. It also
fails when `num_iter` is 0 (`Benchmark.NoSamplesIff`).

## Model

| member | source | states |
|---|---|---|
| `Benchmark.NumIter` | census_income_demo.py:264-265 | the step count is at most the cap, at most the number of full batches in the data, and equal to one of those two bounds, so it is their minimum |
| `Benchmark.Evaluate` | census_income_demo.py:259-285 | batch size 0 fails (line 264); otherwise the result fails with no samples exactly when the counted repetitions give 0 samples (line 281), fails with zero time exactly when there are samples but the counted durations add up to 0 (line 283), and else reports `num_iter`, `total_sample` = counted repetitions x `num_iter` x batch size, `total_time` = sum of counted durations, latency and throughput |
| `Benchmark.ContributingCountClosedForm` | census_income_demo.py:266-275 | over `range(epochs)` exactly `max(0, epochs - num_warmup - 1)` repetitions pass the test `i > num_warmup` |
| `Benchmark.WarmupExample` | census_income_demo.py:275 | with 5 repetitions and `num_warmup` 3 only repetition 4 counts |
| `Benchmark.NumIterExample` | census_income_demo.py:264-265 | 100 rows, batch size 10 and cap 200 give 10 steps per repetition |
| `Benchmark.NoSamplesIff` | census_income_demo.py:277-281 | `total_sample` is 0, so line 281 divides by zero, exactly when `epochs <= num_warmup + 1` or the step count is 0 |
| `Benchmark.SampleTotalNeverDecreases` | census_income_demo.py:263-277 | `total_sample` after `k1` repetitions is at most `total_sample` after any later `k2` |
| `Benchmark.WarmupDurationsIgnored` | census_income_demo.py:271-276 | two runs whose durations agree on every repetition after the warm-up give the same `total_time`, whatever the excluded durations were |
| `Benchmark.ContributingTimeIsSuffixSum` | census_income_demo.py:262-276 | `total_time` is the plain sum of the durations of repetitions `num_warmup + 1` onwards, and 0 when there are none |
| `Benchmark.ContributingTimeNonNegative` | census_income_demo.py:271-276 | non-negative durations give a non-negative `total_time` |
| `TaskOrder.Sort` | census_income_demo.py:151 | `sorted(keys)` returns the same keys, with the same multiplicities |
| `TaskOrder.SortIsSorted` | census_income_demo.py:151 | `sorted(keys)` is ascending in Python's string order |
| `TaskOrder.SortedUnique` | census_income_demo.py:151 | two ascending arrangements of the same keys are the same sequence, so the result of `sorted` does not depend on how it sorts |
| `TaskOrder.SortDependsOnlyOnKeys` | census_income_demo.py:151-161 | two dicts holding the same keys in any insertion order give the same `sorted` key list |
| `TaskOrder.BelowTotal` | census_income_demo.py:151 | Python's `<` on strings orders any two distinct strings |
| `TaskOrder.BelowTransitive` | census_income_demo.py:151 | Python's `<` on strings is transitive |
| `TaskOrder.BelowAsymmetric` | census_income_demo.py:151 | Python's `<` on strings never holds both ways |
| `TaskOrder.BelowIrreflexive` | census_income_demo.py:151 | no string is below itself |
| `DataPreparation.Indicator` | census_income_demo.py:134-137 | `(column == positive).astype(int)` has one entry per row, each 0 or 1, and it is 1 exactly when the raw value equals the positive value |
| `DataPreparation.OneHot` | census_income_demo.py:134-137 | a one-hot row of `k` classes has length `k`, a 1 at the class and 0 everywhere else |
| `DataPreparation.ToCategorical` | census_income_demo.py:134-137 | `to_categorical(classes, num_classes=k)` has width `k`, one row per class value, each the one-hot row of its class |
| `DataPreparation.Binarise` | census_income_demo.py:134-137 | each binarised label row has width 2, a 1 in position 1 exactly when the raw value is the positive value (`' 50000+.'` or `' Never married'`), a 1 in position 0 exactly when it is not, and the two add up to 1 |
| `DataPreparation.SortedKeys` | census_income_demo.py:151 | `sorted(d.keys())` holds every key of the dict once, ascending |
| `DataPreparation.OutputInfoAligned` | census_income_demo.py:139-161 | for dicts with the same keys, entry `i` of `output_info` names task `k`, carries `dict_outputs[k]`, and entry `i` of the label list built from the other dict is that dict's value for the same `k` |
| `DataPreparation.TaskNamesSorted` | census_income_demo.py:151 | `sorted` puts "income" before "marital" |
| `DataPreparation.TaskDictInOrder` | census_income_demo.py:157-161 | a task dict filled with income then marital labels is listed income first, marital second |
| `DataPreparation.TaskOutputsInOrder` | census_income_demo.py:139-151 | `output_info` for the two tasks is `[(income width, 'income'), (marital width, 'marital')]` |
| `DataPreparation.Pick` | census_income_demo.py:156-159 | indexing rows by a list of positions gives one row per position, the row at that position |
| `DataPreparation.SelectRows` | census_income_demo.py:157-159 | selecting label rows keeps the label width and takes the row at each listed position |
| `DataPreparation.TestIndices` | census_income_demo.py:155 | the test positions are exactly the row positions below the row count that are not validation positions, each once and ascending |
| `DataPreparation.ValidationTestPartition` | census_income_demo.py:154-155 | the validation and test position sets are disjoint and together are exactly `set(transformed_other.index)` |
| `DataPreparation.PrepareLabels` | census_income_demo.py:134-161 | `output_info` is `[(2, 'income'), (2, 'marital')]`; the train, validation and test label lists hold the income labels then the marital labels; validation and test labels are the binarised "other" labels at the validation and test positions |
| `DataPreparation.SelectedTaskLabels` | census_income_demo.py:156-159 | label rows picked at a list of positions keep width 2 for both tasks, and row `j` has a 1 in position 1 exactly when the raw row at position `j` of the list carries the task's positive value |
| `DataPreparation.PreparedLabelsMeaning` | census_income_demo.py:134-161 | all four lists have two entries; `output_info[t][0]` equals the width of every label array of task `t`; row `j` of a validation or test label array has a 1 in position 1 exactly when the chosen "other" row carries the task's positive value |

## Left out

- The MMoE layer, the towers, and model compile, fit, evaluate and predict (census_income_demo.py:199-252, 272). These are Keras calls and floating-point numerics, and `mmoe` is not part of this model.
- `ROCCallback` and `roc_auc_score` (census_income_demo.py:40-83). These are a foreign call with float results, and the callback is commented out of training.
- CSV loading, `get_dummies`, the filled-in missing column and the feature frames (census_income_demo.py:97-131, 156, 158, 160). Only label columns and row positions are modelled. The feature rows are selected with the same position lists.
- The random `sample(frac=0.5, random_state=SEED)` and the global seeding (census_income_demo.py:28-37, 154). The validation positions are an arbitrary list of in-range positions. The sample size, half the rows, is not modelled.
- `DataPreparation.TestIndices`: lists the test positions in ascending order. Python lists a set in its own iteration order, which the language does not fix.
- `DataPreparation.Lookup`: assumes the dict keys are distinct, as they are in the dict literals of lines 139-150.
- Wall-clock time, printing, the TensorBoard profiler, the mixed-precision policy and argument parsing (census_income_demo.py:167-180, 254-257, 267-285). The durations `end_time - start_time` enter as an input sequence, one per repetition.
- `Benchmark.Evaluate`: uses exact reals for `total_time`, latency and throughput, not IEEE doubles. It computes `int(len / batch_size)` as exact floor division, which agrees with Python's float division for data sets of realistic size.
- `Benchmark.Evaluate`: takes batch size, epochs, warm-up count and step cap as non-negative integers. `argparse` also accepts negative values, whose behaviour is not modelled.
