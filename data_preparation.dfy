// The label bookkeeping of `data_preparation`
// (census_income_demo.py:134-161): binarised one-hot labels, the task order
// fixed by `sorted(...)`, and the split of the "other" rows into validation
// and test rows.
//
// Only the label columns and row indices are modelled; the feature frames
// are selected with the same index lists.
module DataPreparation {
  import opened TaskOrder

  /** The raw value that marks the positive class of each task (lines 134-137). */
  const IncomePositive: string := " 50000+."
  const MaritalPositive: string := " Never married"

  /** `num_classes` passed to `to_categorical`. */
  const NumClasses: nat := 2

  /** The two label columns of one census row: `income_50k` and `marital_stat`. */
  datatype RawLabels = RawLabels(income: string, marital: string)

  /** A label array: `width` is its `shape[1]`, each row one example. */
  datatype LabelMatrix = LabelMatrix(width: nat, rows: seq<seq<int>>)

  predicate WellShaped(m: LabelMatrix)
  {
    forall i :: 0 <= i < |m.rows| ==> |m.rows[i]| == m.width
  }

  function Incomes(rows: seq<RawLabels>): (c: seq<string>)
    ensures |c| == |rows| && forall i :: 0 <= i < |rows| ==> c[i] == rows[i].income
  {
    seq(|rows|, i requires 0 <= i < |rows| => rows[i].income)
  }

  function Maritals(rows: seq<RawLabels>): (c: seq<string>)
    ensures |c| == |rows| && forall i :: 0 <= i < |rows| ==> c[i] == rows[i].marital
  {
    seq(|rows|, i requires 0 <= i < |rows| => rows[i].marital)
  }

  /** `(column == positive).astype(int)`: 1 where the raw value equals `positive`, 0 elsewhere. */
  function Indicator(raw: seq<string>, positive: string): (c: seq<nat>)
    ensures |c| == |raw|
    ensures forall i :: 0 <= i < |raw| ==> c[i] < 2 && (c[i] == 1 <==> raw[i] == positive)
  {
    if raw == [] then []
    else [if raw[0] == positive then 1 else 0] + Indicator(raw[1..], positive)
  }

  /** The one-hot row of class `c` among `k` classes. */
  function OneHot(c: nat, k: nat): (row: seq<int>)
    requires c < k
    ensures |row| == k
    ensures row[c] == 1 && forall j :: 0 <= j < k && j != c ==> row[j] == 0
  {
    seq(k, j => if j == c then 1 else 0)
  }

  /** `to_categorical(classes, num_classes=k)`; a class outside `0 .. k-1` is an error in Keras. */
  function ToCategorical(classes: seq<nat>, k: nat): (m: LabelMatrix)
    requires forall i :: 0 <= i < |classes| ==> classes[i] < k
    ensures m.width == k && WellShaped(m) && |m.rows| == |classes|
    ensures forall i :: 0 <= i < |classes| ==> m.rows[i] == OneHot(classes[i], k)
  {
    LabelMatrix(k, seq(|classes|, i requires 0 <= i < |classes| => OneHot(classes[i], k)))
  }

  /**
   * One label column binarised into width-2 one-hot rows (lines 134-137):
   * position 1 holds 1 exactly when the raw value is `positive`, position 0
   * holds 1 exactly when it is not, and the two always add up to 1.
   */
  function Binarise(raw: seq<string>, positive: string): (m: LabelMatrix)
    ensures m.width == 2 && WellShaped(m) && |m.rows| == |raw|
    ensures forall i :: 0 <= i < |raw| ==>
      && (m.rows[i][1] == 1 <==> raw[i] == positive)
      && (m.rows[i][0] == 1 <==> raw[i] != positive)
      && m.rows[i][0] + m.rows[i][1] == 1
  {
    ToCategorical(Indicator(raw, positive), NumClasses)
  }

  /**
   * A Python dict literal: its entries in insertion order. The dicts of
   * `data_preparation` have distinct keys.
   */
  type Dict<V> = seq<(string, V)>

  function Keys<V>(d: Dict<V>): (ks: seq<string>)
    ensures |ks| == |d| && forall i :: 0 <= i < |d| ==> ks[i] == d[i].0
  {
    if d == [] then [] else [d[0].0] + Keys(d[1..])
  }

  /** `d[k]`: the value stored under key `k`. */
  function Lookup<V>(d: Dict<V>, k: string): (v: V)
    requires k in Keys(d)
    ensures (k, v) in d
  {
    if d[0].0 == k then d[0].1 else Lookup(d[1..], k)
  }

  /** `[d[key] for key in ks]`. */
  function Gather<V>(d: Dict<V>, ks: seq<string>): (vs: seq<V>)
    requires forall k :: k in ks ==> k in Keys(d)
    ensures |vs| == |ks|
    ensures forall i :: 0 <= i < |ks| ==> vs[i] == Lookup(d, ks[i])
  {
    if ks == [] then [] else [Lookup(d, ks[0])] + Gather(d, ks[1..])
  }

  /** `sorted(d.keys())`: every key of `d` once, ascending. */
  function SortedKeys<V>(d: Dict<V>): (ks: seq<string>)
    ensures multiset(ks) == multiset(Keys(d)) && Sorted(ks) && |ks| == |d|
    ensures forall k :: k in ks <==> k in Keys(d)
  {
    SortIsSorted(Keys(d));
    var ks := Sort(Keys(d));
    assert forall k :: k in ks <==> k in multiset(Keys(d));
    assert |ks| == |multiset(ks)| == |multiset(Keys(d))| == |Keys(d)|;
    ks
  }

  /** `[d[key] for key in sorted(d.keys())]` (lines 157, 159, 161). */
  function ValuesInKeyOrder<V>(d: Dict<V>): (vs: seq<V>)
    ensures |vs| == |d|
  {
    Gather(d, SortedKeys(d))
  }

  /** `[(d[key], key) for key in sorted(d.keys())]` (line 151). */
  function OutputInfo(d: Dict<nat>): (info: seq<(nat, string)>)
    ensures |info| == |d|
  {
    var ks := SortedKeys(d);
    seq(|ks|, i requires 0 <= i < |ks| => (Lookup(d, ks[i]), ks[i]))
  }

  /**
   * Whatever order two dicts were filled in, when they hold the same keys,
   * entry `i` of `output_info` and entry `i` of the label list built from
   * the other dict belong to the same task.
   */
  lemma OutputInfoAligned<V>(outputs: Dict<nat>, labels: Dict<V>, i: nat)
    requires multiset(Keys(outputs)) == multiset(Keys(labels))
    requires i < |outputs|
    ensures |OutputInfo(outputs)| == |ValuesInKeyOrder(labels)|
    ensures OutputInfo(outputs)[i].1 in Keys(labels)
    ensures ValuesInKeyOrder(labels)[i] == Lookup(labels, OutputInfo(outputs)[i].1)
    ensures OutputInfo(outputs)[i].0 == Lookup(outputs, OutputInfo(outputs)[i].1)
  {
    SortIsSorted(Keys(outputs));
    SortIsSorted(Keys(labels));
    SortedUnique(SortedKeys(outputs), SortedKeys(labels));
    assert |Keys(outputs)| == |multiset(Keys(outputs))| == |multiset(Keys(labels))| == |Keys(labels)|;
  }

  /** `rows[idx]` for a list of row positions (NumPy indexing, `iloc`). */
  function Pick<T>(rows: seq<T>, idx: seq<nat>): (picked: seq<T>)
    requires forall j :: 0 <= j < |idx| ==> idx[j] < |rows|
    ensures |picked| == |idx| && forall j :: 0 <= j < |idx| ==> picked[j] == rows[idx[j]]
  {
    seq(|idx|, j requires 0 <= j < |idx| => rows[idx[j]])
  }

  function SelectRows(m: LabelMatrix, idx: seq<nat>): (s: LabelMatrix)
    requires forall j :: 0 <= j < |idx| ==> idx[j] < |m.rows|
    ensures s.width == m.width && (WellShaped(m) ==> WellShaped(s))
    ensures |s.rows| == |idx| && forall j :: 0 <= j < |idx| ==> s.rows[j] == m.rows[idx[j]]
  {
    LabelMatrix(m.width, Pick(m.rows, idx))
  }

  /** `SelectRows` applied to each label array of a list, keeping the list's order. */
  function SelectEach(ms: seq<LabelMatrix>, idx: seq<nat>): (s: seq<LabelMatrix>)
    requires forall t :: 0 <= t < |ms| ==> forall j :: 0 <= j < |idx| ==> idx[j] < |ms[t].rows|
    ensures |s| == |ms| && forall t :: 0 <= t < |ms| ==> s[t] == SelectRows(ms[t], idx)
  {
    seq(|ms|, t requires 0 <= t < |ms| => SelectRows(ms[t], idx))
  }

  /**
   * `list(set(range(n)) - set(validation))` (line 155), listed in
   * ascending order: every row position below `n` that is not a validation
   * position, each once.
   */
  function TestIndices(n: nat, validation: seq<nat>): (test: seq<nat>)
    ensures forall i: nat :: i in test <==> i < n && i !in validation
    ensures forall p, q :: 0 <= p < q < |test| ==> test[p] < test[q]
    ensures forall j :: 0 <= j < |test| ==> test[j] < n
  {
    if n == 0 then []
    else
      var init := TestIndices(n - 1, validation);
      assert forall p :: 0 <= p < |init| ==> init[p] in init;
      init + (if n - 1 in validation then [] else [n - 1])
  }

  /** The row positions `0 .. n-1` of a frame with a default index, `set(df.index)`. */
  function RowPositions(n: nat): (s: set<nat>)
  {
    if n == 0 then {} else RowPositions(n - 1) + {n - 1}
  }

  /**
   * The validation and test positions partition the "other" rows: no row is
   * in both, and every row is in one of them (lines 154-155).
   */
  lemma {:induction false} ValidationTestPartition(n: nat, validation: seq<nat>)
    requires forall j :: 0 <= j < |validation| ==> validation[j] < n
    ensures (set i | i in validation) * (set i | i in TestIndices(n, validation)) == {}
    ensures (set i | i in validation) + (set i | i in TestIndices(n, validation)) == RowPositions(n)
  {
    RowPositionsBelow(n);
    var test := TestIndices(n, validation);
    assert forall i :: i in validation ==> i < n;
  }

  lemma {:induction false} RowPositionsBelow(n: nat)
    ensures forall i: nat :: i in RowPositions(n) <==> i < n
  {
    if n > 0 {
      RowPositionsBelow(n - 1);
    }
  }

  /** Everything `data_preparation` returns about labels, in the source's names. */
  datatype PreparedLabels = PreparedLabels(
    trainLabel: seq<LabelMatrix>,
    validationIndices: seq<nat>,
    validationLabel: seq<LabelMatrix>,
    testIndices: seq<nat>,
    testLabel: seq<LabelMatrix>,
    outputInfo: seq<(nat, string)>)

  /** The two task names in `sorted` order: "income" comes before "marital". */
  lemma TaskNamesSorted()
    ensures Sort(["income", "marital"]) == ["income", "marital"]
  {
    assert Below("income", "marital");
    assert Sort(["marital"]) == ["marital"];
  }

  /** The task dicts of `data_preparation`, listed in key order: income first, marital second. */
  lemma TaskDictInOrder<V>(income: V, marital: V)
    ensures ValuesInKeyOrder([("income", income), ("marital", marital)]) == [income, marital]
  {
    var d := [("income", income), ("marital", marital)];
    assert Keys(d) == ["income", "marital"];
    TaskNamesSorted();
    assert SortedKeys(d) == ["income", "marital"];
    assert Lookup(d, "income") == income;
    assert Lookup(d, "marital") == marital;
  }

  lemma TaskOutputsInOrder(income: nat, marital: nat)
    ensures OutputInfo([("income", income), ("marital", marital)]) == [(income, "income"), (marital, "marital")]
  {
    assert Keys([("income", income), ("marital", marital)]) == ["income", "marital"];
    TaskNamesSorted();
  }

  /** `dict_train_labels` or `dict_other_labels` (lines 143-150), built from binarised label columns. */
  function LabelDict(rows: seq<RawLabels>): Dict<LabelMatrix>
  {
    [("income", Binarise(Incomes(rows), IncomePositive)), ("marital", Binarise(Maritals(rows), MaritalPositive))]
  }

  /** `dict_outputs` (lines 139-142): each task's label width. */
  function OutputDict(rows: seq<RawLabels>): Dict<nat>
  {
    [("income", Binarise(Incomes(rows), IncomePositive).width), ("marital", Binarise(Maritals(rows), MaritalPositive).width)]
  }

  /** The label arrays of the two tasks in task order: income, then marital status. */
  function TaskLabels(rows: seq<RawLabels>): (ls: seq<LabelMatrix>)
    ensures |ls| == 2 && forall t :: 0 <= t < 2 ==> ls[t].width == 2 && |ls[t].rows| == |rows|
  {
    [Binarise(Incomes(rows), IncomePositive), Binarise(Maritals(rows), MaritalPositive)]
  }

  /**
   * Lines 134-161. `validation` stands for the row positions that
   * `sample(frac=0.5)` drew from the "other" rows. Every list comes out in
   * task order, income then marital status; `output_info` gives each task
   * its label width, 2; the validation and test labels are the binarised
   * "other" labels at the validation and test positions.
   */
  function PrepareLabels(train: seq<RawLabels>, other: seq<RawLabels>, validation: seq<nat>): (p: PreparedLabels)
    requires forall j :: 0 <= j < |validation| ==> validation[j] < |other|
    ensures p.outputInfo == [(2, "income"), (2, "marital")]
    ensures p.trainLabel == TaskLabels(train)
    ensures p.validationIndices == validation
    ensures p.validationLabel == SelectEach(TaskLabels(other), validation)
    ensures p.testIndices == TestIndices(|other|, validation)
    ensures p.testLabel == SelectEach(TaskLabels(other), p.testIndices)
  {
    TaskDictInOrder(Binarise(Incomes(train), IncomePositive), Binarise(Maritals(train), MaritalPositive));
    TaskDictInOrder(Binarise(Incomes(other), IncomePositive), Binarise(Maritals(other), MaritalPositive));
    TaskOutputsInOrder(2, 2);
    var otherInOrder := ValuesInKeyOrder(LabelDict(other));
    var test := TestIndices(|other|, validation);
    PreparedLabels(
      ValuesInKeyOrder(LabelDict(train)),
      validation,
      SelectEach(otherInOrder, validation),
      test,
      SelectEach(otherInOrder, test),
      OutputInfo(OutputDict(train)))
  }

  /**
   * The label rows picked at positions `idx`, for each task: width 2, and a 1
   * in position 1 exactly when the picked raw row carries the task's
   * positive value.
   */
  lemma SelectedTaskLabels(rows: seq<RawLabels>, idx: seq<nat>)
    requires forall j :: 0 <= j < |idx| ==> idx[j] < |rows|
    ensures var ls := SelectEach(TaskLabels(rows), idx);
      && |ls| == 2 && ls[0].width == 2 && ls[1].width == 2
      && forall j :: 0 <= j < |idx| ==>
           && (ls[0].rows[j][1] == 1 <==> rows[idx[j]].income == IncomePositive)
           && (ls[1].rows[j][1] == 1 <==> rows[idx[j]].marital == MaritalPositive)
  {
    var ls := SelectEach(TaskLabels(rows), idx);
    var income := Binarise(Incomes(rows), IncomePositive);
    var marital := Binarise(Maritals(rows), MaritalPositive);
    assert ls[0] == SelectRows(income, idx);
    assert ls[1] == SelectRows(marital, idx);
    forall j | 0 <= j < |idx|
      ensures ls[0].rows[j][1] == 1 <==> rows[idx[j]].income == IncomePositive
      ensures ls[1].rows[j][1] == 1 <==> rows[idx[j]].marital == MaritalPositive
    {
      assert ls[0].rows[j] == income.rows[idx[j]];
      assert ls[1].rows[j] == marital.rows[idx[j]];
      assert Incomes(rows)[idx[j]] == rows[idx[j]].income;
      assert Maritals(rows)[idx[j]] == rows[idx[j]].marital;
    }
  }

  /**
   * End to end, for every task `t` (0 income, 1 marital status): the label
   * width `output_info[t][0]` is the width of every label array of task
   * `t`, and row `j` of the validation and test labels marks position 1
   * exactly when the raw value of the chosen "other" row is the task's
   * positive value.
   */
  lemma PreparedLabelsMeaning(train: seq<RawLabels>, other: seq<RawLabels>, validation: seq<nat>)
    requires forall j :: 0 <= j < |validation| ==> validation[j] < |other|
    ensures var p := PrepareLabels(train, other, validation);
      && |p.outputInfo| == |p.trainLabel| == |p.validationLabel| == |p.testLabel| == 2
      && (forall t :: 0 <= t < 2 ==>
            p.outputInfo[t].0 == p.trainLabel[t].width == p.validationLabel[t].width == p.testLabel[t].width)
      && (forall j :: 0 <= j < |validation| ==>
            && (p.validationLabel[0].rows[j][1] == 1 <==> other[validation[j]].income == IncomePositive)
            && (p.validationLabel[1].rows[j][1] == 1 <==> other[validation[j]].marital == MaritalPositive))
      && (forall j :: 0 <= j < |p.testIndices| ==>
            && p.testIndices[j] < |other|
            && (p.testLabel[0].rows[j][1] == 1 <==> other[p.testIndices[j]].income == IncomePositive)
            && (p.testLabel[1].rows[j][1] == 1 <==> other[p.testIndices[j]].marital == MaritalPositive))
  {
    var p := PrepareLabels(train, other, validation);
    SelectedTaskLabels(other, validation);
    SelectedTaskLabels(other, p.testIndices);
  }
}
