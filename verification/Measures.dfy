/** What the measured numbers mean: a battery's power, and the totals of a list of batteries. */
module Measures {
  import opened Wrappers
  import opened Rounding
  import opened Text
  import opened Table
  import opened Schemas
  import opened KeyValue

  // Power

  /** The power is voltage times current in whole hundredths of a watt, to the nearest. */
  predicate PowerFits(b: Battery) {
    WholeNumber(b.power * 100.0) && -0.005 <= b.power - b.voltage * b.current <= 0.005
  }

  lemma PowerIs(voltage: real, current: real)
    ensures var p := Power(voltage, current); WholeNumber(p * 100.0) && -0.005 <= p - voltage * current <= 0.005
  {
    hide Round;
    Hundredths(voltage * current);
  }

  lemma RowPower(v: Values<PwrField>)
    requires BuildBatteryFromPwrRow(v).Ok?
    ensures PowerFits(BuildBatteryFromPwrRow(v).value)
  {
    hide Power;
    var b := BuildBatteryFromPwrRow(v).value;
    PowerIs(b.voltage, b.current);
  }

  lemma BlockRowPower(v: Values<BlockField>)
    requires BuildBatteryFromPwrIndexed(v).Ok?
    ensures PowerFits(BuildBatteryFromPwrIndexed(v).value)
  {
    hide Power;
    var b := BuildBatteryFromPwrIndexed(v).value;
    PowerIs(b.voltage, b.current);
  }

  lemma {:induction false} RowsHold<F, T>(schema: TableSchema<F, T>, indices: Indices<F>, lines: seq<string>, p: T -> bool)
    requires LinesRows(schema, indices, lines).Ok?
    requires forall line :: LineRow(schema, indices, line).Built? ==> p(LineRow(schema, indices, line).row)
    ensures forall i :: 0 <= i < |LinesRows(schema, indices, lines).value| ==> p(LinesRows(schema, indices, lines).value[i])
  {
    if lines != [] {
      RowsHold(schema, indices, lines[1..], p);
    }
  }

  /** Of every text: whatever battery its table holds. */
  lemma {:induction false} TablePower(text: string)
    requires TableRows(PwrTable(), text).Ok?
    ensures forall i :: 0 <= i < |TableRows(PwrTable(), text).value| ==> PowerFits(TableRows(PwrTable(), text).value[i])
  {
    var lines := SplitLines(text);
    var indices := TableIndices(PwrTable(), lines).value;
    forall line | LineRow(PwrTable(), indices, line).Built?
      ensures PowerFits(LineRow(PwrTable(), indices, line).row)
    {
      RowPower(RowValues(PWR_COLUMNS, indices, Split(line), |PWR_COLUMNS|).value);
    }
    RowsHold(PwrTable(), indices, lines, PowerFits);
  }

  /** And of every block. */
  lemma BlockPower(text: string, id: int)
    requires IndexedBattery(text, id).Ok? && IndexedBattery(text, id).value.Some?
    ensures PowerFits(IndexedBattery(text, id).value.value)
  {
    var raw := Fields(SplitLines(text));
    BlockRowPower(BlockValues(INDEXED_FIELDS, raw, map[BlockSysId := Whole(id)], |INDEXED_FIELDS|).value);
  }

  // Totals

  lemma SumOfOne(b: Battery, measure: Battery -> real)
    ensures Sum([], measure) == 0.0 && Sum([b], measure) == measure(b)
  {
    assert [b][..0] == [];
  }

  lemma {:induction false} SumJoins(a: seq<Battery>, b: seq<Battery>, measure: Battery -> real)
    ensures Sum(a + b, measure) == Sum(a, measure) + Sum(b, measure)
  {
    if b == [] {
      assert a + b == a;
    } else {
      var n := |b| - 1;
      SumJoins(a, b[..n], measure);
      assert (a + b)[..|a + b| - 1] == a + b[..n];
    }
  }

  lemma MeanTimes(total: real, n: nat)
    requires n >= 1
    ensures Mean(total, n) * n as real == total
  {
    Divides(total, n as real);
  }

  const VOLTAGE: Battery -> real := (x: Battery) => x.voltage
  const CURRENT: Battery -> real := (x: Battery) => x.current
  const SOC: Battery -> real := (x: Battery) => x.soc as real
  const POWER: Battery -> real := (x: Battery) => x.power

  /** n times the mean is the sum, give or take half a part for each. */
  predicate MeanFits(mean: real, sum: real, n: nat, half: real) {
    -(half * n as real) <= mean * n as real - sum <= half * n as real
  }

  lemma MeanRounds(mean: real, sum: real, n: nat, half: real)
    requires n >= 1 && half >= 0.0 && -half <= mean - Mean(sum, n) <= half
    ensures MeanFits(mean, sum, n, half)
  {
    var exact, k := Mean(sum, n), n as real;
    MeanTimes(sum, n);
    Times(-half, mean - exact, k);
    Times(mean - exact, half, k);
    Distributes(mean - exact, exact, k);
    Distributes(-half, half, k);
  }

  /** Voltage and state of charge are the means to the nearest hundredth and tenth; current and power are the sums to the
      nearest hundredth and tenth. */
  predicate TotalsFit(batteries: seq<Battery>, t: Totals) {
    && MeanFits(t.voltage, Sum(batteries, VOLTAGE), |batteries|, 0.005) && WholeNumber(t.voltage * 100.0)
    && -0.005 <= t.current - Sum(batteries, CURRENT) <= 0.005 && WholeNumber(t.current * 100.0)
    && MeanFits(t.soc, Sum(batteries, SOC), |batteries|, 0.05) && WholeNumber(t.soc * 10.0)
    && -0.05 <= t.power - Sum(batteries, POWER) <= 0.05 && WholeNumber(t.power * 10.0)
  }

  lemma {:induction false} SameMeasureSum(batteries: seq<Battery>, f: Battery -> real, g: Battery -> real)
    requires forall x :: x in batteries ==> f(x) == g(x)
    ensures Sum(batteries, f) == Sum(batteries, g)
  {
    if batteries != [] {
      SameMeasureSum(batteries[..|batteries| - 1], f, g);
    }
  }

  lemma {:induction false} MeasuresAre(batteries: seq<Battery>)
    ensures Sum(batteries, (x: Battery) => x.voltage) == Sum(batteries, VOLTAGE)
    ensures Sum(batteries, (x: Battery) => x.current) == Sum(batteries, CURRENT)
    ensures Sum(batteries, (x: Battery) => x.soc as real) == Sum(batteries, SOC)
    ensures Sum(batteries, (x: Battery) => x.power) == Sum(batteries, POWER)
  {
    SameMeasureSum(batteries, (x: Battery) => x.voltage, VOLTAGE);
    SameMeasureSum(batteries, (x: Battery) => x.current, CURRENT);
    SameMeasureSum(batteries, (x: Battery) => x.soc as real, SOC);
    SameMeasureSum(batteries, (x: Battery) => x.power, POWER);
  }

  /** Without a battery there is nothing to add up or to divide by. */
  lemma TotalsOfNone()
    ensures AggregatePwr([]) == Totals(0.0, 0.0, 0.0, 0.0)
  {
  }

  lemma TotalsAre(batteries: seq<Battery>)
    requires batteries != []
    ensures TotalsFit(batteries, AggregatePwr(batteries))
  {
    hide Round, Sum, Mean, MeanFits;
    var n := |batteries|;
    MeasuresAre(batteries);
    Hundredths(Mean(Sum(batteries, VOLTAGE), n));
    Hundredths(Sum(batteries, CURRENT));
    Tenths(Mean(Sum(batteries, SOC), n));
    Tenths(Sum(batteries, POWER));
    MeanRounds(AggregatePwr(batteries).voltage, Sum(batteries, VOLTAGE), n, 0.005);
    MeanRounds(AggregatePwr(batteries).soc, Sum(batteries, SOC), n, 0.05);
  }
}
