/** The measurement table: one row per line of a per-voltage file, the
    derived normalised output column, and the concatenation of the files
    into the single table the regime fits read. */
module Measurements {

  /** One measured line of a voltage file, columns named as after
      `set_axis`: PWM, RPM, Current, Voltage, Power, Force, Efficiency. */
  datatype Reading = Reading(pwm: real, rpm: real, current: real, voltage: real,
                             power: real, force: real, efficiency: real)

  /** A table row: the readings, the derived `Output` column, and the index
      label the row carries in its data frame. */
  datatype Row = Row(index: nat, pwm: real, rpm: real, current: real, voltage: real,
                     power: real, force: real, efficiency: real, output: real)

  type Table = seq<Row>

  /** The columns a fit can name. */
  datatype Column = Pwm | Rpm | Current | Voltage | Power | Force | Efficiency | Output

  function Field(r: Row, c: Column): real
  {
    match c
    case Pwm => r.pwm
    case Rpm => r.rpm
    case Current => r.current
    case Voltage => r.voltage
    case Power => r.power
    case Force => r.force
    case Efficiency => r.efficiency
    case Output => r.output
  }

  /** `table[c].to_numpy()`: one column, in row order. */
  function ColumnValues(t: Table, c: Column): (v: seq<real>)
    ensures |v| == |t|
    ensures forall i :: 0 <= i < |t| ==> v[i] == Field(t[i], c)
  {
    seq(|t|, i requires 0 <= i < |t| => Field(t[i], c))
  }

  /** Pulse width at the neutral (zero-thrust) command. */
  const NeutralPwm: real := 1500.0
  /** Pulse-width distance from neutral to full command. */
  const PwmSpan: real := 400.0

  /** The derived `Output` column: the pulse width rescaled so that neutral
      is 0 and full reverse / full forward are -1 / 1. `PwmOf` undoes it. */
  function NormalizedOutput(pwm: real): (o: real)
    ensures PwmOf(o) == pwm
  {
    (pwm - NeutralPwm) / PwmSpan
  }

  /** Pulse width for a normalised output. */
  function PwmOf(o: real): (pwm: real)
  {
    NeutralPwm + PwmSpan * o
  }

  lemma NormalizedOutputInverse(o: real)
    ensures NormalizedOutput(PwmOf(o)) == o
  {
  }

  lemma NormalizedOutputLandmarks()
    ensures NormalizedOutput(1500.0) == 0.0
    ensures NormalizedOutput(1100.0) == -1.0
    ensures NormalizedOutput(1900.0) == 1.0
  {
  }

  lemma NormalizedOutputStrictlyIncreasing(p: real, q: real)
    ensures p < q <==> NormalizedOutput(p) < NormalizedOutput(q)
  {
  }

  /** The pulse widths from full reverse to full forward are exactly those
      whose normalised output lies in [-1, 1]. */
  lemma NormalizedOutputRange(pwm: real)
    ensures 1100.0 <= pwm <= 1900.0 <==> -1.0 <= NormalizedOutput(pwm) <= 1.0
  {
  }

  /** One voltage file read into a data frame: rows get the default labels
      0, 1, 2, ... and the derived `Output` column is added. */
  function LoadFile(readings: seq<Reading>): (t: Table)
    ensures |t| == |readings|
    ensures forall i :: 0 <= i < |t| ==> FromReading(t[i], readings[i], i)
  {
    seq(|readings|, i requires 0 <= i < |readings| =>
      var d := readings[i];
      Row(i, d.pwm, d.rpm, d.current, d.voltage, d.power, d.force, d.efficiency,
          NormalizedOutput(d.pwm)))
  }

  /** Row `r` holds reading `d` under index label `index`, with the normalised
      output of its pulse width. */
  predicate FromReading(r: Row, d: Reading, index: nat)
  {
    && r.index == index
    && r.pwm == d.pwm && r.rpm == d.rpm && r.current == d.current && r.voltage == d.voltage
    && r.power == d.power && r.force == d.force && r.efficiency == d.efficiency
    && NormalizedOutput(r.pwm) == r.output
  }

  /** Total number of readings over all files. */
  function TotalLength(files: seq<seq<Reading>>): nat
  {
    if |files| == 0 then 0 else TotalLength(files[..|files| - 1]) + |files[|files| - 1]|
  }

  /** `pd.concat` of the loaded files, without `ignore_index`: every file
      keeps its own labels, so reading `k` of every file carries label `k`. */
  function Concat(files: seq<seq<Reading>>): (t: Table)
    ensures |t| == TotalLength(files)
  {
    if |files| == 0 then [] else Concat(files[..|files| - 1]) + LoadFile(files[|files| - 1])
  }

  /** Position of reading `k` of file `f` in the concatenated table. */
  function Offset(files: seq<seq<Reading>>, f: nat): nat
    requires f <= |files|
  {
    TotalLength(files[..f])
  }

  /** Reading `k` of file `f` sits at `Offset(files, f) + k` of the
      concatenation, under label `k`. */
  lemma {:induction false} ConcatLayout(files: seq<seq<Reading>>, f: nat, k: nat)
    requires f < |files| && k < |files[f]|
    ensures Offset(files, f) + k < |Concat(files)|
    ensures FromReading(Concat(files)[Offset(files, f) + k], files[f][k], k)
  {
    var n := |files| - 1;
    var init := files[..n];
    assert files[..n + 1] == files;
    if f == n {
      assert init == files[..f];
    } else {
      assert init[..f] == files[..f];
      OffsetBound(init, f);
      ConcatLayout(init, f, k);
    }
  }

  lemma {:induction false} OffsetBound(files: seq<seq<Reading>>, f: nat)
    requires f < |files|
    ensures Offset(files, f) + |files[f]| <= TotalLength(files)
  {
    var n := |files| - 1;
    assert files[..n + 1] == files;
    if f < n {
      assert files[..n][..f] == files[..f];
      OffsetBound(files[..n], f);
    } else {
      assert files[..f] == files[..n];
    }
  }

  /** Reading `k` of two different files lands at two different positions
      of the concatenation under the same label `k`: with two or more
      non-empty files the labels are not unique. */
  lemma ConcatRepeatsLabels(files: seq<seq<Reading>>, f: nat, g: nat, k: nat)
    requires f < g < |files| && k < |files[f]| && k < |files[g]|
    ensures Offset(files, f) + k < Offset(files, g) + k < |Concat(files)|
    ensures Concat(files)[Offset(files, f) + k].index == k
    ensures Concat(files)[Offset(files, g) + k].index == k
    ensures !UniqueLabels(Concat(files))
  {
    ConcatLayout(files, f, k);
    ConcatLayout(files, g, k);
    var prefix := files[..g];
    assert prefix[..f] == files[..f];
    OffsetBound(prefix, f);
  }

  /** No two rows of the table share an index label. */
  predicate UniqueLabels(t: Table)
  {
    forall i, j :: 0 <= i < |t| && 0 <= j < |t| && t[i].index == t[j].index ==> i == j
  }

  /** `pd.concat(..., ignore_index=True)`: the same rows, relabelled by
      position in the concatenation. */
  function ConcatReindexed(files: seq<seq<Reading>>): (t: Table)
    ensures |t| == |Concat(files)|
    ensures UniqueLabels(t)
    ensures forall i :: 0 <= i < |t| ==> t[i] == Concat(files)[i].(index := i)
  {
    var c := Concat(files);
    seq(|c|, i requires 0 <= i < |c| => c[i].(index := i))
  }
}
