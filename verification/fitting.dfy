/** Surface fitting: build the design matrix from two named columns, hand
    it with a third column to a least-squares solver, and evaluate the
    returned coefficients at the sample points. The three regime fits
    (force from command, command from force, current from command) each
    do this once per regime. */
module Fitting {
  import opened Measurements
  import opened Basis
  import opened Surface
  import opened Regime

  /** The least-squares solve `np.linalg.lstsq(arr, out)[0]`, supplied by
      the caller: a design matrix and a target column in, ten coefficients
      out. Nothing is assumed about how it chooses them. */
  type Solver = (seq<seq<real>>, seq<real>) -> Coefficients

  /** A fitted surface: its coefficients and its values at the samples. */
  datatype Fit = Fit(coefficients: Coefficients, fitted: seq<real>)

  /** Reference design matrix, built row by row from the table. */
  function Design(t: Table, inA: Column, inB: Column): seq<seq<real>>
  {
    seq(|t|, i requires 0 <= i < |t| => Monomials(Field(t[i], inA), Field(t[i], inB)))
  }

  /** `f` is what fitting column `out` against columns `inA`, `inB` of `t`
      yields: the solver was given the cubic monomials of each row's inputs
      and each row's target, and `fitted` is the fitted polynomial's value at
      each row's inputs. */
  ghost predicate FittedOn(f: Fit, t: Table, inA: Column, inB: Column, out: Column, solve: Solver)
  {
    && f.coefficients == solve(Design(t, inA, inB), ColumnValues(t, out))
    && |f.fitted| == |t|
    && forall i :: 0 <= i < |t| ==>
         f.fitted[i] == Value(Field(t[i], inA), Field(t[i], inB), f.coefficients)
  }

  /** `fit_table(table, input_a, input_b, output)`, returning the fitted
      values it plots alongside the coefficients it returns. */
  function FitTable(t: Table, inA: Column, inB: Column, out: Column, solve: Solver): (f: Fit)
    ensures FittedOn(f, t, inA, inB, out, solve)
  {
    var a, b, y := ColumnValues(t, inA), ColumnValues(t, inB), ColumnValues(t, out);
    var arr := MakeMatrix(a, b);
    assert arr == Design(t, inA, inB);
    var fit := solve(arr, y);
    assert Evaluate(arr, fit) == EvaluateAt(a, b, fit);
    Fit(fit, Evaluate(arr, fit))
  }

  /** One fit per force regime. */
  datatype RegimeFits = RegimeFits(forward: Fit, backward: Fit)

  /** Both regimes fitted with the same columns. The forward fit is fitted on
      the forward regime's rows, all of positive force; the backward fit on
      the backward regime's rows, all of negative force. */
  function FitRegimes(t: Table, inA: Column, inB: Column, out: Column, solve: Solver): (r: RegimeFits)
    ensures FittedOn(r.forward, Forward(t), inA, inB, out, solve)
    ensures FittedOn(r.backward, Backward(t), inA, inB, out, solve)
    ensures forall i :: 0 <= i < |Forward(t)| ==> Forward(t)[i].force > 0.0
    ensures forall i :: 0 <= i < |Backward(t)| ==> Backward(t)[i].force < 0.0
  {
    RegimeFits(FitTable(Forward(t), inA, inB, out, solve),
               FitTable(Backward(t), inA, inB, out, solve))
  }

  /** `force_forward`: force as a surface over (normalised output, voltage). */
  function ForceForward(t: Table, solve: Solver): (r: RegimeFits)
    ensures FittedOn(r.forward, Forward(t), Output, Voltage, Force, solve)
    ensures FittedOn(r.backward, Backward(t), Output, Voltage, Force, solve)
  {
    FitRegimes(t, Output, Voltage, Force, solve)
  }

  /** `force_inverse`: normalised output as a surface over (force, voltage).
      Each surface is sampled only at forces of its own sign. */
  function ForceInverse(t: Table, solve: Solver): (r: RegimeFits)
    ensures FittedOn(r.forward, Forward(t), Force, Voltage, Output, solve)
    ensures FittedOn(r.backward, Backward(t), Force, Voltage, Output, solve)
    ensures forall i :: 0 <= i < |Forward(t)| ==> Forward(t)[i].force > 0.0
    ensures forall i :: 0 <= i < |Backward(t)| ==> Backward(t)[i].force < 0.0
  {
    FitRegimes(t, Force, Voltage, Output, solve)
  }

  /** `current_forward`: current as a surface over (normalised output,
      voltage), split by the sign of the force, not of the current. */
  function CurrentForward(t: Table, solve: Solver): (r: RegimeFits)
    ensures FittedOn(r.forward, Forward(t), Output, Voltage, Current, solve)
    ensures FittedOn(r.backward, Backward(t), Output, Voltage, Current, solve)
  {
    FitRegimes(t, Output, Voltage, Current, solve)
  }

  /** The three regime fits of a run over all voltage files. */
  datatype Report = Report(forceForward: RegimeFits, forceInverse: RegimeFits, current: RegimeFits)

  /** The fitting run over the per-voltage files, with the files
      concatenated under fresh labels: every forward fit is then fitted on
      exactly the positive-force rows and every backward fit on exactly the
      negative-force rows. */
  function FitVoltageFiles(files: seq<seq<Reading>>, solve: Solver): (r: Report)
    ensures var t := ConcatReindexed(files);
      && FittedOn(r.forceForward.forward, Positive(t), Output, Voltage, Force, solve)
      && FittedOn(r.forceForward.backward, Negative(t), Output, Voltage, Force, solve)
      && FittedOn(r.forceInverse.forward, Positive(t), Force, Voltage, Output, solve)
      && FittedOn(r.forceInverse.backward, Negative(t), Force, Voltage, Output, solve)
      && FittedOn(r.current.forward, Positive(t), Output, Voltage, Current, solve)
      && FittedOn(r.current.backward, Negative(t), Output, Voltage, Current, solve)
  {
    var t := ConcatReindexed(files);
    RegimesWithUniqueLabels(t);
    Report(ForceForward(t, solve), ForceInverse(t, solve), CurrentForward(t, solve))
  }

  /** With the files concatenated as they are, keeping each file's labels,
      one pushing reading and one pulling reading in two files end up in
      no fit at all: both forward and backward fits see an empty table. */
  lemma ConcatWithFileLabelsLosesRows(push: Reading, pull: Reading, solve: Solver)
    requires push.force > 0.0 && pull.force < 0.0
    ensures var t := Concat([[push], [pull]]);
      && |Positive(t)| == 1 && |Negative(t)| == 1
      && Forward(t) == [] && Backward(t) == []
      && FittedOn(ForceForward(t, solve).forward, [], Output, Voltage, Force, solve)
      && FittedOn(ForceForward(t, solve).backward, [], Output, Voltage, Force, solve)
  {
    var t := Concat([[push], [pull]]);
    TwoSingleFiles(push, pull);
    var a, b := t[0], t[1];
    assert t == [a, b];
    SharedLabelEmptiesBothRegimes(a, b);
    var r := ForceForward(t, solve);
    assert FittedOn(r.forward, Forward(t), Output, Voltage, Force, solve);
    assert FittedOn(r.backward, Backward(t), Output, Voltage, Force, solve);
  }

  lemma TwoSingleFiles(push: Reading, pull: Reading)
    ensures var t := Concat([[push], [pull]]);
      && |t| == 2
      && t[0].index == 0 && t[0].force == push.force
      && t[1].index == 0 && t[1].force == pull.force
  {
    var files := [[push], [pull]];
    assert files[..1] == [[push]];
    assert [[push]][..0] == [];
    assert Concat([[push]]) == LoadFile([push]);
    assert Concat(files) == LoadFile([push]) + LoadFile([pull]);
  }
}
