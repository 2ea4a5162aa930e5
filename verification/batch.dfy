/** `calculate_batch`: every merged row through the engine, in order, with
    the engine's own errors skipped and any other error ending the batch. */
module Batch {
  import opened Values
  import opened Calculator

  type Outcome = Result<IndicatorRow, CalcError>

  /** An outcome that ends the batch: an error `calculate_batch` does not
      catch. */
  predicate Fatal(o: Outcome)
  {
    o.Failure? && !Skipped(o.error)
  }

  /** What the engine gives for each row, in row order. */
  function Outcomes(rows: seq<Row>, frame: Frame, power: (real, real) -> real): (os: seq<Outcome>)
    ensures |os| == |rows|
    ensures forall k :: 0 <= k < |rows| ==> os[k] == Indicators(rows[k], frame, power)
  {
    seq(|rows|, k requires 0 <= k < |rows| => Indicators(rows[k], frame, power))
  }

  /** One pass of the loop of `calculate_batch`: a success is appended, a
      skipped error is passed over, any other error escapes, and once an
      error has escaped nothing more happens. */
  function Step(acc: Result<seq<IndicatorRow>, CalcError>, o: Outcome): Result<seq<IndicatorRow>, CalcError>
  {
    match acc
    case Failure(e) => Failure(e)
    case Success(ms) =>
      if o.Success? then Success(ms + [o.value])
      else if Skipped(o.error) then Success(ms)
      else Failure(o.error)
  }

  /** The loop of `calculate_batch` over the outcomes, in order. */
  function Collect(os: seq<Outcome>): Result<seq<IndicatorRow>, CalcError>
  {
    if |os| == 0 then Success([]) else Step(Collect(os[..|os| - 1]), os[|os| - 1])
  }

  /** The batch over one more outcome is one more pass of the loop. */
  lemma CollectPrefix(os: seq<Outcome>, i: nat)
    requires i < |os|
    ensures Collect(os[..i + 1]) == Step(Collect(os[..i]), os[i])
  {
    assert os[..i + 1][..i] == os[..i];
  }

  /** The successful outcomes, in order: the reference the batch is
      compared with. */
  function Successes(os: seq<Outcome>): (ms: seq<IndicatorRow>)
    ensures |ms| <= |os|
  {
    if |os| == 0 then []
    else (if os[0].Success? then [os[0].value] else []) + Successes(os[1..])
  }

  /** `calculate_batch`. */
  method CalculateBatch(rows: seq<Row>, frame: Frame, power: (real, real) -> real)
    returns (r: Result<seq<IndicatorRow>, CalcError>)
    ensures r == Collect(Outcomes(rows, frame, power))
  {
    ghost var os := Outcomes(rows, frame, power);
    var results: seq<IndicatorRow> := [];
    var i := 0;
    while i < |rows|
      invariant 0 <= i <= |rows|
      invariant Collect(os[..i]) == Success(results)
    {
      var outcome := CalculateForRow(rows[i], frame, power);
      CollectPrefix(os, i);
      if outcome.Success? {
        results := results + [outcome.value];
      } else if !Skipped(outcome.error) {
        CollectStopsAtFatal(os, i + 1);
        return Failure(outcome.error);
      }
      i := i + 1;
    }
    assert os[..|rows|] == os;
    r := Success(results);
  }

  // ---------------------------------------------------------------------
  // Properties

  /** Once a prefix has failed, the batch fails with the same error. */
  lemma {:induction false} CollectStopsAtFatal(os: seq<Outcome>, i: nat)
    requires i <= |os| && Collect(os[..i]).Failure?
    ensures Collect(os) == Collect(os[..i])
  {
    if i < |os| {
      var init := os[..|os| - 1];
      assert init[..i] == os[..i];
      CollectStopsAtFatal(init, i);
      assert os[..|os|] == os;
    } else {
      assert os[..i] == os;
    }
  }

  /** The batch succeeds exactly when no outcome is an uncaught error, and
      then it holds exactly the successful results, in input order. */
  lemma {:induction false} CollectSuccess(os: seq<Outcome>)
    ensures Collect(os).Success? <==> forall k :: 0 <= k < |os| ==> !Fatal(os[k])
    ensures Collect(os).Success? ==> Collect(os).value == Successes(os)
  {
    if |os| > 0 {
      var init := os[..|os| - 1];
      CollectSuccess(init);
      assert forall k :: 0 <= k < |init| ==> init[k] == os[k];
      SuccessesSnoc(init, os[|os| - 1]);
      assert init + [os[|os| - 1]] == os;
    }
  }

  /** Successes of a list extended at the end. */
  lemma {:induction false} SuccessesSnoc(os: seq<Outcome>, o: Outcome)
    ensures Successes(os + [o]) == Successes(os) + (if o.Success? then [o.value] else [])
  {
    if |os| > 0 {
      assert (os + [o])[1..] == os[1..] + [o];
      SuccessesSnoc(os[1..], o);
    } else {
      assert [o][1..] == [];
    }
  }

  /** A failed batch reports the first uncaught error. */
  lemma {:induction false} CollectFirstFatal(os: seq<Outcome>)
    ensures Collect(os).Failure? ==>
              exists k :: 0 <= k < |os| && Fatal(os[k]) && os[k].error == Collect(os).error
                          && forall j :: 0 <= j < k ==> !Fatal(os[j])
  {
    if |os| > 0 {
      var init := os[..|os| - 1];
      CollectFirstFatal(init);
      CollectSuccess(init);
      assert forall k :: 0 <= k < |init| ==> init[k] == os[k];
    }
  }

  /** A successful batch never holds more results than there are rows. */
  lemma BatchLength(rows: seq<Row>, frame: Frame, power: (real, real) -> real)
    ensures var r := Collect(Outcomes(rows, frame, power));
            r.Success? ==> |r.value| <= |rows|
  {
    CollectSuccess(Outcomes(rows, frame, power));
  }

  /** Every result is the engine's result for one of the rows. */
  lemma {:induction false} SuccessesFromOutcomes(os: seq<Outcome>, m: IndicatorRow)
    requires m in Successes(os)
    ensures exists k :: 0 <= k < |os| && os[k] == Success(m)
  {
    if os[0].Success? && m == os[0].value {
    } else {
      SuccessesFromOutcomes(os[1..], m);
      var k :| 0 <= k < |os[1..]| && os[1..][k] == Success(m);
      assert os[k + 1] == Success(m);
    }
  }

  /** When every row succeeds, the batch holds one result per row, each the
      engine's result for that row. */
  lemma {:induction false} AllSucceed(os: seq<Outcome>)
    requires forall k :: 0 <= k < |os| ==> os[k].Success?
    ensures Successes(os) == seq(|os|, k requires 0 <= k < |os| => os[k].value)
  {
    if |os| > 0 {
      assert forall k :: 0 <= k < |os[1..]| ==> os[1..][k] == os[k + 1];
      AllSucceed(os[1..]);
    }
  }

  // ---------------------------------------------------------------------
  // A historical frame with no rows

  /** The outcomes as the engine is written. */
  function OutcomesAsWritten(rows: seq<Row>, frame: Frame, power: (real, real) -> real): (os: seq<Outcome>)
    ensures |os| == |rows|
    ensures forall k :: 0 <= k < |rows| ==> os[k] == IndicatorsAsWritten(rows[k], frame, power)
  {
    seq(|rows|, k requires 0 <= k < |rows| => IndicatorsAsWritten(rows[k], frame, power))
  }

  /** As written, a frame with no rows ends the batch with KeyError at the
      first row that has a ticker, before any row's indicators are
      returned. */
  lemma EmptyFrameAbortsBatch(rows: seq<Row>, power: (real, real) -> real, k: nat)
    requires k < |rows| && TickerOf(rows[k]) != ""
    requires forall j :: 0 <= j < k ==> TickerOf(rows[j]) == ""
    ensures Collect(OutcomesAsWritten(rows, [], power)) == Failure(KeyError("date"))
  {
    var os := OutcomesAsWritten(rows, [], power);
    CollectFirstFatal(os);
    CollectSuccess(os);
    assert Fatal(os[k]);
    if Collect(os).Failure? {
      var i :| 0 <= i < |os| && Fatal(os[i]) && os[i].error == Collect(os).error
               && forall j :: 0 <= j < i ==> !Fatal(os[j]);
      assert i == k;
    }
  }

  /** With an empty frame, a row with a ticker and its own parseable price
      is computed over an empty history. */
  lemma EmptyFrameRow(row: Row, power: (real, real) -> real)
    requires TickerOf(row) != "" && ToFloat(Get(row, "stock_price")).Some?
    ensures Indicators(row, [], power).Success?
  {
    assert PriceColumn([], TickerOf(row)) == [];
  }

  /** With an empty frame, rows that each carry a parseable price all get
      indicators, or are skipped for a blank ticker. */
  lemma EmptyFrameBatch(rows: seq<Row>, power: (real, real) -> real)
    requires forall k :: 0 <= k < |rows| ==> ToFloat(Get(rows[k], "stock_price")).Some?
    ensures Collect(Outcomes(rows, [], power)).Success?
  {
    var os := Outcomes(rows, [], power);
    forall k | 0 <= k < |os| ensures !Fatal(os[k]) {
      if TickerOf(rows[k]) != "" { EmptyFrameRow(rows[k], power); }
    }
    CollectSuccess(os);
  }
}
