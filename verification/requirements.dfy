/** `unavailable_requirements`: the missing-data explanation of every
    indicator the feasibility analysis found not calculable. */
module Requirements {
  import opened Registry
  import opened Feasibility

  /** Whether a record is one the explanation reports. */
  predicate Reported(r: FeasibilityRecord)
  {
    r.status == NotCalculable
  }

  /** The explanation built over the records in order: a later record for
      the same indicator overwrites an earlier one. */
  function Unavailable(records: seq<FeasibilityRecord>): map<string, seq<string>>
  {
    if |records| == 0 then map[]
    else
      var m := Unavailable(records[..|records| - 1]);
      var r := records[|records| - 1];
      if Reported(r) then m[r.indicator := r.missingData] else m
  }

  /** `unavailable_requirements`. */
  method UnavailableRequirements(records: seq<FeasibilityRecord>) returns (missing: map<string, seq<string>>)
    ensures missing == Unavailable(records)
  {
    missing := map[];
    var i := 0;
    while i < |records|
      invariant 0 <= i <= |records|
      invariant missing == Unavailable(records[..i])
    {
      assert records[..i + 1][..i] == records[..i];
      var record := records[i];
      if record.status == NotCalculable {
        missing := missing[record.indicator := record.missingData];
      }
      i := i + 1;
    }
    assert records[..|records|] == records;
  }

  /** The keys are exactly the indicators of the not-calculable records. */
  lemma {:induction false} UnavailableKeys(records: seq<FeasibilityRecord>, k: string)
    ensures k in Unavailable(records) <==>
            exists i :: 0 <= i < |records| && records[i].indicator == k && Reported(records[i])
  {
    if |records| > 0 {
      var init := records[..|records| - 1];
      UnavailableKeys(init, k);
      assert forall i :: 0 <= i < |init| ==> init[i] == records[i];
    }
  }

  /** Each key maps to the missing data of the last not-calculable record
      for that indicator. */
  lemma {:induction false} UnavailableLastWins(records: seq<FeasibilityRecord>, k: string)
    requires k in Unavailable(records)
    ensures exists i :: && 0 <= i < |records| && records[i].indicator == k && Reported(records[i])
                        && Unavailable(records)[k] == records[i].missingData
                        && forall j :: i < j < |records| ==> !(records[j].indicator == k && Reported(records[j]))
  {
    var init := records[..|records| - 1];
    var r := records[|records| - 1];
    if !(Reported(r) && r.indicator == k) {
      UnavailableLastWins(init, k);
      var i :| && 0 <= i < |init| && init[i].indicator == k && Reported(init[i])
               && Unavailable(init)[k] == init[i].missingData
               && forall j :: i < j < |init| ==> !(init[j].indicator == k && Reported(init[j]));
      assert Unavailable(records)[k] == Unavailable(init)[k];
      assert records[i] == init[i];
      assert forall j :: i < j < |init| ==> init[j] == records[j];
    } else {
      assert Unavailable(records)[k] == records[|records| - 1].missingData;
    }
  }

  /** Over the records of a feasibility analysis, the explanation lists
      exactly the indicators missing from the requirements table, each
      with the fixed note. */
  lemma UnavailableFromAnalysis(t: Tables, indicators: seq<IndicatorDefinition>,
                                records: seq<FeasibilityRecord>, k: string)
    requires |records| == |indicators|
    requires forall i :: 0 <= i < |indicators| ==> records[i] == Assess(t, indicators[i])
    ensures k in Unavailable(records) <==>
            exists i :: 0 <= i < |indicators| && indicators[i].name == k && k !in t.requirements
    ensures k in Unavailable(records) ==> Unavailable(records)[k] == [UnmappedMissing]
  {
    UnavailableKeys(records, k);
    if k in Unavailable(records) {
      UnavailableLastWins(records, k);
    }
  }
}
