/**
  `analyze_values`: one finding per reading whose parameter is in the
  reference table, in the readings' order, followed by the composite
  findings (the Rule of Threes, the anemia evaluation and the possible
  primary immunodeficiency), and the filter the report applies to keep
  everything that is not normal.
 */
module Analysis {
  import opened Common
  import opened Dict
  import opened ReferenceRanges

  datatype Status = Normal | Low | High | Abnormal

  /** The report's value column holds the reading, or a label for composite findings. */
  datatype Shown = Number(x: real) | Label(text: string)

  datatype Finding = Finding(parameter: string, value: Shown, unit: string, status: Status, suggestion: string)

  /** Below the minimum is low, else above the maximum is high, else normal. */
  function Classify(v: real, r: Range): (s: Status)
    ensures s == Low <==> v < r.min
    ensures s == High <==> r.min <= v && r.max < v
    ensures s == Normal <==> r.min <= v <= r.max
  {
    if v < r.min then Low else if v > r.max then High else Normal
  }

  const RBC_LOW := "Possible anemia. Evaluate with MCV classification (microcytic, normocytic, macrocytic). Refer to 'Diagnostic approach to anemia in adults' or 'Approach to the child with anemia'. Consider reticulocyte count for production vs. loss/destruction."
  const PLATELETS_LOW := "Thrombocytopenia. Refer to 'Approach to the child with unexplained thrombocytopenia' or 'Diagnostic approach to thrombocytopenia in adults'."
  const WBC_LOW := "Neutropenia or lymphopenia possible. Refer to 'Evaluation of neutropenia in children and adolescents' or 'Approach to the adult with unexplained neutropenia'. If low lymphocytes, consider primary immunodeficiency disorders (PID): Check absolute lymphocyte count (ALC); low ALC suggests T-cell disorder."
  const NEUTROPHILS_LOW := "Neutropenia: Increased infection risk. Evaluate for phagocytic disorders or PID. Series of CBCs needed for confirmation."
  const LYMPHOCYTES_LOW := "Lymphopenia: Possible T-cell deficiency. In PID, low ALC on CBC prompts further immunoglobulin and complement testing."
  const RBC_HIGH := "Erythrocytosis/polycythemia. Refer to 'Diagnostic approach to the patient with erythrocytosis/polycythemia'."
  const PLATELETS_HIGH := "Thrombocytosis. Refer to 'Approach to the patient with thrombocytosis'."
  const WBC_HIGH := "Neutrophilia or leukocytosis. Refer to 'Approach to the patient with neutrophilia'. Check for infection, inflammation, or malignancy. Review peripheral smear for left shift."
  const NEUTROPHILS_HIGH := "Neutrophilia (>7.7 x10^9/L). Evaluate CBC with differential and smear. Causes: Infection, stress, malignancy. If persistent, consider bone marrow biopsy."
  const WITHIN_RANGE := "Within normal range."
  const LOW_OPENING := "Low "
  const HIGH_OPENING := "High "
  const GENERIC_CLOSING := ". Investigate further."

  /** The parameters with their own advice when low, and when high. */
  const CURATED_LOW: set<string> := {"RBC", "Platelets", "WBC", "Neutrophils", "Lymphocytes"}
  const CURATED_HIGH: set<string> := {"RBC", "Platelets", "WBC", "Neutrophils"}

  /** The advice for a reading of `param` with the given status. */
  function Suggestion(param: string, status: Status): string {
    match status
    case Low =>
      if param == "RBC" then RBC_LOW
      else if param == "Platelets" then PLATELETS_LOW
      else if param == "WBC" then WBC_LOW
      else if param == "Neutrophils" then NEUTROPHILS_LOW
      else if param == "Lymphocytes" then LYMPHOCYTES_LOW
      else LOW_OPENING + param + GENERIC_CLOSING
    case High =>
      if param == "RBC" then RBC_HIGH
      else if param == "Platelets" then PLATELETS_HIGH
      else if param == "WBC" then WBC_HIGH
      else if param == "Neutrophils" then NEUTROPHILS_HIGH
      else HIGH_OPENING + param + GENERIC_CLOSING
    case _ => WITHIN_RANGE
  }

  /** The row for a reading `v` of `param`, whose table entry is `r`. */
  function FindingOf(param: string, v: real, r: Range): (f: Finding)
    ensures f.status != Abnormal
  {
    var status := Classify(v, r);
    Finding(r.desc, Number(v), r.unit, status, Suggestion(param, status))
  }

  /** The per-parameter rows for the readings, in order, skipping parameters outside `table`. */
  function ParamFindings(table: Dict<Range>, values: Dict<real>): (fs: seq<Finding>)
    ensures |fs| <= |values|
    ensures forall f :: f in fs ==> f.status != Abnormal
  {
    if values == [] then []
    else
      var (param, v) := values[|values| - 1];
      ParamFindings(table, values[..|values| - 1])
      + (match Lookup(table, param) case Some(r) => [FindingOf(param, v, r)] case None => [])
  }

  function Abs(x: real): (a: real)
    ensures a >= 0.0 && (a == x || a == -x)
  {
    if x < 0.0 then -x else x
  }

  const RULE_OF_THREES := Finding("Rule of Threes", Label("Violated"), "", Abnormal,
    "Results may be spurious or indicate a true hematologic condition. Recommend blood smear evaluation.")

  /** Hb is within 1 of 3 x RBC and HCT within 3 of 3 x Hb. */
  predicate ThreesAgree(rbc: real, hb: real, hct: real) {
    Abs(3.0 * rbc - hb) < 1.0 && Abs(3.0 * hb - hct) < 3.0
  }

  /** Present readings of RBC, hemoglobin and hematocrit that break the Rule of Threes. */
  function RuleOfThrees(values: Dict<real>): (fs: seq<Finding>)
    ensures |fs| <= 1 && forall f :: f in fs ==> f.status == Abnormal
  {
    var rbc, hb, hct := Lookup(values, "RBC"), Lookup(values, "Hemoglobin"), Lookup(values, "Hematocrit");
    if rbc.Some? && hb.Some? && hct.Some? && !ThreesAgree(rbc.value, hb.value, hct.value)
    then [RULE_OF_THREES]
    else []
  }

  const MICROCYTIC := "Microcytic: Possible iron deficiency or thalassemia."
  const MACROCYTIC := "Macrocytic: Possible B12/folate deficiency."
  const NORMOCYTIC := "Normocytic: Possible chronic disease or hemolysis."

  /** The red-cell size class named by MCV, or nothing when MCV is missing. */
  function AnemiaType(values: Dict<real>): (t: string)
  {
    match Lookup(values, "MCV")
    case None => ""
    case Some(mcv) =>
      if mcv < 80.0 then MICROCYTIC else if mcv > 100.0 then MACROCYTIC else NORMOCYTIC
  }

  const ANEMIA_OPENING := "Low Hb indicates anemia. "
  const ANEMIA_CLOSING := " Use reticulocyte count to assess production. Peripheral smear for morphology."

  /** The anemia row, its advice naming the size class between a fixed opening and closing. */
  function AnemiaFinding(anemiaType: string): Finding {
    Finding("Anemia Evaluation", Label(""), "", Abnormal, ANEMIA_OPENING + anemiaType + ANEMIA_CLOSING)
  }

  /** A low hemoglobin reading calls for the anemia evaluation. */
  function AnemiaEvaluation(values: Dict<real>): (fs: seq<Finding>)
    ensures |fs| <= 1 && forall f :: f in fs ==> f.status == Abnormal
  {
    match Lookup(values, "Hemoglobin")
    case Some(hb) =>
      if hb < HEMOGLOBIN_MIN
      then [AnemiaFinding(AnemiaType(values))]
      else []
    case None => []
  }

  const PID := Finding("Possible PID", Label(""), "", Abnormal,
    "Low lymphocytes: Consider primary immunodeficiency. Initial tests: CBC with ALC, immunoglobulins, complement. If low ALC, evaluate T-cell function.")

  /** A low lymphocyte reading suggests a primary immunodeficiency. */
  function PossiblePid(values: Dict<real>): (fs: seq<Finding>)
    ensures |fs| <= 1 && forall f :: f in fs ==> f.status == Abnormal
  {
    match Lookup(values, "Lymphocytes")
    case Some(lym) => if lym < LYMPHOCYTES_MIN then [PID] else []
    case None => []
  }

  function Composites(values: Dict<real>): (fs: seq<Finding>)
    ensures |fs| <= 3
    ensures forall f :: f in fs ==> f.status == Abnormal
  {
    RuleOfThrees(values) + AnemiaEvaluation(values) + PossiblePid(values)
  }

  /** What `analyze_values` returns. */
  function Analysis(values: Dict<real>): (fs: seq<Finding>)
  {
    ParamFindings(NORMAL_RANGES, values) + RuleOfThrees(values) + AnemiaEvaluation(values) + PossiblePid(values)
  }

  /** The loop of `analyze_values` over the readings: one row per reading whose parameter is in the table. */
  method ParamRows(values: Dict<real>) returns (rows: seq<Finding>)
    ensures rows == ParamFindings(NORMAL_RANGES, values)
  {
    rows := [];
    var i := 0;
    while i < |values|
      invariant 0 <= i <= |values|
      invariant rows == ParamFindings(NORMAL_RANGES, values[..i])
    {
      var (param, v) := values[i];
      assert values[..i + 1][..i] == values[..i];
      var range := RangeOf(param);
      if range.Some? {
        var r := range.value;
        var status;
        if v < r.min {
          status := Low;
        } else if v > r.max {
          status := High;
        } else {
          status := Normal;
        }
        rows := rows + [Finding(r.desc, Number(v), r.unit, status, Suggestion(param, status))];
      }
      i := i + 1;
    }
    assert values[..i] == values;
  }

  /** `analyze_values(values)`: the per-parameter rows, then the composite rows in a fixed order. */
  method AnalyzeValues(values: Dict<real>) returns (analysis: seq<Finding>)
    ensures analysis == Analysis(values)
  {
    analysis := ParamRows(values);
    ghost var paramFindings := analysis;

    var rbc, hb, hct := Lookup(values, "RBC"), Lookup(values, "Hemoglobin"), Lookup(values, "Hematocrit");
    if rbc.Some? && hb.Some? && hct.Some? {
      if !ThreesAgree(rbc.value, hb.value, hct.value) {
        analysis := analysis + [RULE_OF_THREES];
      }
    }
    assert analysis == paramFindings + RuleOfThrees(values);

    if hb.Some? && hb.value < HEMOGLOBIN_MIN {
      var anemiaType := "";
      var mcv := Lookup(values, "MCV");
      if mcv.Some? {
        if mcv.value < 80.0 {
          anemiaType := MICROCYTIC;
        } else if mcv.value > 100.0 {
          anemiaType := MACROCYTIC;
        } else {
          anemiaType := NORMOCYTIC;
        }
      }
      assert anemiaType == AnemiaType(values);
      analysis := analysis + [AnemiaFinding(anemiaType)];
    }
    assert analysis == paramFindings + RuleOfThrees(values) + AnemiaEvaluation(values);

    var lym := Lookup(values, "Lymphocytes");
    if lym.Some? && lym.value < LYMPHOCYTES_MIN {
      analysis := analysis + [PID];
    }
    assert analysis == paramFindings + RuleOfThrees(values) + AnemiaEvaluation(values) + PossiblePid(values);
  }

  /** Every reading whose parameter is in the table has its row. */
  lemma {:induction false} ParamFindingsCover(table: Dict<Range>, values: Dict<real>, i: nat)
    requires i < |values| && Lookup(table, values[i].0).Some?
    ensures FindingOf(values[i].0, values[i].1, Lookup(table, values[i].0).value) in ParamFindings(table, values)
    decreases |values|
  {
    var n := |values| - 1;
    var (param, v) := values[n];
    var last := match Lookup(table, param) case Some(r) => [FindingOf(param, v, r)] case None => [];
    assert ParamFindings(table, values) == ParamFindings(table, values[..n]) + last;
    if i < n {
      assert values[..n][i] == values[i];
      ParamFindingsCover(table, values[..n], i);
    } else {
      assert last[0] in ParamFindings(table, values);
    }
  }

  /** Every row comes from a reading whose parameter is in the table. */
  lemma {:induction false} ParamFindingsSource(table: Dict<Range>, values: Dict<real>, f: Finding)
    requires f in ParamFindings(table, values)
    ensures exists i :: 0 <= i < |values| && Lookup(table, values[i].0).Some?
                        && f == FindingOf(values[i].0, values[i].1, Lookup(table, values[i].0).value)
    decreases |values|
  {
    var n := |values| - 1;
    if f in ParamFindings(table, values[..n]) {
      ParamFindingsSource(table, values[..n], f);
      var i :| 0 <= i < n && Lookup(table, values[..n][i].0).Some?
        && f == FindingOf(values[..n][i].0, values[..n][i].1, Lookup(table, values[..n][i].0).value);
      assert values[..n][i] == values[i];
    } else {
      assert Lookup(table, values[n].0).Some?;
    }
  }

  /** When every parameter is in the table, the rows are the readings, one for one and in order. */
  lemma {:induction false} ParamFindingsAllKnown(table: Dict<Range>, values: Dict<real>)
    requires forall e :: e in values ==> Lookup(table, e.0).Some?
    ensures |ParamFindings(table, values)| == |values|
    ensures forall i :: 0 <= i < |values| ==>
      ParamFindings(table, values)[i] == FindingOf(values[i].0, values[i].1, Lookup(table, values[i].0).value)
    decreases |values|
  {
    if values != [] {
      var n := |values| - 1;
      var (param, v) := values[n];
      assert values[n] in values;
      var r := Lookup(table, param).value;
      assert ParamFindings(table, values) == ParamFindings(table, values[..n]) + [FindingOf(param, v, r)];
      assert forall e :: e in values[..n] ==> e in values;
      ParamFindingsAllKnown(table, values[..n]);
      forall i | 0 <= i < n
        ensures ParamFindings(table, values)[i] == FindingOf(values[i].0, values[i].1, Lookup(table, values[i].0).value)
      {
        assert values[..n][i] == values[i];
      }
    }
  }

  /**
    A normal reading is "Within normal range."; RBC, platelets, WBC and
    neutrophils have their own advice when low and when high, lymphocytes
    only when low; any other low or high reading gets the generic advice
    naming the parameter's key.
   */
  lemma SuggestionMeaning(param: string, status: Status)
    ensures status == Normal ==> Suggestion(param, status) == WITHIN_RANGE
    ensures status == Low && param !in CURATED_LOW ==> Suggestion(param, status) == LOW_OPENING + param + GENERIC_CLOSING
    ensures status == High && param !in CURATED_HIGH ==> Suggestion(param, status) == HIGH_OPENING + param + GENERIC_CLOSING
    ensures status == Low && param == "RBC" ==> Suggestion(param, status) == RBC_LOW
    ensures status == Low && param == "Platelets" ==> Suggestion(param, status) == PLATELETS_LOW
    ensures status == Low && param == "WBC" ==> Suggestion(param, status) == WBC_LOW
    ensures status == Low && param == "Neutrophils" ==> Suggestion(param, status) == NEUTROPHILS_LOW
    ensures status == Low && param == "Lymphocytes" ==> Suggestion(param, status) == LYMPHOCYTES_LOW
    ensures status == High && param == "RBC" ==> Suggestion(param, status) == RBC_HIGH
    ensures status == High && param == "Platelets" ==> Suggestion(param, status) == PLATELETS_HIGH
    ensures status == High && param == "WBC" ==> Suggestion(param, status) == WBC_HIGH
    ensures status == High && param == "Neutrophils" ==> Suggestion(param, status) == NEUTROPHILS_HIGH
  {
  }

  /** The same, for readings whose parameters are all keys of `table`. */
  lemma ParamFindingsTableKeys(table: Dict<Range>, values: Dict<real>)
    requires forall e :: e in values ==> e.0 in Keys(table)
    ensures forall i :: 0 <= i < |values| ==> Lookup(table, values[i].0).Some?
    ensures |ParamFindings(table, values)| == |values|
    ensures forall i :: 0 <= i < |values| ==>
      ParamFindings(table, values)[i] == FindingOf(values[i].0, values[i].1, Lookup(table, values[i].0).value)
  {
    assert forall i :: 0 <= i < |values| ==> values[i] in values;
    forall e | e in values
      ensures Lookup(table, e.0).Some?
    {
      LookupSpec(table, e.0);
    }
    ParamFindingsAllKnown(table, values);
  }

  /** Low exactly below the minimum, high exactly above the maximum, normal otherwise. */
  lemma FindingStatus(param: string, v: real, r: Range)
    requires r.min <= r.max
    ensures FindingOf(param, v, r).status == Low <==> v < r.min
    ensures FindingOf(param, v, r).status == High <==> v > r.max
    ensures FindingOf(param, v, r).status == Normal <==> r.min <= v <= r.max
    ensures FindingOf(param, v, r).status == Normal ==> FindingOf(param, v, r).suggestion == WITHIN_RANGE
    ensures FindingOf(param, v, r).value == Number(v)
    ensures FindingOf(param, v, r).unit == r.unit && FindingOf(param, v, r).parameter == r.desc
  {
  }

  /** The Rule of Threes row appears exactly when all three readings are present and one relation is off. */
  lemma RuleOfThreesMeaning(values: Dict<real>)
    ensures RuleOfThrees(values) == [] || RuleOfThrees(values) == [RULE_OF_THREES]
    ensures RuleOfThrees(values) == [RULE_OF_THREES] <==>
      Lookup(values, "RBC").Some? && Lookup(values, "Hemoglobin").Some? && Lookup(values, "Hematocrit").Some?
      && (Abs(3.0 * Lookup(values, "RBC").value - Lookup(values, "Hemoglobin").value) >= 1.0
          || Abs(3.0 * Lookup(values, "Hemoglobin").value - Lookup(values, "Hematocrit").value) >= 3.0)
  {
  }

  lemma RuleOfThreesExamples()
    ensures RuleOfThrees([("RBC", 5.0), ("Hemoglobin", 15.0), ("Hematocrit", 45.0)]) == []
    ensures RuleOfThrees([("RBC", 5.0), ("Hemoglobin", 10.0), ("Hematocrit", 45.0)]) == [RULE_OF_THREES]
    ensures RuleOfThrees([("Hemoglobin", 10.0), ("Hematocrit", 45.0)]) == []
  {
  }

  /** The anemia row appears exactly for a present, low hemoglobin reading, naming the MCV size class. */
  lemma AnemiaEvaluationMeaning(values: Dict<real>)
    ensures AnemiaEvaluation(values) != [] <==>
      Lookup(values, "Hemoglobin").Some? && Lookup(values, "Hemoglobin").value < HEMOGLOBIN_MIN
    ensures AnemiaEvaluation(values) != [] ==> AnemiaEvaluation(values) == [AnemiaFinding(AnemiaType(values))]
    ensures AnemiaType(values) == "" <==> Lookup(values, "MCV").None?
    ensures AnemiaType(values) == MICROCYTIC <==> Lookup(values, "MCV").Some? && Lookup(values, "MCV").value < 80.0
    ensures AnemiaType(values) == MACROCYTIC <==> Lookup(values, "MCV").Some? && Lookup(values, "MCV").value > 100.0
    ensures AnemiaType(values) == NORMOCYTIC <==>
      Lookup(values, "MCV").Some? && 80.0 <= Lookup(values, "MCV").value <= 100.0
  {
  }

  lemma AnemiaExamples()
    ensures AnemiaEvaluation([("Hemoglobin", 10.0), ("MCV", 70.0)]) == [AnemiaFinding(MICROCYTIC)]
    ensures AnemiaEvaluation([("Hemoglobin", 10.0), ("MCV", 110.0)]) == [AnemiaFinding(MACROCYTIC)]
    ensures AnemiaEvaluation([("Hemoglobin", 10.0), ("MCV", 90.0)]) == [AnemiaFinding(NORMOCYTIC)]
    ensures AnemiaEvaluation([("Hemoglobin", 10.0)]) == [AnemiaFinding("")]
    ensures AnemiaEvaluation([("Hemoglobin", 13.5), ("MCV", 70.0)]) == []
  {
  }

  /** The possible-immunodeficiency row appears exactly for a present, low lymphocyte reading. */
  lemma PossiblePidMeaning(values: Dict<real>)
    ensures PossiblePid(values) == [] || PossiblePid(values) == [PID]
    ensures PossiblePid(values) == [PID] <==>
      Lookup(values, "Lymphocytes").Some? && Lookup(values, "Lymphocytes").value < LYMPHOCYTES_MIN
  {
  }

  /** No readings, no rows. */
  lemma AnalysisOfNothing()
    ensures Analysis([]) == []
  {
  }

  /** The per-parameter rows come first and are never `Abnormal`; the composite rows follow and always are. */
  lemma AnalysisSplits(values: Dict<real>)
    ensures Analysis(values) == ParamFindings(NORMAL_RANGES, values) + Composites(values)
    ensures forall f :: f in Analysis(values) ==> (f.status == Abnormal <==> f in Composites(values))
  {
    var p, r, a, d := ParamFindings(NORMAL_RANGES, values), RuleOfThrees(values), AnemiaEvaluation(values), PossiblePid(values);
    assert p + r + a == p + (r + a);
    assert p + (r + a) + d == p + (r + a + d);
    forall f | f in Analysis(values)
      ensures f.status == Abnormal <==> f in Composites(values)
    {
      assert f in p || f in r + a + d;
    }
  }

  /** The report's summary list: the rows whose status is not `Normal`, in order. */
  function NotNormal(fs: seq<Finding>): (r: seq<Finding>)
    ensures |r| <= |fs|
    ensures forall f :: f in r <==> f in fs && f.status != Normal
  {
    if fs == [] then []
    else (if fs[0].status != Normal then [fs[0]] else []) + NotNormal(fs[1..])
  }

  lemma {:induction false} NotNormalAppend(a: seq<Finding>, b: seq<Finding>)
    ensures NotNormal(a + b) == NotNormal(a) + NotNormal(b)
  {
    if a == [] {
      assert a + b == b;
    } else {
      assert (a + b)[0] == a[0];
      assert (a + b)[1..] == a[1..] + b;
      NotNormalAppend(a[1..], b);
      var head := if a[0].status != Normal then [a[0]] else [];
      assert NotNormal(a + b) == head + (NotNormal(a[1..]) + NotNormal(b));
      assert head + (NotNormal(a[1..]) + NotNormal(b)) == (head + NotNormal(a[1..])) + NotNormal(b);
    }
  }

  lemma {:induction false} NotNormalKeeps(fs: seq<Finding>)
    requires forall f :: f in fs ==> f.status != Normal
    ensures NotNormal(fs) == fs
  {
    if fs != [] {
      assert fs[0] in fs;
      assert forall f :: f in fs[1..] ==> f in fs;
      NotNormalKeeps(fs[1..]);
    }
  }

  /** Every composite row reaches the summary, after the abnormal per-parameter rows. */
  lemma SummaryKeepsComposites(values: Dict<real>)
    ensures NotNormal(Analysis(values)) == NotNormal(ParamFindings(NORMAL_RANGES, values)) + Composites(values)
  {
    AnalysisSplits(values);
    NotNormalAppend(ParamFindings(NORMAL_RANGES, values), Composites(values));
    NotNormalKeeps(Composites(values));
  }
}
