/**
  The fixed table of normal ranges for the sixteen CBC parameters, keyed by
  the parameter's short name. Each entry carries its bounds, its unit and the
  descriptive label shown in findings. Nothing changes the table at run time.
 */
module ReferenceRanges {
  import opened Common
  import opened Dict

  datatype Range = Range(min: real, max: real, unit: string, desc: string)

  const NORMAL_RANGES: Dict<Range> := [
    ("RBC", Range(4.5, 5.9, "x10^12/L", "Red Blood Cell Count")),
    ("Hemoglobin", Range(13.5, 17.5, "g/dL", "Hemoglobin (Hb)")),
    ("Hematocrit", Range(41.0, 53.0, "%", "Hematocrit (HCT)")),
    ("MCV", Range(80.0, 100.0, "fL", "Mean Corpuscular Volume")),
    ("MCH", Range(27.0, 31.0, "pg", "Mean Corpuscular Hemoglobin")),
    ("MCHC", Range(32.0, 36.0, "g/dL", "Mean Corpuscular Hemoglobin Concentration")),
    ("RDW", Range(11.5, 14.5, "%", "Red Cell Distribution Width")),
    ("WBC", Range(4.5, 11.0, "x10^9/L", "White Blood Cell Count")),
    ("Neutrophils", Range(1.8, 7.7, "x10^9/L", "Neutrophils (Absolute)")),
    ("Lymphocytes", Range(1.0, 4.8, "x10^9/L", "Lymphocytes (Absolute)")),
    ("Monocytes", Range(0.2, 1.0, "x10^9/L", "Monocytes (Absolute)")),
    ("Eosinophils", Range(0.0, 0.5, "x10^9/L", "Eosinophils (Absolute)")),
    ("Basophils", Range(0.0, 0.2, "x10^9/L", "Basophils (Absolute)")),
    ("Platelets", Range(150.0, 450.0, "x10^9/L", "Platelet Count")),
    ("MPV", Range(7.4, 10.4, "fL", "Mean Platelet Volume")),
    ("Reticulocytes", Range(0.5, 1.5, "%", "Reticulocyte Count"))
  ]

  /** `NORMAL_RANGES[param]`, or nothing for a parameter outside the table. */
  function RangeOf(param: string): Option<Range> {
    Lookup(NORMAL_RANGES, param)
  }

  /** Exactly the table's parameters have a range, and every range is non-empty. */
  lemma RangeOfWellFormed(param: string)
    ensures RangeOf(param).Some? <==> param in Keys(NORMAL_RANGES)
    ensures RangeOf(param).Some? ==> RangeOf(param).value.min <= RangeOf(param).value.max
  {
    TableWellFormed();
    LookupSpec(NORMAL_RANGES, param);
  }

  /** Sixteen parameters, no key twice, and every lower bound at most its upper bound. */
  lemma TableWellFormed()
    ensures |NORMAL_RANGES| == 16 && DistinctKeys(NORMAL_RANGES)
    ensures forall e :: e in NORMAL_RANGES ==> e.1.min <= e.1.max
  {
    TableDistinct();
    TableBoundsOrdered();
  }

  lemma TableDistinct()
    ensures |NORMAL_RANGES| == 16 && DistinctKeys(NORMAL_RANGES)
  {
  }

  lemma TableBoundsOrdered()
    ensures forall e :: e in NORMAL_RANGES ==> e.1.min <= e.1.max
  {
    forall e | e in NORMAL_RANGES
      ensures e.1.min <= e.1.max
    {
      var i :| 0 <= i < |NORMAL_RANGES| && NORMAL_RANGES[i] == e;
      BoundsOrderedAt(i);
    }
  }

  lemma BoundsOrderedAt(i: nat)
    requires i < |NORMAL_RANGES|
    ensures NORMAL_RANGES[i].1.min <= NORMAL_RANGES[i].1.max
  {
  }

  /** Looking up the key of the table's `i`-th entry yields that entry. */
  lemma RangeOfEntry(i: nat)
    requires i < |NORMAL_RANGES|
    ensures RangeOf(NORMAL_RANGES[i].0) == Some(NORMAL_RANGES[i].1)
  {
    TableWellFormed();
    LookupEntry(NORMAL_RANGES, i);
  }

  /**
    The table entries that the quality checks and the composite rules read
    by name. They are spelled out once here so that the checks stay cheap
    to reason about; the four lemmas below tie each to its table entry.
   */
  const RBC_MIN: real := 4.5
  const HEMOGLOBIN_MIN: real := 13.5
  const LYMPHOCYTES_MIN: real := 1.0
  const MPV_MAX: real := 10.4

  /** `NORMAL_RANGES["RBC"]["min"]` is `RBC_MIN`. */
  lemma RbcMinFromTable()
    ensures RangeOf("RBC").Some? && RangeOf("RBC").value.min == RBC_MIN
  {
    EntryNamed(0, "RBC");
  }

  /** `NORMAL_RANGES["Hemoglobin"]["min"]` is `HEMOGLOBIN_MIN`. */
  lemma HemoglobinMinFromTable()
    ensures RangeOf("Hemoglobin").Some? && RangeOf("Hemoglobin").value.min == HEMOGLOBIN_MIN
  {
    EntryNamed(1, "Hemoglobin");
  }

  /** `NORMAL_RANGES["Lymphocytes"]["min"]` is `LYMPHOCYTES_MIN`. */
  lemma LymphocytesMinFromTable()
    ensures RangeOf("Lymphocytes").Some? && RangeOf("Lymphocytes").value.min == LYMPHOCYTES_MIN
  {
    EntryNamed(9, "Lymphocytes");
  }

  /** `NORMAL_RANGES["MPV"]["max"]` is `MPV_MAX`. */
  lemma MpvMaxFromTable()
    ensures RangeOf("MPV").Some? && RangeOf("MPV").value.max == MPV_MAX
  {
    EntryNamed(14, "MPV");
  }

  /** The range read under the name of entry `i` is that entry's range. */
  lemma EntryNamed(i: nat, param: string)
    requires i < |NORMAL_RANGES| && NORMAL_RANGES[i].0 == param
    ensures RangeOf(param) == Some(NORMAL_RANGES[i].1)
  {
    RangeOfEntry(i);
  }
}
