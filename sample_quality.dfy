/**
  `assess_sample_quality`: six independent checks over the readings, the
  sample's age in hours and its storage condition. Every check that holds
  adds its warning, in a fixed order; none holding gives no warnings.
 */
module SampleQuality {
  import opened Common
  import opened Dict
  import opened ReferenceRanges

  /** The storage choices offered for a sample. */
  datatype Storage = RoomTemperature | Refrigerated | Frozen | Heated

  const AGE_ISSUE := "Sample >72 hours old: May show spurious elevated MCV and MPV due to cell swelling."
  const FROZEN_ISSUE := "Freezing causes cell lysis, leading to inaccurate counts."
  const HEATED_ISSUE := "Heat exposure causes RBC fragmentation, mimicking burn victim samples."
  const MCV_ISSUE := "Elevated MCV may indicate old sample or macrocytosis."
  const MPV_ISSUE := "Elevated MPV suggests prolonged EDTA exposure."
  const HEMOLYSIS_ISSUE := "Possible hemolysis: Low Hb and RBC due to shearing during collection."

  /** The warnings in the order the checks run. */
  const ISSUES: seq<string> := [AGE_ISSUE, FROZEN_ISSUE, HEATED_ISSUE, MCV_ISSUE, MPV_ISSUE, HEMOLYSIS_ISSUE]

  /** `key in values and values[key] > bound`. */
  predicate Above(values: Dict<real>, key: string, bound: real) {
    Lookup(values, key).Some? && Lookup(values, key).value > bound
  }

  /** `key in values and values[key] < bound`. */
  predicate Below(values: Dict<real>, key: string, bound: real) {
    Lookup(values, key).Some? && Lookup(values, key).value < bound
  }

  /** The one-entry list `[issue]` when `flag` holds, nothing otherwise. */
  function When(flag: bool, issue: string): (r: seq<string>)
    ensures r == [] || r == [issue]
  {
    if flag then [issue] else []
  }

  /** The warnings whose checks hold, in the order the checks run. */
  function QualityIssues(values: Dict<real>, ageHours: real, storage: Storage): (issues: seq<string>)
  {
    When(ageHours > 72.0, AGE_ISSUE)
    + When(storage == Frozen, FROZEN_ISSUE)
    + When(storage == Heated, HEATED_ISSUE)
    + When(Above(values, "MCV", 100.0), MCV_ISSUE)
    + When(Above(values, "MPV", MPV_MAX), MPV_ISSUE)
    + When(Below(values, "Hemoglobin", HEMOGLOBIN_MIN) && Below(values, "RBC", RBC_MIN), HEMOLYSIS_ISSUE)
  }

  /** `assess_sample_quality(values, sample_age_hours, storage_temp)`. */
  method AssessSampleQuality(values: Dict<real>, ageHours: real, storage: Storage) returns (issues: seq<string>)
    ensures issues == QualityIssues(values, ageHours, storage)
  {
    issues := [];
    if ageHours > 72.0 {
      issues := issues + [AGE_ISSUE];
    }
    if storage == Frozen {
      issues := issues + [FROZEN_ISSUE];
    }
    if storage == Heated {
      issues := issues + [HEATED_ISSUE];
    }
    assert issues == When(ageHours > 72.0, AGE_ISSUE)
      + When(storage == Frozen, FROZEN_ISSUE)
      + When(storage == Heated, HEATED_ISSUE);
    if Above(values, "MCV", 100.0) {
      issues := issues + [MCV_ISSUE];
    }
    assert issues == When(ageHours > 72.0, AGE_ISSUE)
      + When(storage == Frozen, FROZEN_ISSUE)
      + When(storage == Heated, HEATED_ISSUE)
      + When(Above(values, "MCV", 100.0), MCV_ISSUE);
    if Above(values, "MPV", MPV_MAX) {
      issues := issues + [MPV_ISSUE];
    }
    assert issues == When(ageHours > 72.0, AGE_ISSUE)
      + When(storage == Frozen, FROZEN_ISSUE)
      + When(storage == Heated, HEATED_ISSUE)
      + When(Above(values, "MCV", 100.0), MCV_ISSUE)
      + When(Above(values, "MPV", MPV_MAX), MPV_ISSUE);
    if Below(values, "Hemoglobin", HEMOGLOBIN_MIN) && Below(values, "RBC", RBC_MIN) {
      issues := issues + [HEMOLYSIS_ISSUE];
    }
  }

  /** Each warning is reported exactly when its own check holds. */
  lemma QualityIssuesMeaning(values: Dict<real>, ageHours: real, storage: Storage)
    ensures AGE_ISSUE in QualityIssues(values, ageHours, storage) <==> ageHours > 72.0
    ensures FROZEN_ISSUE in QualityIssues(values, ageHours, storage) <==> storage == Frozen
    ensures HEATED_ISSUE in QualityIssues(values, ageHours, storage) <==> storage == Heated
    ensures MCV_ISSUE in QualityIssues(values, ageHours, storage)
      <==> Lookup(values, "MCV").Some? && Lookup(values, "MCV").value > 100.0
    ensures MPV_ISSUE in QualityIssues(values, ageHours, storage)
      <==> Lookup(values, "MPV").Some? && Lookup(values, "MPV").value > MPV_MAX
    ensures HEMOLYSIS_ISSUE in QualityIssues(values, ageHours, storage)
      <==> (Lookup(values, "Hemoglobin").Some? && Lookup(values, "RBC").Some?
            && Lookup(values, "Hemoglobin").value < HEMOGLOBIN_MIN
            && Lookup(values, "RBC").value < RBC_MIN)
  {
  }

  /** Only the six warnings occur, each at most once, never more than six. */
  lemma QualityIssuesShape(values: Dict<real>, ageHours: real, storage: Storage)
    ensures forall m :: m in QualityIssues(values, ageHours, storage) ==> m in ISSUES
    ensures NoRepeats(QualityIssues(values, ageHours, storage))
    ensures |QualityIssues(values, ageHours, storage)| <= |ISSUES|
    ensures !(FROZEN_ISSUE in QualityIssues(values, ageHours, storage)
              && HEATED_ISSUE in QualityIssues(values, ageHours, storage))
  {
    QualityIssuesMeaning(values, ageHours, storage);
    QualityIssuesDistinct(values, ageHours, storage);
  }

  /** The checks append six different warnings, so none appears twice. */
  lemma QualityIssuesDistinct(values: Dict<real>, ageHours: real, storage: Storage)
    ensures NoRepeats(QualityIssues(values, ageHours, storage))
  {
    WarningsDistinct(ageHours > 72.0, storage == Frozen, storage == Heated,
      Above(values, "MCV", 100.0), Above(values, "MPV", MPV_MAX),
      Below(values, "Hemoglobin", HEMOGLOBIN_MIN) && Below(values, "RBC", RBC_MIN));
  }

  /** Whichever checks hold, the six warnings in check order have no repeats. */
  lemma WarningsDistinct(age: bool, frozen: bool, heated: bool, mcv: bool, mpv: bool, hemolysis: bool)
    ensures NoRepeats(When(age, AGE_ISSUE) + When(frozen, FROZEN_ISSUE) + When(heated, HEATED_ISSUE)
      + When(mcv, MCV_ISSUE) + When(mpv, MPV_ISSUE) + When(hemolysis, HEMOLYSIS_ISSUE))
  {
    assert |AGE_ISSUE| == 82 && |FROZEN_ISSUE| == 57 && |HEATED_ISSUE| == 70;
    assert |MCV_ISSUE| == 53 && |MPV_ISSUE| == 46 && |HEMOLYSIS_ISSUE| == 69;
    SixDistinct([AGE_ISSUE, FROZEN_ISSUE, HEATED_ISSUE, MCV_ISSUE, MPV_ISSUE, HEMOLYSIS_ISSUE],
      [age, frozen, heated, mcv, mpv, hemolysis]);
  }

  /** No message occurs twice. */
  ghost predicate NoRepeats(ms: seq<string>) {
    forall a, b :: 0 <= a < b < |ms| ==> ms[a] != ms[b]
  }

  /** Six distinct messages, each kept or dropped by its flag, in order, have no repeats. */
  lemma SixDistinct(ms: seq<string>, flags: seq<bool>)
    requires |ms| == 6 == |flags| && NoRepeats(ms)
    ensures NoRepeats(When(flags[0], ms[0]) + When(flags[1], ms[1]) + When(flags[2], ms[2])
      + When(flags[3], ms[3]) + When(flags[4], ms[4]) + When(flags[5], ms[5]))
  {
    var w1 := When(flags[0], ms[0]);
    AppendFresh([], w1, ms[0], {});
    assert [] + w1 == w1;
    var s1: set<string> := {} + {ms[0]};
    var w2 := w1 + When(flags[1], ms[1]);
    AppendFresh(w1, When(flags[1], ms[1]), ms[1], s1);
    var s2 := s1 + {ms[1]};
    var w3 := w2 + When(flags[2], ms[2]);
    AppendFresh(w2, When(flags[2], ms[2]), ms[2], s2);
    var s3 := s2 + {ms[2]};
    var w4 := w3 + When(flags[3], ms[3]);
    AppendFresh(w3, When(flags[3], ms[3]), ms[3], s3);
    var s4 := s3 + {ms[3]};
    var w5 := w4 + When(flags[4], ms[4]);
    AppendFresh(w4, When(flags[4], ms[4]), ms[4], s4);
    var s5 := s4 + {ms[4]};
    AppendFresh(w5, When(flags[5], ms[5]), ms[5], s5);
  }

  /**
    Appending nothing, or a message not among those seen so far, keeps the
    messages distinct; `seen` holds every message present.
   */
  lemma AppendFresh(ms: seq<string>, w: seq<string>, m: string, seen: set<string>)
    requires NoRepeats(ms) && (w == [] || w == [m])
    requires (forall x :: x in ms ==> x in seen) && m !in seen
    ensures NoRepeats(ms + w)
    ensures forall x :: x in ms + w ==> x in seen + {m}
  {
    var r := ms + w;
    if w == [m] {
      forall a, b | 0 <= a < b < |r| ensures r[a] != r[b] {
        if b == |ms| {
          assert r[a] == ms[a] && r[b] == m;
        }
      }
    } else {
      assert r == ms;
    }
  }

  /** A fresh sample kept at room temperature or refrigerated, with no readings, raises nothing. */
  lemma FreshSampleWithoutReadings(ageHours: real, storage: Storage)
    requires ageHours <= 72.0 && (storage == RoomTemperature || storage == Refrigerated)
    ensures QualityIssues([], ageHours, storage) == []
  {
  }
}
