/**
  How the parts meet in the report: readings parsed from a report's text
  are handed to the analysis, whose rows the summary filters.
 */
module Report {
  import opened Common
  import opened Dict
  import opened ReferenceRanges
  import opened Extractor
  import opened Analysis

  /** Every reading parsed from text is a table parameter, so each gets its own row, in parsing order. */
  lemma ParsedReadingsAllAnalysed(text: string)
    requires Extract(text).Ok?
    ensures var vs := Extract(text).value;
      && |ParamFindings(NORMAL_RANGES, vs)| == |vs|
      && forall i :: 0 <= i < |vs| ==>
           && RangeOf(vs[i].0).Some?
           && ParamFindings(NORMAL_RANGES, vs)[i] == FindingOf(vs[i].0, vs[i].1, RangeOf(vs[i].0).value)
  {
    var vs := Extract(text).value;
    assert forall e :: e in vs ==> e.0 in Keys(NORMAL_RANGES) by {
      ExtractSpec(text);
    }
    ParamFindingsTableKeys(NORMAL_RANGES, vs);
  }
}
