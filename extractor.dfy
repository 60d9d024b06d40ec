/**
  `parse_cbc_values`: one pattern per parameter, searched in table order; a
  numeric token that `float` reads is stored under the parameter's name, a
  token it rejects is skipped, and a match on a bare long name, which has
  no group, makes `float(None)` raise a `TypeError` that nothing catches.
 */
module Extractor {
  import opened Common
  import opened Dict
  import opened Matcher
  import opened Decimal
  import opened ReferenceRanges

  /** The only way extraction fails: `float(None)` raising `TypeError`. */
  datatype ExtractError = TypeError

  const PATTERNS: Dict<Pattern> := [
    ("RBC", Keyword("RBC")),
    ("Hemoglobin", LongOrKeyword("Hemoglobin", "Hb")),
    ("Hematocrit", LongOrKeyword("Hematocrit", "HCT")),
    ("MCV", Keyword("MCV")),
    ("MCH", Keyword("MCH")),
    ("MCHC", Keyword("MCHC")),
    ("RDW", Keyword("RDW")),
    ("WBC", Keyword("WBC")),
    ("Neutrophils", LongOrKeyword("Neutrophils", "NEU")),
    ("Lymphocytes", LongOrKeyword("Lymphocytes", "LYM")),
    ("Monocytes", LongOrKeyword("Monocytes", "MON")),
    ("Eosinophils", LongOrKeyword("Eosinophils", "EOS")),
    ("Basophils", LongOrKeyword("Basophils", "BAS")),
    ("Platelets", LongOrKeyword("Platelets", "PLT")),
    ("MPV", Keyword("MPV")),
    ("Reticulocytes", LongOrKeyword("Reticulocytes", "RET"))
  ]

  /**
    What one turn of the loop does with a pattern's search result: nothing
    when there is no match or `float` rejects the token (`ValueError` is
    caught), store the value, or raise `TypeError` on a bare long name.
   */
  datatype Step = Skip | Store(value: real) | Raise

  function StepOf(p: Pattern, text: string): (s: Step)
    ensures s.Store? ==> s.value >= 0.0
  {
    match Search(p, text)
    case None => Skip
    case Some((_, Bare)) => Raise
    case Some((_, Captured(tok))) =>
      match ParseDecimal(tok)
      case None => Skip
      case Some(v) => Store(v)
  }

  /** The step of every pattern on `text`, in pattern order. */
  function Steps(text: string): (steps: seq<Step>)
    ensures |steps| == |PATTERNS|
    ensures forall i :: 0 <= i < |PATTERNS| ==> steps[i] == StepOf(PATTERNS[i].1, text)
  {
    seq(|PATTERNS|, i requires 0 <= i < |PATTERNS| => StepOf(PATTERNS[i].1, text))
  }

  /** The loop from turn `i` on, with `acc` as `values` so far; `names[i]` is the key of turn `i`. */
  function Run(names: seq<string>, steps: seq<Step>, i: nat, acc: Dict<real>): Result<Dict<real>, ExtractError>
    requires |names| == |steps| && i <= |steps|
    decreases |steps| - i
  {
    if i == |steps| then Ok(acc)
    else
      match steps[i]
      case Raise => Err(TypeError)
      case Skip => Run(names, steps, i + 1, acc)
      case Store(v) => Run(names, steps, i + 1, Insert(acc, names[i], v))
  }

  function Extract(text: string): Result<Dict<real>, ExtractError> {
    Run(Keys(PATTERNS), Steps(text), 0, [])
  }

  /** `parse_cbc_values(text)`. */
  method ParseCbcValues(text: string) returns (r: Result<Dict<real>, ExtractError>)
    ensures r == Extract(text)
  {
    var values: Dict<real> := [];
    var i := 0;
    while i < |PATTERNS|
      invariant i <= |PATTERNS|
      invariant Run(Keys(PATTERNS), Steps(text), i, values) == Extract(text)
    {
      var key, pattern := PATTERNS[i].0, PATTERNS[i].1;
      var found := Search(pattern, text);
      if found.Some? {
        match found.value.1
        case Bare =>
          assert Steps(text)[i] == Raise;
          return Err(TypeError);
        case Captured(tok) =>
          var v := ParseDecimal(tok);
          if v.Some? {
            assert Steps(text)[i] == Store(v.value);
            values := Insert(values, key, v.value);
          } else {
            assert Steps(text)[i] == Skip;
          }
      } else {
        assert Steps(text)[i] == Skip;
      }
      i := i + 1;
    }
    return Ok(values);
  }

  /** One pattern per parameter of the table, in the table's order, no name twice. */
  lemma PatternsFollowTable()
    ensures Keys(PATTERNS) == Keys(NORMAL_RANGES)
    ensures DistinctKeys(PATTERNS)
  {
    TableDistinct();
    assert |PATTERNS| == |NORMAL_RANGES|;
    forall i | 0 <= i < |PATTERNS|
      ensures Keys(PATTERNS)[i] == Keys(NORMAL_RANGES)[i]
    {
      SameNameAt(i);
    }
  }

  lemma SameNameAt(i: nat)
    requires i < |PATTERNS| == |NORMAL_RANGES|
    ensures PATTERNS[i].0 == NORMAL_RANGES[i].0
  {
  }

  /** The values stored from turn `i` on, in turn order, when no turn raises. */
  function Stored(names: seq<string>, steps: seq<Step>, i: nat): Dict<real>
    requires |names| == |steps| && i <= |steps|
    decreases |steps| - i
  {
    if i == |steps| then []
    else
      match steps[i]
      case Store(v) => [(names[i], v)] + Stored(names, steps, i + 1)
      case _ => Stored(names, steps, i + 1)
  }

  ghost predicate Distinct(names: seq<string>) {
    forall a, b :: 0 <= a < b < |names| ==> names[a] != names[b]
  }

  /** Value of turn `j` when it stores one. */
  function StoredValue(step: Step): Option<real> {
    if step.Store? then Some(step.value) else None
  }

  /** Each stored entry is a turn's name with the value that turn stored. */
  lemma {:induction false} StoredEntries(names: seq<string>, steps: seq<Step>, i: nat)
    requires |names| == |steps| && i <= |steps|
    ensures forall e :: e in Stored(names, steps, i) ==> e.0 in names[i..] && Store(e.1) in steps[i..]
    decreases |steps| - i
  {
    if i < |steps| {
      assert steps[i..] == [steps[i]] + steps[i + 1..];
      assert names[i..] == [names[i]] + names[i + 1..];
      StoredEntries(names, steps, i + 1);
    }
  }

  /** With distinct names, the stored entries have distinct keys. */
  lemma {:induction false} StoredDistinct(names: seq<string>, steps: seq<Step>, i: nat)
    requires |names| == |steps| && i <= |steps| && Distinct(names)
    ensures DistinctKeys(Stored(names, steps, i))
    decreases |steps| - i
  {
    if i < |steps| {
      StoredDistinct(names, steps, i + 1);
      var rest := Stored(names, steps, i + 1);
      StoredEntries(names, steps, i + 1);
      assert forall e :: e in rest ==> e.0 != names[i];
      if steps[i].Store? {
        var f := [(names[i], steps[i].value)] + rest;
        forall a, b | 0 <= a < b < |f| ensures f[a].0 != f[b].0 {
          if a == 0 {
            assert f[b] in rest;
          } else {
            assert f[a] == rest[a - 1] && f[b] == rest[b - 1];
          }
        }
      }
    }
  }

  /** With distinct names, reading turn `j`'s name gives what turn `j` stored. */
  lemma {:induction false} StoredLookup(names: seq<string>, steps: seq<Step>, i: nat)
    requires |names| == |steps| && i <= |steps| && Distinct(names)
    ensures forall j :: i <= j < |steps| ==> Lookup(Stored(names, steps, i), names[j]) == StoredValue(steps[j])
    decreases |steps| - i
  {
    if i < |steps| {
      StoredLookup(names, steps, i + 1);
      var rest := Stored(names, steps, i + 1);
      StoredEntries(names, steps, i + 1);
      assert names[i] !in Keys(rest) by {
        assert forall e :: e in rest ==> e.0 != names[i];
      }
      forall j | i <= j < |steps|
        ensures Lookup(Stored(names, steps, i), names[j]) == StoredValue(steps[j])
      {
        if steps[i].Store? {
          var f := [(names[i], steps[i].value)] + rest;
          assert Stored(names, steps, i) == f && f[0].0 == names[i] && f[1..] == rest;
          if j == i {
            assert Lookup(f, names[j]) == Some(steps[i].value);
          } else {
            assert names[j] != names[i];
            assert Lookup(f, names[j]) == Lookup(rest, names[j]);
          }
        } else {
          assert Stored(names, steps, i) == rest;
          if j == i {
            LookupSpec(rest, names[j]);
          }
        }
      }
    }
  }

  lemma StoredFrom(names: seq<string>, steps: seq<Step>, i: nat)
    requires |names| == |steps| && i <= |steps| && Distinct(names)
    ensures forall e :: e in Stored(names, steps, i) ==> e.0 in names[i..] && Store(e.1) in steps[i..]
    ensures DistinctKeys(Stored(names, steps, i))
    ensures forall j :: i <= j < |steps| ==> Lookup(Stored(names, steps, i), names[j]) == StoredValue(steps[j])
  {
    StoredEntries(names, steps, i);
    StoredDistinct(names, steps, i);
    StoredLookup(names, steps, i);
  }

  /** Keys already in `acc` are names of turns before `i`, so each stored value is a new entry at the end. */
  lemma {:induction false} RunStores(names: seq<string>, steps: seq<Step>, i: nat, acc: Dict<real>)
    requires |names| == |steps| && i <= |steps| && Distinct(names)
    requires forall e :: e in acc ==> e.0 in names[..i]
    ensures Run(names, steps, i, acc)
         == if Raise in steps[i..] then Err(TypeError) else Ok(acc + Stored(names, steps, i))
    decreases |steps| - i
  {
    if i == |steps| {
      assert acc + Stored(names, steps, i) == acc;
    } else {
      assert steps[i..] == [steps[i]] + steps[i + 1..];
      match steps[i]
      case Raise =>
      case Skip =>
        RunStores(names, steps, i + 1, acc);
      case Store(v) =>
        assert names[i] !in Keys(acc) by {
          forall a | 0 <= a < |acc| ensures Keys(acc)[a] != names[i] {
            assert acc[a] in acc;
          }
        }
        InsertSpec(acc, names[i], v);
        var acc' := acc + [(names[i], v)];
        assert Run(names, steps, i, acc) == Run(names, steps, i + 1, acc');
        assert names[..i + 1] == names[..i] + [names[i]];
        forall e | e in acc' ensures e.0 in names[..i + 1] {
          if e in acc {
            assert e.0 in names[..i];
          }
        }
        RunStores(names, steps, i + 1, acc');
        var rest := Stored(names, steps, i + 1);
        assert Stored(names, steps, i) == [(names[i], v)] + rest;
        assert acc' + rest == acc + ([(names[i], v)] + rest);
    }
  }

  /**
    What `parse_cbc_values` returns: it raises exactly when some pattern's
    leftmost match is its bare long name; otherwise every key is a parameter
    of the table, no key occurs twice, every value is non-negative, and each
    parameter holds exactly the value its pattern's leftmost match yields.
   */
  lemma ExtractSpec(text: string)
    ensures Extract(text).Err? <==> exists i :: 0 <= i < |PATTERNS| && StepOf(PATTERNS[i].1, text) == Raise
    ensures Extract(text).Ok? ==>
      var vs := Extract(text).value;
      && DistinctKeys(vs)
      && (forall e :: e in vs ==> e.0 in Keys(NORMAL_RANGES) && e.1 >= 0.0)
      && forall i :: 0 <= i < |PATTERNS| ==> Lookup(vs, PATTERNS[i].0) == StoredValue(StepOf(PATTERNS[i].1, text))
  {
    PatternsFollowTable();
    var names, steps := Keys(PATTERNS), Steps(text);
    assert Distinct(names);
    RunStores(names, steps, 0, []);
    StoredFrom(names, steps, 0);
    assert steps[0..] == steps && names[0..] == names;
    assert [] + Stored(names, steps, 0) == Stored(names, steps, 0);
    assert Raise in steps <==> exists i :: 0 <= i < |PATTERNS| && StepOf(PATTERNS[i].1, text) == Raise;
  }

  /** With no bare long name matched first, the result is the stored readings in pattern order. */
  lemma ExtractWithoutRaise(text: string)
    requires Raise !in Steps(text)
    ensures Extract(text) == Ok(Stored(Keys(PATTERNS), Steps(text), 0))
  {
    PatternsFollowTable();
    var names, steps := Keys(PATTERNS), Steps(text);
    RunStores(names, steps, 0, []);
    assert steps[0..] == steps;
    assert [] + Stored(names, steps, 0) == Stored(names, steps, 0);
  }

  /** Turns that all skip store nothing. */
  lemma {:induction false} NoneStored(names: seq<string>, steps: seq<Step>, i: nat)
    requires |names| == |steps| && i <= |steps|
    requires forall j :: i <= j < |steps| ==> steps[j] == Skip
    ensures Raise !in steps[i..] && Stored(names, steps, i) == []
    decreases |steps| - i
  {
    if i < |steps| {
      NoneStored(names, steps, i + 1);
      assert steps[i..] == [steps[i]] + steps[i + 1..];
    }
  }

  /** Text in which no pattern matches gives the empty dict. */
  lemma ExtractNoMatch(text: string)
    requires forall i :: 0 <= i < |PATTERNS| ==> Search(PATTERNS[i].1, text).None?
    ensures Extract(text) == Ok([])
  {
    var steps := Steps(text);
    NoneStored(Keys(PATTERNS), steps, 0);
    assert steps[0..] == steps;
    ExtractWithoutRaise(text);
  }

  /** The empty text matches no pattern, so it gives the empty dict. */
  lemma ExtractEmptyText()
    ensures Extract("") == Ok([])
  {
    forall i | 0 <= i < |PATTERNS| ensures Search(PATTERNS[i].1, "").None? {
      assert MatchAt(PATTERNS[i].1, "", 0).None?;
    }
    ExtractNoMatch("");
  }

  /** The turns from `i` on that store a value, in turn order. */
  function StoredTurns(steps: seq<Step>, i: nat): (ts: seq<nat>)
    requires i <= |steps|
    ensures forall a :: 0 <= a < |ts| ==> i <= ts[a] < |steps| && steps[ts[a]].Store?
    ensures forall a, b :: 0 <= a < b < |ts| ==> ts[a] < ts[b]
    decreases |steps| - i
  {
    if i == |steps| then []
    else if steps[i].Store? then [i] + StoredTurns(steps, i + 1)
    else StoredTurns(steps, i + 1)
  }

  /** Entry `a` of the stored dict is the name and value of the `a`-th storing turn. */
  lemma {:induction false} StoredAtTurns(names: seq<string>, steps: seq<Step>, i: nat)
    requires |names| == |steps| && i <= |steps|
    ensures |Stored(names, steps, i)| == |StoredTurns(steps, i)|
    ensures forall a :: 0 <= a < |StoredTurns(steps, i)| ==>
      Stored(names, steps, i)[a] == (names[StoredTurns(steps, i)[a]], steps[StoredTurns(steps, i)[a]].value)
    decreases |steps| - i
  {
    if i < |steps| {
      StoredAtTurns(names, steps, i + 1);
      if steps[i].Store? {
        var st, ts := Stored(names, steps, i), StoredTurns(steps, i);
        var rest, later := Stored(names, steps, i + 1), StoredTurns(steps, i + 1);
        assert st == [(names[i], steps[i].value)] + rest;
        assert ts == [i] + later;
        forall a | 0 <= a < |ts| ensures st[a] == (names[ts[a]], steps[ts[a]].value) {
          if a > 0 {
            assert st[a] == rest[a - 1] && ts[a] == later[a - 1];
          }
        }
      }
    }
  }

  /** A successful parse is exactly the stored values, in pattern order. */
  lemma ExtractOkStored(text: string)
    requires Extract(text).Ok?
    ensures Raise !in Steps(text)
    ensures Extract(text).value == Stored(Keys(PATTERNS), Steps(text), 0)
  {
    PatternsFollowTable();
    var names, steps := Keys(PATTERNS), Steps(text);
    assert Distinct(names);
    RunStores(names, steps, 0, []);
    assert steps[0..] == steps;
    ExtractWithoutRaise(text);
  }

  /** For any two entries of `d`, the earlier one's key is earlier in `keys`. */
  ghost predicate KeysInOrderOf(d: Dict<real>, keys: seq<string>) {
    forall a, b :: 0 <= a < b < |d| ==>
      exists p, q :: 0 <= p < q < |keys| && d[a].0 == keys[p] && d[b].0 == keys[q]
  }

  /** An earlier stored entry comes from an earlier turn. */
  lemma StoredInOrder(names: seq<string>, steps: seq<Step>)
    requires |names| == |steps|
    ensures KeysInOrderOf(Stored(names, steps, 0), names)
  {
    var st, ts := Stored(names, steps, 0), StoredTurns(steps, 0);
    StoredAtTurns(names, steps, 0);
    forall a, b | 0 <= a < b < |st|
      ensures exists p, q :: 0 <= p < q < |names| && st[a].0 == names[p] && st[b].0 == names[q]
    {
      assert st[a].0 == names[ts[a]] && st[b].0 == names[ts[b]];
    }
  }

  /** Parsed readings come in table order: an earlier reading's parameter is an earlier key of the table. */
  lemma ExtractInTableOrder(text: string)
    requires Extract(text).Ok?
    ensures KeysInOrderOf(Extract(text).value, Keys(NORMAL_RANGES))
  {
    ExtractOkStored(text);
    PatternsFollowTable();
    StoredInOrder(Keys(PATTERNS), Steps(text));
  }

  /** Text without h, m, d, w, n, l, e, a or p: every word of every pattern but the first needs one of them. */
  ghost predicate OnlyRbcLetters(text: string) {
    && !MentionsFrom(text, 'h', 0) && !MentionsFrom(text, 'm', 0) && !MentionsFrom(text, 'd', 0)
    && !MentionsFrom(text, 'w', 0) && !MentionsFrom(text, 'n', 0) && !MentionsFrom(text, 'l', 0)
    && !MentionsFrom(text, 'e', 0) && !MentionsFrom(text, 'a', 0) && !MentionsFrom(text, 'p', 0)
  }

  lemma OthersSkip(text: string, i: nat)
    requires 1 <= i < |PATTERNS| && OnlyRbcLetters(text)
    ensures StepOf(PATTERNS[i].1, text) == Skip
  {
    if i == 1 {
      assert PATTERNS[i].1 == LongOrKeyword("Hemoglobin", "Hb");
      SearchMissingLetter(LongOrKeyword("Hemoglobin", "Hb"), text, 0, 0);
    } else if i == 2 {
      assert PATTERNS[i].1 == LongOrKeyword("Hematocrit", "HCT");
      SearchMissingLetter(LongOrKeyword("Hematocrit", "HCT"), text, 0, 0);
    } else if i == 3 {
      assert PATTERNS[i].1 == Keyword("MCV");
      SearchMissingLetter(Keyword("MCV"), text, 0, 0);
    } else if i == 4 {
      assert PATTERNS[i].1 == Keyword("MCH");
      SearchMissingLetter(Keyword("MCH"), text, 0, 0);
    } else if i == 5 {
      assert PATTERNS[i].1 == Keyword("MCHC");
      SearchMissingLetter(Keyword("MCHC"), text, 0, 0);
    } else if i == 6 {
      assert PATTERNS[i].1 == Keyword("RDW");
      SearchMissingLetter(Keyword("RDW"), text, 1, 0);
    } else if i == 7 {
      assert PATTERNS[i].1 == Keyword("WBC");
      SearchMissingLetter(Keyword("WBC"), text, 0, 0);
    } else if i == 8 {
      assert PATTERNS[i].1 == LongOrKeyword("Neutrophils", "NEU");
      SearchMissingLetter(LongOrKeyword("Neutrophils", "NEU"), text, 0, 0);
    } else if i == 9 {
      assert PATTERNS[i].1 == LongOrKeyword("Lymphocytes", "LYM");
      SearchMissingLetter(LongOrKeyword("Lymphocytes", "LYM"), text, 0, 0);
    } else if i == 10 {
      assert PATTERNS[i].1 == LongOrKeyword("Monocytes", "MON");
      SearchMissingLetter(LongOrKeyword("Monocytes", "MON"), text, 0, 0);
    } else if i == 11 {
      assert PATTERNS[i].1 == LongOrKeyword("Eosinophils", "EOS");
      SearchMissingLetter(LongOrKeyword("Eosinophils", "EOS"), text, 0, 0);
    } else if i == 12 {
      assert PATTERNS[i].1 == LongOrKeyword("Basophils", "BAS");
      SearchMissingLetter(LongOrKeyword("Basophils", "BAS"), text, 1, 1);
    } else if i == 13 {
      assert PATTERNS[i].1 == LongOrKeyword("Platelets", "PLT");
      SearchMissingLetter(LongOrKeyword("Platelets", "PLT"), text, 0, 0);
    } else if i == 14 {
      assert PATTERNS[i].1 == Keyword("MPV");
      SearchMissingLetter(Keyword("MPV"), text, 0, 0);
    } else if i == 15 {
      assert PATTERNS[i].1 == LongOrKeyword("Reticulocytes", "RET");
      SearchMissingLetter(LongOrKeyword("Reticulocytes", "RET"), text, 1, 1);
    }
  }

  /** When only the RBC pattern can match, the result holds at most the RBC reading. */
  lemma ExtractOnlyRbc(text: string)
    requires OnlyRbcLetters(text)
    ensures Extract(text) == Ok(match StepOf(PATTERNS[0].1, text)
                                case Store(v) => [("RBC", v)]
                                case _ => [])
  {
    var steps, names := Steps(text), Keys(PATTERNS);
    forall i | 1 <= i < |PATTERNS| ensures steps[i] == Skip {
      OthersSkip(text, i);
    }
    NoneStored(names, steps, 1);
    assert steps == [steps[0]] + steps[1..];
    assert names[0] == "RBC";
    assert Stored(names, steps, 0) == (match steps[0] case Store(v) => [("RBC", v)] case _ => []) by {
      assert Stored(names, steps, 1) == [];
    }
    ExtractWithoutRaise(text);
  }

  /** `"RBC: 5.2"` gives `{RBC: 5.2}`. */
  lemma ExtractRbcExample()
    ensures Extract("RBC: 5.2") == Ok([("RBC", 5.2)])
  {
    assert OnlyRbcLetters("RBC: 5.2");
    var text := "RBC: 5.2";
    assert PATTERNS[0].1 == Keyword("RBC");
    assert WordAt(text, 0, "RBC");
    assert SepEnd(text, 3) == 5;
    assert NumEnd(text, 5) == 8;
    assert text[5..8] == "5.2";
    ParseDecimalExample();
    ExtractOnlyRbc(text);
  }

  /** `"RBC: ."` captures `"."`, which `float` rejects: the key is dropped and nothing is raised. */
  lemma ExtractRejectedTokenExample()
    ensures Extract("RBC: .") == Ok([])
  {
    assert OnlyRbcLetters("RBC: .");
    var text := "RBC: .";
    assert PATTERNS[0].1 == Keyword("RBC");
    assert WordAt(text, 0, "RBC");
    assert SepEnd(text, 3) == 5;
    assert NumEnd(text, 5) == 6;
    assert text[5..6] == ".";
    ParseExamples();
    ExtractOnlyRbc(text);
  }

  /** `"Hemoglobin 14"` first matches the bare long name: `float(None)` raises. */
  lemma ExtractBareLongNameExample()
    ensures Extract("Hemoglobin 14") == Err(TypeError)
  {
    var text := "Hemoglobin 14";
    assert PATTERNS[1].1 == LongOrKeyword("Hemoglobin", "Hb");
    assert WordAt(text, 0, "Hemoglobin");
    assert StepOf(PATTERNS[1].1, text) == Raise;
    ExtractSpec(text);
  }
}
