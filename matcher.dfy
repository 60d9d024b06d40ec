/**
  The restricted regular expressions the extractor uses, matched the way
  `re.search(pattern, text, re.IGNORECASE)` matches them. Two shapes occur:

    KW[\s:]*([\d\.]+)          a keyword, separators, a numeric token
    LONG|KW[\s:]*([\d\.]+)     the same, or else the bare long name

  Alternation binds loosest, so in the second shape the long name stands
  alone, without separators and without a capture group.
 */
module Matcher {
  import opened Common

  /** `\s` on ASCII: space, tab, line feed, vertical tab, form feed, carriage return. */
  predicate IsSpace(c: char) {
    c == ' ' || c == '\t' || c == '\n' || c == '\r' || c as int == 11 || c as int == 12
  }

  /** The class `[\s:]`. */
  predicate IsSep(c: char) {
    IsSpace(c) || c == ':'
  }

  /** `\d` on ASCII. */
  predicate IsDigit(c: char) {
    '0' <= c <= '9'
  }

  /** The class `[\d\.]`. */
  predicate IsNumChar(c: char) {
    IsDigit(c) || c == '.'
  }

  predicate AllNumChars(s: string) {
    forall k :: 0 <= k < |s| ==> IsNumChar(s[k])
  }

  /** ASCII case folding, as `re.IGNORECASE` applies it to letters. */
  function Fold(c: char): char {
    if 'A' <= c <= 'Z' then (c as int + 32) as char else c
  }

  datatype Pattern =
    | Keyword(kw: string)
    | LongOrKeyword(long: string, kw: string)

  /** What a successful match yields: no group (bare long name) or the captured token. */
  datatype Match = Bare | Captured(token: string)

  /** The literal `w` occurs at position `i` of `text`, ignoring case. */
  predicate WordAt(text: string, i: nat, w: string) {
    i + |w| <= |text| && LettersFrom(text, i, w, 0)
  }

  /** Letters `k..` of `w` agree, ignoring case, with the text from `i + k` on. */
  predicate LettersFrom(text: string, i: nat, w: string, k: nat)
    requires i + |w| <= |text| && k <= |w|
    decreases |w| - k
  {
    k == |w| || (Fold(text[i + k]) == Fold(w[k]) && LettersFrom(text, i, w, k + 1))
  }

  lemma {:induction false} LettersFromMeans(text: string, i: nat, w: string, k: nat)
    requires i + |w| <= |text| && k <= |w|
    ensures LettersFrom(text, i, w, k) <==> forall m :: k <= m < |w| ==> Fold(text[i + m]) == Fold(w[m])
    decreases |w| - k
  {
    if k < |w| {
      LettersFromMeans(text, i, w, k + 1);
    }
  }

  /** Letter by letter: every letter of `w` equals the text's letter at the same offset, up to case. */
  lemma WordAtMeans(text: string, i: nat, w: string)
    ensures WordAt(text, i, w)
        <==> i + |w| <= |text| && forall m :: 0 <= m < |w| ==> Fold(text[i + m]) == Fold(w[m])
  {
    if i + |w| <= |text| {
      LettersFromMeans(text, i, w, 0);
    }
  }

  /** Where the greedy run `[\s:]*` starting at `j` ends. */
  function SepEnd(text: string, j: nat): (e: nat)
    requires j <= |text|
    ensures j <= e <= |text|
    ensures forall k :: j <= k < e ==> IsSep(text[k])
    ensures e < |text| ==> !IsSep(text[e])
    decreases |text| - j
  {
    if j < |text| && IsSep(text[j]) then SepEnd(text, j + 1) else j
  }

  /** Where the greedy run `[\d\.]+` starting at `j` ends. */
  function NumEnd(text: string, j: nat): (e: nat)
    requires j <= |text|
    ensures j <= e <= |text|
    ensures forall k :: j <= k < e ==> IsNumChar(text[k])
    ensures e < |text| ==> !IsNumChar(text[e])
    decreases |text| - j
  {
    if j < |text| && IsNumChar(text[j]) then NumEnd(text, j + 1) else j
  }

  /**
    The keyword `kw` at `i`, a run of `[\s:]` on `[i + |kw|, j)` and a run of
    `[\d\.]` on `[j, e)` with `e > j`: one way `KW[\s:]*([\d\.]+)` can
    consume text from `i`, backtracking included.
   */
  ghost predicate Split(kw: string, text: string, i: nat, j: nat, e: nat) {
    && i + |kw| <= j < e <= |text|
    && (forall k :: i + |kw| <= k < j ==> IsSep(text[k]))
    && (forall k :: j <= k < e ==> IsNumChar(text[k]))
  }

  /**
    `KW[\s:]*([\d\.]+)` tried at position `i`. Giving back separators to the
    star never helps, since no character is both a separator and a digit or
    period, so the match exists exactly when the keyword is followed, after
    its separators, by a digit or a period; the token then runs as far as
    digits and periods go.
   */
  function KeywordMatchAt(kw: string, text: string, i: nat): (r: Option<Match>)
    requires i <= |text|
    ensures r.Some? ==> WordAt(text, i, kw) && r.value.Captured?
    ensures r.Some? ==> |r.value.token| > 0 && AllNumChars(r.value.token)
    ensures r.Some? ==>
      var s := SepEnd(text, i + |kw|);
      s <= NumEnd(text, s) && r.value.token == text[s..NumEnd(text, s)]
  {
    if !WordAt(text, i, kw) then None
    else
      var s := SepEnd(text, i + |kw|);
      if s < |text| && IsNumChar(text[s]) then Some(Captured(text[s..NumEnd(text, s)])) else None
  }

  /**
    The keyword branch matches at `i` exactly when the keyword is there and
    some split of the text after it fits the pattern.
   */
  lemma KeywordMatchAtMeans(kw: string, text: string, i: nat)
    requires i <= |text|
    ensures KeywordMatchAt(kw, text, i).Some?
        <==> WordAt(text, i, kw) && exists j, e :: Split(kw, text, i, j, e)
  {
    if WordAt(text, i, kw) {
      var s := SepEnd(text, i + |kw|);
      if KeywordMatchAt(kw, text, i).Some? {
        assert Split(kw, text, i, s, s + 1);
      }
      if exists j, e :: Split(kw, text, i, j, e) {
        var j, e :| Split(kw, text, i, j, e);
        SplitAfterSeparators(kw, text, i, j, e);
      }
    }
  }

  /** Any split puts the token right where the greedy separator run ends. */
  lemma SplitAfterSeparators(kw: string, text: string, i: nat, j: nat, e: nat)
    requires Split(kw, text, i, j, e)
    ensures j == SepEnd(text, i + |kw|) && IsNumChar(text[j])
  {
    var s := SepEnd(text, i + |kw|);
    assert s < j ==> SepAt(text, s);
    assert j < s ==> SepAt(text, j) && NumCharAt(text, j);
  }

  /** `text[k]` exists and is in `[\s:]`. */
  predicate SepAt(text: string, k: int) {
    0 <= k < |text| && IsSep(text[k])
  }

  /** `text[k]` exists and is in `[\d\.]`. */
  predicate NumCharAt(text: string, k: int) {
    0 <= k < |text| && IsNumChar(text[k])
  }

  /** The pattern tried at position `i`; the long name is tried before the keyword branch. */
  function MatchAt(p: Pattern, text: string, i: nat): (r: Option<Match>)
    requires i <= |text|
    ensures r == Some(Bare) <==> p.LongOrKeyword? && WordAt(text, i, p.long)
    ensures r.Some? && r.value.Captured? <==>
      !(p.LongOrKeyword? && WordAt(text, i, p.long)) && KeywordMatchAt(p.kw, text, i).Some?
    ensures r.Some? && r.value.Captured? ==> r == KeywordMatchAt(p.kw, text, i)
    ensures r.Some? && r.value.Captured? ==> |r.value.token| > 0 && AllNumChars(r.value.token)
  {
    match p
    case Keyword(kw) => KeywordMatchAt(kw, text, i)
    case LongOrKeyword(long, kw) =>
      if WordAt(text, i, long) then Some(Bare) else KeywordMatchAt(kw, text, i)
  }

  /**
    A pattern captures a token at `i` exactly when its long name, if it has
    one, is not at `i`, and its keyword is, followed by separators and then
    digits or periods.
   */
  lemma MatchAtMeans(p: Pattern, text: string, i: nat)
    requires i <= |text|
    ensures MatchAt(p, text, i).Some? && MatchAt(p, text, i).value.Captured?
        <==> && !(p.LongOrKeyword? && WordAt(text, i, p.long))
             && WordAt(text, i, p.kw)
             && exists j, e :: Split(p.kw, text, i, j, e)
  {
    KeywordMatchAtMeans(p.kw, text, i);
  }

  /** The leftmost match at or after `i`, with its start position. */
  function SearchFrom(p: Pattern, text: string, i: nat): (r: Option<(nat, Match)>)
    requires i <= |text|
    ensures r.None? ==> forall j :: i <= j <= |text| ==> MatchAt(p, text, j).None?
    ensures r.Some? ==> i <= r.value.0 <= |text| && MatchAt(p, text, r.value.0) == Some(r.value.1)
    ensures r.Some? ==> forall j :: i <= j < r.value.0 ==> MatchAt(p, text, j).None?
    decreases |text| - i
  {
    match MatchAt(p, text, i)
    case Some(m) => Some((i, m))
    case None => if i == |text| then None else SearchFrom(p, text, i + 1)
  }

  /** `re.search(pattern, text, re.IGNORECASE)`: the leftmost match, if any. */
  function Search(p: Pattern, text: string): Option<(nat, Match)> {
    SearchFrom(p, text, 0)
  }

  /** `w` occurs, ignoring case, at some position from `j` on. */
  predicate OccursFrom(text: string, w: string, j: nat)
    requires j <= |text|
    decreases |text| - j
  {
    WordAt(text, j, w) || (j < |text| && OccursFrom(text, w, j + 1))
  }

  lemma {:induction false} NotOccurs(text: string, w: string, j: nat)
    requires j <= |text| && !OccursFrom(text, w, j)
    ensures forall k :: j <= k <= |text| ==> !WordAt(text, k, w)
    decreases |text| - j
  {
    if j < |text| {
      NotOccurs(text, w, j + 1);
    }
  }

  /** A pattern none of whose words occurs in the text finds nothing. */
  lemma SearchAbsent(p: Pattern, text: string)
    requires !OccursFrom(text, p.kw, 0)
    requires p.LongOrKeyword? ==> !OccursFrom(text, p.long, 0)
    ensures Search(p, text) == None
  {
    NotOccurs(text, p.kw, 0);
    if p.LongOrKeyword? {
      NotOccurs(text, p.long, 0);
    }
  }

  /** Some character of `text` from `j` on folds to `c`. */
  predicate MentionsFrom(text: string, c: char, j: nat)
    requires j <= |text|
    decreases |text| - j
  {
    j < |text| && (Fold(text[j]) == c || MentionsFrom(text, c, j + 1))
  }

  lemma {:induction false} MentionedAt(text: string, c: char, j: nat, k: nat)
    requires j <= k < |text| && Fold(text[k]) == c
    ensures MentionsFrom(text, c, j)
    decreases k - j
  {
    if j < k {
      MentionedAt(text, c, j + 1, k);
    }
  }

  /** A word containing a letter the text lacks occurs nowhere in it. */
  lemma LetterNeeded(text: string, w: string, k: nat)
    requires k < |w| && !MentionsFrom(text, Fold(w[k]), 0)
    ensures forall j :: 0 <= j <= |text| ==> !WordAt(text, j, w)
  {
    forall j | 0 <= j <= |text| && WordAt(text, j, w) ensures false {
      WordAtMeans(text, j, w);
      MentionedAt(text, Fold(w[k]), 0, j + k);
    }
  }

  /** A pattern each of whose words needs a letter the text lacks finds nothing. */
  lemma SearchMissingLetter(p: Pattern, text: string, k: nat, l: nat)
    requires k < |p.kw| && !MentionsFrom(text, Fold(p.kw[k]), 0)
    requires p.LongOrKeyword? ==> l < |p.long| && !MentionsFrom(text, Fold(p.long[l]), 0)
    ensures Search(p, text) == None
  {
    LetterNeeded(text, p.kw, k);
    if p.LongOrKeyword? {
      LetterNeeded(text, p.long, l);
    }
  }
}
