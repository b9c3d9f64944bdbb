/**
 The values and pure definitions behind `adjust_embeddings_based_on_feedback`:
 feedback records, the normalisation of their `liked` column, the keyword set each
 record contributes, the case-insensitive keyword count, the per-item factor and the
 multiplier table the two record passes build.
 */
module FeedbackSpec {
  import opened PyText
  import opened SeqOps

  datatype Option<T> = None | Some(value: T)

  /** One row of the feedback log as far as the analysis reads it. `liked` is the
      column's value after `astype(str)`; `None` stands for a missing or non-string cell. */
  datatype Feedback = Feedback(liked: string, comment: Option<string>, title: Option<string>)

  /** A negative record penalises the items it matches, a positive one boosts them. */
  datatype Polarity = Negative | Positive

  /** The keyword extraction model: any text to an ordered list of phrases. */
  type Extractor = string -> seq<string>

  /** Largest relative penalty, reached when every keyword of a negative record matches. */
  const PENALTY_RATE: real := 0.05
  /** Largest relative boost, reached when every keyword of a positive record matches. */
  const BOOST_RATE: real := 0.05

  /** The `liked` value after `.str.strip().str.lower()`. */
  function NormalizeLiked(liked: string): string {
    Lower(Strip(liked))
  }

  /** Which of the two passes, if either, takes the record. */
  function Classify(liked: string): Option<Polarity> {
    var normalized := NormalizeLiked(liked);
    if normalized == "false" then Some(Negative)
    else if normalized == "true" then Some(Positive)
    else None
  }

  /** A cell that is not a string reads as the empty string. */
  function TextOrEmpty(cell: Option<string>): string {
    match cell
    case Some(s) => s
    case None => ""
  }

  /** `extract_keywords`: blank text yields no keyword; otherwise the model decides.
      The source tests `not text.strip()`, which holds exactly for blank text
      (`StripEmptyIffBlank`). */
  function ExtractKeywords(model: Extractor, text: string): (kws: seq<string>)
    ensures Strip(text) == [] ==> kws == []
    ensures Strip(text) != [] ==> kws == model(text)
  {
    StripEmptyIffBlank(text);
    if IsBlank(text) then [] else model(text)
  }

  /** The keyword list a record is matched with: the comment's keywords, else the title
      alone, else nothing. A blank comment is not handed to the extractor. */
  function RecordKeywords(model: Extractor, r: Feedback): seq<string> {
    var comment := TextOrEmpty(r.comment);
    var fromComment := if !IsBlank(comment) then ExtractKeywords(model, comment) else [];
    if fromComment != [] then fromComment
    else
      var title := TextOrEmpty(r.title);
      if !IsBlank(title) then [title] else []
  }

  /** `kw.lower() in text.lower()`. */
  predicate Matches(text: string, kw: string) {
    Contains(Lower(text), Lower(kw))
  }

  /** How many entries of `kws` match `text`, counted left to right. */
  function MatchCount(text: string, kws: seq<string>): (c: nat)
    ensures c <= |kws|
  {
    if kws == [] then 0
    else MatchCount(text, kws[..|kws| - 1]) + (if Matches(text, kws[|kws| - 1]) then 1 else 0)
  }

  /** The factor a record of polarity `pol` applies to an item where `count` of its
      `total` keywords match. */
  function Factor(pol: Polarity, count: nat, total: nat): (f: real)
    requires 0 < total
    ensures count == 0 ==> f == 1.0
    ensures 0 < count <= total && pol == Negative ==> 1.0 - PENALTY_RATE <= f < 1.0
    ensures 0 < count <= total && pol == Positive ==> 1.0 < f <= 1.0 + BOOST_RATE
  {
    var proportion := count as real / total as real;
    assert proportion * total as real == count as real;
    assert 0 < count <= total ==> 0.0 < proportion <= 1.0;
    match pol
    case Negative => 1.0 - proportion * PENALTY_RATE
    case Positive => 1.0 + proportion * BOOST_RATE
  }

  /** What one record with keywords `kws` does to the multiplier of an item with text
      `text`: nothing when no keyword matches, `Factor` otherwise. */
  function ItemFactor(pol: Polarity, kws: seq<string>, text: string): (f: real)
    ensures MatchCount(text, kws) == 0 ==> f == 1.0
    ensures kws == [] ==> f == 1.0
    ensures MatchCount(text, kws) > 0 && pol == Negative ==> 1.0 - PENALTY_RATE <= f < 1.0
    ensures MatchCount(text, kws) > 0 && pol == Positive ==> 1.0 < f <= 1.0 + BOOST_RATE
  {
    var count := MatchCount(text, kws);
    if count > 0 then Factor(pol, count, |kws|) else 1.0
  }

  /** The factor a keyword list applies to item `i` of the catalogue `texts` (1 past the
      end of the catalogue, where no item exists). */
  function Weight(pol: Polarity, texts: seq<string>): (seq<string>, nat) -> real {
    (kws: seq<string>, i: nat) => if i < |texts| then ItemFactor(pol, kws, texts[i]) else 1.0
  }

  /** Whether a row's normalised `liked` puts it in the pass of polarity `pol`. */
  function InPass(pol: Polarity): Feedback -> bool {
    (r: Feedback) => Classify(r.liked) == Some(pol)
  }

  /** The rows of one pass (`df_neg` or `df_pos`), in log order. */
  function Selected(records: seq<Feedback>, pol: Polarity): seq<Feedback> {
    Filter(InPass(pol), records)
  }

  /** The keyword list of each row, in row order. */
  function KeywordLists(model: Extractor, rows: seq<Feedback>): seq<seq<string>> {
    Map((r: Feedback) => RecordKeywords(model, r), rows)
  }

  /** Whether a keyword list has any keyword at all. */
  function NonEmpty(kws: seq<string>): bool {
    kws != []
  }

  /** The keyword lists one pass applies, in log order: rows without keywords are skipped. */
  function PassKeywords(model: Extractor, records: seq<Feedback>, pol: Polarity): seq<seq<string>> {
    Filter(NonEmpty, KeywordLists(model, Selected(records, pol)))
  }

  /** A table of `n` multipliers, all 1. */
  function Ones(n: nat): (m: seq<real>)
    ensures |m| == n
  {
    seq(n, _ => 1.0)
  }

  /** The multiplier table: all ones, then the negative pass, then the positive pass. */
  function Aggregate(model: Extractor, records: seq<Feedback>, texts: seq<string>): (m: seq<real>)
    ensures |m| == |texts|
  {
    var afterNegatives := ScaleAll(Ones(|texts|), Weight(Negative, texts), PassKeywords(model, records, Negative));
    ScaleAll(afterNegatives, Weight(Positive, texts), PassKeywords(model, records, Positive))
  }

  /** A vector multiplied component by component by `factor`. */
  function ScaleVector(v: seq<real>, factor: real): (r: seq<real>)
    ensures |r| == |v|
  {
    seq(|v|, j requires 0 <= j < |v| => v[j] * factor)
  }

  /** The embedding matrix with row `i` multiplied by `factors[i]`. */
  function ScaleRows(rows: seq<seq<real>>, factors: seq<real>): (r: seq<seq<real>>)
    requires |factors| == |rows|
    ensures |r| == |rows|
  {
    seq(|rows|, i requires 0 <= i < |rows| => ScaleVector(rows[i], factors[i]))
  }

  // ---------------------------------------------------------------------------
  // Properties of the single-record definitions

  /** The two spellings the feedback logger writes, `str(True)` and `str(False)`, select
      the positive and the negative pass; surrounding whitespace and ASCII case do not
      matter, and any other value (pandas writes "nan" for an empty cell) selects neither. */
  lemma ClassifyLoggedValues()
    ensures Classify("False") == Some(Negative)
    ensures Classify("True") == Some(Positive)
    ensures Classify(" TRUE\n") == Some(Positive)
    ensures Classify("nan") == None
  {
    NormalizeLoggedFalse();
    NormalizeLoggedTrue();
    PaddedTrue();
    NormalizeNan();
  }

  /** `str(False)` normalises to "false". */
  lemma NormalizeLoggedFalse()
    ensures NormalizeLiked("False") == "false"
  {
    assert Lower("False") == "false" by { LowerAt("False"); }
    NormalizeUnpadded("False");
  }

  /** `str(True)` normalises to "true". */
  lemma NormalizeLoggedTrue()
    ensures NormalizeLiked("True") == "true"
  {
    assert Lower("True") == "true" by { LowerAt("True"); }
    NormalizeUnpadded("True");
  }

  /** pandas' rendering of an empty cell normalises to itself. */
  lemma NormalizeNan()
    ensures NormalizeLiked("nan") == "nan"
  {
    assert Lower("nan") == "nan" by { LowerAt("nan"); }
    NormalizeUnpadded("nan");
  }

  /** Padding and upper case are normalised away. */
  lemma PaddedTrue()
    ensures NormalizeLiked(" TRUE\n") == "true"
  {
    var s := " TRUE\n";
    assert Lower("TRUE") == "true" by { LowerAt("TRUE"); }
    assert TrimStart(s) == "TRUE\n" by {
      assert s[1..] == "TRUE\n";
      assert IsSpace(s[0]) && !IsSpace('T');
    }
    assert TrimEnd("TRUE\n") == "TRUE" by {
      assert "TRUE\n"[..4] == "TRUE";
      assert IsSpace("TRUE\n"[4]) && !IsSpace('E');
    }
  }

  /** A string that neither starts nor ends with whitespace is its own `strip()`. */
  lemma NormalizeUnpadded(s: string)
    requires s == [] || (!IsSpace(s[0]) && !IsSpace(s[|s| - 1]))
    ensures NormalizeLiked(s) == Lower(s)
  {
  }

  /** `Lower` is `LowerChar` at every position. */
  lemma LowerAt(s: string)
    ensures |Lower(s)| == |s| && forall i :: 0 <= i < |s| ==> Lower(s)[i] == LowerChar(s[i])
  {
  }

  /** The two passes partition the log: a pass keeps every copy of a record it takes, in
      the same number, and no copy of any other record. */
  lemma SelectedCounts(records: seq<Feedback>, r: Feedback, pol: Polarity)
    ensures multiset(Selected(records, pol))[r] == if Classify(r.liked) == Some(pol) then multiset(records)[r] else 0
  {
    FilterMultiplicity(InPass(pol), records, r);
  }

  /** The keyword fallback: the comment's keywords when the comment is not blank and the
      model finds some, else the title alone when it is not blank, else nothing. */
  lemma KeywordFallback(model: Extractor, r: Feedback)
    ensures var comment, title := TextOrEmpty(r.comment), TextOrEmpty(r.title);
            var kws := RecordKeywords(model, r);
            && (!IsBlank(comment) && model(comment) != [] ==> kws == model(comment))
            && ((IsBlank(comment) || model(comment) == []) && !IsBlank(title) ==> kws == [title])
            && ((IsBlank(comment) || model(comment) == []) && IsBlank(title) ==> kws == [])
  {
  }

  /** The set of positions in `kws` whose keyword matches `text`. */
  ghost function Hits(text: string, kws: seq<string>): set<nat> {
    set i: nat | i < |kws| && Matches(text, kws[i])
  }

  /** `count_keyword_occurrences` counts list entries: the number of positions of `kws`
      whose keyword, lower-cased, occurs in the lower-cased text. */
  lemma {:induction false} MatchCountIsHits(text: string, kws: seq<string>)
    ensures MatchCount(text, kws) == |Hits(text, kws)|
  {
    if kws != [] {
      var n := |kws| - 1;
      var front := kws[..n];
      MatchCountIsHits(text, front);
      assert forall i: nat :: i < n ==> front[i] == kws[i];
      if Matches(text, kws[n]) {
        assert Hits(text, kws) == Hits(text, front) + {n};
      } else {
        assert Hits(text, kws) == Hits(text, front);
      }
    }
  }

  /** The count is 0 exactly when no keyword matches and equals `|kws|` exactly when every
      keyword matches. */
  lemma {:induction false} MatchCountExtremes(text: string, kws: seq<string>)
    ensures MatchCount(text, kws) == 0 <==> forall i :: 0 <= i < |kws| ==> !Matches(text, kws[i])
    ensures MatchCount(text, kws) == |kws| <==> forall i :: 0 <= i < |kws| ==> Matches(text, kws[i])
  {
    if kws != [] {
      var n := |kws| - 1;
      MatchCountExtremes(text, kws[..n]);
      assert forall i :: 0 <= i < n ==> kws[..n][i] == kws[i];
    }
  }

  /** Case does not matter on either side of the match. */
  lemma MatchIsCaseInsensitive(text: string, kw: string)
    ensures Matches(text, kw) == Matches(Lower(text), kw) == Matches(text, Lower(kw))
  {
    LowerNormalises(text);
    LowerNormalises(kw);
  }

  /** The effect of a record on an item grows with the share of its keywords the item
      matches, and reaches the full rate when every keyword matches. */
  lemma FactorGrowsWithMatches(count1: nat, count2: nat, total: nat)
    requires count1 <= count2 <= total && 0 < total
    ensures Factor(Negative, count2, total) <= Factor(Negative, count1, total)
    ensures Factor(Positive, count1, total) <= Factor(Positive, count2, total)
    ensures Factor(Negative, total, total) == 1.0 - PENALTY_RATE
    ensures Factor(Positive, total, total) == 1.0 + BOOST_RATE
  {
    var t := total as real;
    var p1, p2 := count1 as real / t, count2 as real / t;
    assert p1 * t == count1 as real && p2 * t == count2 as real;
    QuotientGrows(count1 as real, count2 as real, t);
    assert t / t == 1.0;
  }

  /** Dividing by the same positive number keeps the order. */
  lemma QuotientGrows(a: real, b: real, t: real)
    requires a <= b && 0.0 < t
    ensures a / t <= b / t
  {
    var d := b / t - a / t;
    assert d * t == b - a;
  }
}
