/**
 What the multiplier table built by `Aggregate` amounts to: for every item, the product of
 one factor per keyword list of each pass, whatever the order of the log; bounded by powers
 of the two rates; exactly 1 for an item no record matches; unaffected by records neither
 pass takes and by records without keywords.
 */
module FeedbackLaws {
  import opened PyText
  import opened SeqOps
  import opened FeedbackSpec

  /** Whether a keyword list matches an item's text with at least one keyword. */
  function MatchesItem(text: string): seq<string> -> bool {
    (kws: seq<string>) => MatchCount(text, kws) > 0
  }

  /** Each final multiplier is the product `neg` of the factors the negative keyword lists
      give the item times the product `pos` of the factors the positive ones give it. */
  lemma AggregateIsProduct(model: Extractor, records: seq<Feedback>, texts: seq<string>, i: nat)
    returns (neg: real, pos: real)
    requires i < |texts|
    ensures neg == Prod(Column(Weight(Negative, texts), i), PassKeywords(model, records, Negative))
    ensures pos == Prod(Column(Weight(Positive, texts), i), PassKeywords(model, records, Positive))
    ensures Aggregate(model, records, texts)[i] == neg * pos
  {
    neg, pos := TwoRoundsProduct(Ones(|texts|), Weight(Negative, texts), PassKeywords(model, records, Negative),
                                 Weight(Positive, texts), PassKeywords(model, records, Positive), i);
  }

  /** Reordering the log reorders the keyword lists of each pass. */
  lemma PassKeywordsPermutation(model: Extractor, a: seq<Feedback>, b: seq<Feedback>, pol: Polarity)
    requires multiset(a) == multiset(b)
    ensures multiset(PassKeywords(model, a, pol)) == multiset(PassKeywords(model, b, pol))
  {
    PipelinePermutation(InPass(pol), (r: Feedback) => RecordKeywords(model, r), NonEmpty, a, b);
  }

  /** Permuting the feedback log yields the same multiplier table: the order in which
      feedback was given does not matter. */
  lemma AggregateOrderIndependent(model: Extractor, a: seq<Feedback>, b: seq<Feedback>, texts: seq<string>)
    requires multiset(a) == multiset(b)
    ensures Aggregate(model, a, texts) == Aggregate(model, b, texts)
  {
    var ones := Ones(|texts|);
    var wNeg, wPos := Weight(Negative, texts), Weight(Positive, texts);
    PassKeywordsPermutation(model, a, b, Negative);
    PassKeywordsPermutation(model, a, b, Positive);
    ScaleAllPermutation(ones, wNeg, PassKeywords(model, a, Negative), PassKeywords(model, b, Negative));
    ScaleAllPermutation(ScaleAll(ones, wNeg, PassKeywords(model, a, Negative)), wPos,
                        PassKeywords(model, a, Positive), PassKeywords(model, b, Positive));
  }

  /** A record that a pass does not take, or that has no keywords, is invisible to that
      pass wherever it stands in the log. */
  lemma PassKeywordsSkip(model: Extractor, a: seq<Feedback>, r: Feedback, b: seq<Feedback>, pol: Polarity)
    requires Classify(r.liked) != Some(pol) || RecordKeywords(model, r) == []
    ensures PassKeywords(model, a + [r] + b, pol) == PassKeywords(model, a + b, pol)
  {
    PipelineSkip(InPass(pol), (x: Feedback) => RecordKeywords(model, x), NonEmpty, a, r, b);
  }

  /** A record neither pass takes changes no multiplier, wherever it stands in the log. */
  lemma UntakenRecordIsNoOp(model: Extractor, a: seq<Feedback>, r: Feedback, b: seq<Feedback>, texts: seq<string>)
    requires Classify(r.liked) == None
    ensures Aggregate(model, a + [r] + b, texts) == Aggregate(model, a + b, texts)
  {
    PassKeywordsSkip(model, a, r, b, Negative);
    PassKeywordsSkip(model, a, r, b, Positive);
  }

  /** A record without keywords changes no multiplier, wherever it stands in the log. */
  lemma RecordWithoutKeywordsIsNoOp(model: Extractor, a: seq<Feedback>, r: Feedback, b: seq<Feedback>, texts: seq<string>)
    requires RecordKeywords(model, r) == []
    ensures Aggregate(model, a + [r] + b, texts) == Aggregate(model, a + b, texts)
  {
    PassKeywordsSkip(model, a, r, b, Negative);
    PassKeywordsSkip(model, a, r, b, Positive);
  }

  /** Two records with the same `liked` class and the same keyword list have the same
      effect: what a record contributes depends on nothing else. */
  lemma SameKeywordsSameEffect(model: Extractor, a: seq<Feedback>, r1: Feedback, r2: Feedback, b: seq<Feedback>, texts: seq<string>)
    requires Classify(r1.liked) == Classify(r2.liked)
    requires RecordKeywords(model, r1) == RecordKeywords(model, r2)
    ensures Aggregate(model, a + [r1] + b, texts) == Aggregate(model, a + [r2] + b, texts)
  {
    var keywords := (x: Feedback) => RecordKeywords(model, x);
    PipelineReplace(InPass(Negative), keywords, NonEmpty, a, r1, r2, b);
    PipelineReplace(InPass(Positive), keywords, NonEmpty, a, r1, r2, b);
  }

  /** The title fallback: a record with an empty comment and a non-blank title `t` has the
      same effect as a record of the same class whose comment the model reduces to `[t]`. */
  lemma TitleFallbackActsAsKeyword(model: Extractor, a: seq<Feedback>, liked: string, t: string, c: string,
                                   b: seq<Feedback>, texts: seq<string>)
    requires !IsBlank(t) && !IsBlank(c) && model(c) == [t]
    ensures Aggregate(model, a + [Feedback(liked, Some(""), Some(t))] + b, texts)
            == Aggregate(model, a + [Feedback(liked, Some(c), None)] + b, texts)
  {
    KeywordFallback(model, Feedback(liked, Some(""), Some(t)));
    KeywordFallback(model, Feedback(liked, Some(c), None));
    SameKeywordsSameEffect(model, a, Feedback(liked, Some(""), Some(t)), Feedback(liked, Some(c), None), b, texts);
  }

  /** An empty log leaves every multiplier at 1. */
  lemma EmptyLogIsIdentity(model: Extractor, texts: seq<string>)
    ensures Aggregate(model, [], texts) == Ones(|texts|)
    ensures forall i :: 0 <= i < |texts| ==> Aggregate(model, [], texts)[i] == 1.0
  {
    assert Selected([], Negative) == [] && Selected([], Positive) == [];
    assert KeywordLists(model, []) == [];
    assert Filter(NonEmpty, []) == [];
  }

  /** Scaling every row by 1 leaves the matrix as it was, so with an empty log the
      embeddings are written back unchanged. */
  lemma ScaleRowsByOnes(rows: seq<seq<real>>)
    ensures ScaleRows(rows, Ones(|rows|)) == rows
  {
    forall i | 0 <= i < |rows| ensures ScaleRows(rows, Ones(|rows|))[i] == rows[i] {
      assert Ones(|rows|)[i] == 1.0;
      assert ScaleVector(rows[i], 1.0) == rows[i];
    }
  }

  /** The factors a pass gives an item lie in `[1 - PENALTY_RATE, 1)` (negative) or
      `(1, 1 + BOOST_RATE]` (positive) for the keyword lists that match it, and are 1 for the
      others. */
  lemma FactorBands(texts: seq<string>, i: nat)
    requires i < |texts|
    ensures forall kws :: MatchesItem(texts[i])(kws) ==> 1.0 - PENALTY_RATE <= Column(Weight(Negative, texts), i)(kws) < 1.0
    ensures forall kws :: MatchesItem(texts[i])(kws) ==> 1.0 < Column(Weight(Positive, texts), i)(kws) <= 1.0 + BOOST_RATE
    ensures forall kws :: !MatchesItem(texts[i])(kws) ==> Column(Weight(Negative, texts), i)(kws) == 1.0
    ensures forall kws :: !MatchesItem(texts[i])(kws) ==> Column(Weight(Positive, texts), i)(kws) == 1.0
  {
  }

  /** How many keyword lists of the pass of polarity `pol` match item `i`. */
  function MatchingLists(model: Extractor, records: seq<Feedback>, texts: seq<string>, pol: Polarity, i: nat): nat
    requires i < |texts|
  {
    CountIf(MatchesItem(texts[i]), PassKeywords(model, records, pol))
  }

  /** Every entry of the multiplier table lies between `(1 - PENALTY_RATE)^kNeg` and
      `(1 + BOOST_RATE)^kPos`, where `kNeg` and `kPos` count the negative and positive keyword
      lists that match the item; it is strictly positive, below 1 when only negative
      feedback matches the item, above 1 when only positive feedback does, and exactly 1
      when none does. */
  lemma AggregateBounds(model: Extractor, records: seq<Feedback>, texts: seq<string>, i: nat)
    requires i < |texts|
    ensures var m := Aggregate(model, records, texts)[i];
            var kNeg := MatchingLists(model, records, texts, Negative, i);
            var kPos := MatchingLists(model, records, texts, Positive, i);
            && 0.0 < Pow(1.0 - PENALTY_RATE, kNeg) <= m <= Pow(1.0 + BOOST_RATE, kPos)
            && (kNeg > 0 && kPos == 0 ==> m < 1.0)
            && (kNeg == 0 && kPos > 0 ==> m > 1.0)
            && (kNeg == 0 && kPos == 0 ==> m == 1.0)
  {
    FactorBands(texts, i);
    TwoRoundsBounds(Ones(|texts|), Weight(Negative, texts), PassKeywords(model, records, Negative),
                    Weight(Positive, texts), PassKeywords(model, records, Positive),
                    i, MatchesItem(texts[i]), 1.0 - PENALTY_RATE, 1.0 + BOOST_RATE);
  }

  /** The scenario of one disliked item with an empty comment: the title becomes the only
      keyword, the item whose text contains it is penalised by the full rate and an item
      whose text does not contain it keeps its multiplier. */
  lemma SuperheroComedyScenario(model: Extractor)
    ensures Aggregate(model, [Feedback("False", Some(""), Some("superhero comedy"))],
                      ["a " + "superhero comedy", "a sad drama"]) == [0.95, 1.0]
  {
    var texts := ["a " + "superhero comedy", "a sad drama"];
    var kws := ["superhero comedy"];
    ScenarioKeywords(model);
    ScenarioFactors(texts, kws);
    assert ScaleAll(Ones(2), Weight(Negative, texts), [kws]) == Scale(Ones(2), Weight(Negative, texts), kws);
  }

  /** The title's factor: the full penalty on the first item and none on the second. */
  lemma ScenarioFactors(texts: seq<string>, kws: seq<string>)
    requires texts == ["a " + "superhero comedy", "a sad drama"] && kws == ["superhero comedy"]
    ensures ItemFactor(Negative, kws, texts[0]) == 0.95
    ensures ItemFactor(Negative, kws, texts[1]) == 1.0
  {
    ScenarioCounts();
    FactorGrowsWithMatches(1, 1, 1);
  }

  /** In the scenario, the negative pass applies the title alone and the positive pass
      applies nothing. */
  lemma ScenarioKeywords(model: Extractor)
    ensures var r := Feedback("False", Some(""), Some("superhero comedy"));
            && PassKeywords(model, [r], Negative) == [["superhero comedy"]]
            && PassKeywords(model, [r], Positive) == []
  {
    var r := Feedback("False", Some(""), Some("superhero comedy"));
    var keywords := (x: Feedback) => RecordKeywords(model, x);
    ClassifyLoggedValues();
    ScenarioRecordKeywords(model);
    PipelineSingle(InPass(Negative), keywords, NonEmpty, r);
    PipelineSingle(InPass(Positive), keywords, NonEmpty, r);
  }

  /** The scenario's record has a blank comment, so its title is its only keyword. */
  lemma ScenarioRecordKeywords(model: Extractor)
    ensures RecordKeywords(model, Feedback("False", Some(""), Some("superhero comedy"))) == ["superhero comedy"]
  {
    var title := "superhero comedy";
    assert !IsBlank(title) by {
      assert !IsSpace(title[0]);
    }
    KeywordFallback(model, Feedback("False", Some(""), Some(title)));
  }

  /** In the scenario, the title occurs in the first item's text and not in the second's. */
  lemma ScenarioCounts()
    ensures MatchCount("a " + "superhero comedy", ["superhero comedy"]) == 1
    ensures MatchCount("a sad drama", ["superhero comedy"]) == 0
  {
    ScenarioTitleMatches();
    ScenarioTitleMisses();
    MatchCountSingle("a " + "superhero comedy", "superhero comedy");
    MatchCountSingle("a sad drama", "superhero comedy");
  }

  /** The scenario's title occurs at the end of the first item's text. */
  lemma ScenarioTitleMatches()
    ensures Matches("a " + "superhero comedy", "superhero comedy")
  {
    LowerAppend("a ", "superhero comedy");
    ContainsSuffix(Lower("a "), Lower("superhero comedy"));
  }

  /** The scenario's title is longer than the second item's text. */
  lemma ScenarioTitleMisses()
    ensures !Matches("a sad drama", "superhero comedy")
  {
    assert |Lower("superhero comedy")| > |Lower("a sad drama")|;
  }

  /** A one-keyword list counts 1 or 0. */
  lemma MatchCountSingle(text: string, kw: string)
    ensures MatchCount(text, [kw]) == if Matches(text, kw) then 1 else 0
  {
    assert [kw][..0] == [];
  }
}
