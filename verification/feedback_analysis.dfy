/**
 The loops of `adjust_embeddings_based_on_feedback`, in place: the keyword counter, the
 negative and positive passes over the feedback rows that update a multiplier array item by
 item, and the scaling of the embedding matrix row by row. Each is proved to compute the
 pure definitions of `FeedbackSpec`.
 */
module FeedbackAnalysis {
  import opened PyText
  import opened SeqOps
  import opened FeedbackSpec
  import opened FeedbackLaws

  /** `count_keyword_occurrences`: how many entries of `keywords`, lower-cased, occur in the
      lower-cased text. */
  method CountKeywordOccurrences(text: string, keywords: seq<string>) returns (count: nat)
    ensures count == MatchCount(text, keywords)
    ensures count <= |keywords|
  {
    var textLower := Lower(text);
    count := 0;
    for k := 0 to |keywords|
      invariant count == MatchCount(text, keywords[..k])
    {
      assert keywords[..k + 1][..k] == keywords[..k];
      if Contains(textLower, Lower(keywords[k])) {
        count := count + 1;
      }
    }
    assert keywords[..|keywords|] == keywords;
  }

  /** The inner loop over the items for one feedback row with keyword list `keywords`: every
      item whose text matches some keyword has its multiplier multiplied by the row's
      factor. */
  method ApplyKeywords(multipliers: array<real>, texts: seq<string>, pol: Polarity, keywords: seq<string>)
    requires multipliers.Length <= |texts|
    modifies multipliers
    ensures multipliers[..] == Scale(old(multipliers[..]), Weight(pol, texts), keywords)
  {
    ghost var before := multipliers[..];
    ghost var after := Scale(before, Weight(pol, texts), keywords);
    for i := 0 to multipliers.Length
      invariant multipliers[..i] == after[..i]
      invariant forall j :: i <= j < multipliers.Length ==> multipliers[j] == before[j]
    {
      var count := CountKeywordOccurrences(texts[i], keywords);
      if count > 0 {
        var factor := Factor(pol, count, |keywords|);
        multipliers[i] := multipliers[i] * factor;
      }
      assert multipliers[i] == after[i];
      assert multipliers[..i + 1] == multipliers[..i] + [multipliers[i]];
      assert after[..i + 1] == after[..i] + [after[i]];
    }
    assert multipliers[..] == multipliers[..multipliers.Length];
    assert after == after[..multipliers.Length];
  }

  /** One pass (`df_neg` or `df_pos`): the rows in order; a row without keywords is skipped,
      any other row goes through `ApplyKeywords`. */
  method ProcessRows(multipliers: array<real>, texts: seq<string>, pol: Polarity, model: Extractor, rows: seq<Feedback>)
    requires multipliers.Length <= |texts|
    modifies multipliers
    ensures multipliers[..] == ScaleAll(old(multipliers[..]), Weight(pol, texts), Filter(NonEmpty, KeywordLists(model, rows)))
  {
    ghost var before := multipliers[..];
    for k := 0 to |rows|
      invariant multipliers[..] == ScaleAll(before, Weight(pol, texts), Filter(NonEmpty, KeywordLists(model, rows[..k])))
    {
      ScaleAllPrefixStep(before, Weight(pol, texts), (r: Feedback) => RecordKeywords(model, r), NonEmpty, rows, k);
      var keywords := RecordKeywords(model, rows[k]);
      if keywords == [] {
        continue;
      }
      ApplyKeywords(multipliers, texts, pol, keywords);
    }
    assert rows[..|rows|] == rows;
  }

  /** The multiplier array: ones, then the negative pass, then the positive pass. */
  method ComputeMultipliers(model: Extractor, records: seq<Feedback>, texts: seq<string>) returns (multipliers: array<real>)
    ensures fresh(multipliers)
    ensures multipliers[..] == Aggregate(model, records, texts)
  {
    multipliers := new real[|texts|](_ => 1.0);
    assert multipliers[..] == Ones(|texts|);
    ProcessRows(multipliers, texts, Negative, model, Selected(records, Negative));
    ProcessRows(multipliers, texts, Positive, model, Selected(records, Positive));
  }

  /** The embedding matrix as a sequence of rows. */
  ghost function Rows(embs: array2<real>): seq<seq<real>>
    reads embs
  {
    seq(embs.Length0, i requires 0 <= i < embs.Length0 reads embs =>
      seq(embs.Length1, j requires 0 <= j < embs.Length1 reads embs => embs[i, j]))
  }

  /** numpy's in-place `row *= factor` on row `i` of the embedding matrix. */
  method ScaleRow(embs: array2<real>, i: nat, factor: real)
    requires i < embs.Length0
    modifies embs
    ensures Rows(embs) == old(Rows(embs))[i := ScaleVector(old(Rows(embs))[i], factor)]
  {
    ghost var before := Rows(embs);
    ghost var row := ScaleVector(before[i], factor);
    for j := 0 to embs.Length1
      invariant forall c :: 0 <= c < j ==> embs[i, c] == row[c]
      invariant forall c :: j <= c < embs.Length1 ==> embs[i, c] == before[i][c]
      invariant forall r, c :: 0 <= r < embs.Length0 && r != i && 0 <= c < embs.Length1 ==> embs[r, c] == before[r][c]
    {
      embs[i, j] := embs[i, j] * factor;
    }
    forall r | 0 <= r < embs.Length0 ensures Rows(embs)[r] == before[i := row][r] {
      if r == i {
        assert Rows(embs)[i] == row;
      } else {
        assert Rows(embs)[r] == before[r];
      }
    }
  }

  /** The scaling loop: vector `i` of the embedding matrix is multiplied by multiplier `i`. */
  method ScaleEmbeddings(embs: array2<real>, multipliers: array<real>)
    requires multipliers.Length == embs.Length0
    modifies embs
    ensures Rows(embs) == ScaleRows(old(Rows(embs)), multipliers[..])
  {
    ghost var before := Rows(embs);
    ghost var after := ScaleRows(before, multipliers[..]);
    for i := 0 to embs.Length0
      invariant forall r :: 0 <= r < i ==> Rows(embs)[r] == after[r]
      invariant forall r :: i <= r < embs.Length0 ==> Rows(embs)[r] == before[r]
    {
      ScaleRow(embs, i, multipliers[i]);
      assert multipliers[..][i] == multipliers[i];
    }
    assert forall r :: 0 <= r < embs.Length0 ==> Rows(embs)[r] == after[r];
  }

  /** `adjust_embeddings_based_on_feedback` on the in-memory data: the catalogue has
      `embs.Length0` vectors and at least as many texts; an empty log returns early. Vector
      `i` ends up scaled by the `i`-th entry of the multiplier table. */
  method AdjustEmbeddingsBasedOnFeedback(model: Extractor, records: seq<Feedback>, texts: seq<string>, embs: array2<real>)
    requires embs.Length0 <= |texts|
    modifies embs
    ensures Rows(embs) == ScaleRows(old(Rows(embs)), Aggregate(model, records, texts[..embs.Length0]))
  {
    if records == [] {
      EmptyLogIsIdentity(model, texts[..embs.Length0]);
      ScaleRowsByOnes(Rows(embs));
      return;
    }
    var multipliers := ComputeMultipliers(model, records, texts[..embs.Length0]);
    ScaleEmbeddings(embs, multipliers);
  }
}
