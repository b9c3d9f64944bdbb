# Feedback re-weighting of item embeddings

This project models the feedback-driven re-weighting step of a movie recommender
(`adjust_embeddings_based_on_feedback` in `app/feedback_analysis.py`). The step reads a log
of like/dislike records, each with a `liked` value, a free-text comment and the title of
the movie it is about. It also reads the catalogue, which has one text and one embedding
vector per movie. From these it builds one multiplier per movie and scales the movie's
vector by it. The proofs are about that step.

- **Classification.** A record goes to the negative pass when its `liked` value, stripped
  and lower-cased, is `"false"`. It goes to the positive pass when that value is `"true"`.
  Any other record is dropped.
- **Keywords.** Each record gets a keyword list:
  - the keyword model's output for the comment, when the comment is not blank;
  - otherwise the title alone, when the title is not blank;
  - otherwise nothing, and the record is skipped.
- **Matching.** For every movie, the step counts how many keywords occur in the movie's
  text, ignoring case.
- **Factors.** A matching movie's multiplier is multiplied by `1 - p * 0.05` for a
  negative record or `1 + p * 0.05` for a positive one. Here `p` is the fraction of the
  record's keywords that matched.
- **Scaling.** Every vector is multiplied by its movie's multiplier.

The project has five modules:

- `PyText` (`text.dfy`) holds the Python string builtins the step uses:
  - `str.isspace`;
  - `str.strip`;
  - the ASCII part of `str.lower`;
  - the substring test `in`.
- `SeqOps` (`seq_ops.dfy`) holds generic folds over sequences:
  - filter, map, product and count;
  - a table of multipliers scaled by a sequence of jobs;
  - their algebra: permutation, splitting, and bounds by powers.
- `FeedbackSpec` (`feedback_spec.dfy`) defines the records and the pure specification:
  - classification, keyword fallback and the keyword count;
  - the factors;
  - the multiplier table `Aggregate`;
  - row scaling `ScaleRows`.
- `FeedbackLaws` (`feedback_laws.dfy`) proves what the table amounts to:
  - each entry is a product of per-record factors;
  - the table does not depend on the order of the log;
  - bounds on every entry;
  - records that cannot change anything;
  - a worked scenario.
- `FeedbackAnalysis` (`feedback_analysis.dfy`) holds the imperative code:
  - the counter loop;
  - the two record passes, which update a multiplier `array<real>` in place;
  - the row-by-row scaling of an `array2<real>` embedding matrix.

  Each of these methods is proved to compute the `FeedbackSpec` definitions.

The keyword model (KeyBERT over a sentence transformer) is a parameter: a function
`Extractor` from text to a list of phrases. The only guard the code itself imposes, that
blank text yields no keyword (`app/feedback_analysis.py:28-29`), is modelled in
`ExtractKeywords`.

## Model

| member | source | states |
|---|---|---|
| PyText.StripEmptyIffBlank | app/feedback_analysis.py:28 | `not s.strip()` holds exactly when every character of `s` is whitespace |
| PyText.StripIsInnerBlock | app/feedback_analysis.py:57 | `strip()` returns the block of the string between a run of leading and a run of trailing whitespace, and that block neither starts nor ends with whitespace |
| PyText.LowerNormalises | app/feedback_analysis.py:89 | lower-casing keeps the length, leaves no upper-case ASCII letter and is idempotent |
| PyText.ContainsIffOccurs | app/feedback_analysis.py:92 | the substring test succeeds exactly when the needle occurs at some position of the text |
| FeedbackSpec.MatchCount | app/feedback_analysis.py:85-94 | the keyword count never exceeds the number of keywords |
| FeedbackSpec.MatchCountIsHits | app/feedback_analysis.py:85-94 | the count equals the number of list positions whose lower-cased keyword occurs in the lower-cased text, so a repeated keyword is counted once per entry |
| FeedbackSpec.MatchCountExtremes | app/feedback_analysis.py:85-94 | the count is 0 exactly when no keyword matches, and equals the list length exactly when every keyword matches |
| FeedbackSpec.MatchIsCaseInsensitive | app/feedback_analysis.py:89-92 | lower-casing the text or the keyword beforehand does not change whether they match |
| FeedbackSpec.ClassifyLoggedValues | app/feedback_handler.py:27 | the logger's `str(False)` and `str(True)` select the negative and the positive pass, padding and case are ignored, and pandas' `nan` selects neither |
| FeedbackSpec.Classify | app/feedback_analysis.py:57-61 | the definition: a record goes to the negative pass exactly when its normalised `liked` is `"false"`, to the positive pass exactly when it is `"true"`, and to neither otherwise |
| FeedbackSpec.SelectedCounts | app/feedback_analysis.py:57-61 | each pass keeps every copy of each record it takes, as many times as the log holds it, and no copy of any other record, so the two passes partition the classified part of the log |
| FeedbackSpec.NormalizeUnpadded | app/feedback_analysis.py:57 | a value with no surrounding whitespace, or the empty value, is normalised by lower-casing alone |
| FeedbackSpec.ExtractKeywords | app/feedback_analysis.py:23-32 | text that strips to nothing yields no keyword, and any other text yields exactly the model's phrases |
| FeedbackSpec.RecordKeywords | app/feedback_analysis.py:99-111 | the definition: a record's keywords are the model's phrases for a non-blank comment when there are any, else the non-blank title alone, else none |
| FeedbackSpec.Factor | app/feedback_analysis.py:116-119 | with no match the factor is 1; with `0 < count <= total` a negative factor lies in `[0.95, 1)` and a positive one in `(1, 1.05]` |
| FeedbackSpec.FactorGrowsWithMatches | app/feedback_analysis.py:117-119 | the more keywords match, the stronger the effect: a negative factor does not grow and a positive one does not shrink with the count, and the full rate (0.95 or 1.05) is reached when every keyword matches |
| FeedbackSpec.ItemFactor | app/feedback_analysis.py:114-120 | a record changes nothing for an item it does not match (in particular with no keywords), and otherwise applies a factor inside its polarity's band |
| FeedbackSpec.Aggregate | app/feedback_analysis.py:83 | the multiplier table has one entry per catalogue item |
| FeedbackSpec.ScaleRows | app/feedback_analysis.py:149-150 | scaling keeps the number of vectors |
| FeedbackSpec.ScaleVector | app/feedback_analysis.py:150 | scaling a vector keeps its dimension |
| FeedbackLaws.AggregateIsProduct | app/feedback_analysis.py:97-146 | each final multiplier is the product of the factors the negative keyword lists give the item times the product of those the positive lists give it |
| FeedbackLaws.PassKeywordsPermutation | app/feedback_analysis.py:60-61 | reordering the log reorders the keyword lists each pass applies, and changes nothing else about them |
| FeedbackLaws.AggregateOrderIndependent | app/feedback_analysis.py:97-146 | any permutation of the feedback log yields the same multiplier table |
| FeedbackLaws.PassKeywordsSkip | app/feedback_analysis.py:110-111 | a record that the pass does not take, or that has no keywords, is absent from that pass's keyword lists wherever it stands |
| FeedbackLaws.UntakenRecordIsNoOp | app/feedback_analysis.py:60-61 | a record whose normalised `liked` is neither `"false"` nor `"true"` changes no multiplier |
| FeedbackLaws.RecordWithoutKeywordsIsNoOp | app/feedback_analysis.py:136-137 | a record with no keywords changes no multiplier |
| FeedbackLaws.SameKeywordsSameEffect | app/feedback_analysis.py:97-120 | what a record contributes depends only on its class and its keyword list |
| FeedbackLaws.TitleFallbackActsAsKeyword | app/feedback_analysis.py:102-109 | a record with an empty comment and a non-blank title acts like a record whose comment the model reduces to that title |
| FeedbackLaws.EmptyLogIsIdentity | app/feedback_analysis.py:83 | with no records every multiplier stays at its initial 1 |
| FeedbackLaws.ScaleRowsByOnes | app/feedback_analysis.py:149-150 | scaling by a table of ones leaves every vector unchanged |
| FeedbackLaws.FactorBands | app/feedback_analysis.py:140-146 | for one item, every keyword list that matches it gives a factor in `[0.95, 1)` (negative) or `(1, 1.05]` (positive), and every other list gives 1 |
| FeedbackLaws.AggregateBounds | app/feedback_analysis.py:114-146 | every multiplier lies between `0.95^kNeg` and `1.05^kPos`, where `kNeg` and `kPos` count the matching negative and positive keyword lists. It is therefore strictly positive. It is below 1 when only negative feedback matches, above 1 when only positive feedback matches, and exactly 1 when none matches |
| FeedbackLaws.SuperheroComedyScenario | app/feedback_analysis.py:97-120 | one disliked record with an empty comment and title "superhero comedy" yields multipliers `[0.95, 1.0]` for the texts "a superhero comedy" and "a sad drama" |
| FeedbackLaws.MatchCountSingle | app/feedback_analysis.py:85-94 | a one-keyword list counts 1 when its keyword matches and 0 otherwise |
| FeedbackAnalysis.CountKeywordOccurrences | app/feedback_analysis.py:85-94 | the counter loop returns `MatchCount`, so at most the number of keywords |
| FeedbackAnalysis.ApplyKeywords | app/feedback_analysis.py:114-120 | after the item loop for one record, each multiplier is its old value times that record's factor for the item (1 for items it does not match) |
| FeedbackAnalysis.ProcessRows | app/feedback_analysis.py:97-111 | after one pass the multiplier array is the old one scaled by the non-empty keyword lists of the pass's rows, in row order |
| FeedbackAnalysis.ComputeMultipliers | app/feedback_analysis.py:83 | a fresh array of ones put through the negative pass and then the positive pass equals `Aggregate` |
| FeedbackAnalysis.ScaleRow | app/feedback_analysis.py:150 | `row *= factor` multiplies row `i` component by component and leaves every other row unchanged |
| FeedbackAnalysis.ScaleEmbeddings | app/feedback_analysis.py:149-150 | after the scaling loop the matrix is the old matrix with row `i` scaled by multiplier `i` |
| FeedbackAnalysis.AdjustEmbeddingsBasedOnFeedback | app/feedback_analysis.py:34-150 | the embedding matrix ends up as the old matrix with vector `i` scaled by entry `i` of `Aggregate`. This holds for an empty log too, which returns early without change |

## Left out

- The keyword model is a parameter (`Extractor`). It has no contract beyond the blank-text
  guard of `extract_keywords` (`app/feedback_analysis.py:28-29`). The cap of three
  phrases (`top_n=3`) and the 1-2 word phrase length are choices of the model, so they
  are not assumed.
- These are I/O on foreign libraries and are not part of this model. Their result is an
  in-memory embedding matrix and a list of item texts, given as parameters:
  - loading the FAISS index and reconstructing its vectors (`app/feedback_analysis.py:64-73`);
  - choosing the `text` or `overview` column (`77-80`);
  - building and writing the new `IndexFlatIP` index (`153-155`).
- Reading the CSV with pandas and the `print` reports are I/O and are not modelled
  (`app/feedback_analysis.py:46-54`, `157-159`). The log is a sequence of `Feedback`
  values. A missing comment or title cell, or a non-string one, is `None`.
- The early return for a missing or empty log file is modelled as "an empty log changes
  nothing" (`AdjustEmbeddingsBasedOnFeedback`, `EmptyLogIsIdentity`).
- `liked` is modelled after `astype(str)`, as a string. How pandas renders booleans and
  empty cells (`"True"`, `"False"`, `"nan"`) is taken from what the logger writes
  (`app/feedback_handler.py:27`).
- Multipliers and embeddings are `float32` in the source and `real` here. Rounding is not
  modelled, so the exact bounds hold for the real-number computation.
- `str.lower` is modelled for ASCII letters only. Other case mappings of Python's
  `str.lower` are not modelled.
- Item texts are strings. A non-string text would make the source raise at `.lower()`,
  and that failure is not modelled.
- `AdjustEmbeddingsBasedOnFeedback` requires at least as many texts as vectors. The source
  reads the texts only in the item loops (`app/feedback_analysis.py:114-115`, `140-141`).
  So with fewer texts than vectors it raises an `IndexError` as soon as one record has
  keywords. A log in which no record has keywords, and an empty or missing log (`46-54`),
  complete without reading the texts. The model excludes the mismatch in all these cases,
  so neither the failure nor those runs that complete are modelled.
- `app/app.py`, `app/recommendation.py` and the CSV writer in `app/feedback_handler.py`
  (user interface, retrieval and log appends) are not part of this model.
- Example: one disliked record (`liked` is `"False"`) with an empty comment and the title
  `"superhero comedy"`, and the item texts `"a superhero comedy"` and `"a sad drama"`. The
  expected multipliers are `[0.95, 1.0]`. One account of this example has the keyword
  model run on the empty comment and return `["superhero", "comedy"]`. The code never hands
  a blank comment to the model: it falls back to the title
  (`app/feedback_analysis.py:103-109`), so the single keyword is `"superhero comedy"`. The
  model follows the code (`SuperheroComedyScenario`). Both ways, every keyword matches
  the first text and none matches the second, so the multipliers are the same.
- In the code, the title fallback also applies when the comment is not blank but the
  model returns no phrase (`app/feedback_analysis.py:104`). The model follows the code.
