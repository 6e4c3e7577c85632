# interpret: `measure_interactions` and libebm's forgiving string helpers, in Dafny

This project models two parts of InterpretML.

**`measure_interactions`** is the Python entry point that ranks pairwise feature
interactions with the FAST algorithm. Before the ranking kernel runs, it goes through a
cascade of decisions and checks:

1. It rejects a target `y` that is not one-dimensional or that is empty.
2. It decides whether the problem is classification or regression. The evidence is
   taken in a fixed priority order:
   - a named objective (through the native link lookup);
   - a fitted baseline model passed as `init_score`;
   - the dimensionality of the cleaned initial scores;
   - a guess from the target's type.

   Each source of evidence that speaks fixes the kind. A later source that disagrees is
   an error.
3. It encodes the target into class indices. Without a catalog it uses the sorted
   distinct labels. With a classifier baseline it uses that model's `classes_`.
4. It picks the default objective (`log_loss` or `rmse`).
5. It validates the shape of the initial scores against the class count. For a single
   class the scores are discarded.
6. It checks the sample weights.
7. It enumerates the candidate pairs and the number of results wanted.
8. It hands everything to the ranker.
9. It reverses each `(strength, term)` item the ranker returns into `(term, strength)`.

**libebm's C helpers** scan NUL-terminated strings:
- `SkipWhitespace` skips the space character and the characters 0x09 to 0x0D.
- `ConvertStringToFloat` wraps `strtod` and skips the whitespace after the number.
- `IsStringEqualsCaseInsensitive` matches a label with ASCII-only case folding and then
  skips trailing whitespace.
- `IsStringEqualsForgiving` also requires the string to end there.

## Layout

- `wrappers.dfy`, module `Wrappers`: `Option` and `Result`. `Result` supports `:-`.
- `common_c.dfy`, module `CommonC`: the C helpers.
  - Each helper is a method whose `while` loops advance an index into the string, as the
    C code advances its pointer.
  - A string is a `seq<char>` whose only NUL is its last element (`IsCString`).
  - A NULL pointer result is `None`.
- `target_encoding.dfy`, module `TargetEncoding`: the two target encodings.
  - `np.unique(y, return_inverse=True)` is modelled by `EncodeSorted`.
  - `dict(zip(classes, count()))` is modelled by `InvertClasses`. When a catalog lists a
    label twice, the label keeps the index of its last occurrence.
- `candidates.dfy`, module `Candidates`: `combinations(range(n), 2)` as `Combinations2`,
  with its order, count and completeness.
- `measure_interactions.dfy`, module `InteractionMeasure`: the cascade.
  - Each stage is specified by a function, and `Prepare` and `Measure` compose them.
  - The methods `ResolveProblemKind` and `MeasureInteractions` follow the source's order
    of reassignments and early exits, and are proved to compute `ResolveKind` and
    `Measure`.
  - Each error exit of the source maps to an `Error` value, except that the three
    shape-mismatch raises (lines 183, 188 and 195) share `InitScoreShapeMismatch`.
  - `LinkLookupFailed` is not a `raise` of this file. It stands for the exception the
    native library raises when `determine_link` does not know an objective.

The external collaborators are fields of the `Collaborators` datatype, so every result
holds for every possible behaviour of them:
- `determine_link`, returning `None` where the native library raises;
- `get_output_type`;
- `construct_bins`, seen through the number of binned features;
- `rank_interactions`.

The results of the scikit-learn and cleaning helpers are inputs:
- `type_of_target` is the `TargetType` enum;
- `is_classifier` and `is_regressor` are the variants of `InitScore`;
- the cleaned `init_score` and `sample_weight` are their shapes.

The result-pair reversal follows the code. The ranker's items are `(strength, term)`
pairs (the docstring, lines 67-69, shows `((1, 2), 0.134)` as the output). So
`map(reversed, ...)` at line 263 swaps strength and term, and leaves the order of the
feature indices inside a term unchanged. A reading in which the feature indices of each
term are reversed does not match the code. `ReverseEach` is written generically and so
covers either item type.

## Model

| member | source | states |
|---|---|---|
| `CommonC.SkipWhitespace` | shared/libebm/common_c/common_c.c:17-25 | The result is at or after the start, every char skipped is a space or in 0x09..0x0D, and the char at the result is neither (the terminator stops it). |
| `CommonC.ConvertStringToFloat` | shared/libebm/common_c/common_c.c:27-49 | NULL exactly when the parse consumed nothing or reported a NULL end. In that case the output keeps its old value. Otherwise the output is the parsed value, and the result is the first non-whitespace position at or after the parse end. |
| `CommonC.ToLowerAscii` | shared/libebm/common_c/common_c.c:59-67 | Only 'A'..'Z' change, each to the lower-case letter at the same alphabet position. Every other char is unchanged, and no result is an upper-case letter. |
| `CommonC.FoldedEqualityIsCaseInsensitive` | shared/libebm/common_c/common_c.c:59-70 | Two chars compare equal after folding exactly when they are equal, or are the same ASCII letter in different case. |
| `CommonC.ShortMainNeverMatches` | shared/libebm/common_c/common_c.c:58-75 | A main string whose remaining text is shorter than the label never matches it, because the main terminator meets a non-NUL label char. |
| `CommonC.IsStringEqualsCaseInsensitive` | shared/libebm/common_c/common_c.c:51-82 | NULL exactly when some label position differs from the main string after folding. On a match, the result is at least the start plus the label length, everything between is whitespace, and the char at the result is not. |
| `CommonC.IsStringEqualsForgiving` | shared/libebm/common_c/common_c.c:84-90 | True exactly when the label matches at the start and only whitespace follows it up to the terminator. |
| `TargetEncoding.UniqueSorted` | python/interpret-core/interpret/utils/_measure_interactions.py:167 | The classes are strictly increasing and hold exactly the labels that occur in y. |
| `TargetEncoding.EncodeSorted` | python/interpret-core/interpret/utils/_measure_interactions.py:165-167 | Gives sorted distinct classes and one index per sample. Each index points into the classes at that sample's label, so decoding gives back y. |
| `TargetEncoding.InvertClasses` | python/interpret-core/interpret/utils/_measure_interactions.py:169 | The keys are exactly the catalog's labels. Each key maps to a position of its label, and no later position holds that label (the last occurrence wins). |
| `TargetEncoding.LookUpAll` | python/interpret-core/interpret/utils/_measure_interactions.py:170 | Succeeds exactly when every label of y is a key, and then maps each sample through the index. Otherwise the error is the first label of y that is not a key (the KeyError). |
| `TargetEncoding.EncodeWithCatalog` | python/interpret-core/interpret/utils/_measure_interactions.py:168-170 | Succeeds exactly when every label of y is in the catalog. Decoding then gives back y, at the label's last catalog position. Otherwise the error is the first label of y missing from the catalog. |
| `Candidates.PairsFrom` | python/interpret-core/interpret/utils/_measure_interactions.py:240 | The pairs whose first index is at least i: only pairs below n, strictly increasing in lexicographic order, and (n-i)(n-i-1)/2 of them. |
| `Candidates.Combinations2` | python/interpret-core/interpret/utils/_measure_interactions.py:240 | `combinations(range(n), 2)`: only pairs (i, j) with i < j < n, strictly increasing in lexicographic order, and n(n-1)/2 of them. |
| `Candidates.Combinations2Distinct` | python/interpret-core/interpret/utils/_measure_interactions.py:240 | No pair is enumerated twice. |
| `Candidates.PairsFromComplete` | python/interpret-core/interpret/utils/_measure_interactions.py:240 | Every pair (a, b) with i <= a < b < n is among the pairs from i. |
| `Candidates.Combinations2Complete` | python/interpret-core/interpret/utils/_measure_interactions.py:240 | Every pair (a, b) with a < b < n is enumerated. |
| `InteractionMeasure.ResolveObjective` | python/interpret-core/interpret/utils/_measure_interactions.py:87-104 | An absent or blank objective leaves everything unresolved. For a named one: the link lookup fails exactly when the native lookup does. A classification output type gives classification, and a regression output type gives regression. Any other output type is exactly the unknown-objective error. On success the link and its parameter are the looked-up ones and no catalog is set. |
| `InteractionMeasure.ApplyBaselineModel` | python/interpret-core/interpret/utils/_measure_interactions.py:106-124 | A classifier baseline fixes classification and supplies its catalog, and fails when regression was already fixed. Otherwise it succeeds exactly when a link exists or the default `log_loss` lookup succeeds, and a missing link becomes that default. A regressor baseline likewise fixes regression, fails when classification was already fixed, and otherwise defaults the link to `rmse`'s. Any other baseline changes nothing. An existing link, the link parameter and the objective are kept. |
| `InteractionMeasure.ApplyCleanedScore` | python/interpret-core/interpret/utils/_measure_interactions.py:126-138 | Scores of ndim 2 force classification, and fail when regression was already fixed. Other scores change nothing. |
| `InteractionMeasure.GuessFromTarget` | python/interpret-core/interpret/utils/_measure_interactions.py:140-161 | Consulted only when the kind is undecided: continuous gives regression and binary gives classification. Multiclass gives classification without initial scores and regression with them. Anything else is an error. Only the kind changes. |
| `InteractionMeasure.ResolveKind` | python/interpret-core/interpret/utils/_measure_interactions.py:85-161 | On success the kind is decided, and a blank objective is dropped. The objective's kind always wins. A classifier baseline gives classification with its catalog, a regressor gives regression, and matrix scores give classification. A failing objective, the three conflicts and a failing default-link lookup each fail with their own error. With no earlier evidence, the target-type rules decide. Conversely, every failure is one of these exits under its condition, so the cascade succeeds whenever no rule is contradicted. |
| `InteractionMeasure.TargetTypeIgnoredOnceDecided` | python/interpret-core/interpret/utils/_measure_interactions.py:140 | When an objective, a fitted baseline or matrix scores are present, changing the target-type guess changes nothing. |
| `InteractionMeasure.RegressorWithMatrixScoresFails` | python/interpret-core/interpret/utils/_measure_interactions.py:117-138 | A regressor baseline whose cleaned scores are a matrix always fails. |
| `InteractionMeasure.BlankObjectiveIsAbsent` | python/interpret-core/interpret/utils/_measure_interactions.py:91-93 | A whitespace-only objective gives exactly the outcome of passing no objective. |
| `InteractionMeasure.ResolveProblemKind` | python/interpret-core/interpret/utils/_measure_interactions.py:85-161 | The cascade, reassigning `objective`, `link`, `link_param`, `is_classification` and `classes` in source order, computes `ResolveKind`. |
| `InteractionMeasure.EncodeTarget` | python/interpret-core/interpret/utils/_measure_interactions.py:163-178 | Regression keeps y. Classification yields indices that decode back to y. Without a catalog the classes are y's distinct labels, sorted. With a catalog it succeeds exactly when every label is listed, keeps the catalog, and otherwise names an unlisted label. |
| `InteractionMeasure.ClassCount` | python/interpret-core/interpret/utils/_measure_interactions.py:171-176 | `n_classes` is the number of classes of a classification target, and -1 exactly for a regression target. |
| `InteractionMeasure.ClassCountPositive` | python/interpret-core/interpret/utils/_measure_interactions.py:163-171 | A non-empty y encoded for classification has at least one class. |
| `InteractionMeasure.ValidateInitScore` | python/interpret-core/interpret/utils/_measure_interactions.py:180-198 | For 2 classes or regression, valid iff ndim is 1. For 3 or more classes, valid iff ndim is 2 with one column per class. For 1 class, invalid iff ndim is 2 with at least 2 columns, and otherwise the scores are discarded. A kept score is unchanged, and the only error is a shape mismatch. |
| `InteractionMeasure.CheckSampleWeight` | python/interpret-core/interpret/utils/_measure_interactions.py:200-208 | Accepted iff absent, or one-dimensional and as long as y, and then unchanged. Otherwise the error says which check failed, with both lengths. |
| `InteractionMeasure.EnumerateCandidates` | python/interpret-core/interpret/utils/_measure_interactions.py:238-246 | An integer K or None gives all pairs below the feature count in lexicographic order, with count K or 0. An explicit list passes through as given, with count 0. |
| `InteractionMeasure.ReverseEach` | python/interpret-core/interpret/utils/_measure_interactions.py:263 | Keeps the length and the order of the items, and swaps the two parts of each item. |
| `InteractionMeasure.ReverseEachTwice` | python/interpret-core/interpret/utils/_measure_interactions.py:263 | Reversing each item twice gives back the ranker's items. |
| `InteractionMeasure.ReverseEachKeepsStrengthOrder` | python/interpret-core/interpret/utils/_measure_interactions.py:67-69 | Items the ranker orders by decreasing strength stay ordered by decreasing strength after reversal. |
| `InteractionMeasure.Prepare` | python/interpret-core/interpret/utils/_measure_interactions.py:72-261 | The checks run in source order: y not 1-D, empty y, the resolution, the target encoding, the init-score shape, then the weights. Each failing check gives its own error, and the preparation succeeds exactly when none fails. The request's target is y (regression) or indices that decode back to y. `n_classes` is the class count (at least 1) or -1. The classes are the catalog or y's sorted distinct labels. The objective is the one named, else `rmse` or `log_loss` by kind. The initial scores agree with the class count: 1-D for 2 classes or regression, one column per class for 3 or more, and dropped for 1 class. The weights are 1-D and as long as y. The feature count is what binning the target and weights gives. The candidate setup, the empty exclusion set, 2^20 cardinality, no privacy and two dimensions are passed on. |
| `InteractionMeasure.PlainInputSucceeds` | python/interpret-core/interpret/utils/_measure_interactions.py:72-263 | A 1-D non-empty y, an objective that resolves (or none, with a recognised target type), no initial scores and matching or absent weights always reach the ranker. |
| `InteractionMeasure.Measure` | python/interpret-core/interpret/utils/_measure_interactions.py:37-263 | Fails exactly when the preparation fails, with its error. Otherwise it returns the ranker's items for the prepared request, in order, each as `(term, strength)`. |
| `InteractionMeasure.MeasureInteractions` | python/interpret-core/interpret/utils/_measure_interactions.py:37-263 | The step-by-step function, with its early exits, computes `Measure`. |

## Left out

- Native engine: `Native.get_native_singleton`, `determine_link` and `get_output_type` are the functions `determineLink` and `outputType` of `Collaborators`. A lookup that raises is `None`, reported as `LinkLookupFailed`.
- `rank_interactions` is a foreign numeric kernel over float histograms. It is the opaque function `rankInteractions`, and its items are taken as given.
- Binning and dataset materialisation (`construct_bins`, `bin_native_by_dimension`) are library code over native buffers. Only the number of binned features is modelled, and the feature names and types it returns are not.
- The cleaning helpers `preclean_X`, `clean_init_score_and_X`, `clean_dimensions` and `typify_classification` are library code.
  - Only the resulting `ndim` and `shape[1]` of the scores and `ndim` and length of the weights are modelled.
  - How the link and its parameter shape the cleaned scores is not modelled.
  - `X`, the feature names and the feature types are not modelled.
- The scikit-learn helpers `type_of_target`, `is_classifier` and `is_regressor` are replaced by the `TargetType` enum and the `InitScore` variants. The float or unicode cast before `type_of_target` is not modelled.
- Labels are integers, ordered as `np.unique` orders them. Labels of other types (strings, objects) are not modelled.
- A regression target is carried as the same integer values (`RegressionValues` holds `seq<Label>`), because the cascade never inspects regression values. Non-integer regression values and the float64 cast are not represented.
- The `astype(np.float64)` casts of y and of the weights have no effect on the values the cascade inspects, and are left out.
- Logging, the `bag=None` and `experimental_params=None` arguments, and `Native.InteractionFlags_Pure` are left out, because they are constant or have no effect on the modelled behaviour.
- `strtod` inside `ConvertStringToFloat` is C floating-point parsing. It is the input `parse`: the parsed value and the end position it reports.
- `ConvertStringToFloat`: the pointer `pResultOut` is modelled as the value it holds before (`resultIn`) and after (`resultOut`) the call.
- The `EBM_ASSERT`s (common_c.c lines 31-32 and 56) are debug-only. The one at line 56 says the main string does not start with whitespace; the model does not demand this of callers, and the helpers are proved for any start.
- shared/ebm_native/compute/registration_exceptions.hpp declares exception classes with no behaviour, and is not modelled.
- C `char` may be signed. A char at or above 0x80 is then negative, and fails both the whitespace and the 'A'..'Z' tests, as a code point above 0x7F fails them in the model.
