# CDSSM letter-trigram preprocessor, modelled in Dafny

This project models MatchZoo's `CDSSMPreprocessor`
(`matchzoo/preprocessors/cdssm_preprocessor.py`). The preprocessor turns
paired texts (a left text and a right text per record) into fixed-shape
letter-n-gram matrices for the CDSSM text-matching model. It is a two-state
machine with two operations:

- `fit` packs the training records into a DataPack. It runs every left text
  and every right text through the unit chain (tokenize, lowercase, remove
  punctuation, remove stopwords, letter n-grams) and pools all the n-grams
  into one corpus. It fits a vocabulary on that corpus. It records
  `term_index`, `dim_ngram = |term_index| + 1` and
  `input_shapes = [(text_length, dim_ngram), (text_length, dim_ngram)]`.
- `transform` refuses to run before `fit`. For `evaluate` and `predict` it
  packs the new inputs into a fresh DataPack. For any other stage it works
  on the retained pack in place. Each text is normalised and each token's
  n-grams are hashed into one vector. The vectors are flattened and padded or
  truncated to exactly `text_length * dim_ngram` values. The result is
  reshaped into `text_length` rows. The text cell receives the matrix and
  the length field receives `min(flat_length, text_length) * dim_ngram`.

The preprocessor is an immutable value (`Cdssm.Preprocessor`): a `Config`
holding the constructor arguments and a `Phase`. The phase is `Unfitted` or
`Ready(fitted, dataPack)`. `fitted` holds `term_index`, `dim_ngram` and
`input_shapes`. `dataPack` is the retained working pack. `Fit` and
`Transform` return the updated preprocessor instead of mutating it.
Exceptions become a `Result` with an `Error`.

Modules, leaves first:

- `Wrappers` (`wrappers.dfy`): `Option` and `Result`.
- `FixedLength` (`fixed_length.dfy`): the FixedLengthUnit. It is defined
  concretely from the constructor's documentation of `pad_mode` and
  `truncate_mode`.
- `Shape` (`shape.dfy`): flattening (`itertools.chain`) and numpy's
  `reshape(flat, (rows, -1))`, with both round trips.
- `Packs` (`packs.dfy`): raw records, rows, cells, the DataPack and the errors.
- `Units` (`units.dfy`): the collaborators whose code is not part of this
  model. These are `pack`, TokenizeUnit, LowercaseUnit, PuncRemovalUnit,
  StopRemovalUnit, NgramLetterUnit, VocabularyUnit and WordHashingUnit. They
  are fields of a `Units` value of total functions passed to `Fit` and
  `Transform`. What the model assumes of them is written as three
  predicates:
  - `VocabularyAssumed`: `term_index` holds exactly the corpus's distinct
    n-grams, with distinct indices forming `1..|term_index|`.
  - `HashingAssumed`: each token yields one vector of width
    `|term_index| + 1`.
  - `NgramPerTokenAssumed`: an n-gram of one token is also an n-gram of
    any token list containing that token.

  These predicates appear only as `requires` of lemmas or as the premise
  of an `==>` in a function's `ensures`.
  `FirstSeenVocabulary` is one VocabularyUnit that provably meets
  `VocabularyAssumed`.
- `Cdssm` (`cdssm.dfy`): the preprocessor, `Fit`, `Transform` and the
  properties that relate them.

Choices where the source leaves room for interpretation:

- Where the vocabulary is read. Line 133 replaces the working pack for
  `evaluate`/`predict`, and line 139 then reads `term_index` from the new
  pack's context. The model reads `term_index` from the fitted state. The
  retained pack never supplies the vocabulary.
- Hashing granularity. Line 151 calls the hashing unit once per element of
  the list built on line 150, and each element is one token's n-gram list.
  The model therefore has one vector per token.
- The length field. It is kept exactly as written on line 156:
  `min(flat_length, text_length) * dim_ngram`. `flat_length` counts scalar
  values, while `text_length` counts rows. `FixedLength.FixLengthContent`
  says which positions of the fixed-length values hold the flat values
  (`min(flat_length, text_length * dim_ngram)` of them) and which hold the
  pad value. `Cdssm.StoredLengthVersusContent` restates both counts over the
  `k` normalised tokens: `min(k, text_length)` rows carry hashed values,
  while the stored length is `min(k * dim_ngram, text_length) * dim_ngram`.
  That is already the full `text_length * dim_ngram` once
  `k * dim_ngram >= text_length`. It is never below the number of values
  that are not padding, and strictly above it whenever `dim_ngram > 1` and
  `0 < k < text_length`.
- Reshape with zero rows. numpy cannot infer the `-1` width for zero rows,
  even for an empty array. So with `text_length == 0`, transforming any row
  fails (`ReshapeFailed`), while an empty table transforms fine.
- Overwritten text cells. Line 158 overwrites the `text_left` cell with the
  matrix. A second train-stage transform would therefore feed a matrix to
  the tokenizer. The model reports that as `NotRawText`.

## Model

| member | source | states |
|---|---|---|
| `FixedLength.FixLength` | matchzoo/preprocessors/cdssm_preprocessor.py:50-57 | the output has exactly the target length; a longer input loses values at the beginning (`pre`) or the end (`post`); a shorter input is kept whole with pad values before (`pre`) or after (`post`) it |
| `FixedLength.FixLengthContent` | matchzoo/preprocessors/cdssm_preprocessor.py:50-57 | in every mode, the fixed output holds as many input values as the smaller of the input length and the target length, in one contiguous block (after the padding under `pre` padding, from the start otherwise): the last ones under `pre` truncation, the first ones under `post`; every other position holds the pad value |
| `FixedLength.FixLengthIdempotent` | matchzoo/preprocessors/cdssm_preprocessor.py:140-142 | fixing the length of an already fixed sequence changes nothing |
| `Shape.Flatten` | matchzoo/preprocessors/cdssm_preprocessor.py:153 | a value occurs in the flattened list exactly when it occurs in one of the vectors |
| `Shape.Reshape` | matchzoo/preprocessors/cdssm_preprocessor.py:157 | reshaping to `(rows, -1)` succeeds exactly when rows > 0 and rows divides the size; it then gives `rows` rows of width size / rows |
| `Shape.ReshapeExact` | matchzoo/preprocessors/cdssm_preprocessor.py:155-157 | `rows * w` values reshape into exactly `rows` rows of width `w` whenever rows > 0 |
| `Shape.FlattenReshape` | matchzoo/preprocessors/cdssm_preprocessor.py:157-158 | a successful reshape loses nothing: flattening its rows gives back the flat sequence |
| `Shape.ReshapeFlatten` | matchzoo/preprocessors/cdssm_preprocessor.py:153-157 | one or more rows of equal width, flattened and reshaped to the same row count, come back unchanged |
| `Shape.FlattenUniformLength` | matchzoo/preprocessors/cdssm_preprocessor.py:153-154 | flattening `k` vectors of width `w` gives `k * w` values |
| `Units.Normalize` | matchzoo/preprocessors/cdssm_preprocessor.py:65-72 | the preparation units run in the order tokenize, lowercase, remove punctuation, remove stopwords, each on the previous one's output |
| `Units.RunUnitsAppend` | matchzoo/preprocessors/cdssm_preprocessor.py:84-85 | appending a unit to the chain applies it to the chain's output, and a failure earlier in the chain stays a failure |
| `Units.LetterGrams` | matchzoo/preprocessors/cdssm_preprocessor.py:84-96 | fit's chain is the preparation units followed by the letter n-gram unit: its output is the n-grams of the normalised token list |
| `Units.TokenGrams` | matchzoo/preprocessors/cdssm_preprocessor.py:150 | transform takes n-grams token by token: list `i` is the n-gram unit applied to the one-token list holding normalised token `i`, and with the assumed n-gram contract each n-gram in them is among those fit collects for the same text |
| `Units.FirstSeenVocabulary` | matchzoo/preprocessors/cdssm_preprocessor.py:105-107 | numbering n-grams in first-seen order yields a vocabulary of the corpus: keys are exactly its distinct n-grams, indices are distinct and form 1..size, 0 stays reserved |
| `Cdssm.Init` | matchzoo/preprocessors/cdssm_preprocessor.py:43-63 | a new preprocessor stores the four constructor arguments and has no fitted state, so every transform of it reports the missing context |
| `Cdssm.Default` | matchzoo/preprocessors/cdssm_preprocessor.py:43-47 | the default configuration is `text_length` 10, pad value 0, `pre` padding and `pre` truncation, with nothing fitted |
| `Cdssm.TableCorpus` | matchzoo/preprocessors/cdssm_preprocessor.py:92-103 | collecting n-grams from a table succeeds exactly when every row still holds raw text |
| `Cdssm.TableCorpusMembers` | matchzoo/preprocessors/cdssm_preprocessor.py:92-97 | the n-grams collected from a table are exactly the n-grams of its rows' texts |
| `Cdssm.FitCorpusPoolsBothSides` | matchzoo/preprocessors/cdssm_preprocessor.py:83-107 | the vocabulary corpus contains an n-gram exactly when the unit chain produces it from some left text or some right text |
| `Cdssm.FitCorpus` | matchzoo/preprocessors/cdssm_preprocessor.py:92-103 | the vocabulary corpus exists exactly when both tables still hold raw text; it is all n-grams of the left texts followed by all n-grams of the right texts |
| `Cdssm.Fit` | matchzoo/preprocessors/cdssm_preprocessor.py:74-116 | fit succeeds exactly when packing and reading every text succeed; the result is the same configuration, now fitted, with `dim_ngram` one more than the size of `term_index` (so at least 1), `input_shapes` two equal pairs `(text_length, dim_ngram)`, `term_index` the vocabulary unit's answer on the pooled corpus, and the retained pack the packed training data with both stored in its context |
| `Cdssm.FitVocabulary` | matchzoo/preprocessors/cdssm_preprocessor.py:105-111 | with a vocabulary unit meeting its contract, `term_index` holds exactly the n-grams of both sides, never index 0, and `dim_ngram` is the number of distinct n-grams plus one |
| `Cdssm.HashVectors` | matchzoo/preprocessors/cdssm_preprocessor.py:150-151 | one hash vector per normalised token, each the hashing unit applied with the fitted `term_index` to that token's n-grams; with the assumed hashing contract all have width one more than the size of `term_index` |
| `Cdssm.LengthField` | matchzoo/preprocessors/cdssm_preprocessor.py:156 | the stored length lies in `0..text_length * dim_ngram` and, for a positive width, reaches the top exactly when the flat length is at least `text_length` |
| `Cdssm.HashText` | matchzoo/preprocessors/cdssm_preprocessor.py:146-159 | one text's pipeline succeeds exactly when `text_length > 0`; the matrix has `text_length` rows of width `dim_ngram`, its rows laid end to end are the flat hash values fixed to `text_length * dim_ngram`, and the length field is `min(flat_length, text_length) * dim_ngram`, in `0..text_length * dim_ngram` |
| `Cdssm.FlatLengthCountsTokens` | matchzoo/preprocessors/cdssm_preprocessor.py:150-154 | with a hashing unit of the assumed width, the flat length is the token count times `dim_ngram` |
| `Cdssm.StoredLengthVersusContent` | matchzoo/preprocessors/cdssm_preprocessor.py:150-156 | with `k` tokens, `min(k, text_length)` rows carry hashed values while the stored length is `min(k * dim_ngram, text_length) * dim_ngram`: full as soon as `k * dim_ngram >= text_length`, never below the values that are not padding, and above them when `dim_ngram > 1` and `0 < k < text_length` |
| `Cdssm.HashRow` | matchzoo/preprocessors/cdssm_preprocessor.py:146-159 | a row is transformed exactly when its cell is raw text and `text_length > 0`; only its text cell and length field are written, its id is kept |
| `Cdssm.TransformTable` | matchzoo/preprocessors/cdssm_preprocessor.py:161-173 | a table is transformed row by row: same number of rows, row `i` of the result is row `i` of the input run through the pipeline, and the only errors are NotRawText and ReshapeFailed |
| `Cdssm.SourcePack` | matchzoo/preprocessors/cdssm_preprocessor.py:132-133 | only `evaluate` and `predict` can fail to find a pack, and only with InvalidInputs; for them a pack is found exactly when `pack` accepts the inputs, while every other stage always finds one |
| `Cdssm.TransformPack` | matchzoo/preprocessors/cdssm_preprocessor.py:146-175 | both tables go through the same table pipeline; relation and context are carried over unchanged |
| `Cdssm.Transform` | matchzoo/preprocessors/cdssm_preprocessor.py:118-142 | transform of an unfitted preprocessor fails with ContextMissing; a successful transform keeps the configuration and the fitted vocabulary, width and shapes, and retains the transformed pack as the new working pack |
| `Cdssm.TransformNeedsFit` | matchzoo/preprocessors/cdssm_preprocessor.py:116-119 | before fit every transform reports the missing context; after a successful fit no transform does |
| `Cdssm.StageChoosesPack` | matchzoo/preprocessors/cdssm_preprocessor.py:132-133 | `evaluate`/`predict` results do not depend on the retained pack; other stages ignore the new inputs and transform the retained pack in place, keeping its ids, relation and context |
| `Cdssm.TransformSymmetric` | matchzoo/preprocessors/cdssm_preprocessor.py:146-173 | exchanging the left and right tables exchanges the transformed tables and success is unchanged: both sides go through the same pipeline |
| `Cdssm.RepeatedTransformStable` | matchzoo/preprocessors/cdssm_preprocessor.py:138-142 | transform leaves the fitted state unchanged, and repeating an `evaluate`/`predict` transform of the same inputs gives the same result |
| `Cdssm.FitThenTrainTransform` | matchzoo/preprocessors/cdssm_preprocessor.py:110-173 | after a successful fit with `text_length > 0`, the train-stage transform succeeds; every left row then has the first recorded input shape and every right row the second, with ids kept and the length field in range |
| `Cdssm.TrainingGramsKnown` | matchzoo/preprocessors/cdssm_preprocessor.py:92-151 | with the assumed vocabulary and n-gram contracts, every n-gram that transform hashes for a text fit has seen is in the fitted `term_index` |

## Left out

- The internals of the processing units are not modelled, because their code is not part of this model. This covers tokenisation heuristics, the punctuation and stopword sets, n-gram construction, vocabulary numbering and hashing details. They are parameters of type `Units`, and their assumed contracts appear as `requires` of the lemmas that need them or as the premise of an `==>` in a function's `ensures`.
- `pack` and its input validation are external. `pack` is a parameter that answers None to refuse records, which the model reports as `InvalidInputs`.
- `fit_transform` (from the base preprocessor) and the `validate_context` decorator (from `engine`) are not part of this model. The decorator's guard is modelled as the `Unfitted` check in `Cdssm.Transform`.
- The model does not capture state left behind by an exception part-way through `fit` or `transform`. The source may already have replaced or partly rewritten `self.data_pack` at that point. The model returns only the error and keeps the old preprocessor value.
- `Cdssm.Fit` replaces the pack's context with the two fitted entries. The source adds them to whatever the context already held, and `pack`'s context is external.
- Negative `text_length` is not modelled (the configuration uses `nat`). Pad or truncate modes other than `pre`/`post` are not modelled either (an enumeration), because their handling lives in the FixedLengthUnit code, which is not part of this model.
- Floating-point hash vectors are modelled as integer vectors.
- pandas indices and `iterrows`/`.at` are modelled as sequences of rows updated by position.
- `tqdm` progress bars and `logging` are left out because they are I/O only.
