/** The CDSSM letter-trigram preprocessor. `fit` learns a letter-n-gram
    vocabulary from the left and right texts of a training pack; `transform`
    turns every text into a `(text_length, dim_ngram)` matrix of hashed
    n-gram vectors plus a length field. The preprocessor is a value: fit and
    transform return the updated preprocessor instead of changing it. */
module Cdssm {

  import opened Wrappers
  import opened Packs
  import opened Units
  import opened FixedLength
  import Shape

  /** The constructor arguments. */
  datatype Config = Config(textLength: nat, padValue: int, padMode: Mode, truncateMode: Mode)

  /** What fit learns: `term_index`, `dim_ngram` and `input_shapes`. */
  datatype Fitted = Fitted(termIndex: map<string, nat>, dimNgram: nat, inputShapes: seq<(nat, nat)>)

  /** Unfitted, or fitted together with the retained working pack. */
  datatype Phase = Unfitted | Ready(fitted: Fitted, dataPack: DataPack)

  datatype Preprocessor = Preprocessor(config: Config, phase: Phase)

  /** A new preprocessor: it keeps its arguments and has nothing fitted and
      no working pack, so no transform can run on it. */
  function Init(textLength: nat, padValue: int, padMode: Mode, truncateMode: Mode): (p: Preprocessor)
    ensures p.config == Config(textLength, padValue, padMode, truncateMode)
    ensures forall u: Units, inputs: seq<Input>, stage: string ::
              Transform(p, u, inputs, stage) == Err(ContextMissing)
  {
    Preprocessor(Config(textLength, padValue, padMode, truncateMode), Unfitted)
  }

  /** The constructor's defaults: 10 rows, pad with 0, pad and truncate `pre`. */
  function Default(): (p: Preprocessor)
    ensures p.config == Config(10, 0, Pre, Pre)
    ensures p.phase.Unfitted?
  {
    Init(10, 0, Pre, Pre)
  }

  function RawText(c: Cell): Result<string, Error>
  {
    match c
    case Text(s) => Ok(s)
    case Hashed(_) => Err(NotRawText)
  }

  /** `pack`, with a refusal reported as InvalidInputs. */
  function Packed(u: Units, inputs: seq<Input>, stage: string): (r: Result<DataPack, Error>)
    ensures r.Ok? <==> u.pack(inputs, stage).Some?
    ensures r.Ok? ==> r.value == u.pack(inputs, stage).value
    ensures r.Err? ==> r.error == InvalidInputs
  {
    match u.pack(inputs, stage)
    case Some(p) => Ok(p)
    case None => Err(InvalidInputs)
  }

  // ---------------------------------------------------------------- fit

  /** The n-grams fit collects from one table, row after row. */
  function TableCorpus(u: Units, rows: seq<Row>): (r: Result<seq<string>, Error>)
    ensures r.Ok? <==> forall i :: 0 <= i < |rows| ==> rows[i].text.Text?
    decreases |rows|
  {
    if rows == [] then Ok([])
    else
      var text :- RawText(rows[0].text);
      var rest :- TableCorpus(u, rows[1..]);
      Ok(LetterGrams(u, text) + rest)
  }

  /** The one pooled corpus: every left text's n-grams, then every right
      text's. */
  function FitCorpus(u: Units, p: DataPack): (r: Result<seq<string>, Error>)
    ensures r.Ok? <==> TableCorpus(u, p.left).Ok? && TableCorpus(u, p.right).Ok?
    ensures r.Ok? ==> TableCorpus(u, p.left).value <= r.value
    ensures r.Ok? ==> r.value[|TableCorpus(u, p.left).value|..] == TableCorpus(u, p.right).value
  {
    var left :- TableCorpus(u, p.left);
    var right :- TableCorpus(u, p.right);
    Ok(left + right)
  }

  /** fit: pack the inputs for the `train` stage, fit a vocabulary on the
      pooled corpus, and record `term_index`, `dim_ngram` and
      `input_shapes`. The result is the same preprocessor, now fitted. */
  function Fit(p: Preprocessor, u: Units, inputs: seq<Input>): (r: Result<Preprocessor, Error>)
    ensures r.Ok? <==> u.pack(inputs, "train").Some? && FitCorpus(u, u.pack(inputs, "train").value).Ok?
    ensures r.Ok? ==>
              && r.value.config == p.config
              && r.value.phase.Ready?
              && var f := r.value.phase.fitted;
                 && f.dimNgram == |f.termIndex| + 1
                 && f.dimNgram >= 1
                 && f.inputShapes == [(p.config.textLength, f.dimNgram), (p.config.textLength, f.dimNgram)]
                 && f.termIndex == u.vocabulary(FitCorpus(u, u.pack(inputs, "train").value).value)
                 && r.value.phase.dataPack
                    == u.pack(inputs, "train").value.(context := Some(Context(f.termIndex, f.inputShapes)))
  {
    var pack :- Packed(u, inputs, "train");
    var corpus :- FitCorpus(u, pack);
    var termIndex := u.vocabulary(corpus);
    var dim := |termIndex| + 1;
    var shapes := [(p.config.textLength, dim), (p.config.textLength, dim)];
    var fitted := Fitted(termIndex, dim, shapes);
    Ok(Preprocessor(p.config, Ready(fitted, pack.(context := Some(Context(termIndex, shapes))))))
  }

  // ---------------------------------------------------------- transform

  /** One vector per token: the token's letter n-grams hashed against the
      fitted vocabulary. */
  function HashVectors(u: Units, f: Fitted, text: string): (vs: seq<seq<int>>)
    ensures |vs| == |Normalize(u, text)|
    ensures forall i :: 0 <= i < |vs| ==> vs[i] == u.wordHashing(f.termIndex, TokenGrams(u, text)[i])
    ensures HashingAssumed(u) ==> Shape.Uniform(vs, |f.termIndex| + 1)
  {
    var grams := TokenGrams(u, text);
    seq(|grams|, i requires 0 <= i < |grams| => u.wordHashing(f.termIndex, grams[i]))
  }

  /** The length field: the flat length taken before padding, capped at
      `text_length`, times `dim_ngram`. It lies between 0 and
      `text_length * dim_ngram` and, for a non-zero width, reaches the top
      exactly when the flat sequence has at least `text_length` values. */
  function LengthField(flatLength: nat, textLength: nat, dimNgram: nat): (len: int)
    ensures 0 <= len <= textLength * dimNgram
    ensures dimNgram > 0 ==> (len == textLength * dimNgram <==> flatLength >= textLength)
  {
    Min(flatLength, textLength) * dimNgram
  }

  /** One text through the transform pipeline: hash, flatten, fix the length
      to `text_length * dim_ngram`, reshape to `text_length` rows. The result
      is the matrix and the length field. */
  function HashText(cfg: Config, u: Units, f: Fitted, text: string): (r: Result<(seq<seq<int>>, int), Error>)
    ensures r.Ok? <==> cfg.textLength > 0
    ensures r.Ok? ==>
              var flat := Shape.Flatten(HashVectors(u, f, text));
              && |r.value.0| == cfg.textLength
              && Shape.Uniform(r.value.0, f.dimNgram)
              && Shape.Flatten(r.value.0)
                 == FixLength(flat, cfg.textLength * f.dimNgram, cfg.padValue, cfg.padMode, cfg.truncateMode)
              && r.value.1 == LengthField(|flat|, cfg.textLength, f.dimNgram)
              && 0 <= r.value.1 <= cfg.textLength * f.dimNgram
  {
    var flat := Shape.Flatten(HashVectors(u, f, text));
    var fixed := FixLength(flat, cfg.textLength * f.dimNgram, cfg.padValue, cfg.padMode, cfg.truncateMode);
    var length := LengthField(|flat|, cfg.textLength, f.dimNgram);
    if cfg.textLength == 0 then
      assert Shape.Reshape(fixed, cfg.textLength).None?;
      Err(ReshapeFailed)
    else
      Shape.ReshapeExact(fixed, cfg.textLength, f.dimNgram);
      var matrix := Shape.Reshape(fixed, cfg.textLength).value;
      Shape.FlattenReshape(fixed, cfg.textLength);
      Ok((matrix, length))
  }

  /** With a WordHashingUnit that meets its assumed width, the flat sequence
      holds `dim_ngram` values per normalised token. */
  lemma FlatLengthCountsTokens(u: Units, f: Fitted, text: string)
    requires HashingAssumed(u)
    requires f.dimNgram == |f.termIndex| + 1
    ensures |Shape.Flatten(HashVectors(u, f, text))| == |Normalize(u, text)| * f.dimNgram
  {
    var vs := HashVectors(u, f, text);
    assert Shape.Uniform(vs, f.dimNgram);
    Shape.FlattenUniformLength(vs, f.dimNgram);
  }

  /** With a WordHashingUnit of the assumed width and `k` normalised
      tokens, the fixed-length values hold `min(k, text_length)` rows of
      hashed values (FixLengthContent says where), but the stored length is
      `min(k * dim_ngram, text_length) * dim_ngram`. It is never below the
      number of values that are not padding; it is already the full
      `text_length * dim_ngram` once `k * dim_ngram >= text_length`; and it
      exceeds the number of values that are not padding whenever there are
      some but fewer than `text_length` tokens and the width exceeds 1. */
  lemma StoredLengthVersusContent(cfg: Config, u: Units, f: Fitted, text: string)
    requires HashingAssumed(u)
    requires f.dimNgram == |f.termIndex| + 1
    requires cfg.textLength > 0
    ensures var k, T, D := |Normalize(u, text)|, cfg.textLength, f.dimNgram;
            var flat := Shape.Flatten(HashVectors(u, f, text));
            var r := HashText(cfg, u, f, text);
            && r.Ok?
            && ContentCount(flat, T * D) == Min(k, T) * D
            && r.value.1 == Min(k * D, T) * D
            && r.value.1 >= ContentCount(flat, T * D)
            && (k * D >= T ==> r.value.1 == T * D)
            && (D > 1 && 0 < k < T ==> r.value.1 > ContentCount(flat, T * D))
  {
    var k, T, D := |Normalize(u, text)|, cfg.textLength, f.dimNgram;
    var flat := Shape.Flatten(HashVectors(u, f, text));
    FlatLengthCountsTokens(u, f, text);
    assert |flat| == k * D;
    // the content count scales the token count by the width
    if k < T {
      Shape.MulGap(D, k, T);
    } else {
      Shape.MulGap(D, T, k);
    }
    assert ContentCount(flat, T * D) == Min(k, T) * D;
    if k * D <= T {
      Shape.MulAtLeast(k, D);
      Shape.MulAtLeast(k * D, D);
      Shape.MulGap(k * D, 1, D);
    } else if k < T {
      Shape.MulGap(D, k, T);
    }
  }

  /** One row through the pipeline: only its text cell and its length
      field are written. */
  function HashRow(cfg: Config, u: Units, f: Fitted, row: Row): (r: Result<Row, Error>)
    ensures r.Ok? <==> row.text.Text? && cfg.textLength > 0
    ensures r.Err? ==> r.error == (if row.text.Text? then ReshapeFailed else NotRawText)
    ensures r.Ok? ==>
              && r.value.id == row.id
              && r.value.text.Hashed?
              && r.value.length.Some?
              && HashText(cfg, u, f, row.text.raw) == Ok((r.value.text.matrix, r.value.length.value))
  {
    var text :- RawText(row.text);
    var out :- HashText(cfg, u, f, text);
    Ok(row.(text := Hashed(out.0), length := Some(out.1)))
  }

  /** Every row of one table through the pipeline, in order. */
  function TransformTable(cfg: Config, u: Units, f: Fitted, rows: seq<Row>): (r: Result<seq<Row>, Error>)
    ensures r.Ok? <==> (rows == [] || cfg.textLength > 0) && forall i :: 0 <= i < |rows| ==> rows[i].text.Text?
    ensures r.Err? ==> r.error in {NotRawText, ReshapeFailed}
    ensures r.Ok? ==>
              && |r.value| == |rows|
              && forall i :: 0 <= i < |rows| ==> HashRow(cfg, u, f, rows[i]) == Ok(r.value[i])
    decreases |rows|
  {
    if rows == [] then Ok([])
    else
      var row :- HashRow(cfg, u, f, rows[0]);
      var rest :- TransformTable(cfg, u, f, rows[1..]);
      Ok([row] + rest)
  }

  /** Both tables of a pack through the same pipeline; ids, relation and
      context are carried over. */
  function TransformPack(cfg: Config, u: Units, f: Fitted, src: DataPack): (r: Result<DataPack, Error>)
    ensures r.Ok? <==> TransformTable(cfg, u, f, src.left).Ok? && TransformTable(cfg, u, f, src.right).Ok?
    ensures r.Err? ==> r.error in {NotRawText, ReshapeFailed}
    ensures r.Ok? ==>
              && r.value.relation == src.relation
              && r.value.context == src.context
              && r.value.left == TransformTable(cfg, u, f, src.left).value
              && r.value.right == TransformTable(cfg, u, f, src.right).value
  {
    var left :- TransformTable(cfg, u, f, src.left);
    var right :- TransformTable(cfg, u, f, src.right);
    Ok(src.(left := left, right := right))
  }

  /** The pack transform works on: for `evaluate` and `predict` a fresh
      pack of the new inputs, otherwise the retained working pack. Only a
      fresh pack can fail, and only because `pack` refused the inputs. */
  function SourcePack(p: Preprocessor, u: Units, inputs: seq<Input>, stage: string): (r: Result<DataPack, Error>)
    requires p.phase.Ready?
    ensures (stage == "evaluate" || stage == "predict") ==> r == Packed(u, inputs, stage)
    ensures !(stage == "evaluate" || stage == "predict") ==> r == Ok(p.phase.dataPack)
    ensures r.Err? ==> (stage == "evaluate" || stage == "predict") && r.error == InvalidInputs
    ensures r.Ok? <==> !(stage == "evaluate" || stage == "predict") || u.pack(inputs, stage).Some?
  {
    if stage == "evaluate" || stage == "predict" then Packed(u, inputs, stage)
    else Ok(p.phase.dataPack)
  }

  /** transform: refuses an unfitted preprocessor; otherwise transforms the
      source pack against the fitted vocabulary, which it reads from the
      fitted state and leaves unchanged. The transformed pack becomes the
      new working pack. */
  function Transform(p: Preprocessor, u: Units, inputs: seq<Input>, stage: string)
    : (r: Result<(Preprocessor, DataPack), Error>)
    ensures p.phase.Unfitted? ==> r == Err(ContextMissing)
    ensures p.phase.Ready? ==>
              (r.Ok? <==> SourcePack(p, u, inputs, stage).Ok?
                          && TransformPack(p.config, u, p.phase.fitted, SourcePack(p, u, inputs, stage).value).Ok?)
    ensures r.Ok? ==>
              && p.phase.Ready?
              && r.value.0.config == p.config
              && r.value.0.phase == Ready(p.phase.fitted, r.value.1)
              && r.value.1 == TransformPack(p.config, u, p.phase.fitted, SourcePack(p, u, inputs, stage).value).value
  {
    if p.phase.Unfitted? then Err(ContextMissing)
    else
      var src :- SourcePack(p, u, inputs, stage);
      var out :- TransformPack(p.config, u, p.phase.fitted, src);
      Ok((Preprocessor(p.config, Ready(p.phase.fitted, out)), out))
  }

  // ------------------------------------------------------------- lemmas

  /** A fresh preprocessor cannot transform, whatever the inputs; after a
      successful fit it never reports a missing context. */
  lemma TransformNeedsFit(cfg: Config, u: Units, inputs: seq<Input>, stage: string, fitInputs: seq<Input>)
    ensures Transform(Preprocessor(cfg, Unfitted), u, inputs, stage) == Err(ContextMissing)
    ensures var q := Fit(Preprocessor(cfg, Unfitted), u, fitInputs);
            q.Ok? ==> Transform(q.value, u, inputs, stage) != Err(ContextMissing)
  {
  }

  /** The n-grams fit collects from a table are exactly those of its rows. */
  lemma {:induction false} TableCorpusMembers(u: Units, rows: seq<Row>, g: string)
    requires TableCorpus(u, rows).Ok?
    ensures g in TableCorpus(u, rows).value
            <==> exists i :: 0 <= i < |rows| && g in LetterGrams(u, rows[i].text.raw)
    decreases |rows|
  {
    if rows != [] {
      TableCorpusMembers(u, rows[1..], g);
      var rest := TableCorpus(u, rows[1..]).value;
      assert TableCorpus(u, rows).value == LetterGrams(u, rows[0].text.raw) + rest;
      if g in rest {
        var i :| 0 <= i < |rows[1..]| && g in LetterGrams(u, rows[1..][i].text.raw);
        assert rows[1..][i] == rows[i + 1];
      }
      if exists i :: 0 <= i < |rows| && g in LetterGrams(u, rows[i].text.raw) {
        var i :| 0 <= i < |rows| && g in LetterGrams(u, rows[i].text.raw);
        if i > 0 {
          assert rows[1..][i - 1] == rows[i];
        }
      }
    }
  }

  /** An n-gram produced from some left or some right text. */
  ghost predicate FromEitherSide(u: Units, p: DataPack, g: string)
    requires forall i :: 0 <= i < |p.left| ==> p.left[i].text.Text?
    requires forall j :: 0 <= j < |p.right| ==> p.right[j].text.Text?
  {
    || (exists i :: 0 <= i < |p.left| && g in LetterGrams(u, p.left[i].text.raw))
    || (exists j :: 0 <= j < |p.right| && g in LetterGrams(u, p.right[j].text.raw))
  }

  /** The vocabulary corpus pools both sides: an n-gram is in it exactly when
      the unit chain produces it from some left or some right text. */
  lemma FitCorpusPoolsBothSides(u: Units, p: DataPack, g: string)
    requires FitCorpus(u, p).Ok?
    ensures forall i :: 0 <= i < |p.left| ==> p.left[i].text.Text?
    ensures forall j :: 0 <= j < |p.right| ==> p.right[j].text.Text?
    ensures g in FitCorpus(u, p).value <==> FromEitherSide(u, p, g)
  {
    TableCorpusMembers(u, p.left, g);
    TableCorpusMembers(u, p.right, g);
  }

  /** With a VocabularyUnit that meets its assumed contract, the fitted
      `term_index` holds exactly the n-grams of both sides, never uses index
      0, and `dim_ngram` is one more than the number of distinct n-grams. */
  lemma FitVocabulary(p: Preprocessor, u: Units, inputs: seq<Input>, g: string)
    requires VocabularyAssumed(u)
    requires Fit(p, u, inputs).Ok?
    ensures var pack := u.pack(inputs, "train").value;
            var f := Fit(p, u, inputs).value.phase.fitted;
            && (forall i :: 0 <= i < |pack.left| ==> pack.left[i].text.Text?)
            && (forall j :: 0 <= j < |pack.right| ==> pack.right[j].text.Text?)
            && (g in f.termIndex <==> FromEitherSide(u, pack, g))
            && (g in f.termIndex ==> f.termIndex[g] >= 1)
            && f.dimNgram == |set x | x in FitCorpus(u, pack).value| + 1
  {
    var pack := u.pack(inputs, "train").value;
    var corpus := FitCorpus(u, pack).value;
    FitCorpusPoolsBothSides(u, pack, g);
    assert IsVocabularyOf(corpus, u.vocabulary(corpus));
  }

  /** Which side a table plays does not matter: exchanging the left and right
      tables of a pack exchanges the transformed tables and nothing else. */
  lemma TransformSymmetric(cfg: Config, u: Units, f: Fitted, src: DataPack)
    ensures TransformPack(cfg, u, f, Swap(src)).Ok? <==> TransformPack(cfg, u, f, src).Ok?
    ensures TransformPack(cfg, u, f, src).Ok? ==>
              TransformPack(cfg, u, f, Swap(src)).value == Swap(TransformPack(cfg, u, f, src).value)
  {
  }

  /** transform keeps the fitted vocabulary, width and shapes; a repeated
      `evaluate` or `predict` transform of the same inputs gives the same
      pack and the same preprocessor again. */
  lemma RepeatedTransformStable(p: Preprocessor, u: Units, inputs: seq<Input>, stage: string)
    requires Transform(p, u, inputs, stage).Ok?
    ensures var q := Transform(p, u, inputs, stage).value.0;
            && q.phase.fitted == p.phase.fitted
            && ((stage == "evaluate" || stage == "predict") ==>
                  Transform(q, u, inputs, stage) == Transform(p, u, inputs, stage))
  {
  }

  /** `evaluate` and `predict` work on a fresh pack of the new inputs, so the
      retained pack does not matter; any other stage transforms the retained
      pack in place, so the new inputs do not matter and its rows and
      relation carry over. */
  lemma StageChoosesPack(p: Preprocessor, u: Units, inputs: seq<Input>, stage: string,
                         other: DataPack, otherInputs: seq<Input>)
    requires p.phase.Ready?
    ensures (stage == "evaluate" || stage == "predict") ==>
              Transform(p.(phase := Ready(p.phase.fitted, other)), u, inputs, stage)
              == Transform(p, u, inputs, stage)
    ensures !(stage == "evaluate" || stage == "predict") ==>
              Transform(p, u, otherInputs, stage) == Transform(p, u, inputs, stage)
    ensures !(stage == "evaluate" || stage == "predict") && Transform(p, u, inputs, stage).Ok? ==>
              var out := Transform(p, u, inputs, stage).value.1;
              var kept := p.phase.dataPack;
              && out.relation == kept.relation
              && out.context == kept.context
              && |out.left| == |kept.left| && |out.right| == |kept.right|
              && (forall i :: 0 <= i < |out.left| ==> out.left[i].id == kept.left[i].id)
              && (forall j :: 0 <= j < |out.right| ==> out.right[j].id == kept.right[j].id)
  {
  }

  /** A row of a transformed pack: a `(rows, width)` matrix and a length
      field between 0 and `rows * width`. */
  predicate HasShape(row: Row, shape: (nat, nat))
  {
    && row.text.Hashed?
    && |row.text.matrix| == shape.0
    && Shape.Uniform(row.text.matrix, shape.1)
    && row.length.Some?
    && 0 <= row.length.value <= shape.0 * shape.1
  }

  /** After a successful fit with a positive `text_length`, transforming the
      training pack succeeds and every left row has the first recorded input
      shape and every right row the second. */
  lemma FitThenTrainTransform(p: Preprocessor, u: Units, inputs: seq<Input>)
    requires Fit(p, u, inputs).Ok?
    requires p.config.textLength > 0
    ensures var q := Fit(p, u, inputs).value;
            var r := Transform(q, u, [], "train");
            && r.Ok?
            && |r.value.1.left| == |q.phase.dataPack.left|
            && |r.value.1.right| == |q.phase.dataPack.right|
            && (forall i :: 0 <= i < |r.value.1.left| ==>
                  r.value.1.left[i].id == q.phase.dataPack.left[i].id
                  && HasShape(r.value.1.left[i], q.phase.fitted.inputShapes[0]))
            && (forall j :: 0 <= j < |r.value.1.right| ==>
                  r.value.1.right[j].id == q.phase.dataPack.right[j].id
                  && HasShape(r.value.1.right[j], q.phase.fitted.inputShapes[1]))
  {
  }

  /** Every n-gram in `grams` is a key of `ti`. */
  predicate AllKnown(ti: map<string, nat>, grams: seq<seq<string>>)
  {
    forall k, g :: 0 <= k < |grams| && g in grams[k] ==> g in ti
  }

  /** With the assumed vocabulary and n-gram contracts, transforming a text
      fit has seen hashes no n-gram as unknown: every n-gram transform hands
      to the hashing unit is in the fitted `term_index`. */
  lemma TrainingGramsKnown(p: Preprocessor, u: Units, inputs: seq<Input>)
    requires VocabularyAssumed(u)
    requires NgramPerTokenAssumed(u)
    requires Fit(p, u, inputs).Ok?
    ensures var q := Fit(p, u, inputs).value;
            var pack := q.phase.dataPack;
            && (forall i :: 0 <= i < |pack.left| ==>
                  pack.left[i].text.Text?
                  && AllKnown(q.phase.fitted.termIndex, TokenGrams(u, pack.left[i].text.raw)))
            && (forall j :: 0 <= j < |pack.right| ==>
                  pack.right[j].text.Text?
                  && AllKnown(q.phase.fitted.termIndex, TokenGrams(u, pack.right[j].text.raw)))
  {
    var q := Fit(p, u, inputs).value;
    var pack := u.pack(inputs, "train").value;
    var ti := q.phase.fitted.termIndex;
    // every row is raw text: FitCorpus succeeded, so both TableCorpus calls did
    assert FitCorpus(u, pack).Ok?;
    forall i | 0 <= i < |pack.left|
      ensures AllKnown(ti, TokenGrams(u, pack.left[i].text.raw))
    {
      var text := pack.left[i].text.raw;
      forall k, g | 0 <= k < |TokenGrams(u, text)| && g in TokenGrams(u, text)[k]
        ensures g in ti
      {
        FitVocabulary(p, u, inputs, g);
      }
    }
    forall j | 0 <= j < |pack.right|
      ensures AllKnown(ti, TokenGrams(u, pack.right[j].text.raw))
    {
      var text := pack.right[j].text.raw;
      forall k, g | 0 <= k < |TokenGrams(u, text)| && g in TokenGrams(u, text)[k]
        ensures g in ti
      {
        FitVocabulary(p, u, inputs, g);
      }
    }
  }
}
