/** The processing units the preprocessor calls but whose code is not part of
    this model: `pack`, TokenizeUnit, LowercaseUnit, PuncRemovalUnit,
    StopRemovalUnit, NgramLetterUnit, VocabularyUnit and WordHashingUnit.
    They are passed in as total functions; `pack` answers None when it
    refuses the raw records. What the model assumes about them
    is written down as predicates below. They appear only as a `requires` of
    the lemmas that depend on them, or as the premise of an `==>` in a
    function's `ensures`. */
module Units {

  import opened Wrappers
  import opened Packs

  datatype Units = Units(
    pack: (seq<Input>, string) -> Option<DataPack>,
    tokenize: string -> seq<string>,
    lowercase: seq<string> -> seq<string>,
    puncRemoval: seq<string> -> seq<string>,
    stopRemoval: seq<string> -> seq<string>,
    ngramLetter: seq<string> -> seq<string>,
    vocabulary: seq<string> -> map<string, nat>,
    wordHashing: (map<string, nat>, seq<string>) -> seq<int>)

  /** The units a processing chain is built from. */
  datatype ProcessUnit = TokenizeUnit | LowercaseUnit | PuncRemovalUnit | StopRemovalUnit | NgramLetterUnit

  /** What flows through a chain: raw text first, a list of terms after
      tokenisation. */
  datatype Value = Raw(text: string) | Terms(terms: seq<string>)

  /** The normalisation units `_prepare_process_units` lists, in order. */
  function PrepareProcessUnits(): seq<ProcessUnit>
  {
    [TokenizeUnit, LowercaseUnit, PuncRemovalUnit, StopRemovalUnit]
  }

  /** One unit's `transform`. The tokenizer reads raw text and the other
      units read term lists; a unit handed the other kind gives None. */
  function ApplyUnit(u: Units, unit: ProcessUnit, v: Value): Option<Value>
  {
    match (unit, v)
    case (TokenizeUnit, Raw(s)) => Some(Terms(u.tokenize(s)))
    case (LowercaseUnit, Terms(ts)) => Some(Terms(u.lowercase(ts)))
    case (PuncRemovalUnit, Terms(ts)) => Some(Terms(u.puncRemoval(ts)))
    case (StopRemovalUnit, Terms(ts)) => Some(Terms(u.stopRemoval(ts)))
    case (NgramLetterUnit, Terms(ts)) => Some(Terms(u.ngramLetter(ts)))
    case _ => None
  }

  /** `for unit in units: text = unit.transform(text)`. */
  function RunUnits(u: Units, units: seq<ProcessUnit>, v: Value): Option<Value>
    decreases |units|
  {
    if units == [] then Some(v)
    else
      var next :- ApplyUnit(u, units[0], v);
      RunUnits(u, units[1..], next)
  }

  /** The normalisation chain on one text: the units run in the listed
      order, tokenize first and stopword removal last. */
  function Normalize(u: Units, text: string): (ts: seq<string>)
    ensures ts == u.stopRemoval(u.puncRemoval(u.lowercase(u.tokenize(text))))
  {
    var units := PrepareProcessUnits();
    assert units[1..][1..][1..][1..] == [];
    RunUnits(u, units, Raw(text)).value.terms
  }

  /** The chain `fit` runs on one text: the normalisation units with the
      letter n-gram unit appended. Its n-grams are those of the whole
      normalised token list. */
  function LetterGrams(u: Units, text: string): (grams: seq<string>)
    ensures grams == u.ngramLetter(Normalize(u, text))
  {
    var units := PrepareProcessUnits() + [NgramLetterUnit];
    RunUnitsAppend(u, PrepareProcessUnits(), NgramLetterUnit, Raw(text));
    RunUnits(u, units, Raw(text)).value.terms
  }

  /** Appending a unit to a chain applies it to the chain's result. */
  lemma {:induction false} RunUnitsAppend(u: Units, units: seq<ProcessUnit>, last: ProcessUnit, v: Value)
    ensures RunUnits(u, units + [last], v)
            == (match RunUnits(u, units, v)
                case Some(w) => ApplyUnit(u, last, w)
                case None => None)
    decreases |units|
  {
    if units == [] {
      assert [] + [last] == [last];
    } else {
      assert (units + [last])[1..] == units[1..] + [last];
      match ApplyUnit(u, units[0], v)
      case Some(next) =>
        RunUnitsAppend(u, units[1..], last, next);
      case None =>
    }
  }

  /** The chain `transform` runs on one text: the normalisation units, then
      the letter n-gram unit on each token alone. There is one n-gram list
      per normalised token, and with an n-gram unit meeting its assumed
      contract every n-gram in it is one `fit` collects from the same text. */
  function TokenGrams(u: Units, text: string): (grams: seq<seq<string>>)
    ensures |grams| == |Normalize(u, text)|
    ensures forall i :: 0 <= i < |grams| ==> grams[i] == u.ngramLetter([Normalize(u, text)[i]])
    ensures NgramPerTokenAssumed(u) ==>
              forall k, g :: 0 <= k < |grams| && g in grams[k] ==> g in LetterGrams(u, text)
  {
    var ts := Normalize(u, text);
    seq(|ts|, i requires 0 <= i < |ts| => u.ngramLetter([ts[i]]))
  }

  /** `ti` is a vocabulary of `corpus`: exactly its distinct n-grams, with
      distinct indices forming the dense range 1..|ti|, so index 0 stays
      reserved for unknown n-grams. */
  predicate IsVocabularyOf(corpus: seq<string>, ti: map<string, nat>)
  {
    && ti.Keys == (set g | g in corpus)
    && (forall g :: g in ti ==> 1 <= ti[g] <= |ti|)
    && (forall k :: 1 <= k <= |ti| ==> k in ti.Values)
    && (forall g, h :: g in ti && h in ti && g != h ==> ti[g] != ti[h])
  }

  /** Assumed of VocabularyUnit.fit: its `term_index` is a vocabulary of the
      corpus it is fitted on. */
  ghost predicate VocabularyAssumed(u: Units)
  {
    forall corpus :: IsVocabularyOf(corpus, u.vocabulary(corpus))
  }

  /** Assumed of WordHashingUnit: one vector of width |term_index| + 1 per
      token, whatever n-grams the token has. */
  ghost predicate HashingAssumed(u: Units)
  {
    forall ti, grams :: |u.wordHashing(ti, grams)| == |ti| + 1
  }

  /** Assumed of NgramLetterUnit: an n-gram of one token is also an n-gram
      of any token list that contains the token. */
  ghost predicate NgramPerTokenAssumed(u: Units)
  {
    forall ts, k, g :: 0 <= k < |ts| && g in u.ngramLetter([ts[k]]) ==> g in u.ngramLetter(ts)
  }

  /** A VocabularyUnit that numbers distinct n-grams 1, 2, ... in the order
      they are first seen. It meets the assumed vocabulary contract, so that
      contract can be met. */
  function FirstSeenVocabulary(corpus: seq<string>): (ti: map<string, nat>)
    ensures IsVocabularyOf(corpus, ti)
    decreases |corpus|
  {
    if corpus == [] then map[]
    else
      var prefix, g := corpus[..|corpus| - 1], corpus[|corpus| - 1];
      assert corpus == prefix + [g];
      var m := FirstSeenVocabulary(prefix);
      if g in m then m
      else
        ExtendVocabulary(prefix, m, g);
        m[g := |m| + 1]
  }

  lemma ExtendVocabulary(prefix: seq<string>, m: map<string, nat>, g: string)
    requires IsVocabularyOf(prefix, m)
    requires g !in m
    ensures IsVocabularyOf(prefix + [g], m[g := |m| + 1])
  {
    var m' := m[g := |m| + 1];
    ExtendKeys(prefix, m, g);
    ExtendDense(m, g, m');
    assert forall x :: x in m' ==> 1 <= m'[x] <= |m'|;
    assert forall x, y :: x in m' && y in m' && x != y ==> m'[x] != m'[y];
  }

  lemma ExtendKeys(prefix: seq<string>, m: map<string, nat>, g: string)
    requires m.Keys == (set x | x in prefix)
    requires g !in m
    ensures m[g := |m| + 1].Keys == (set x | x in prefix + [g])
    ensures |m[g := |m| + 1]| == |m| + 1
  {
    var m' := m[g := |m| + 1];
    assert m'.Keys == m.Keys + {g};
    assert |m'.Keys| == |m.Keys| + 1;
    assert (set x | x in prefix + [g]) == (set x | x in prefix) + {g};
  }

  lemma ExtendDense(m: map<string, nat>, g: string, m': map<string, nat>)
    requires forall k :: 1 <= k <= |m| ==> k in m.Values
    requires g !in m
    requires m' == m[g := |m| + 1]
    ensures forall k :: 1 <= k <= |m| + 1 ==> k in m'.Values
  {
    forall k | 1 <= k <= |m| + 1
      ensures k in m'.Values
    {
      if k <= |m| {
        assert k in m.Values;
        var x :| x in m && m[x] == k;
        assert x in m' && m'[x] == k;
      } else {
        assert m'[g] == k;
      }
    }
  }
}
