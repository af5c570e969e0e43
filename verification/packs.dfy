/** The paired dataset the preprocessor works on (MatchZoo's DataPack) and
    the raw records it is packed from. Pandas tables are sequences of rows. */
module Packs {

  import opened Wrappers

  /** One raw record: `(id_left, id_right, text_left, text_right[, label])`; the label is kept as `relevance`. */
  datatype Input = Input(leftId: string, rightId: string, leftText: string, rightText: string,
                         relevance: Option<int>)

  /** The `text_left`/`text_right` cell of a row: raw text as packed, or the
      `(text_length, dim_ngram)` matrix that transform writes over it. */
  datatype Cell = Text(raw: string) | Hashed(matrix: seq<seq<int>>)

  /** A row of the left or the right table, with its `length_*` field once
      transform has set it. */
  datatype Row = Row(id: string, text: Cell, length: Option<int>)

  datatype Relation = Relation(leftId: string, rightId: string, relevance: Option<int>)

  /** The fitted parameters stored in a pack's context. */
  datatype Context = Context(termIndex: map<string, nat>, inputShapes: seq<(nat, nat)>)

  datatype DataPack = DataPack(left: seq<Row>, right: seq<Row>, relation: seq<Relation>,
                               context: Option<Context>)

  datatype Error =
    | InvalidInputs    // `pack` refused the raw records
    | ContextMissing   // transform before fit
    | NotRawText       // a text cell handed to the units is not text
    | ReshapeFailed    // numpy cannot reshape to (text_length, -1)

  /** The same pack with its left and right tables exchanged. */
  function Swap(p: DataPack): DataPack
  {
    p.(left := p.right, right := p.left)
  }
}
