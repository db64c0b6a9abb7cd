/** Tokens produced by the lexical scanner. The scanner itself and the
    classification predicates of its `Word` class are outside this model:
    they reach the parser as the uninterpreted functions of a `Lexicon`. */
module Tokens {

  /** The token kinds the parser distinguishes. */
  datatype WordKind =
    | Identifier
    | IntConst
    | CharConst
    | BoolConst
    | StringConst
    | Keyword
    | Operator
    | Delimiter
    | EndOfInput

  /** A token: its kind, its literal text and the source line it came from. */
  datatype Word = Word(kind: WordKind, value: string, line: int)

  /** The scanner's classification predicates, as the parser consults them:
      `Word.isConst`, `Word.isDataType`, `Word.isNotStartKey`,
      `Word.isComparisonOperator` and `Word.isSelfOperator`. */
  datatype Lexicon = Lexicon(
    isConst: Word -> bool,
    isDataType: string -> bool,
    isNotStartKey: string -> bool,
    isComparisonOperator: string -> bool,
    isSelfOperator: string -> bool)
}
