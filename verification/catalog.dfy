/** The production catalog of the predictive parser: for each non-terminal,
    the alternative chosen on the current lookahead word, and the rule by
    which a terminal on the stack matches a word. */
module Catalog {
  import opened Tokens
  import opened Symbols

  /** The error messages the parser records, one constructor per distinct
      message text of the source. `NoArithmeticE` and `NoArithmeticOrParenL`
      differ from `NoArithmetic` and `NoArithmeticOrParen` by one character
      of their text. */
  datatype ErrorKind =
    | Mismatch              // terminal did not match the word
    | MainNotVoid           // S: main function without `void`
    | IllegalDataType       // Y
    | IllegalIdentifier     // Z, U
    | UnknownOperandType    // P
    | NoArithmeticE         // E
    | NoArithmetic          // H, T
    | IllegalOperator       // D
    | NoArithmeticOrParen   // G
    | NoArithmeticOrParenL  // L

  /** The outcome of looking a non-terminal up on a lookahead word:
      the right-hand side in push order (its LAST element becomes the new
      top of the stack), or an error. */
  datatype Production = Push(rhs: seq<Symbol>) | Reject(kind: ErrorKind)

  /** Terminal matching rule: any constant word, a word spelled like the
      terminal, or an identifier where `id` is expected. */
  predicate TerminalMatches(lex: Lexicon, t: string, w: Word) {
    lex.isConst(w) || t == w.value || (t == "id" && w.kind == Identifier)
  }

  /** Lookahead of an operand: identifier, integer constant or `(`. */
  predicate StartsOperand(w: Word) {
    w.kind == Identifier || w.kind == IntConst || w.value == "("
  }

  /** Lookahead of an arithmetic term: also character and boolean constants. */
  predicate StartsTerm(w: Word) {
    w.kind == Identifier || w.kind == IntConst || w.kind == CharConst
    || w.kind == BoolConst || w.value == "("
  }

  /** The non-terminals that have an empty alternative and so never reject. */
  predicate Nullable(n: NonTerminal) {
    n in {A, B, C, X, Z1, U1, R, E1, H1, L1, T1, F, O, Q}
  }

  /** No production pushes the end marker. */
  predicate EndFree(rhs: seq<Symbol>) {
    End !in rhs
  }

  /** The catalog: the alternative of `n` selected by the lookahead `w`. */
  function Expand(lex: Lexicon, n: NonTerminal, w: Word): (p: Production)
    ensures p.Push? ==> EndFree(p.rhs)
    ensures Nullable(n) ==> p.Push?
  {
    match n
    case B => ExpandStatement(w)
    case E => ExpandCondition(lex, n, w)
    case E1 => ExpandCondition(lex, n, w)
    case H => ExpandCondition(lex, n, w)
    case H1 => ExpandCondition(lex, n, w)
    case D => ExpandCondition(lex, n, w)
    case G => ExpandCondition(lex, n, w)
    case L => ExpandArithmetic(n, w)
    case L1 => ExpandArithmetic(n, w)
    case T => ExpandArithmetic(n, w)
    case T1 => ExpandArithmetic(n, w)
    case F => ExpandArithmetic(n, w)
    case _ => ExpandDeclaration(lex, n, w)
  }

  /** Program, statement lists, declarations, assignments, `printf` operand
      and the `for` step. */
  function ExpandDeclaration(lex: Lexicon, n: NonTerminal, w: Word): (p: Production)
    requires n in {S, A, C, X, Y, Z, Z1, U, U1, R, P, O, Q}
    ensures p.Push? ==> EndFree(p.rhs)
    ensures Nullable(n) ==> p.Push?
  {
    match n
    case S =>
      if w.value == "void" then
        Push([Term("}"), NonTerm(A), Term("{"), Term(")"), Term("("), Term("main"), Term("void")])
      else Reject(MainNotVoid)
    case A =>
      if w.value != "else" && lex.isNotStartKey(w.value) then Push([NonTerm(A), NonTerm(C)])
      else if w.kind == Identifier then Push([NonTerm(A), NonTerm(C)])
      else Push([])
    case C =>
      Push([NonTerm(R), NonTerm(B), NonTerm(X)])
    case X =>
      if lex.isDataType(w.value) then Push([Term(";"), NonTerm(Z), NonTerm(Y)]) else Push([])
    case Y =>
      if lex.isDataType(w.value) then Push([Term(w.value)]) else Reject(IllegalDataType)
    case Z =>
      if w.kind == Identifier then Push([NonTerm(Z1), NonTerm(U)]) else Reject(IllegalIdentifier)
    case Z1 =>
      if w.value == "," then Push([NonTerm(Z), Term(w.value)]) else Push([])
    case U =>
      if w.kind == Identifier then Push([NonTerm(U1), Term("id"), Act(AssU)])
      else Reject(IllegalIdentifier)
    case U1 =>
      if w.value == "=" then Push([Act(EqU1), NonTerm(L), Term(w.value)]) else Push([])
    case R =>
      if w.kind == Identifier then
        Push([Term(";"), Act(Eq), NonTerm(L), Term("="), Term("id"), Act(AssR)])
      else Push([])
    case P =>
      if w.kind == Identifier then Push([Term("id"), Act(AssP)])
      else if w.kind == IntConst then Push([Term("num"), Act(AssP)])
      else if w.kind == CharConst then Push([Term("ch"), Act(AssP)])
      else if w.kind == StringConst then Push([Term("str"), Act(AssP)])
      else Reject(UnknownOperandType)
    case O =>
      if lex.isSelfOperator(w.value) then Push([Term(w.value), Act(SingleOp)]) else Push([])
    case Q =>
      if w.kind == Identifier then Push([NonTerm(O), Term("id"), Act(AssQ)]) else Push([])
  }

  /** The words that start a statement. */
  predicate StatementKeyword(s: string) {
    s == "printf" || s == "scanf" || s == "if" || s == "while" || s == "for"
  }

  /** B: the statement keywords `printf`, `scanf`, `if`, `while`, `for`. */
  function ExpandStatement(w: Word): (p: Production)
    ensures p.Push? && EndFree(p.rhs)
    ensures p.rhs == [] <==> !StatementKeyword(w.value)
    ensures p.rhs != [] ==>
      || p.rhs[|p.rhs| - 1] == Term(w.value)
      || (w.value == "printf" && p.rhs[|p.rhs| - 1] == Act(Printf))
      || (w.value == "scanf" && p.rhs[|p.rhs| - 1] == Act(Scanf))
  {
    var v := w.value;
    if v == "printf" then
      var rhs := [Term(";"), NonTerm(A), Term(")"), NonTerm(P), Term("("), Act(Printf)];
      assert End !in rhs;
      Push(rhs)
    else if v == "scanf" then
      var rhs := [Term(";"), NonTerm(A), Term(")"), Term("id"), Term("("), Act(Scanf)];
      assert End !in rhs;
      Push(rhs)
    else if v == "if" then
      var rhs := [Act(IfBackpatchRj), Term("}"), NonTerm(A), Term("{"), Term("else"),
                  Act(IfRj), Act(IfBackpatchFj), Term("}"), NonTerm(A), Term("{"),
                  Act(IfFj), Term(")"), NonTerm(G), Term("("), Term("if")];
      assert End !in rhs;
      Push(rhs)
    else if v == "while" then
      var rhs := [Act(WhileRj), Act(WhileBackpatchFj), Term("}"), NonTerm(A), Term("{"),
                  Act(WhileFj), Term(")"), NonTerm(G), Term("("), Term("while")];
      assert End !in rhs;
      Push(rhs)
    else if v == "for" then
      var rhs := [Act(ForBackpatchFj), Act(ForRj), Term("}"), Act(Single), NonTerm(A), Term("{"),
                  Term(")"), NonTerm(Q), Term(";"), NonTerm(G), Act(ForFj), Term(";"),
                  NonTerm(Z), NonTerm(Y), Term("("), Term("for")];
      assert End !in rhs;
      Push(rhs)
    else Push([])
  }

  /** The `for` production places `@FOR_FJ` above G (a later index is
      nearer the top), so the false jump runs before the loop condition is
      parsed. */
  lemma ForFalseJumpPrecedesCondition(w: Word)
    requires w.value == "for"
    ensures var rhs := ExpandStatement(w).rhs;
      exists i, j | 0 <= i < j < |rhs| :: rhs[i] == NonTerm(G) && rhs[j] == Act(ForFj)
  {
    var rhs := ExpandStatement(w).rhs;
    assert rhs[9] == NonTerm(G) && rhs[10] == Act(ForFj);
  }

  /** Conditions: E, E', H, H', D, G. */
  function ExpandCondition(lex: Lexicon, n: NonTerminal, w: Word): (p: Production)
    requires n in {E, E1, H, H1, D, G}
    ensures p.Push? ==> EndFree(p.rhs)
    ensures Nullable(n) ==> p.Push?
  {
    match n
    case E =>
      if StartsOperand(w) then Push([NonTerm(E1), NonTerm(H)]) else Reject(NoArithmeticE)
    case E1 =>
      // selects `&&` on the lookahead `=`, as written
      if w.value == "=" then Push([NonTerm(E), Term("&&")]) else Push([])
    case H =>
      if StartsOperand(w) then Push([NonTerm(H1), NonTerm(G)]) else Reject(NoArithmetic)
    case H1 =>
      if w.value == "||" then Push([NonTerm(E), Term("||")]) else Push([])
    case D =>
      if lex.isComparisonOperator(w.value) then Push([Term(w.value), Act(CompareOp)])
      else Reject(IllegalOperator)
    case G =>
      if w.kind == Identifier || w.kind == IntConst then
        Push([Act(Compare), NonTerm(F), NonTerm(D), NonTerm(F)])
      else if w.value == "(" then Push([Term(")"), NonTerm(E), Term("(")])
      else if w.value == "!" then Push([NonTerm(E), Term("!")])
      else Reject(NoArithmeticOrParen)
  }

  /** Arithmetic: L, L', T, T', F. */
  function ExpandArithmetic(n: NonTerminal, w: Word): (p: Production)
    requires n in {L, L1, T, T1, F}
    ensures p.Push? ==> EndFree(p.rhs)
    ensures Nullable(n) ==> p.Push?
  {
    match n
    case L =>
      if StartsTerm(w) then Push([Act(AddSub), NonTerm(L1), NonTerm(T)])
      else Reject(NoArithmeticOrParenL)
    case L1 =>
      // the minus alternative pushes a `+` terminal, as written
      if w.value == "+" then Push([Act(Add), NonTerm(L), Term("+")])
      else if w.value == "-" then Push([Act(Sub), NonTerm(L), Term("+")])
      else Push([])
    case T =>
      if StartsTerm(w) then Push([Act(DivMul), NonTerm(T1), NonTerm(F)]) else Reject(NoArithmetic)
    case T1 =>
      if w.value == "*" then Push([Act(Mul), NonTerm(T), Term("*")])
      else if w.value == "/" then Push([Act(Div), NonTerm(T), Term("/")])
      else Push([])
    case F =>
      if w.kind == Identifier then Push([Term("id"), Act(AssF)])
      else if w.kind == IntConst || w.kind == BoolConst then Push([Term("num"), Act(AssF)])
      else if w.kind == CharConst then Push([Term("ch"), Act(AssF)])
      else if w.value == "(" then Push([Term(")"), NonTerm(L), Term("(")])
      else Push([])
  }

  /** Predictive consistency: whenever an expansion leaves a terminal on top,
      that terminal matches the very word that selected the alternative —
      for every non-terminal except `E'` and `L'`. */
  lemma PredictedTerminalMatches(lex: Lexicon, n: NonTerminal, w: Word)
    requires n != E1 && n != L1
    requires Expand(lex, n, w).Push?
    requires |Expand(lex, n, w).rhs| > 0
    requires Expand(lex, n, w).rhs[|Expand(lex, n, w).rhs| - 1].Term?
    ensures TerminalMatches(lex, Expand(lex, n, w).rhs[|Expand(lex, n, w).rhs| - 1].text, w)
  {
  }

  /** `E'` is selected by `=` but leaves `&&` on top, which a non-constant
      `=` word then fails to match. */
  lemma AndSelectedByAssign(lex: Lexicon, w: Word)
    requires w.value == "="
    ensures Expand(lex, E1, w) == Push([NonTerm(E), Term("&&")])
    ensures !lex.isConst(w) ==> !TerminalMatches(lex, "&&", w)
  {
  }

  /** `L'` on `-` stages a subtraction but leaves `+` on top, which a
      non-constant `-` word then fails to match. */
  lemma MinusExpectsPlus(lex: Lexicon, w: Word)
    requires w.value == "-"
    ensures Expand(lex, L1, w) == Push([Act(Sub), NonTerm(L), Term("+")])
    ensures !lex.isConst(w) ==> !TerminalMatches(lex, "+", w)
  {
  }
}
