/** The symbols that live on the analysis stack: terminals, non-terminals,
    semantic-action markers and the bottom end marker `$`. */
module Symbols {

  /** The grammar's non-terminals. `Z1` … `T1` are the primed ones
      (`Z'`, `U'`, `E'`, `H'`, `L'`, `T'`). */
  datatype NonTerminal =
    | S | A | B | C | X | Y | Z | Z1 | U | U1 | R | P
    | E | E1 | H | H1 | D | G | L | L1 | T | T1 | F | O | Q

  /** The semantic-action markers the action interpreter dispatches on. */
  datatype Action =
    | Printf | Scanf
    | AddSub | Add | Sub | DivMul | Div | Mul | TranLf
    | AssF | AssR | AssQ | AssU | AssP
    | Single | SingleOp | Eq | EqU1 | Compare | CompareOp
    | IfFj | IfBackpatchFj | IfRj | IfBackpatchRj
    | WhileFj | WhileRj | WhileBackpatchFj
    | ForFj | ForRj | ForBackpatchFj

  /** An analysis-stack entry. */
  datatype Symbol =
    | Term(text: string)
    | NonTerm(nt: NonTerminal)
    | Act(action: Action)
    | End

  function NonTerminalName(n: NonTerminal): string {
    match n
    case S => "S"   case A => "A"   case B => "B"   case C => "C"
    case X => "X"   case Y => "Y"   case Z => "Z"   case Z1 => "Z'"
    case U => "U"   case U1 => "U'" case R => "R"   case P => "P"
    case E => "E"   case E1 => "E'" case H => "H"   case H1 => "H'"
    case D => "D"   case G => "G"   case L => "L"   case L1 => "L'"
    case T => "T"   case T1 => "T'" case F => "F"   case O => "O"
    case Q => "Q"
  }

  function ActionName(a: Action): string {
    match a
    case Printf => "printf"
    case Scanf => "scanf"
    case AddSub => "@ADD_SUB"
    case Add => "@ADD"
    case Sub => "@SUB"
    case DivMul => "@DIV_MUL"
    case Div => "@DIV"
    case Mul => "@MUL"
    case TranLf => "@TRAN_LF"
    case AssF => "@ASS_F"
    case AssR => "@ASS_R"
    case AssQ => "@ASS_Q"
    case AssU => "@ASS_U"
    case AssP => "@ASS_P"
    case Single => "@SINGLE"
    case SingleOp => "@SINGLE_OP"
    case Eq => "@EQ"
    case EqU1 => "@EQ_U'"
    case Compare => "@COMPARE"
    case CompareOp => "@COMPARE_OP"
    case IfFj => "@IF_FJ"
    case IfBackpatchFj => "@IF_BACKPATCH_FJ"
    case IfRj => "@IF_RJ"
    case IfBackpatchRj => "@IF_BACKPATCH_RJ"
    case WhileFj => "@WHILE_FJ"
    case WhileRj => "@WHILE_RJ"
    case WhileBackpatchFj => "@WHILE_BACKPATCH_FJ"
    case ForFj => "@FOR_FJ"
    case ForRj => "@FOR_RJ"
    case ForBackpatchFj => "@FOR_BACKPATCH_FJ"
  }

  /** The `name` the driver compares with `'$'`. */
  function Name(s: Symbol): string {
    match s
    case Term(t) => t
    case NonTerm(n) => NonTerminalName(n)
    case Act(a) => ActionName(a)
    case End => "$"
  }

  /** Only the end marker and a terminal spelled `$` are named `$`. */
  lemma DollarNamed(s: Symbol)
    ensures Name(s) == "$" <==> s == End || s == Term("$")
  {
    match s
    case Term(t) =>
    case NonTerm(n) =>
    case Act(a) =>
    case End =>
  }
}
