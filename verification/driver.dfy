/** The LL(1) driver: the analysis stack, the word list, the error list and
    the step loop that matches terminals, expands non-terminals through the
    catalog and runs action markers through the interpreter. */
module Driver {
  import opened Stacks
  import opened Tokens
  import opened Symbols
  import opened Catalog
  import opened Semantics

  /** A recorded error: its kind, the line and the text of the offending word. */
  datatype ErrorRecord = ErrorRecord(kind: ErrorKind, line: int, value: string)

  /** One trace entry: the analysis stack, the remaining words and the
      semantic stack as they were when an iteration began. */
  datatype Snapshot = Snapshot(stack: seq<Symbol>, words: seq<Word>, sem: seq<string>)

  /** The parser's state. The analysis stack has its top at the end; the
      word list is consumed from the front. */
  datatype Parser = Parser(
    stack: seq<Symbol>,
    words: seq<Word>,
    errors: seq<ErrorRecord>,
    errorFlag: bool,
    tr: Translator,
    trace: seq<Snapshot>)

  /** How a run ended: the loop stopped, or an action threw. */
  datatype Run = Halted(p: Parser, steps: nat) | Threw(p: Parser, steps: nat)

  /** The iteration ceiling of the loop. */
  const Fuel: nat := 5000

  /** `forward`: pops the analysis stack and drops the first word. */
  function Forward(p: Parser): (r: Parser)
    ensures r.stack == Pop(p.stack) && r.words == Behead(p.words)
    ensures r.errors == p.errors && r.errorFlag == p.errorFlag
    ensures r.tr == p.tr && r.trace == p.trace
  {
    p.(stack := Pop(p.stack), words := Behead(p.words))
  }

  /** `newError`: removes one stack symbol and one word, appends one error
      carrying the word's line and text, and raises the error flag. */
  function NewError(p: Parser, kind: ErrorKind, w: Word): (r: Parser)
    ensures r.stack == Pop(p.stack) && r.words == Behead(p.words)
    ensures r.errors == p.errors + [ErrorRecord(kind, w.line, w.value)]
    ensures r.errorFlag
    ensures r.tr == p.tr && r.trace == p.trace
  {
    var q := Forward(p);
    q.(errors := q.errors + [ErrorRecord(kind, w.line, w.value)], errorFlag := true)
  }

  function TopOf(p: Parser): Symbol
    requires |p.stack| > 0
  {
    p.stack[|p.stack| - 1]
  }

  /** `terminalSymbol`: the word is consumed without error exactly when it
      matches the terminal; otherwise the error path removes them both. */
  function TerminalSymbol(lex: Lexicon, p: Parser): (r: Parser)
    requires |p.stack| > 0 && |p.words| > 0 && TopOf(p).Term?
    ensures r.stack == p.stack[..|p.stack| - 1] && r.words == p.words[1..]
    ensures r.errors == p.errors <==> TerminalMatches(lex, TopOf(p).text, p.words[0])
    ensures !TerminalMatches(lex, TopOf(p).text, p.words[0]) ==>
      r.errors == p.errors + [ErrorRecord(Mismatch, p.words[0].line, p.words[0].value)] && r.errorFlag
    ensures TerminalMatches(lex, TopOf(p).text, p.words[0]) ==> r.errorFlag == p.errorFlag
    ensures r.tr == p.tr
  {
    var w := p.words[0];
    if TerminalMatches(lex, TopOf(p).text, w) then Forward(p) else NewError(p, Mismatch, w)
  }

  /** `nonTerminalSymbol`: replaces the top by the selected right-hand side
      in push order, consuming no word; a rejected lookahead takes the
      error path instead. */
  function NonTerminalSymbol(lex: Lexicon, p: Parser): (r: Parser)
    requires |p.stack| > 0 && |p.words| > 0 && TopOf(p).NonTerm?
    ensures var pr := Expand(lex, TopOf(p).nt, p.words[0]);
      pr.Push? ==>
        && r.stack == p.stack[..|p.stack| - 1] + pr.rhs
        && |r.stack| == |p.stack| - 1 + |pr.rhs|
        && (|pr.rhs| > 0 ==> r.stack[|r.stack| - 1] == pr.rhs[|pr.rhs| - 1])
        && r.words == p.words && r.errors == p.errors && r.errorFlag == p.errorFlag
    ensures var pr := Expand(lex, TopOf(p).nt, p.words[0]);
      pr.Reject? ==>
        && r.stack == p.stack[..|p.stack| - 1] && r.words == p.words[1..]
        && r.errors == p.errors + [ErrorRecord(pr.kind, p.words[0].line, p.words[0].value)]
        && r.errorFlag
    ensures r.tr == p.tr
  {
    var w := p.words[0];
    match Expand(lex, TopOf(p).nt, w)
    case Push(rhs) => p.(stack := p.stack[..|p.stack| - 1] + rhs)
    case Reject(kind) => NewError(p, kind, w)
  }

  /** `actionSymbol`: runs the marker, pops exactly that marker, and drops
      one word for `printf` and `scanf` only. None when the action throws. */
  function ActionSymbol(p: Parser): (r: Option<Parser>)
    requires |p.stack| > 0 && |p.words| > 0 && TopOf(p).Act?
    ensures r.Some? <==> Translate(p.tr, TopOf(p).action, p.words[0]).Some?
    ensures r.Some? ==> r.value.stack == p.stack[..|p.stack| - 1]
    ensures r.Some? ==>
              r.value.words == (if TopOf(p).action in {Printf, Scanf} then p.words[1..] else p.words)
    ensures r.Some? ==> r.value.tr == Translate(p.tr, TopOf(p).action, p.words[0]).value
    ensures r.Some? ==> r.value.errors == p.errors && r.value.errorFlag == p.errorFlag
  {
    var a := TopOf(p).action;
    match Translate(p.tr, a, p.words[0])
    case None => None
    case Some(tr) =>
      var words := if a == Printf || a == Scanf then p.words[1..] else p.words;
      Some(p.(tr := tr, stack := p.stack[..|p.stack| - 1], words := words))
  }

  /** One iteration of the loop body after its guards: accept, pop a
      stray end marker, match a terminal, expand a non-terminal or run an
      action. */
  function Step(lex: Lexicon, p: Parser): (r: Option<Parser>)
    requires |p.stack| > 0 && |p.words| > 0
    ensures Name(TopOf(p)) == "$" && p.words[0].value == "$" ==>
      r == Some(p.(stack := p.stack[..|p.stack| - 1], words := p.words[1..]))
    ensures Name(TopOf(p)) == "$" && p.words[0].value != "$" ==>
      r == Some(p.(stack := p.stack[..|p.stack| - 1], errorFlag := true))
    ensures r.None? ==> TopOf(p).Act?
    ensures r.Some? ==> p.errors <= r.value.errors && |r.value.errors| <= |p.errors| + 1
    ensures r.Some? ==> (p.errorFlag ==> r.value.errorFlag)
    ensures r.Some? ==> r.value.trace == p.trace
    ensures r.Some? ==> |p.words| - 1 <= |r.value.words| <= |p.words|
    ensures r.Some? && !(TopOf(p).NonTerm? && Expand(lex, TopOf(p).nt, p.words[0]).Push?) ==>
      |r.value.stack| == |p.stack| - 1
  {
    var top := TopOf(p);
    var w := p.words[0];
    if w.value == "$" && Name(top) == "$" then Some(Forward(p))
    else if Name(top) == "$" then Some(p.(stack := Pop(p.stack), errorFlag := true))
    else if top.Term? then Some(TerminalSymbol(lex, p))
    else if top.NonTerm? then Some(NonTerminalSymbol(lex, p))
    else ActionSymbol(p)
  }

  function SnapshotOf(p: Parser): Snapshot {
    Snapshot(p.stack, p.words, p.tr.sem)
  }

  /** The `analyse` loop from its `count`-th iteration on: it runs while both
      stacks are non-empty and fewer than `Fuel` iterations have begun,
      records one trace entry per iteration, and stops with the error flag
      raised when the word list runs out. */
  function Drive(lex: Lexicon, p: Parser, count: nat): (r: Run)
    requires count <= Fuel
    ensures count <= r.steps <= Fuel
    ensures |r.p.trace| == |p.trace| + (r.steps - count)
    ensures p.errors <= r.p.errors
    ensures p.errorFlag ==> r.p.errorFlag
    decreases Fuel - count
  {
    if |p.stack| == 0 || |p.tr.sem| == 0 || count == Fuel then Halted(p, count)
    else
      var q := p.(trace := p.trace + [SnapshotOf(p)]);
      if |q.words| == 0 then Halted(q.(errorFlag := true), count + 1)
      else
        match Step(lex, q)
        case None => Threw(q, count + 1)
        case Some(q') => Drive(lex, q', count + 1)
  }

  /** The parser as constructed, before `analyse` pushes anything. */
  function Unstarted(words: seq<Word>): Parser {
    Parser([], words, [], false, Blank, [])
  }

  /** The parser as `analyse` seeds it: `$ S` on the analysis stack, `$` on
      the semantic stack. */
  function Seeded(words: seq<Word>): Parser {
    Parser([End, NonTerm(S)], words, [], false, Blank.(sem := ["$"]), [])
  }

  /** The constructor and `analyse`: nothing runs when the lexer flagged an
      error or produced no words; otherwise the loop runs for at least one
      and at most `Fuel` iterations, one trace entry each. */
  function Analyse(lex: Lexicon, lexicalError: bool, words: seq<Word>): (r: Run)
    ensures lexicalError || |words| == 0 ==> r == Halted(Unstarted(words), 0)
    ensures !lexicalError && |words| > 0 ==> 1 <= r.steps <= Fuel && |r.p.trace| == r.steps
  {
    if |words| == 0 || lexicalError then Halted(Unstarted(words), 0)
    else Drive(lex, Seeded(words), 0)
  }

  // ----- invariants of the run ---------------------------------------------

  /** The end marker sits at the bottom of the analysis stack and nowhere else. */
  ghost predicate Bottomed(stack: seq<Symbol>) {
    |stack| == 0 || (stack[0] == End && forall i | 1 <= i < |stack| :: !stack[i].End?)
  }

  /** What every iteration preserves: the bottom marker, the namer's
      `T0, T1, …` list, and pending positions that name existing quadruples. */
  ghost predicate Inv(p: Parser) {
    Bottomed(p.stack) && TempsWellNamed(p.tr.temps) && JumpsInRange(p.tr)
  }

  lemma BottomedPop(stack: seq<Symbol>)
    requires Bottomed(stack) && |stack| > 0
    ensures Bottomed(stack[..|stack| - 1])
  {
  }

  lemma BottomedPush(stack: seq<Symbol>, rhs: seq<Symbol>)
    requires Bottomed(stack) && |stack| > 1 && EndFree(rhs)
    ensures Bottomed(stack[..|stack| - 1] + rhs)
  {
    var s := stack[..|stack| - 1] + rhs;
    forall i | 1 <= i < |s| ensures !s[i].End? {
      if i < |stack| - 1 {
        assert s[i] == stack[i];
      } else {
        assert s[i] == rhs[i - (|stack| - 1)];
        assert s[i] in rhs;
      }
    }
  }

  /** An end marker on top of a well-bottomed stack is its only entry. */
  lemma EndOnTopIsAlone(stack: seq<Symbol>)
    requires Bottomed(stack) && |stack| > 0 && stack[|stack| - 1] == End
    ensures |stack| == 1
  {
  }

  /** Every successful iteration preserves the invariant. */
  lemma StepKeepsInvariant(lex: Lexicon, p: Parser)
    requires |p.stack| > 0 && |p.words| > 0 && Inv(p)
    requires Step(lex, p).Some?
    ensures Inv(Step(lex, p).value)
  {
    var top := TopOf(p);
    var r := Step(lex, p).value;
    BottomedPop(p.stack);
    if Name(top) == "$" {
    } else if top.Term? {
    } else if top.NonTerm? {
      var pr := Expand(lex, top.nt, p.words[0]);
      if pr.Push? {
        if |p.stack| == 1 {
          assert false;
        }
        BottomedPush(p.stack, pr.rhs);
      }
    } else {
      DollarNamed(top);
      TranslatePreserves(p.tr, top.action, p.words[0]);
    }
  }

  /** With the invariant in force, an iteration throws exactly when the top
      is a backpatch marker whose pending-jump stack is empty. */
  lemma StepThrowsOnlyOnEmptyPatch(lex: Lexicon, p: Parser)
    requires |p.stack| > 0 && |p.words| > 0 && Inv(p)
    ensures Step(lex, p).None? <==>
      && TopOf(p).Act?
      && Patches(TopOf(p).action).Some?
      && |PendingOf(p.tr, Patches(TopOf(p).action).value)| == 0
  {
    var top := TopOf(p);
    DollarNamed(top);
    if top.Act? {
      TranslateFailsOnlyOnEmptyPatch(p.tr, top.action, p.words[0]);
    }
  }

  /** The loop's value, one iteration unfolded: whether it stops before
      the iteration, stops on an empty word list, throws, or continues
      from the next state. */
  lemma DriveUnfold(lex: Lexicon, p: Parser, count: nat)
    requires count <= Fuel
    ensures var q := p.(trace := p.trace + [SnapshotOf(p)]);
      Drive(lex, p, count) ==
        if |p.stack| == 0 || |p.tr.sem| == 0 || count == Fuel then Halted(p, count)
        else if |q.words| == 0 then Halted(q.(errorFlag := true), count + 1)
        else if Step(lex, q).None? then Threw(q, count + 1)
        else Drive(lex, Step(lex, q).value, count + 1)
  {
  }

  /** The whole remaining loop preserves the invariant, whether it halts or throws. */
  lemma {:induction false} DriveKeepsInvariant(lex: Lexicon, p: Parser, count: nat)
    requires count <= Fuel && Inv(p)
    ensures Inv(Drive(lex, p, count).p)
    decreases Fuel - count
  {
    DriveUnfold(lex, p, count);
    var q := p.(trace := p.trace + [SnapshotOf(p)]);
    assert Inv(q);
    if |p.stack| > 0 && |p.tr.sem| > 0 && count < Fuel && |q.words| > 0 && Step(lex, q).Some? {
      StepKeepsInvariant(lex, q);
      DriveKeepsInvariant(lex, Step(lex, q).value, count + 1);
    }
  }

  /** After any run, the temporaries issued are `T0, T1, …` in order and
      pairwise distinct, and every pending position names a quadruple. */
  lemma AnalyseIssuesDistinctTemps(lex: Lexicon, lexicalError: bool, words: seq<Word>)
    ensures var tr := Analyse(lex, lexicalError, words).p.tr;
      && (forall i | 0 <= i < |tr.temps| :: tr.temps[i] == TempName(i))
      && (forall i, j | 0 <= i < j < |tr.temps| :: tr.temps[i] != tr.temps[j])
      && JumpsInRange(tr)
  {
    if |words| > 0 && !lexicalError {
      assert Inv(Seeded(words));
      DriveKeepsInvariant(lex, Seeded(words), 0);
    }
    TempNamesDistinct(Analyse(lex, lexicalError, words).p.tr.temps);
  }

  /** Accepting: with the end marker on top and the word `$`, both are
      popped, the analysis stack is left empty and the loop ends after
      this iteration. */
  lemma AcceptEndsTheLoop(lex: Lexicon, p: Parser, count: nat)
    requires count < Fuel && Inv(p) && |p.tr.sem| > 0
    requires |p.stack| > 0 && TopOf(p) == End
    requires |p.words| > 0 && p.words[0].value == "$"
    ensures Drive(lex, p, count).Halted?
    ensures Drive(lex, p, count).steps == count + 1
    ensures Drive(lex, p, count).p.stack == []
    ensures Drive(lex, p, count).p.words == p.words[1..]
  {
    EndOnTopIsAlone(p.stack);
  }

  /** An empty word list raises the error flag and stops the loop. */
  lemma ExhaustedInputStops(lex: Lexicon, p: Parser, count: nat)
    requires count < Fuel && |p.stack| > 0 && |p.tr.sem| > 0 && |p.words| == 0
    ensures Drive(lex, p, count).Halted?
    ensures Drive(lex, p, count).steps == count + 1
    ensures Drive(lex, p, count).p.errorFlag
    ensures Drive(lex, p, count).p.stack == p.stack
  {
  }
}
