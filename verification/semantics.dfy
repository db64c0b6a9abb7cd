/** The semantic-action interpreter: the semantic stack, the temporary
    namer, the quadruple list, the staged `op`/`arg1`/`arg2`/`res`
    registers and the pending-jump stacks, and what each action marker
    does to them. */
module Semantics {
  import opened Stacks
  import opened Decimal
  import opened Tokens
  import opened Symbols
  import opened Quadruples

  /** State of the interpreter. Stacks have their top at the end; the
      pending-jump stacks hold 1-based quadruple positions. */
  datatype Translator = Translator(
    sem: seq<string>,
    quads: seq<Quad>,
    temps: seq<string>,
    op: Val, arg1: Val, arg2: Val, res: Val,
    ifFj: seq<nat>, ifRj: seq<nat>,
    whileFj: seq<nat>, whileRj: seq<nat>,
    forFj: seq<nat>, forRj: seq<nat>,
    forOp: seq<string>)

  /** The interpreter before any parse: every list empty, every register unset. */
  const Blank: Translator :=
    Translator([], [], [], Undef, Undef, Undef, Undef, [], [], [], [], [], [], [])

  // ----- temporaries -------------------------------------------------------

  /** The name of the k-th temporary. */
  function TempName(k: nat): string {
    "T" + NatToString(k)
  }

  /** The namer's list holds exactly `T0, T1, …` in issue order. */
  ghost predicate TempsWellNamed(temps: seq<string>) {
    forall i | 0 <= i < |temps| :: temps[i] == TempName(i)
  }

  lemma TempNameInjective(i: nat, j: nat)
    ensures TempName(i) == TempName(j) ==> i == j
  {
    if TempName(i) == TempName(j) {
      assert TempName(i)[1..] == NatToString(i);
      assert TempName(j)[1..] == NatToString(j);
      NatToStringInjective(i, j);
    }
  }

  /** `newTempVariable` and `newVariable` (which are the same code): the
      next name is `T` followed by the number of names issued so far; it is
      appended to the list and differs from every name issued before. */
  function NewTemp(tr: Translator): (r: (string, Translator))
    ensures r.1 == tr.(temps := tr.temps + [r.0])
    ensures r.0 == TempName(|tr.temps|)
    ensures TempsWellNamed(tr.temps) ==> r.0 !in tr.temps && TempsWellNamed(r.1.temps)
  {
    var name := TempName(|tr.temps|);
    var tr' := tr.(temps := tr.temps + [name]);
    assert TempsWellNamed(tr.temps) ==> name !in tr.temps by {
      if TempsWellNamed(tr.temps) && name in tr.temps {
        var i :| 0 <= i < |tr.temps| && tr.temps[i] == name;
        TempNameInjective(i, |tr.temps|);
      }
    }
    (name, tr')
  }

  /** All temporaries of a well-named list are pairwise distinct. */
  lemma TempNamesDistinct(temps: seq<string>)
    requires TempsWellNamed(temps)
    ensures forall i, j | 0 <= i < j < |temps| :: temps[i] != temps[j]
  {
    forall i, j | 0 <= i < j < |temps|
      ensures temps[i] != temps[j]
    {
      TempNameInjective(i, j);
    }
  }

  // ----- semantic stack ----------------------------------------------------

  /** JavaScript `pop`: the top (or `undefined`) and the remaining stack. */
  function PopVal(s: seq<string>): (r: (Val, seq<string>))
    ensures |s| > 0 ==> r == (Text(s[|s| - 1]), s[..|s| - 1])
    ensures |s| == 0 ==> r == (Undef, [])
  {
    if |s| == 0 then (Undef, []) else (Text(s[|s| - 1]), s[..|s| - 1])
  }

  /** The `top` helper: the top, or `null` on an empty stack. */
  function TopVal(s: seq<string>): Val {
    match Top(s)
    case None => Null
    case Some(v) => Text(v)
  }

  // ----- pending jumps -----------------------------------------------------

  /** The six pending-jump stacks. */
  datatype Pending = IfF | IfR | WhileF | WhileR | ForF | ForR

  function PendingOf(tr: Translator, k: Pending): seq<nat> {
    match k
    case IfF => tr.ifFj
    case IfR => tr.ifRj
    case WhileF => tr.whileFj
    case WhileR => tr.whileRj
    case ForF => tr.forFj
    case ForR => tr.forRj
  }

  function WithPending(tr: Translator, k: Pending, s: seq<nat>): (r: Translator)
    ensures PendingOf(r, k) == s
    ensures forall k' | k' != k :: PendingOf(r, k') == PendingOf(tr, k')
    ensures r.sem == tr.sem && r.quads == tr.quads && r.temps == tr.temps
    ensures r.op == tr.op && r.arg1 == tr.arg1 && r.arg2 == tr.arg2 && r.res == tr.res
    ensures r.forOp == tr.forOp
  {
    match k
    case IfF => tr.(ifFj := s)
    case IfR => tr.(ifRj := s)
    case WhileF => tr.(whileFj := s)
    case WhileR => tr.(whileRj := s)
    case ForF => tr.(forFj := s)
    case ForR => tr.(forRj := s)
  }

  ghost predicate InRange(s: seq<nat>, n: nat) {
    forall i | 0 <= i < |s| :: 1 <= s[i] <= n
  }

  /** Every recorded position names an existing quadruple. */
  ghost predicate JumpsInRange(tr: Translator) {
    var n := |tr.quads|;
    && InRange(tr.ifFj, n) && InRange(tr.ifRj, n)
    && InRange(tr.whileFj, n) && InRange(tr.whileRj, n)
    && InRange(tr.forFj, n) && InRange(tr.forRj, n)
  }

  lemma PendingInRange(tr: Translator, k: Pending)
    requires JumpsInRange(tr)
    ensures InRange(PendingOf(tr, k), |tr.quads|)
  {
  }

  /** `backPatch(i, r)`: rewrites the result of the i-th quadruple (1-based)
      to the decimal text of `target`; the JavaScript throws (None) when no
      such quadruple exists. */
  function BackPatch(q: seq<Quad>, i: int, target: nat): (r: Option<seq<Quad>>)
    ensures r.Some? <==> 1 <= i <= |q|
    ensures r.Some? ==> |r.value| == |q|
    ensures r.Some? ==> r.value[i - 1] == q[i - 1].(result := Text(NatToString(target)))
    ensures r.Some? ==> forall j | 0 <= j < |q| && j != i - 1 :: r.value[j] == q[j]
  {
    if 1 <= i <= |q| then Some(q[i - 1 := q[i - 1].(result := Text(NatToString(target)))])
    else None
  }

  /** Patching twice with the same arguments is patching once, and the
      patched result reads back as the target. */
  lemma BackPatchIdempotent(q: seq<Quad>, i: int, target: nat)
    requires 1 <= i <= |q|
    ensures BackPatch(BackPatch(q, i, target).value, i, target) == BackPatch(q, i, target)
    ensures BackPatch(q, i, target).value[i - 1].result.Text?
    ensures AllDigits(BackPatch(q, i, target).value[i - 1].result.s)
    ensures DigitsValue(BackPatch(q, i, target).value[i - 1].result.s) == target
  {
    var once := BackPatch(q, i, target).value;
    var twice := BackPatch(once, i, target).value;
    assert twice == once by {
      assert |twice| == |once|;
      forall j | 0 <= j < |once| ensures twice[j] == once[j] {
      }
    }
    NatToStringRoundTrip(target);
  }

  /** Emits a jump quadruple and records its 1-based position on stack `k`. */
  function EmitJump(tr: Translator, k: Pending, q: Quad): (r: Translator)
    ensures r.quads == tr.quads + [q]
    ensures PendingOf(r, k) == PendingOf(tr, k) + [|r.quads|]
    ensures forall k' | k' != k :: PendingOf(r, k') == PendingOf(tr, k')
    ensures r.op == Null
    ensures r.sem == tr.sem && r.temps == tr.temps && r.forOp == tr.forOp
    ensures r.arg1 == tr.arg1 && r.arg2 == tr.arg2 && r.res == tr.res
    ensures JumpsInRange(tr) ==> JumpsInRange(r)
  {
    var t := tr.(quads := tr.quads + [q], op := Null);
    WithPending(t, k, PendingOf(tr, k) + [|t.quads|])
  }

  /** A backpatch can proceed: stack `k` is non-empty and its top names a quadruple. */
  predicate Resolvable(tr: Translator, k: Pending) {
    |PendingOf(tr, k)| > 0 && 1 <= PendingOf(tr, k)[|PendingOf(tr, k)| - 1] <= |tr.quads|
  }

  /** Pops stack `k` and patches the quadruple it names to `target`. */
  function Resolve(tr: Translator, k: Pending, target: nat): (r: Option<Translator>)
    ensures r.Some? <==> Resolvable(tr, k)
    ensures JumpsInRange(tr) ==> (Resolvable(tr, k) <==> |PendingOf(tr, k)| > 0)
    ensures r.Some? ==> PendingOf(r.value, k) == Pop(PendingOf(tr, k))
    ensures r.Some? ==> forall k' | k' != k :: PendingOf(r.value, k') == PendingOf(tr, k')
    ensures r.Some? ==> r.value.quads == BackPatch(tr.quads, PendingOf(tr, k)[|PendingOf(tr, k)| - 1], target).value
    ensures r.Some? ==> r.value.sem == tr.sem && r.value.temps == tr.temps && r.value.op == tr.op
    ensures r.Some? ==> r.value.res == tr.res && r.value.arg1 == tr.arg1 && r.value.arg2 == tr.arg2
    ensures r.Some? ==> r.value.forOp == tr.forOp
    ensures r.Some? && JumpsInRange(tr) ==> JumpsInRange(r.value)
  {
    assert JumpsInRange(tr) ==> InRange(PendingOf(tr, k), |tr.quads|) by {
      if JumpsInRange(tr) {
        PendingInRange(tr, k);
      }
    }
    if Resolvable(tr, k) then
      var s := PendingOf(tr, k);
      var q := BackPatch(tr.quads, s[|s| - 1], target).value;
      var r := WithPending(tr.(quads := q), k, Pop(s));
      assert JumpsInRange(tr) ==> JumpsInRange(r) by {
        if JumpsInRange(tr) {
          PopKeepsRange(tr, k, q);
        }
      }
      Some(r)
    else None
  }

  /** Popping one pending stack, with the list length kept, keeps every
      position in range. */
  lemma PopKeepsRange(tr: Translator, k: Pending, q: seq<Quad>)
    requires JumpsInRange(tr) && |q| == |tr.quads|
    ensures JumpsInRange(WithPending(tr.(quads := q), k, Pop(PendingOf(tr, k))))
  {
    PendingInRange(tr, k);
  }

  /** The target a loop-closing jump computes from a position stack:
      its top minus one, where a `null` top counts as 0 (so `-1`). */
  function BackTarget(s: seq<nat>): int {
    match Top(s)
    case None => -1
    case Some(k) => (k as int) - 1
  }

  // ----- operand combination ----------------------------------------------

  /** `@ADD_SUB` / `@DIV_MUL`: with a matching staged operator, pops the
      right then the left operand, names a fresh temporary, records
      `(op, left, right, temp)`, pushes the temporary and clears `op`;
      otherwise changes nothing. */
  function Combine(tr: Translator, staged: set<string>): (r: Translator)
    ensures !(tr.op.Text? && tr.op.s in staged) ==> r == tr
    ensures tr.op.Text? && tr.op.s in staged ==>
      && r.temps == tr.temps + [TempName(|tr.temps|)]
      && r.quads == tr.quads + [Quad(tr.op, r.arg1, r.arg2, Text(TempName(|tr.temps|)))]
      && r.op == Null
      && r.res == Text(TempName(|tr.temps|))
      && |r.sem| > 0 && r.sem[|r.sem| - 1] == TempName(|tr.temps|)
      && (|tr.sem| >= 2 ==>
            && r.sem == tr.sem[..|tr.sem| - 2] + [TempName(|tr.temps|)]
            && r.arg1 == Text(tr.sem[|tr.sem| - 2])
            && r.arg2 == Text(tr.sem[|tr.sem| - 1]))
      && (|tr.sem| < 2 ==>
            && r.sem == [TempName(|tr.temps|)]
            && r.arg1 == Undef
            && r.arg2 == (if |tr.sem| == 1 then Text(tr.sem[0]) else Undef))
    ensures r.ifFj == tr.ifFj && r.ifRj == tr.ifRj && r.whileFj == tr.whileFj
    ensures r.whileRj == tr.whileRj && r.forFj == tr.forFj && r.forRj == tr.forRj
    ensures r.forOp == tr.forOp
    ensures TempsWellNamed(tr.temps) ==> TempsWellNamed(r.temps)
  {
    if tr.op.Text? && tr.op.s in staged then
      var (right, s1) := PopVal(tr.sem);
      var (left, s2) := PopVal(s1);
      var (t, tr1) := NewTemp(tr);
      tr1.(sem := s2 + [t], quads := tr.quads + [Quad(tr.op, left, right, Text(t))],
           arg1 := left, arg2 := right, res := Text(t), op := Null)
    else tr
  }

  /** `@EQ` / `@EQ_U'`: pops the value then the target and records the
      assignment `(=, value, /, target)`; two entries leave the stack. */
  function Assign(tr: Translator): (r: Translator)
    ensures |tr.sem| >= 2 ==> r.sem == tr.sem[..|tr.sem| - 2]
    ensures |tr.sem| < 2 ==> r.sem == []
    ensures r.quads == tr.quads + [Quad(Text("="), r.arg1, Slash, r.res)]
    ensures |tr.sem| >= 2 ==> r.arg1 == Text(tr.sem[|tr.sem| - 1]) && r.res == Text(tr.sem[|tr.sem| - 2])
    ensures |tr.sem| == 1 ==> r.arg1 == Text(tr.sem[0]) && r.res == Undef
    ensures |tr.sem| == 0 ==> r.arg1 == Undef && r.res == Undef
    ensures r.op == Null && r.temps == tr.temps && r.arg2 == tr.arg2
    ensures r.ifFj == tr.ifFj && r.ifRj == tr.ifRj && r.whileFj == tr.whileFj
    ensures r.whileRj == tr.whileRj && r.forFj == tr.forFj && r.forRj == tr.forRj
    ensures r.forOp == tr.forOp
  {
    var (value, s1) := PopVal(tr.sem);
    var (target, s2) := PopVal(s1);
    tr.(sem := s2, quads := tr.quads + [Quad(Text("="), value, Slash, target)],
        arg1 := value, res := target, op := Null)
  }

  /** `@COMPARE`: pops right operand, comparison operator and left operand,
      records `(operator, left, right, temp)` with a fresh temporary and
      pushes it: three entries leave, one arrives. */
  function CompareOperands(tr: Translator): (r: Translator)
    ensures r.temps == tr.temps + [TempName(|tr.temps|)]
    ensures |tr.sem| >= 3 ==>
      && r.sem == tr.sem[..|tr.sem| - 3] + [TempName(|tr.temps|)]
      && r.quads == tr.quads + [Quad(Text(tr.sem[|tr.sem| - 2]), Text(tr.sem[|tr.sem| - 3]),
                                     Text(tr.sem[|tr.sem| - 1]), Text(TempName(|tr.temps|)))]
    ensures |tr.sem| < 3 ==> r.sem == [TempName(|tr.temps|)]
    ensures |tr.sem| == 2 ==>
      r.quads == tr.quads + [Quad(Text(tr.sem[0]), Undef, Text(tr.sem[1]), Text(TempName(|tr.temps|)))]
    ensures |tr.sem| == 1 ==>
      r.quads == tr.quads + [Quad(Undef, Undef, Text(tr.sem[0]), Text(TempName(|tr.temps|)))]
    ensures |tr.sem| == 0 ==>
      r.quads == tr.quads + [Quad(Undef, Undef, Undef, Text(TempName(|tr.temps|)))]
    ensures |r.quads| == |tr.quads| + 1 && r.op == Null && r.res == Text(TempName(|tr.temps|))
    ensures r.ifFj == tr.ifFj && r.ifRj == tr.ifRj && r.whileFj == tr.whileFj
    ensures r.whileRj == tr.whileRj && r.forFj == tr.forFj && r.forRj == tr.forRj
    ensures r.forOp == tr.forOp
    ensures TempsWellNamed(tr.temps) ==> TempsWellNamed(r.temps)
  {
    var (right, s1) := PopVal(tr.sem);
    var (rel, s2) := PopVal(s1);
    var (left, s3) := PopVal(s2);
    var (t, tr1) := NewTemp(tr);
    tr1.(sem := s3 + [t], quads := tr.quads + [Quad(rel, left, right, Text(t))],
         arg1 := left, arg2 := right, res := Text(t), op := Null)
  }

  /** `@ASS_P`: names a fresh variable for the printed operand; a
      non-identifier operand is first declared `(D, text, /, var)` and
      then printed through that variable, an identifier is printed
      directly, both as `(op, operand, /, /)` with the staged operator. */
  function PrintOperand(tr: Translator, w: Word): (r: Translator)
    ensures r.temps == tr.temps + [TempName(|tr.temps|)]
    ensures r.sem == tr.sem
    ensures w.kind == Identifier ==>
      r.quads == tr.quads + [Quad(tr.op, Text(w.value), Slash, Slash)]
    ensures w.kind != Identifier ==>
      r.quads == tr.quads + [Quad(Text("D"), Text(w.value), Slash, Text(TempName(|tr.temps|))),
                             Quad(tr.op, Text(TempName(|tr.temps|)), Slash, Slash)]
    ensures r.op == tr.op && r.res == Text(TempName(|tr.temps|))
    ensures r.ifFj == tr.ifFj && r.ifRj == tr.ifRj && r.whileFj == tr.whileFj
    ensures r.whileRj == tr.whileRj && r.forFj == tr.forFj && r.forRj == tr.forRj
    ensures r.forOp == tr.forOp
    ensures TempsWellNamed(tr.temps) ==> TempsWellNamed(r.temps)
  {
    var (operand, s1) := PopVal(tr.sem + [w.value]);
    assert s1 == tr.sem;
    var (v, tr1) := NewTemp(tr);
    if w.kind != Identifier then
      tr1.(quads := tr.quads + [Quad(Text("D"), operand, Slash, Text(v)), Quad(tr.op, Text(v), Slash, Slash)],
           arg1 := Text(v), res := Text(v))
    else
      tr1.(quads := tr.quads + [Quad(tr.op, operand, Slash, Slash)], arg1 := operand, res := Text(v))
  }

  /** `@SINGLE`: when a self-operator is pending, pops the operand and
      records `(++ or --, operand, /, operand)` with the most recent
      pending operator, whichever operand it was staged for. */
  function SelfStep(tr: Translator): (r: Translator)
    ensures |tr.forOp| == 0 ==> r == tr
    ensures |tr.forOp| > 0 ==>
      && r.forOp == tr.forOp[..|tr.forOp| - 1]
      && r.sem == Pop(tr.sem)
      && r.quads == tr.quads + [Quad(Text(tr.forOp[|tr.forOp| - 1]), r.arg1, Slash, r.arg1)]
      && (|tr.sem| > 0 ==> r.arg1 == Text(tr.sem[|tr.sem| - 1]))
      && (|tr.sem| == 0 ==> r.arg1 == Undef)
      && r.res == r.arg1
    ensures r.temps == tr.temps && r.op == tr.op
    ensures r.ifFj == tr.ifFj && r.ifRj == tr.ifRj && r.whileFj == tr.whileFj
    ensures r.whileRj == tr.whileRj && r.forFj == tr.forFj && r.forRj == tr.forRj
  {
    if |tr.forOp| > 0 then
      var (operand, s1) := PopVal(tr.sem);
      tr.(sem := s1, arg1 := operand, res := operand,
          quads := tr.quads + [Quad(Text(tr.forOp[|tr.forOp| - 1]), operand, Slash, operand)],
          forOp := tr.forOp[..|tr.forOp| - 1])
    else tr
  }

  // ----- the dispatcher ----------------------------------------------------

  /** The pending-jump stack an action emits onto, if it is an emitter. */
  function EmitsOnto(a: Action): Option<Pending> {
    match a
    case IfFj => Some(IfF)
    case IfRj => Some(IfR)
    case WhileFj => Some(WhileF)
    case WhileRj => Some(WhileR)
    case ForFj => Some(ForF)
    case ForRj => Some(ForR)
    case _ => None
  }

  /** The pending-jump stack an action resolves, if it is a backpatch. */
  function Patches(a: Action): Option<Pending> {
    match a
    case IfBackpatchFj => Some(IfF)
    case IfBackpatchRj => Some(IfR)
    case WhileBackpatchFj => Some(WhileF)
    case ForBackpatchFj => Some(ForF)
    case _ => None
  }

  /** The target a backpatch writes: the current quadruple count for `if`,
      one more for `while` and `for`. */
  function PatchTarget(k: Pending, count: nat): nat {
    if k == IfF || k == IfR then count else count + 1
  }

  /** Runs one action marker; None when the JavaScript would throw (a
      backpatch with nothing to resolve). */
  function Translate(tr: Translator, a: Action, w: Word): (r: Option<Translator>)
  {
    match a
    case Printf => Some(tr.(op := Text("P")))
    case Scanf => Some(tr.(op := Text("S")))
    case AddSub => Some(Combine(tr, {"+", "-"}))
    case Add => Some(tr.(op := Text("+")))
    case Sub => Some(tr.(op := Text("-")))
    case DivMul => Some(Combine(tr, {"*", "/"}))
    case Div => Some(tr.(op := Text("/")))
    case Mul => Some(tr.(op := Text("*")))
    case TranLf => Some(tr)
    case AssF => Some(tr.(sem := tr.sem + [w.value]))
    case AssR => Some(tr.(sem := tr.sem + [w.value]))
    case AssQ => Some(tr.(sem := tr.sem + [w.value]))
    case AssU => Some(tr.(sem := tr.sem + [w.value]))
    case AssP => Some(PrintOperand(tr, w))
    case Single => Some(SelfStep(tr))
    case SingleOp => Some(tr.(forOp := tr.forOp + [w.value]))
    case Eq => Some(Assign(tr))
    case EqU1 => Some(Assign(tr))
    case Compare => Some(CompareOperands(tr))
    case CompareOp => Some(tr.(sem := tr.sem + [w.value]))
    case IfFj =>
      // the jump's result is the stale `res` register
      var (cond, s) := PopVal(tr.sem);
      Some(EmitJump(tr.(sem := s, arg1 := cond), IfF, Quad(Text("FJ"), cond, Slash, tr.res)))
    case IfBackpatchFj => Resolve(tr, IfF, PatchTarget(IfF, |tr.quads|))
    case IfRj => Some(EmitJump(tr, IfR, Quad(Text("RJ"), Slash, Slash, Slash)))
    case IfBackpatchRj => Resolve(tr, IfR, PatchTarget(IfR, |tr.quads|))
    case WhileFj =>
      var (cond, s) := PopVal(tr.sem);
      Some(EmitJump(tr.(sem := s, arg1 := cond), WhileF, Quad(Text("FJ"), cond, Slash, Slash)))
    case WhileRj =>
      // reads the while-RJ stack, not the while-FJ stack, as written
      var back := Text(IntToString(BackTarget(tr.whileRj)));
      Some(EmitJump(tr.(res := back), WhileR, Quad(Text("RJ"), Slash, Slash, back)))
    case WhileBackpatchFj => Resolve(tr, WhileF, PatchTarget(WhileF, |tr.quads|))
    case ForFj =>
      var cond := TopVal(tr.sem);
      Some(EmitJump(tr.(arg1 := cond), ForF, Quad(Text("FJ"), cond, Slash, Slash)))
    case ForRj =>
      var back := Text(IntToString(BackTarget(tr.forFj)));
      Some(EmitJump(tr.(res := back), ForR, Quad(Text("RJ"), Slash, Slash, back)))
    case ForBackpatchFj => Resolve(tr, ForF, PatchTarget(ForF, |tr.quads|))
  }

  // ----- properties of the dispatcher -------------------------------------

  /** A backpatch action is the resolution of its own stack at its own target. */
  lemma TranslateAsPatch(tr: Translator, a: Action, w: Word)
    requires Patches(a).Some?
    ensures Translate(tr, a, w) == Resolve(tr, Patches(a).value, PatchTarget(Patches(a).value, |tr.quads|))
  {
  }

  /** With every recorded position in range, an action fails exactly when
      it is a backpatch whose pending-jump stack is empty. */
  lemma TranslateFailsOnlyOnEmptyPatch(tr: Translator, a: Action, w: Word)
    requires JumpsInRange(tr)
    ensures Translate(tr, a, w).None? <==> Patches(a).Some? && |PendingOf(tr, Patches(a).value)| == 0
  {
  }

  /** Every action keeps the namer well named (appending at most one name),
      keeps every recorded position in range, and never shortens the
      quadruple list. */
  lemma TranslatePreserves(tr: Translator, a: Action, w: Word)
    requires Translate(tr, a, w).Some?
    ensures tr.temps <= Translate(tr, a, w).value.temps
    ensures |Translate(tr, a, w).value.temps| <= |tr.temps| + 1
    ensures TempsWellNamed(tr.temps) ==> TempsWellNamed(Translate(tr, a, w).value.temps)
    ensures JumpsInRange(tr) ==> JumpsInRange(Translate(tr, a, w).value)
    ensures |tr.quads| <= |Translate(tr, a, w).value.quads|
  {
    var r := Translate(tr, a, w).value;
    if Patches(a).Some? {
      PatchPreserves(tr, a, w);
    } else if EmitsOnto(a).Some? {
      EmitPreserves(tr, a, w);
    } else if Combines(a) {
      CombiningPreserves(tr, a, w);
    } else {
      PlainPreserves(tr, a, w);
    }
    assert Preserved(tr, r);
  }

  /** The facts every action keeps, as one predicate. */
  ghost predicate Preserved(tr: Translator, r: Translator) {
    && tr.temps <= r.temps
    && |r.temps| <= |tr.temps| + 1
    && (TempsWellNamed(tr.temps) ==> TempsWellNamed(r.temps))
    && (JumpsInRange(tr) ==> JumpsInRange(r))
    && |tr.quads| <= |r.quads|
  }

  lemma PatchPreserves(tr: Translator, a: Action, w: Word)
    requires Patches(a).Some? && Translate(tr, a, w).Some?
    ensures Preserved(tr, Translate(tr, a, w).value)
  {
    TranslateAsPatch(tr, a, w);
  }

  lemma EmitPreserves(tr: Translator, a: Action, w: Word)
    requires EmitsOnto(a).Some?
    ensures Translate(tr, a, w).Some?
    ensures Preserved(tr, Translate(tr, a, w).value)
  {
  }

  lemma CombiningPreserves(tr: Translator, a: Action, w: Word)
    requires Combines(a)
    ensures Translate(tr, a, w).Some?
    ensures Preserved(tr, Translate(tr, a, w).value)
  {
    var r := Translate(tr, a, w).value;
    assert SamePending(tr, r) && |tr.quads| <= |r.quads|;
    if JumpsInRange(tr) {
      RangeCarries(tr, r);
    }
  }

  lemma PlainPreserves(tr: Translator, a: Action, w: Word)
    requires EmitsOnto(a).None? && Patches(a).None? && !Combines(a)
    ensures Translate(tr, a, w).Some?
    ensures Preserved(tr, Translate(tr, a, w).value)
  {
    var r := Translate(tr, a, w).value;
    PlainTouchesRegisters(tr, a, w);
    assert SamePending(tr, r) && |tr.quads| <= |r.quads|;
    if JumpsInRange(tr) {
      RangeCarries(tr, r);
    }
  }

  /** The remaining actions change only the staged operator, the semantic
      stack or the pending self-operators. */
  lemma PlainTouchesRegisters(tr: Translator, a: Action, w: Word)
    requires EmitsOnto(a).None? && Patches(a).None? && !Combines(a)
    ensures Translate(tr, a, w).Some?
    ensures var r := Translate(tr, a, w).value;
      r == tr.(op := r.op, sem := r.sem, forOp := r.forOp)
  {
  }

  /** The six pending-jump stacks agree. */
  predicate SamePending(tr: Translator, r: Translator) {
    && r.ifFj == tr.ifFj && r.ifRj == tr.ifRj && r.whileFj == tr.whileFj
    && r.whileRj == tr.whileRj && r.forFj == tr.forFj && r.forRj == tr.forRj
  }

  lemma RangeCarries(tr: Translator, r: Translator)
    requires JumpsInRange(tr) && SamePending(tr, r) && |tr.quads| <= |r.quads|
    ensures JumpsInRange(r)
  {
  }

  /** Semantic-stack depth change of each action, given enough entries:
      combining a staged operator -1, comparing -2, assigning -2, pushing
      an operand or relation +1, a false jump that pops its condition -1,
      a pending self-operator -1, everything else 0. */
  function SemDelta(tr: Translator, a: Action): int {
    match a
    case AddSub => if tr.op == Text("+") || tr.op == Text("-") then -1 else 0
    case DivMul => if tr.op == Text("*") || tr.op == Text("/") then -1 else 0
    case Compare => -2
    case Eq => -2
    case EqU1 => -2
    case AssF => 1
    case AssR => 1
    case AssQ => 1
    case AssU => 1
    case CompareOp => 1
    case IfFj => -1
    case WhileFj => -1
    case Single => if |tr.forOp| > 0 then -1 else 0
    case _ => 0
  }

  lemma SemanticStackDiscipline(tr: Translator, a: Action, w: Word)
    requires |tr.sem| >= 3
    requires Translate(tr, a, w).Some?
    ensures |Translate(tr, a, w).value.sem| == |tr.sem| + SemDelta(tr, a)
  {
    if Patches(a).Some? {
      TranslateAsPatch(tr, a, w);
    } else if Combines(a) {
      CombiningDepth(tr, a, w);
    } else {
      SimpleDepth(tr, a, w);
    }
  }

  /** The actions that pop operands and record an operation. */
  predicate Combines(a: Action) {
    a in {AddSub, DivMul, AssP, Single, Eq, EqU1, Compare}
  }

  lemma CombiningDepth(tr: Translator, a: Action, w: Word)
    requires |tr.sem| >= 3 && Combines(a)
    ensures Translate(tr, a, w).Some?
    ensures |Translate(tr, a, w).value.sem| == |tr.sem| + SemDelta(tr, a)
  {
  }

  lemma SimpleDepth(tr: Translator, a: Action, w: Word)
    requires |tr.sem| >= 3 && !Combines(a) && Patches(a).None?
    ensures Translate(tr, a, w).Some?
    ensures |Translate(tr, a, w).value.sem| == |tr.sem| + SemDelta(tr, a)
  {
  }

  /** An emitter appends exactly one jump and records the list length after
      the append, i.e. the jump's own 1-based position. */
  lemma EmitterRecordsPosition(tr: Translator, a: Action, w: Word)
    requires EmitsOnto(a).Some?
    ensures Translate(tr, a, w).Some?
    ensures Translate(tr, a, w).value.quads[..|tr.quads|] == tr.quads
    ensures |Translate(tr, a, w).value.quads| == |tr.quads| + 1
    ensures PendingOf(Translate(tr, a, w).value, EmitsOnto(a).value)
         == PendingOf(tr, EmitsOnto(a).value) + [|tr.quads| + 1]
    ensures Translate(tr, a, w).value.quads[|tr.quads|].op
         == (if a in {IfFj, WhileFj, ForFj} then Text("FJ") else Text("RJ"))
  {
  }

  /** A backpatch rewrites only the result of the quadruple named by its
      stack's top, to the current count (if) or the count plus one
      (while, for); the list keeps its length. */
  lemma PatchRewritesOnlyResult(tr: Translator, a: Action, w: Word)
    requires Patches(a).Some? && Resolvable(tr, Patches(a).value)
    ensures Translate(tr, a, w).Some?
    ensures |Translate(tr, a, w).value.quads| == |tr.quads|
    ensures var k := Patches(a).value;
            var i := PendingOf(tr, k)[|PendingOf(tr, k)| - 1];
            var n := if a in {IfBackpatchFj, IfBackpatchRj} then |tr.quads| else |tr.quads| + 1;
            && Translate(tr, a, w).value.quads[i - 1] == tr.quads[i - 1].(result := Text(NatToString(n)))
            && forall j | 0 <= j < |tr.quads| && j != i - 1 :: Translate(tr, a, w).value.quads[j] == tr.quads[j]
  {
    TranslateAsPatch(tr, a, w);
  }

  /** The false jump of an `if` pops its condition but takes its result
      from the `res` register as the previous action left it. */
  lemma IfJumpKeepsStaleResult(tr: Translator, w: Word)
    requires |tr.sem| > 0
    ensures Translate(tr, IfFj, w).Some?
    ensures var r := Translate(tr, IfFj, w).value;
      && r.quads == tr.quads + [Quad(Text("FJ"), Text(tr.sem[|tr.sem| - 1]), Slash, tr.res)]
      && r.sem == tr.sem[..|tr.sem| - 1]
      && r.res == tr.res
      && r.ifFj == tr.ifFj + [|tr.quads| + 1]
  {
  }

  /** The first loop-closing jump of a `while` (nothing on the while-RJ
      stack yet) targets "-1". */
  lemma FirstWhileJumpTargetsMinusOne(tr: Translator, w: Word)
    requires tr.whileRj == []
    ensures Translate(tr, WhileRj, w).Some?
    ensures Translate(tr, WhileRj, w).value.quads[|tr.quads|] == Quad(Text("RJ"), Slash, Slash, Text("-1"))
  {
  }

  /** The backward jump of a `while` appends one `RJ` and keeps the rest. */
  lemma BackJumpAppends(tr: Translator, w: Word)
    ensures Translate(tr, WhileRj, w).Some?
    ensures var r := Translate(tr, WhileRj, w).value;
      && |r.quads| == |tr.quads| + 1
      && r.quads[..|tr.quads|] == tr.quads
      && r.quads[|tr.quads|].op == Text("RJ")
  {
  }

  /** The false jump of a `while` pops its condition: the condition
      becomes the jump's operand and `arg1`, and the semantic stack loses
      it (`undefined` when nothing is there). */
  lemma WhileFalseJumpPops(tr: Translator, w: Word)
    ensures Translate(tr, WhileFj, w).Some?
    ensures var r := Translate(tr, WhileFj, w).value;
      && r.quads == tr.quads + [Quad(Text("FJ"), r.arg1, Slash, Slash)]
      && (|tr.sem| > 0 ==> r.arg1 == Text(tr.sem[|tr.sem| - 1]) && r.sem == tr.sem[..|tr.sem| - 1])
      && (|tr.sem| == 0 ==> r.arg1 == Undef && r.sem == [])
      && r.whileFj == tr.whileFj + [|r.quads|]
  {
  }

  /** The false jump of a `for` only peeks at the semantic stack: the top
      (`null` when empty) becomes the operand and `arg1`, and the stack is
      left as it was.  It runs before the loop condition is parsed, so the
      operand is whatever the initialiser left on top. */
  lemma ForFalseJumpPeeks(tr: Translator, w: Word)
    ensures Translate(tr, ForFj, w).Some?
    ensures var r := Translate(tr, ForFj, w).value;
      && r.sem == tr.sem
      && r.quads == tr.quads + [Quad(Text("FJ"), r.arg1, Slash, Slash)]
      && (|tr.sem| > 0 ==> r.arg1 == Text(tr.sem[|tr.sem| - 1]))
      && (|tr.sem| == 0 ==> r.arg1 == Null)
      && r.forFj == tr.forFj + [|r.quads|]
  {
  }

  /** The backward jump of a `while` leaves its target, read off the
      while-RJ stack, in the `res` register, where a later `@IF_FJ` finds it. */
  lemma WhileJumpSetsResult(tr: Translator, w: Word)
    ensures Translate(tr, WhileRj, w).Some?
    ensures var r := Translate(tr, WhileRj, w).value;
      && r.res == Text(IntToString(BackTarget(tr.whileRj)))
      && r.quads[|tr.quads|].result == r.res
  {
  }

  /** The backward jump of a `for` leaves its target, read off the for-FJ
      stack, in the `res` register. */
  lemma ForJumpSetsResult(tr: Translator, w: Word)
    ensures Translate(tr, ForRj, w).Some?
    ensures var r := Translate(tr, ForRj, w).value;
      && r.res == Text(IntToString(BackTarget(tr.forFj)))
      && r.quads[|tr.quads|].result == r.res
  {
  }

  /** Closing a `while` (backpatch, then the backward jump): the pending
      false jump's result becomes the 0-based index just past the
      backward jump. */
  lemma WhileCloseTargets(tr: Translator, w: Word)
    requires JumpsInRange(tr) && |tr.whileFj| > 0
    ensures Translate(tr, WhileBackpatchFj, w).Some?
    ensures var t1 := Translate(tr, WhileBackpatchFj, w).value;
            var t2 := Translate(t1, WhileRj, w).value;
            var p := tr.whileFj[|tr.whileFj| - 1];
            && |t2.quads| == |tr.quads| + 1
            && t2.quads[|tr.quads|].op == Text("RJ")
            && t2.quads[p - 1].result == Text(NatToString(|t2.quads|))
  {
    PendingInRange(tr, WhileF);
    TranslateAsPatch(tr, WhileBackpatchFj, w);
    var t1 := Resolve(tr, WhileF, |tr.quads| + 1).value;
    BackJumpAppends(t1, w);
    var t2 := Translate(t1, WhileRj, w).value;
    var p := tr.whileFj[|tr.whileFj| - 1];
    assert 1 <= p <= |tr.quads|;
    assert t1.quads[p - 1].result == Text(NatToString(|tr.quads| + 1));
    assert t2.quads[p - 1] == t1.quads[p - 1];
  }

  /** Closing the then-branch of an `if` (backpatch, then the else jump):
      the pending false jump's result becomes the 0-based index of that
      else jump. */
  lemma IfElseTargets(tr: Translator, w: Word)
    requires JumpsInRange(tr) && |tr.ifFj| > 0
    ensures Translate(tr, IfBackpatchFj, w).Some?
    ensures var t1 := Translate(tr, IfBackpatchFj, w).value;
            var t2 := Translate(t1, IfRj, w).value;
            var p := tr.ifFj[|tr.ifFj| - 1];
            && |t2.quads| == |tr.quads| + 1
            && t2.quads[|tr.quads|].op == Text("RJ")
            && t2.quads[p - 1].result == Text(NatToString(|tr.quads|))
            && t2.ifRj == tr.ifRj + [|t2.quads|]
  {
    PendingInRange(tr, IfF);
    TranslateAsPatch(tr, IfBackpatchFj, w);
    var t1 := Resolve(tr, IfF, |tr.quads|).value;
    var t2 := EmitJump(t1, IfR, Quad(Text("RJ"), Slash, Slash, Slash));
    assert Translate(t1, IfRj, w) == Some(t2);
  }

  /** The backward jump of a `for` appends one `RJ`, keeps the rest and
      leaves the for-FJ stack alone. */
  lemma ForBackJumpAppends(tr: Translator, w: Word)
    ensures Translate(tr, ForRj, w).Some?
    ensures var r := Translate(tr, ForRj, w).value;
      && |r.quads| == |tr.quads| + 1
      && r.quads[..|tr.quads|] == tr.quads
      && r.quads[|tr.quads|].op == Text("RJ")
      && r.forFj == tr.forFj
  {
  }

  /** Closing a `for` runs the other way round from a `while`: the backward
      jump comes first, and the backpatch then counts it, so the pending
      false jump's result becomes the 0-based index one past the position
      just after the backward jump. */
  lemma ForCloseTargets(tr: Translator, w: Word)
    requires JumpsInRange(tr) && |tr.forFj| > 0
    ensures var t1 := Translate(tr, ForRj, w).value;
            var p := tr.forFj[|tr.forFj| - 1];
            && Translate(t1, ForBackpatchFj, w).Some?
            && |Translate(t1, ForBackpatchFj, w).value.quads| == |tr.quads| + 1
            && Translate(t1, ForBackpatchFj, w).value.quads[|tr.quads|].op == Text("RJ")
            && Translate(t1, ForBackpatchFj, w).value.quads[p - 1].result == Text(NatToString(|tr.quads| + 2))
  {
    PendingInRange(tr, ForF);
    ForBackJumpAppends(tr, w);
    var t1 := Translate(tr, ForRj, w).value;
    TranslateAsPatch(t1, ForBackpatchFj, w);
    ResolveBelowLast(t1, ForF, |t1.quads| + 1);
  }

  /** Resolving a stack whose top names a quadruple before the last one
      patches that quadruple and leaves the last one and the length alone. */
  lemma ResolveBelowLast(tr: Translator, k: Pending, target: nat)
    requires |PendingOf(tr, k)| > 0
    requires 1 <= PendingOf(tr, k)[|PendingOf(tr, k)| - 1] < |tr.quads|
    ensures Resolve(tr, k, target).Some?
    ensures var q := Resolve(tr, k, target).value.quads;
            var p := PendingOf(tr, k)[|PendingOf(tr, k)| - 1];
            && |q| == |tr.quads|
            && q[|tr.quads| - 1] == tr.quads[|tr.quads| - 1]
            && q[p - 1].result == Text(NatToString(target))
  {
  }
}
