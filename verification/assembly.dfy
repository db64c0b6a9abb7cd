/** Lowering of the finished quadruple list to an assembly-style listing:
    a data section with one entry per declaration quadruple, a fixed text
    header, then the instructions selected by each quadruple's first
    operator character. */
module Assembly {
  import opened Stacks
  import opened Quadruples

  const DataHeader: string := ".section .data"
  const TextHeader: seq<string> := [".section .text", ".globl _start", "_start:"]

  /** Every operator is a string, so `op.charAt(0)` cannot throw. */
  ghost predicate AllText(qs: seq<Quad>) {
    forall i | 0 <= i < |qs| :: qs[i].op.Text?
  }

  // ----- data section ------------------------------------------------------

  /** A declaration quadruple: operator exactly `D`. */
  predicate IsDecl(q: Quad) {
    q.op == Text("D")
  }

  /** The data entry of a declaration: its label, then the string literal. */
  function DataEntry(q: Quad): string {
    Render(q.result) + ":\n    .string:" + Render(q.arg1) + "\n"
  }

  /** The data pass: one entry per declaration, in list order. */
  function DataSection(qs: seq<Quad>): seq<string> {
    if |qs| == 0 then []
    else DataSection(qs[..|qs| - 1]) + (if IsDecl(qs[|qs| - 1]) then [DataEntry(qs[|qs| - 1])] else [])
  }

  /** The positions of the declarations, increasing. */
  function DeclIndices(qs: seq<Quad>): (idx: seq<nat>)
    ensures forall k | 0 <= k < |idx| :: idx[k] < |qs| && IsDecl(qs[idx[k]])
    ensures forall k, l | 0 <= k < l < |idx| :: idx[k] < idx[l]
    ensures forall i | 0 <= i < |qs| && IsDecl(qs[i]) :: i in idx
  {
    if |qs| == 0 then []
    else
      var front := DeclIndices(qs[..|qs| - 1]);
      assert forall i | 0 <= i < |qs| - 1 :: qs[..|qs| - 1][i] == qs[i];
      front + (if IsDecl(qs[|qs| - 1]) then [|qs| - 1] else [])
  }

  /** The data section holds exactly the entries of the declarations, in order. */
  lemma {:induction false} DataSectionFollowsDecls(qs: seq<Quad>)
    ensures |DataSection(qs)| == |DeclIndices(qs)|
    ensures forall k | 0 <= k < |DeclIndices(qs)| :: DataSection(qs)[k] == DataEntry(qs[DeclIndices(qs)[k]])
  {
    if |qs| > 0 {
      var front := qs[..|qs| - 1];
      DataSectionFollowsDecls(front);
      assert forall i | 0 <= i < |front| :: front[i] == qs[i];
    }
  }

  // ----- text section ------------------------------------------------------

  predicate FirstIs(s: string, c: char) {
    |s| > 0 && s[0] == c
  }

  predicate SecondIs(s: string, c: char) {
    |s| > 1 && s[1] == c
  }

  /** `nowSpace`: `new Array(now).join(" ")`, that is now - 1 spaces. */
  function Indent(now: nat): (sp: string)
    ensures now > 0 ==> |sp| == now - 1
    ensures forall i | 0 <= i < |sp| :: sp[i] == ' '
  {
    if now <= 1 then "" else Indent(now - 1) + " "
  }

  /** A conditional jump: to the loop end inside a loop, else to the result. */
  function JumpLine(sp: string, mnemonic: string, loop: bool, q: Quad): string {
    if loop then sp + mnemonic + " end_loop" else sp + mnemonic + " $" + Render(q.result)
  }

  /** The lines one quadruple lowers to, at indentation counter `now` with
      the loop flag `loop`. */
  function Emit(q: Quad, now: nat, loop: bool): seq<string>
    requires q.op.Text? && now >= 4
  {
    var op := q.op.s;
    var sp := Indent(now);
    var res := Render(q.result);
    var a1 := Render(q.arg1);
    var a2 := Render(q.arg2);
    if FirstIs(op, '=') then [sp + "mov $" + res + "," + a1]
    else if FirstIs(op, '+') then
      if SecondIs(op, '+') then [sp + "inc $" + a1]
      else [sp + "mov $" + res + "," + a2, sp + "add $" + res + "," + a1]
    else if FirstIs(op, '-') then
      if SecondIs(op, '-') then [sp + "dec $" + a1] else [sp + "sub $" + res + "," + a1]
    else if FirstIs(op, '*') then [sp + "mul $" + res + "," + a1]
    else if FirstIs(op, '/') then [sp + "div $" + res + "," + a1]
    else if FirstIs(op, 'J') then
      if SecondIs(op, 'R') then [sp + "jmp $" + res]
      else if SecondIs(op, 'F') then [sp + "jz $" + res]
      else []
    else if FirstIs(op, '>') then
      [sp + "cmp $" + a1 + ",$" + res,
       JumpLine(sp, if SecondIs(op, '=') then "jge" else "jg", loop, q)]
    else if FirstIs(op, '<') then
      [sp + "mov $" + res + "," + a2, sp + "cmp $" + a1 + ",$" + res,
       JumpLine(sp, if SecondIs(op, '=') then "jle" else "jl", loop, q)]
    else if FirstIs(op, 'P') then
      [sp + "mov $4, %eax", sp + "mov $1, %ebx", sp + "mov $" + a1 + ", %ecx",
       sp + "mov $13, %edx", sp + "int $0x80"]
    else if FirstIs(op, 'F') then [sp + "start_loop:"]
    else if FirstIs(op, 'R') then [sp + "jmp start_loop", Indent(now - 4) + "end_loop:"]
    else []
  }

  /** An `F` quadruple opens a loop body. */
  predicate OpensLoop(q: Quad) {
    q.op.Text? && FirstIs(q.op.s, 'F')
  }

  /** The counter and flag after one quadruple: `F` adds 4 and sets the
      flag; `R` subtracts and re-adds 4; nothing else touches them. */
  function Advance(q: Quad, now: nat, loop: bool): (nat, bool) {
    if OpensLoop(q) then (now + 4, true) else (now, loop)
  }

  /** The text pass from a given counter and flag. */
  function Body(qs: seq<Quad>, now: nat, loop: bool): seq<string>
    requires AllText(qs) && now >= 4
    decreases |qs|
  {
    if |qs| == 0 then []
    else
      var (now', loop') := Advance(qs[0], now, loop);
      Emit(qs[0], now, loop) + Body(qs[1..], now', loop')
  }

  // ----- the text pass, quadruple by quadruple -------------------------------

  function CountLoops(qs: seq<Quad>): nat {
    if |qs| == 0 then 0
    else CountLoops(qs[..|qs| - 1]) + (if OpensLoop(qs[|qs| - 1]) then 1 else 0)
  }

  /** The counter in force at quadruple i: 4 plus 4 per earlier `F`. */
  function NowAt(qs: seq<Quad>, i: nat): nat
    requires i <= |qs|
  {
    4 + 4 * CountLoops(qs[..i])
  }

  /** The flag in force at quadruple i: whether an earlier `F` occurred. */
  predicate LoopAt(qs: seq<Quad>, i: nat)
    requires i <= |qs|
  {
    exists j | 0 <= j < i :: OpensLoop(qs[j])
  }

  /** The lines of quadruple i, with the counter and flag in force there. */
  function EmitAt(qs: seq<Quad>, i: nat): seq<string>
    requires AllText(qs) && i < |qs|
  {
    Emit(qs[i], NowAt(qs, i), LoopAt(qs, i))
  }

  /** The lines of quadruples k, k+1, … each lowered independently. */
  function PerQuad(qs: seq<Quad>, k: nat): seq<string>
    requires AllText(qs) && k <= |qs|
    decreases |qs| - k
  {
    if k == |qs| then [] else EmitAt(qs, k) + PerQuad(qs, k + 1)
  }

  lemma AdvanceAt(qs: seq<Quad>, k: nat)
    requires k < |qs|
    ensures Advance(qs[k], NowAt(qs, k), LoopAt(qs, k)) == (NowAt(qs, k + 1), LoopAt(qs, k + 1))
  {
    assert qs[..k + 1][..k] == qs[..k];
  }

  /** The fold agrees with lowering each quadruple at its own counter and flag. */
  lemma {:induction false} BodyMatchesPerQuad(qs: seq<Quad>, k: nat)
    requires AllText(qs) && k <= |qs|
    ensures Body(qs[k..], NowAt(qs, k), LoopAt(qs, k)) == PerQuad(qs, k)
    decreases |qs| - k
  {
    if k < |qs| {
      assert qs[k..][0] == qs[k];
      assert qs[k..][1..] == qs[k + 1..];
      AdvanceAt(qs, k);
      BodyMatchesPerQuad(qs, k + 1);
    }
  }

  /** Where the parts of a listing `[header] + data + text + body` sit. */
  lemma ListingParts(header: string, data: seq<string>, text: seq<string>, body: seq<string>)
    ensures var x := [header] + data + text + body;
      && |x| == 1 + |data| + |text| + |body|
      && x[0] == header
      && (forall k | 0 <= k < |data| :: x[1 + k] == data[k])
      && x[1 + |data|..1 + |data| + |text|] == text
      && x[1 + |data| + |text|..] == body
  {
    var x := [header] + data + text + body;
    assert x == [header] + (data + (text + body));
    assert x[1..] == data + (text + body);
    assert x[1 + |data|..] == text + body;
  }

  /** The listing of a list whose operators are all strings. */
  function Listing(qs: seq<Quad>): seq<string>
    requires AllText(qs)
  {
    [DataHeader] + DataSection(qs) + TextHeader + Body(qs, 4, false)
  }

  lemma ListingLayout(qs: seq<Quad>)
    requires AllText(qs)
    ensures var d := |DeclIndices(qs)|;
      var x := Listing(qs);
      && |x| == 4 + d + |PerQuad(qs, 0)|
      && x[0] == DataHeader
      && (forall k | 0 <= k < d :: x[1 + k] == DataEntry(qs[DeclIndices(qs)[k]]))
      && x[1 + d..4 + d] == TextHeader
      && x[4 + d..] == PerQuad(qs, 0)
  {
    var data := DataSection(qs);
    var body := Body(qs, 4, false);
    DataSectionFollowsDecls(qs);
    assert |data| == |DeclIndices(qs)|;
    BodyMatchesPerQuad(qs, 0);
    assert qs[0..] == qs;
    assert NowAt(qs, 0) == 4 by {
      assert qs[..0] == [];
    }
    assert !LoopAt(qs, 0);
    assert body == PerQuad(qs, 0);
    ListingParts(DataHeader, data, TextHeader, body);
    assert Listing(qs) == [DataHeader] + data + TextHeader + body;
  }

  /** The whole lowering. None where the JavaScript throws: an operator that
      is not a string. */
  function Lower(qs: seq<Quad>): (r: Option<seq<string>>)
    ensures r.Some? <==> AllText(qs)
    ensures r.Some? ==>
      var d := |DeclIndices(qs)|;
      && |r.value| == 4 + d + |PerQuad(qs, 0)|
      && r.value[0] == DataHeader
      && (forall k | 0 <= k < d :: r.value[1 + k] == DataEntry(qs[DeclIndices(qs)[k]]))
      && r.value[1 + d..4 + d] == TextHeader
      && r.value[4 + d..] == PerQuad(qs, 0)
  {
    if forall i | 0 <= i < |qs| :: qs[i].op.Text? then
      ListingLayout(qs);
      Some(Listing(qs))
    else None
  }

  // ----- properties of the per-quadruple lowering ----------------------------

  /** Every line sits at the current indentation, except the `end_loop:`
      label of an `R` quadruple, which sits one level (4) further out. */
  lemma LinesIndented(q: Quad, now: nat, loop: bool)
    requires q.op.Text? && now >= 4
    ensures forall k | 0 <= k < |Emit(q, now, loop)| && !(FirstIs(q.op.s, 'R') && k == 1) ::
      Indent(now) <= Emit(q, now, loop)[k]
    ensures FirstIs(q.op.s, 'R') ==> Emit(q, now, loop)[1] == Indent(now - 4) + "end_loop:"
  {
  }

  /** A print quadruple lowers to the five-line write system call: the
      third line moves `arg1` into the buffer register, the other four are
      the same for every print quadruple, and nothing depends on the loop
      flag, `arg2` or `result`. */
  lemma PrintLowering(q: Quad, now: nat, loop: bool, other: Quad, loop': bool)
    requires q.op.Text? && FirstIs(q.op.s, 'P') && now >= 4
    requires other.op == q.op
    ensures |Emit(q, now, loop)| == 5 && |Emit(other, now, loop')| == 5
    ensures Emit(q, now, loop)[2] == Indent(now) + "mov $" + Render(q.arg1) + ", %ecx"
    ensures forall k | 0 <= k < 5 && k != 2 :: Emit(q, now, loop)[k] == Emit(other, now, loop')[k]
    ensures other.arg1 == q.arg1 ==> Emit(q, now, loop) == Emit(other, now, loop')
    ensures Advance(q, now, loop) == (now, loop)
  {
  }

  /** `+` becomes a move of arg2 into the result followed by an add of arg1;
      `++` is a single increment; `--` a single decrement. */
  lemma ArithmeticLowering(q: Quad, now: nat, loop: bool)
    requires q.op.Text? && now >= 4
    ensures q.op.s == "+" ==>
      Emit(q, now, loop) ==
        [Indent(now) + "mov $" + Render(q.result) + "," + Render(q.arg2),
         Indent(now) + "add $" + Render(q.result) + "," + Render(q.arg1)]
    ensures q.op.s == "++" ==> Emit(q, now, loop) == [Indent(now) + "inc $" + Render(q.arg1)]
    ensures q.op.s == "--" ==> Emit(q, now, loop) == [Indent(now) + "dec $" + Render(q.arg1)]
  {
  }

  /** The jump quadruples of the grammar (`FJ`, `RJ`) start with `F` and `R`,
      so they become loop labels and never the `jz`/`jmp` of the `J` case. */
  lemma GrammarJumpsAreLoopMarkers(q: Quad, now: nat, loop: bool)
    requires now >= 4
    ensures q.op == Text("FJ") ==>
      Emit(q, now, loop) == [Indent(now) + "start_loop:"] && Advance(q, now, loop) == (now + 4, true)
    ensures q.op == Text("RJ") ==>
      Emit(q, now, loop) == [Indent(now) + "jmp start_loop", Indent(now - 4) + "end_loop:"]
      && Advance(q, now, loop) == (now, loop)
  {
  }

  /** A comparison quadruple `==` starts with `=` and is lowered exactly like
      an assignment. */
  lemma EqualityLowersAsAssignment(q: Quad, now: nat, loop: bool)
    requires q.op == Text("==") && now >= 4
    ensures Emit(q, now, loop) == Emit(q.(op := Text("=")), now, loop)
    ensures Emit(q, now, loop) == [Indent(now) + "mov $" + Render(q.result) + "," + Render(q.arg1)]
  {
  }

  /** An operator whose first character no case names (the declaration `D`,
      the empty string, …) emits nothing and leaves counter and flag alone. */
  lemma UnmatchedEmitsNothing(q: Quad, now: nat, loop: bool)
    requires q.op.Text? && now >= 4
    requires |q.op.s| == 0 || q.op.s[0] !in "=+-*/J><PFR"
    ensures Emit(q, now, loop) == []
    ensures Advance(q, now, loop) == (now, loop)
  {
  }

  /** The counter only grows along the list, by 4 at each `F`. */
  lemma {:induction false} IndentNeverShrinks(qs: seq<Quad>, i: nat, j: nat)
    requires i <= j <= |qs|
    ensures NowAt(qs, i) <= NowAt(qs, j)
    decreases j - i
  {
    if i < j {
      IndentNeverShrinks(qs, i, j - 1);
      assert qs[..j][..j - 1] == qs[..j - 1];
    }
  }

  /** The conditional jump of a comparison goes to `end_loop` exactly when an
      `F` quadruple came earlier in the list, and to the result otherwise. */
  lemma ComparisonJumpTarget(qs: seq<Quad>, i: nat)
    requires AllText(qs) && i < |qs|
    requires FirstIs(qs[i].op.s, '>') || FirstIs(qs[i].op.s, '<')
    ensures var lines := EmitAt(qs, i);
      var m := if FirstIs(qs[i].op.s, '>') then (if SecondIs(qs[i].op.s, '=') then "jge" else "jg")
               else (if SecondIs(qs[i].op.s, '=') then "jle" else "jl");
      && |lines| > 0
      && lines[|lines| - 1] == Indent(NowAt(qs, i)) + m +
           (if exists j | 0 <= j < i :: OpensLoop(qs[j]) then " end_loop" else " $" + Render(qs[i].result))
  {
  }
}
