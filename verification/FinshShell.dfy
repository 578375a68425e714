/**
 The shell's compiler and virtual machine as they run: one text segment and one stack, written in
 place, and the end-to-end statement about a list of statements.
 */
module FinshShell {
  import opened FinshMachine
  import opened FinshCompiler
  import opened FinshProof
  import opened FinshStale
  import opened Words

  const TEXT_MAX := 128
  const STACK_MAX := 64

  // -------------------------------------------------------------- statements

  /** The code of a statement list: a pop after every statement but the last. */
  function CodeAll(es: seq<Expr>): (s: seq<byte>)
    requires forall e :: e in es ==> Supported(e)
  {
    if es == [] then []
    else if |es| == 1 then Code(es[0])
    else Code(es[0]) + ([OP_POP] + CodeAll(es[1..]))
  }

  /** Everything the run of a statement list needs. */
  predicate Runnable(es: seq<Expr>, m: Memory, room: int) {
    forall e :: e in es ==> Supported(e) && WidthSafe(e) && VarsMapped(e, m) && Need(e) <= room
  }

  lemma StatementCode(e: Expr, sibling: Node)
    requires Supported(e)
    ensures var n := TypeCheck(Tree(e, sibling), false);
      n.Node? && n.sibling == TypeCheck(sibling, false) && Emit(n.(sibling := Nil)) == Code(e)
  {
    hide TypeCheck, Tree, Emit, EmitOwn, Code;
    TreeCode(e, sibling);
    var n := TypeCheck(Tree(e, sibling), false);
    var own := Emit(n.child) + EmitOwn(n);
    EmitOfNode(n);
    EmitOfNode(n.(sibling := Nil));
    EmitOwnAlone(n);
    assert own == (own + Emit(n.sibling))[..|own|];
    assert Code(e) == (Code(e) + Emit(n.sibling))[..|Code(e)|];
  }

  lemma EmitOfNode(n: Node)
    requires n.Node?
    ensures Emit(n) == Emit(n.child) + EmitOwn(n) + Emit(n.sibling)
    ensures n.sibling.Nil? ==> Emit(n) == Emit(n.child) + EmitOwn(n)
  {
    hide EmitOwn;
    EmitNil();
  }

  /** The code of a node itself does not depend on its siblings. */
  lemma EmitOwnAlone(n: Node)
    requires n.Node?
    ensures EmitOwn(n.(sibling := Nil)) == EmitOwn(n)
  {
  }

  lemma EmitAllOf(n: Node)
    requires n.Node?
    ensures EmitAll(n) == Emit(n.(sibling := Nil)) + (if n.sibling.Nil? then [] else [OP_POP] + EmitAll(n.sibling))
  {
    hide Emit;
  }

  lemma EmitAllOfNil()
    ensures EmitAll(Nil) == []
  {
  }

  /** The compiler's output on the parser's list of statement trees. */
  lemma {:induction false} StatementsCode(es: seq<Expr>)
    requires forall e :: e in es ==> Supported(e)
    ensures EmitAll(TypeCheck(StatementTree(es), false)) == CodeAll(es)
    ensures es != [] ==> TypeCheck(StatementTree(es), false).Node?
  {
    hide Emit, Tree, Code, Supported;
    if es != [] {
      StatementsCode(es[1..]);
      StatementCode(es[0], StatementTree(es[1..]));
    }
  }

  /** Running a statement list: the last value on top of the stack as it was, nothing else. */
  lemma {:induction false} RunStatements(es: seq<Expr>, text: seq<byte>, pc: int, st: State, cs: bool)
    returns (s: State)
    requires es != [] && 0 <= st.sp <= |st.stack| && Runnable(es, st.mem, |st.stack| - st.sp)
    requires At(text, pc, CodeAll(es))
    ensures match EvalAll(es, st.mem, cs)
      case Undefined => Exec(text, pc, st, cs) == Crash
      case Defined(c, m) =>
        && Exec(text, pc, st, cs) == Exec(text, pc + |CodeAll(es)|, s, cs)
        && Pushed(st, s, Valid(es[|es| - 1]), c) && s.mem == m
  {
    hide Exec, Eval, Code, Supported, WidthSafe, VarsMapped, Need, Valid;
    var e := es[0];
    if |es| == 1 {
      s := RunExpr(e, text, pc, st, cs);
    } else {
      AtSplit(text, pc, Code(e), [OP_POP] + CodeAll(es[1..]));
      s := RunExpr(e, text, pc, st, cs);
      if Eval(e, st.mem, cs).Defined? {
        var p := pc + |Code(e)|;
        AtSplit(text, p, [OP_POP], CodeAll(es[1..]));
        RunPop(text, p, s, cs);
        EvalKeepsKeys(e, st.mem, cs);
        var s1 := s.(sp := s.sp - 1);
        forall d | d in es[1..]
          ensures VarsMapped(d, s1.mem)
        {
          assert d in es;
          MappedOfKeys(d, st.mem, s1.mem);
        }
        s := RunStatements(es[1..], text, p + 1, s1, cs);
        assert es[1..][|es| - 2] == es[|es| - 1];
      }
    }
  }

  // --------------------------------------------------- any mix of widths

  /** Statements evaluated one after the other in the cells of the stack, whatever those held before. */
  function EvalAllOn(es: seq<Expr>, m: Memory, g: seq<Cell>, cs: bool): (r: Ran)
    requires es != [] && forall e :: e in es ==> Supported(e) && Need(e) <= |g|
    ensures r.Ran? ==> |r.g| == |g|
  {
    match EvalOn(es[0], m, g, cs)
    case Broken => Broken
    case Ran(m1, g1) => if |es| == 1 then Ran(m1, g1) else EvalAllOn(es[1..], m1, g1, cs)
  }

  /** Every statement list, at any mix of widths: the machine does what evaluation over the old cells does. */
  lemma {:induction false} RunStatementsOn(es: seq<Expr>, text: seq<byte>, pc: int, g: seq<Cell>, m: Memory, cs: bool)
    requires es != [] && (forall e :: e in es ==> Supported(e) && Need(e) <= |g|) && At(text, pc, CodeAll(es))
    ensures match EvalAllOn(es, m, g, cs)
      case Broken => Exec(text, pc, State(g, 0, m), cs) == Crash
      case Ran(m1, g1) => Exec(text, pc, State(g, 0, m), cs) == Exec(text, pc + |CodeAll(es)|, State(g1, 1, m1), cs)
  {
    hide Exec, EvalOn, Code, Supported, Need;
    var e := es[0];
    if |es| > 1 { AtSplit(text, pc, Code(e), [OP_POP] + CodeAll(es[1..])); }
    RunOn(e, text, pc, [], g, m, cs);
    assert [] + g == g;
    match EvalOn(e, m, g, cs)
    case Broken =>
    case Ran(m1, g1) =>
      assert [] + g1 == g1;
      if |es| > 1 {
        var p := pc + |Code(e)|;
        AtSplit(text, p, [OP_POP], CodeAll(es[1..]));
        RunPop(text, p, State(g1, 1, m1), cs);
        RunStatementsOn(es[1..], text, p + 1, g1, m1, cs);
      }
  }

  /** The zero bytes behind the code are no-operations up to the end of the text segment. */
  lemma {:induction false} RunPadding(text: seq<byte>, pc: int, st: State, cs: bool)
    requires 0 <= pc <= |text| && forall i :: pc <= i < |text| ==> text[i] == 0
    ensures Exec(text, pc, st, cs) == Halt(st)
    decreases |text| - pc
  {
    if pc < |text| {
      assert Step(text, pc, st, cs) == Next(pc + 1, st);
      RunPadding(text, pc + 1, st, cs);
    }
  }

  // ------------------------------------------------------------ stale bytes

  /**
   An operator of width `w` ignores the bytes beyond the first `v` of its right operand, whatever
   the operator and the left operand, exactly when `w` is at most `v`: the width condition on
   binary operators cannot be dropped.
   */
  lemma OperandWidthExact(w: Width, v: Width, cs: bool)
    ensures OperandDetermined(w, v, cs) <==> w.Bytes() <= v.Bytes()
  {
    hide Arith, FromInt, Value;
    if w.Bytes() <= v.Bytes() {
      forall op, x, y, z | Low(v, y) == Low(v, z)
        ensures SameResult(op, w, x, y, z, cs)
      {
        NarrowLow(w, v, y, z);
        ArithOfLow(op, w, x, y, cs);
        ArithOfLow(op, w, x, z, cs);
      }
    } else {
      var z := if v == W1 then Cell(0, 1, 0, 0) else Cell(0, 0, 1, 0);
      AddToZero(w, v, z, cs);
      assert Low(v, ZERO_CELL) == Low(v, z);
      assert !SameResult(Add, w, ZERO_CELL, ZERO_CELL, z, cs);
    }
  }

  lemma AddToZero(w: Width, v: Width, z: Cell, cs: bool)
    requires v.Bytes() < w.Bytes() && z == if v == W1 then Cell(0, 1, 0, 0) else Cell(0, 0, 1, 0)
    ensures Arith(Add, w, ZERO_CELL, ZERO_CELL, cs) == Some(ZERO_CELL)
    ensures Arith(Add, w, ZERO_CELL, z, cs) == Some(z)
  {
    hide FromInt, BitOp, TruncDiv, Pow2, Value;
    SmallCells();
    ValueOfZero(w, cs);
    if v == W1 { ValueOfSecondByte(w, cs); } else { ValueOfThirdByte(cs); }
  }

  lemma ValueOfZero(w: Width, cs: bool)
    ensures Value(w, ZERO_CELL, cs) == 0
  {
  }

  lemma ValueOfSecondByte(w: Width, cs: bool)
    requires w != W1
    ensures Value(w, Cell(0, 1, 0, 0), cs) == 0x100
  {
  }

  lemma ValueOfThirdByte(cs: bool)
    ensures Value(W4, Cell(0, 0, 1, 0), cs) == 0x1_0000
  {
  }

  lemma SmallCells()
    ensures FromInt(0) == ZERO_CELL && FromInt(0x100) == Cell(0, 1, 0, 0) && FromInt(0x1_0000) == Cell(0, 0, 1, 0)
  {
  }

  // ---- where the conditions on the other constructs come from

  /** Assigning a character to a variable stores the old bytes above it: right exactly if those are zero. */
  lemma AssignCharExact(v: Var, c: byte, m: Memory, g: seq<Cell>, cs: bool)
    requires LoadWidth(v.ty).Some? && Mapped(m, v.addr, W4) && |g| >= 2
    ensures var e := Assign(v, CharLit(c)); var stale := Low(VarWidth(v), g[1].(b0 := 0));
      EvalOn(e, m, g, cs).Ran? && Eval(e, m, cs).Defined?
        && (EvalOn(e, m, g, cs).m == Eval(e, m, cs).m <==> stale == ZERO_CELL)
  {
    var w, x, y := VarWidth(v), SetLow(W1, g[1], Cell(c, 0, 0, 0)), Cell(c, 0, 0, 0);
    LoadsOfMapped(m, v.addr, w);
    ToWordOfFromInt(v.addr);
    LoadOfStore(m, v.addr, w, x);
    LoadOfStore(m, v.addr, w, y);
    hide FromInt, ToWord, Load;
    var h := EvalOn(CharLit(c), m, g[1..], cs).g;
    assert h[0] == x;
    StoreExact(m, v.addr, w, x, y);
  }

  lemma StoreExact(m: Memory, a: int, w: Width, x: Cell, y: Cell)
    requires Mapped(m, a, w)
    ensures Store(m, a, w, x).value == Store(m, a, w, y).value <==> Low(w, x) == Low(w, y)
  {
    LoadOfStore(m, a, w, x);
    LoadOfStore(m, a, w, y);
    if Low(w, x) == Low(w, y) { StoreOfLow(m, a, w, x, y); }
  }

  /**
   Going through a character as an address goes through the old bytes above it: to the right place exactly if those
   are zero.
   */
  lemma DerefCharExact(c: byte, m: Memory, g: seq<Cell>, cs: bool)
    requires |g| >= 1
    ensures var e, a := Deref(CharLit(c)), ToWord(SetLow(W1, g[0], Cell(c, 0, 0, 0)));
      && (a == c <==> g[0].(b0 := 0) == ZERO_CELL)
      && (EvalOn(e, m, g, cs).Ran? <==> a in m) && (a in m ==> EvalOn(e, m, g, cs).g[0].b0 == m[a])
      && (Eval(e, m, cs).Defined? <==> c in m) && (c in m ==> Eval(e, m, cs).c.b0 == m[c])
  {
    hide EvalOn, Eval, ToWord;
    StaleAddress(c, g[0]);
    DerefUnfold(Deref(CharLit(c)), m, g, cs);
    CharOn(c, m, g, cs);
    DerefCharMeaning(c, m, cs);
  }

  lemma DerefCharMeaning(c: byte, m: Memory, cs: bool)
    ensures Eval(Deref(CharLit(c)), m, cs) == EvalLoad(m, c, W1)
  {
    CharAddress(c);
    hide ToWord, EvalLoad;
  }

  /** So does storing through it. */
  lemma AssignAtCharExact(c: byte, d: byte, m: Memory, g: seq<Cell>, cs: bool)
    requires |g| >= 2
    ensures var e, a := AssignAt(CharLit(c), CharLit(d)), ToWord(SetLow(W1, g[0], Cell(c, 0, 0, 0)));
      && (a == c <==> g[0].(b0 := 0) == ZERO_CELL)
      && (EvalOn(e, m, g, cs).Ran? <==> a in m) && (a in m ==> EvalOn(e, m, g, cs).m == m[a := d])
      && (Eval(e, m, cs).Defined? <==> c in m) && (c in m ==> Eval(e, m, cs).m == m[c := d])
  {
    hide EvalOn, Eval, ToWord;
    StaleAddress(c, g[0]);
    AssignAtUnfold(AssignAt(CharLit(c), CharLit(d)), m, g, cs);
    CharOn(c, m, g, cs);
    CharOn(d, m, g[0 := SetLow(W1, g[0], Cell(c, 0, 0, 0))][1..], cs);
    AssignAtCharMeaning(c, d, m, cs);
  }

  lemma CharOn(c: byte, m: Memory, g: seq<Cell>, cs: bool)
    requires |g| >= 1
    ensures EvalOn(CharLit(c), m, g, cs) == Ran(m, g[0 := SetLow(W1, g[0], Cell(c, 0, 0, 0))])
  {
  }

  lemma AssignAtCharMeaning(c: byte, d: byte, m: Memory, cs: bool)
    ensures Eval(AssignAt(CharLit(c), CharLit(d)), m, cs) == EvalStore(m, c, W1, Cell(d, 0, 0, 0))
  {
    CharAddress(c);
    hide ToWord, EvalStore;
  }

  lemma StaleAddress(c: byte, x: Cell)
    ensures ToWord(SetLow(W1, x, Cell(c, 0, 0, 0))) == c <==> x.(b0 := 0) == ZERO_CELL
  {
  }

  lemma CharAddress(c: byte)
    ensures ToWord(Cell(c, 0, 0, 0)) == c
  {
  }

  /**
   A line that goes wrong: `v = x; v = 'c'` for a 32-bit variable leaves `x` with its low byte replaced, from every
   memory and every stack; that is the evaluated memory exactly if `x` has no other byte set.
   */
  lemma LineGoesWrong(v: Var, x: Cell, c: byte, m: Memory, g: seq<Cell>, cs: bool)
    requires LoadWidth(v.ty) == Some(W4) && Mapped(m, v.addr, W4) && |g| >= 2
    ensures var es := [Assign(v, IntLit(x)), Assign(v, CharLit(c))]; var r := EvalAllOn(es, m, g, cs);
      var s := EvalAll(es, m, cs);
      && r.Ran? && s.Defined? && Load(r.m, v.addr, W4) == Some(x.(b0 := c))
      && Load(s.m, v.addr, W4) == Some(Cell(c, 0, 0, 0))
      && (r.m == s.m <==> x.(b0 := 0) == ZERO_CELL)
  {
    hide FromInt, ToWord;
    var es := [Assign(v, IntLit(x)), Assign(v, CharLit(c))];
    assert es[1..] == [es[1]];
    FirstAssign(v, x, m, g, cs);
    var m1, g1 := EvalOn(es[0], m, g, cs).m, EvalOn(es[0], m, g, cs).g;
    SecondAssign(v, x, c, m1, g1, cs);
  }

  lemma FirstAssign(v: Var, x: Cell, m: Memory, g: seq<Cell>, cs: bool)
    requires LoadWidth(v.ty) == Some(W4) && Mapped(m, v.addr, W4) && |g| >= 2
    ensures var r := EvalOn(Assign(v, IntLit(x)), m, g, cs);
      r.Ran? && r.g[1] == x && Mapped(r.m, v.addr, W4) && Eval(Assign(v, IntLit(x)), m, cs) == Defined(x, r.m)
  {
    ToWordOfFromInt(v.addr);
    LoadOfStore(m, v.addr, W4, x);
    hide FromInt, ToWord;
    var m1 := Store(m, v.addr, W4, x).value;
    assert forall i :: i in m <==> i in m1;
    assert g[1..][0 := x][0] == x;
  }

  lemma SecondAssign(v: Var, x: Cell, c: byte, m: Memory, g: seq<Cell>, cs: bool)
    requires LoadWidth(v.ty) == Some(W4) && Mapped(m, v.addr, W4) && |g| >= 2 && g[1] == x
    ensures var e := Assign(v, CharLit(c)); var r, s := EvalOn(e, m, g, cs), Eval(e, m, cs);
      && r.Ran? && s.Defined? && Load(r.m, v.addr, W4) == Some(x.(b0 := c))
      && Load(s.m, v.addr, W4) == Some(Cell(c, 0, 0, 0))
      && (r.m == s.m <==> x.(b0 := 0) == ZERO_CELL)
  {
    ToWordOfFromInt(v.addr);
    AssignCharExact(v, c, m, g, cs);
    LoadOfStore(m, v.addr, W4, x.(b0 := c));
    LoadOfStore(m, v.addr, W4, Cell(c, 0, 0, 0));
    hide FromInt, ToWord;
    var h := EvalOn(CharLit(c), m, g[1..], cs).g;
    assert h[0] == x.(b0 := c);
  }

  predicate SameResult(op: BinOp, w: Width, x: Cell, y: Cell, z: Cell, cs: bool) {
    match (Arith(op, w, x, y, cs), Arith(op, w, x, z, cs))
    case (Some(a), Some(b)) => Low(w, a) == Low(w, b)
    case (None, None) => true
    case _ => false
  }

  ghost predicate OperandDetermined(w: Width, v: Width, cs: bool) {
    forall op, x, y, z :: Low(v, y) == Low(v, z) ==> SameResult(op, w, x, y, z, cs)
  }

  // ------------------------------------------------------------------- shell

  class Shell {
    const text: array<byte>
    const stack: array<Cell>
    var compilePc: nat
    var sp: int
    var pc: nat
    var mem: Memory

    constructor (m: Memory)
      ensures Ready() && fresh(text) && fresh(stack) && mem == m
    {
      text := new byte[TEXT_MAX](_ => 0);
      stack := new Cell[STACK_MAX](_ => ZERO_CELL);
      compilePc, sp, pc, mem := 0, 0, 0, m;
    }

    predicate Ready() {
      text.Length == TEXT_MAX && stack.Length == STACK_MAX
    }

    /** The machine state the operations see. */
    ghost function View(): (s: State)
      reads this, stack
    {
      State(stack[..], sp, mem)
    }

    // ------------------------------------------------------------ compiler

    /** finsh_code_byte, repeated. */
    method Put(code: seq<byte>)
      requires compilePc + |code| <= text.Length
      modifies text, this`compilePc
      ensures compilePc == old(compilePc) + |code|
      ensures text[..compilePc] == old(text[..compilePc]) + code
      ensures forall i :: compilePc <= i < text.Length ==> text[i] == old(text[i])
    {
      var start := compilePc;
      for i := 0 to |code|
        invariant compilePc == start + i
        invariant text[..start] == old(text[..start])
        invariant forall j :: 0 <= j < i ==> text[start + j] == code[j]
        invariant forall j :: compilePc <= j < text.Length ==> text[j] == old(text[j])
      {
        text[compilePc] := code[i];
        compilePc := compilePc + 1;
      }
      assert text[start..compilePc] == code;
      assert text[..compilePc] == text[..start] + text[start..compilePc];
    }

    /** finsh_compile: the recursive walk that appends to the text segment. */
    method Compile(n: Node)
      requires compilePc + |Emit(n)| <= text.Length
      modifies text, this`compilePc
      ensures compilePc == old(compilePc) + |Emit(n)|
      ensures text[..compilePc] == old(text[..compilePc]) + Emit(n)
      ensures forall i :: compilePc <= i < text.Length ==> text[i] == old(text[i])
      decreases n
    {
      hide Emit, EmitOwn;
      if n.Nil? {
        EmitNil();
      } else {
        EmitOfNode(n);
        Compile(n.child);
        Put(EmitOwn(n));
        Compile(n.sibling);
      }
    }

    /** finsh_compiler_run: clear the text segment, then statement by statement. */
    method CompilerRun(root: Node)
      requires Ready() && |EmitAll(TypeCheck(root, false))| <= TEXT_MAX
      modifies text, this`compilePc, stack
      ensures compilePc == |EmitAll(TypeCheck(root, false))|
      ensures text[..compilePc] == EmitAll(TypeCheck(root, false))
      ensures forall i :: compilePc <= i < TEXT_MAX ==> text[i] == 0
      ensures stack[..] == old(stack[..])[0 := ZERO_CELL]
    {
      hide Emit, EmitAll, TypeCheck;
      ghost var all := EmitAll(TypeCheck(root, false));
      var node := TypeCheck(root, false);
      for i := 0 to TEXT_MAX
        invariant forall j :: 0 <= j < i ==> text[j] == 0
        invariant stack[..] == old(stack[..])
      {
        text[i] := 0;
      }
      stack[0] := ZERO_CELL;
      compilePc := 0;
      while node.Node?
        invariant compilePc + |EmitAll(node)| == |all|
        invariant text[..compilePc] + EmitAll(node) == all
        invariant forall i :: compilePc <= i < TEXT_MAX ==> text[i] == 0
        invariant stack[..] == old(stack[..])[0 := ZERO_CELL]
        decreases node
      {
        var current := node;
        EmitAllOf(current);
        EmitAllOfNil();
        node := current.sibling;
        ghost var done := text[..compilePc];
        ghost var own := Emit(current.(sibling := Nil));
        Compile(current.(sibling := Nil));
        if node.Node? {
          Put([OP_POP]);
        }
        assert text[..compilePc] + EmitAll(node) == done + EmitAll(current);
      }
      EmitAllOfNil();
    }

    // --------------------------------------------------------- the operations

    method DoBin(op: BinOp, w: Width, cs: bool) returns (ok: bool)
      modifies this`sp, stack
      ensures match StepBin(op, w, pc, old(View()), cs) case Fault => !ok
        case Next(p, s) => ok && View() == s && pc == p
    {
      hide Arith;
      if !(2 <= sp <= stack.Length) { return false; }
      match Arith(op, w, stack[sp - 2], stack[sp - 1], cs) {
        case None => return false;
        case Some(v) =>
          stack[sp - 2] := SetLow(w, stack[sp - 2], v);
          sp := sp - 1;
          return true;
      }
    }

    method DoNot(w: Width, cs: bool) returns (ok: bool)
      modifies stack
      ensures match StepNot(w, pc, old(View()), cs) case Fault => !ok case Next(p, s) => ok && View() == s && pc == p
    {
      if !(1 <= sp <= stack.Length) { return false; }
      stack[sp - 1] := SetLow(w, stack[sp - 1], Complement(w, stack[sp - 1], cs));
      return true;
    }

    method DoPush(w: Width, v: Cell) returns (ok: bool)
      modifies this`sp, stack
      ensures match Push(pc, old(View()), w, v) case Fault => !ok case Next(p, s) => ok && View() == s && pc == p
    {
      if !(0 <= sp < stack.Length) { return false; }
      stack[sp] := SetLow(w, stack[sp], v);
      sp := sp + 1;
      return true;
    }

    method DoLd(w: Width) returns (ok: bool)
      modifies this`sp, this`pc, stack
      ensures match StepLd(w, text[..], old(pc), old(View())) case Fault => !ok
        case Next(p, s) => ok && View() == s && pc == p
    {
      if pc + w.Bytes() > text.Length { return false; }
      match w {
        case W1 => ok := DoPush(W1, Cell(text[pc], 0, 0, 0));
        case W2 => ok := DoPush(W2, Cell(text[pc], text[pc + 1], 0, 0));
        case W4 => ok := DoPush(W4, Cell(text[pc], text[pc + 1], text[pc + 2], text[pc + 3]));
      }
      pc := pc + w.Bytes();
    }

    method DoLdValue(w: Width) returns (ok: bool)
      modifies this`sp, this`pc, stack
      ensures match StepLdValue(w, text[..], old(pc), old(View())) case Fault => !ok
        case Next(p, s) => ok && View() == s && pc == p
    {
      if pc + 4 > text.Length { return false; }
      var a := Get32(text[..], pc);
      match Load(mem, a, w) {
        case None => return false;
        case Some(v) => ok := DoPush(w, v);
      }
      pc := pc + 4;
    }

    method DoSt(w: Width) returns (ok: bool)
      modifies this`sp, this`mem
      ensures match StepSt(w, pc, old(View())) case Fault => !ok case Next(p, s) => ok && View() == s && pc == p
    {
      hide Store, ToWord;
      if !(2 <= sp <= stack.Length) { return false; }
      match Store(mem, ToWord(stack[sp - 2]), w, stack[sp - 1]) {
        case None => return false;
        case Some(m) =>
          mem := m;
          sp := sp - 1;
          return true;
      }
    }

    method DoPop() returns (ok: bool)
      modifies this`sp
      ensures match StepPop(pc, old(View())) case Fault => !ok case Next(p, s) => ok && View() == s && pc == p
    {
      if !(1 <= sp <= stack.Length) { return false; }
      sp := sp - 1;
      return true;
    }

    method DoLdValueStack(w: Width) returns (ok: bool)
      modifies stack
      ensures match StepLdValueStack(w, pc, old(View())) case Fault => !ok
        case Next(p, s) => ok && View() == s && pc == p
    {
      hide Load, ToWord;
      if !(1 <= sp <= stack.Length) { return false; }
      match Load(mem, ToWord(stack[sp - 1]), w) {
        case None => return false;
        case Some(v) =>
          stack[sp - 1] := SetLow(w, stack[sp - 1], v);
          return true;
      }
    }

    /** One turn of the fetch loop; false where the operation is undefined. */
    method Dispatch(cs: bool) returns (ok: bool)
      requires pc < text.Length
      modifies this`sp, this`pc, this`mem, stack
      ensures match Step(old(text[..]), old(pc), old(View()), cs) case Fault => !ok
        case Next(p, s) => ok && View() == s && pc == p
    {
      hide StepBin, StepNot, StepLd, StepLdValue, StepSt, StepLdValueStack, Push, Arith, Complement;
      var op := text[pc];
      pc := pc + 1;
      ok := true;
      if op == 0x00 {
      } else if op <= 0x03 { ok := DoBin(Add, WidthFrom(op, 0x01), cs);
      } else if op <= 0x06 { ok := DoBin(Sub, WidthFrom(op, 0x04), cs);
      } else if op <= 0x09 { ok := DoBin(Div, WidthFrom(op, 0x07), cs);
      } else if op <= 0x0C { ok := DoBin(Mod, WidthFrom(op, 0x0A), cs);
      } else if op <= 0x0F { ok := DoBin(Mul, WidthFrom(op, 0x0D), cs);
      } else if op <= 0x12 { ok := DoBin(And, WidthFrom(op, 0x10), cs);
      } else if op <= 0x15 { ok := DoBin(Or, WidthFrom(op, 0x13), cs);
      } else if op <= 0x18 { ok := DoBin(Xor, WidthFrom(op, 0x16), cs);
      } else if op <= 0x1B { ok := DoNot(WidthFrom(op, 0x19), cs);
      } else if op <= 0x1E { ok := DoBin(Shl, WidthFrom(op, 0x1C), cs);
      } else if op <= 0x21 { ok := DoBin(Shr, WidthFrom(op, 0x1F), cs);
      } else if op <= 0x24 { ok := DoLd(WidthFrom(op, 0x22));
      } else if op <= 0x27 { ok := DoLdValue(WidthFrom(op, 0x25));
      } else if op <= 0x2A { ok := DoSt(WidthFrom(op, 0x28));
      } else if op == OP_POP { ok := DoPop();
      } else if 0x2D <= op <= 0x2F { ok := DoLdValueStack(WidthFrom(op, 0x2D));
      } else { ok := false; }
    }

    /** finsh_vm_run. */
    method VmRun(cs: bool) returns (ok: bool)
      modifies this`sp, this`pc, this`mem, stack
      ensures match Exec(text[..], 0, old(View().(sp := 0)), cs)
        case Crash => !ok
        case Halt(s) => ok && View() == s
    {
      hide Step;
      sp := 0;
      pc := 0;
      ok := true;
      ghost var code := text[..];
      while pc < text.Length && ok
        invariant text[..] == code
        invariant ok ==> Exec(code, pc, View(), cs) == Exec(code, 0, old(View().(sp := 0)), cs)
        invariant !ok ==> Exec(code, 0, old(View().(sp := 0)), cs) == Crash
        decreases ok, text.Length - pc
      {
        ok := Dispatch(cs);
      }
    }

    /**
     Compile and run a list of statements. Memory and the whole stack are what evaluating the statements
     over the old stack leaves. If no operator reads more of an operand than was written, that is plain
     evaluation: the run is undefined exactly when the statements are; otherwise the stack holds one
     cell, the value of the last statement, and memory is what evaluating them in order leaves.
     */
    method RunLine(es: seq<Expr>, cs: bool) returns (ok: bool)
      requires Ready() && es != [] && (forall e :: e in es ==> Supported(e) && Need(e) <= STACK_MAX)
        && |CodeAll(es)| <= TEXT_MAX
      modifies this, text, stack
      ensures match EvalAllOn(es, old(mem), old(stack[..])[0 := ZERO_CELL], cs)
        case Broken => !ok
        case Ran(m, g) => ok && sp == 1 && mem == m && stack[..] == g
      ensures Runnable(es, old(mem), STACK_MAX) ==> match EvalAll(es, old(mem), cs)
        case Undefined => !ok
        case Defined(c, m) =>
          ok && sp == 1 && mem == m && Low(Valid(es[|es| - 1]), stack[0]) == Low(Valid(es[|es| - 1]), c)
    {
      hide Exec, Step, Emit, EmitAll, TypeCheck, CodeAll, EvalAll, EvalAllOn, Supported, Need, WidthSafe, VarsMapped;
      StatementsCode(es);
      CompilerRun(StatementTree(es));
      ghost var st := View().(sp := 0);
      ghost var code := text[..];
      ghost var g := stack[..];
      RunStatementsOn(es, code, 0, g, mem, cs);
      if EvalAllOn(es, mem, g, cs).Ran? {
        RunPadding(code, compilePc, State(EvalAllOn(es, mem, g, cs).g, 1, EvalAllOn(es, mem, g, cs).m), cs);
      }
      if Runnable(es, mem, STACK_MAX) {
        ghost var s := RunStatements(es, code, 0, st, cs);
        if EvalAll(es, mem, cs).Defined? {
          RunPadding(code, compilePc, s, cs);
        }
      }
      ok := VmRun(cs);
    }
  }
}
