/**
 Running the compiled bytes of an expression does exactly what evaluating the expression does.
 */
module FinshProof {
  import opened FinshMachine
  import opened FinshCompiler
  import opened Words

  // ------------------------------------------------------ from tree to code

  /** The code of an expression, read off the expression. */
  function Code(e: Expr): (s: seq<byte>)
    requires Supported(e)
  {
    match e
    case CharLit(c) => [OpLd(W1), c]
    case IntLit(x) => LdDword(x)
    case VarRef(v) => LdValue(VarWidth(v), v)
    case AddrOf(v) => LdAddress(v)
    case Deref(p) => Code(p) + [OpLdValueStack(Label(p))]
    case Bin(op, l, r) => Code(l) + (Code(r) + [OpBin(op, Label(l))])
    case Not(e1) => Code(e1) + [OpNot(Label(e1))]
    case Assign(v, e1) => LdAddress(v) + (Code(e1) + ([OpSt(VarWidth(v))] + [OpLdValueStack(VarWidth(v))]))
    case AssignAt(p, e1) => Code(p) + (Code(e1) + ([OpSt(Label(p))] + [OpLdValueStack(Label(p))]))
    case PreStep(down, v) => LdAddress(v) + (Bump(StepOp(down), VarWidth(v), v) + [OpLdValueStack(W4)])
    case PostStep(down, v) =>
      LdValue(VarWidth(v), v) + (LdAddress(v) + (Bump(StepOp(down), VarWidth(v), v) + [OP_POP]))
  }

  /** A leaf emits its own code, then its siblings. */
  lemma LeafCode(kind: Kind, value: Cell, v: Var, sibling: Node, isAddr: bool)
    ensures var n := TypeCheck(Leaf(kind, value, v, sibling), isAddr);
      && n.Node? && n.kind == kind && n.value == value && n.id == v && n.addressed == isAddr
      && n.dataType == (match kind
                        case Id => TypeOfVar(v.ty, Void)
                        case ValueChar => Sized(W1)
                        case ValueInt | ValueLong | ValueString | ValueNull => Sized(W4)
                        case _ => Void)
      && n.sibling == TypeCheck(sibling, false)
      && Emit(n) == EmitOwn(n) + Emit(n.sibling)
  {
    EmitNil();
  }

  lemma EmitNil()
    ensures TypeCheck(Nil, true) == Nil && TypeCheck(Nil, false) == Nil && Emit(Nil) == []
  {
  }

  /** An inner node takes its data type from its first child and emits after it. */
  lemma InnerCode(kind: Kind, child: Node, sibling: Node, isAddr: bool)
    requires child.Node?
    ensures var n := TypeCheck(Inner(kind, child, sibling), isAddr);
      var c := TypeCheck(child, ChildAddressed(kind, isAddr));
      && n.Node? && n.kind == kind && n.addressed == isAddr && n.child == c && c.Node? && n.dataType == c.dataType
      && n.sibling == TypeCheck(sibling, false)
      && Emit(n) == Emit(c) + EmitOwn(n) + Emit(n.sibling)
  {
  }

  /** Type check and code generation of the parser's tree give that code, whatever follows the tree. */
  lemma {:induction false} TreeCode(e: Expr, sibling: Node)
    requires Supported(e)
    ensures TreeAgrees(e, sibling)
    decreases e, 1
  {
    hide TreeAgrees, Tree, Code, Label;
    match e {
      case CharLit(_) => TreeCodeLeaf(e, sibling);
      case IntLit(_) => TreeCodeLeaf(e, sibling);
      case VarRef(_) => TreeCodeLeaf(e, sibling);
      case AddrOf(v) => TreeCodeAddrOf(v, sibling);
      case Deref(p) => TreeCodeDeref(p, sibling);
      case Bin(op, l, r) => TreeCodeBin(op, l, r, sibling);
      case Not(e1) => TreeCodeNot(e1, sibling);
      case Assign(v, e1) => TreeCodeAssign(v, e1, sibling);
      case AssignAt(p, e1) => TreeCodeAssignAt(p, e1, sibling);
      case PreStep(down, v) => TreeCodePre(down, v, sibling);
      case PostStep(down, v) => TreeCodePost(down, v, sibling);
    }
  }

  /** What `TreeCode` states of an expression. */
  predicate TreeAgrees(e: Expr, sibling: Node)
    requires Supported(e)
  {
    var n := TypeCheck(Tree(e, sibling), false);
    && n.Node? && n.dataType == Sized(Label(e))
    && n.sibling == TypeCheck(sibling, false)
    && Emit(n) == Code(e) + Emit(n.sibling)
  }

  lemma TreeCodeLeaf(e: Expr, sibling: Node)
    requires (e.CharLit? || e.IntLit? || e.VarRef?) && Supported(e)
    ensures TreeAgrees(e, sibling)
  {
    hide TypeCheck, Emit;
    match e {
      case CharLit(c) => LeafCode(ValueChar, Cell(c, 0, 0, 0), NO_VAR, sibling, false);
      case IntLit(x) => LeafCode(ValueLong, x, NO_VAR, sibling, false);
      case VarRef(v) => LeafCode(Id, ZERO_CELL, v, sibling, false);
    }
  }

  lemma TreeCodeDeref(p: Expr, sibling: Node)
    requires Supported(Deref(p))
    ensures TreeAgrees(Deref(p), sibling)
    decreases Deref(p), 0
  {
    hide TypeCheck, Emit, Tree, Code, Label, Supported;
    UnfoldDeref(p, sibling);
    EmitNil();
    TreeCode(p, Nil);
    InnerCode(SysGetValue, Tree(p, Nil), sibling, false);
  }

  lemma TreeCodeNot(e: Expr, sibling: Node)
    requires Supported(Not(e))
    ensures TreeAgrees(Not(e), sibling)
    decreases Not(e), 0
  {
    hide TypeCheck, Emit, Tree, Code, Label, Supported;
    UnfoldNot(e, sibling);
    EmitNil();
    TreeCode(e, Nil);
    InnerCode(SysBitwise, Tree(e, Nil), sibling, false);
  }

  lemma TreeCodeAddrOf(v: Var, sibling: Node)
    requires LoadWidth(v.ty).Some?
    ensures TreeAgrees(AddrOf(v), sibling)
  {
    hide TypeCheck, Emit, LdAddress;
    EmitNil();
    LeafCode(Id, ZERO_CELL, v, Nil, true);
    InnerCode(SysGetAddr, Leaf(Id, ZERO_CELL, v, Nil), sibling, false);
  }

  lemma TreeCodePre(down: bool, v: Var, sibling: Node)
    requires LoadWidth(v.ty).Some?
    ensures TreeAgrees(PreStep(down, v), sibling)
  {
    hide TypeCheck, Emit, Tree, Code, Label, LdAddress, Bump;
    UnfoldPre(down, v, sibling);
    EmitNil();
    LeafCode(Id, ZERO_CELL, v, Nil, true);
    InnerCode(if down then SysPreDec else SysPreInc, Leaf(Id, ZERO_CELL, v, Nil), sibling, false);
    var n := TypeCheck(Tree(PreStep(down, v), sibling), false);
    Plain(LdAddress(v), EmitOwn(n), Emit(n.sibling));
  }

  lemma TreeCodePost(down: bool, v: Var, sibling: Node)
    requires LoadWidth(v.ty).Some?
    ensures TreeAgrees(PostStep(down, v), sibling)
  {
    hide TypeCheck, Emit, Tree, Code, Label, LdAddress, LdValue, Bump;
    UnfoldPost(down, v, sibling);
    EmitNil();
    LeafCode(Id, ZERO_CELL, v, Nil, false);
    InnerCode(if down then SysDec else SysInc, Leaf(Id, ZERO_CELL, v, Nil), sibling, false);
    var n := TypeCheck(Tree(PostStep(down, v), sibling), false);
    Plain(LdValue(VarWidth(v), v), EmitOwn(n), Emit(n.sibling));
  }

  lemma Plain(a: seq<byte>, b: seq<byte>, c: seq<byte>)
    ensures (a + []) + b + c == (a + b) + c
  {
  }

  /** One level of the definitions, for the proofs below. */
  lemma UnfoldDeref(p: Expr, sibling: Node)
    requires Supported(Deref(p))
    ensures Supported(p) && Label(Deref(p)) == Label(p) && Tree(p, Nil).Node?
    ensures Tree(Deref(p), sibling) == Inner(SysGetValue, Tree(p, Nil), sibling)
    ensures Code(Deref(p)) == Code(p) + [OpLdValueStack(Label(p))]
  {
  }

  lemma UnfoldNot(e: Expr, sibling: Node)
    requires Supported(Not(e))
    ensures Supported(e) && Label(Not(e)) == Label(e) && Tree(e, Nil).Node?
    ensures Tree(Not(e), sibling) == Inner(SysBitwise, Tree(e, Nil), sibling)
    ensures Code(Not(e)) == Code(e) + [OpNot(Label(e))]
  {
  }

  lemma UnfoldPre(down: bool, v: Var, sibling: Node)
    requires LoadWidth(v.ty).Some?
    ensures Label(PreStep(down, v)) == VarWidth(v)
    ensures Tree(PreStep(down, v), sibling)
         == Inner(if down then SysPreDec else SysPreInc, Leaf(Id, ZERO_CELL, v, Nil), sibling)
    ensures Code(PreStep(down, v)) == LdAddress(v) + (Bump(StepOp(down), VarWidth(v), v) + [OpLdValueStack(W4)])
  {
  }

  lemma UnfoldPost(down: bool, v: Var, sibling: Node)
    requires LoadWidth(v.ty).Some?
    ensures Label(PostStep(down, v)) == VarWidth(v)
    ensures Tree(PostStep(down, v), sibling)
         == Inner(if down then SysDec else SysInc, Leaf(Id, ZERO_CELL, v, Nil), sibling)
    ensures Code(PostStep(down, v))
         == LdValue(VarWidth(v), v) + (LdAddress(v) + (Bump(StepOp(down), VarWidth(v), v) + [OP_POP]))
  {
  }

  lemma UnfoldBin(op: BinOp, l: Expr, r: Expr, sibling: Node)
    requires Supported(Bin(op, l, r))
    ensures Supported(l) && Supported(r) && Label(Bin(op, l, r)) == Label(l)
    ensures Tree(Bin(op, l, r), sibling) == Inner(SysBin(op), Tree(l, Tree(r, Nil)), sibling)
    ensures Code(Bin(op, l, r)) == Code(l) + (Code(r) + [OpBin(op, Label(l))])
    ensures Tree(l, Tree(r, Nil)).Node?
  {
  }

  lemma UnfoldAssign(v: Var, e: Expr, sibling: Node)
    requires Supported(Assign(v, e))
    ensures LoadWidth(v.ty).Some? && Supported(e) && Label(Assign(v, e)) == VarWidth(v)
    ensures Tree(Assign(v, e), sibling) == Inner(SysAssign, Leaf(Id, ZERO_CELL, v, Tree(e, Nil)), sibling)
    ensures Code(Assign(v, e)) == LdAddress(v) + (Code(e) + ([OpSt(VarWidth(v))] + [OpLdValueStack(VarWidth(v))]))
  {
  }

  lemma UnfoldAssignAt(p: Expr, e: Expr, sibling: Node)
    requires Supported(AssignAt(p, e))
    ensures Supported(p) && Supported(e) && Label(AssignAt(p, e)) == Label(p)
    ensures Tree(AssignAt(p, e), sibling) == Inner(SysAssign, Inner(SysGetValue, Tree(p, Nil), Tree(e, Nil)), sibling)
    ensures Code(AssignAt(p, e)) == Code(p) + (Code(e) + ([OpSt(Label(p))] + [OpLdValueStack(Label(p))]))
    ensures Tree(p, Nil).Node?
  {
  }

  lemma Regroup(a: seq<byte>, b: seq<byte>, c: seq<byte>, d: seq<byte>)
    ensures (a + (b + [])) + c + d == (a + (b + c)) + d
  {
  }

  lemma TreeCodeBin(op: BinOp, l: Expr, r: Expr, sibling: Node)
    requires Supported(Bin(op, l, r))
    ensures TreeAgrees(Bin(op, l, r), sibling)
    decreases Bin(op, l, r), 0
  {
    hide TypeCheck, Emit, Tree, Code, Label, Supported;
    UnfoldBin(op, l, r, sibling);
    EmitNil();
    TreeCode(l, Tree(r, Nil));
    TreeCode(r, Nil);
    InnerCode(SysBin(op), Tree(l, Tree(r, Nil)), sibling, false);
    var n := TypeCheck(Tree(Bin(op, l, r), sibling), false);
    Regroup(Code(l), Code(r), [OpBin(op, Label(l))], Emit(n.sibling));
  }

  lemma TreeCodeAssign(v: Var, e: Expr, sibling: Node)
    requires Supported(Assign(v, e))
    ensures TreeAgrees(Assign(v, e), sibling)
    decreases Assign(v, e), 0
  {
    hide TypeCheck, Emit, Tree, Code, Label, Supported;
    UnfoldAssign(v, e, sibling);
    EmitNil();
    TreeCode(e, Nil);
    LeafCode(Id, ZERO_CELL, v, Tree(e, Nil), true);
    InnerCode(SysAssign, Leaf(Id, ZERO_CELL, v, Tree(e, Nil)), sibling, false);
    var n := TypeCheck(Tree(Assign(v, e), sibling), false);
    Regroup(LdAddress(v), Code(e), EmitOwn(n), Emit(n.sibling));
  }

  lemma TreeCodeAssignAt(p: Expr, e: Expr, sibling: Node)
    requires Supported(AssignAt(p, e))
    ensures TreeAgrees(AssignAt(p, e), sibling)
    decreases AssignAt(p, e), 0
  {
    hide TypeCheck, Emit, Tree, Code, Label, Supported;
    UnfoldAssignAt(p, e, sibling);
    EmitNil();
    TreeCode(p, Nil);
    TreeCode(e, Nil);
    InnerCode(SysGetValue, Tree(p, Nil), Tree(e, Nil), true);
    InnerCode(SysAssign, Inner(SysGetValue, Tree(p, Nil), Tree(e, Nil)), sibling, false);
    var n := TypeCheck(Tree(AssignAt(p, e), sibling), false);
    assert (Code(p) + []) + [] == Code(p);
    Regroup(Code(p), Code(e), EmitOwn(n), Emit(n.sibling));
  }

  // ---------------------------------------------------------- code in place

  /** The bytes `code` stand at position `pc`. */
  predicate At(text: seq<byte>, pc: int, code: seq<byte>) {
    0 <= pc && pc + |code| <= |text| && text[pc..pc + |code|] == code
  }

  lemma AtSplit(text: seq<byte>, pc: int, a: seq<byte>, b: seq<byte>)
    requires At(text, pc, a + b)
    ensures At(text, pc, a) && At(text, pc + |a|, b)
  {
    assert text[pc..pc + |a|] == text[pc..pc + |a + b|][..|a|];
    assert text[pc + |a|..pc + |a| + |b|] == text[pc..pc + |a + b|][|a|..];
  }

  // ---------------------------------------------------- single instructions

  /** `s` is `st` with one more cell, whose low `w` bytes are those of `v`. */
  predicate Pushed(st: State, s: State, w: Width, v: Cell) {
    && |s.stack| == |st.stack| && s.sp == st.sp + 1
    && 0 <= st.sp < |st.stack|
    && Low(w, s.stack[st.sp]) == Low(w, v)
    && Below(st, s)
  }

  /** The cells in use before are as they were. */
  predicate Below(st: State, s: State) {
    && |s.stack| == |st.stack| && st.sp <= |st.stack|
    && forall i :: 0 <= i < st.sp ==> s.stack[i] == st.stack[i]
  }

  lemma StepOfBin(text: seq<byte>, pc: int, st: State, op: BinOp, w: Width, cs: bool)
    requires 0 <= pc < |text| && text[pc] == OpBin(op, w)
    ensures match StepBin(op, w, pc + 1, st, cs)
      case Fault => Exec(text, pc, st, cs) == Crash
      case Next(p, t) => Exec(text, pc, st, cs) == Exec(text, p, t, cs)
  {
    hide StepBin, StepNot, StepLd, StepLdValue, StepSt, StepPop, StepLdValueStack;
    assert Step(text, pc, st, cs) == StepBin(op, w, pc + 1, st, cs);
  }

  lemma RunPop(text: seq<byte>, pc: int, st: State, cs: bool)
    requires At(text, pc, [OP_POP]) && 1 <= st.sp <= |st.stack|
    ensures Exec(text, pc, st, cs) == Exec(text, pc + 1, st.(sp := st.sp - 1), cs)
  {
    assert text[pc] == [OP_POP][0];
    assert Step(text, pc, st, cs) == StepPop(pc + 1, st);
  }

  // --------------------------------------------------------------- sequences

  /** The low bytes at a width determine the low bytes at a narrower one. */
  lemma NarrowLow(n: Width, w: Width, c: Cell, d: Cell)
    requires n.Bytes() <= w.Bytes() && Low(w, c) == Low(w, d)
    ensures Low(n, c) == Low(n, d)
  {
    assert Low(w, c).b0 == c.b0 && Low(w, d).b0 == d.b0;
    if w != W1 {
      assert Low(w, c).b1 == c.b1 && Low(w, d).b1 == d.b1;
    }
  }

  lemma StoreOfLow(m: Memory, a: int, w: Width, x: Cell, y: Cell)
    requires Low(w, x) == Low(w, y)
    ensures Store(m, a, w, x) == Store(m, a, w, y)
  {
    NarrowLow(W1, w, x, y);
    assert Low(W1, x).b0 == x.b0 && Low(W1, y).b0 == y.b0;
    if w != W1 {
      NarrowLow(W2, w, x, y);
      assert Low(W2, x).b1 == x.b1 && Low(W2, y).b1 == y.b1;
    }
  }

  lemma SteppedIsArith(down: bool, w: Width, c: Cell, cs: bool)
    ensures Arith(StepOp(down), w, c, Cell(1, 0, 0, 0), cs) == Some(Stepped(down, w, c, cs))
  {
    assert Value(w, Cell(1, 0, 0, 0), cs) == 1;
  }

  /** Evaluation never maps or unmaps an address. */
  lemma {:induction false} EvalKeepsKeys(e: Expr, m: Memory, cs: bool)
    requires Supported(e) && Eval(e, m, cs).Defined?
    ensures Eval(e, m, cs).m.Keys == m.Keys
  {
    match e {
      case CharLit(_) | IntLit(_) | VarRef(_) | AddrOf(_) =>
      case Deref(p) => EvalKeepsKeys(p, m, cs);
      case Bin(_, l, r) =>
        EvalKeepsKeys(l, m, cs);
        EvalKeepsKeys(r, Eval(l, m, cs).m, cs);
      case Not(e1) => EvalKeepsKeys(e1, m, cs);
      case Assign(v, e1) =>
        EvalKeepsKeys(e1, m, cs);
        LoadOfStore(Eval(e1, m, cs).m, v.addr, VarWidth(v), Eval(e1, m, cs).c);
      case AssignAt(p, e1) =>
        EvalKeepsKeys(p, m, cs);
        var m1 := Eval(p, m, cs).m;
        EvalKeepsKeys(e1, m1, cs);
        LoadOfStore(Eval(e1, m1, cs).m, ToWord(Eval(p, m, cs).c), Label(p), Eval(e1, m1, cs).c);
      case PreStep(down, v) =>
        var c := EvalLoad(m, v.addr, VarWidth(v)).c;
        LoadOfStore(m, v.addr, VarWidth(v), Stepped(down, VarWidth(v), c, cs));
      case PostStep(down, v) =>
        var c := EvalLoad(m, v.addr, VarWidth(v)).c;
        LoadOfStore(m, v.addr, VarWidth(v), Stepped(down, VarWidth(v), c, cs));
    }
  }

  lemma {:induction false} MappedOfKeys(e: Expr, m: Memory, m1: Memory)
    requires VarsMapped(e, m) && m.Keys == m1.Keys
    ensures VarsMapped(e, m1)
  {
    match e {
      case CharLit(_) | IntLit(_) =>
      case VarRef(v) => assert forall i :: i in m <==> i in m1;
      case AddrOf(v) => assert forall i :: i in m <==> i in m1;
      case Deref(p) => MappedOfKeys(p, m, m1);
      case Bin(_, l, r) => MappedOfKeys(l, m, m1); MappedOfKeys(r, m, m1);
      case Not(e1) => MappedOfKeys(e1, m, m1);
      case Assign(v, e1) => assert forall i :: i in m <==> i in m1; MappedOfKeys(e1, m, m1);
      case AssignAt(p, e1) => MappedOfKeys(p, m, m1); MappedOfKeys(e1, m, m1);
      case PreStep(_, v) => assert forall i :: i in m <==> i in m1;
      case PostStep(_, v) => assert forall i :: i in m <==> i in m1;
    }
  }

  // ------------------------------------------------------------ preservation

  /** The stack cells an expression needs. */
  function Need(e: Expr): (n: int)
    ensures n >= 1
  {
    match e
    case CharLit(_) | IntLit(_) | VarRef(_) | AddrOf(_) => 1
    case Deref(p) => Need(p)
    case Bin(_, l, r) => Max(Need(l), 1 + Need(r))
    case Not(e1) => Need(e1)
    case Assign(_, e1) => 1 + Need(e1)
    case AssignAt(p, e1) => Max(Need(p), 1 + Need(e1))
    case PreStep(_, _) => 3
    case PostStep(_, _) => 4
  }

  function Max(a: int, b: int): int { if a < b then b else a }

  /**
   The code of `e`, run from `st`, crashes exactly when `e` is undefined; otherwise it runs on
   behind its end with one more cell, which holds the value of `e`, with the cells below as they
   were, and with the memory that evaluating `e` leaves.
   */
  ghost predicate Agrees(e: Expr, text: seq<byte>, pc: int, st: State, cs: bool, s: State)
    requires Supported(e) && 0 <= pc
  {
    match Eval(e, st.mem, cs)
    case Undefined => Exec(text, pc, st, cs) == Crash
    case Defined(c, m) =>
      && Exec(text, pc, st, cs) == Exec(text, pc + |Code(e)|, s, cs)
      && Pushed(st, s, Valid(e), c) && s.mem == m
  }
}
