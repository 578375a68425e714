/**
 What the shell's code does when operand widths are mixed: an operation writes only the low bytes of a
 stack cell, so the bytes above are left over from earlier use, and a wider operation reads them.
 */
module FinshStale {
  import opened FinshMachine
  import opened FinshCompiler
  import opened FinshProof
  import opened Words

  // ------------------------------------------------- evaluation over old cells

  /** Memory and the cells from the result on, or undefined behaviour. */
  datatype Ran = Broken | Ran(m: Memory, g: seq<Cell>)

  /** A load into the low bytes of the first cell. */
  function LoadOn(m: Memory, a: int, w: Width, g: seq<Cell>): (r: Ran)
    requires |g| > 0
    ensures r.Ran? ==> |r.g| == |g| && r.m == m
  {
    match Load(m, a, w)
    case None => Broken
    case Some(v) => Ran(m, g[0 := SetLow(w, g[0], v)])
  }

  /** An operator on `c` and the first cell, leaving its result in the low bytes of `c`. */
  function BinOn(op: BinOp, w: Width, c: Cell, m: Memory, h: seq<Cell>, cs: bool): (r: Ran)
    requires |h| > 0
    ensures r.Ran? ==> |r.g| == |h| + 1 && r.m == m
  {
    match Arith(op, w, c, h[0], cs)
    case None => Broken
    case Some(x) => Ran(m, [SetLow(w, c, x)] + h)
  }

  /** The first cell is stored through address `a` and loaded again in its place. */
  function StoreOn(w: Width, a: Cell, m: Memory, h: seq<Cell>): (r: Ran)
    requires |h| > 0
    ensures r.Ran? ==> |r.g| == |h| + 1
  {
    match Store(m, ToWord(a), w, h[0])
    case None => Broken
    case Some(m1) => LoadOn(m1, ToWord(a), w, [a] + h)
  }

  /** One more or one less, computed in the first two cells and stored through address `a`. */
  function BumpOn(down: bool, v: Var, a: Cell, m: Memory, h: seq<Cell>, cs: bool): (r: Ran)
    requires LoadWidth(v.ty).Some? && |h| >= 2
    ensures r.Ran? ==> |r.g| == |h|
  {
    var w := VarWidth(v);
    match LoadOn(m, v.addr, w, h)
    case Broken => Broken
    case Ran(_, h1) =>
      match BinOn(StepOp(down), w, h1[0], m, [SetLow(w, h1[1], Cell(1, 0, 0, 0))] + h1[2..], cs)
      case Broken => Broken
      case Ran(_, h2) =>
        match Store(m, ToWord(a), w, h2[0])
        case None => Broken
        case Some(m1) => Ran(m1, h2)
  }

  /** The complement of the first cell, in its low bytes. */
  function NotOn(w: Width, m: Memory, g: seq<Cell>, cs: bool): (r: Ran)
    requires |g| > 0
    ensures r.Ran? && |r.g| == |g| && r.m == m
  {
    Ran(m, g[0 := SetLow(w, g[0], Complement(w, g[0], cs))])
  }

  /** The step comes first, and the new value is loaded. */
  function PreOn(down: bool, v: Var, m: Memory, g: seq<Cell>, cs: bool): (r: Ran)
    requires LoadWidth(v.ty).Some? && |g| >= 3
    ensures r.Ran? ==> |r.g| == |g|
  {
    match BumpOn(down, v, FromInt(v.addr), m, g[1..], cs)
    case Broken => Broken
    case Ran(m1, h) => LoadOn(m1, v.addr, W4, [FromInt(v.addr)] + h)
  }

  /** The old value is loaded, and the step comes after. */
  function PostOn(down: bool, v: Var, m: Memory, g: seq<Cell>, cs: bool): (r: Ran)
    requires LoadWidth(v.ty).Some? && |g| >= 4
    ensures r.Ran? ==> |r.g| == |g|
  {
    match LoadOn(m, v.addr, VarWidth(v), g)
    case Broken => Broken
    case Ran(_, g1) =>
      match BumpOn(down, v, FromInt(v.addr), m, g1[2..], cs)
      case Broken => Broken
      case Ran(m1, h) => Ran(m1, [g1[0], FromInt(v.addr)] + h)
  }

  /** Left-to-right evaluation in the cells `g`, whose old contents show wherever a narrower value was written. */
  function EvalOn(e: Expr, m: Memory, g: seq<Cell>, cs: bool): (r: Ran)
    requires Supported(e) && |g| >= Need(e)
    ensures r.Ran? ==> |r.g| == |g|
    decreases e
  {
    match e
    case CharLit(c) => Ran(m, g[0 := SetLow(W1, g[0], Cell(c, 0, 0, 0))])
    case IntLit(x) => Ran(m, g[0 := x])
    case VarRef(v) => LoadOn(m, v.addr, VarWidth(v), g)
    case AddrOf(v) => Ran(m, g[0 := FromInt(v.addr)])
    case Deref(p) =>
      (match EvalOn(p, m, g, cs)
       case Broken => Broken
       case Ran(m1, g1) => LoadOn(m1, ToWord(g1[0]), Label(p), g1))
    case Bin(op, l, r) =>
      (match EvalOn(l, m, g, cs)
       case Broken => Broken
       case Ran(m1, g1) =>
         match EvalOn(r, m1, g1[1..], cs)
         case Broken => Broken
         case Ran(m2, h) => BinOn(op, Label(l), g1[0], m2, h, cs))
    case Not(e1) =>
      (match EvalOn(e1, m, g, cs)
       case Broken => Broken
       case Ran(m1, g1) => NotOn(Label(e1), m1, g1, cs))
    case Assign(v, e1) =>
      (match EvalOn(e1, m, g[1..], cs)
       case Broken => Broken
       case Ran(m1, h) => StoreOn(VarWidth(v), FromInt(v.addr), m1, h))
    case AssignAt(p, e1) =>
      (match EvalOn(p, m, g, cs)
       case Broken => Broken
       case Ran(m1, g1) =>
         match EvalOn(e1, m1, g1[1..], cs)
         case Broken => Broken
         case Ran(m2, h) => StoreOn(Label(p), g1[0], m2, h))
    case PreStep(down, v) => PreOn(down, v, m, g, cs)
    case PostStep(down, v) => PostOn(down, v, m, g, cs)
  }

  // ------------------------------------------------------------ instructions

  /** With `pre` below and `g` from the stack pointer on. */
  function At0(pre: seq<Cell>, g: seq<Cell>, m: Memory): (st: State) {
    State(pre + g, |pre|, m)
  }

  function At1(pre: seq<Cell>, g: seq<Cell>, m: Memory): (st: State) {
    State(pre + g, |pre| + 1, m)
  }

  lemma Regrouped(pre: seq<Cell>, g: seq<Cell>, m: Memory)
    requires |g| > 0
    ensures At1(pre, g, m) == At0(pre + [g[0]], g[1..], m)
  {
    assert pre + g == pre + [g[0]] + g[1..];
  }

  /** An instruction that pushes. */
  lemma Pushes(text: seq<byte>, pc: int, next: int, pre: seq<Cell>, g: seq<Cell>, m: Memory, w: Width, v: Cell,
               cs: bool)
    requires 0 <= pc < |text| && |g| > 0 && Step(text, pc, At0(pre, g, m), cs) == Push(next, At0(pre, g, m), w, v)
      && pc < next
    ensures Exec(text, pc, At0(pre, g, m), cs) == Exec(text, next, At1(pre, g[0 := SetLow(w, g[0], v)], m), cs)
  {
    hide Step;
    assert (pre + g)[|pre| := SetLow(w, g[0], v)] == pre + g[0 := SetLow(w, g[0], v)];
  }

  lemma LdByteOn(text: seq<byte>, pc: int, pre: seq<Cell>, g: seq<Cell>, m: Memory, c: byte, cs: bool)
    requires At(text, pc, [OpLd(W1), c]) && |g| > 0
    ensures Exec(text, pc, At0(pre, g, m), cs)
      == Exec(text, pc + 2, At1(pre, g[0 := SetLow(W1, g[0], Cell(c, 0, 0, 0))], m), cs)
  {
    assert text[pc] == [OpLd(W1), c][0] && text[pc + 1] == [OpLd(W1), c][1];
    assert Step(text, pc, At0(pre, g, m), cs) == Push(pc + 2, At0(pre, g, m), W1, Cell(c, 0, 0, 0));
    Pushes(text, pc, pc + 2, pre, g, m, W1, Cell(c, 0, 0, 0), cs);
  }

  lemma LdDwordOn(text: seq<byte>, pc: int, pre: seq<Cell>, g: seq<Cell>, m: Memory, c: Cell, cs: bool)
    requires At(text, pc, LdDword(c)) && |g| > 0
    ensures Exec(text, pc, At0(pre, g, m), cs) == Exec(text, pc + 5, At1(pre, g[0 := c], m), cs)
  {
    var code := LdDword(c);
    assert text[pc] == code[0] && text[pc + 1] == code[1] && text[pc + 2] == code[2] && text[pc + 3] == code[3]
      && text[pc + 4] == code[4];
    assert Step(text, pc, At0(pre, g, m), cs) == Push(pc + 5, At0(pre, g, m), W4, c);
    Pushes(text, pc, pc + 5, pre, g, m, W4, c, cs);
  }

  lemma LdOneOn(text: seq<byte>, pc: int, pre: seq<Cell>, g: seq<Cell>, m: Memory, w: Width, cs: bool)
    requires At(text, pc, LdOne(w)) && |g| > 0
    ensures Exec(text, pc, At0(pre, g, m), cs)
      == Exec(text, pc + |LdOne(w)|, At1(pre, g[0 := SetLow(w, g[0], Cell(1, 0, 0, 0))], m), cs)
  {
    var one := Cell(1, 0, 0, 0);
    var code := LdOne(w);
    assert text[pc] == code[0] && text[pc + 1] == code[1];
    if w != W1 { assert text[pc + 2] == code[2]; }
    if w == W4 { assert text[pc + 3] == code[3] && text[pc + 4] == code[4]; }
    assert Step(text, pc, At0(pre, g, m), cs) == Push(pc + |LdOne(w)|, At0(pre, g, m), w, one);
    Pushes(text, pc, pc + |LdOne(w)|, pre, g, m, w, one, cs);
  }

  lemma LdValueOn(text: seq<byte>, pc: int, pre: seq<Cell>, g: seq<Cell>, m: Memory, w: Width, v: Var, cs: bool)
    requires At(text, pc, LdValue(w, v)) && |g| > 0
    ensures match LoadOn(m, v.addr, w, g)
      case Broken => Exec(text, pc, At0(pre, g, m), cs) == Crash
      case Ran(_, g1) => Exec(text, pc, At0(pre, g, m), cs) == Exec(text, pc + 5, At1(pre, g1, m), cs)
  {
    var code, st := LdValue(w, v), At0(pre, g, m);
    assert text[pc] == code[0];
    assert text[pc + 1] == code[1] && text[pc + 2] == code[2] && text[pc + 3] == code[3] && text[pc + 4] == code[4];
    ToWordOfFromInt(v.addr);
    assert Get32(text, pc + 1) == v.addr;
    assert Step(text, pc, st, cs) == StepLdValue(w, text, pc + 1, st);
    if Load(m, v.addr, w).Some? {
      Pushes(text, pc, pc + 5, pre, g, m, w, Load(m, v.addr, w).value, cs);
    }
  }

  lemma LdStackOn(text: seq<byte>, pc: int, pre: seq<Cell>, g: seq<Cell>, m: Memory, w: Width, cs: bool)
    requires At(text, pc, [OpLdValueStack(w)]) && |g| > 0
    ensures match LoadOn(m, ToWord(g[0]), w, g)
      case Broken => Exec(text, pc, At1(pre, g, m), cs) == Crash
      case Ran(_, g1) => Exec(text, pc, At1(pre, g, m), cs) == Exec(text, pc + 1, At1(pre, g1, m), cs)
  {
    var st := At1(pre, g, m);
    assert text[pc] == [OpLdValueStack(w)][0];
    assert Step(text, pc, st, cs) == StepLdValueStack(w, pc + 1, st);
    assert st.stack[st.sp - 1] == g[0];
    hide Load, ToWord, Step;
    if Load(m, ToWord(g[0]), w).Some? {
      var c := SetLow(w, g[0], Load(m, ToWord(g[0]), w).value);
      assert (pre + g)[|pre| := c] == pre + g[0 := c];
    }
  }

  lemma BinInstr(text: seq<byte>, pc: int, pre: seq<Cell>, c: Cell, h: seq<Cell>, m: Memory, op: BinOp, w: Width,
                 cs: bool)
    requires At(text, pc, [OpBin(op, w)]) && |h| > 0
    ensures match BinOn(op, w, c, m, h, cs)
      case Broken => Exec(text, pc, At1(pre + [c], h, m), cs) == Crash
      case Ran(_, g1) => Exec(text, pc, At1(pre + [c], h, m), cs) == Exec(text, pc + 1, At1(pre, g1, m), cs)
  {
    hide Arith, Step, Exec;
    var st := At1(pre + [c], h, m);
    assert text[pc] == [OpBin(op, w)][0];
    StepOfBin(text, pc, st, op, w, cs);
    assert st.stack[st.sp - 2] == c && st.stack[st.sp - 1] == h[0];
    if Arith(op, w, c, h[0], cs).Some? {
      var x := SetLow(w, c, Arith(op, w, c, h[0], cs).value);
      assert (pre + [c] + h)[|pre| := x] == pre + ([x] + h);
    }
  }

  lemma NotInstr(text: seq<byte>, pc: int, pre: seq<Cell>, g: seq<Cell>, m: Memory, w: Width, cs: bool)
    requires At(text, pc, [OpNot(w)]) && |g| > 0
    ensures Exec(text, pc, At1(pre, g, m), cs) == Exec(text, pc + 1, At1(pre, NotOn(w, m, g, cs).g, m), cs)
  {
    var st := At1(pre, g, m);
    assert text[pc] == [OpNot(w)][0];
    assert Step(text, pc, st, cs) == StepNot(w, pc + 1, st, cs);
    hide Complement, Step;
    var x := SetLow(w, g[0], Complement(w, g[0], cs));
    assert st.stack[st.sp - 1] == g[0] && (pre + g)[|pre| := x] == pre + g[0 := x];
  }

  lemma StepOfSt(text: seq<byte>, pc: int, st: State, w: Width, cs: bool)
    requires 0 <= pc < |text| && text[pc] == OpSt(w)
    ensures match StepSt(w, pc + 1, st)
      case Fault => Exec(text, pc, st, cs) == Crash
      case Next(p, t) => Exec(text, pc, st, cs) == Exec(text, p, t, cs)
  {
    hide StepBin, StepNot, StepLd, StepLdValue, StepSt, StepPop, StepLdValueStack;
    assert Step(text, pc, st, cs) == StepSt(w, pc + 1, st);
  }

  /** A store through `a`; the cell stored stays above the stack pointer. */
  lemma StInstr(text: seq<byte>, pc: int, pre: seq<Cell>, a: Cell, h: seq<Cell>, m: Memory, w: Width, cs: bool)
    requires At(text, pc, [OpSt(w)]) && |h| > 0
    ensures match Store(m, ToWord(a), w, h[0])
      case None => Exec(text, pc, At1(pre + [a], h, m), cs) == Crash
      case Some(m1) => Exec(text, pc, At1(pre + [a], h, m), cs) == Exec(text, pc + 1, At1(pre, [a] + h, m1), cs)
  {
    hide Store, ToWord, Step, Exec;
    var st := At1(pre + [a], h, m);
    assert text[pc] == [OpSt(w)][0];
    StepOfSt(text, pc, st, w, cs);
    assert st.stack[st.sp - 2] == a && st.stack[st.sp - 1] == h[0];
    assert pre + [a] + h == pre + ([a] + h);
  }

  lemma StoreReload(text: seq<byte>, pc: int, pre: seq<Cell>, a: Cell, h: seq<Cell>, m: Memory, w: Width, cs: bool)
    requires At(text, pc, [OpSt(w)] + [OpLdValueStack(w)]) && |h| > 0
    ensures match StoreOn(w, a, m, h)
      case Broken => Exec(text, pc, At1(pre + [a], h, m), cs) == Crash
      case Ran(m1, g1) => Exec(text, pc, At1(pre + [a], h, m), cs) == Exec(text, pc + 2, At1(pre, g1, m1), cs)
  {
    hide Exec, Load, Store, ToWord;
    AtSplit(text, pc, [OpSt(w)], [OpLdValueStack(w)]);
    StInstr(text, pc, pre, a, h, m, w, cs);
    if Store(m, ToWord(a), w, h[0]).Some? {
      LdStackOn(text, pc + 1, pre, [a] + h, Store(m, ToWord(a), w, h[0]).value, w, cs);
    }
  }

  lemma BumpInstrs(text: seq<byte>, pc: int, pre: seq<Cell>, a: Cell, h: seq<Cell>, m: Memory, down: bool, v: Var,
                   cs: bool)
    requires LoadWidth(v.ty).Some? && |h| >= 2 && At(text, pc, Bump(StepOp(down), VarWidth(v), v))
    ensures match BumpOn(down, v, a, m, h, cs)
      case Broken => Exec(text, pc, At0(pre + [a], h, m), cs) == Crash
      case Ran(m1, h1) =>
        Exec(text, pc, At0(pre + [a], h, m), cs)
        == Exec(text, pc + |Bump(StepOp(down), VarWidth(v), v)|, At1(pre, [a] + h1, m1), cs)
  {
    hide Exec, Load, Store, ToWord, Arith, FromInt;
    var w, op := VarWidth(v), StepOp(down);
    AtSplit(text, pc, LdValue(w, v), LdOne(w) + ([OpBin(op, w)] + [OpSt(w)]));
    AtSplit(text, pc + 5, LdOne(w), [OpBin(op, w)] + [OpSt(w)]);
    var p := pc + 5 + |LdOne(w)|;
    AtSplit(text, p, [OpBin(op, w)], [OpSt(w)]);
    LdValueOn(text, pc, pre + [a], h, m, w, v, cs);
    if LoadOn(m, v.addr, w, h).Ran? {
      var h1 := LoadOn(m, v.addr, w, h).g;
      Regrouped(pre + [a], h1, m);
      LdOneOn(text, pc + 5, pre + [a] + [h1[0]], h1[1..], m, w, cs);
      var one := SetLow(w, h1[1], Cell(1, 0, 0, 0));
      assert h1[1..][0 := one] == [one] + h1[2..];
      BinInstr(text, p, pre + [a], h1[0], [one] + h1[2..], m, op, w, cs);
      if BinOn(op, w, h1[0], m, [one] + h1[2..], cs).Ran? {
        StInstr(text, p + 1, pre, a, BinOn(op, w, h1[0], m, [one] + h1[2..], cs).g, m, w, cs);
      }
    }
  }

  // ----------------------------------------------------------------- the code

  /** The code of `e` does in the cells what evaluating `e` over them does. */
  ghost predicate RunsOn(e: Expr, text: seq<byte>, pc: int, pre: seq<Cell>, g: seq<Cell>, m: Memory, cs: bool)
    requires Supported(e) && |g| >= Need(e) && 0 <= pc
  {
    match EvalOn(e, m, g, cs)
    case Broken => Exec(text, pc, At0(pre, g, m), cs) == Crash
    case Ran(m1, g1) => Exec(text, pc, At0(pre, g, m), cs) == Exec(text, pc + |Code(e)|, At1(pre, g1, m1), cs)
  }

  /** Every supported expression, at any mix of widths, over any memory and any old cells. */
  lemma {:induction false} RunOn(e: Expr, text: seq<byte>, pc: int, pre: seq<Cell>, g: seq<Cell>, m: Memory, cs: bool)
    requires Supported(e) && |g| >= Need(e) && At(text, pc, Code(e))
    ensures RunsOn(e, text, pc, pre, g, m, cs)
    decreases e, 1
  {
    hide Exec, Arith, Load, Store, FromInt, Complement, ToWord;
    match e {
      case CharLit(c) => LdByteOn(text, pc, pre, g, m, c, cs);
      case IntLit(x) => LdDwordOn(text, pc, pre, g, m, x, cs);
      case VarRef(v) => LdValueOn(text, pc, pre, g, m, VarWidth(v), v, cs);
      case AddrOf(v) => LdDwordOn(text, pc, pre, g, m, FromInt(v.addr), cs);
      case Deref(p) => DerefOn(e, text, pc, pre, g, m, cs);
      case Bin(op, l, r) => BinaryOn(e, text, pc, pre, g, m, cs);
      case Not(e1) => ComplementOn(e, text, pc, pre, g, m, cs);
      case Assign(v, e1) => AssignOn(e, text, pc, pre, g, m, cs);
      case AssignAt(p, e1) => AssignAtOn(e, text, pc, pre, g, m, cs);
      case PreStep(down, v) => PreStepOn(down, v, text, pc, pre, g, m, cs);
      case PostStep(down, v) => PostStepOn(down, v, text, pc, pre, g, m, cs);
    }
  }

  lemma DerefUnfold(e: Expr, m: Memory, g: seq<Cell>, cs: bool)
    requires e.Deref? && Supported(e) && |g| >= Need(e)
    ensures Supported(e.p) && Need(e.p) == Need(e) && Code(e) == Code(e.p) + [OpLdValueStack(Label(e.p))]
    ensures EvalOn(e, m, g, cs) == match EvalOn(e.p, m, g, cs)
      case Broken => Broken
      case Ran(m1, g1) => LoadOn(m1, ToWord(g1[0]), Label(e.p), g1)
  {
    hide LoadOn, ToWord;
  }

  lemma DerefOn(e: Expr, text: seq<byte>, pc: int, pre: seq<Cell>, g: seq<Cell>, m: Memory, cs: bool)
    requires e.Deref? && Supported(e) && |g| >= Need(e) && At(text, pc, Code(e))
    ensures RunsOn(e, text, pc, pre, g, m, cs)
    decreases e, 0
  {
    hide Exec, EvalOn, Code, Supported, Need, Label, LoadOn, ToWord;
    DerefUnfold(e, m, g, cs);
    AtSplit(text, pc, Code(e.p), [OpLdValueStack(Label(e.p))]);
    RunOn(e.p, text, pc, pre, g, m, cs);
    match EvalOn(e.p, m, g, cs)
    case Broken =>
    case Ran(m1, g1) => LdStackOn(text, pc + |Code(e.p)|, pre, g1, m1, Label(e.p), cs);
  }

  lemma BinUnfold(e: Expr, m: Memory, g: seq<Cell>, cs: bool)
    requires e.Bin? && Supported(e) && |g| >= Need(e)
    ensures Supported(e.l) && Supported(e.r) && Need(e.l) <= Need(e) && 1 + Need(e.r) <= Need(e)
    ensures Code(e) == Code(e.l) + (Code(e.r) + [OpBin(e.op, Label(e.l))])
    ensures EvalOn(e, m, g, cs) == match EvalOn(e.l, m, g, cs)
      case Broken => Broken
      case Ran(m1, g1) =>
        match EvalOn(e.r, m1, g1[1..], cs)
        case Broken => Broken
        case Ran(m2, h) => BinOn(e.op, Label(e.l), g1[0], m2, h, cs)
  {
    hide BinOn;
  }

  lemma BinaryOn(e: Expr, text: seq<byte>, pc: int, pre: seq<Cell>, g: seq<Cell>, m: Memory, cs: bool)
    requires e.Bin? && Supported(e) && |g| >= Need(e) && At(text, pc, Code(e))
    ensures RunsOn(e, text, pc, pre, g, m, cs)
    decreases e, 0
  {
    hide Exec, BinOn, EvalOn, Code, Supported, Need, Label;
    BinUnfold(e, m, g, cs);
    var l, r, w := e.l, e.r, Label(e.l);
    AtSplit(text, pc, Code(l), Code(r) + [OpBin(e.op, w)]);
    var p := pc + |Code(l)|;
    AtSplit(text, p, Code(r), [OpBin(e.op, w)]);
    RunOn(l, text, pc, pre, g, m, cs);
    match EvalOn(l, m, g, cs)
    case Broken =>
    case Ran(m1, g1) =>
      Regrouped(pre, g1, m1);
      RunOn(r, text, p, pre + [g1[0]], g1[1..], m1, cs);
      match EvalOn(r, m1, g1[1..], cs)
      case Broken =>
      case Ran(m2, h) => BinInstr(text, p + |Code(r)|, pre, g1[0], h, m2, e.op, w, cs);
  }

  lemma NotUnfold(e: Expr, m: Memory, g: seq<Cell>, cs: bool)
    requires e.Not? && Supported(e) && |g| >= Need(e)
    ensures Supported(e.e) && Need(e.e) == Need(e) && Code(e) == Code(e.e) + [OpNot(Label(e.e))]
    ensures EvalOn(e, m, g, cs) == match EvalOn(e.e, m, g, cs)
      case Broken => Broken
      case Ran(m1, g1) => NotOn(Label(e.e), m1, g1, cs)
  {
    hide NotOn;
  }

  lemma ComplementOn(e: Expr, text: seq<byte>, pc: int, pre: seq<Cell>, g: seq<Cell>, m: Memory, cs: bool)
    requires e.Not? && Supported(e) && |g| >= Need(e) && At(text, pc, Code(e))
    ensures RunsOn(e, text, pc, pre, g, m, cs)
    decreases e, 0
  {
    hide Exec, EvalOn, Code, Supported, Need, Label, NotOn;
    NotUnfold(e, m, g, cs);
    AtSplit(text, pc, Code(e.e), [OpNot(Label(e.e))]);
    RunOn(e.e, text, pc, pre, g, m, cs);
    match EvalOn(e.e, m, g, cs)
    case Broken =>
    case Ran(m1, g1) => NotInstr(text, pc + |Code(e.e)|, pre, g1, m1, Label(e.e), cs);
  }

  /** One level of the definitions. */
  lemma AssignUnfold(e: Expr, m: Memory, g: seq<Cell>, cs: bool)
    requires e.Assign? && Supported(e) && |g| >= Need(e)
    ensures LoadWidth(e.v.ty).Some? && Supported(e.e) && 1 + Need(e.e) == Need(e)
    ensures Code(e) == LdAddress(e.v) + (Code(e.e) + ([OpSt(VarWidth(e.v))] + [OpLdValueStack(VarWidth(e.v))]))
    ensures EvalOn(e, m, g, cs) == match EvalOn(e.e, m, g[1..], cs)
      case Broken => Broken
      case Ran(m1, h) => StoreOn(VarWidth(e.v), FromInt(e.v.addr), m1, h)
  {
    hide StoreOn, FromInt;
  }

  lemma AssignOn(e: Expr, text: seq<byte>, pc: int, pre: seq<Cell>, g: seq<Cell>, m: Memory, cs: bool)
    requires e.Assign? && Supported(e) && |g| >= Need(e) && At(text, pc, Code(e))
    ensures RunsOn(e, text, pc, pre, g, m, cs)
    decreases e, 0
  {
    hide Exec, StoreOn, FromInt, EvalOn, Code, Supported, Need;
    AssignUnfold(e, m, g, cs);
    var w, a := VarWidth(e.v), FromInt(e.v.addr);
    AtSplit(text, pc, LdAddress(e.v), Code(e.e) + ([OpSt(w)] + [OpLdValueStack(w)]));
    AtSplit(text, pc + 5, Code(e.e), [OpSt(w)] + [OpLdValueStack(w)]);
    LdDwordOn(text, pc, pre, g, m, a, cs);
    Regrouped(pre, g[0 := a], m);
    assert g[0 := a][1..] == g[1..];
    RunOn(e.e, text, pc + 5, pre + [a], g[1..], m, cs);
    match EvalOn(e.e, m, g[1..], cs)
    case Broken =>
    case Ran(m1, h) => StoreReload(text, pc + 5 + |Code(e.e)|, pre, a, h, m1, w, cs);
  }

  lemma AssignAtUnfold(e: Expr, m: Memory, g: seq<Cell>, cs: bool)
    requires e.AssignAt? && Supported(e) && |g| >= Need(e)
    ensures Supported(e.p) && Supported(e.e) && Need(e.p) <= Need(e) && 1 + Need(e.e) <= Need(e)
    ensures Code(e) == Code(e.p) + (Code(e.e) + ([OpSt(Label(e.p))] + [OpLdValueStack(Label(e.p))]))
    ensures EvalOn(e, m, g, cs) == match EvalOn(e.p, m, g, cs)
      case Broken => Broken
      case Ran(m1, g1) =>
        match EvalOn(e.e, m1, g1[1..], cs)
        case Broken => Broken
        case Ran(m2, h) => StoreOn(Label(e.p), g1[0], m2, h)
  {
    hide StoreOn;
  }

  lemma AssignAtOn(e: Expr, text: seq<byte>, pc: int, pre: seq<Cell>, g: seq<Cell>, m: Memory, cs: bool)
    requires e.AssignAt? && Supported(e) && |g| >= Need(e) && At(text, pc, Code(e))
    ensures RunsOn(e, text, pc, pre, g, m, cs)
    decreases e, 0
  {
    hide Exec, StoreOn, EvalOn, Code, Supported, Need, Label;
    AssignAtUnfold(e, m, g, cs);
    var w := Label(e.p);
    AtSplit(text, pc, Code(e.p), Code(e.e) + ([OpSt(w)] + [OpLdValueStack(w)]));
    var p := pc + |Code(e.p)|;
    AtSplit(text, p, Code(e.e), [OpSt(w)] + [OpLdValueStack(w)]);
    RunOn(e.p, text, pc, pre, g, m, cs);
    match EvalOn(e.p, m, g, cs)
    case Broken =>
    case Ran(m1, g1) =>
      Regrouped(pre, g1, m1);
      RunOn(e.e, text, p, pre + [g1[0]], g1[1..], m1, cs);
      match EvalOn(e.e, m1, g1[1..], cs)
      case Broken =>
      case Ran(m2, h) => StoreReload(text, p + |Code(e.e)|, pre, g1[0], h, m2, w, cs);
  }

  lemma PreStepOn(down: bool, v: Var, text: seq<byte>, pc: int, pre: seq<Cell>, g: seq<Cell>, m: Memory, cs: bool)
    requires LoadWidth(v.ty).Some? && |g| >= 3 && At(text, pc, Code(PreStep(down, v)))
    ensures RunsOn(PreStep(down, v), text, pc, pre, g, m, cs)
  {
    ToWordOfFromInt(v.addr);
    hide Exec, BumpOn, LoadOn, FromInt, ToWord, Bump;
    var a, b := FromInt(v.addr), Bump(StepOp(down), VarWidth(v), v);
    AtSplit(text, pc, LdAddress(v), b + [OpLdValueStack(W4)]);
    AtSplit(text, pc + 5, b, [OpLdValueStack(W4)]);
    LdDwordOn(text, pc, pre, g, m, a, cs);
    Regrouped(pre, g[0 := a], m);
    assert g[0 := a][1..] == g[1..];
    BumpInstrs(text, pc + 5, pre, a, g[1..], m, down, v, cs);
    match BumpOn(down, v, a, m, g[1..], cs)
    case Broken =>
    case Ran(m1, h) =>
      LdStackOn(text, pc + 5 + |b|, pre, [a] + h, m1, W4, cs);
      assert ([a] + h)[0] == a;
  }

  lemma PopOn(text: seq<byte>, pc: int, pre: seq<Cell>, c: Cell, g: seq<Cell>, m: Memory, cs: bool)
    requires At(text, pc, [OP_POP]) && |g| > 0
    ensures Exec(text, pc, At1(pre + [c], g, m), cs) == Exec(text, pc + 1, At1(pre, [c] + g, m), cs)
  {
    assert text[pc] == [OP_POP][0];
    assert pre + [c] + g == pre + ([c] + g);
    assert Step(text, pc, At1(pre + [c], g, m), cs) == StepPop(pc + 1, At1(pre + [c], g, m));
  }

  lemma PostStepOn(down: bool, v: Var, text: seq<byte>, pc: int, pre: seq<Cell>, g: seq<Cell>, m: Memory, cs: bool)
    requires LoadWidth(v.ty).Some? && |g| >= 4 && At(text, pc, Code(PostStep(down, v)))
    ensures RunsOn(PostStep(down, v), text, pc, pre, g, m, cs)
  {
    hide Exec, BumpOn, LoadOn, FromInt, ToWord, Bump;
    var w, a, b := VarWidth(v), FromInt(v.addr), Bump(StepOp(down), VarWidth(v), v);
    AtSplit(text, pc, LdValue(w, v), LdAddress(v) + (b + [OP_POP]));
    AtSplit(text, pc + 5, LdAddress(v), b + [OP_POP]);
    AtSplit(text, pc + 10, b, [OP_POP]);
    LdValueOn(text, pc, pre, g, m, w, v, cs);
    match LoadOn(m, v.addr, w, g)
    case Broken =>
    case Ran(_, g1) =>
      Regrouped(pre, g1, m);
      LdDwordOn(text, pc + 5, pre + [g1[0]], g1[1..], m, a, cs);
      Regrouped(pre + [g1[0]], g1[1..][0 := a], m);
      assert g1[1..][0 := a][1..] == g1[2..];
      BumpInstrs(text, pc + 10, pre + [g1[0]], a, g1[2..], m, down, v, cs);
      match BumpOn(down, v, a, m, g1[2..], cs)
      case Broken =>
      case Ran(m1, h) =>
        PopOn(text, pc + 10 + |b|, pre, g1[0], [a] + h, m1, cs);
        assert [g1[0]] + ([a] + h) == [g1[0], a] + h;
  }

  // --------------------------------------------------- when widths are safe

  /** Evaluation over old cells is plain evaluation, in the bytes that the expression determines. */
  ghost predicate Tracks(e: Expr, m: Memory, g: seq<Cell>, cs: bool)
    requires Supported(e) && |g| >= Need(e)
  {
    match Eval(e, m, cs)
    case Undefined => EvalOn(e, m, g, cs).Broken?
    case Defined(c, m1) =>
      EvalOn(e, m, g, cs).Ran? && EvalOn(e, m, g, cs).m == m1
      && Low(Valid(e), EvalOn(e, m, g, cs).g[0]) == Low(Valid(e), c)
  }

  /** If no operator reads more of an operand than was written, the old contents of the cells do not matter. */
  lemma {:induction false} SafeOn(e: Expr, m: Memory, g: seq<Cell>, cs: bool)
    requires Supported(e) && WidthSafe(e) && VarsMapped(e, m) && |g| >= Need(e)
    ensures Tracks(e, m, g, cs)
    decreases e, 1
  {
    hide Tracks, EvalOn, Eval, WidthSafe, Valid;
    match e {
      case CharLit(_) => SafeLeaf(e, m, g, cs);
      case IntLit(_) => SafeLeaf(e, m, g, cs);
      case VarRef(_) => SafeLeaf(e, m, g, cs);
      case AddrOf(_) => SafeLeaf(e, m, g, cs);
      case Deref(_) => SafeDeref(e, m, g, cs);
      case Bin(_, _, _) => SafeBin(e, m, g, cs);
      case Not(_) => SafeNot(e, m, g, cs);
      case Assign(_, _) => SafeAssign(e, m, g, cs);
      case AssignAt(_, _) => SafeAssignAt(e, m, g, cs);
      case PreStep(down, v) => SafePreStep(down, v, m, g, cs);
      case PostStep(down, v) => SafePostStep(down, v, m, g, cs);
    }
  }

  lemma SafeLeaf(e: Expr, m: Memory, g: seq<Cell>, cs: bool)
    requires (e.CharLit? || e.IntLit? || e.VarRef? || e.AddrOf?) && Supported(e) && VarsMapped(e, m) && |g| > 0
    ensures Tracks(e, m, g, cs)
  {
    hide Load, FromInt;
  }

  lemma SafeDeref(e: Expr, m: Memory, g: seq<Cell>, cs: bool)
    requires e.Deref? && Supported(e) && WidthSafe(e) && VarsMapped(e, m) && |g| >= Need(e)
    ensures Tracks(e, m, g, cs)
    decreases e, 0
  {
    hide Load, ToWord;
    SafeOn(e.p, m, g, cs);
  }

  lemma SafeNot(e: Expr, m: Memory, g: seq<Cell>, cs: bool)
    requires e.Not? && Supported(e) && WidthSafe(e) && VarsMapped(e, m) && |g| >= Need(e)
    ensures Tracks(e, m, g, cs)
    decreases e, 0
  {
    hide Arith, Complement;
    var e1 := e.e;
    SafeOn(e1, m, g, cs);
    if Eval(e1, m, cs).Defined? {
      var c, g1, w := Eval(e1, m, cs).c, EvalOn(e1, m, g, cs).g, Label(e1);
      NarrowLow(w, Valid(e1), g1[0], c);
      ArithOfLow(Add, w, g1[0], g1[0], cs);
      ArithOfLow(Add, w, c, c, cs);
    }
  }

  lemma SafeAssign(e: Expr, m: Memory, g: seq<Cell>, cs: bool)
    requires e.Assign? && Supported(e) && WidthSafe(e) && VarsMapped(e, m) && |g| >= Need(e)
    ensures Tracks(e, m, g, cs)
    decreases e, 0
  {
    hide Load, Store, FromInt, ToWord;
    var v, e1 := e.v, e.e;
    SafeOn(e1, m, g[1..], cs);
    if Eval(e1, m, cs).Defined? {
      SafeStore(VarWidth(v), FromInt(v.addr), v.addr, Eval(e1, m, cs).m, EvalOn(e1, m, g[1..], cs).g, Eval(e1, m, cs).c,
        Valid(e1));
    }
  }

  lemma BinMeaning(e: Expr, m: Memory, cs: bool)
    requires e.Bin? && Supported(e) && WidthSafe(e) && VarsMapped(e, m)
    ensures WidthSafe(e.l) && WidthSafe(e.r) && VarsMapped(e.l, m) && VarsMapped(e.r, m)
    ensures Label(e.l).Bytes() <= Valid(e.l).Bytes() && Label(e.l).Bytes() <= Valid(e.r).Bytes()
      && Valid(e) == Label(e.l)
    ensures Eval(e, m, cs) == match Eval(e.l, m, cs)
      case Undefined => Undefined
      case Defined(c, m1) =>
        match Eval(e.r, m1, cs)
        case Undefined => Undefined
        case Defined(d, m2) =>
          match Arith(e.op, Label(e.l), c, d, cs)
          case None => Undefined
          case Some(x) => Defined(Low(Label(e.l), x), m2)
  {
    hide Arith;
  }

  lemma SafeBin(e: Expr, m: Memory, g: seq<Cell>, cs: bool)
    requires e.Bin? && Supported(e) && WidthSafe(e) && VarsMapped(e, m) && |g| >= Need(e)
    ensures Tracks(e, m, g, cs)
    decreases e, 0
  {
    hide Arith, EvalOn, Eval, Code, Supported, Need, Label, Valid, WidthSafe, VarsMapped;
    BinUnfold(e, m, g, cs);
    BinMeaning(e, m, cs);
    var l, r, w := e.l, e.r, Label(e.l);
    SafeOn(l, m, g, cs);
    if Eval(l, m, cs).Defined? {
      var c, m1, g1 := Eval(l, m, cs).c, Eval(l, m, cs).m, EvalOn(l, m, g, cs).g;
      EvalKeepsKeys(l, m, cs);
      MappedOfKeys(r, m, m1);
      SafeOn(r, m1, g1[1..], cs);
      if Eval(r, m1, cs).Defined? {
        var d, h := Eval(r, m1, cs).c, EvalOn(r, m1, g1[1..], cs).g;
        NarrowLow(w, Valid(l), g1[0], c);
        NarrowLow(w, Valid(r), h[0], d);
        ArithOfLow(e.op, w, g1[0], h[0], cs);
        ArithOfLow(e.op, w, c, d, cs);
      }
    }
  }

  /** A store of a cell whose low bytes are right, and the reload. */
  lemma SafeStore(w: Width, a: Cell, addr: word, m: Memory, h: seq<Cell>, c: Cell, v: Width)
    requires |h| > 0 && w.Bytes() <= v.Bytes() && Low(v, h[0]) == Low(v, c) && (a == FromInt(addr) || ToWord(a) == addr)
    ensures match EvalStore(m, addr, w, c)
      case Undefined => StoreOn(w, a, m, h).Broken?
      case Defined(d, m1) =>
        StoreOn(w, a, m, h).Ran? && StoreOn(w, a, m, h).m == m1 && Low(w, StoreOn(w, a, m, h).g[0]) == Low(w, d)
  {
    ToWordOfFromInt(addr);
    NarrowLow(w, v, h[0], c);
    StoreOfLow(m, addr, w, h[0], c);
    hide FromInt, ToWord;
    if Mapped(m, addr, w) {
      LoadOfStore(m, addr, w, c);
    }
  }

  lemma AssignAtMeaning(e: Expr, m: Memory, cs: bool)
    requires e.AssignAt? && Supported(e) && WidthSafe(e) && VarsMapped(e, m)
    ensures WidthSafe(e.p) && WidthSafe(e.e) && VarsMapped(e.p, m) && VarsMapped(e.e, m)
    ensures Label(e.p).Bytes() <= Valid(e.e).Bytes() && Valid(e.p) == W4 && Valid(e) == Label(e.p)
    ensures Eval(e, m, cs) == match Eval(e.p, m, cs)
      case Undefined => Undefined
      case Defined(a, m1) =>
        match Eval(e.e, m1, cs)
        case Undefined => Undefined
        case Defined(c, m2) => EvalStore(m2, ToWord(a), Label(e.p), c)
  {
    hide EvalStore, ToWord;
  }

  lemma SafeAssignAt(e: Expr, m: Memory, g: seq<Cell>, cs: bool)
    requires e.AssignAt? && Supported(e) && WidthSafe(e) && VarsMapped(e, m) && |g| >= Need(e)
    ensures Tracks(e, m, g, cs)
    decreases e, 0
  {
    hide StoreOn, EvalStore, ToWord, EvalOn, Eval, Code, Supported, Need, Label, Valid, WidthSafe, VarsMapped;
    AssignAtUnfold(e, m, g, cs);
    AssignAtMeaning(e, m, cs);
    SafeOn(e.p, m, g, cs);
    if Eval(e.p, m, cs).Defined? {
      var a, m1, g1 := Eval(e.p, m, cs).c, Eval(e.p, m, cs).m, EvalOn(e.p, m, g, cs).g;
      EvalKeepsKeys(e.p, m, cs);
      MappedOfKeys(e.e, m, m1);
      SafeOn(e.e, m1, g1[1..], cs);
      if Eval(e.e, m1, cs).Defined? {
        SafeStore(Label(e.p), g1[0], ToWord(a), Eval(e.e, m1, cs).m, EvalOn(e.e, m1, g1[1..], cs).g,
          Eval(e.e, m1, cs).c, Valid(e.e));
      }
    }
  }

  /** The increment of a variable in memory, whatever the cells hold. */
  lemma SafeBump(down: bool, v: Var, m: Memory, h: seq<Cell>, cs: bool)
    requires LoadWidth(v.ty).Some? && Mapped(m, v.addr, W4) && |h| >= 2
    ensures EvalLoad(m, v.addr, VarWidth(v)).Defined?
    ensures var w := VarWidth(v); var d := Stepped(down, w, EvalLoad(m, v.addr, w).c, cs);
      var r := BumpOn(down, v, FromInt(v.addr), m, h, cs);
      r.Ran? && EvalStore(m, v.addr, w, d) == Defined(Low(w, d), r.m)
  {
    var w := VarWidth(v);
    LoadsOfMapped(m, v.addr, w);
    ToWordOfFromInt(v.addr);
    var c := Load(m, v.addr, w).value;
    SteppedIsArith(down, w, c, cs);
    hide FromInt, ToWord, Arith, Load, Store, Stepped;
    var x, one := SetLow(w, h[0], c), SetLow(w, h[1], Cell(1, 0, 0, 0));
    ArithOfLow(StepOp(down), w, x, one, cs);
    ArithOfLow(StepOp(down), w, c, Cell(1, 0, 0, 0), cs);
    assert Low(w, x) == Low(w, c) && Low(w, one) == Low(w, Cell(1, 0, 0, 0));
    var d := Stepped(down, w, c, cs);
    StoreOfLow(m, v.addr, w, SetLow(w, x, d), d);
    LoadOfStore(m, v.addr, w, d);
  }

  lemma SafePreStep(down: bool, v: Var, m: Memory, g: seq<Cell>, cs: bool)
    requires LoadWidth(v.ty).Some? && Mapped(m, v.addr, W4) && |g| >= 3
    ensures Tracks(PreStep(down, v), m, g, cs)
  {
    hide BumpOn, FromInt, Stepped, Store;
    var w := VarWidth(v);
    SafeBump(down, v, m, g[1..], cs);
    var d := Stepped(down, w, EvalLoad(m, v.addr, w).c, cs);
    LoadOfStore(m, v.addr, w, d);
    var m1 := BumpOn(down, v, FromInt(v.addr), m, g[1..], cs).m;
    assert m1 == Store(m, v.addr, w, d).value;
    assert forall i :: i in m <==> i in m1;
    LoadsOfMapped(m1, v.addr, W4);
    assert Low(w, Load(m1, v.addr, W4).value) == Load(m1, v.addr, w).value;
  }

  lemma SafePostStep(down: bool, v: Var, m: Memory, g: seq<Cell>, cs: bool)
    requires LoadWidth(v.ty).Some? && Mapped(m, v.addr, W4) && |g| >= 4
    ensures Tracks(PostStep(down, v), m, g, cs)
  {
    hide BumpOn, FromInt, Stepped, Store, Load;
    LoadsOfMapped(m, v.addr, VarWidth(v));
    SafeBump(down, v, m, LoadOn(m, v.addr, VarWidth(v), g).g[2..], cs);
  }

  /** Semantic preservation: with safe widths the code computes the value and the memory of the expression. */
  lemma RunExpr(e: Expr, text: seq<byte>, pc: int, st: State, cs: bool) returns (s: State)
    requires Supported(e) && WidthSafe(e) && VarsMapped(e, st.mem)
    requires At(text, pc, Code(e)) && 0 <= st.sp && st.sp + Need(e) <= |st.stack|
    ensures Agrees(e, text, pc, st, cs, s)
  {
    hide Exec, EvalOn, Eval, Code, Need, Valid, Supported, WidthSafe;
    var pre, g := st.stack[..st.sp], st.stack[st.sp..];
    assert pre + g == st.stack;
    RunOn(e, text, pc, pre, g, st.mem, cs);
    SafeOn(e, st.mem, g, cs);
    s := st;
    if Eval(e, st.mem, cs).Defined? {
      s := At1(pre, EvalOn(e, st.mem, g, cs).g, EvalOn(e, st.mem, g, cs).m);
    }
  }
}
