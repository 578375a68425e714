/**
 The expression compiler of the finsh shell: node attributes (`finsh_type_check`), code
 generation (`finsh_compile`) and the meaning of the source expressions.
 */
module FinshCompiler {
  import opened FinshMachine
  import opened Words

  // ------------------------------------------------------------------ nodes

  /** enum finsh_type. */
  datatype VarType =
    | TUnknown | TVoid | TVoidp
    | TChar | TUchar | TCharp
    | TShort | TUshort | TShortp
    | TInt | TUint | TIntp
    | TLong | TUlong | TLongp

  /** A shell variable: the address of its value union and its declared type. */
  datatype Var = Var(addr: word, ty: VarType)

  datatype Kind =
    | Id
    | ValueChar | ValueInt | ValueLong | ValueString | ValueNull
    | SysBin(op: BinOp) | SysBitwise
    | SysAssign
    | SysPreInc | SysPreDec | SysInc | SysDec
    | SysGetValue | SysGetAddr
    | SysNull | Unknown

  /** FINSH_DATA_TYPE_VOID or a width. */
  datatype DataType = Void | Sized(w: Width)

  /** struct finsh_node; `addressed` is the FINSH_IDTYPE_ADDRESS flag. */
  datatype Node =
    | Nil
    | Node(kind: Kind, addressed: bool, dataType: DataType, value: Cell, id: Var, child: Node, sibling: Node)

  /** The data type that the type check gives an identifier. */
  function TypeOfVar(ty: VarType, before: DataType): (d: DataType) {
    match ty
    case TUnknown => before
    case TVoid => Void
    case TChar | TUchar => Sized(W1)
    case TShort | TUshort => Sized(W2)
    case _ => Sized(W4)
  }

  /** The width the code generator loads an identifier with; it has no case for void and void *. */
  function LoadWidth(ty: VarType): (w: Option<Width>) {
    match ty
    case TUnknown | TVoid | TVoidp => None
    case TChar | TUchar => Some(W1)
    case TShort | TUshort => Some(W2)
    case _ => Some(W4)
  }

  // ------------------------------------------------------------- type check

  /** Whether the first child of a node is checked as an address. */
  predicate ChildAddressed(kind: Kind, isAddr: bool) {
    match kind
    case SysAssign | SysPreInc | SysPreDec | SysGetAddr => true
    case SysGetValue => false
    case _ => isAddr
  }

  /** finsh_type_check: the tree with its attributes filled in. */
  function TypeCheck(n: Node, isAddr: bool): (r: Node) {
    if n.Nil? then Nil
    else
      var child := TypeCheck(n.child, ChildAddressed(n.kind, isAddr));
      var sibling := TypeCheck(n.sibling, false);
      var dataType :=
        if child.Node? then child.dataType
        else match n.kind
          case Id => TypeOfVar(n.id.ty, n.dataType)
          case ValueChar => Sized(W1)
          case ValueInt | ValueLong | ValueString | ValueNull => Sized(W4)
          case _ => n.dataType;
      n.(addressed := n.addressed || isAddr, dataType := dataType, child := child, sibling := sibling)
  }

  // -------------------------------------------------------- code generation

  /** FINSH_SET32 of a value. */
  function Operand(c: Cell): (s: seq<byte>)
    ensures |s| == 4
  {
    [c.b0, c.b1, c.b2, c.b3]
  }

  function LdDword(c: Cell): (s: seq<byte>) { [OpLd(W4)] + Operand(c) }
  function LdAddress(v: Var): (s: seq<byte>) { LdDword(FromInt(v.addr)) }
  function LdValue(w: Width, v: Var): (s: seq<byte>) { [OpLdValue(w)] + Operand(FromInt(v.addr)) }

  /** ld_byte 1, ld_word 1 or ld_dword 1. */
  function LdOne(w: Width): (s: seq<byte>) {
    match w
    case W1 => [OpLd(W1), 1]
    case W2 => [OpLd(W2), 1, 0]
    case W4 => [OpLd(W4), 1, 0, 0, 0]
  }

  /** Load the variable, add or subtract one, store through the address below. */
  function Bump(op: BinOp, w: Width, v: Var): (s: seq<byte>) {
    LdValue(w, v) + (LdOne(w) + ([OpBin(op, w)] + [OpSt(w)]))
  }

  function EmitPre(op: BinOp, n: Node): (s: seq<byte>)
    requires n.Node?
  {
    if n.child.Nil? || n.child.kind != Id || n.dataType.Void? then []
    else Bump(op, n.dataType.w, n.child.id) + [OpLdValueStack(W4)]
  }

  function EmitPost(op: BinOp, n: Node): (s: seq<byte>)
    requires n.Node?
  {
    if n.child.Nil? || n.child.kind != Id || n.dataType.Void? then []
    else LdAddress(n.child.id) + (Bump(op, n.dataType.w, n.child.id) + [OP_POP])
  }

  /** The code of the node itself, emitted between its children and its siblings. */
  function EmitOwn(n: Node): (s: seq<byte>)
    requires n.Node?
  {
    match n.kind
    case Id =>
      (match LoadWidth(n.id.ty)
       case None => []
       case Some(w) => if n.addressed then LdAddress(n.id) else LdValue(w, n.id))
    case ValueChar => [OpLd(W1), n.value.b0]
    case ValueInt | ValueLong | ValueString | ValueNull => LdDword(n.value)
    case SysBin(op) => if n.dataType.Void? then [] else [OpBin(op, n.dataType.w)]
    case SysBitwise => if n.dataType.Void? then [] else [OpNot(n.dataType.w)]
    case SysAssign =>
      if n.child.Node? && (n.child.kind == Id || n.child.kind == SysGetValue) && n.child.dataType.Sized?
      then [OpSt(n.child.dataType.w)] + [OpLdValueStack(n.child.dataType.w)]
      else []
    case SysPreInc => EmitPre(Add, n)
    case SysPreDec => EmitPre(Sub, n)
    case SysInc => EmitPost(Add, n)
    case SysDec => EmitPost(Sub, n)
    case SysGetValue => if n.addressed || n.dataType.Void? then [] else [OpLdValueStack(n.dataType.w)]
    case SysGetAddr => []
    case SysNull => [0, 0, 0, 0]
    case Unknown => []
  }

  /** finsh_compile: children, the node itself, siblings. */
  function Emit(n: Node): (s: seq<byte>) {
    if n.Nil? then [] else Emit(n.child) + EmitOwn(n) + Emit(n.sibling)
  }

  /** finsh_compiler_run on a checked list of statements: every value but the last is popped. */
  function EmitAll(n: Node): (s: seq<byte>) {
    if n.Nil? then []
    else Emit(n.(sibling := Nil)) + (if n.sibling.Nil? then [] else [OP_POP] + EmitAll(n.sibling))
  }

  // -------------------------------------------------------------- expressions

  /** Source expressions; `-e` is `Bin(Sub, IntLit(0), e)`, as the parser builds it. */
  datatype Expr =
    | CharLit(c: byte)
    | IntLit(x: Cell)
    | VarRef(v: Var)
    | AddrOf(v: Var)
    | Deref(p: Expr)
    | Bin(op: BinOp, l: Expr, r: Expr)
    | Not(e: Expr)
    | Assign(v: Var, e: Expr)
    | AssignAt(p: Expr, e: Expr)
    | PreStep(down: bool, v: Var)
    | PostStep(down: bool, v: Var)

  const NO_VAR := Var(0, TUnknown)

  function Leaf(kind: Kind, value: Cell, id: Var, sibling: Node): (n: Node) {
    Node(kind, false, Void, value, id, Nil, sibling)
  }

  function Inner(kind: Kind, child: Node, sibling: Node): (n: Node) {
    Node(kind, false, Void, ZERO_CELL, NO_VAR, child, sibling)
  }

  /** The tree that `make_sys_node` and the leaf constructors of the parser build. */
  function Tree(e: Expr, sibling: Node): (n: Node) {
    match e
    case CharLit(c) => Leaf(ValueChar, Cell(c, 0, 0, 0), NO_VAR, sibling)
    case IntLit(x) => Leaf(ValueLong, x, NO_VAR, sibling)
    case VarRef(v) => Leaf(Id, ZERO_CELL, v, sibling)
    case AddrOf(v) => Inner(SysGetAddr, Leaf(Id, ZERO_CELL, v, Nil), sibling)
    case Deref(p) => Inner(SysGetValue, Tree(p, Nil), sibling)
    case Bin(op, l, r) => Inner(SysBin(op), Tree(l, Tree(r, Nil)), sibling)
    case Not(e1) => Inner(SysBitwise, Tree(e1, Nil), sibling)
    case Assign(v, e1) => Inner(SysAssign, Leaf(Id, ZERO_CELL, v, Tree(e1, Nil)), sibling)
    case AssignAt(p, e1) => Inner(SysAssign, Inner(SysGetValue, Tree(p, Nil), Tree(e1, Nil)), sibling)
    case PreStep(down, v) => Inner(if down then SysPreDec else SysPreInc, Leaf(Id, ZERO_CELL, v, Nil), sibling)
    case PostStep(down, v) => Inner(if down then SysDec else SysInc, Leaf(Id, ZERO_CELL, v, Nil), sibling)
  }

  function StatementTree(es: seq<Expr>): (n: Node) {
    if es == [] then Nil else Tree(es[0], StatementTree(es[1..]))
  }

  /** The variables are of types the code generator has a case for. */
  predicate Supported(e: Expr) {
    match e
    case CharLit(_) | IntLit(_) => true
    case VarRef(v) => LoadWidth(v.ty).Some?
    case AddrOf(v) => LoadWidth(v.ty).Some?
    case Deref(p) => Supported(p)
    case Bin(_, l, r) => Supported(l) && Supported(r)
    case Not(e1) => Supported(e1)
    case Assign(v, e1) => LoadWidth(v.ty).Some? && Supported(e1)
    case AssignAt(p, e1) => Supported(p) && Supported(e1)
    case PreStep(_, v) => LoadWidth(v.ty).Some?
    case PostStep(_, v) => LoadWidth(v.ty).Some?
  }

  function VarWidth(v: Var): (w: Width)
    requires LoadWidth(v.ty).Some?
  {
    LoadWidth(v.ty).value
  }

  /** The width an operator above `e` works at: that of the leftmost leaf. */
  function Label(e: Expr): (w: Width)
    requires Supported(e)
  {
    match e
    case CharLit(_) => W1
    case IntLit(_) => W4
    case VarRef(v) => VarWidth(v)
    case AddrOf(v) => VarWidth(v)
    case Deref(p) => Label(p)
    case Bin(_, l, _) => Label(l)
    case Not(e1) => Label(e1)
    case Assign(v, _) => VarWidth(v)
    case AssignAt(p, _) => Label(p)
    case PreStep(_, v) => VarWidth(v)
    case PostStep(_, v) => VarWidth(v)
  }

  /** How many low bytes of the cell that `e` leaves are determined by `e`. */
  function Valid(e: Expr): (w: Width)
    requires Supported(e)
    ensures Label(e).Bytes() <= w.Bytes()
  {
    if e.AddrOf? then W4 else Label(e)
  }

  /** No operator reads a byte of an operand that the operand did not write. */
  predicate WidthSafe(e: Expr)
    requires Supported(e)
  {
    match e
    case CharLit(_) | IntLit(_) | VarRef(_) | AddrOf(_) | PreStep(_, _) | PostStep(_, _) => true
    case Deref(p) => WidthSafe(p) && Valid(p) == W4
    case Bin(_, l, r) => WidthSafe(l) && WidthSafe(r) && Label(l).Bytes() <= Valid(r).Bytes()
    case Not(e1) => WidthSafe(e1)
    case Assign(v, e1) => WidthSafe(e1) && VarWidth(v).Bytes() <= Valid(e1).Bytes()
    case AssignAt(p, e1) =>
      WidthSafe(p) && WidthSafe(e1) && Valid(p) == W4 && Label(p).Bytes() <= Valid(e1).Bytes()
  }

  /** The whole value union of every variable of `e` is in memory. */
  predicate VarsMapped(e: Expr, m: Memory) {
    match e
    case CharLit(_) | IntLit(_) => true
    case VarRef(v) => Mapped(m, v.addr, W4)
    case AddrOf(v) => Mapped(m, v.addr, W4)
    case Deref(p) => VarsMapped(p, m)
    case Bin(_, l, r) => VarsMapped(l, m) && VarsMapped(r, m)
    case Not(e1) => VarsMapped(e1, m)
    case Assign(v, e1) => Mapped(m, v.addr, W4) && VarsMapped(e1, m)
    case AssignAt(p, e1) => VarsMapped(p, m) && VarsMapped(e1, m)
    case PreStep(_, v) => Mapped(m, v.addr, W4)
    case PostStep(_, v) => Mapped(m, v.addr, W4)
  }

  // ----------------------------------------------------------------- meaning

  /** A value and the memory after evaluation, or undefined behaviour. */
  datatype Meaning = Undefined | Defined(c: Cell, m: Memory)

  function StepOp(down: bool): (op: BinOp) { if down then Sub else Add }

  /** Left-to-right evaluation. Only the low `Valid(e)` bytes of the value are significant; the rest are zero. */
  function Eval(e: Expr, m: Memory, charSigned: bool): (r: Meaning)
    requires Supported(e)
  {
    match e
    case CharLit(c) => Defined(Cell(c, 0, 0, 0), m)
    case IntLit(x) => Defined(x, m)
    case VarRef(v) => EvalLoad(m, v.addr, VarWidth(v))
    case AddrOf(v) => Defined(FromInt(v.addr), m)
    case Deref(p) =>
      (match Eval(p, m, charSigned)
       case Undefined => Undefined
       case Defined(c, m1) => EvalLoad(m1, ToWord(c), Label(p)))
    case Bin(op, l, r) =>
      (match Eval(l, m, charSigned)
       case Undefined => Undefined
       case Defined(c, m1) =>
         match Eval(r, m1, charSigned)
         case Undefined => Undefined
         case Defined(d, m2) =>
           match Arith(op, Label(l), c, d, charSigned)
           case None => Undefined
           case Some(x) => Defined(Low(Label(l), x), m2))
    case Not(e1) =>
      (match Eval(e1, m, charSigned)
       case Undefined => Undefined
       case Defined(c, m1) => Defined(Low(Label(e1), Complement(Label(e1), c, charSigned)), m1))
    case Assign(v, e1) =>
      (match Eval(e1, m, charSigned)
       case Undefined => Undefined
       case Defined(c, m1) => EvalStore(m1, v.addr, VarWidth(v), c))
    case AssignAt(p, e1) =>
      (match Eval(p, m, charSigned)
       case Undefined => Undefined
       case Defined(a, m1) =>
         match Eval(e1, m1, charSigned)
         case Undefined => Undefined
         case Defined(c, m2) => EvalStore(m2, ToWord(a), Label(p), c))
    case PreStep(down, v) =>
      (match EvalLoad(m, v.addr, VarWidth(v))
       case Undefined => Undefined
       case Defined(c, _) => EvalStore(m, v.addr, VarWidth(v), Stepped(down, VarWidth(v), c, charSigned)))
    case PostStep(down, v) =>
      (match EvalLoad(m, v.addr, VarWidth(v))
       case Undefined => Undefined
       case Defined(c, _) =>
         match EvalStore(m, v.addr, VarWidth(v), Stepped(down, VarWidth(v), c, charSigned))
         case Undefined => Undefined
         case Defined(_, m1) => Defined(c, m1))
  }

  /** One more or one less. */
  function Stepped(down: bool, w: Width, c: Cell, charSigned: bool): (d: Cell) {
    FromInt(Value(w, c, charSigned) + if down then -1 else 1)
  }

  function EvalLoad(m: Memory, a: int, w: Width): (r: Meaning) {
    match Load(m, a, w)
    case None => Undefined
    case Some(c) => Defined(c, m)
  }

  /** An assignment of width `w` has the stored bytes as its value. */
  function EvalStore(m: Memory, a: int, w: Width, c: Cell): (r: Meaning) {
    match Store(m, a, w, c)
    case None => Undefined
    case Some(m1) => Defined(Low(w, c), m1)
  }

  /** Statements run in order; the value is that of the last. */
  function EvalAll(es: seq<Expr>, m: Memory, charSigned: bool): (r: Meaning)
    requires es != []
    requires forall e :: e in es ==> Supported(e)
  {
    match Eval(es[0], m, charSigned)
    case Undefined => Undefined
    case Defined(c, m1) => if |es| == 1 then Defined(c, m1) else EvalAll(es[1..], m1, charSigned)
  }

  // ------------------------------------------------------ laws of the meaning

  /** After an assignment the variable holds the low bytes of what was assigned, and nothing else has changed. */
  lemma AssignedIsRead(v: Var, e: Expr, m: Memory, charSigned: bool)
    requires Supported(Assign(v, e)) && Eval(e, m, charSigned).Defined? && Mapped(m, v.addr, W4)
    requires Eval(e, m, charSigned).m.Keys == m.Keys
    ensures var d, r, w := Eval(e, m, charSigned), Eval(Assign(v, e), m, charSigned), VarWidth(v);
      && r.Defined? && r.c == Low(w, d.c) && Eval(VarRef(v), r.m, charSigned) == Defined(r.c, r.m)
      && r.m.Keys == m.Keys && forall i :: i in m && !(v.addr <= i < v.addr + w.Bytes()) ==> r.m[i] == d.m[i]
  {
    LoadOfStore(Eval(e, m, charSigned).m, v.addr, VarWidth(v), Eval(e, m, charSigned).c);
    hide Load, Store;
  }

  /**
   A step leaves the variable one up or one down, in whatever bits its width has: the prefix form has the new value
   and the postfix form the old one.
   */
  lemma StepsByOne(down: bool, v: Var, m: Memory, charSigned: bool, k: nat)
    requires LoadWidth(v.ty).Some? && Mapped(m, v.addr, W4) && k < 8 * VarWidth(v).Bytes()
    ensures var was, pre, post := Eval(VarRef(v), m, charSigned), Eval(PreStep(down, v), m, charSigned),
                                  Eval(PostStep(down, v), m, charSigned);
      && was.Defined? && pre.Defined? && post == Defined(was.c, pre.m)
      && Eval(VarRef(v), pre.m, charSigned) == Defined(pre.c, pre.m)
      && (Bit(ToWord(pre.c), k) <==> Bit(Value(VarWidth(v), was.c, charSigned) + if down then -1 else 1, k))
      && forall i :: i in m && !(v.addr <= i < v.addr + VarWidth(v).Bytes()) ==> i in pre.m && pre.m[i] == m[i]
  {
    hide Bit, Eval, Load, Store, FromInt, Value, ToWord, Low;
    var w := VarWidth(v);
    LoadsOfMapped(m, v.addr, w);
    var c := Load(m, v.addr, w).value;
    var n := Value(w, c, charSigned) + if down then -1 else 1;
    var d := FromInt(n);
    StepUnfold(down, v, m, charSigned, c);
    LoadOfStore(m, v.addr, w, d);
    VarUnfold(v, m, charSigned);
    VarUnfold(v, Store(m, v.addr, w, d).value, charSigned);
    FromIntBit(n, k);
    LowBit(w, d, k);
  }

  lemma VarUnfold(v: Var, m: Memory, charSigned: bool)
    requires LoadWidth(v.ty).Some?
    ensures Eval(VarRef(v), m, charSigned) == EvalLoad(m, v.addr, VarWidth(v))
  {
  }

  lemma StepUnfold(down: bool, v: Var, m: Memory, charSigned: bool, c: Cell)
    requires LoadWidth(v.ty).Some? && Load(m, v.addr, VarWidth(v)) == Some(c)
    ensures var w := VarWidth(v); var d := FromInt(Value(w, c, charSigned) + if down then -1 else 1);
      && Eval(PreStep(down, v), m, charSigned) == EvalStore(m, v.addr, w, d)
      && Eval(PostStep(down, v), m, charSigned) ==
         if Store(m, v.addr, w, d).None? then Undefined else Defined(c, Store(m, v.addr, w, d).value)
  {
    hide Load, Store, FromInt, Value;
  }

  lemma LowBit(w: Width, c: Cell, k: nat)
    requires k < 8 * w.Bytes()
    ensures Bit(ToWord(Low(w, c)), k) <==> Bit(ToWord(c), k)
  {
    hide Bit, ToWord;
    CellBit(Low(w, c), k);
    CellBit(c, k);
  }

  /** Going through the address of a variable is the variable. */
  lemma ThroughAddress(v: Var, e: Expr, m: Memory, charSigned: bool)
    requires LoadWidth(v.ty).Some? && Supported(e)
    ensures Eval(Deref(AddrOf(v)), m, charSigned) == Eval(VarRef(v), m, charSigned)
    ensures Eval(AssignAt(AddrOf(v), e), m, charSigned) == Eval(Assign(v, e), m, charSigned)
  {
    ToWordOfFromInt(v.addr);
    hide ToWord, FromInt, Load, Store;
  }

  /** An operator on two literals is the operator on their values, in that order. */
  lemma OnLiterals(op: BinOp, x: Cell, y: Cell, m: Memory, charSigned: bool)
    ensures Eval(Bin(op, IntLit(x), IntLit(y)), m, charSigned) ==
      match Arith(op, W4, x, y, charSigned)
      case None => Undefined
      case Some(r) => Defined(r, m)
  {
    hide Arith;
  }

  /** The left operand comes first: `v - ++v` is -1 for every 32-bit variable, whatever it holds. */
  lemma LeftComesFirst(v: Var, m: Memory, charSigned: bool)
    requires LoadWidth(v.ty) == Some(W4) && Mapped(m, v.addr, W4)
    ensures var r := Eval(Bin(Sub, VarRef(v), PreStep(false, v)), m, charSigned);
      r.Defined? && r.c == FromInt(-1)
  {
    hide Load, Store, FromInt, Value;
    LoadsOfMapped(m, v.addr, W4);
    var c := Load(m, v.addr, W4).value;
    var a := Value(W4, c, charSigned);
    LoadOfStore(m, v.addr, W4, FromInt(a + 1));
    StepUnfold(false, v, m, charSigned, c);
    NextValue(c, charSigned);
  }

  lemma NextValue(c: Cell, charSigned: bool)
    ensures var a := Value(W4, c, charSigned); FromInt(a - Value(W4, FromInt(a + 1), charSigned)) == FromInt(-1)
  {
    hide FromInt, ToWord;
    var a := Value(W4, c, charSigned);
    if a + 1 < 0x8000_0000 {
      ValueOfFromInt(W4, a + 1, charSigned);
    } else {
      LowestAndHighest(charSigned);
    }
  }

  lemma LowestAndHighest(charSigned: bool)
    ensures Value(W4, FromInt(0x8000_0000), charSigned) == -0x8000_0000
    ensures FromInt(0xFFFF_FFFF) == FromInt(-1)
  {
    BytesOfHighest();
    assert 0x8000_0000 / 0x100 == 0x80_0000 && 0x80_0000 / 0x100 == 0x8000 && 0x8000 / 0x100 == 0x80;
    assert FromInt(0x8000_0000) == Cell(0, 0, 0, 0x80);
    hide FromInt;
  }

  lemma BytesOfHighest()
    ensures FromInt(0xFFFF_FFFF) == Cell(0xFF, 0xFF, 0xFF, 0xFF) && FromInt(-1) == Cell(0xFF, 0xFF, 0xFF, 0xFF)
  {
    assert 0xFFFF_FFFF / 0x100 == 0xFF_FFFF && 0xFF_FFFF / 0x100 == 0xFFFF && 0xFFFF / 0x100 == 0xFF;
    assert -1 / 0x100 == -1 && -1 % 0x100 == 0xFF;
  }
}
