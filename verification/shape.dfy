/** The shape of compiled text over whole instruction trees: when the names,
    literals and labels a tree prints stay on one line and hold no parenthesis,
    its text is balanced and every line of it is indented at least as deep as
    the node it was compiled at. */
module InstrShape {
  import opened Wrappers
  import opened Text
  import opened SExpr
  import opened Nodes
  import opened Encoder
  import opened InstrLayout
  import opened InstrTree

  /** Text that stays on one line and holds no parenthesis. */
  predicate Atom(s: string) {
    NoNewline(s) && ParenFree(s)
  }

  /** Text whose lines all start with `k` spaces and whose parentheses balance. */
  predicate Shaped(s: string, k: nat) {
    IndentedBy(s, k) && Balanced(s)
  }

  /** The names, literals and labels a node prints itself are atoms; the
      parameter names of `call_indirect` are never printed. */
  predicate OwnAtoms(i: Instr) {
    match i
    case LocalGet(n) => Atom(n)
    case LocalSet(n, _) => Atom(n)
    case LocalTee(n, _) => Atom(n)
    case GlobalGet(n) => Atom(n)
    case GlobalSet(n, _) => Atom(n)
    case GlobalTee(n, _) => Atom(n)
    case Const(_, literal) => Atom(literal)
    case Call(n, _) => Atom(n)
    case CallIndirect(n, _, _, _, _) => Atom(n)
    case Block(l, _, _) => l.Some? ==> Atom(l.value)
    case Loop(l, _) => l.Some? ==> Atom(l.value)
    case BranchIf(target, _) => target.Named? ==> Atom(target.name)
    case Branch(target) => target.Named? ==> Atom(target.name)
    case _ => true
  }

  /** Every node of the tree prints only atoms of its own. */
  predicate AtomicTree(i: Instr)
    decreases Size(i), 1
  {
    ChildrenSmaller(i);
    OwnAtoms(i) && forall j :: 0 <= j < |Children(i)| ==> AtomicTree(Children(i)[j])
  }

  /** Each sub-instruction compiles one level deeper to shaped text. */
  predicate ChildrenShaped(i: Instr, k: nat) {
    forall j :: 0 <= j < |Children(i)| ==>
      CompileInstr(Children(i)[j], k + 1).Success? && Shaped(CompileInstr(Children(i)[j], k + 1).value, k + 1)
  }

  /** An atomic tree that compiles at depth `k` yields balanced text whose
      every line starts with `k` spaces. */
  lemma {:induction false} CompileShape(i: Instr, k: nat)
    requires AtomicTree(i)
    requires CompileInstr(i, k).Success?
    ensures IndentedBy(CompileInstr(i, k).value, k)
    ensures Balanced(CompileInstr(i, k).value)
    decreases Size(i)
  {
    ChildrenSmaller(i);
    CompileHead(i, k);
    DispatchChildren(i, k);
    CompileAllElements(Children(i), k + 1);
    forall j | 0 <= j < |Children(i)|
      ensures CompileInstr(Children(i)[j], k + 1).Success?
      ensures Shaped(CompileInstr(Children(i)[j], k + 1).value, k + 1)
    {
      CompileShape(Children(i)[j], k + 1);
    }
    NodeShape(i, k);
  }

  /** A list of atomic trees that compiles at depth `k`: every element's text
      is balanced and indented by `k`. */
  lemma CompileAllShape(xs: seq<Instr>, k: nat)
    requires forall j :: 0 <= j < |xs| ==> AtomicTree(xs[j])
    requires CompileAll(xs, k).Success?
    ensures |CompileAll(xs, k).value| == |xs|
    ensures forall j :: 0 <= j < |xs| ==>
              IndentedBy(CompileAll(xs, k).value[j], k) && Balanced(CompileAll(xs, k).value[j])
  {
    CompileAllElements(xs, k);
    forall j | 0 <= j < |xs|
      ensures IndentedBy(CompileAll(xs, k).value[j], k) && Balanced(CompileAll(xs, k).value[j])
    {
      CompileShape(xs[j], k);
    }
  }

  // ---------------------------------------------------------------------------
  // One node, given its sub-instructions.
  // ---------------------------------------------------------------------------

  predicate AllAtoms(os: seq<Option<string>>) {
    forall j :: 0 <= j < |os| && os[j].Some? ==> Atom(os[j].value)
  }

  predicate AllShaped(os: seq<Option<string>>, k: nat) {
    forall j :: 0 <= j < |os| && os[j].Some? ==> Shaped(os[j].value, k)
  }

  /** The printer keeps the shape: an atom head, atom tokens and children
      shaped one level deeper give a shaped expression. */
  lemma RenderShape(head: string, inline: seq<Option<string>>, block: seq<Option<string>>, k: nat)
    requires Atom(head) && AllAtoms(inline) && AllShaped(block, k + 1)
    ensures Shaped(Render(head, inline, block, k), k)
  {
    forall j | 0 <= j < |inline| && inline[j].Some? ensures Balanced(inline[j].value) {
      ParenFreeBalanced(inline[j].value);
    }
    RenderIndented(head, inline, block, k);
    RenderBalanced(head, inline, block, k);
  }

  /** A directive line: `k` spaces before single-line balanced text. */
  lemma LineShape(s: string, k: nat)
    requires NoNewline(s) && Balanced(s)
    ensures Shaped(Space(k) + s, k)
  {
    LinesOfLine(Space(k) + s);
    assert ParenFree(Space(k));
    ParenFreeBalanced(Space(k));
    BalancedAppend(Space(k), s);
  }

  lemma AtomLine(s: string, k: nat)
    requires Atom(s)
    ensures Shaped(Space(k) + s, k)
  {
    ParenFreeBalanced(s);
    LineShape(s, k);
  }

  /** The `(param T)` and `(result T)` lines. */
  lemma TypeDirective(opening: string, t: DataType, k: nat)
    requires opening == "(param " || opening == "(result "
    ensures Shaped(Space(k) + (opening + TypeName(t) + ")"), k)
  {
    TypeWrap(opening, t);
    LineShape(opening + TypeName(t) + ")", k);
  }

  lemma TypeWrap(opening: string, t: DataType)
    requires opening == "(param " || opening == "(result "
    ensures NoNewline(opening + TypeName(t) + ")") && Balanced(opening + TypeName(t) + ")")
  {
    var n := TypeName(t);
    TypeNameAtom(t);
    if opening == "(param " {
      WrapAtom("param " + n);
      assert "(param " + n + ")" == "(" + ("param " + n) + ")";
    } else {
      WrapAtom("result " + n);
      assert "(result " + n + ")" == "(" + ("result " + n) + ")";
    }
  }

  lemma WrapAtom(s: string)
    requires NoNewline(s) && ParenFree(s)
    ensures NoNewline("(" + s + ")") && Balanced("(" + s + ")")
  {
    ParenFreeBalanced(s);
    BalancedWrap(s);
  }

  lemma ShapedAppend(a: seq<Option<string>>, b: seq<Option<string>>, k: nat)
    requires AllShaped(a, k) && AllShaped(b, k)
    ensures AllShaped(a + b, k)
  {
    forall j | 0 <= j < |a + b| && (a + b)[j].Some? ensures Shaped((a + b)[j].value, k) {
      if j >= |a| {
        assert (a + b)[j] == b[j - |a|];
      }
    }
  }

  predicate ShapedTexts(ts: seq<string>, k: nat) {
    forall j :: 0 <= j < |ts| ==> Shaped(ts[j], k)
  }

  lemma ShapedSomes(ts: seq<string>, k: nat)
    requires forall j :: 0 <= j < |ts| ==> Shaped(ts[j], k)
    ensures AllShaped(Somes(ts), k)
  {
  }

  lemma SigilAtom(n: string)
    requires Atom(n)
    ensures Atom(Sigil(n))
  {
  }

  lemma LabelAtom(target: Label)
    requires target.Named? ==> Atom(target.name)
    ensures Atom(LabelText(target))
  {
    if target.Depth? {
      DecimalAtom(target.depth);
    }
  }

  // ---------------------------------------------------------------------------
  // Each encoder keeps the shape, over already compiled sub-instruction texts.
  // ---------------------------------------------------------------------------

  lemma EncodeGetShape(head: string, name: string, k: nat)
    requires Atom(head) && Atom(name)
    ensures Shaped(EncodeVariableGet(head, name, k), k)
  {
    SigilAtom(name);
    RenderShape(head, [Some(Sigil(name))], [], k);
  }

  lemma EncodeWriteShape(head: string, name: string, v: string, k: nat)
    requires Atom(head) && Atom(name) && Shaped(v, k + 1)
    ensures Shaped(EncodeVariableWrite(head, name, v, k), k)
  {
    SigilAtom(name);
    RenderShape(head, [Some(Sigil(name))], [Some(v)], k);
  }

  lemma EncodeConstShape(t: DataType, literal: string, k: nat)
    requires Atom(literal)
    ensures Shaped(EncodeConst(t, literal, k), k)
  {
    TypedHeadAtom(t, "const");
    RenderShape(TypedHead(t, "const"), [Some(literal)], [], k);
  }

  lemma EncodeBranchShape(target: Label, k: nat)
    requires target.Named? ==> Atom(target.name)
    ensures Shaped(EncodeBranch(target, k), k)
  {
    LabelAtom(target);
    RenderShape("br", [Some(LabelText(target))], [], k);
  }

  lemma EncodeBinaryShape(op: BinaryOp, t: DataType, l: string, r: string, k: nat)
    requires Shaped(l, k + 1) && Shaped(r, k + 1)
    ensures Shaped(EncodeBinary(op, t, l, r, k), k)
  {
    TypedHeadAtom(t, BinaryOpName(op));
    RenderShape(TypedHead(t, BinaryOpName(op)), [], [Some(l), Some(r)], k);
  }

  lemma EncodeDropShape(v: string, k: nat)
    requires Shaped(v, k + 1)
    ensures Shaped(EncodeDrop(v, k), k)
  {
    RenderShape("drop", [], [Some(v)], k);
  }

  lemma EncodeEqzShape(t: DataType, r: string, k: nat)
    requires Shaped(r, k + 1)
    ensures Shaped(EncodeEqz(t, r, k), k)
  {
    TypedHeadAtom(t, "eqz");
    RenderShape(TypedHead(t, "eqz"), [], [Some(r)], k);
  }

  lemma EncodeBranchIfShape(target: Label, c: string, k: nat)
    requires target.Named? ==> Atom(target.name)
    requires Shaped(c, k + 1)
    ensures Shaped(EncodeBranchIf(target, c, k), k)
  {
    LabelAtom(target);
    RenderShape("br_if", [Some(LabelText(target))], [Some(c)], k);
  }

  /** The optional `offset=` and `align=` lines of a load or store. */
  lemma DirectiveShape(offset: Option<nat>, align: Option<nat>, shown: bool, k: nat)
    requires shown ==> align.Some?
    ensures AllShaped([IndentOpt(k, OffsetOpt(offset)), IndentOpt(k, AlignOpt(align, shown))], k)
  {
    if Truthy(offset) {
      DecimalAtom(offset.value);
      AtomLine("offset=" + Decimal(offset.value), k);
    }
    if shown {
      DecimalAtom(align.value);
      AtomLine("align=" + Decimal(align.value), k);
    }
  }

  /** A typed memory access: optional directive lines, then its operands. */
  lemma DirectivesRender(head: string, dirs: seq<Option<string>>, operands: seq<string>, k: nat)
    requires Atom(head) && AllShaped(dirs, k + 1)
    requires forall j :: 0 <= j < |operands| ==> Shaped(operands[j], k + 1)
    ensures Shaped(Render(head, [], dirs + Somes(operands), k), k)
  {
    ShapedSomes(operands, k + 1);
    ShapedAppend(dirs, Somes(operands), k + 1);
    RenderShape(head, [], dirs + Somes(operands), k);
  }

  lemma EncodeStoreShape(op: StoreOp, t: DataType, offset: Option<nat>, align: Option<nat>, b: string, v: string, k: nat)
    requires Shaped(b, k + 1) && Shaped(v, k + 1)
    ensures Shaped(EncodeStore(op, t, offset, align, b, v, k), k)
  {
    var dirs := [IndentOpt(k + 1, OffsetOpt(offset)), IndentOpt(k + 1, AlignOpt(align, Truthy(align)))];
    StoreBlock(op, t, offset, align, b, v, k);
    DirectiveShape(offset, align, Truthy(align), k + 1);
    StoreHeadAtom(t, op);
    DirectivesRender(TypedHead(t, StoreOpName(op)), dirs, [b, v], k);
  }

  lemma StoreHeadAtom(t: DataType, op: StoreOp)
    ensures Atom(TypedHead(t, StoreOpName(op)))
  {
    TypedHeadAtom(t, StoreOpName(op));
  }

  lemma LoadHeadAtom(t: DataType, op: LoadOp)
    ensures Atom(TypedHead(t, LoadOpName(op)))
  {
    TypedHeadAtom(t, LoadOpName(op));
  }

  lemma EncodeLoadShape(op: LoadOp, t: DataType, offset: Option<nat>, align: Option<nat>, b: string, k: nat)
    requires Shaped(b, k + 1)
    ensures Shaped(EncodeLoad(op, t, offset, align, b, k), k)
  {
    var dirs := [IndentOpt(k + 1, OffsetOpt(offset)), IndentOpt(k + 1, AlignOpt(align, align.Some?))];
    LoadBlock(op, t, offset, align, b, k);
    DirectiveShape(offset, align, align.Some?, k + 1);
    LoadHeadAtom(t, op);
    DirectivesRender(TypedHead(t, LoadOpName(op)), dirs, [b], k);
  }

  lemma EncodeCallShape(name: string, ts: seq<string>, k: nat)
    requires Atom(name)
    requires forall j :: 0 <= j < |ts| ==> Shaped(ts[j], k + 1)
    ensures Shaped(EncodeCall(name, ts, k), k)
  {
    SigilAtom(name);
    RenderShape("call", [Some(Sigil(name))], Somes(ts), k);
  }

  lemma EncodeLoopShape(labelName: Option<string>, ts: seq<string>, k: nat)
    requires labelName.Some? ==> Atom(labelName.value)
    requires forall j :: 0 <= j < |ts| ==> Shaped(ts[j], k + 1)
    ensures Shaped(EncodeLoop(labelName, ts, k), k)
  {
    if labelName.Some? {
      SigilAtom(labelName.value);
    }
    RenderShape("loop", [if labelName.Some? then Some(Sigil(labelName.value)) else None], Somes(ts), k);
  }

  lemma EncodeBlockShape(labelName: Option<string>, returnType: DataType, ts: seq<string>, k: nat)
    requires labelName.Some? ==> Atom(labelName.value)
    requires forall j :: 0 <= j < |ts| ==> Shaped(ts[j], k + 1)
    ensures Shaped(EncodeBlock(labelName, returnType, ts, k), k)
  {
    var dirs := [ if TruthyName(labelName) then Some(Space(k + 1) + Sigil(labelName.value)) else None,
                  if returnType != NoneType then Some(Space(k + 1) + ("(result " + TypeName(returnType) + ")")) else None ];
    if TruthyName(labelName) {
      SigilAtom(labelName.value);
      AtomLine(Sigil(labelName.value), k + 1);
    }
    TypeDirective("(result ", returnType, k + 1);
    assert AllShaped(dirs, k + 1);
    ShapedAppend(dirs, Somes(ts), k + 1);
    RenderShape("block", [], dirs + Somes(ts), k);
  }

  lemma ParamLinesShape(params: seq<(DataType, string)>, k: nat)
    ensures AllShaped(ParamTypeLines(params, k), k)
  {
    forall j | 0 <= j < |params| ensures Shaped(ParamTypeLines(params, k)[j].value, k) {
      TypeDirective("(param ", params[j].0, k);
    }
  }

  lemma EncodeCallIndirectShape(tableName: string, params: seq<(DataType, string)>, t: DataType,
                                ts: seq<string>, a: string, k: nat)
    requires Atom(tableName)
    requires forall j :: 0 <= j < |ts| ==> Shaped(ts[j], k + 1)
    requires Shaped(a, k + 1)
    ensures Shaped(EncodeCallIndirect(tableName, params, t, ts, a, k), k)
  {
    var tbl := [Some(Space(k + 1) + Sigil(tableName))];
    var ps := ParamTypeLines(params, k + 1);
    var res := [Some(Space(k + 1) + ("(result " + TypeName(t) + ")"))];
    SigilAtom(tableName);
    AtomLine(Sigil(tableName), k + 1);
    TypeDirective("(result ", t, k + 1);
    ParamLinesShape(params, k + 1);
    ShapedAppend(tbl, ps, k + 1);
    ShapedAppend(tbl + ps, res, k + 1);
    ShapedAppend(tbl + ps + res, Somes(ts), k + 1);
    ShapedAppend(tbl + ps + res + Somes(ts), [Some(a)], k + 1);
    RenderShape("call_indirect", [], tbl + ps + res + Somes(ts) + [Some(a)], k);
  }

  // ---------------------------------------------------------------------------
  // The dispatcher keeps the shape, node by node.
  // ---------------------------------------------------------------------------

  lemma NodeShape(i: Instr, k: nat)
    requires !i.Unknown? && OwnAtoms(i) && ChildrenShaped(i, k)
    ensures CompileInstr(i, k).Success? && Shaped(CompileInstr(i, k).value, k)
  {
    if i.LocalGet? || i.GlobalGet? || i.Const? || i.Branch? {
      LeafShape(i, k);
    } else if i.LocalSet? || i.LocalTee? || i.GlobalSet? || i.GlobalTee? {
      VariableShape(i, k);
    } else if i.Binary? || i.Drop? || i.Eqz? || i.BranchIf? {
      OperatorShape(i, k);
    } else if i.Store? || i.Load? {
      MemoryShape(i, k);
    } else {
      ListShape(i, k);
    }
  }

  lemma LeafShape(i: Instr, k: nat)
    requires i.LocalGet? || i.GlobalGet? || i.Const? || i.Branch?
    requires OwnAtoms(i)
    ensures CompileInstr(i, k).Success? && Shaped(CompileInstr(i, k).value, k)
  {
    match i
    case LocalGet(n) => EncodeGetShape("local.get", n, k);
    case GlobalGet(n) => EncodeGetShape("global.get", n, k);
    case Const(t, literal) => EncodeConstShape(t, literal, k);
    case Branch(target) => EncodeBranchShape(target, k);
  }

  lemma VariableDispatch(i: Instr, k: nat, v: string)
    requires i.LocalSet? || i.LocalTee? || i.GlobalSet? || i.GlobalTee?
    requires CompileInstr(i.value, k + 1) == Success(v)
    ensures CompileInstr(i, k) == Success(EncodeVariableWrite(VariableHead(i), i.name, v, k))
  {
  }

  lemma VariableShape(i: Instr, k: nat)
    requires i.LocalSet? || i.LocalTee? || i.GlobalSet? || i.GlobalTee?
    requires OwnAtoms(i) && ChildrenShaped(i, k)
    ensures CompileInstr(i, k).Success? && Shaped(CompileInstr(i, k).value, k)
  {
    assert Children(i)[0] == i.value;
    WriteShape(i, k, CompileInstr(i.value, k + 1).value);
  }

  lemma WriteShape(i: Instr, k: nat, v: string)
    requires i.LocalSet? || i.LocalTee? || i.GlobalSet? || i.GlobalTee?
    requires Atom(i.name) && CompileInstr(i.value, k + 1) == Success(v) && Shaped(v, k + 1)
    ensures CompileInstr(i, k).Success? && Shaped(CompileInstr(i, k).value, k)
  {
    VariableDispatch(i, k, v);
    VariableHeadAtom(i);
    EncodeWriteShape(VariableHead(i), i.name, v, k);
  }

  lemma VariableHeadAtom(i: Instr)
    requires i.LocalSet? || i.LocalTee? || i.GlobalSet? || i.GlobalTee?
    ensures Atom(VariableHead(i))
  {
  }

  lemma OperatorShape(i: Instr, k: nat)
    requires i.Binary? || i.Drop? || i.Eqz? || i.BranchIf?
    requires OwnAtoms(i) && ChildrenShaped(i, k)
    ensures CompileInstr(i, k).Success? && Shaped(CompileInstr(i, k).value, k)
  {
    match i
    case Binary(op, t, left, right) =>
      assert Children(i)[0] == left && Children(i)[1] == right;
      var l, r := CompileInstr(left, k + 1).value, CompileInstr(right, k + 1).value;
      BinaryDispatch(op, t, left, right, k, l, r);
      EncodeBinaryShape(op, t, l, r, k);
    case Drop(value) =>
      assert Children(i)[0] == value;
      var v := CompileInstr(value, k + 1).value;
      DropDispatch(value, k, v);
      EncodeDropShape(v, k);
    case Eqz(t, right) =>
      assert Children(i)[0] == right;
      var r := CompileInstr(right, k + 1).value;
      EqzDispatch(t, right, k, r);
      EncodeEqzShape(t, r, k);
    case BranchIf(target, cond) =>
      assert Children(i)[0] == cond;
      var c := CompileInstr(cond, k + 1).value;
      BranchIfDispatch(target, cond, k, c);
      EncodeBranchIfShape(target, c, k);
  }

  lemma MemoryShape(i: Instr, k: nat)
    requires i.Store? || i.Load?
    requires ChildrenShaped(i, k)
    ensures CompileInstr(i, k).Success? && Shaped(CompileInstr(i, k).value, k)
  {
    match i
    case Store(op, t, offset, align, base, value) =>
      assert Children(i)[0] == base && Children(i)[1] == value;
      var b, v := CompileInstr(base, k + 1).value, CompileInstr(value, k + 1).value;
      StoreDispatch(op, t, offset, align, base, value, k, b, v);
      EncodeStoreShape(op, t, offset, align, b, v, k);
    case Load(op, t, offset, align, base) =>
      assert Children(i)[0] == base;
      var b := CompileInstr(base, k + 1).value;
      LoadDispatch(op, t, offset, align, base, k, b);
      EncodeLoadShape(op, t, offset, align, b, k);
  }

  /** A list whose elements compile to shaped text compiles to the list of
      those texts. */
  lemma ListTexts(xs: seq<Instr>, k: nat)
    requires forall j :: 0 <= j < |xs| ==>
               CompileInstr(xs[j], k + 1).Success? && Shaped(CompileInstr(xs[j], k + 1).value, k + 1)
    ensures CompileAll(xs, k + 1).Success?
    ensures ShapedTexts(CompileAll(xs, k + 1).value, k + 1)
  {
    CompileAllElements(xs, k + 1);
  }

  lemma ListShape(i: Instr, k: nat)
    requires i.Call? || i.CallIndirect? || i.Block? || i.Loop?
    requires OwnAtoms(i) && ChildrenShaped(i, k)
    ensures CompileInstr(i, k).Success? && Shaped(CompileInstr(i, k).value, k)
  {
    match i
    case Call(name, args) =>
      assert Children(i) == args;
      ListTexts(args, k);
      EncodeCallShape(name, CompileAll(args, k + 1).value, k);
    case CallIndirect(tableName, params, t, args, address) =>
      CallIndirectShape(tableName, params, t, args, address, k);
    case Block(labelName, returnType, body) =>
      assert Children(i) == body;
      ListTexts(body, k);
      var ts := CompileAll(body, k + 1).value;
      BlockDispatch(labelName, returnType, body, k, ts);
      EncodeBlockShape(labelName, returnType, ts, k);
    case Loop(labelName, body) =>
      assert Children(i) == body;
      ListTexts(body, k);
      var ts := CompileAll(body, k + 1).value;
      LoopDispatch(labelName, body, k, ts);
      EncodeLoopShape(labelName, ts, k);
  }

  lemma CallIndirectShape(tableName: string, params: seq<(DataType, string)>, t: DataType,
                          args: seq<Instr>, address: Instr, k: nat)
    requires Atom(tableName)
    requires ChildrenShaped(CallIndirect(tableName, params, t, args, address), k)
    ensures CompileInstr(CallIndirect(tableName, params, t, args, address), k).Success?
    ensures Shaped(CompileInstr(CallIndirect(tableName, params, t, args, address), k).value, k)
  {
    var i := CallIndirect(tableName, params, t, args, address);
    assert Children(i) == args + [address];
    assert forall j :: 0 <= j < |args| ==> Children(i)[j] == args[j];
    assert Children(i)[|args|] == address;
    ListTexts(args, k);
    var ts, a := CompileAll(args, k + 1).value, CompileInstr(address, k + 1).value;
    CallIndirectDispatch(tableName, params, t, args, address, k, ts, a);
    EncodeCallIndirectShape(tableName, params, t, ts, a, k);
  }
}
