/** What each instruction kind prints, line by line. `Layout` is the shape
    every encoder produces: the head's line, the node's own directive lines one
    level deeper, the lines of its sub-instructions, and the closing line. The
    lemmas below fix, for every kind, which directives and which children. */
module InstrLayout {
  import opened Wrappers
  import opened Text
  import opened SExpr
  import opened Nodes
  import opened Encoder

  /** Prefixes every text with `k` spaces. */
  function Indented(k: nat, ds: seq<string>): (ls: seq<string>)
    ensures |ls| == |ds|
    ensures forall j :: 0 <= j < |ds| ==> ls[j] == Space(k) + ds[j]
  {
    seq(|ds|, j requires 0 <= j < |ds| => Space(k) + ds[j])
  }

  /** The lines of a node at depth `k` with this head and these inline tokens:
      the head's line closed on the spot when the node has neither directives
      nor children; otherwise the head's line, each directive at depth `k + 1`,
      every line of each child in order, and `)` after exactly `k` spaces. */
  function Layout(k: nat, head: string, tokens: seq<string>, directives: seq<string>, children: seq<string>): seq<string> {
    if |directives| + |children| == 0 then [Opening(head, tokens, k) + ")"]
    else [Opening(head, tokens, k)] + Indented(k + 1, directives) + LinesOf(children) + [Space(k) + ")"]
  }

  /** `i` compiles at depth `k` and its text has exactly the lines `ls`. */
  predicate Renders(i: Instr, k: nat, ls: seq<string>) {
    CompileInstr(i, k).Success? && Lines(CompileInstr(i, k).value) == ls
  }

  function IndentOpts(k: nat, os: seq<Option<string>>): (r: seq<Option<string>>)
    ensures |r| == |os|
    ensures forall j :: 0 <= j < |os| ==> r[j] == if os[j].Some? then Some(Space(k) + os[j].value) else None
  {
    seq(|os|, j requires 0 <= j < |os| => if os[j].Some? then Some(Space(k) + os[j].value) else None)
  }

  lemma {:induction false} PresentIndentOpts(k: nat, os: seq<Option<string>>)
    ensures Present(IndentOpts(k, os)) == Indented(k, Present(os))
    decreases |os|
  {
    if os != [] {
      assert IndentOpts(k, os) == IndentOpts(k, [os[0]]) + IndentOpts(k, os[1..]);
      assert os == [os[0]] + os[1..];
      PresentAppend(IndentOpts(k, [os[0]]), IndentOpts(k, os[1..]));
      PresentAppend([os[0]], os[1..]);
      PresentIndentOpts(k, os[1..]);
      assert IndentOpts(k, [os[0]])[1..] == [];
      assert [os[0]][1..] == [];
    }
  }

  predicate AllNoNewline(ds: seq<string>) {
    forall j :: 0 <= j < |ds| ==> NoNewline(ds[j])
  }

  lemma BlockPresent(k: nat, dirs: seq<Option<string>>, kids: seq<string>)
    ensures Present(IndentOpts(k, dirs) + Somes(kids)) == Indented(k, Present(dirs)) + kids
  {
    PresentAppend(IndentOpts(k, dirs), Somes(kids));
    PresentIndentOpts(k, dirs);
    PresentSomes(kids);
  }

  lemma LinesOfDirectives(k: nat, ds: seq<string>, kids: seq<string>)
    requires AllNoNewline(ds)
    ensures LinesOf(Indented(k, ds) + kids) == Indented(k, ds) + LinesOf(kids)
  {
    var ind := Indented(k, ds);
    forall j | 0 <= j < |ind| ensures NoNewline(ind[j]) {
      assert NoNewline(ds[j]);
      assert ind[j] == Space(k) + ds[j];
    }
    LinesOfSingles(ind);
    LinesOfAppend(ind, kids);
  }

  /** An encoder's block list — optional directives, then every child — renders
      as `Layout`. */
  lemma RenderAsLayout(head: string, inline: seq<Option<string>>, dirs: seq<Option<string>>,
                       kids: seq<string>, k: nat)
    requires NoNewline(head) && InlineOk(inline)
    requires AllNoNewline(Present(dirs))
    ensures Lines(Render(head, inline, IndentOpts(k + 1, dirs) + Somes(kids), k))
         == Layout(k, head, Present(inline), Present(dirs), kids)
  {
    var block := IndentOpts(k + 1, dirs) + Somes(kids);
    var ds := Present(dirs);
    var ind := Indented(k + 1, ds);
    var open := Opening(head, Present(inline), k);
    var close := Space(k) + ")";
    BlockPresent(k + 1, dirs, kids);
    RenderLines(head, inline, block, k);
    if |ds| + |kids| > 0 {
      LinesOfDirectives(k + 1, ds, kids);
      calc {
        Lines(Render(head, inline, block, k));
        [open] + LinesOf(ind + kids) + [close];
        [open] + (ind + LinesOf(kids)) + [close];
        { assert [open] + (ind + LinesOf(kids)) == [open] + ind + LinesOf(kids); }
        [open] + ind + LinesOf(kids) + [close];
      }
    }
  }

  lemma DecimalAtom(n: nat)
    ensures NoNewline(Decimal(n)) && ParenFree(Decimal(n))
  {
    DigitsAreAtoms(n, 10);
    var s := Decimal(n);
    forall j | 0 <= j < |s| ensures s[j] != '\n' && s[j] != '(' && s[j] != ')' {
      assert DigitValue(s[j]).Some?;
    }
  }

  lemma PresentOne(x: string)
    ensures Present([Some(x)]) == [x]
  {
    assert [Some(x)][1..] == [];
  }

  lemma PresentPair(a: Option<string>, b: Option<string>)
    ensures Present([a, b]) == (if a.Some? then [a.value] else []) + (if b.Some? then [b.value] else [])
  {
    assert [a, b][1..] == [b];
    assert [b][1..] == [];
    assert Present([b]) == (if b.Some? then [b.value] else []) + [];
    assert Present([a, b]) == (if a.Some? then [a.value] else []) + Present([b]);
  }

  // ---------------------------------------------------------------------------
  // Kinds without children: the exact text, the head's line closed at once.
  // ---------------------------------------------------------------------------

  lemma RenderLeaf(head: string, token: string, k: nat)
    ensures Render(head, [Some(token)], [], k) == Opening(head, [token], k) + ")"
  {
    PresentOne(token);
  }

  /** `local.get` / `global.get`: one line, the name inline with its `$`. */
  lemma VariableGetText(i: Instr, k: nat)
    requires i.LocalGet? || i.GlobalGet?
    ensures CompileInstr(i, k)
         == Success(Opening(if i.LocalGet? then "local.get" else "global.get", ["$" + i.name], k) + ")")
  {
    RenderLeaf(if i.LocalGet? then "local.get" else "global.get", Sigil(i.name), k);
  }

  /** `<type>.const`: one line with the literal copied as it is stored. */
  lemma ConstText(t: DataType, literal: string, k: nat)
    ensures CompileInstr(Const(t, literal), k) == Success(Opening(TypedHead(t, "const"), [literal], k) + ")")
  {
    RenderLeaf(TypedHead(t, "const"), literal, k);
  }

  /** `br`: one line; a named target prints as `$name`, a depth as decimal
      digits that read back as that depth. */
  lemma BranchText(target: Label, k: nat)
    ensures CompileInstr(Branch(target), k) == Success(Opening("br", [LabelText(target)], k) + ")")
    ensures target.Named? ==> LabelText(target) == "$" + target.name
    ensures target.Depth? ==> TextToNat(LabelText(target), 10) == Some(target.depth)
  {
    RenderLeaf("br", LabelText(target), k);
  }

  // ---------------------------------------------------------------------------
  // Kinds with children: the layout.
  // ---------------------------------------------------------------------------

  lemma OneChild(head: string, inline: seq<Option<string>>, c: string, k: nat)
    requires NoNewline(head) && InlineOk(inline)
    ensures Lines(Render(head, inline, [Some(c)], k)) == Layout(k, head, Present(inline), [], [c])
  {
    assert [Some(c)] == IndentOpts(k + 1, []) + Somes([c]);
    RenderAsLayout(head, inline, [], [c], k);
  }

  function VariableHead(i: Instr): string
    requires i.LocalSet? || i.LocalTee? || i.GlobalSet? || i.GlobalTee?
  {
    match i
    case LocalSet(_, _) => "local.set"
    case LocalTee(_, _) => "local.tee"
    case GlobalSet(_, _) => "global.set"
    case GlobalTee(_, _) => "global.tee"
  }

  /** `local.set`, `local.tee`, `global.set`, `global.tee`: the name inline,
      the value one level deeper. */
  lemma VariableWriteLayout(i: Instr, k: nat, v: string)
    requires i.LocalSet? || i.LocalTee? || i.GlobalSet? || i.GlobalTee?
    requires NoNewline(i.name)
    requires CompileInstr(i.value, k + 1) == Success(v)
    ensures Renders(i, k, Layout(k, VariableHead(i), ["$" + i.name], [], [v]))
  {
    PresentOne(Sigil(i.name));
    OneChild(VariableHead(i), [Some(Sigil(i.name))], v, k);
  }

  lemma BinaryDispatch(op: BinaryOp, t: DataType, left: Instr, right: Instr, k: nat, l: string, r: string)
    requires CompileInstr(left, k + 1) == Success(l)
    requires CompileInstr(right, k + 1) == Success(r)
    ensures CompileInstr(Binary(op, t, left, right), k) == Success(EncodeBinary(op, t, l, r, k))
  {
  }

  /** Binary arithmetic: head `<type>.<op>`, the left operand's lines, then the
      right operand's, both one level deeper. */
  lemma BinaryLayout(op: BinaryOp, t: DataType, left: Instr, right: Instr, k: nat, l: string, r: string)
    requires CompileInstr(left, k + 1) == Success(l)
    requires CompileInstr(right, k + 1) == Success(r)
    ensures Renders(Binary(op, t, left, right), k, Layout(k, TypedHead(t, BinaryOpName(op)), [], [], [l, r]))
  {
    BinaryDispatch(op, t, left, right, k, l, r);
    EncodeBinaryLines(op, t, l, r, k);
  }

  lemma EncodeBinaryLines(op: BinaryOp, t: DataType, l: string, r: string, k: nat)
    ensures Lines(EncodeBinary(op, t, l, r, k)) == Layout(k, TypedHead(t, BinaryOpName(op)), [], [], [l, r])
  {
    assert [Some(l), Some(r)] == IndentOpts(k + 1, []) + Somes([l, r]);
    RenderAsLayout(TypedHead(t, BinaryOpName(op)), [], [], [l, r], k);
  }

  lemma EqzDispatch(t: DataType, right: Instr, k: nat, r: string)
    requires CompileInstr(right, k + 1) == Success(r)
    ensures CompileInstr(Eqz(t, right), k) == Success(EncodeEqz(t, r, k))
  {
  }

  lemma EqzLayout(t: DataType, right: Instr, k: nat, r: string)
    requires CompileInstr(right, k + 1) == Success(r)
    ensures Renders(Eqz(t, right), k, Layout(k, TypedHead(t, "eqz"), [], [], [r]))
  {
    EqzDispatch(t, right, k, r);
    EncodeEqzLines(t, r, k);
  }

  lemma EncodeEqzLines(t: DataType, r: string, k: nat)
    ensures Lines(EncodeEqz(t, r, k)) == Layout(k, TypedHead(t, "eqz"), [], [], [r])
  {
    OneChild(TypedHead(t, "eqz"), [], r, k);
  }

  lemma DropDispatch(value: Instr, k: nat, v: string)
    requires CompileInstr(value, k + 1) == Success(v)
    ensures CompileInstr(Drop(value), k) == Success(EncodeDrop(v, k))
  {
  }

  lemma DropLayout(value: Instr, k: nat, v: string)
    requires CompileInstr(value, k + 1) == Success(v)
    ensures Renders(Drop(value), k, Layout(k, "drop", [], [], [v]))
  {
    DropDispatch(value, k, v);
    EncodeDropLines(v, k);
  }

  lemma EncodeDropLines(v: string, k: nat)
    ensures Lines(EncodeDrop(v, k)) == Layout(k, "drop", [], [], [v])
  {
    OneChild("drop", [], v, k);
  }

  lemma BranchIfDispatch(target: Label, cond: Instr, k: nat, c: string)
    requires CompileInstr(cond, k + 1) == Success(c)
    ensures CompileInstr(BranchIf(target, cond), k) == Success(EncodeBranchIf(target, c, k))
  {
  }

  /** `br_if`: the target inline, the condition one level deeper. */
  lemma BranchIfLayout(target: Label, cond: Instr, k: nat, c: string)
    requires target.Named? ==> NoNewline(target.name)
    requires CompileInstr(cond, k + 1) == Success(c)
    ensures Renders(BranchIf(target, cond), k, Layout(k, "br_if", [LabelText(target)], [], [c]))
  {
    BranchIfDispatch(target, cond, k, c);
    EncodeBranchIfLines(target, c, k);
  }

  lemma EncodeBranchIfLines(target: Label, c: string, k: nat)
    requires target.Named? ==> NoNewline(target.name)
    ensures Lines(EncodeBranchIf(target, c, k)) == Layout(k, "br_if", [LabelText(target)], [], [c])
  {
    DecimalAtom(if target.Depth? then target.depth else 0);
    PresentOne(LabelText(target));
    OneChild("br_if", [Some(LabelText(target))], c, k);
  }

  /** `call`: the callee inline, then every argument in list order; with no
      arguments the whole call is the single line `(call $f)`. */
  lemma CallLayout(name: string, args: seq<Instr>, k: nat, ts: seq<string>)
    requires NoNewline(name)
    requires CompileAll(args, k + 1) == Success(ts)
    ensures Renders(Call(name, args), k, Layout(k, "call", ["$" + name], [], ts))
    ensures args == [] ==> CompileInstr(Call(name, args), k) == Success(Opening("call", ["$" + name], k) + ")")
  {
    assert Somes(ts) == IndentOpts(k + 1, []) + Somes(ts);
    PresentOne(Sigil(name));
    RenderAsLayout("call", [Some(Sigil(name))], [], ts, k);
    if args == [] {
      assert Somes(ts) == [];
      RenderLeaf("call", Sigil(name), k);
    }
  }

  /** The `(param T)` directives of `call_indirect`, one per parameter type. */
  function ParamTypes(params: seq<(DataType, string)>): (ds: seq<string>)
    ensures |ds| == |params|
    ensures forall j :: 0 <= j < |params| ==> ds[j] == "(param " + TypeName(params[j].0) + ")"
  {
    seq(|params|, j requires 0 <= j < |params| => "(param " + TypeName(params[j].0) + ")")
  }

  /** `call_indirect`: the table name, one `(param T)` per parameter, a
      `(result T)` line whatever T is (also `none`), then the arguments in order
      and the callee address last. */
  lemma CallIndirectLayout(tableName: string, params: seq<(DataType, string)>, t: DataType,
                           args: seq<Instr>, address: Instr, k: nat, ts: seq<string>, a: string)
    requires NoNewline(tableName)
    requires CompileAll(args, k + 1) == Success(ts)
    requires CompileInstr(address, k + 1) == Success(a)
    ensures Renders(CallIndirect(tableName, params, t, args, address), k,
                    Layout(k, "call_indirect", [],
                           ["$" + tableName] + ParamTypes(params) + ["(result " + TypeName(t) + ")"],
                           ts + [a]))
  {
    CallIndirectDispatch(tableName, params, t, args, address, k, ts, a);
    EncodeCallIndirectLines(tableName, params, t, ts, a, k);
  }

  lemma CallIndirectDispatch(tableName: string, params: seq<(DataType, string)>, t: DataType,
                             args: seq<Instr>, address: Instr, k: nat, ts: seq<string>, a: string)
    requires CompileAll(args, k + 1) == Success(ts)
    requires CompileInstr(address, k + 1) == Success(a)
    ensures CompileInstr(CallIndirect(tableName, params, t, args, address), k)
         == Success(EncodeCallIndirect(tableName, params, t, ts, a, k))
  {
  }

  lemma EncodeCallIndirectLines(tableName: string, params: seq<(DataType, string)>, t: DataType,
                                ts: seq<string>, a: string, k: nat)
    requires NoNewline(tableName)
    ensures Lines(EncodeCallIndirect(tableName, params, t, ts, a, k))
         == Layout(k, "call_indirect", [],
                   ["$" + tableName] + ParamTypes(params) + ["(result " + TypeName(t) + ")"],
                   ts + [a])
  {
    var tbl := Sigil(tableName);
    var res := "(result " + TypeName(t) + ")";
    var dirs := [Some(tbl)] + Somes(ParamTypes(params)) + [Some(res)];
    CallIndirectBlock(params, tbl, res, ts, a, k);
    CallIndirectDirectives(params, tbl, res);
    RenderAsLayout("call_indirect", [], dirs, ts + [a], k);
  }

  lemma CallIndirectBlock(params: seq<(DataType, string)>, tbl: string, res: string, ts: seq<string>, a: string, k: nat)
    ensures [Some(Space(k + 1) + tbl)] + ParamTypeLines(params, k + 1) + [Some(Space(k + 1) + res)] + Somes(ts) + [Some(a)]
         == IndentOpts(k + 1, [Some(tbl)] + Somes(ParamTypes(params)) + [Some(res)]) + Somes(ts + [a])
  {
    var dirs := [Some(tbl)] + Somes(ParamTypes(params)) + [Some(res)];
    var lhs := [Some(Space(k + 1) + tbl)] + ParamTypeLines(params, k + 1) + [Some(Space(k + 1) + res)];
    assert IndentOpts(k + 1, dirs) == lhs by {
      forall j | 0 <= j < |lhs| ensures IndentOpts(k + 1, dirs)[j] == lhs[j] {
        if 0 < j < |lhs| - 1 {
          assert dirs[j] == Some(ParamTypes(params)[j - 1]);
          assert lhs[j] == ParamTypeLines(params, k + 1)[j - 1];
        }
      }
    }
    assert Somes(ts + [a]) == Somes(ts) + [Some(a)];
  }

  lemma CallIndirectDirectives(params: seq<(DataType, string)>, tbl: string, res: string)
    requires NoNewline(tbl) && NoNewline(res)
    ensures Present([Some(tbl)] + Somes(ParamTypes(params)) + [Some(res)]) == [tbl] + ParamTypes(params) + [res]
    ensures AllNoNewline([tbl] + ParamTypes(params) + [res])
  {
    ThreePresent(tbl, ParamTypes(params), res);
    ParamTypesNoNewline(params);
    ThreeNoNewline(tbl, ParamTypes(params), res);
  }

  lemma ThreePresent(a: string, ms: seq<string>, b: string)
    ensures Present([Some(a)] + Somes(ms) + [Some(b)]) == [a] + ms + [b]
  {
    PresentSomes(ms);
    PresentOne(a);
    PresentOne(b);
    PresentAppend([Some(a)], Somes(ms));
    PresentAppend([Some(a)] + Somes(ms), [Some(b)]);
  }

  lemma ParamTypesNoNewline(params: seq<(DataType, string)>)
    ensures AllNoNewline(ParamTypes(params))
  {
    var ps := ParamTypes(params);
    forall j | 0 <= j < |ps| ensures NoNewline(ps[j]) {
      TypeNameAtom(params[j].0);
    }
  }

  lemma ThreeNoNewline(a: string, ms: seq<string>, b: string)
    requires NoNewline(a) && NoNewline(b) && AllNoNewline(ms)
    ensures AllNoNewline([a] + ms + [b])
  {
    var ds := [a] + ms + [b];
    forall j | 0 <= j < |ds| ensures NoNewline(ds[j]) {
      if 0 < j < |ds| - 1 {
        assert ds[j] == ms[j - 1];
      }
    }
  }

  lemma TypeNameAtom(t: DataType)
    ensures NoNewline(TypeName(t)) && ParenFree(TypeName(t))
  {
  }

  lemma BlockDispatch(labelName: Option<string>, returnType: DataType, body: seq<Instr>, k: nat, ts: seq<string>)
    requires CompileAll(body, k + 1) == Success(ts)
    ensures CompileInstr(Block(labelName, returnType, body), k) == Success(EncodeBlock(labelName, returnType, ts, k))
  {
  }

  /** `block`: a `$name` directive only when the name is truthy (non-null and
      non-empty), a `(result T)` directive only when T is not `none`, then the
      body instructions in order. */
  lemma BlockLayout(labelName: Option<string>, returnType: DataType, body: seq<Instr>, k: nat, ts: seq<string>)
    requires labelName.Some? ==> NoNewline(labelName.value)
    requires CompileAll(body, k + 1) == Success(ts)
    ensures Renders(Block(labelName, returnType, body), k,
                    Layout(k, "block", [],
                           (if TruthyName(labelName) then ["$" + labelName.value] else [])
                           + (if returnType != NoneType then ["(result " + TypeName(returnType) + ")"] else []),
                           ts))
  {
    BlockDispatch(labelName, returnType, body, k, ts);
    EncodeBlockLines(labelName, returnType, ts, k);
  }

  lemma EncodeBlockLines(labelName: Option<string>, returnType: DataType, ts: seq<string>, k: nat)
    requires labelName.Some? ==> NoNewline(labelName.value)
    ensures Lines(EncodeBlock(labelName, returnType, ts, k))
         == Layout(k, "block", [],
                   (if TruthyName(labelName) then ["$" + labelName.value] else [])
                   + (if returnType != NoneType then ["(result " + TypeName(returnType) + ")"] else []),
                   ts)
  {
    var nameOpt := if TruthyName(labelName) then Some(Sigil(labelName.value)) else None;
    var resultOpt := if returnType != NoneType then Some("(result " + TypeName(returnType) + ")") else None;
    assert IndentOpts(k + 1, [nameOpt, resultOpt])
        == [ if TruthyName(labelName) then Some(Space(k + 1) + Sigil(labelName.value)) else None,
             if returnType != NoneType then Some(Space(k + 1) + ("(result " + TypeName(returnType) + ")")) else None ];
    PresentPair(nameOpt, resultOpt);
    RenderAsLayout("block", [], [nameOpt, resultOpt], ts, k);
  }

  lemma LoopDispatch(labelName: Option<string>, body: seq<Instr>, k: nat, ts: seq<string>)
    requires CompileAll(body, k + 1) == Success(ts)
    ensures CompileInstr(Loop(labelName, body), k) == Success(EncodeLoop(labelName, ts, k))
  {
  }

  /** `loop`: the label inline whenever it is not null (an empty name prints a
      bare `$`), then the body instructions in order. */
  lemma LoopLayout(labelName: Option<string>, body: seq<Instr>, k: nat, ts: seq<string>)
    requires labelName.Some? ==> NoNewline(labelName.value)
    requires CompileAll(body, k + 1) == Success(ts)
    ensures Renders(Loop(labelName, body), k,
                    Layout(k, "loop", if labelName.Some? then ["$" + labelName.value] else [], [], ts))
  {
    LoopDispatch(labelName, body, k, ts);
    EncodeLoopLines(labelName, ts, k);
  }

  lemma EncodeLoopLines(labelName: Option<string>, ts: seq<string>, k: nat)
    requires labelName.Some? ==> NoNewline(labelName.value)
    ensures Lines(EncodeLoop(labelName, ts, k))
         == Layout(k, "loop", if labelName.Some? then ["$" + labelName.value] else [], [], ts)
  {
    var inline := [if labelName.Some? then Some(Sigil(labelName.value)) else None];
    if labelName.Some? {
      PresentOne(Sigil(labelName.value));
    } else {
      assert inline[1..] == [];
    }
    assert Somes(ts) == IndentOpts(k + 1, []) + Somes(ts);
    RenderAsLayout("loop", inline, [], ts, k);
  }

  /** The `offset=K` directive of a load or store: only for a truthy offset. */
  function OffsetDirective(offset: Option<nat>): seq<string> {
    if Truthy(offset) then ["offset=" + Decimal(offset.value)] else []
  }

  /** The directives of a store: each kept only when truthy. */
  function StoreDirectives(offset: Option<nat>, align: Option<nat>): seq<string> {
    OffsetDirective(offset) + (if Truthy(align) then ["align=" + Decimal(align.value)] else [])
  }

  /** The directives of a load: the alignment kept whenever it is not null. */
  function LoadDirectives(offset: Option<nat>, align: Option<nat>): seq<string> {
    OffsetDirective(offset) + (if align.Some? then ["align=" + Decimal(align.value)] else [])
  }

  lemma StoreDispatch(op: StoreOp, t: DataType, offset: Option<nat>, align: Option<nat>,
                      base: Instr, value: Instr, k: nat, b: string, v: string)
    requires CompileInstr(base, k + 1) == Success(b)
    requires CompileInstr(value, k + 1) == Success(v)
    ensures CompileInstr(Store(op, t, offset, align, base, value), k) == Success(EncodeStore(op, t, offset, align, b, v, k))
  {
  }

  /** Stores: `offset=K` only for a non-zero offset and `align=K` only for a
      non-zero alignment, then the base address, then the value. */
  lemma StoreLayout(op: StoreOp, t: DataType, offset: Option<nat>, align: Option<nat>,
                    base: Instr, value: Instr, k: nat, b: string, v: string)
    requires CompileInstr(base, k + 1) == Success(b)
    requires CompileInstr(value, k + 1) == Success(v)
    ensures Renders(Store(op, t, offset, align, base, value), k,
                    Layout(k, TypedHead(t, StoreOpName(op)), [],
                           StoreDirectives(offset, align), [b, v]))
  {
    StoreDispatch(op, t, offset, align, base, value, k, b, v);
    EncodeStoreLines(op, t, offset, align, b, v, k);
  }

  lemma EncodeStoreLines(op: StoreOp, t: DataType, offset: Option<nat>, align: Option<nat>,
                         b: string, v: string, k: nat)
    ensures Lines(EncodeStore(op, t, offset, align, b, v, k))
         == Layout(k, TypedHead(t, StoreOpName(op)), [],
                   StoreDirectives(offset, align), [b, v])
  {
    var head := TypedHead(t, StoreOpName(op));
    TypedHeadAtom(t, StoreOpName(op));
    var offOpt := OffsetOpt(offset);
    var alignOpt := AlignOpt(align, Truthy(align));
    DirectiveOpts(offset, align, Truthy(align));
    TwoOptional(head, offOpt, alignOpt, [b, v], k);
    StoreBlock(op, t, offset, align, b, v, k);
  }

  lemma TypedHeadAtom(t: DataType, op: string)
    requires NoNewline(op) && ParenFree(op)
    ensures NoNewline(TypedHead(t, op)) && ParenFree(TypedHead(t, op))
  {
    TypeNameAtom(t);
  }

  /** The optional `offset=K` entry of a load or store. */
  function OffsetOpt(offset: Option<nat>): Option<string> {
    if Truthy(offset) then Some("offset=" + Decimal(offset.value)) else None
  }

  /** The optional `align=K` entry, printed when `shown` holds. */
  function AlignOpt(align: Option<nat>, shown: bool): Option<string>
    requires shown ==> align.Some?
  {
    if shown then Some("align=" + Decimal(align.value)) else None
  }

  lemma DirectiveOpts(offset: Option<nat>, align: Option<nat>, shown: bool)
    requires shown ==> align.Some?
    ensures OffsetOpt(offset).Some? ==> NoNewline(OffsetOpt(offset).value)
    ensures AlignOpt(align, shown).Some? ==> NoNewline(AlignOpt(align, shown).value)
    ensures Opt(OffsetOpt(offset)) + Opt(AlignOpt(align, shown))
         == OffsetDirective(offset) + (if shown then ["align=" + Decimal(align.value)] else [])
  {
    DecimalAtom(if offset.Some? then offset.value else 0);
    DecimalAtom(if align.Some? then align.value else 0);
  }

  /** A directive line in the encoders' form: indented, or absent. */
  function IndentOpt(k: nat, o: Option<string>): Option<string> {
    if o.Some? then Some(Space(k) + o.value) else None
  }

  function Opt(o: Option<string>): seq<string> {
    if o.Some? then [o.value] else []
  }

  lemma TwoOptional(head: string, o1: Option<string>, o2: Option<string>, kids: seq<string>, k: nat)
    requires NoNewline(head)
    requires o1.Some? ==> NoNewline(o1.value)
    requires o2.Some? ==> NoNewline(o2.value)
    ensures Lines(Render(head, [], [IndentOpt(k + 1, o1), IndentOpt(k + 1, o2)] + Somes(kids), k))
         == Layout(k, head, [], Opt(o1) + Opt(o2), kids)
  {
    assert [IndentOpt(k + 1, o1), IndentOpt(k + 1, o2)] == IndentOpts(k + 1, [o1, o2]);
    PresentPair(o1, o2);
    RenderAsLayout(head, [], [o1, o2], kids, k);
  }

  lemma StoreBlock(op: StoreOp, t: DataType, offset: Option<nat>, align: Option<nat>, b: string, v: string, k: nat)
    ensures EncodeStore(op, t, offset, align, b, v, k)
         == Render(TypedHead(t, StoreOpName(op)), [],
                   [IndentOpt(k + 1, OffsetOpt(offset)), IndentOpt(k + 1, AlignOpt(align, Truthy(align)))]
                   + Somes([b, v]), k)
  {
    var block := [IndentOpt(k + 1, OffsetOpt(offset)), IndentOpt(k + 1, AlignOpt(align, Truthy(align)))]
                 + Somes([b, v]);
    assert block == [ if Truthy(offset) then Some(Space(k + 1) + ("offset=" + Decimal(offset.value))) else None,
                      if Truthy(align) then Some(Space(k + 1) + ("align=" + Decimal(align.value))) else None,
                      Some(b), Some(v) ];
  }

  lemma LoadBlock(op: LoadOp, t: DataType, offset: Option<nat>, align: Option<nat>, b: string, k: nat)
    ensures EncodeLoad(op, t, offset, align, b, k)
         == Render(TypedHead(t, LoadOpName(op)), [],
                   [IndentOpt(k + 1, OffsetOpt(offset)), IndentOpt(k + 1, AlignOpt(align, align.Some?))]
                   + Somes([b]), k)
  {
    var block := [IndentOpt(k + 1, OffsetOpt(offset)), IndentOpt(k + 1, AlignOpt(align, align.Some?))]
                 + Somes([b]);
    assert block == [ if Truthy(offset) then Some(Space(k + 1) + ("offset=" + Decimal(offset.value))) else None,
                      if align.Some? then Some(Space(k + 1) + ("align=" + Decimal(align.value))) else None,
                      Some(b) ];
  }

  lemma LoadDispatch(op: LoadOp, t: DataType, offset: Option<nat>, align: Option<nat>,
                     base: Instr, k: nat, b: string)
    requires CompileInstr(base, k + 1) == Success(b)
    ensures CompileInstr(Load(op, t, offset, align, base), k) == Success(EncodeLoad(op, t, offset, align, b, k))
  {
    var e := EncodeLoad(op, t, offset, align, b, k);
    assert CompileInstr(Load(op, t, offset, align, base), k) == Success(e);
  }

  /** Loads: `offset=K` only for a non-zero offset, but `align=K` for every
      alignment that is not null — an explicit zero prints `align=0` — then the
      base address. */
  lemma LoadLayout(op: LoadOp, t: DataType, offset: Option<nat>, align: Option<nat>,
                   base: Instr, k: nat, b: string)
    requires CompileInstr(base, k + 1) == Success(b)
    ensures Renders(Load(op, t, offset, align, base), k,
                    Layout(k, TypedHead(t, LoadOpName(op)), [],
                           LoadDirectives(offset, align), [b]))
  {
    LoadDispatch(op, t, offset, align, base, k, b);
    EncodeLoadLines(op, t, offset, align, b, k);
  }

  lemma EncodeLoadLines(op: LoadOp, t: DataType, offset: Option<nat>, align: Option<nat>, b: string, k: nat)
    ensures Lines(EncodeLoad(op, t, offset, align, b, k))
         == Layout(k, TypedHead(t, LoadOpName(op)), [],
                   LoadDirectives(offset, align), [b])
  {
    var head := TypedHead(t, LoadOpName(op));
    TypedHeadAtom(t, LoadOpName(op));
    var offOpt := OffsetOpt(offset);
    var alignOpt := AlignOpt(align, align.Some?);
    DirectiveOpts(offset, align, align.Some?);
    TwoOptional(head, offOpt, alignOpt, [b], k);
    LoadBlock(op, t, offset, align, b, k);
  }

  /** Two decimal texts are equal only for equal numbers. */
  lemma DecimalInjective(m: nat, n: nat)
    requires Decimal(m) == Decimal(n)
    ensures m == n
  {
    assert TextToNat(Decimal(m), 10) == Some(m);
  }

  /** A `key=K` directive names its number: equal directives with the same key
      carry the same number, and an `offset=` directive is never an `align=` one. */
  lemma DirectiveText(key: string, m: nat, n: nat)
    requires key + Decimal(m) == key + Decimal(n)
    ensures m == n
  {
    assert Decimal(m) == (key + Decimal(m))[|key|..];
    DecimalInjective(m, n);
  }

  lemma OffsetNotAlign(m: nat, n: nat)
    ensures "offset=" + Decimal(m) != "align=" + Decimal(n)
  {
    assert ("offset=" + Decimal(m))[0] == 'o';
    assert ("align=" + Decimal(n))[0] == 'a';
  }

  /** A store prints `offset=K` exactly when its offset is the non-zero K, and
      `align=K` exactly when its alignment is the non-zero K. */
  lemma StoreDirectivesPresent(offset: Option<nat>, align: Option<nat>, n: nat)
    ensures "offset=" + Decimal(n) in StoreDirectives(offset, align) <==> offset == Some(n) && n != 0
    ensures "align=" + Decimal(n) in StoreDirectives(offset, align) <==> align == Some(n) && n != 0
    ensures |StoreDirectives(offset, align)| == (if Truthy(offset) then 1 else 0) + (if Truthy(align) then 1 else 0)
  {
    DirectivesPresent(offset, align, Truthy(align), n);
  }

  /** A load prints `offset=K` exactly when its offset is the non-zero K, but
      `align=K` whenever its alignment is K, zero included. */
  lemma LoadDirectivesPresent(offset: Option<nat>, align: Option<nat>, n: nat)
    ensures "offset=" + Decimal(n) in LoadDirectives(offset, align) <==> offset == Some(n) && n != 0
    ensures "align=" + Decimal(n) in LoadDirectives(offset, align) <==> align == Some(n)
    ensures |LoadDirectives(offset, align)| == (if Truthy(offset) then 1 else 0) + (if align.Some? then 1 else 0)
  {
    DirectivesPresent(offset, align, align.Some?, n);
  }

  lemma DirectivesPresent(offset: Option<nat>, align: Option<nat>, printAlign: bool, n: nat)
    requires printAlign ==> align.Some?
    ensures var ds := OffsetDirective(offset) + (if printAlign then ["align=" + Decimal(align.value)] else []);
            && ("offset=" + Decimal(n) in ds <==> offset == Some(n) && n != 0)
            && ("align=" + Decimal(n) in ds <==> printAlign && align == Some(n))
  {
    var ds := OffsetDirective(offset) + (if printAlign then ["align=" + Decimal(align.value)] else []);
    if "offset=" + Decimal(n) in ds {
      if printAlign && "offset=" + Decimal(n) == "align=" + Decimal(align.value) {
        OffsetNotAlign(n, align.value);
      }
      assert Truthy(offset) && "offset=" + Decimal(n) == "offset=" + Decimal(offset.value);
      DirectiveText("offset=", n, offset.value);
    }
    if "align=" + Decimal(n) in ds {
      if Truthy(offset) && "align=" + Decimal(n) == "offset=" + Decimal(offset.value) {
        OffsetNotAlign(offset.value, n);
      }
      assert printAlign && "align=" + Decimal(n) == "align=" + Decimal(align.value);
      DirectiveText("align=", n, align.value);
    }
  }
}
