/** Facts about whole instruction trees: which sub-instructions the dispatcher
    renders and in what order, and when compiling fails and with which tag. */
module InstrTree {
  import opened Wrappers
  import opened Text
  import opened SExpr
  import opened Nodes
  import opened Encoder
  import opened InstrLayout

  // ---------------------------------------------------------------------------
  // Sub-instructions.
  // ---------------------------------------------------------------------------

  function Size(i: Instr): nat
    decreases i, 1
  {
    match i
    case LocalSet(_, v) => 1 + Size(v)
    case LocalTee(_, v) => 1 + Size(v)
    case GlobalSet(_, v) => 1 + Size(v)
    case GlobalTee(_, v) => 1 + Size(v)
    case Binary(_, _, l, r) => 1 + Size(l) + Size(r)
    case Call(_, args) => 1 + SizeAll(args)
    case CallIndirect(_, _, _, args, a) => 1 + SizeAll(args) + Size(a)
    case Block(_, _, body) => 1 + SizeAll(body)
    case Drop(v) => 1 + Size(v)
    case Store(_, _, _, _, b, v) => 1 + Size(b) + Size(v)
    case Load(_, _, _, _, b) => 1 + Size(b)
    case Loop(_, body) => 1 + SizeAll(body)
    case BranchIf(_, c) => 1 + Size(c)
    case Eqz(_, r) => 1 + Size(r)
    case _ => 1
  }

  function SizeAll(xs: seq<Instr>): nat
    decreases xs, 0
  {
    if xs == [] then 0 else Size(xs[0]) + SizeAll(xs[1..])
  }

  lemma {:induction false} SizeAllAppend(xs: seq<Instr>, ys: seq<Instr>)
    ensures SizeAll(xs + ys) == SizeAll(xs) + SizeAll(ys)
    decreases |xs|
  {
    if xs == [] {
      assert xs + ys == ys;
    } else {
      assert (xs + ys)[1..] == xs[1..] + ys;
      SizeAllAppend(xs[1..], ys);
    }
  }

  lemma {:induction false} SizeAllBound(xs: seq<Instr>)
    ensures forall j :: 0 <= j < |xs| ==> Size(xs[j]) <= SizeAll(xs)
    decreases |xs|
  {
    if xs != [] {
      SizeAllBound(xs[1..]);
      assert forall j :: 1 <= j < |xs| ==> xs[j] == xs[1..][j - 1];
    }
  }

  lemma SizeAllPair(a: Instr, b: Instr)
    ensures SizeAll([a, b]) == Size(a) + Size(b)
  {
    assert [a, b][1..] == [b];
    assert [b][1..] == [];
    assert SizeAll([b]) == Size(b) + SizeAll([]);
  }

  /** The sub-instructions of a node in the order the dispatcher renders them:
      a value; left then right; the arguments; the arguments then the callee
      address; the body; the base then the stored value; a condition. */
  function Children(i: Instr): seq<Instr> {
    match i
    case LocalSet(_, v) => [v]
    case LocalTee(_, v) => [v]
    case GlobalSet(_, v) => [v]
    case GlobalTee(_, v) => [v]
    case Binary(_, _, l, r) => [l, r]
    case Call(_, args) => args
    case CallIndirect(_, _, _, args, a) => args + [a]
    case Block(_, _, body) => body
    case Drop(v) => [v]
    case Store(_, _, _, _, b, v) => [b, v]
    case Load(_, _, _, _, b) => [b]
    case Loop(_, body) => body
    case BranchIf(_, c) => [c]
    case Eqz(_, r) => [r]
    case _ => []
  }

  /** Every sub-instruction, and all of them together, are smaller than the node. */
  lemma ChildrenSmaller(i: Instr)
    ensures SizeAll(Children(i)) < Size(i)
    ensures forall j :: 0 <= j < |Children(i)| ==> Size(Children(i)[j]) < Size(i)
  {
    ChildrenTotal(i);
    SizeAllBound(Children(i));
  }

  lemma ChildrenTotal(i: Instr)
    ensures SizeAll(Children(i)) < Size(i)
  {
    if i.Binary? || i.Store? {
      PairTotal(i);
    } else if i.CallIndirect? {
      SizeAllAppend(i.args, [i.address]);
      SizeAllOne(i.address);
    } else if i.Call? || i.Block? || i.Loop? {
      assert Size(i) == 1 + SizeAll(Children(i));
    } else if i.LocalSet? || i.LocalTee? || i.GlobalSet? || i.GlobalTee? || i.Drop? || i.Load? || i.BranchIf? || i.Eqz? {
      SingleTotal(i);
    } else {
      assert Children(i) == [];
    }
  }

  lemma SingleTotal(i: Instr)
    requires i.LocalSet? || i.LocalTee? || i.GlobalSet? || i.GlobalTee? || i.Drop? || i.Load? || i.BranchIf? || i.Eqz?
    ensures SizeAll(Children(i)) < Size(i)
  {
    match i
    case LocalSet(_, v) => SizeAllOne(v);
    case LocalTee(_, v) => SizeAllOne(v);
    case GlobalSet(_, v) => SizeAllOne(v);
    case GlobalTee(_, v) => SizeAllOne(v);
    case Drop(v) => SizeAllOne(v);
    case Load(_, _, _, _, b) => SizeAllOne(b);
    case BranchIf(_, c) => SizeAllOne(c);
    case Eqz(_, r) => SizeAllOne(r);
  }

  lemma PairTotal(i: Instr)
    requires i.Binary? || i.Store?
    ensures SizeAll(Children(i)) < Size(i)
  {
    match i
    case Binary(_, _, l, r) => SizeAllPair(l, r);
    case Store(_, _, _, _, b, v) => SizeAllPair(b, v);
  }

  lemma SizeAllOne(a: Instr)
    ensures SizeAll([a]) == Size(a)
  {
    assert [a][1..] == [];
  }

  /** The head each kind prints after its `(`. */
  function Head(i: Instr): string {
    match i
    case LocalGet(_) => "local.get"
    case LocalSet(_, _) => "local.set"
    case LocalTee(_, _) => "local.tee"
    case GlobalGet(_) => "global.get"
    case GlobalSet(_, _) => "global.set"
    case GlobalTee(_, _) => "global.tee"
    case Binary(op, t, _, _) => TypedHead(t, BinaryOpName(op))
    case Const(t, _) => TypedHead(t, "const")
    case Call(_, _) => "call"
    case CallIndirect(_, _, _, _, _) => "call_indirect"
    case Block(_, _, _) => "block"
    case Drop(_) => "drop"
    case Store(op, t, _, _, _, _) => TypedHead(t, StoreOpName(op))
    case Load(op, t, _, _, _) => TypedHead(t, LoadOpName(op))
    case Loop(_, _) => "loop"
    case BranchIf(_, _) => "br_if"
    case Branch(_) => "br"
    case Eqz(t, _) => TypedHead(t, "eqz")
    case Unknown(_) => ""
  }

  /** Compiled text is framed by its head: `k` spaces, `(`, the head, and a
      closing `)` as the last character. */
  predicate Framed(s: string, k: nat, head: string) {
    Space(k) + "(" + head <= s && |s| > k + 1 && s[|s| - 1] == ')'
  }

  /** Whatever compiles is a known node, printed with its own head. */
  lemma CompileHead(i: Instr, k: nat)
    requires CompileInstr(i, k).Success?
    ensures !i.Unknown?
    ensures Framed(CompileInstr(i, k).value, k, Head(i))
  {
    if i.Unknown? {
      assert false;
    } else if i.LocalGet? || i.GlobalGet? || i.LocalSet? || i.LocalTee? || i.GlobalSet? || i.GlobalTee? {
      VariableFramed(i, k);
    } else if i.Binary? || i.Const? || i.Drop? || i.Store? || i.Load? || i.Eqz? {
      OperatorFramed(i, k);
    } else {
      ControlFramed(i, k);
    }
  }

  lemma VariableFramed(i: Instr, k: nat)
    requires i.LocalGet? || i.GlobalGet? || i.LocalSet? || i.LocalTee? || i.GlobalSet? || i.GlobalTee?
    requires CompileInstr(i, k).Success?
    ensures Framed(CompileInstr(i, k).value, k, Head(i))
  {
    match i
    case LocalGet(name) => GetHead("local.get", name, k);
    case GlobalGet(name) => GetHead("global.get", name, k);
    case LocalSet(name, value) => WriteHead("local.set", name, value, k);
    case LocalTee(name, value) => WriteHead("local.tee", name, value, k);
    case GlobalSet(name, value) => WriteHead("global.set", name, value, k);
    case GlobalTee(name, value) => WriteHead("global.tee", name, value, k);
  }

  lemma OperatorFramed(i: Instr, k: nat)
    requires i.Binary? || i.Const? || i.Drop? || i.Store? || i.Load? || i.Eqz?
    requires CompileInstr(i, k).Success?
    ensures Framed(CompileInstr(i, k).value, k, Head(i))
  {
    match i
    case Binary(op, t, left, right) => BinaryHead(op, t, left, right, k);
    case Const(t, literal) => RenderFrame(TypedHead(t, "const"), [Some(literal)], [], k);
    case Drop(value) => DropHead(value, k);
    case Store(op, t, offset, align, base, value) => StoreHead(op, t, offset, align, base, value, k);
    case Load(op, t, offset, align, base) => LoadHead(op, t, offset, align, base, k);
    case Eqz(t, right) => EqzHead(t, right, k);
  }

  lemma ControlFramed(i: Instr, k: nat)
    requires i.Call? || i.CallIndirect? || i.Block? || i.Loop? || i.BranchIf? || i.Branch?
    requires CompileInstr(i, k).Success?
    ensures Framed(CompileInstr(i, k).value, k, Head(i))
  {
    match i
    case Call(name, args) => CallHead(name, args, k);
    case CallIndirect(tableName, params, t, args, address) => CallIndirectHead(tableName, params, t, args, address, k);
    case Block(labelName, returnType, body) => BlockHead(labelName, returnType, body, k);
    case Loop(labelName, body) => LoopHead(labelName, body, k);
    case BranchIf(target, cond) => BranchIfHead(target, cond, k);
    case Branch(target) => RenderFrame("br", [Some(LabelText(target))], [], k);
  }

  lemma GetHead(head: string, name: string, k: nat)
    ensures Framed(EncodeVariableGet(head, name, k), k, head)
  {
    RenderFrame(head, [Some(Sigil(name))], [], k);
  }

  lemma WriteHead(head: string, name: string, value: Instr, k: nat)
    requires CompileInstr(value, k + 1).Success?
    ensures Framed(EncodeVariableWrite(head, name, CompileInstr(value, k + 1).value, k), k, head)
  {
    RenderFrame(head, [Some(Sigil(name))], [Some(CompileInstr(value, k + 1).value)], k);
  }

  lemma BinaryHead(op: BinaryOp, t: DataType, left: Instr, right: Instr, k: nat)
    requires CompileInstr(Binary(op, t, left, right), k).Success?
    ensures Framed(CompileInstr(Binary(op, t, left, right), k).value, k, TypedHead(t, BinaryOpName(op)))
  {
    var l, r := CompileInstr(left, k + 1).value, CompileInstr(right, k + 1).value;
    BinaryDispatch(op, t, left, right, k, l, r);
    RenderFrame(TypedHead(t, BinaryOpName(op)), [], [Some(l), Some(r)], k);
  }

  lemma CallHead(name: string, args: seq<Instr>, k: nat)
    requires CompileInstr(Call(name, args), k).Success?
    ensures Framed(CompileInstr(Call(name, args), k).value, k, "call")
  {
    RenderFrame("call", [Some(Sigil(name))], Somes(CompileAll(args, k + 1).value), k);
  }

  lemma CallIndirectHead(tableName: string, params: seq<(DataType, string)>, t: DataType,
                         args: seq<Instr>, address: Instr, k: nat)
    requires CompileInstr(CallIndirect(tableName, params, t, args, address), k).Success?
    ensures Framed(CompileInstr(CallIndirect(tableName, params, t, args, address), k).value, k, "call_indirect")
  {
    var ts, a := CompileAll(args, k + 1).value, CompileInstr(address, k + 1).value;
    CallIndirectDispatch(tableName, params, t, args, address, k, ts, a);
    RenderFrame("call_indirect", [],
      [Some(Space(k + 1) + Sigil(tableName))] + ParamTypeLines(params, k + 1)
      + [Some(Space(k + 1) + ("(result " + TypeName(t) + ")"))] + Somes(ts) + [Some(a)], k);
  }

  lemma BlockHead(labelName: Option<string>, returnType: DataType, body: seq<Instr>, k: nat)
    requires CompileInstr(Block(labelName, returnType, body), k).Success?
    ensures Framed(CompileInstr(Block(labelName, returnType, body), k).value, k, "block")
  {
    var ts := CompileAll(body, k + 1).value;
    BlockDispatch(labelName, returnType, body, k, ts);
    RenderFrame("block", [],
      [ if TruthyName(labelName) then Some(Space(k + 1) + Sigil(labelName.value)) else None,
        if returnType != NoneType then Some(Space(k + 1) + ("(result " + TypeName(returnType) + ")")) else None ]
      + Somes(ts), k);
  }

  lemma DropHead(value: Instr, k: nat)
    requires CompileInstr(Drop(value), k).Success?
    ensures Framed(CompileInstr(Drop(value), k).value, k, "drop")
  {
    var v := CompileInstr(value, k + 1).value;
    DropDispatch(value, k, v);
    RenderFrame("drop", [], [Some(v)], k);
  }

  lemma StoreHead(op: StoreOp, t: DataType, offset: Option<nat>, align: Option<nat>, base: Instr, value: Instr, k: nat)
    requires CompileInstr(Store(op, t, offset, align, base, value), k).Success?
    ensures Framed(CompileInstr(Store(op, t, offset, align, base, value), k).value, k, TypedHead(t, StoreOpName(op)))
  {
    var b, v := CompileInstr(base, k + 1).value, CompileInstr(value, k + 1).value;
    StoreDispatch(op, t, offset, align, base, value, k, b, v);
    StoreBlock(op, t, offset, align, b, v, k);
    RenderFrame(TypedHead(t, StoreOpName(op)), [],
      [IndentOpt(k + 1, OffsetOpt(offset)), IndentOpt(k + 1, AlignOpt(align, Truthy(align)))] + Somes([b, v]), k);
  }

  lemma LoadHead(op: LoadOp, t: DataType, offset: Option<nat>, align: Option<nat>, base: Instr, k: nat)
    requires CompileInstr(Load(op, t, offset, align, base), k).Success?
    ensures Framed(CompileInstr(Load(op, t, offset, align, base), k).value, k, TypedHead(t, LoadOpName(op)))
  {
    var b := CompileInstr(base, k + 1).value;
    LoadDispatch(op, t, offset, align, base, k, b);
    LoadBlock(op, t, offset, align, b, k);
    RenderFrame(TypedHead(t, LoadOpName(op)), [],
      [IndentOpt(k + 1, OffsetOpt(offset)), IndentOpt(k + 1, AlignOpt(align, align.Some?))] + Somes([b]), k);
  }

  lemma LoopHead(labelName: Option<string>, body: seq<Instr>, k: nat)
    requires CompileInstr(Loop(labelName, body), k).Success?
    ensures Framed(CompileInstr(Loop(labelName, body), k).value, k, "loop")
  {
    var ts := CompileAll(body, k + 1).value;
    LoopDispatch(labelName, body, k, ts);
    RenderFrame("loop", [if labelName.Some? then Some(Sigil(labelName.value)) else None], Somes(ts), k);
  }

  lemma BranchIfHead(target: Label, cond: Instr, k: nat)
    requires CompileInstr(BranchIf(target, cond), k).Success?
    ensures Framed(CompileInstr(BranchIf(target, cond), k).value, k, "br_if")
  {
    var c := CompileInstr(cond, k + 1).value;
    BranchIfDispatch(target, cond, k, c);
    RenderFrame("br_if", [Some(LabelText(target))], [Some(c)], k);
  }

  lemma EqzHead(t: DataType, right: Instr, k: nat)
    requires CompileInstr(Eqz(t, right), k).Success?
    ensures Framed(CompileInstr(Eqz(t, right), k).value, k, TypedHead(t, "eqz"))
  {
    var r := CompileInstr(right, k + 1).value;
    EqzDispatch(t, right, k, r);
    RenderFrame(TypedHead(t, "eqz"), [], [Some(r)], k);
  }

  // ---------------------------------------------------------------------------
  // Lists: `map` renders every element, in order, or fails with the first
  // element's error.
  // ---------------------------------------------------------------------------

  lemma {:induction false} CompileAllElements(xs: seq<Instr>, k: nat)
    ensures CompileAll(xs, k).Success? <==> forall j :: 0 <= j < |xs| ==> CompileInstr(xs[j], k).Success?
    ensures CompileAll(xs, k).Success? ==>
              |CompileAll(xs, k).value| == |xs|
              && forall j :: 0 <= j < |xs| ==> CompileInstr(xs[j], k) == Success(CompileAll(xs, k).value[j])
    ensures CompileAll(xs, k).Failure? ==>
              exists j :: 0 <= j < |xs| && CompileInstr(xs[j], k) == Failure(CompileAll(xs, k).error)
                          && forall i :: 0 <= i < j ==> CompileInstr(xs[i], k).Success?
    decreases |xs|
  {
    if xs != [] {
      var rest := xs[1..];
      CompileAllElements(rest, k);
      assert forall j :: 1 <= j < |xs| ==> xs[j] == rest[j - 1];
      if CompileAll(xs, k).Failure? && CompileInstr(xs[0], k).Success? {
        var j :| 0 <= j < |rest| && CompileInstr(rest[j], k) == Failure(CompileAll(rest, k).error)
                 && forall i :: 0 <= i < j ==> CompileInstr(rest[i], k).Success?;
        assert CompileInstr(xs[j + 1], k) == Failure(CompileAll(xs, k).error);
        assert forall i :: 0 <= i < j + 1 ==> CompileInstr(xs[i], k).Success? by {
          forall i | 0 < i < j + 1 ensures CompileInstr(xs[i], k).Success? {
            assert xs[i] == rest[i - 1];
          }
        }
      }
    }
  }

  lemma CompileAllOne(a: Instr, k: nat)
    requires CompileInstr(a, k).Success?
    ensures CompileAll([a], k) == Success([CompileInstr(a, k).value])
  {
    assert [a][1..] == [];
    assert CompileAll([], k) == Success([]);
    assert [CompileInstr(a, k).value] + [] == [CompileInstr(a, k).value];
  }

  lemma {:induction false} CompileAllAppend(xs: seq<Instr>, ys: seq<Instr>, k: nat)
    requires CompileAll(xs, k).Success? && CompileAll(ys, k).Success?
    ensures CompileAll(xs + ys, k) == Success(CompileAll(xs, k).value + CompileAll(ys, k).value)
    decreases |xs|
  {
    if xs == [] {
      EmptyAppend(ys);
      EmptyAppend(CompileAll(ys, k).value);
    } else {
      ConsAppend(xs, ys);
      CompileAllAppend(xs[1..], ys, k);
      CompileAllCons(xs[0], xs[1..] + ys, k);
      CompileAllCons(xs[0], xs[1..], k);
      ConsAssoc(CompileInstr(xs[0], k).value, CompileAll(xs[1..], k).value, CompileAll(ys, k).value);
    }
  }

  lemma EmptyAppend<T>(ys: seq<T>)
    ensures [] + ys == ys
  {
  }

  lemma ConsAppend<T>(xs: seq<T>, ys: seq<T>)
    requires xs != []
    ensures xs + ys == [xs[0]] + (xs[1..] + ys) && xs == [xs[0]] + xs[1..]
  {
  }

  lemma ConsAssoc<T>(h: T, a: seq<T>, b: seq<T>)
    ensures [h] + (a + b) == ([h] + a) + b
  {
  }

  // ---------------------------------------------------------------------------
  // Failure: the tag of the first unknown node in pre-order.
  // ---------------------------------------------------------------------------

  /** The tag of the first node the dispatcher does not know, visiting each node
      before its sub-instructions and those in `Children` order. */
  function FirstUnknown(i: Instr): Option<string>
    decreases Size(i), 1
  {
    ChildrenSmaller(i);
    if i.Unknown? then Some(NodeType(i)) else FirstUnknownIn(Children(i))
  }

  function FirstUnknownIn(xs: seq<Instr>): Option<string>
    decreases SizeAll(xs), 2
  {
    if xs == [] then None
    else
      var first := FirstUnknown(xs[0]);
      if first.Some? then first else FirstUnknownIn(xs[1..])
  }

  /** A known node fails exactly as the list of its sub-instructions does. */
  lemma DispatchChildren(i: Instr, k: nat)
    requires !i.Unknown?
    ensures CompileInstr(i, k).Failure? <==> CompileAll(Children(i), k + 1).Failure?
    ensures CompileInstr(i, k).Failure? ==> CompileInstr(i, k).error == CompileAll(Children(i), k + 1).error
  {
    if i.Binary? || i.Store? {
      DispatchPair(i, k);
    } else if i.CallIndirect? {
      DispatchCallIndirect(i, k);
    } else if i.Call? || i.Block? || i.Loop? || i.LocalGet? || i.GlobalGet? || i.Const? || i.Branch? {
      DispatchList(i, k);
    } else {
      DispatchSingle(i, k);
    }
  }

  lemma DispatchSingle(i: Instr, k: nat)
    requires i.LocalSet? || i.LocalTee? || i.GlobalSet? || i.GlobalTee? || i.Drop? || i.Load? || i.BranchIf? || i.Eqz?
    ensures CompileInstr(i, k).Failure? <==> CompileAll(Children(i), k + 1).Failure?
    ensures CompileInstr(i, k).Failure? ==> CompileInstr(i, k).error == CompileAll(Children(i), k + 1).error
  {
    match i
    case LocalSet(_, v) => CompileAllSingle(v, k + 1);
    case LocalTee(_, v) => CompileAllSingle(v, k + 1);
    case GlobalSet(_, v) => CompileAllSingle(v, k + 1);
    case GlobalTee(_, v) => CompileAllSingle(v, k + 1);
    case Drop(v) => CompileAllSingle(v, k + 1);
    case Load(_, _, _, _, b) => CompileAllSingle(b, k + 1);
    case BranchIf(_, c) => CompileAllSingle(c, k + 1);
    case Eqz(_, r) => CompileAllSingle(r, k + 1);
  }

  lemma DispatchPair(i: Instr, k: nat)
    requires i.Binary? || i.Store?
    ensures CompileInstr(i, k).Failure? <==> CompileAll(Children(i), k + 1).Failure?
    ensures CompileInstr(i, k).Failure? ==> CompileInstr(i, k).error == CompileAll(Children(i), k + 1).error
  {
    match i
    case Binary(_, _, l, r) => BinaryFailure(l, r, k);
    case Store(_, _, _, _, b, v) => BinaryFailure(b, v, k);
  }

  lemma DispatchCallIndirect(i: Instr, k: nat)
    requires i.CallIndirect?
    ensures CompileInstr(i, k).Failure? <==> CompileAll(Children(i), k + 1).Failure?
    ensures CompileInstr(i, k).Failure? ==> CompileInstr(i, k).error == CompileAll(Children(i), k + 1).error
  {
    var args, a := i.args, i.address;
    if CompileAll(args, k + 1).Success? && CompileInstr(a, k + 1).Success? {
      CompileAllOne(a, k + 1);
      CompileAllAppend(args, [a], k + 1);
    } else {
      FailingAppend(args, a, k + 1);
    }
  }

  lemma DispatchList(i: Instr, k: nat)
    requires i.Call? || i.Block? || i.Loop? || i.LocalGet? || i.GlobalGet? || i.Const? || i.Branch?
    ensures CompileInstr(i, k).Failure? <==> CompileAll(Children(i), k + 1).Failure?
    ensures CompileInstr(i, k).Failure? ==> CompileInstr(i, k).error == CompileAll(Children(i), k + 1).error
  {
  }

  lemma CompileAllSingle(a: Instr, k: nat)
    ensures CompileAll([a], k).Failure? <==> CompileInstr(a, k).Failure?
    ensures CompileAll([a], k).Failure? ==> CompileAll([a], k).error == CompileInstr(a, k).error
  {
    assert [a][1..] == [];
    if CompileInstr(a, k).Success? {
      CompileAllOne(a, k);
    }
  }

  lemma BinaryFailure(l: Instr, r: Instr, k: nat)
    ensures CompileAll([l, r], k + 1).Failure? <==> (CompileInstr(l, k + 1).Failure? || CompileInstr(r, k + 1).Failure?)
    ensures CompileAll([l, r], k + 1).Failure? ==>
              CompileAll([l, r], k + 1).error
              == if CompileInstr(l, k + 1).Failure? then CompileInstr(l, k + 1).error else CompileInstr(r, k + 1).error
  {
    CompileAllCons(l, [r], k + 1);
    CompileAllSingle(r, k + 1);
  }

  /** A list compiles by its head, then its tail. */
  lemma CompileAllCons(x: Instr, xs: seq<Instr>, k: nat)
    ensures CompileAll([x] + xs, k)
         == if CompileInstr(x, k).Failure? then Failure(CompileInstr(x, k).error)
            else if CompileAll(xs, k).Failure? then Failure(CompileAll(xs, k).error)
            else Success([CompileInstr(x, k).value] + CompileAll(xs, k).value)
  {
    assert ([x] + xs)[0] == x;
    assert ([x] + xs)[1..] == xs;
  }

  lemma {:induction false} FailingAppend(xs: seq<Instr>, a: Instr, k: nat)
    requires CompileAll(xs, k).Failure? || CompileInstr(a, k).Failure?
    ensures CompileAll(xs + [a], k).Failure?
    ensures CompileAll(xs + [a], k).error
         == if CompileAll(xs, k).Failure? then CompileAll(xs, k).error else CompileInstr(a, k).error
    decreases |xs|
  {
    if xs == [] {
      assert xs + [a] == [a];
      assert [a][1..] == [];
    } else {
      assert (xs + [a])[0] == xs[0];
      assert (xs + [a])[1..] == xs[1..] + [a];
      if CompileInstr(xs[0], k).Success? {
        FailingAppend(xs[1..], a, k);
      }
    }
  }

  /** Compiling fails exactly when the tree holds a node of unknown tag, and the
      error names the first such node. */
  lemma {:induction false} CompileFailure(i: Instr, k: nat)
    ensures CompileInstr(i, k).Failure? <==> FirstUnknown(i).Some?
    ensures CompileInstr(i, k).Failure? ==> CompileInstr(i, k).error == UnexpectedNode(FirstUnknown(i).value)
    decreases Size(i), 1
  {
    if !i.Unknown? {
      ChildrenSmaller(i);
      DispatchChildren(i, k);
      CompileAllFailure(Children(i), k + 1);
    }
  }

  lemma {:induction false} CompileAllFailure(xs: seq<Instr>, k: nat)
    ensures CompileAll(xs, k).Failure? <==> FirstUnknownIn(xs).Some?
    ensures CompileAll(xs, k).Failure? ==> CompileAll(xs, k).error == UnexpectedNode(FirstUnknownIn(xs).value)
    decreases SizeAll(xs), 2
  {
    if xs != [] {
      CompileFailure(xs[0], k);
      CompileAllFailure(xs[1..], k);
    }
  }

  /** The message thrown: `Unexpected <tag> node`, with the tag of the first
      unknown node. */
  lemma FailureMessage(i: Instr, k: nat)
    requires CompileInstr(i, k).Failure?
    ensures FirstUnknown(i).Some?
    ensures Message(CompileInstr(i, k).error) == "Unexpected " + FirstUnknown(i).value + " node"
  {
    CompileFailure(i, k);
  }
}
