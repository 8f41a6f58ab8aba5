/** The per-instruction encoders and the dispatcher `instr` of
    src/compiler.ts. Each encoder only chooses the head, the inline tokens and
    the block children it hands to the printer; the dispatcher renders the
    sub-instructions one level deeper and stops at the first node whose tag it
    does not know. */
module Encoder {
  import opened Wrappers
  import opened Text
  import opened SExpr
  import opened Nodes

  /** The one error the compiler raises: `Unexpected <tag> node`. */
  datatype CompileError = UnexpectedNode(nodeType: string)

  function Message(e: CompileError): string {
    "Unexpected " + e.nodeType + " node"
  }

  /** A name token, `$${name}`. */
  function Sigil(name: string): string {
    "$" + name
  }

  /** A branch target: a label as `$label`, a depth as its decimal digits. */
  function LabelText(l: Label): string {
    match l
    case Named(n) => Sigil(n)
    case Depth(d) => Decimal(d)
  }

  /** JavaScript truthiness of a `number | null` field: present and non-zero. */
  predicate Truthy(o: Option<nat>) {
    o.Some? && o.value != 0
  }

  /** JavaScript truthiness of a `string | null` field: present and non-empty. */
  predicate TruthyName(o: Option<string>) {
    o.Some? && o.value != ""
  }

  function BinaryOpName(op: BinaryOp): string {
    match op
    case Add => "add"
    case Sub => "sub"
    case Mul => "mul"
    case DivSigned => "div_s"
    case DivUnsigned => "div_u"
    case RemSigned => "rem_s"
    case RemUnsigned => "rem_u"
  }

  function StoreOpName(op: StoreOp): string {
    match op
    case StoreWhole => "store"
    case Store8 => "store8"
    case Store16 => "store16"
    case Store32 => "store32"
  }

  function LoadOpName(op: LoadOp): string {
    match op
    case LoadWhole => "load"
    case Load8SignExt => "load8_s"
    case Load8ZeroExt => "load8_u"
    case Load16SignExt => "load16_s"
    case Load16ZeroExt => "load16_u"
    case Load32SignExt => "load32_s"
    case Load32ZeroExt => "load32_u"
  }

  /** `<dataType>.<op>`: the head of every typed instruction. */
  function TypedHead(t: DataType, op: string): string {
    TypeName(t) + "." + op
  }

  // ---------------------------------------------------------------------------
  // Encoders. Arguments named after sub-instructions are their already
  // rendered texts, at `indent + 1`.
  // ---------------------------------------------------------------------------

  function EncodeVariableGet(head: string, name: string, indent: nat): string {
    Render(head, [Some(Sigil(name))], [], indent)
  }

  /** `local.set`, `local.tee`, `global.set`, `global.tee`. */
  function EncodeVariableWrite(head: string, name: string, value: string, indent: nat): string {
    Render(head, [Some(Sigil(name))], [Some(value)], indent)
  }

  function EncodeBinary(op: BinaryOp, t: DataType, left: string, right: string, indent: nat): string {
    Render(TypedHead(t, BinaryOpName(op)), [], [Some(left), Some(right)], indent)
  }

  /** The literal is copied verbatim. */
  function EncodeConst(t: DataType, literal: string, indent: nat): string {
    Render(TypedHead(t, "const"), [Some(literal)], [], indent)
  }

  function EncodeCall(name: string, args: seq<string>, indent: nat): string {
    Render("call", [Some(Sigil(name))], Somes(args), indent)
  }

  /** One `(param T)` line per parameter, from the first element of each pair. */
  function ParamTypeLines(params: seq<(DataType, string)>, indent: nat): (ls: seq<Option<string>>)
    ensures |ls| == |params|
    ensures forall j :: 0 <= j < |params| ==> ls[j] == Some(Space(indent) + ("(param " + TypeName(params[j].0) + ")"))
  {
    seq(|params|, j requires 0 <= j < |params| => Some(Space(indent) + ("(param " + TypeName(params[j].0) + ")")))
  }

  /** The result line is unconditional here: a `'none'` type prints `(result none)`. */
  function EncodeCallIndirect(tableName: string, params: seq<(DataType, string)>, t: DataType,
                              args: seq<string>, address: string, indent: nat): string
  {
    Render("call_indirect", [],
      [Some(Space(indent + 1) + Sigil(tableName))]
      + ParamTypeLines(params, indent + 1)
      + [Some(Space(indent + 1) + ("(result " + TypeName(t) + ")"))]
      + Somes(args)
      + [Some(address)],
      indent)
  }

  function EncodeBlock(labelName: Option<string>, returnType: DataType, body: seq<string>, indent: nat): string {
    Render("block", [],
      [ if TruthyName(labelName) then Some(Space(indent + 1) + Sigil(labelName.value)) else None,
        if returnType != NoneType then Some(Space(indent + 1) + ("(result " + TypeName(returnType) + ")")) else None ]
      + Somes(body),
      indent)
  }

  function EncodeDrop(value: string, indent: nat): string {
    Render("drop", [], [Some(value)], indent)
  }

  /** Both optional lines test truthiness: an explicit zero is omitted. */
  function EncodeStore(op: StoreOp, t: DataType, offset: Option<nat>, align: Option<nat>,
                       base: string, value: string, indent: nat): string
  {
    Render(TypedHead(t, StoreOpName(op)), [],
      [ if Truthy(offset) then Some(Space(indent + 1) + ("offset=" + Decimal(offset.value))) else None,
        if Truthy(align) then Some(Space(indent + 1) + ("align=" + Decimal(align.value))) else None,
        Some(base),
        Some(value) ],
      indent)
  }

  /** The offset line is kept only when truthy, the align line whenever it is not null. */
  function EncodeLoad(op: LoadOp, t: DataType, offset: Option<nat>, align: Option<nat>,
                      base: string, indent: nat): string
  {
    Render(TypedHead(t, LoadOpName(op)), [],
      [ if Truthy(offset) then Some(Space(indent + 1) + ("offset=" + Decimal(offset.value))) else None,
        if align.Some? then Some(Space(indent + 1) + ("align=" + Decimal(align.value))) else None,
        Some(base) ],
      indent)
  }

  /** The label goes inline whenever it is not null, even when empty. */
  function EncodeLoop(labelName: Option<string>, body: seq<string>, indent: nat): string {
    Render("loop", [if labelName.Some? then Some(Sigil(labelName.value)) else None], Somes(body), indent)
  }

  function EncodeBranchIf(target: Label, cond: string, indent: nat): string {
    Render("br_if", [Some(LabelText(target))], [Some(cond)], indent)
  }

  function EncodeBranch(target: Label, indent: nat): string {
    Render("br", [Some(LabelText(target))], [], indent)
  }

  function EncodeEqz(t: DataType, operand: string, indent: nat): string {
    Render(TypedHead(t, "eqz"), [], [Some(operand)], indent)
  }

  // ---------------------------------------------------------------------------
  // The dispatcher.
  // ---------------------------------------------------------------------------

  /** `instr(node, indent)`: routes the node to its encoder, rendering its
      sub-instructions at `indent + 1` in the order the encoder lists them. */
  function CompileInstr(i: Instr, indent: nat): Result<string, CompileError>
    decreases i, 1
  {
    match i
    case LocalGet(name) => Success(EncodeVariableGet("local.get", name, indent))
    case LocalSet(name, value) =>
      var v :- CompileInstr(value, indent + 1);
      Success(EncodeVariableWrite("local.set", name, v, indent))
    case LocalTee(name, value) =>
      var v :- CompileInstr(value, indent + 1);
      Success(EncodeVariableWrite("local.tee", name, v, indent))
    case GlobalGet(name) => Success(EncodeVariableGet("global.get", name, indent))
    case GlobalSet(name, value) =>
      var v :- CompileInstr(value, indent + 1);
      Success(EncodeVariableWrite("global.set", name, v, indent))
    case GlobalTee(name, value) =>
      var v :- CompileInstr(value, indent + 1);
      Success(EncodeVariableWrite("global.tee", name, v, indent))
    case Binary(op, t, left, right) =>
      var l :- CompileInstr(left, indent + 1);
      var r :- CompileInstr(right, indent + 1);
      Success(EncodeBinary(op, t, l, r, indent))
    case Const(t, literal) => Success(EncodeConst(t, literal, indent))
    case Call(name, args) =>
      var ts :- CompileAll(args, indent + 1);
      Success(EncodeCall(name, ts, indent))
    case CallIndirect(tableName, params, t, args, address) =>
      var ts :- CompileAll(args, indent + 1);
      var a :- CompileInstr(address, indent + 1);
      Success(EncodeCallIndirect(tableName, params, t, ts, a, indent))
    case Block(labelName, returnType, body) =>
      var ts :- CompileAll(body, indent + 1);
      Success(EncodeBlock(labelName, returnType, ts, indent))
    case Drop(value) =>
      var v :- CompileInstr(value, indent + 1);
      Success(EncodeDrop(v, indent))
    case Store(op, t, offset, align, base, value) =>
      var b :- CompileInstr(base, indent + 1);
      var v :- CompileInstr(value, indent + 1);
      Success(EncodeStore(op, t, offset, align, b, v, indent))
    case Load(op, t, offset, align, base) =>
      var b :- CompileInstr(base, indent + 1);
      Success(EncodeLoad(op, t, offset, align, b, indent))
    case Loop(labelName, body) =>
      var ts :- CompileAll(body, indent + 1);
      Success(EncodeLoop(labelName, ts, indent))
    case BranchIf(target, cond) =>
      var c :- CompileInstr(cond, indent + 1);
      Success(EncodeBranchIf(target, c, indent))
    case Branch(target) => Success(EncodeBranch(target, indent))
    case Eqz(t, right) =>
      var r :- CompileInstr(right, indent + 1);
      Success(EncodeEqz(t, r, indent))
    case Unknown(tag) => Failure(UnexpectedNode(tag))
  }

  /** `xs.map((x) => instr(x, indent))`: every element in order, or the
      first element's error. */
  function CompileAll(xs: seq<Instr>, indent: nat): Result<seq<string>, CompileError>
    decreases xs, 0
  {
    if xs == [] then Success([])
    else
      var h :- CompileInstr(xs[0], indent);
      var t :- CompileAll(xs[1..], indent);
      Success([h] + t)
  }
}
