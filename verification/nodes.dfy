/** The compiler's input: the instruction tree (the `./nodes` definitions) and
    the module description (`./module`). The definitions themselves are not
    part of this model; the fields below are the ones src/compiler.ts reads. */
module Nodes {
  import opened Wrappers

  /** The `DataType` union; `NoneType` is the `'none'` result sentinel. */
  datatype DataType = I32 | I64 | F32 | F64 | NoneType

  function TypeName(t: DataType): string {
    match t
    case I32 => "i32"
    case I64 => "i64"
    case F32 => "f32"
    case F64 => "f64"
    case NoneType => "none"
  }

  /** The seven arithmetic kinds built by `makeBinaryCompiler`. */
  datatype BinaryOp = Add | Sub | Mul | DivSigned | DivUnsigned | RemSigned | RemUnsigned

  /** The four kinds built by `makeStoreCompiler`. */
  datatype StoreOp = StoreWhole | Store8 | Store16 | Store32

  /** The seven kinds built by `makeLoadCompiler`. */
  datatype LoadOp =
    | LoadWhole
    | Load8SignExt | Load8ZeroExt
    | Load16SignExt | Load16ZeroExt
    | Load32SignExt | Load32ZeroExt

  /** A branch target, `branchTo: string | number`: a label name or a relative depth. */
  datatype Label = Named(name: string) | Depth(depth: nat)

  /** One instruction node. Each variant stands for one `__nodeType` tag (the
      grouped ones for one tag per operator); `Unknown` stands for a node whose
      tag is none of the 33 the dispatcher knows. Offsets and alignments are
      `number | null`, written as an Option. */
  datatype Instr =
    | LocalGet(name: string)
    | LocalSet(name: string, value: Instr)
    | LocalTee(name: string, value: Instr)
    | GlobalGet(name: string)
    | GlobalSet(name: string, value: Instr)
    | GlobalTee(name: string, value: Instr)
    | Binary(op: BinaryOp, dataType: DataType, left: Instr, right: Instr)
    | Const(dataType: DataType, literal: string)
    | Call(name: string, args: seq<Instr>)
    | CallIndirect(tableName: string, params: seq<(DataType, string)>, dataType: DataType,
                   args: seq<Instr>, address: Instr)
    | Block(labelName: Option<string>, returnType: DataType, body: seq<Instr>)
    | Drop(value: Instr)
    | Store(storeOp: StoreOp, dataType: DataType, offset: Option<nat>, align: Option<nat>,
            base: Instr, value: Instr)
    | Load(loadOp: LoadOp, dataType: DataType, offset: Option<nat>, align: Option<nat>, base: Instr)
    | Loop(labelName: Option<string>, body: seq<Instr>)
    | BranchIf(branchTo: Label, cond: Instr)
    | Branch(branchTo: Label)
    | Eqz(dataType: DataType, right: Instr)
    | Unknown(nodeType: string)

  /** The `__nodeType` tag the dispatcher matches on. */
  function NodeType(i: Instr): string {
    match i
    case LocalGet(_) => "localGet"
    case LocalSet(_, _) => "localSet"
    case LocalTee(_, _) => "localTee"
    case GlobalGet(_) => "globalGet"
    case GlobalSet(_, _) => "globalSet"
    case GlobalTee(_, _) => "globalTee"
    case Binary(op, _, _, _) =>
      (match op
       case Add => "add"
       case Sub => "sub"
       case Mul => "mul"
       case DivSigned => "divSigned"
       case DivUnsigned => "divUnsigned"
       case RemSigned => "remSigned"
       case RemUnsigned => "remUnsigned")
    case Const(_, _) => "const"
    case Call(_, _) => "call"
    case CallIndirect(_, _, _, _, _) => "callIndirect"
    case Block(_, _, _) => "block"
    case Drop(_) => "drop"
    case Store(op, _, _, _, _, _) =>
      (match op
       case StoreWhole => "store"
       case Store8 => "store8"
       case Store16 => "store16"
       case Store32 => "store32")
    case Load(op, _, _, _, _) =>
      (match op
       case LoadWhole => "load"
       case Load8SignExt => "load8SignExt"
       case Load8ZeroExt => "load8ZeroExt"
       case Load16SignExt => "load16SignExt"
       case Load16ZeroExt => "load16ZeroExt"
       case Load32SignExt => "load32SignExt"
       case Load32ZeroExt => "load32ZeroExt")
    case Loop(_, _) => "loop"
    case BranchIf(_, _) => "branchIf"
    case Branch(_) => "branch"
    case Eqz(_, _) => "eqz"
    case Unknown(t) => t
  }

  /** A byte of a data segment. */
  type Byte = b: int | 0 <= b < 256

  datatype DataSegment = DataSegment(offset: Instr, data: seq<Byte>)

  datatype Memory = Memory(name: string, initSize: nat, maxSize: nat, segments: seq<DataSegment>)

  datatype ElemSegment = ElemSegment(offset: Instr, elems: seq<string>)

  datatype Table = Table(name: string, initSize: nat, maxSize: nat, elemType: string,
                         segments: seq<ElemSegment>)

  datatype Global = Global(name: string, dataType: DataType, mutable: bool, initVal: Instr)

  /** A function; `params` and `locals` are `[dataType, name]` pairs. */
  datatype Func = Func(name: string, exportName: Option<string>, params: seq<(DataType, string)>,
                       dataType: DataType, locals: seq<(DataType, string)>, body: Instr)

  datatype Module = Module(memories: seq<Memory>, tables: seq<Table>, globals: seq<Global>,
                           funcs: seq<Func>, start: Option<string>)
}
