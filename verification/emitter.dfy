/** The module emitter, `compile(m)` in src/compiler.ts: the whole module is one
    `(module ...)` expression whose block entries are, in this order, every
    memory (declaration, export, data segments), every table (declaration,
    element segments), every global, the export of every exported function,
    every function, and the start directive. `Outline` lists those entries;
    `RenderEntry` prints each the way the source's inline expressions do. */
module Emitter {
  import opened Wrappers
  import opened Text
  import opened SExpr
  import opened Nodes
  import opened Encoder
  import opened InstrLayout
  import opened InstrTree
  import opened Escaping

  /** One block entry of the module expression. */
  datatype Entry =
    | MemoryDecl(memory: Memory)
    | MemoryExport(memory: Memory)
    | DataEntry(data: DataSegment)
    | TableDecl(table: Table)
    | ElemEntry(elem: ElemSegment)
    | GlobalEntry(glob: Global)
    | FuncExport(exportName: string, funcName: string)
    | FuncEntry(func: Func)
    | StartEntry(start: string)

  // ---------------------------------------------------------------------------
  // The outline: which entries, in which order.
  // ---------------------------------------------------------------------------

  function DataEntries(segs: seq<DataSegment>): (es: seq<Entry>)
    ensures |es| == |segs| && forall j :: 0 <= j < |segs| ==> es[j] == DataEntry(segs[j])
  {
    seq(|segs|, j requires 0 <= j < |segs| => DataEntry(segs[j]))
  }

  /** `m.memories.flatMap(...)`: each memory's declaration, its export, then one
      entry per data segment. */
  function MemoryOutline(mems: seq<Memory>): seq<Entry>
    decreases |mems|
  {
    if mems == [] then []
    else [MemoryDecl(mems[0]), MemoryExport(mems[0])] + DataEntries(mems[0].segments) + MemoryOutline(mems[1..])
  }

  function ElemEntries(segs: seq<ElemSegment>): (es: seq<Entry>)
    ensures |es| == |segs| && forall j :: 0 <= j < |segs| ==> es[j] == ElemEntry(segs[j])
  {
    seq(|segs|, j requires 0 <= j < |segs| => ElemEntry(segs[j]))
  }

  /** `m.tables.flatMap(...)`: each table's declaration, then its element segments. */
  function TableOutline(tables: seq<Table>): seq<Entry>
    decreases |tables|
  {
    if tables == [] then []
    else [TableDecl(tables[0])] + ElemEntries(tables[0].segments) + TableOutline(tables[1..])
  }

  function GlobalEntries(gs: seq<Global>): (es: seq<Entry>)
    ensures |es| == |gs| && forall j :: 0 <= j < |gs| ==> es[j] == GlobalEntry(gs[j])
  {
    seq(|gs|, j requires 0 <= j < |gs| => GlobalEntry(gs[j]))
  }

  /** `m.funcs.filter((func) => func.exportName).map(...)`: an export for every
      function whose export name is neither null nor empty, in order. */
  function FuncExports(funcs: seq<Func>): seq<Entry>
    decreases |funcs|
  {
    if funcs == [] then []
    else
      (if TruthyName(funcs[0].exportName) then [FuncExport(funcs[0].exportName.value, funcs[0].name)] else [])
      + FuncExports(funcs[1..])
  }

  function FuncEntries(funcs: seq<Func>): (es: seq<Entry>)
    ensures |es| == |funcs| && forall j :: 0 <= j < |funcs| ==> es[j] == FuncEntry(funcs[j])
  {
    seq(|funcs|, j requires 0 <= j < |funcs| => FuncEntry(funcs[j]))
  }

  /** `m.start !== null ? ... : null`, the null dropped by the printer's filter. */
  function StartEntries(start: Option<string>): seq<Entry> {
    if start.Some? then [StartEntry(start.value)] else []
  }

  function Outline(m: Module): seq<Entry> {
    MemoryOutline(m.memories) + TableOutline(m.tables) + GlobalEntries(m.globals)
    + FuncExports(m.funcs) + FuncEntries(m.funcs) + StartEntries(m.start)
  }

  // ---------------------------------------------------------------------------
  // Printing the entries.
  // ---------------------------------------------------------------------------

  function Quoted(s: string): string {
    "\"" + s + "\""
  }

  /** `(${global.mutable ? 'mut ' : ''}${global.dataType})` */
  function GlobalType(g: Global): string {
    "(" + (if g.mutable then "mut " else "") + TypeName(g.dataType) + ")"
  }

  /** The `(param $name T)` or `(local $name T)` texts of a function. */
  function DeclarationTexts(opening: string, decls: seq<(DataType, string)>): (ds: seq<string>)
    ensures |ds| == |decls|
    ensures forall j :: 0 <= j < |decls| ==>
              ds[j] == opening + Sigil(decls[j].1) + " " + TypeName(decls[j].0) + ")"
  {
    seq(|decls|, j requires 0 <= j < |decls| =>
      opening + Sigil(decls[j].1) + " " + TypeName(decls[j].0) + ")")
  }

  /** What a function prints between its head and its body, each on its own
      line at depth 2: parameters, the result unless it is `none`, locals. */
  function FuncDirectives(f: Func): seq<Option<string>> {
    Somes(DeclarationTexts("(param ", f.params))
    + [When(f.dataType != NoneType, "(result " + TypeName(f.dataType) + ")")]
    + Somes(DeclarationTexts("(local ", f.locals))
  }

  /** Each entry as the source prints it, at depth 1; embedded expressions are
      compiled at depth 2. */
  function RenderEntry(e: Entry, esc: Escaping): Result<string, CompileError> {
    match e
    case MemoryDecl(mem) =>
      Success(Render("memory", [Some(Sigil(mem.name)), Some(Decimal(mem.initSize)), Some(Decimal(mem.maxSize))], [], 1))
    case MemoryExport(mem) =>
      Success(Render("export", [Some(Quoted(mem.name)), Some("(memory " + Sigil(mem.name) + ")")], [], 1))
    case DataEntry(seg) =>
      var offset :- CompileInstr(seg.offset, 2);
      Success(Render("data", [], [Some(offset), Some(Space(2) + DataString(esc, seg.data))], 1))
    case TableDecl(t) =>
      Success(Render("table", [Some(Sigil(t.name)), Some(Decimal(t.initSize)), Some(Decimal(t.maxSize)), Some(t.elemType)], [], 1))
    case ElemEntry(seg) =>
      var offset :- CompileInstr(seg.offset, 2);
      Success(Render("elem", [], [Some(offset), Some(Space(2) + Join(" ", Sigils(seg.elems)))], 1))
    case GlobalEntry(g) =>
      var init :- CompileInstr(g.initVal, 2);
      Success(Render("global", [Some(Sigil(g.name)), Some(GlobalType(g))], [Some(init)], 1))
    case FuncExport(exportName, funcName) =>
      Success(Render("export", [Some(Quoted(exportName)), Some("(func " + Sigil(funcName) + ")")], [], 1))
    case FuncEntry(f) =>
      var body :- CompileInstr(f.body, 2);
      Success(Render("func", [Some(Sigil(f.name))], IndentOpts(2, FuncDirectives(f)) + [Some(body)], 1))
    case StartEntry(s) =>
      Success(Render("start", [Some(Sigil(s))], [], 1))
  }

  function Sigils(names: seq<string>): (ss: seq<string>)
    ensures |ss| == |names| && forall j :: 0 <= j < |names| ==> ss[j] == Sigil(names[j])
  {
    seq(|names|, j requires 0 <= j < |names| => Sigil(names[j]))
  }

  /** Every entry in order, or the first error: the order in which the source
      evaluates the embedded `instr` calls. */
  function RenderEntries(es: seq<Entry>, esc: Escaping): Result<seq<string>, CompileError>
    decreases |es|
  {
    if es == [] then Success([])
    else
      var h :- RenderEntry(es[0], esc);
      var t :- RenderEntries(es[1..], esc);
      Success([h] + t)
  }

  /** The module text with the given data-byte escape. */
  function Emit(m: Module, esc: Escaping): Result<string, CompileError> {
    var entries :- RenderEntries(Outline(m), esc);
    Success(Render("module", [], Somes(entries), 0))
  }

  /** `compile(m)`: the source's own escape. */
  function Compile(m: Module): Result<string, CompileError> {
    Emit(m, AsWritten)
  }

  /** The module text with data bytes written as two-digit escapes. */
  function CompileCorrected(m: Module): Result<string, CompileError> {
    Emit(m, TwoDigit)
  }

  // ---------------------------------------------------------------------------
  // Order of the entries.
  // ---------------------------------------------------------------------------

  /** The section an entry belongs to, in emission order. */
  function Rank(e: Entry): nat {
    match e
    case MemoryDecl(_) => 0
    case MemoryExport(_) => 0
    case DataEntry(_) => 0
    case TableDecl(_) => 1
    case ElemEntry(_) => 1
    case GlobalEntry(_) => 2
    case FuncExport(_, _) => 3
    case FuncEntry(_) => 4
    case StartEntry(_) => 5
  }

  predicate AllRank(es: seq<Entry>, r: nat) {
    forall j :: 0 <= j < |es| ==> Rank(es[j]) == r
  }

  predicate Ordered(es: seq<Entry>) {
    forall i, j :: 0 <= i < j < |es| ==> Rank(es[i]) <= Rank(es[j])
  }

  lemma {:induction false} MemoryOutlineRank(mems: seq<Memory>)
    ensures AllRank(MemoryOutline(mems), 0)
    decreases |mems|
  {
    if mems != [] {
      MemoryOutlineRank(mems[1..]);
    }
  }

  lemma {:induction false} TableOutlineRank(tables: seq<Table>)
    ensures AllRank(TableOutline(tables), 1)
    decreases |tables|
  {
    if tables != [] {
      TableOutlineRank(tables[1..]);
    }
  }

  lemma {:induction false} FuncExportsRank(funcs: seq<Func>)
    ensures AllRank(FuncExports(funcs), 3)
    decreases |funcs|
  {
    if funcs != [] {
      FuncExportsRank(funcs[1..]);
    }
  }

  /** Appending a section of rank `r` to entries ranked at most `r` keeps them in order. */
  lemma AppendSection(a: seq<Entry>, b: seq<Entry>, r: nat)
    requires Ordered(a) && (forall j :: 0 <= j < |a| ==> Rank(a[j]) <= r)
    requires AllRank(b, r)
    ensures Ordered(a + b) && forall j :: 0 <= j < |a + b| ==> Rank((a + b)[j]) <= r
  {
  }

  lemma OrderedUpToGlobals(m: Module)
    ensures var o := MemoryOutline(m.memories) + TableOutline(m.tables) + GlobalEntries(m.globals);
            Ordered(o) && forall j :: 0 <= j < |o| ==> Rank(o[j]) <= 2
  {
    MemoryOutlineRank(m.memories);
    TableOutlineRank(m.tables);
    var s0 := MemoryOutline(m.memories);
    assert Ordered(s0) && forall j :: 0 <= j < |s0| ==> Rank(s0[j]) <= 0;
    AppendSection(s0, TableOutline(m.tables), 1);
    AppendSection(s0 + TableOutline(m.tables), GlobalEntries(m.globals), 2);
  }

  lemma OrderedUpToFuncs(m: Module)
    ensures var o := MemoryOutline(m.memories) + TableOutline(m.tables) + GlobalEntries(m.globals)
                     + FuncExports(m.funcs) + FuncEntries(m.funcs);
            Ordered(o) && forall j :: 0 <= j < |o| ==> Rank(o[j]) <= 4
  {
    OrderedUpToGlobals(m);
    FuncExportsRank(m.funcs);
    var s2 := MemoryOutline(m.memories) + TableOutline(m.tables) + GlobalEntries(m.globals);
    AppendSection(s2, FuncExports(m.funcs), 3);
    AppendSection(s2 + FuncExports(m.funcs), FuncEntries(m.funcs), 4);
  }

  /** Sections never interleave: the entries' ranks never decrease, and only
      the start directive has rank 5. */
  lemma OutlineOrdered(m: Module)
    ensures Ordered(Outline(m))
    ensures forall j :: 0 <= j < |Outline(m)| - |StartEntries(m.start)| ==> Rank(Outline(m)[j]) <= 4
  {
    OrderedUpToFuncs(m);
    var s4 := MemoryOutline(m.memories) + TableOutline(m.tables) + GlobalEntries(m.globals)
              + FuncExports(m.funcs) + FuncEntries(m.funcs);
    AppendSection(s4, StartEntries(m.start), 5);
  }

  /** Every function export comes before every function. */
  lemma ExportsBeforeFuncs(m: Module)
    ensures forall i, j ::
              (0 <= i < |Outline(m)| && 0 <= j < |Outline(m)|
               && Outline(m)[i].FuncExport? && Outline(m)[j].FuncEntry?) ==> i < j
  {
    OutlineOrdered(m);
  }

  /** `(start $s)` is the last entry when the module has a start function, and
      there is no start entry otherwise. */
  lemma StartLast(m: Module)
    ensures m.start.Some? <==> |Outline(m)| > 0 && Outline(m)[|Outline(m)| - 1].StartEntry?
    ensures m.start.Some? ==> Outline(m)[|Outline(m)| - 1] == StartEntry(m.start.value)
    ensures forall j :: 0 <= j < |Outline(m)| - 1 ==> !Outline(m)[j].StartEntry?
  {
    OutlineOrdered(m);
  }

  // ---------------------------------------------------------------------------
  // What follows each declaration.
  // ---------------------------------------------------------------------------

  /** What the source emits straight after an entry, inside the same `flatMap`
      element: a memory's export and data segments, a table's element
      segments, and nothing after any other entry. */
  function Trailer(e: Entry): seq<Entry> {
    match e
    case MemoryDecl(mem) => [MemoryExport(mem)] + DataEntries(mem.segments)
    case TableDecl(t) => ElemEntries(t.segments)
    case _ => []
  }

  /** The entry at `j` is followed at once by its trailer. */
  predicate TrailerAt(o: seq<Entry>, j: nat)
    requires j < |o|
  {
    j + 1 + |Trailer(o[j])| <= |o| && o[j + 1..j + 1 + |Trailer(o[j])|] == Trailer(o[j])
  }

  /** Every entry of `o` is followed at once by its trailer. */
  predicate TrailersFollow(o: seq<Entry>) {
    forall j :: 0 <= j < |o| ==> TrailerAt(o, j)
  }

  lemma ShiftTrailer(a: seq<Entry>, b: seq<Entry>, i: nat)
    requires TrailersFollow(b) && i < |b|
    ensures var j, n := |a| + i, |Trailer(b[i])|;
            (a + b)[j] == b[i] && j + 1 + n <= |a + b| && (a + b)[j + 1..j + 1 + n] == Trailer(b[i])
  {
    var n := |Trailer(b[i])|;
    assert TrailerAt(b, i);
    SliceShift(a, b, i + 1, i + 1 + n);
  }

  lemma SliceShift(a: seq<Entry>, b: seq<Entry>, lo: nat, hi: nat)
    requires lo <= hi <= |b|
    ensures (a + b)[|a| + lo..|a| + hi] == b[lo..hi]
  {
  }

  lemma KeepTrailer(a: seq<Entry>, b: seq<Entry>, j: nat)
    requires TrailersFollow(a) && j < |a|
    ensures var n := |Trailer(a[j])|;
            (a + b)[j] == a[j] && j + 1 + n <= |a + b| && (a + b)[j + 1..j + 1 + n] == Trailer(a[j])
  {
    var n := |Trailer(a[j])|;
    assert TrailerAt(a, j);
    assert (a + b)[j + 1..j + 1 + n] == a[j + 1..j + 1 + n];
  }

  /** Trailers are self-contained, so concatenation keeps the property. */
  lemma AppendTrailers(a: seq<Entry>, b: seq<Entry>)
    requires TrailersFollow(a) && TrailersFollow(b)
    ensures TrailersFollow(a + b)
  {
    forall j | 0 <= j < |a + b| ensures TrailerAt(a + b, j) {
      if j < |a| {
        KeepTrailer(a, b, j);
      } else {
        ShiftTrailer(a, b, j - |a|);
      }
    }
  }

  lemma NoTrailers(es: seq<Entry>)
    requires forall j :: 0 <= j < |es| ==> Trailer(es[j]) == []
    ensures TrailersFollow(es)
  {
    forall j | 0 <= j < |es| ensures TrailerAt(es, j) {
      assert es[j + 1..j + 1] == [];
    }
  }

  /** An entry followed by its own trailer, whose entries carry none. */
  lemma OwnTrailer(e: Entry)
    requires forall j :: 0 <= j < |Trailer(e)| ==> Trailer(Trailer(e)[j]) == []
    ensures TrailersFollow([e] + Trailer(e))
  {
    var h := [e] + Trailer(e);
    assert h[1..1 + |Trailer(e)|] == Trailer(e);
    assert TrailerAt(h, 0);
    forall j | 0 < j < |h| ensures TrailerAt(h, j) {
      assert h[j] == Trailer(e)[j - 1];
      assert h[j + 1..j + 1] == [];
    }
  }

  lemma MemoryTrailerBare(mem: Memory)
    ensures forall j :: 0 <= j < |Trailer(MemoryDecl(mem))| ==> Trailer(Trailer(MemoryDecl(mem))[j]) == []
  {
    var t := Trailer(MemoryDecl(mem));
    forall j | 0 < j < |t| ensures t[j].DataEntry? {
      assert t[j] == DataEntries(mem.segments)[j - 1];
    }
  }

  /** One memory's declaration and trailer, then the other memories. */
  lemma MemoryOutlineCons(mems: seq<Memory>)
    requires mems != []
    ensures var d := MemoryDecl(mems[0]);
            MemoryOutline(mems) == ([d] + Trailer(d)) + MemoryOutline(mems[1..])
            && MemoryOutline(mems) == [d] + (Trailer(d) + MemoryOutline(mems[1..]))
  {
    var mem := mems[0];
    assert Trailer(MemoryDecl(mem)) == [MemoryExport(mem)] + DataEntries(mem.segments);
    Regroup(MemoryDecl(mem), MemoryExport(mem), DataEntries(mem.segments), MemoryOutline(mems[1..]));
  }

  lemma Regroup(d: Entry, x: Entry, ds: seq<Entry>, rest: seq<Entry>)
    ensures [d, x] + ds + rest == ([d] + ([x] + ds)) + rest
    ensures [d, x] + ds + rest == [d] + (([x] + ds) + rest)
  {
    assert [d, x] == [d] + [x];
  }

  lemma {:induction false} MemoryTrailers(mems: seq<Memory>)
    ensures TrailersFollow(MemoryOutline(mems))
    decreases |mems|
  {
    if mems != [] {
      var d := MemoryDecl(mems[0]);
      MemoryOutlineCons(mems);
      MemoryTrailerBare(mems[0]);
      OwnTrailer(d);
      MemoryTrailers(mems[1..]);
      AppendTrailers([d] + Trailer(d), MemoryOutline(mems[1..]));
    }
  }

  lemma {:induction false} TableTrailers(tables: seq<Table>)
    ensures TrailersFollow(TableOutline(tables))
    decreases |tables|
  {
    if tables != [] {
      var d := TableDecl(tables[0]);
      OwnTrailer(d);
      TableTrailers(tables[1..]);
      AppendTrailers([d] + Trailer(d), TableOutline(tables[1..]));
    }
  }

  /** The sections after the tables: entries without trailers. */
  lemma RestTrailers(m: Module)
    ensures TrailersFollow(GlobalEntries(m.globals) + FuncExports(m.funcs) + FuncEntries(m.funcs) + StartEntries(m.start))
  {
    var rest := GlobalEntries(m.globals) + FuncExports(m.funcs) + FuncEntries(m.funcs) + StartEntries(m.start);
    FuncExportsRank(m.funcs);
    forall j | 0 <= j < |rest| ensures Trailer(rest[j]) == [] {
      assert Rank(rest[j]) >= 2;
    }
    NoTrailers(rest);
  }

  lemma OutlineTrailers(m: Module)
    ensures TrailersFollow(Outline(m))
  {
    var mo, to := MemoryOutline(m.memories), TableOutline(m.tables);
    var rest := GlobalEntries(m.globals) + FuncExports(m.funcs) + FuncEntries(m.funcs) + StartEntries(m.start);
    assert Outline(m) == (mo + to) + rest;
    MemoryTrailers(m.memories);
    TableTrailers(m.tables);
    RestTrailers(m);
    AppendTrailers(mo, to);
    AppendTrailers(mo + to, rest);
  }

  /** Every memory declaration is followed at once by its export line and then
      by its data segments, unconditionally. */
  lemma MemoryExportFollows(m: Module)
    ensures var o := Outline(m);
            forall j :: 0 <= j < |o| && o[j].MemoryDecl? ==>
              j + 2 + |o[j].memory.segments| <= |o|
              && o[j + 1..j + 2 + |o[j].memory.segments|]
                 == [MemoryExport(o[j].memory)] + DataEntries(o[j].memory.segments)
  {
    OutlineTrailers(m);
    var o := Outline(m);
    forall j | 0 <= j < |o| && o[j].MemoryDecl?
      ensures j + 2 + |o[j].memory.segments| <= |o|
      ensures o[j + 1..j + 2 + |o[j].memory.segments|]
              == [MemoryExport(o[j].memory)] + DataEntries(o[j].memory.segments)
    {
      assert TrailerAt(o, j);
    }
  }

  /** Every table declaration is followed at once by its element segments, in
      order; an element segment never precedes its own table. */
  lemma TableElemsFollow(m: Module)
    ensures var o := Outline(m);
            forall j :: 0 <= j < |o| && o[j].TableDecl? ==>
              j + 1 + |o[j].table.segments| <= |o|
              && o[j + 1..j + 1 + |o[j].table.segments|] == ElemEntries(o[j].table.segments)
  {
    OutlineTrailers(m);
    var o := Outline(m);
    forall j | 0 <= j < |o| && o[j].TableDecl?
      ensures j + 1 + |o[j].table.segments| <= |o|
      ensures o[j + 1..j + 1 + |o[j].table.segments|] == ElemEntries(o[j].table.segments)
    {
      assert TrailerAt(o, j);
    }
  }

  lemma OutlineSplit(m: Module, tail: seq<Entry>)
    requires tail == TableOutline(m.tables) + GlobalEntries(m.globals)
                     + FuncExports(m.funcs) + FuncEntries(m.funcs) + StartEntries(m.start)
    ensures Outline(m) == MemoryOutline(m.memories) + tail
  {
  }

  lemma TailRank(m: Module, tail: seq<Entry>)
    requires tail == TableOutline(m.tables) + GlobalEntries(m.globals)
                     + FuncExports(m.funcs) + FuncEntries(m.funcs) + StartEntries(m.start)
    ensures forall j :: 0 <= j < |tail| ==> Rank(tail[j]) >= 1
  {
    TableOutlineRank(m.tables);
    FuncExportsRank(m.funcs);
  }

  // ---------------------------------------------------------------------------
  // What the outline holds, kind by kind.
  // ---------------------------------------------------------------------------

  /** The kind of an entry, one per constructor. */
  datatype Kind =
    | MemoryKind | MemoryExportKind | DataKind | TableKind | ElemKind
    | GlobalKind | FuncExportKind | FuncKind | StartKind

  function KindOf(e: Entry): Kind {
    match e
    case MemoryDecl(_) => MemoryKind
    case MemoryExport(_) => MemoryExportKind
    case DataEntry(_) => DataKind
    case TableDecl(_) => TableKind
    case ElemEntry(_) => ElemKind
    case GlobalEntry(_) => GlobalKind
    case FuncExport(_, _) => FuncExportKind
    case FuncEntry(_) => FuncKind
    case StartEntry(_) => StartKind
  }

  /** The section every entry of a kind belongs to. */
  function KindRank(k: Kind): nat {
    match k
    case MemoryKind => 0
    case MemoryExportKind => 0
    case DataKind => 0
    case TableKind => 1
    case ElemKind => 1
    case GlobalKind => 2
    case FuncExportKind => 3
    case FuncKind => 4
    case StartKind => 5
  }

  lemma RankOfKind(e: Entry)
    ensures Rank(e) == KindRank(KindOf(e))
  {
  }

  /** The entries of kind `k`, in order. */
  function OfKind(es: seq<Entry>, k: Kind): (r: seq<Entry>)
    ensures |r| <= |es|
    ensures forall j :: 0 <= j < |r| ==> KindOf(r[j]) == k
    decreases |es|
  {
    if es == [] then []
    else (if KindOf(es[0]) == k then [es[0]] else []) + OfKind(es[1..], k)
  }

  lemma {:induction false} OfKindAppend(a: seq<Entry>, b: seq<Entry>, k: Kind)
    ensures OfKind(a + b, k) == OfKind(a, k) + OfKind(b, k)
    decreases |a|
  {
    if a == [] {
      assert a + b == b;
    } else {
      assert (a + b)[0] == a[0];
      assert (a + b)[1..] == a[1..] + b;
      OfKindAppend(a[1..], b, k);
      Regroup3(if KindOf(a[0]) == k then [a[0]] else [], OfKind(a[1..], k), OfKind(b, k));
    }
  }

  lemma Regroup3(x: seq<Entry>, y: seq<Entry>, z: seq<Entry>)
    ensures x + (y + z) == (x + y) + z
  {
  }

  lemma {:induction false} OfKindNone(es: seq<Entry>, k: Kind)
    requires forall j :: 0 <= j < |es| ==> KindOf(es[j]) != k
    ensures OfKind(es, k) == []
    decreases |es|
  {
    if es != [] {
      OfKindNone(es[1..], k);
    }
  }

  lemma {:induction false} OfKindAll(es: seq<Entry>, k: Kind)
    requires forall j :: 0 <= j < |es| ==> KindOf(es[j]) == k
    ensures OfKind(es, k) == es
    decreases |es|
  {
    if es != [] {
      OfKindAll(es[1..], k);
      assert es == [es[0]] + es[1..];
    }
  }

  lemma OutsideSection(es: seq<Entry>, k: Kind)
    requires forall j :: 0 <= j < |es| ==> Rank(es[j]) != KindRank(k)
    ensures OfKind(es, k) == []
  {
    forall j | 0 <= j < |es| ensures KindOf(es[j]) != k {
      RankOfKind(es[j]);
    }
    OfKindNone(es, k);
  }

  /** Entries of a kind come only from that kind's section. */
  lemma SectionOfKind(pre: seq<Entry>, sec: seq<Entry>, post: seq<Entry>, k: Kind)
    requires forall j :: 0 <= j < |pre| ==> Rank(pre[j]) < KindRank(k)
    requires forall j :: 0 <= j < |post| ==> Rank(post[j]) > KindRank(k)
    ensures OfKind(pre + sec + post, k) == OfKind(sec, k)
  {
    OfKindAppend(pre + sec, post, k);
    OfKindAppend(pre, sec, k);
    OutsideSection(pre, k);
    OutsideSection(post, k);
  }

  lemma SectionRanks(m: Module)
    ensures AllRank(MemoryOutline(m.memories), 0) && AllRank(TableOutline(m.tables), 1)
    ensures AllRank(GlobalEntries(m.globals), 2) && AllRank(FuncExports(m.funcs), 3)
    ensures AllRank(FuncEntries(m.funcs), 4) && AllRank(StartEntries(m.start), 5)
  {
    MemoryOutlineRank(m.memories);
    TableOutlineRank(m.tables);
    FuncExportsRank(m.funcs);
  }

  function MemoryDecls(mems: seq<Memory>): (es: seq<Entry>)
    ensures |es| == |mems| && forall j :: 0 <= j < |mems| ==> es[j] == MemoryDecl(mems[j])
  {
    seq(|mems|, j requires 0 <= j < |mems| => MemoryDecl(mems[j]))
  }

  function TableDecls(tables: seq<Table>): (es: seq<Entry>)
    ensures |es| == |tables| && forall j :: 0 <= j < |tables| ==> es[j] == TableDecl(tables[j])
  {
    seq(|tables|, j requires 0 <= j < |tables| => TableDecl(tables[j]))
  }

  lemma {:induction false} MemoryOutlineKind(mems: seq<Memory>)
    ensures OfKind(MemoryOutline(mems), MemoryKind) == MemoryDecls(mems)
    decreases |mems|
  {
    if mems != [] {
      var d := MemoryDecl(mems[0]);
      MemoryOutlineCons(mems);
      MemoryTrailerKinds(mems[0]);
      LeadOfKind(d, Trailer(d), MemoryOutline(mems[1..]), MemoryKind);
      MemoryOutlineKind(mems[1..]);
      MemoryDeclsCons(mems);
    }
  }

  lemma MemoryTrailerKinds(mem: Memory)
    ensures forall j :: 0 <= j < |Trailer(MemoryDecl(mem))| ==> KindOf(Trailer(MemoryDecl(mem))[j]) != MemoryKind
  {
    var t := Trailer(MemoryDecl(mem));
    forall j | 0 < j < |t| ensures t[j].DataEntry? {
      assert t[j] == DataEntries(mem.segments)[j - 1];
    }
  }

  /** A section's lead entry followed by entries of other kinds. */
  lemma LeadOfKind(d: Entry, tr: seq<Entry>, rest: seq<Entry>, k: Kind)
    requires KindOf(d) == k
    requires forall j :: 0 <= j < |tr| ==> KindOf(tr[j]) != k
    ensures OfKind([d] + (tr + rest), k) == [d] + OfKind(rest, k)
  {
    OfKindNone(tr, k);
    OfKindAppend(tr, rest, k);
    OfKindAppend([d], tr + rest, k);
    OfKindSingle(d, k);
  }

  lemma {:induction false} TableOutlineKind(tables: seq<Table>)
    ensures OfKind(TableOutline(tables), TableKind) == TableDecls(tables)
    decreases |tables|
  {
    if tables != [] {
      var d := TableDecl(tables[0]);
      var es := ElemEntries(tables[0].segments);
      assert TableOutline(tables) == [d] + (es + TableOutline(tables[1..]));
      LeadOfKind(d, es, TableOutline(tables[1..]), TableKind);
      TableOutlineKind(tables[1..]);
      TableDeclsCons(tables);
    }
  }

  lemma OfKindSingle(e: Entry, k: Kind)
    ensures OfKind([e], k) == if KindOf(e) == k then [e] else []
  {
    assert [e][1..] == [];
  }

  lemma TableDeclsCons(tables: seq<Table>)
    requires tables != []
    ensures TableDecls(tables) == [TableDecl(tables[0])] + TableDecls(tables[1..])
  {
  }

  lemma MemoryDeclsCons(mems: seq<Memory>)
    requires mems != []
    ensures MemoryDecls(mems) == [MemoryDecl(mems[0])] + MemoryDecls(mems[1..])
  {
  }

  /** `mems.map(mem => export ...)`: one memory export per memory. */
  function MemoryExports(mems: seq<Memory>): (es: seq<Entry>)
    ensures |es| == |mems| && forall j :: 0 <= j < |mems| ==> es[j] == MemoryExport(mems[j])
  {
    seq(|mems|, j requires 0 <= j < |mems| => MemoryExport(mems[j]))
  }

  /** The data entries of every memory, memory by memory, each memory's in
      segment order. */
  function AllData(mems: seq<Memory>): seq<Entry>
    decreases |mems|
  {
    if mems == [] then [] else DataEntries(mems[0].segments) + AllData(mems[1..])
  }

  /** The elem entries of every table, table by table, each table's in
      segment order. */
  function AllElems(tables: seq<Table>): seq<Entry>
    decreases |tables|
  {
    if tables == [] then [] else ElemEntries(tables[0].segments) + AllElems(tables[1..])
  }

  lemma OfKindSplit(a: seq<Entry>, b: seq<Entry>, c: seq<Entry>, rest: seq<Entry>, k: Kind)
    ensures OfKind(a + ((b + c) + rest), k) == OfKind(a, k) + (OfKind(b, k) + OfKind(c, k)) + OfKind(rest, k)
  {
    OfKindAppend(a, (b + c) + rest, k);
    OfKindAppend(b + c, rest, k);
    OfKindAppend(b, c, k);
  }

  lemma MemoryExportsCons(mems: seq<Memory>)
    requires mems != []
    ensures MemoryExports(mems) == [MemoryExport(mems[0])] + MemoryExports(mems[1..])
  {
  }

  /** What one memory contributes to the entries of kind `k`. */
  lemma MemoryHeadOfKind(mems: seq<Memory>, k: Kind)
    requires mems != []
    ensures var mem := mems[0];
            OfKind(MemoryOutline(mems), k)
            == OfKind([MemoryDecl(mem)], k) + (OfKind([MemoryExport(mem)], k) + OfKind(DataEntries(mem.segments), k))
               + OfKind(MemoryOutline(mems[1..]), k)
  {
    var mem := mems[0];
    MemoryOutlineCons(mems);
    assert Trailer(MemoryDecl(mem)) == [MemoryExport(mem)] + DataEntries(mem.segments);
    OfKindSplit([MemoryDecl(mem)], [MemoryExport(mem)], DataEntries(mem.segments), MemoryOutline(mems[1..]), k);
  }

  lemma DataEntriesKind(segs: seq<DataSegment>, k: Kind)
    ensures OfKind(DataEntries(segs), k) == if k == DataKind then DataEntries(segs) else []
  {
    if k == DataKind {
      OfKindAll(DataEntries(segs), k);
    } else {
      OfKindNone(DataEntries(segs), k);
    }
  }

  lemma {:induction false} MemoryOutlineExports(mems: seq<Memory>)
    ensures OfKind(MemoryOutline(mems), MemoryExportKind) == MemoryExports(mems)
    decreases |mems|
  {
    if mems != [] {
      var mem := mems[0];
      MemoryHeadOfKind(mems, MemoryExportKind);
      OfKindSingle(MemoryDecl(mem), MemoryExportKind);
      OfKindSingle(MemoryExport(mem), MemoryExportKind);
      DataEntriesKind(mem.segments, MemoryExportKind);
      MemoryOutlineExports(mems[1..]);
      MemoryExportsCons(mems);
    }
  }

  lemma {:induction false} MemoryOutlineData(mems: seq<Memory>)
    ensures OfKind(MemoryOutline(mems), DataKind) == AllData(mems)
    decreases |mems|
  {
    if mems != [] {
      var mem := mems[0];
      MemoryHeadOfKind(mems, DataKind);
      OfKindSingle(MemoryDecl(mem), DataKind);
      OfKindSingle(MemoryExport(mem), DataKind);
      DataEntriesKind(mem.segments, DataKind);
      MemoryOutlineData(mems[1..]);
    }
  }

  lemma {:induction false} TableOutlineElems(tables: seq<Table>)
    ensures OfKind(TableOutline(tables), ElemKind) == AllElems(tables)
    decreases |tables|
  {
    if tables != [] {
      var d := TableDecl(tables[0]);
      var es := ElemEntries(tables[0].segments);
      assert TableOutline(tables) == [d] + (es + TableOutline(tables[1..]));
      OfKindAppend([d], es + TableOutline(tables[1..]), ElemKind);
      OfKindAppend(es, TableOutline(tables[1..]), ElemKind);
      OfKindSingle(d, ElemKind);
      OfKindAll(es, ElemKind);
      TableOutlineElems(tables[1..]);
    }
  }

  /** The memory exports of the module are one per memory, in order: none
      stands anywhere but after its own memory. */
  lemma MemoryExportsInOrder(m: Module)
    ensures var xs := OfKind(Outline(m), MemoryExportKind);
            |xs| == |m.memories| && forall j :: 0 <= j < |m.memories| ==> xs[j] == MemoryExport(m.memories[j])
  {
    var tail := TableOutline(m.tables) + GlobalEntries(m.globals)
                + FuncExports(m.funcs) + FuncEntries(m.funcs) + StartEntries(m.start);
    OutlineSplit(m, tail);
    TailRank(m, tail);
    OfKindAppend(MemoryOutline(m.memories), tail, MemoryExportKind);
    OutsideSection(tail, MemoryExportKind);
    MemoryOutlineExports(m.memories);
  }

  /** The data entries of the module are exactly the segments of its
      memories, memory by memory and in segment order. */
  lemma DataInOrder(m: Module)
    ensures OfKind(Outline(m), DataKind) == AllData(m.memories)
  {
    var tail := TableOutline(m.tables) + GlobalEntries(m.globals)
                + FuncExports(m.funcs) + FuncEntries(m.funcs) + StartEntries(m.start);
    OutlineSplit(m, tail);
    TailRank(m, tail);
    OfKindAppend(MemoryOutline(m.memories), tail, DataKind);
    OutsideSection(tail, DataKind);
    MemoryOutlineData(m.memories);
  }

  /** The elem entries of the module are exactly the segments of its tables,
      table by table and in segment order. */
  lemma ElemsInOrder(m: Module)
    ensures OfKind(Outline(m), ElemKind) == AllElems(m.tables)
  {
    var pre := MemoryOutline(m.memories);
    var post := GlobalEntries(m.globals) + FuncExports(m.funcs) + FuncEntries(m.funcs) + StartEntries(m.start);
    SectionRanks(m);
    assert Outline(m) == pre + TableOutline(m.tables) + post;
    SectionOfKind(pre, TableOutline(m.tables), post, ElemKind);
    TableOutlineElems(m.tables);
  }

  /** The memory declarations of the module, in order, are its memories. */
  lemma MemoriesInOrder(m: Module)
    ensures var ds := OfKind(Outline(m), MemoryKind);
            |ds| == |m.memories| && forall j :: 0 <= j < |m.memories| ==> ds[j] == MemoryDecl(m.memories[j])
  {
    var tail := TableOutline(m.tables) + GlobalEntries(m.globals)
                + FuncExports(m.funcs) + FuncEntries(m.funcs) + StartEntries(m.start);
    OutlineSplit(m, tail);
    TailRank(m, tail);
    OfKindAppend(MemoryOutline(m.memories), tail, MemoryKind);
    OutsideSection(tail, MemoryKind);
    MemoryOutlineKind(m.memories);
  }

  /** The table declarations of the module, in order, are its tables. */
  lemma TablesInOrder(m: Module)
    ensures var ds := OfKind(Outline(m), TableKind);
            |ds| == |m.tables| && forall j :: 0 <= j < |m.tables| ==> ds[j] == TableDecl(m.tables[j])
  {
    var pre := MemoryOutline(m.memories);
    var post := GlobalEntries(m.globals) + FuncExports(m.funcs) + FuncEntries(m.funcs) + StartEntries(m.start);
    SectionRanks(m);
    assert Outline(m) == pre + TableOutline(m.tables) + post;
    SectionOfKind(pre, TableOutline(m.tables), post, TableKind);
    TableOutlineKind(m.tables);
  }

  /** The global entries of the module, in order, are its globals. */
  lemma GlobalsInOrder(m: Module)
    ensures var gs := OfKind(Outline(m), GlobalKind);
            |gs| == |m.globals| && forall j :: 0 <= j < |m.globals| ==> gs[j] == GlobalEntry(m.globals[j])
  {
    var pre := MemoryOutline(m.memories) + TableOutline(m.tables);
    var post := FuncExports(m.funcs) + FuncEntries(m.funcs) + StartEntries(m.start);
    SectionRanks(m);
    assert Outline(m) == pre + GlobalEntries(m.globals) + post;
    SectionOfKind(pre, GlobalEntries(m.globals), post, GlobalKind);
    OfKindAll(GlobalEntries(m.globals), GlobalKind);
  }

  /** `m.funcs.filter((func) => func.exportName)`: the functions whose export
      name is neither null nor empty, in order. */
  function Exported(funcs: seq<Func>): (fs: seq<Func>)
    ensures |fs| <= |funcs|
    ensures forall j :: 0 <= j < |fs| ==> TruthyName(fs[j].exportName) && fs[j] in funcs
    decreases |funcs|
  {
    if funcs == [] then []
    else (if TruthyName(funcs[0].exportName) then [funcs[0]] else []) + Exported(funcs[1..])
  }

  /** The filter drops no function whose export name is truthy. */
  lemma {:induction false} ExportedComplete(funcs: seq<Func>)
    ensures forall f :: f in funcs && TruthyName(f.exportName) ==> f in Exported(funcs)
    decreases |funcs|
  {
    if funcs != [] {
      ExportedComplete(funcs[1..]);
      forall f | f in funcs && TruthyName(f.exportName) ensures f in Exported(funcs) {
        if f != funcs[0] {
          assert f in funcs[1..];
        }
      }
    }
  }

  lemma {:induction false} FuncExportsOfExported(funcs: seq<Func>)
    ensures var xs, fs := FuncExports(funcs), Exported(funcs);
            |xs| == |fs| && forall j :: 0 <= j < |fs| ==> xs[j] == FuncExport(fs[j].exportName.value, fs[j].name)
    decreases |funcs|
  {
    if funcs != [] {
      FuncExportsOfExported(funcs[1..]);
      var xs, fs := FuncExports(funcs[1..]), Exported(funcs[1..]);
      if TruthyName(funcs[0].exportName) {
        var x := FuncExport(funcs[0].exportName.value, funcs[0].name);
        assert FuncExports(funcs) == [x] + xs;
        assert Exported(funcs) == [funcs[0]] + fs;
        forall j | 0 < j < |fs| + 1
          ensures FuncExports(funcs)[j] == FuncExport(Exported(funcs)[j].exportName.value, Exported(funcs)[j].name)
        {
          assert FuncExports(funcs)[j] == xs[j - 1];
          assert Exported(funcs)[j] == fs[j - 1];
        }
      } else {
        assert FuncExports(funcs) == xs;
        assert Exported(funcs) == fs;
      }
    }
  }

  /** The function exports of the module are, in order, one per function whose
      export name is truthy, under that name and naming that function. */
  lemma ExportsInOrder(m: Module)
    ensures var xs, fs := OfKind(Outline(m), FuncExportKind), Exported(m.funcs);
            |xs| == |fs| && forall j :: 0 <= j < |fs| ==> xs[j] == FuncExport(fs[j].exportName.value, fs[j].name)
  {
    var pre := MemoryOutline(m.memories) + TableOutline(m.tables) + GlobalEntries(m.globals);
    var post := FuncEntries(m.funcs) + StartEntries(m.start);
    SectionRanks(m);
    assert Outline(m) == pre + FuncExports(m.funcs) + post;
    SectionOfKind(pre, FuncExports(m.funcs), post, FuncExportKind);
    OfKindAll(FuncExports(m.funcs), FuncExportKind);
    FuncExportsOfExported(m.funcs);
  }

  /** Exactly the functions with a truthy export name are exported, under that
      name; `ExportsInOrder` states the order. */
  lemma {:induction false} FuncExportsExactly(funcs: seq<Func>)
    ensures |FuncExports(funcs)| <= |funcs|
    ensures forall e, n :: FuncExport(e, n) in FuncExports(funcs)
              <==> exists f :: f in funcs && f.exportName == Some(e) && e != "" && f.name == n
    decreases |funcs|
  {
    if funcs != [] {
      FuncExportsExactly(funcs[1..]);
      assert forall f :: f in funcs <==> f == funcs[0] || f in funcs[1..];
    }
  }

  // ---------------------------------------------------------------------------
  // What each entry prints.
  // ---------------------------------------------------------------------------

  lemma JoinTwo(a: string, b: string)
    ensures Join(" ", [a, b]) == a + " " + b
  {
    assert [a, b][1..] == [b];
    assert Join(" ", [b]) == b;
  }

  lemma JoinThree(a: string, b: string, c: string)
    ensures Join(" ", [a, b, c]) == a + " " + b + " " + c
  {
    assert [a, b, c][1..] == [b, c];
    JoinTwo(b, c);
    assert Join(" ", [a, b, c]) == a + " " + (b + " " + c);
  }

  lemma JoinFour(a: string, b: string, c: string, d: string)
    ensures Join(" ", [a, b, c, d]) == a + " " + b + " " + c + " " + d
  {
    assert [a, b, c, d][1..] == [b, c, d];
    JoinThree(b, c, d);
    assert Join(" ", [a, b, c, d]) == a + " " + (b + " " + c + " " + d);
  }

  lemma OpeningAtOne(head: string, tokens: seq<string>)
    requires |tokens| > 0
    ensures Opening(head, tokens, 1) == " (" + head + " " + Join(" ", tokens)
  {
    var j := Join(" ", tokens);
    assert Space(1) == " ";
    assert InlineText(tokens) == " " + j;
    Assoc(" (" + head, " ", j);
  }

  /** An entry without block children is one line at depth 1. */
  lemma OneLine(head: string, tokens: seq<string>)
    requires |tokens| > 0
    ensures Render(head, Somes(tokens), [], 1) == " (" + head + " " + Join(" ", tokens) + ")"
  {
    PresentSomes(tokens);
    assert Present([]) == [];
    assert Closing([], 1) == ")";
    OpeningAtOne(head, tokens);
  }

  lemma Line3(head: string, a: string, b: string, c: string)
    ensures Render(head, Somes([a, b, c]), [], 1) == " (" + head + " " + a + " " + b + " " + c + ")"
  {
    assert Somes([a, b, c]) == [Some(a), Some(b), Some(c)];
    OneLine(head, [a, b, c]);
    JoinThree(a, b, c);
    assert " (" + head + " " + (a + " " + b + " " + c) + ")" == " (" + head + " " + a + " " + b + " " + c + ")";
  }

  lemma Line2(head: string, a: string, b: string)
    ensures Render(head, Somes([a, b]), [], 1) == " (" + head + " " + a + " " + b + ")"
  {
    assert Somes([a, b]) == [Some(a), Some(b)];
    OneLine(head, [a, b]);
    JoinTwo(a, b);
    assert " (" + head + " " + (a + " " + b) + ")" == " (" + head + " " + a + " " + b + ")";
  }

  lemma MemoryGlue(a: string, b: string, c: string)
    ensures " (" + "memory" + " " + a + " " + b + " " + c + ")" == " (memory " + a + " " + b + " " + c + ")"
  {
  }

  lemma ExportGlue(name: string, target: string)
    ensures " (" + "export" + " " + Quoted(name) + " " + target + ")" == " (export \"" + name + "\" " + target + ")"
  {
  }

  lemma StartGlue(a: string)
    ensures " (" + "start" + " " + a + ")" == " (start " + a + ")"
  {
  }

  /** `(memory $name init max)` on one line at depth 1. */
  lemma MemoryDeclText(mem: Memory, esc: Escaping)
    ensures RenderEntry(MemoryDecl(mem), esc)
         == Success(" (memory " + Sigil(mem.name) + " " + Decimal(mem.initSize) + " " + Decimal(mem.maxSize) + ")")
  {
    var a, b, c := Sigil(mem.name), Decimal(mem.initSize), Decimal(mem.maxSize);
    assert [Some(a), Some(b), Some(c)] == Somes([a, b, c]);
    Line3("memory", a, b, c);
    MemoryGlue(a, b, c);
  }

  /** The memory is exported under its own name, whatever the module says. */
  lemma MemoryExportText(mem: Memory, esc: Escaping)
    ensures RenderEntry(MemoryExport(mem), esc)
         == Success(" (export \"" + mem.name + "\" " + ("(memory " + Sigil(mem.name) + ")") + ")")
  {
    var a, b := Quoted(mem.name), "(memory " + Sigil(mem.name) + ")";
    assert [Some(a), Some(b)] == Somes([a, b]);
    Line2("export", a, b);
    ExportGlue(mem.name, b);
  }

  /** `(table $name init max elemType)` on one line at depth 1. */
  lemma TableDeclText(t: Table, esc: Escaping)
    ensures RenderEntry(TableDecl(t), esc)
         == Success(" (table " + Sigil(t.name) + " " + Decimal(t.initSize) + " " + Decimal(t.maxSize) + " " + t.elemType + ")")
  {
    var a, b, c, d := Sigil(t.name), Decimal(t.initSize), Decimal(t.maxSize), t.elemType;
    assert [Some(a), Some(b), Some(c), Some(d)] == Somes([a, b, c, d]);
    OneLine("table", [a, b, c, d]);
    JoinFour(a, b, c, d);
    TableGlue(a, b, c, d);
  }

  lemma TableGlue(a: string, b: string, c: string, d: string)
    ensures " (" + "table" + " " + (a + " " + b + " " + c + " " + d) + ")"
         == " (table " + a + " " + b + " " + c + " " + d + ")"
  {
  }

  /** `(export "name" (func $f))` on one line at depth 1. */
  lemma FuncExportText(exportName: string, funcName: string, esc: Escaping)
    ensures RenderEntry(FuncExport(exportName, funcName), esc)
         == Success(" (export \"" + exportName + "\" " + ("(func " + Sigil(funcName) + ")") + ")")
  {
    var a, b := Quoted(exportName), "(func " + Sigil(funcName) + ")";
    assert [Some(a), Some(b)] == Somes([a, b]);
    Line2("export", a, b);
    ExportGlue(exportName, b);
  }

  /** `(start $name)` on one line at depth 1. */
  lemma StartText(start: string, esc: Escaping)
    ensures RenderEntry(StartEntry(start), esc) == Success(" (start " + Sigil(start) + ")")
  {
    var a := Sigil(start);
    assert [Some(a)] == Somes([a]);
    OneLine("start", [a]);
    assert Join(" ", [a]) == a;
    StartGlue(a);
  }

  /** A data segment: its offset expression, then the escaped literal on a line
      of its own at depth 2; it fails exactly when the offset does. */
  lemma DataLayout(seg: DataSegment, esc: Escaping)
    ensures RenderEntry(DataEntry(seg), esc).Success? <==> CompileInstr(seg.offset, 2).Success?
    ensures RenderEntry(DataEntry(seg), esc).Success? ==>
              Lines(RenderEntry(DataEntry(seg), esc).value)
              == Layout(1, "data", [], [], [CompileInstr(seg.offset, 2).value, Space(2) + DataString(esc, seg.data)])
  {
    if CompileInstr(seg.offset, 2).Success? {
      var kids := [CompileInstr(seg.offset, 2).value, Space(2) + DataString(esc, seg.data)];
      assert [Some(kids[0]), Some(kids[1])] == IndentOpts(2, []) + Somes(kids);
      RenderAsLayout("data", [], [], kids, 1);
    }
  }

  /** An element segment: its offset expression, then the `$`-names separated
      by single spaces on a line at depth 2; it fails exactly when the offset does. */
  lemma ElemLayout(seg: ElemSegment, esc: Escaping)
    ensures RenderEntry(ElemEntry(seg), esc).Success? <==> CompileInstr(seg.offset, 2).Success?
    ensures RenderEntry(ElemEntry(seg), esc).Success? ==>
              Lines(RenderEntry(ElemEntry(seg), esc).value)
              == Layout(1, "elem", [], [], [CompileInstr(seg.offset, 2).value, Space(2) + Join(" ", Sigils(seg.elems))])
  {
    if CompileInstr(seg.offset, 2).Success? {
      var kids := [CompileInstr(seg.offset, 2).value, Space(2) + Join(" ", Sigils(seg.elems))];
      assert [Some(kids[0]), Some(kids[1])] == IndentOpts(2, []) + Somes(kids);
      RenderAsLayout("elem", [], [], kids, 1);
    }
  }

  /** A global: `$name` and its type inline, its initial value below; it fails
      exactly when the initial value does. */
  lemma GlobalLayout(g: Global, esc: Escaping)
    requires NoNewline(g.name)
    ensures RenderEntry(GlobalEntry(g), esc).Success? <==> CompileInstr(g.initVal, 2).Success?
    ensures RenderEntry(GlobalEntry(g), esc).Success? ==>
              Lines(RenderEntry(GlobalEntry(g), esc).value)
              == Layout(1, "global", [Sigil(g.name), GlobalType(g)], [], [CompileInstr(g.initVal, 2).value])
  {
    if CompileInstr(g.initVal, 2).Success? {
      var init := CompileInstr(g.initVal, 2).value;
      TypeNameAtom(g.dataType);
      assert NoNewline(Sigil(g.name));
      assert NoNewline(GlobalType(g));
      assert [Some(init)] == IndentOpts(2, []) + Somes([init]);
      PresentPair(Some(Sigil(g.name)), Some(GlobalType(g)));
      RenderAsLayout("global", [Some(Sigil(g.name)), Some(GlobalType(g))], [], [init], 1);
    }
  }

  /** The type token reads `(mut T)` exactly for a mutable global and `(T)`
      otherwise. */
  lemma GlobalTypeMutable(g: Global)
    ensures "(mut " <= GlobalType(g) <==> g.mutable
    ensures GlobalType(g) == "(" + (if g.mutable then "mut " else "") + TypeName(g.dataType) + ")"
  {
    if !g.mutable {
      var t := GlobalType(g);
      assert t[1] == TypeName(g.dataType)[0];
      assert t[1] != 'm';
      assert "(mut "[1] == 'm';
    }
  }

  /** A function: `$name` inline, then its parameter, result and local lines at
      depth 2, then its body; it fails exactly when the body does. */
  lemma FuncLayout(f: Func, esc: Escaping)
    requires NoNewline(f.name)
    requires forall j :: 0 <= j < |f.params| ==> NoNewline(f.params[j].1)
    requires forall j :: 0 <= j < |f.locals| ==> NoNewline(f.locals[j].1)
    ensures RenderEntry(FuncEntry(f), esc).Success? <==> CompileInstr(f.body, 2).Success?
    ensures RenderEntry(FuncEntry(f), esc).Success? ==>
              Lines(RenderEntry(FuncEntry(f), esc).value)
              == Layout(1, "func", [Sigil(f.name)], Present(FuncDirectives(f)), [CompileInstr(f.body, 2).value])
  {
    if CompileInstr(f.body, 2).Success? {
      FuncBody(f, CompileInstr(f.body, 2).value);
    }
  }

  lemma FuncBody(f: Func, body: string)
    requires NoNewline(f.name)
    requires forall j :: 0 <= j < |f.params| ==> NoNewline(f.params[j].1)
    requires forall j :: 0 <= j < |f.locals| ==> NoNewline(f.locals[j].1)
    ensures Lines(Render("func", [Some(Sigil(f.name))], IndentOpts(2, FuncDirectives(f)) + [Some(body)], 1))
         == Layout(1, "func", [Sigil(f.name)], Present(FuncDirectives(f)), [body])
  {
    assert NoNewline(Sigil(f.name));
    assert [Some(body)] == Somes([body]);
    FuncDirectivesNoNewline(f);
    RenderAsLayout("func", [Some(Sigil(f.name))], FuncDirectives(f), [body], 1);
    PresentOne(Sigil(f.name));
  }

  lemma DeclarationsNoNewline(opening: string, decls: seq<(DataType, string)>)
    requires NoNewline(opening)
    requires forall j :: 0 <= j < |decls| ==> NoNewline(decls[j].1)
    ensures AllNoNewline(DeclarationTexts(opening, decls))
  {
    forall j | 0 <= j < |decls| ensures NoNewline(DeclarationTexts(opening, decls)[j]) {
      TypeNameAtom(decls[j].0);
    }
  }

  lemma FuncDirectivesNoNewline(f: Func)
    requires forall j :: 0 <= j < |f.params| ==> NoNewline(f.params[j].1)
    requires forall j :: 0 <= j < |f.locals| ==> NoNewline(f.locals[j].1)
    ensures AllNoNewline(Present(FuncDirectives(f)))
  {
    DeclarationsNoNewline("(param ", f.params);
    DeclarationsNoNewline("(local ", f.locals);
    TypeNameAtom(f.dataType);
    FuncDirectivesPresent(f);
  }

  /** Filtering a function's directive lines keeps every parameter and local,
      and the result line exactly when the result type is not `none`. */
  lemma FuncDirectivesPresent(f: Func)
    ensures Present(FuncDirectives(f))
         == DeclarationTexts("(param ", f.params)
            + (if f.dataType != NoneType then ["(result " + TypeName(f.dataType) + ")"] else [])
            + DeclarationTexts("(local ", f.locals)
  {
    var ps := Somes(DeclarationTexts("(param ", f.params));
    var res := When(f.dataType != NoneType, "(result " + TypeName(f.dataType) + ")");
    var ls := Somes(DeclarationTexts("(local ", f.locals));
    PresentAppend(ps + [res], ls);
    PresentAppend(ps, [res]);
    PresentSomes(DeclarationTexts("(param ", f.params));
    PresentSomes(DeclarationTexts("(local ", f.locals));
    PresentWhen(f.dataType != NoneType, "(result " + TypeName(f.dataType) + ")");
  }

  /** The lines between a function's head and its body: one `(param $x T)` per
      parameter in order, then `(result T)` exactly when the result type is not
      `none`, then one `(local $x T)` per local in order. */
  lemma FuncDirectivesShape(f: Func)
    ensures var ds := Present(FuncDirectives(f));
            var r := if f.dataType != NoneType then 1 else 0;
            |ds| == |f.params| + r + |f.locals|
            && (forall j :: 0 <= j < |f.params| ==>
                  ds[j] == "(param " + Sigil(f.params[j].1) + " " + TypeName(f.params[j].0) + ")")
            && (f.dataType != NoneType ==> ds[|f.params|] == "(result " + TypeName(f.dataType) + ")")
            && (forall j :: 0 <= j < |f.locals| ==>
                  ds[|f.params| + r + j] == "(local " + Sigil(f.locals[j].1) + " " + TypeName(f.locals[j].0) + ")")
  {
    FuncDirectivesPresent(f);
    var ps := DeclarationTexts("(param ", f.params);
    var rs := if f.dataType != NoneType then ["(result " + TypeName(f.dataType) + ")"] else [];
    var ls := DeclarationTexts("(local ", f.locals);
    ThreeParts(ps, rs, ls);
  }

  lemma ThreeParts(ps: seq<string>, rs: seq<string>, ls: seq<string>)
    ensures |ps + rs + ls| == |ps| + |rs| + |ls|
    ensures forall j :: 0 <= j < |ps| ==> (ps + rs + ls)[j] == ps[j]
    ensures forall j :: 0 <= j < |rs| ==> (ps + rs + ls)[|ps| + j] == rs[j]
    ensures forall j :: 0 <= j < |ls| ==> (ps + rs + ls)[|ps| + |rs| + j] == ls[j]
  {
  }

  // ---------------------------------------------------------------------------
  // The whole module.
  // ---------------------------------------------------------------------------

  lemma RenderEntriesCons(es: seq<Entry>, esc: Escaping)
    requires es != [] && RenderEntries(es, esc).Success?
    ensures RenderEntry(es[0], esc).Success? && RenderEntries(es[1..], esc).Success?
    ensures RenderEntries(es, esc).value == [RenderEntry(es[0], esc).value] + RenderEntries(es[1..], esc).value
  {
  }

  /** When every entry prints, the list holds each entry's text in order. */
  lemma {:induction false} RenderEntriesElements(es: seq<Entry>, esc: Escaping)
    requires RenderEntries(es, esc).Success?
    ensures |RenderEntries(es, esc).value| == |es|
    ensures forall j :: 0 <= j < |es| ==>
              RenderEntry(es[j], esc).Success? && RenderEntries(es, esc).value[j] == RenderEntry(es[j], esc).value
    decreases |es|
  {
    if es != [] {
      RenderEntriesCons(es, esc);
      RenderEntriesElements(es[1..], esc);
      var h, t := RenderEntry(es[0], esc).value, RenderEntries(es[1..], esc).value;
      forall j | 0 < j < |es|
        ensures RenderEntry(es[j], esc).Success? && RenderEntries(es, esc).value[j] == RenderEntry(es[j], esc).value
      {
        assert es[j] == es[1..][j - 1];
        assert ([h] + t)[j] == t[j - 1];
      }
    }
  }

  /** The module text: `(module` and `)` around the lines of every entry, in
      outline order (`(module)` when there is nothing to emit); entry `j`'s
      text is what `RenderEntry` prints for outline entry `j`. */
  lemma EmitLines(m: Module, esc: Escaping)
    requires RenderEntries(Outline(m), esc).Success?
    ensures var entries := RenderEntries(Outline(m), esc).value;
            Emit(m, esc).Success?
            && Lines(Emit(m, esc).value) == Layout(0, "module", [], [], entries)
            && |entries| == |Outline(m)|
            && forall j :: 0 <= j < |entries| ==> RenderEntry(Outline(m)[j], esc) == Success(entries[j])
  {
    var entries := RenderEntries(Outline(m), esc).value;
    RenderEntriesElements(Outline(m), esc);
    ModuleLines(entries);
  }

  lemma ModuleLines(entries: seq<string>)
    ensures Lines(Render("module", [], Somes(entries), 0)) == Layout(0, "module", [], [], entries)
  {
    assert Somes(entries) == IndentOpts(1, []) + Somes(entries);
    RenderAsLayout("module", [], [], entries, 0);
  }

  /** The module's first line is `(module`, or `(module)` when it is empty. */
  lemma ModuleOpening()
    ensures Opening("module", [], 0) == "(module"
  {
    assert InlineText([]) == "";
    assert Space(0) == "";
  }

  /** The node each entry compiles, if any: a data or element offset, a
      global's initial value, a function's body. */
  function EntryInstr(e: Entry): Option<Instr> {
    match e
    case DataEntry(seg) => Some(seg.offset)
    case ElemEntry(seg) => Some(seg.offset)
    case GlobalEntry(g) => Some(g.initVal)
    case FuncEntry(f) => Some(f.body)
    case _ => None
  }

  /** Every embedded node, in outline order. */
  function Embedded(es: seq<Entry>): seq<Instr>
    decreases |es|
  {
    if es == [] then []
    else (if EntryInstr(es[0]).Some? then [EntryInstr(es[0]).value] else []) + Embedded(es[1..])
  }

  lemma EntryFailure(e: Entry, esc: Escaping)
    ensures RenderEntry(e, esc).Failure? <==> EntryInstr(e).Some? && FirstUnknown(EntryInstr(e).value).Some?
    ensures RenderEntry(e, esc).Failure? ==>
              RenderEntry(e, esc).error == UnexpectedNode(FirstUnknown(EntryInstr(e).value).value)
  {
    if EntryInstr(e).Some? {
      CompileFailure(EntryInstr(e).value, 2);
    }
  }

  lemma FirstUnknownInCons(x: Instr, xs: seq<Instr>)
    ensures FirstUnknownIn([x] + xs) == if FirstUnknown(x).Some? then FirstUnknown(x) else FirstUnknownIn(xs)
  {
    assert ([x] + xs)[0] == x;
    assert ([x] + xs)[1..] == xs;
  }

  lemma {:induction false} RenderEntriesFailure(es: seq<Entry>, esc: Escaping)
    ensures RenderEntries(es, esc).Failure? <==> FirstUnknownIn(Embedded(es)).Some?
    ensures RenderEntries(es, esc).Failure? ==>
              RenderEntries(es, esc).error == UnexpectedNode(FirstUnknownIn(Embedded(es)).value)
    decreases |es|
  {
    if es != [] {
      RenderEntriesFailure(es[1..], esc);
      EntryFailure(es[0], esc);
      if EntryInstr(es[0]).Some? {
        FirstUnknownInCons(EntryInstr(es[0]).value, Embedded(es[1..]));
      } else {
        assert Embedded(es) == Embedded(es[1..]);
      }
    }
  }

  /** The module fails to compile exactly when a data offset, element offset,
      global initialiser or function body holds a node of unknown tag; the
      error names the first such node in emission order, and no text is
      produced. The escape plays no part in it. */
  lemma EmitFailure(m: Module, esc: Escaping)
    ensures Emit(m, esc).Failure? <==> FirstUnknownIn(Embedded(Outline(m))).Some?
    ensures Emit(m, esc).Failure? ==>
              Emit(m, esc).error == UnexpectedNode(FirstUnknownIn(Embedded(Outline(m))).value)
  {
    RenderEntriesFailure(Outline(m), esc);
  }

  // ---------------------------------------------------------------------------
  // The escape only matters for bytes below 16.
  // ---------------------------------------------------------------------------

  predicate WideBytes(data: seq<Byte>) {
    forall j :: 0 <= j < |data| ==> data[j] >= 16
  }

  /** No data segment of the module holds a byte below 16. */
  predicate WideData(m: Module) {
    forall i, s :: 0 <= i < |m.memories| && 0 <= s < |m.memories[i].segments| ==>
      WideBytes(m.memories[i].segments[s].data)
  }

  predicate WideEntries(es: seq<Entry>) {
    forall j :: 0 <= j < |es| && es[j].DataEntry? ==> WideBytes(es[j].data.data)
  }

  lemma {:induction false} WideMemoryOutline(mems: seq<Memory>)
    requires forall i, s :: 0 <= i < |mems| && 0 <= s < |mems[i].segments| ==> WideBytes(mems[i].segments[s].data)
    ensures WideEntries(MemoryOutline(mems))
    decreases |mems|
  {
    if mems != [] {
      WideMemoryOutline(mems[1..]);
      var h := [MemoryDecl(mems[0]), MemoryExport(mems[0])] + DataEntries(mems[0].segments);
      var o := h + MemoryOutline(mems[1..]);
      forall j | 0 <= j < |o| && o[j].DataEntry? ensures WideBytes(o[j].data.data) {
        if j >= |h| {
          assert o[j] == MemoryOutline(mems[1..])[j - |h|];
        } else {
          assert o[j] == DataEntries(mems[0].segments)[j - 2];
        }
      }
    }
  }

  lemma WideOutline(m: Module)
    requires WideData(m)
    ensures WideEntries(Outline(m))
  {
    var mo := MemoryOutline(m.memories);
    var tail := TableOutline(m.tables) + GlobalEntries(m.globals)
                + FuncExports(m.funcs) + FuncEntries(m.funcs) + StartEntries(m.start);
    OutlineSplit(m, tail);
    WideMemoryOutline(m.memories);
    TailRank(m, tail);
    WideAppend(mo, tail);
  }

  lemma WideAppend(mo: seq<Entry>, tail: seq<Entry>)
    requires WideEntries(mo)
    requires forall j :: 0 <= j < |tail| ==> Rank(tail[j]) >= 1
    ensures WideEntries(mo + tail)
  {
    forall j | 0 <= j < |mo + tail| && (mo + tail)[j].DataEntry? ensures WideBytes((mo + tail)[j].data.data) {
      if j < |mo| {
        assert (mo + tail)[j] == mo[j];
      }
    }
  }

  lemma EntryEscapes(e: Entry)
    requires e.DataEntry? ==> WideBytes(e.data.data)
    ensures RenderEntry(e, AsWritten) == RenderEntry(e, TwoDigit)
  {
    if e.DataEntry? {
      EscapesAgree(e.data.data);
    }
  }

  lemma {:induction false} EntriesEscapes(es: seq<Entry>)
    requires WideEntries(es)
    ensures RenderEntries(es, AsWritten) == RenderEntries(es, TwoDigit)
    decreases |es|
  {
    if es != [] {
      EntryEscapes(es[0]);
      assert WideEntries(es[1..]) by {
        forall j | 0 <= j < |es[1..]| && es[1..][j].DataEntry? ensures WideBytes(es[1..][j].data.data) {
          assert es[1..][j] == es[j + 1];
        }
      }
      EntriesEscapes(es[1..]);
    }
  }

  /** Where no data byte is below 16 the two-digit escape changes nothing: the
      compiler's output is then already the corrected output. */
  lemma CorrectionConservative(m: Module)
    requires WideData(m)
    ensures Compile(m) == CompileCorrected(m)
  {
    WideOutline(m);
    EntriesEscapes(Outline(m));
  }

  /** The functions are emitted once each, in declaration order, straight
      before the start directive. */
  lemma FuncsInOrder(m: Module)
    ensures var o := Outline(m);
            var first := |o| - |StartEntries(m.start)| - |m.funcs|;
            first >= 0
            && (forall j :: 0 <= j < |m.funcs| ==> o[first + j] == FuncEntry(m.funcs[j]))
            && (forall j :: 0 <= j < |o| && o[j].FuncEntry? ==> first <= j < first + |m.funcs|)
  {
    var pre := MemoryOutline(m.memories) + TableOutline(m.tables) + GlobalEntries(m.globals) + FuncExports(m.funcs);
    var fs := FuncEntries(m.funcs);
    var st := StartEntries(m.start);
    assert Outline(m) == pre + fs + st;
    PrefixRank(m, pre);
    forall j | 0 <= j < |m.funcs| ensures (pre + fs + st)[|pre| + j] == FuncEntry(m.funcs[j]) {
      assert (pre + fs + st)[|pre| + j] == fs[j];
    }
  }

  lemma PrefixRank(m: Module, pre: seq<Entry>)
    requires pre == MemoryOutline(m.memories) + TableOutline(m.tables) + GlobalEntries(m.globals) + FuncExports(m.funcs)
    ensures forall j :: 0 <= j < |pre| ==> Rank(pre[j]) <= 3
  {
    MemoryOutlineRank(m.memories);
    TableOutlineRank(m.tables);
    FuncExportsRank(m.funcs);
  }
}
