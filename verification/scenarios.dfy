/** Concrete modules and instructions, worked through the model. */
module Scenarios {
  import opened Wrappers
  import opened Text
  import opened SExpr
  import opened Nodes
  import opened Encoder
  import opened InstrLayout
  import opened InstrTree
  import opened Escaping
  import opened Emitter

  lemma SmallDecimals()
    ensures Decimal(0) == "0" && Decimal(1) == "1" && Decimal(2) == "2"
  {
    assert DigitChar(0) == '0' && DigitChar(1) == '1' && DigitChar(2) == '2';
  }

  /** An explicit alignment of 0 is dropped by a store but printed by a load. */
  lemma AlignZero()
    ensures StoreDirectives(None, Some(0)) == []
    ensures LoadDirectives(None, Some(0)) == ["align=0"]
  {
    SmallDecimals();
    assert "align=" + Decimal(0) == "align=0";
    assert LoadDirectives(None, Some(0)) == [] + ["align=" + Decimal(0)];
  }

  /** A zero offset is dropped by both. */
  lemma OffsetZero()
    ensures StoreDirectives(Some(0), None) == []
    ensures LoadDirectives(Some(0), None) == []
  {
  }

  /** A module holding one memory and nothing else. */
  function MemoryOnly(): Module {
    Module([Memory("mem", 1, 2, [])], [], [], [], None)
  }

  lemma MemoryOnlyOutline()
    ensures Outline(MemoryOnly()) == [MemoryDecl(Memory("mem", 1, 2, [])), MemoryExport(Memory("mem", 1, 2, []))]
  {
    var mem := Memory("mem", 1, 2, []);
    assert MemoryOutline([mem]) == [MemoryDecl(mem), MemoryExport(mem)] + DataEntries([]) + MemoryOutline([]);
  }

  lemma MemoryLiterals()
    ensures " (memory " + "$mem" + " " + "1" + " " + "2" + ")" == " (memory $mem 1 2)"
    ensures " (export \"" + "mem" + "\" " + ("(memory " + "$mem" + ")") + ")" == " (export \"mem\" (memory $mem))"
  {
  }

  lemma MemoryOnlyLines()
    ensures RenderEntry(MemoryDecl(Memory("mem", 1, 2, [])), AsWritten) == Success(" (memory $mem 1 2)")
    ensures RenderEntry(MemoryExport(Memory("mem", 1, 2, [])), AsWritten) == Success(" (export \"mem\" (memory $mem))")
  {
    var mem := Memory("mem", 1, 2, []);
    SmallDecimals();
    assert Sigil("mem") == "$mem";
    MemoryDeclText(mem, AsWritten);
    MemoryExportText(mem, AsWritten);
    MemoryLiterals();
  }

  lemma MemoryOnlyEntries()
    ensures RenderEntries(Outline(MemoryOnly()), AsWritten)
         == Success([" (memory $mem 1 2)", " (export \"mem\" (memory $mem))"])
  {
    var o := Outline(MemoryOnly());
    MemoryOnlyOutline();
    MemoryOnlyLines();
    RenderTwo(o[0], o[1], AsWritten);
  }

  lemma RenderTwo(a: Entry, b: Entry, esc: Escaping)
    requires RenderEntry(a, esc).Success? && RenderEntry(b, esc).Success?
    ensures RenderEntries([a, b], esc) == Success([RenderEntry(a, esc).value, RenderEntry(b, esc).value])
  {
    assert [a, b][1..] == [b] && [b][1..] == [];
    assert RenderEntries([b], esc) == Success([RenderEntry(b, esc).value] + []);
    assert [RenderEntry(b, esc).value] + [] == [RenderEntry(b, esc).value];
    var x, y := RenderEntry(a, esc).value, RenderEntry(b, esc).value;
    assert RenderEntries([a, b], esc) == Success([x] + [y]);
    assert [x] + [y] == [x, y];
  }

  lemma TwoEntryModule(t1: string, t2: string)
    requires NoNewline(t1) && NoNewline(t2)
    ensures Layout(0, "module", [], [], [t1, t2]) == ["(module", t1, t2, ")"]
  {
    LinesOfLine(t1);
    LinesOfLine(t2);
    assert [t1, t2][1..] == [t2];
    assert [t2][1..] == [];
    assert LinesOf([t2]) == [t2] + LinesOf([]);
    assert LinesOf([t1, t2]) == [t1] + LinesOf([t2]);
    ModuleOpening();
    assert Space(0) + ")" == ")";
    assert Indented(1, []) == [];
  }

  /** The memory is declared and exported under its own name; nothing else is
      emitted. */
  lemma MemoryOnlyText()
    ensures Compile(MemoryOnly()).Success?
    ensures Lines(Compile(MemoryOnly()).value)
         == ["(module", " (memory $mem 1 2)", " (export \"mem\" (memory $mem))", ")"]
  {
    MemoryOnlyEntries();
    EmitLines(MemoryOnly(), AsWritten);
    MemoryOnlyNoNewline();
    TwoEntryModule(" (memory $mem 1 2)", " (export \"mem\" (memory $mem))");
  }

  lemma MemoryOnlyNoNewline()
    ensures NoNewline(" (memory $mem 1 2)") && NoNewline(" (export \"mem\" (memory $mem))")
  {
  }

  /** A function whose body has an unknown tag makes the whole module fail,
      naming that tag, whatever comes before it. */
  lemma UnknownBodyFails()
    ensures var f := Func("f", Some("f"), [], NoneType, [], Unknown("select"));
            Compile(Module([Memory("mem", 1, 2, [])], [], [], [f], Some("f")))
            == Failure(UnexpectedNode("select"))
  {
    var f := Func("f", Some("f"), [], NoneType, [], Unknown("select"));
    var m := Module([Memory("mem", 1, 2, [])], [], [], [f], Some("f"));
    var mem := Memory("mem", 1, 2, []);
    var o := [MemoryDecl(mem), MemoryExport(mem), FuncExport("f", "f"), FuncEntry(f), StartEntry("f")];
    UnknownBodyOutline(m, f, mem);
    EmbeddedSteps(o);
    SelectFirst();
    EmitFailure(m, AsWritten);
  }

  lemma SelectFirst()
    ensures FirstUnknownIn([Unknown("select")]) == Some("select")
  {
    assert FirstUnknown(Unknown("select")) == Some("select");
  }

  lemma UnknownBodyOutline(m: Module, f: Func, mem: Memory)
    requires mem.segments == [] && f.exportName == Some("f") && f.name == "f"
    requires m == Module([mem], [], [], [f], Some("f"))
    ensures Outline(m) == [MemoryDecl(mem), MemoryExport(mem), FuncExport("f", "f"), FuncEntry(f), StartEntry("f")]
  {
    assert MemoryOutline([mem]) == [MemoryDecl(mem), MemoryExport(mem)] + DataEntries([]) + MemoryOutline([]);
    assert FuncExports([f]) == [FuncExport("f", "f")] + FuncExports([]);
  }

  lemma EmbeddedSteps(o: seq<Entry>)
    requires |o| == 5 && EntryInstr(o[0]).None? && EntryInstr(o[1]).None? && EntryInstr(o[2]).None?
    requires EntryInstr(o[3]) == Some(Unknown("select")) && EntryInstr(o[4]).None?
    ensures Embedded(o) == [Unknown("select")]
  {
    assert o[1..][1..] == o[2..] && o[2..][1..] == o[3..] && o[3..][1..] == o[4..] && o[4..][1..] == [];
    assert Embedded(o[4..]) == [];
    assert Embedded(o[3..]) == [Unknown("select")];
    assert Embedded(o[2..]) == Embedded(o[3..]);
    assert Embedded(o[1..]) == Embedded(o[2..]);
  }
}
