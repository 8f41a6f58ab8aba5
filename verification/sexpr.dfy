/** The generic S-expression printer (`compileSExpression` and `space` in
    src/compiler.ts): one parenthesised expression with a head symbol, inline
    tokens on the head's line and block children on lines of their own. */
module SExpr {
  import opened Wrappers
  import opened Text

  /** The non-null entries of `xs`, in order: `filter((x) => x !== null)`. */
  function Present(xs: seq<Option<string>>): seq<string>
    decreases |xs|
  {
    if xs == [] then []
    else (if xs[0].Some? then [xs[0].value] else []) + Present(xs[1..])
  }

  /** Filtering keeps exactly the present entries and never lengthens the list. */
  lemma {:induction false} PresentMembers(xs: seq<Option<string>>)
    ensures |Present(xs)| <= |xs|
    ensures forall s :: s in Present(xs) <==> Some(s) in xs
    decreases |xs|
  {
    if xs != [] {
      PresentMembers(xs[1..]);
      assert forall o :: o in xs <==> o == xs[0] || o in xs[1..];
    }
  }

  /** Every entry present: what `map` over a list of children passes on. */
  function Somes(xs: seq<string>): (os: seq<Option<string>>)
    ensures |os| == |xs| && forall j :: 0 <= j < |xs| ==> os[j] == Some(xs[j])
  {
    seq(|xs|, j requires 0 <= j < |xs| => Some(xs[j]))
  }

  lemma {:induction false} PresentAppend(xs: seq<Option<string>>, ys: seq<Option<string>>)
    ensures Present(xs + ys) == Present(xs) + Present(ys)
    decreases |xs|
  {
    if xs == [] {
      assert xs + ys == ys;
    } else {
      assert (xs + ys)[0] == xs[0];
      assert (xs + ys)[1..] == xs[1..] + ys;
      PresentAppend(xs[1..], ys);
    }
  }

  /** Wrapping entries as present and filtering the absent ones out is the identity. */
  lemma {:induction false} PresentSomes(xs: seq<string>)
    ensures Present(Somes(xs)) == xs
    decreases |xs|
  {
    if xs != [] {
      assert Somes(xs)[1..] == Somes(xs[1..]);
      PresentSomes(xs[1..]);
      assert xs == [xs[0]] + xs[1..];
    }
  }

  /** The optional single entry: present exactly when `c` holds. */
  function When(c: bool, s: string): Option<string> {
    if c then Some(s) else None
  }

  lemma PresentWhen(c: bool, s: string)
    ensures Present([When(c, s)]) == if c then [s] else []
  {
    assert [When(c, s)][1..] == [];
  }

  /** What the head's line holds after the head: one space, then the tokens
      separated by single spaces; nothing when there are no tokens. */
  function InlineText(tokens: seq<string>): string {
    if |tokens| > 0 then " " + Join(" ", tokens) else ""
  }

  /** The head's line: `indent` spaces, `(`, the head, the inline tokens. */
  function Opening(head: string, tokens: seq<string>, indent: nat): string {
    Space(indent) + "(" + head + InlineText(tokens)
  }

  /** What follows the head's line: `)` alone when there are no children,
      otherwise each child after a newline and `)` on a line of its own. */
  function Closing(children: seq<string>, indent: nat): string {
    if |children| > 0 then "\n" + (Join("\n", children) + ("\n" + (Space(indent) + ")")))
    else ")"
  }

  /** Renders `(head inline...` followed either by `)` on the same line, or by
      each block child on its own line(s) and `)` on a new line indented like
      the head. Absent entries of both lists are dropped first. */
  function Render(head: string, inline: seq<Option<string>>, block: seq<Option<string>>, indent: nat): string {
    var tokens := Present(inline);
    var children := Present(block);
    Opening(head, tokens, indent) + Closing(children, indent)
  }

  /** The rendered text opens with `indent` spaces, `(` and the head, and its
      last character is the closing `)`. */
  lemma RenderFrame(head: string, inline: seq<Option<string>>, block: seq<Option<string>>, indent: nat)
    ensures Space(indent) + "(" + head <= Render(head, inline, block, indent)
    ensures |Render(head, inline, block, indent)| > indent + 1
    ensures Render(head, inline, block, indent)[|Render(head, inline, block, indent)| - 1] == ')'
  {
  }

  predicate InlineOk(inline: seq<Option<string>>) {
    forall j :: 0 <= j < |inline| && inline[j].Some? ==> NoNewline(inline[j].value)
  }

  lemma {:induction false} JoinNoNewline(sep: string, xs: seq<string>)
    requires NoNewline(sep)
    requires forall j :: 0 <= j < |xs| ==> NoNewline(xs[j])
    ensures NoNewline(Join(sep, xs))
    decreases |xs|
  {
    if |xs| > 1 {
      JoinNoNewline(sep, xs[1..]);
    }
  }

  lemma OpeningNoNewline(head: string, inline: seq<Option<string>>, indent: nat)
    requires NoNewline(head) && InlineOk(inline)
    ensures NoNewline(Opening(head, Present(inline), indent))
  {
    var tokens := Present(inline);
    PresentMembers(inline);
    forall j | 0 <= j < |tokens| ensures NoNewline(tokens[j]) {
      assert tokens[j] in tokens;
      var i :| 0 <= i < |inline| && inline[i] == Some(tokens[j]);
    }
    JoinNoNewline(" ", tokens);
  }

  /** The printer's layout, line by line: the head's line closed by `)` when no
      block child is present; otherwise the head's line, the lines of every
      present child in order, and a line of exactly `indent` spaces and `)`. */
  lemma RenderLines(head: string, inline: seq<Option<string>>, block: seq<Option<string>>, indent: nat)
    requires NoNewline(head) && InlineOk(inline)
    ensures Lines(Render(head, inline, block, indent)) ==
      if |Present(block)| == 0 then [Opening(head, Present(inline), indent) + ")"]
      else [Opening(head, Present(inline), indent)] + LinesOf(Present(block)) + [Space(indent) + ")"]
  {
    var open := Opening(head, Present(inline), indent);
    var children := Present(block);
    OpeningNoNewline(head, inline, indent);
    if |children| == 0 {
      LinesOfLine(open + ")");
    } else {
      var close := Space(indent) + ")";
      LinesSplit(open, Join("\n", children) + ("\n" + close));
      LinesSplit(Join("\n", children), close);
      LinesJoin(children);
      LinesOfLine(open);
      LinesOfLine(close);
    }
  }

  /** Every line of `s` starts with `k` spaces. */
  predicate IndentedBy(s: string, k: nat) {
    forall l :: l in Lines(s) ==> Space(k) <= l
  }

  lemma {:induction false} LinesOfIndented(xs: seq<string>, k: nat)
    requires forall j :: 0 <= j < |xs| ==> IndentedBy(xs[j], k + 1)
    ensures forall l :: l in LinesOf(xs) ==> Space(k) <= l
    decreases |xs|
  {
    if xs != [] {
      LinesOfIndented(xs[1..], k);
      SpacePrefix(k, k + 1);
      forall l | l in Lines(xs[0]) ensures Space(k) <= l {
        assert Space(k + 1) <= l;
      }
    }
  }

  /** When each block child is indented one level deeper than the head, every
      line of the rendered expression is indented at least as far as the head. */
  lemma RenderIndented(head: string, inline: seq<Option<string>>, block: seq<Option<string>>, indent: nat)
    requires NoNewline(head) && InlineOk(inline)
    requires forall j :: 0 <= j < |block| && block[j].Some? ==> IndentedBy(block[j].value, indent + 1)
    ensures IndentedBy(Render(head, inline, block, indent), indent)
  {
    RenderLines(head, inline, block, indent);
    var children := Present(block);
    PresentMembers(block);
    forall j | 0 <= j < |children| ensures IndentedBy(children[j], indent + 1) {
      assert children[j] in children;
    }
    LinesOfIndented(children, indent);
  }

  lemma BalancedAll(xs: seq<Option<string>>)
    requires forall j :: 0 <= j < |xs| && xs[j].Some? ==> Balanced(xs[j].value)
    ensures forall j :: 0 <= j < |Present(xs)| ==> Balanced(Present(xs)[j])
  {
    PresentMembers(xs);
    forall j | 0 <= j < |Present(xs)| ensures Balanced(Present(xs)[j]) {
      assert Present(xs)[j] in Present(xs);
    }
  }

  lemma OpeningScan(head: string, tokens: seq<string>, indent: nat)
    requires ParenFree(head)
    requires forall j :: 0 <= j < |tokens| ==> Balanced(tokens[j])
    ensures Scan(Opening(head, tokens, indent), 0) == Some(1)
  {
    var sp := Space(indent);
    assert ParenFree(sp);
    ParenFreeScan(sp, 0);
    ScanAppend(sp, "(", 0);
    ParenFreeScan(head, 1);
    ScanAppend(sp + "(", head, 0);
    if |tokens| > 0 {
      BalancedJoin(" ", tokens);
      ScanLift(Join(" ", tokens), 0, 0, 1);
      ScanAppend(" ", Join(" ", tokens), 1);
    }
    ScanAppend(sp + "(" + head, InlineText(tokens), 0);
  }

  lemma ClosingScan(children: seq<string>, indent: nat)
    requires forall j :: 0 <= j < |children| ==> Balanced(children[j])
    ensures Scan(Closing(children, indent), 1) == Some(0)
  {
    if |children| > 0 {
      var sp := Space(indent);
      var j := Join("\n", children);
      assert ParenFree(sp);
      ParenFreeScan(sp, 1);
      ScanAppend(sp, ")", 1);
      ScanAppend("\n", sp + ")", 1);
      BalancedJoin("\n", children);
      ScanLift(j, 0, 0, 1);
      ScanAppend(j, "\n" + (sp + ")"), 1);
      ScanAppend("\n", j + ("\n" + (sp + ")")), 1);
    }
  }

  /** A parenthesis-free head with balanced inline tokens and balanced block
      children renders as a balanced expression. */
  lemma RenderBalanced(head: string, inline: seq<Option<string>>, block: seq<Option<string>>, indent: nat)
    requires ParenFree(head)
    requires forall j :: 0 <= j < |inline| && inline[j].Some? ==> Balanced(inline[j].value)
    requires forall j :: 0 <= j < |block| && block[j].Some? ==> Balanced(block[j].value)
    ensures Balanced(Render(head, inline, block, indent))
  {
    BalancedAll(inline);
    BalancedAll(block);
    OpeningScan(head, Present(inline), indent);
    ClosingScan(Present(block), indent);
    ScanAppend(Opening(head, Present(inline), indent), Closing(Present(block), indent), 0);
  }
}
