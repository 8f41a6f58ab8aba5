/** Text primitives the printer is built from: runs of spaces, joining with a
    separator, splitting into lines, number-to-digits conversion and a
    parenthesis-depth scan used to state that output is balanced. */
module Text {
  import opened Wrappers

  /** `n` space characters: one space per nesting level. */
  function Space(n: nat): (s: string)
    ensures |s| == n
    ensures forall j :: 0 <= j < n ==> s[j] == ' '
  {
    seq(n, _ => ' ')
  }

  lemma SpacePrefix(m: nat, n: nat)
    requires m <= n
    ensures Space(m) <= Space(n)
  {
  }

  /** Joins `xs` with `sep` between consecutive elements, like
      JavaScript's `Array.prototype.join`. */
  function Join(sep: string, xs: seq<string>): string
    decreases |xs|
  {
    if |xs| == 0 then ""
    else if |xs| == 1 then xs[0]
    else xs[0] + sep + Join(sep, xs[1..])
  }

  predicate NoNewline(s: string) {
    '\n' !in s
  }

  /** Splits `s` at every newline character: the inverse of joining with "\n". */
  function Lines(s: string): (ls: seq<string>)
    ensures |ls| >= 1
    decreases |s|
  {
    if s == [] then [""]
    else
      var rest := Lines(s[1..]);
      if s[0] == '\n' then [""] + rest
      else [[s[0]] + rest[0]] + rest[1..]
  }

  /** The lines of each element of `xs`, one after the other. */
  function LinesOf(xs: seq<string>): seq<string>
    decreases |xs|
  {
    if xs == [] then [] else Lines(xs[0]) + LinesOf(xs[1..])
  }

  lemma JoinCons(sep: string, c: char, x: string, ys: seq<string>)
    ensures Join(sep, [[c] + x] + ys) == [c] + Join(sep, [x] + ys)
  {
    if |ys| > 0 {
      assert ([[c] + x] + ys)[1..] == ys;
      assert ([x] + ys)[1..] == ys;
    }
  }

  /** Splitting into lines and joining them back with "\n" gives the text back. */
  lemma {:induction false} JoinLines(s: string)
    ensures Join("\n", Lines(s)) == s
    decreases |s|
  {
    if s != [] {
      var rest := Lines(s[1..]);
      JoinLines(s[1..]);
      if s[0] == '\n' {
        assert ([""] + rest)[1..] == rest;
        assert Join("\n", [""] + rest) == "" + "\n" + Join("\n", rest);
        assert s == [s[0]] + s[1..];
      } else {
        assert rest == [rest[0]] + rest[1..];
        JoinCons("\n", s[0], rest[0], rest[1..]);
        assert s == [s[0]] + s[1..];
      }
    }
  }

  /** A text without a newline is one line. */
  lemma {:induction false} LinesOfLine(s: string)
    requires NoNewline(s)
    ensures Lines(s) == [s]
    decreases |s|
  {
    if s != [] {
      LinesOfLine(s[1..]);
      assert s == [s[0]] + s[1..];
    }
  }

  /** One step of `Lines`: a leading newline starts a new line, any other
      character joins the first line. */
  lemma LinesCons(c: char, t: string)
    ensures Lines([c] + t) == if c == '\n' then [""] + Lines(t) else [[c] + Lines(t)[0]] + Lines(t)[1..]
  {
    assert ([c] + t)[0] == c && ([c] + t)[1..] == t;
  }

  lemma ShiftFirst(c: char, t: string, b: string)
    ensures [c] + t + "\n" + b == [c] + (t + "\n" + b)
  {
  }

  lemma NewLineFirst(ra: seq<string>, lb: seq<string>)
    ensures [""] + (ra + lb) == [""] + ra + lb
  {
  }

  lemma CharFirst(c: char, ra: seq<string>, lb: seq<string>)
    requires |ra| >= 1
    ensures [[c] + (ra + lb)[0]] + (ra + lb)[1..] == [[c] + ra[0]] + ra[1..] + lb
  {
    assert (ra + lb)[0] == ra[0];
    assert (ra + lb)[1..] == ra[1..] + lb;
  }

  /** Adding a character in front of both sides keeps the split. */
  lemma LinesStep(c: char, t: string, b: string)
    requires Lines(t + "\n" + b) == Lines(t) + Lines(b)
    ensures Lines([c] + t + "\n" + b) == Lines([c] + t) + Lines(b)
  {
    ShiftFirst(c, t, b);
    LinesCons(c, t + "\n" + b);
    LinesCons(c, t);
    if c == '\n' {
      NewLineFirst(Lines(t), Lines(b));
    } else {
      CharFirst(c, Lines(t), Lines(b));
    }
  }

  /** A newline between two texts separates their lines and changes nothing else. */
  lemma {:induction false} LinesAppend(a: string, b: string)
    ensures Lines(a + "\n" + b) == Lines(a) + Lines(b)
    decreases |a|
  {
    if a == [] {
      assert a + "\n" + b == ['\n'] + b;
      LinesCons('\n', b);
    } else {
      LinesAppend(a[1..], b);
      LinesStep(a[0], a[1..], b);
      assert [a[0]] + a[1..] == a;
    }
  }

  lemma LinesSplit(a: string, b: string)
    ensures Lines(a + ("\n" + b)) == Lines(a) + Lines(b)
  {
    assert a + ("\n" + b) == a + "\n" + b;
    LinesAppend(a, b);
  }

  lemma {:induction false} LinesOfAppend(xs: seq<string>, ys: seq<string>)
    ensures LinesOf(xs + ys) == LinesOf(xs) + LinesOf(ys)
    decreases |xs|
  {
    if xs != [] {
      assert (xs + ys)[0] == xs[0];
      assert (xs + ys)[1..] == xs[1..] + ys;
      LinesOfAppend(xs[1..], ys);
    } else {
      assert xs + ys == ys;
    }
  }

  /** Texts joined with "\n" have exactly the lines of the texts, in order. */
  lemma {:induction false} LinesJoin(xs: seq<string>)
    requires |xs| > 0
    ensures Lines(Join("\n", xs)) == LinesOf(xs)
    decreases |xs|
  {
    if |xs| == 1 {
      assert xs[1..] == [];
    } else {
      LinesJoin(xs[1..]);
      LinesAppend(xs[0], Join("\n", xs[1..]));
    }
  }

  /** Single-line texts keep one line each. */
  lemma {:induction false} LinesOfSingles(xs: seq<string>)
    requires forall j :: 0 <= j < |xs| ==> NoNewline(xs[j])
    ensures LinesOf(xs) == xs
    decreases |xs|
  {
    if xs != [] {
      LinesOfLine(xs[0]);
      LinesOfSingles(xs[1..]);
      assert xs == [xs[0]] + xs[1..];
    }
  }

  // ---------------------------------------------------------------------------
  // Digits: `Number.prototype.toString(base)` for naturals, lower-case letters.
  // ---------------------------------------------------------------------------

  function DigitChar(d: nat): (c: char)
    requires d < 16
  {
    if d < 10 then ('0' as int + d) as char else ('a' as int + d - 10) as char
  }

  function DigitValue(c: char): (v: Option<nat>)
    ensures v.Some? ==> v.value < 16 && DigitChar(v.value) == c
  {
    if '0' <= c <= '9' then Some(c as int - '0' as int)
    else if 'a' <= c <= 'f' then Some(c as int - 'a' as int + 10)
    else None
  }

  /** The digits of `n` in `base`, most significant first, no leading zeros. */
  function NatToText(n: nat, base: nat): (s: string)
    requires 2 <= base <= 16
    ensures |s| >= 1
    decreases n
  {
    if n < base then [DigitChar(n)] else NatToText(n / base, base) + [DigitChar(n % base)]
  }

  /** Reads a non-empty string of digits in `base` back into a number. */
  function TextToNat(s: string, base: nat): Option<nat>
    requires 2 <= base <= 16
    decreases |s|
  {
    if s == [] then None
    else
      var d := DigitValue(s[|s| - 1]);
      if d.None? || d.value >= base then None
      else if |s| == 1 then Some(d.value)
      else
        match TextToNat(s[..|s| - 1], base)
        case None => None
        case Some(v) => Some(v * base + d.value)
  }

  lemma TextToNatSnoc(t: string, d: nat, base: nat, v: nat)
    requires 2 <= base <= 16 && d < base
    requires TextToNat(t, base) == Some(v)
    ensures TextToNat(t + [DigitChar(d)], base) == Some(v * base + d)
  {
    var s := t + [DigitChar(d)];
    assert s[..|s| - 1] == t;
    DigitCharValue(d);
    assert DigitValue(s[|s| - 1]) == Some(d);
  }

  lemma TextToNatDigit(d: nat, base: nat)
    requires 2 <= base <= 16 && d < base
    ensures TextToNat([DigitChar(d)], base) == Some(d)
  {
    DigitCharValue(d);
  }

  /** The last digit of `n` and the number its other digits spell. */
  lemma LastDigit(n: nat, base: nat) returns (q: nat, r: nat)
    requires 2 <= base <= 16 && base <= n
    ensures r < base && q < n && n == q * base + r
    ensures NatToText(n, base) == NatToText(q, base) + [DigitChar(r)]
  {
    q, r := n / base, n % base;
  }

  /** Reading the digits back gives the number: the conversion loses nothing. */
  lemma {:induction false} NatToTextRoundTrip(n: nat, base: nat)
    requires 2 <= base <= 16
    ensures TextToNat(NatToText(n, base), base) == Some(n)
    decreases n
  {
    if n < base {
      TextToNatDigit(n, base);
    } else {
      var q, r := LastDigit(n, base);
      NatToTextRoundTrip(q, base);
      TextToNatSnoc(NatToText(q, base), r, base, q);
    }
  }

  /** Decimal text of a natural number (`${n}` in the source). */
  function Decimal(n: nat): (s: string)
    ensures TextToNat(s, 10) == Some(n)
  {
    NatToTextRoundTrip(n, 10);
    NatToText(n, 10)
  }

  /** Lower-case hexadecimal text of a natural number (`n.toString(16)`). */
  function Hex(n: nat): (s: string)
    ensures TextToNat(s, 16) == Some(n)
  {
    NatToTextRoundTrip(n, 16);
    NatToText(n, 16)
  }

  lemma DigitCharValue(d: nat)
    requires d < 16
    ensures DigitValue(DigitChar(d)) == Some(d)
  {
  }

  lemma {:induction false} DigitsAreAtoms(n: nat, base: nat)
    requires 2 <= base <= 16
    ensures forall j :: 0 <= j < |NatToText(n, base)| ==> DigitValue(NatToText(n, base)[j]).Some?
    decreases n
  {
    if n < base {
      DigitCharValue(n);
    } else {
      var q, r := LastDigit(n, base);
      DigitsAreAtoms(q, base);
      DigitCharValue(r);
      var s := NatToText(n, base);
      forall j | 0 <= j < |s| ensures DigitValue(s[j]).Some? {
        if j < |s| - 1 {
          assert s[j] == NatToText(q, base)[j];
        }
      }
    }
  }

  lemma Assoc(a: string, b: string, c: string)
    ensures (a + b) + c == a + (b + c)
  {
  }

  // ---------------------------------------------------------------------------
  // Parenthesis balance.
  // ---------------------------------------------------------------------------

  /** Reads `s` left to right from nesting depth `depth`; None when a `)` has
      no matching `(`, otherwise the depth reached at the end. */
  function Scan(s: string, depth: nat): Option<nat>
    decreases |s|
  {
    if s == [] then Some(depth)
    else if s[0] == '(' then Scan(s[1..], depth + 1)
    else if s[0] == ')' then (if depth == 0 then None else Scan(s[1..], depth - 1))
    else Scan(s[1..], depth)
  }

  /** Every `)` closes an earlier `(` and every `(` is closed. */
  predicate Balanced(s: string) {
    Scan(s, 0) == Some(0)
  }

  predicate ParenFree(s: string) {
    '(' !in s && ')' !in s
  }

  function ScanThen(r: Option<nat>, b: string): Option<nat> {
    match r
    case None => None
    case Some(e) => Scan(b, e)
  }

  lemma {:induction false} ScanAppend(a: string, b: string, d: nat)
    ensures Scan(a + b, d) == ScanThen(Scan(a, d), b)
    decreases |a|
  {
    if a == [] {
      assert a + b == b;
    } else {
      assert (a + b)[0] == a[0];
      assert (a + b)[1..] == a[1..] + b;
      if a[0] == '(' {
        ScanAppend(a[1..], b, d + 1);
      } else if a[0] == ')' {
        if d > 0 {
          ScanAppend(a[1..], b, d - 1);
        }
      } else {
        ScanAppend(a[1..], b, d);
      }
    }
  }

  /** Starting deeper shifts the final depth by the same amount. */
  lemma {:induction false} ScanLift(s: string, d: nat, e: nat, x: nat)
    requires Scan(s, d) == Some(e)
    ensures Scan(s, d + x) == Some(e + x)
    decreases |s|
  {
    if s != [] {
      if s[0] == '(' {
        ScanLift(s[1..], d + 1, e, x);
      } else if s[0] == ')' {
        ScanLift(s[1..], d - 1, e, x);
      } else {
        ScanLift(s[1..], d, e, x);
      }
    }
  }

  lemma {:induction false} ParenFreeScan(s: string, d: nat)
    requires ParenFree(s)
    ensures Scan(s, d) == Some(d)
    decreases |s|
  {
    if s != [] {
      assert s[0] in s;
      assert forall c :: c in s[1..] ==> c in s;
      ParenFreeScan(s[1..], d);
    }
  }

  lemma BalancedAppend(a: string, b: string)
    requires Balanced(a) && Balanced(b)
    ensures Balanced(a + b)
  {
    ScanAppend(a, b, 0);
  }

  lemma ParenFreeBalanced(s: string)
    requires ParenFree(s)
    ensures Balanced(s)
  {
    ParenFreeScan(s, 0);
  }

  /** Wrapping a balanced text in one pair of parentheses keeps it balanced. */
  lemma BalancedWrap(s: string)
    requires Balanced(s)
    ensures Balanced("(" + s + ")")
  {
    ScanLift(s, 0, 0, 1);
    ScanAppend("(" + s, ")", 0);
    ScanAppend("(", s, 0);
  }

  /** Balanced texts joined by a parenthesis-free separator stay balanced. */
  lemma {:induction false} BalancedJoin(sep: string, xs: seq<string>)
    requires ParenFree(sep)
    requires forall j :: 0 <= j < |xs| ==> Balanced(xs[j])
    ensures Balanced(Join(sep, xs))
    decreases |xs|
  {
    if |xs| == 0 {
    } else if |xs| > 1 {
      BalancedJoin(sep, xs[1..]);
      ParenFreeBalanced(sep);
      BalancedAppend(xs[0], sep);
      BalancedAppend(xs[0] + sep, Join(sep, xs[1..]));
    }
  }
}
