/** The string literal of a data segment, and what it denotes. The compiler
    writes each byte as a backslash followed by `d.toString(16)`; section 6.3.3
    of the WebAssembly Core Specification reads a backslash followed by exactly
    two hexadecimal digits as one byte. For every byte below 16 the two differ. */
module Escaping {
  import opened Wrappers
  import opened Text
  import opened Nodes

  /** Which escape the emitter uses: the compiler's own (`AsWritten`), or the
      two-digit escape the text format defines (`TwoDigit`). */
  datatype Escaping = AsWritten | TwoDigit

  /** `'\\' + d.toString(16)`: lowercase hexadecimal, no zero padding. */
  function EscapeAsWritten(b: Byte): string {
    "\\" + Hex(b)
  }

  /** A backslash and exactly two lowercase hexadecimal digits. */
  function EscapeTwoDigit(b: Byte): string {
    "\\" + [DigitChar(b / 16), DigitChar(b % 16)]
  }

  function Escape(esc: Escaping, b: Byte): string {
    match esc
    case AsWritten => EscapeAsWritten(b)
    case TwoDigit => EscapeTwoDigit(b)
  }

  /** Every byte escaped, in order, with nothing between: `map(...).join('')`. */
  function EscapedBytes(esc: Escaping, data: seq<Byte>): string
    decreases |data|
  {
    if data == [] then "" else Escape(esc, data[0]) + EscapedBytes(esc, data[1..])
  }

  /** The literal between double quotes. */
  function DataString(esc: Escaping, data: seq<Byte>): string {
    "\"" + EscapedBytes(esc, data) + "\""
  }

  // ---------------------------------------------------------------------------
  // Reading a string back (section 6.3.3 of the WebAssembly Core Specification).
  // ---------------------------------------------------------------------------

  /** A hexadecimal digit of either case. */
  function HexDigitValue(c: char): (v: Option<nat>)
    ensures v.Some? ==> v.value < 16
  {
    if 'A' <= c <= 'F' then Some(c as int - 'A' as int + 10) else DigitValue(c)
  }

  /** The bytes of `\t`, `\n`, `\r`, `\"`, `\'` and `\\`. */
  function NamedEscape(c: char): Option<Byte> {
    if c == 't' then Some(0x09)
    else if c == 'n' then Some(0x0A)
    else if c == 'r' then Some(0x0D)
    else if c == '"' then Some(0x22)
    else if c == '\'' then Some(0x27)
    else if c == '\\' then Some(0x5C)
    else None
  }

  function Prepend(b: Byte, rest: Option<seq<Byte>>): Option<seq<Byte>> {
    if rest.None? then None else Some([b] + rest.value)
  }

  /** The bytes the contents of a string literal denote, or `None` when the
      contents are not a valid string. Printable ASCII characters other than
      `"` and `\` stand for themselves. */
  function DecodeString(s: string): Option<seq<Byte>>
    decreases |s|
  {
    if s == [] then Some([])
    else if s[0] == '\\' then
      if |s| >= 3 && HexDigitValue(s[1]).Some? && HexDigitValue(s[2]).Some? then
        Prepend(HexDigitValue(s[1]).value * 16 + HexDigitValue(s[2]).value, DecodeString(s[3..]))
      else if |s| >= 2 && NamedEscape(s[1]).Some? then
        Prepend(NamedEscape(s[1]).value, DecodeString(s[2..]))
      else None
    else if s[0] == '"' || s[0] < ' ' || s[0] as int >= 0x7f then None
    else Prepend(s[0] as int, DecodeString(s[1..]))
  }

  // ---------------------------------------------------------------------------
  // What the escapes look like.
  // ---------------------------------------------------------------------------

  lemma HexDigitOf(d: nat)
    requires d < 16
    ensures HexDigitValue(DigitChar(d)) == Some(d)
    ensures NamedEscape(DigitChar(d)).None?
  {
    DigitCharValue(d);
  }

  /** The compiler's escape of a byte: one digit below 16, two from 16 on. */
  lemma AsWrittenDigits(b: Byte)
    ensures b < 16 ==> EscapeAsWritten(b) == "\\" + [DigitChar(b)]
    ensures b >= 16 ==> EscapeAsWritten(b) == EscapeTwoDigit(b)
  {
    if b >= 16 {
      assert NatToText(b / 16, 16) == [DigitChar(b / 16)];
    }
  }

  /** Escaped text is empty or starts with a backslash. */
  lemma EscapedStart(esc: Escaping, data: seq<Byte>)
    requires data != []
    ensures |EscapedBytes(esc, data)| > 0 && EscapedBytes(esc, data)[0] == '\\'
  {
  }

  /** A two-digit escape followed by `rest` reads as the byte, then as `rest`. */
  lemma DecodeTwoDigit(b: Byte, rest: string)
    ensures DecodeString(EscapeTwoDigit(b) + rest) == Prepend(b, DecodeString(rest))
  {
    var s := EscapeTwoDigit(b) + rest;
    HexDigitOf(b / 16);
    HexDigitOf(b % 16);
    assert s[0] == '\\' && s[1] == DigitChar(b / 16) && s[2] == DigitChar(b % 16);
    assert s[3..] == rest;
  }

  /** A one-digit escape followed by nothing or by another escape is not a
      valid string. */
  lemma DecodeOneDigit(b: Byte, rest: string)
    requires b < 16
    requires rest == [] || rest[0] == '\\'
    ensures DecodeString("\\" + [DigitChar(b)] + rest).None?
  {
    var s := "\\" + [DigitChar(b)] + rest;
    HexDigitOf(b);
    assert s[0] == '\\' && s[1] == DigitChar(b);
    if |s| >= 3 {
      assert s[2] == rest[0];
    }
  }

  /** The two-digit escape reads back as the very bytes it wrote. */
  lemma {:induction false} TwoDigitRoundTrip(data: seq<Byte>)
    ensures DecodeString(EscapedBytes(TwoDigit, data)) == Some(data)
    decreases |data|
  {
    if data != [] {
      TwoDigitRoundTrip(data[1..]);
      DecodeTwoDigit(data[0], EscapedBytes(TwoDigit, data[1..]));
      assert [data[0]] + data[1..] == data;
    }
  }

  /** The compiler's literal reads back as its bytes exactly when every byte is
      at least 16; a single smaller byte makes the whole literal invalid. */
  lemma {:induction false} AsWrittenRoundTrip(data: seq<Byte>)
    ensures DecodeString(EscapedBytes(AsWritten, data))
         == if forall j :: 0 <= j < |data| ==> data[j] >= 16 then Some(data) else None
    decreases |data|
  {
    if data != [] {
      var rest := EscapedBytes(AsWritten, data[1..]);
      AsWrittenRoundTrip(data[1..]);
      AsWrittenDigits(data[0]);
      if data[0] >= 16 {
        DecodeTwoDigit(data[0], rest);
        assert [data[0]] + data[1..] == data;
        assert (forall j :: 0 <= j < |data| ==> data[j] >= 16)
           <==> (forall j :: 0 <= j < |data[1..]| ==> data[1..][j] >= 16) by {
          forall j | 0 < j < |data| ensures data[j] == data[1..][j - 1] { }
        }
      } else {
        if data[1..] != [] {
          EscapedStart(AsWritten, data[1..]);
        }
        DecodeOneDigit(data[0], rest);
        assert EscapedBytes(AsWritten, data) == "\\" + [DigitChar(data[0])] + rest;
      }
    }
  }

  /** Where every byte is at least 16 the correction changes nothing. */
  lemma {:induction false} EscapesAgree(data: seq<Byte>)
    requires forall j :: 0 <= j < |data| ==> data[j] >= 16
    ensures EscapedBytes(AsWritten, data) == EscapedBytes(TwoDigit, data)
    decreases |data|
  {
    if data != [] {
      AsWrittenDigits(data[0]);
      EscapesAgree(data[1..]);
    }
  }

  /** Byte 10 is written `\a`, which is not a valid string; the two-digit
      escape writes `\0a`, which reads back as byte 10. */
  lemma ByteTenEscape()
    ensures EscapedBytes(AsWritten, [10]) == "\\a"
    ensures DecodeString(EscapedBytes(AsWritten, [10])).None?
    ensures EscapedBytes(TwoDigit, [10]) == "\\0a"
    ensures DecodeString(EscapedBytes(TwoDigit, [10])) == Some([10])
  {
    AsWrittenDigits(10);
    assert EscapedBytes(AsWritten, [10]) == EscapeAsWritten(10) + EscapedBytes(AsWritten, []);
    DecodeOneDigit(10, []);
    assert EscapedBytes(TwoDigit, [10]) == EscapeTwoDigit(10) + EscapedBytes(TwoDigit, []);
    TwoDigitRoundTrip([10]);
  }
}
