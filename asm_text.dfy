/** The shape of every line the disassembly renderers print: a mnemonic,
    then, when there are operands, one space and the operands separated by
    commas (the format strings "op %s,%s,%s").  `ReadAsm` is the reader that
    takes such a line apart again; the renderers' properties are stated
    through it. */
module AsmText {
  import opened Text

  /** printf's "%d" of a `uint32_t` argument: the signed reinterpretation. */
  function Dec(u: uint32): (s: string)
    ensures NoChar(s, ',') && NoChar(s, ' ')
    ensures ParseDecimal(s) == Some(AsInt32(u))
  {
    var i := AsInt32(u);
    var s := IntToDecimal(i);
    SignedDecimalRoundTrip(i);
    DecimalNoSeparator(s);
    s
  }

  lemma DecimalNoSeparator(s: string)
    requires (1 <= |s| && s[0] == '-' && AllDigits(s[1..])) || AllDigits(s)
    ensures NoChar(s, ',') && NoChar(s, ' ')
  {
    forall i | 1 <= i < |s| ensures s[i] != ',' && s[i] != ' ' {
      if !AllDigits(s) {
        assert IsDigit(s[1..][i - 1]);
      }
    }
  }

  /** printf's "0x%x" of an `int` argument: the bit pattern as unsigned. */
  function Hex(n: int): (s: string)
    ensures NoChar(s, ',') && NoChar(s, ' ')
    ensures |s| >= 3 && s[..2] == "0x" && AllHex(s[2..])
    ensures HexNumberValue(s[2..]) == n % 0x1_0000_0000
  {
    var digits := NatToHex(n % 0x1_0000_0000);
    HexRoundTrip(n % 0x1_0000_0000);
    var s := "0x" + digits;
    assert s[2..] == digits;
    forall i | 2 <= i < |s| ensures s[i] != ',' && s[i] != ' ' {
      assert IsHexDigit(digits[i - 2]);
    }
    s
  }

  /** A line of disassembly. */
  function Asm(mnemonic: string, operands: seq<string>): string {
    if operands == [] then mnemonic else mnemonic + " " + Join(operands, ",")
  }

  /** The text before the first `c`, and what follows it (None when there
      is no `c`). */
  function BreakAt(text: string, c: char): (r: (string, Option<string>))
    ensures NoChar(r.0, c)
  {
    if text == [] then ("", None)
    else if text[0] == c then ("", Some(text[1..]))
    else
      var (head, tail) := BreakAt(text[1..], c);
      ([text[0]] + head, tail)
  }

  lemma {:induction false} BreakAtPrefix(head: string, c: char, tail: string)
    requires NoChar(head, c)
    ensures BreakAt(head + [c] + tail, c) == (head, Some(tail))
  {
    if head == [] {
      assert head + [c] + tail == [c] + tail;
    } else {
      assert (head + [c] + tail)[1..] == head[1..] + [c] + tail;
      BreakAtPrefix(head[1..], c, tail);
      assert [head[0]] + head[1..] == head;
    }
  }

  lemma {:induction false} BreakAtNone(text: string, c: char)
    requires NoChar(text, c)
    ensures BreakAt(text, c) == (text, None)
  {
    if text != [] {
      BreakAtNone(text[1..], c);
      assert [text[0]] + text[1..] == text;
    }
  }

  /** Reads a line back as its mnemonic and its operands. */
  function ReadAsm(text: string): (string, seq<string>) {
    var (mnemonic, rest) := BreakAt(text, ' ');
    (mnemonic, if rest.Some? then Split(rest.value, ',') else [])
  }

  /** Operands that are all free of commas. */
  predicate CommaFree(operands: seq<string>) {
    forall i :: 0 <= i < |operands| ==> NoChar(operands[i], ',')
  }

  /** The reader inverts the printer whenever the mnemonic has no space and
      no operand has a comma. */
  lemma ReadAsmRoundTrip(mnemonic: string, operands: seq<string>)
    requires NoChar(mnemonic, ' ') && CommaFree(operands)
    ensures ReadAsm(Asm(mnemonic, operands)) == (mnemonic, operands)
  {
    if operands == [] {
      BreakAtNone(mnemonic, ' ');
    } else {
      var rest := Join(operands, ",");
      assert Asm(mnemonic, operands) == mnemonic + [' '] + rest;
      BreakAtPrefix(mnemonic, ' ', rest);
      SplitJoin(operands, ',');
    }
  }

  /** Register and CSR names the renderers can be read back through. */
  ghost predicate CleanNames<T(!new)>(name: T -> string) {
    forall x :: NoChar(name(x), ',')
  }

  /** `prefix + s + suffix` is comma-free when its parts are. */
  lemma WrapCommaFree(prefix: string, s: string, suffix: string)
    requires NoChar(prefix, ',') && NoChar(s, ',') && NoChar(suffix, ',')
    ensures NoChar(prefix + s + suffix, ',')
  {
    var t := prefix + s + suffix;
    forall i | 0 <= i < |t| ensures t[i] != ',' {
      if i < |prefix| {
        assert t[i] == prefix[i];
      } else if i < |prefix| + |s| {
        assert t[i] == s[i - |prefix|];
      } else {
        assert t[i] == suffix[i - |prefix| - |s|];
      }
    }
  }

  /** The operand "imm(base)" of loads and stores. */
  function Address(imm: uint32, base: string): string {
    Dec(imm) + "(" + base + ")"
  }

  lemma AddressCommaFree(imm: uint32, base: string)
    requires NoChar(base, ',')
    ensures NoChar(Address(imm, base), ',')
  {
    WrapCommaFree(Dec(imm), "(", "");
    assert Dec(imm) + "(" + "" == Dec(imm) + "(";
    WrapCommaFree(Dec(imm) + "(", base, ")");
  }
}
