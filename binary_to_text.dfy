/** The converter from raw binaries to the hex text the hardware test
    benches load: every file is cut into rows of `LineSize` bytes, each row is
    written as two-digit lower-case hex with its bytes in reverse order (so a
    row reads as a little-endian half-word), one row per line, and the texts
    of all input files are concatenated.  File contents are given as byte
    sequences. */
module BinaryToText {
  import opened Text

  const LineSize: nat := 2

  const NoInputMessage: string := "No input files are specified."
  const NoOutputMessage: string := "No output file are specified."

  function Min(a: int, b: int): int {
    if a < b then a else b
  }

  /** Python's `[0] * k`: empty when `k` is not positive. */
  function Zeros(k: int): (r: seq<byte>)
    ensures |r| == if k > 0 then k else 0
  {
    if k > 0 then Repeat(0 as byte, k) else []
  }

  /** The bytes of row `row`: the file's slice for that row, clipped to the
      file, then the padding.  The padding is computed from the length of the
      whole file, not of the slice, so only a file shorter than one row is
      padded. */
  function RowBytes(binary: seq<byte>, row: nat): seq<byte> {
    var start := Min(row * LineSize, |binary|);
    var end := Min((row + 1) * LineSize, |binary|);
    binary[start..end] + Zeros(LineSize - |binary|)
  }

  /** `for byte in reversed(bytes_): text += f"{byte:02x}"`: the last byte
      first. */
  function HexReversed(bytes: seq<byte>): (s: string)
    ensures |s| == 2 * |bytes| && AllHex(s)
  {
    if bytes == [] then "" else HexReversed(bytes[1..]) + ByteToHex(bytes[0])
  }

  /** Row `row` as written, without its newline. */
  function RowText(binary: seq<byte>, row: nat): string {
    HexReversed(RowBytes(binary, row))
  }

  /** The rows the loop visits: `range(len(binary) // LineSize + 1)`. */
  function Rows(binary: seq<byte>): (r: seq<string>)
    ensures |r| == |binary| / LineSize + 1
    ensures forall row :: 0 <= row < |r| ==> r[row] == RowText(binary, row)
  {
    seq(|binary| / LineSize + 1, row requires 0 <= row => RowText(binary, row))
  }

  /** The text written for one file: each row on its own line. */
  function FileText(binary: seq<byte>): string {
    ConcatMap(Line, Rows(binary))
  }

  /** The whole output: the files' texts in argument order. */
  function OutputText(binaries: seq<seq<byte>>): string {
    ConcatMap(FileText, binaries)
  }

  // ---------------------------------------------------------------------------
  // The conversion loop

  /** The inner loop over one row's bytes, in reverse order. */
  method AppendRow(text: string, bytes: seq<byte>) returns (r: string)
    ensures r == text + HexReversed(bytes)
  {
    r := text;
    var k := |bytes|;
    while k > 0
      invariant 0 <= k <= |bytes|
      invariant r == text + HexReversed(bytes[k..])
    {
      k := k - 1;
      assert bytes[k..][1..] == bytes[k + 1..];
      r := r + ByteToHex(bytes[k]);
    }
    assert bytes[0..] == bytes;
  }

  /** The row loop for one file, appending to `text`. */
  method AppendFile(text: string, binary: seq<byte>) returns (r: string)
    ensures r == text + FileText(binary)
  {
    r := text;
    var rows := Rows(binary);
    for row := 0 to |binary| / LineSize + 1
      invariant r == text + ConcatMap(Line, rows[..row])
    {
      var start := Min(row * LineSize, |binary|);
      var end := Min((row + 1) * LineSize, |binary|);
      var bytes := binary[start..end];
      bytes := bytes + Zeros(LineSize - |binary|);
      ghost var done := r;
      r := AppendRow(r, bytes);
      r := r + "\n";
      assert rows[row] == HexReversed(bytes);
      LineStep(text, Line, rows, row, done, r);
    }
    assert rows[..|rows|] == rows;
  }

  /** One more line after the lines of the first `row` rows. */
  lemma LineStep(text: string, line: string -> string, rows: seq<string>, row: nat, done: string, r: string)
    requires row < |rows| && done == text + ConcatMap(line, rows[..row])
    requires r == done + rows[row] + "\n" && line(rows[row]) == rows[row] + "\n"
    ensures r == text + ConcatMap(line, rows[..row + 1])
  {
    ConcatMapPrefix(line, rows, row);
    AppendAssoc(done, rows[row], "\n");
    AppendAssoc(text, ConcatMap(line, rows[..row]), line(rows[row]));
  }

  /** The loop over the input files. */
  method Convert(binaries: seq<seq<byte>>) returns (text: string)
    ensures text == OutputText(binaries)
  {
    text := "";
    for i := 0 to |binaries|
      invariant text == ConcatMap(FileText, binaries[..i])
    {
      assert binaries[..i + 1][..i] == binaries[..i];
      text := AppendFile(text, binaries[i]);
    }
    assert binaries[..|binaries|] == binaries;
  }

  /** What running the converter leaves behind. */
  datatype Outcome =
    | Exit(status: int, message: string)
    | Written(path: string, contents: string)

  /** The script: the input files are the positional arguments, `outfile`
      the `-o` option and `read` the content of a file.  The argument checks
      come first, inputs before output, so nothing is read or written when
      either is missing. */
  method Run(infiles: seq<string>, outfile: Option<string>, read: string -> seq<byte>) returns (out: Outcome)
    ensures infiles == [] ==> out == Exit(1, NoInputMessage)
    ensures infiles != [] && outfile.None? ==> out == Exit(1, NoOutputMessage)
    ensures infiles != [] && outfile.Some? ==> out == Written(outfile.value, OutputText(Map(read, infiles)))
  {
    if |infiles| == 0 {
      return Exit(1, NoInputMessage);
    }
    if outfile.None? {
      return Exit(1, NoOutputMessage);
    }
    var binaries: seq<seq<byte>> := [];
    for i := 0 to |infiles|
      invariant binaries == Map(read, infiles[..i])
    {
      assert infiles[..i + 1][..i] == infiles[..i];
      binaries := binaries + [read(infiles[i])];
    }
    assert infiles[..|infiles|] == infiles;
    var text := Convert(binaries);
    return Written(outfile.value, text);
  }

  // ---------------------------------------------------------------------------
  // Properties

  /** Read back as lines, a file's text has exactly `n / 2 + 1` of them, the
      rows in order, and ends with a newline. */
  lemma FileLines(binary: seq<byte>)
    ensures Split(FileText(binary), '\n') == Rows(binary) + [""]
    ensures |Rows(binary)| == |binary| / 2 + 1
  {
    var rows := Rows(binary);
    forall row | 0 <= row < |rows| ensures NoChar(rows[row], '\n') {
      HexHasNoNewline(rows[row]);
    }
    SplitLines(rows);
  }

  lemma HexHasNoNewline(s: string)
    requires AllHex(s)
    ensures NoChar(s, '\n')
  {
    forall i | 0 <= i < |s| ensures s[i] != '\n' {
      assert IsHexDigit(s[i]);
    }
  }

  lemma HexReversedPair(x: byte, y: byte)
    ensures HexReversed([x, y]) == ByteToHex(y) + ByteToHex(x)
  {
    assert [x, y][1..] == [y];
    assert [y][1..] == [];
  }

  /** A row that holds a whole two-byte chunk shows its second byte first. */
  lemma FullRow(binary: seq<byte>, row: nat)
    requires 2 * row + 2 <= |binary|
    ensures RowText(binary, row) == ByteToHex(binary[2 * row + 1]) + ByteToHex(binary[2 * row])
  {
    assert RowBytes(binary, row) == [binary[2 * row], binary[2 * row + 1]];
    HexReversedPair(binary[2 * row], binary[2 * row + 1]);
  }

  /** The last row of a file of at least two bytes holds the odd byte left
      over, or nothing: a non-empty even-length file ends with an empty
      line. */
  lemma LastRow(binary: seq<byte>)
    requires |binary| >= 2
    ensures |binary| % 2 == 0 ==> RowText(binary, |binary| / 2) == ""
    ensures |binary| % 2 == 1 ==> RowText(binary, |binary| / 2) == ByteToHex(binary[|binary| - 1])
  {
    var n := |binary|;
    if n % 2 == 1 {
      assert RowBytes(binary, n / 2) == [binary[n - 1]];
      assert [binary[n - 1]][1..] == [];
    } else {
      assert RowBytes(binary, n / 2) == [];
    }
  }

  /** Files shorter than a row are padded with zeros on the left of the
      line; the empty file gives "0000". */
  lemma ShortFile(binary: seq<byte>)
    requires |binary| < 2
    ensures |binary| == 0 ==> Rows(binary) == ["0000"]
    ensures |binary| == 1 ==> Rows(binary) == ["00" + ByteToHex(binary[0])]
  {
    if |binary| == 0 {
      assert RowBytes(binary, 0) == [0, 0];
      HexReversedPair(0, 0);
      assert ByteToHex(0) == "00";
      assert ByteToHex(0) + ByteToHex(0) == "0000";
      assert Rows(binary)[0] == "0000";
    } else {
      assert RowBytes(binary, 0) == [binary[0], 0];
      HexReversedPair(binary[0], 0);
      assert ByteToHex(0) == "00";
    }
  }

  /** Because the padding looks at the whole file, a three-byte file's last
      row is not padded. */
  lemma ThreeBytes()
    ensures FileText([1, 2, 3]) == "0201\n03\n"
  {
    var b: seq<byte> := [1, 2, 3];
    FullRow(b, 0);
    LastRow(b);
    assert ByteToHex(1) == "01" && ByteToHex(2) == "02" && ByteToHex(3) == "03";
    assert ByteToHex(2) + ByteToHex(1) == "0201";
    var rows := Rows(b);
    assert |rows| == 2 && rows[0] == "0201" && rows[1] == "03";
    ConcatMapCons(Line, rows);
    ConcatMapCons(Line, rows[1..]);
    assert rows[1..][1..] == [];
    assert Line("0201") + (Line("03") + "") == "0201\n03\n";
  }

  /** A full row's line decodes back to its chunk: reverse the two hex pairs
      and read each as a byte. */
  function DecodeRow(line: string): seq<byte>
    requires |line| == 4 && AllHex(line)
  {
    [HexToByte(line[2..4]), HexToByte(line[0..2])]
  }

  lemma FullRowRoundTrip(binary: seq<byte>, row: nat)
    requires 2 * row + 2 <= |binary|
    ensures |RowText(binary, row)| == 4 && AllHex(RowText(binary, row))
    ensures DecodeRow(RowText(binary, row)) == binary[2 * row .. 2 * row + 2]
  {
    FullRow(binary, row);
    var line := RowText(binary, row);
    assert line[0..2] == ByteToHex(binary[2 * row + 1]);
    assert line[2..4] == ByteToHex(binary[2 * row]);
    ByteHexRoundTrip(binary[2 * row]);
    ByteHexRoundTrip(binary[2 * row + 1]);
  }

  /** A line of the text read back: four hex digits are a full row, two are
      the lone byte of a last row, anything else (the empty last row and the
      empty tail after the final newline) holds no bytes. */
  function DecodeLine(line: string): (r: seq<byte>)
    ensures |r| == if AllHex(line) && (|line| == 4 || |line| == 2) then |line| / 2 else 0
  {
    if |line| == 4 && AllHex(line) then DecodeRow(line)
    else if |line| == 2 && AllHex(line) then [HexToByte(line)]
    else []
  }

  /** The lines' bytes, in order. */
  function DecodeLines(lines: seq<string>): seq<byte> {
    if lines == [] then [] else DecodeLines(lines[..|lines| - 1]) + DecodeLine(lines[|lines| - 1])
  }

  /** A file's text read back: split at the newlines, each line decoded. */
  function DecodeFile(text: string): seq<byte> {
    DecodeLines(Split(text, '\n'))
  }

  /** The first `k` rows of a file decode to its first `2 * k` bytes. */
  lemma FullRowsDecode(binary: seq<byte>, k: nat)
    requires 2 * k <= |binary|
    ensures DecodeLines(Rows(binary)[..k]) == binary[..2 * k]
  {
    var rows := Rows(binary);
    forall i | 0 <= i < k ensures DecodeLine(rows[i]) == binary[2 * i .. 2 * i + 2] {
      FullRowRoundTrip(binary, i);
    }
    PairsDecode(rows, binary, k);
  }

  /** Lines that each decode to the next two bytes decode together to
      those bytes. */
  lemma {:induction false} PairsDecode(lines: seq<string>, binary: seq<byte>, k: nat)
    requires k <= |lines| && 2 * k <= |binary|
    requires forall i :: 0 <= i < k ==> DecodeLine(lines[i]) == binary[2 * i .. 2 * i + 2]
    ensures DecodeLines(lines[..k]) == binary[..2 * k]
  {
    if k > 0 {
      var j := k - 1;
      DecodeLinesSnoc(lines, j);
      PairsDecode(lines, binary, j);
      assert binary[..2 * j + 2] == binary[..2 * j] + binary[2 * j .. 2 * j + 2];
    }
  }

  /** The whole-file round trip: decoding the text gives the file back,
      followed by the zeros a file shorter than one row was padded with. */
  lemma FileRoundTrip(binary: seq<byte>)
    ensures DecodeFile(FileText(binary)) == binary + Zeros(LineSize - |binary|)
  {
    FileLines(binary);
    var rows := Rows(binary);
    var lines := rows + [""];
    assert lines[..|lines| - 1] == rows;
    assert DecodeLine("") == [];
    if |binary| < LineSize {
      ShortRowsDecode(binary);
    } else {
      RowsDecode(binary);
      assert Zeros(LineSize - |binary|) == [];
    }
  }

  /** A file shorter than a row has one padded row, which decodes to the
      file followed by its padding. */
  lemma ShortRowsDecode(binary: seq<byte>)
    requires |binary| < LineSize
    ensures DecodeLines(Rows(binary)) == binary + Zeros(LineSize - |binary|)
  {
    ShortFile(binary);
    var rows := Rows(binary);
    assert rows[..0] == [];
    assert DecodeLines(rows) == DecodeLine(rows[0]);
    if |binary| == 0 {
      PaddedRowDecodes(0, rows[0]);
    } else {
      PaddedRowDecodes(binary[0], rows[0]);
    }
  }

  /** The padded row of a short file: zeros, then the byte. */
  lemma PaddedRowDecodes(b: byte, line: string)
    requires line == ByteToHex(0) + ByteToHex(b)
    ensures DecodeLine(line) == [b, 0]
  {
    ByteHexRoundTrip(0);
    ByteHexRoundTrip(b);
    assert line[2..4] == ByteToHex(b) && line[0..2] == ByteToHex(0);
  }

  /** The rows of a file of at least one row decode to the file. */
  lemma RowsDecode(binary: seq<byte>)
    requires |binary| >= LineSize
    ensures DecodeLines(Rows(binary)) == binary
  {
    var rows := Rows(binary);
    var k := |binary| / 2;
    assert rows[..k + 1] == rows;
    FullRowsDecode(binary, k);
    LastRowDecodes(binary);
    DecodeLinesSnoc(rows, k);
  }

  /** Decoding the first `k + 1` lines decodes the first `k`, then line `k`. */
  lemma DecodeLinesSnoc(lines: seq<string>, k: nat)
    requires k < |lines|
    ensures DecodeLines(lines[..k + 1]) == DecodeLines(lines[..k]) + DecodeLine(lines[k])
  {
    assert lines[..k + 1][..k] == lines[..k];
  }

  /** The last row of a file of at least one row decodes to the bytes after
      its full rows. */
  lemma LastRowDecodes(binary: seq<byte>)
    requires |binary| >= LineSize
    ensures binary[..2 * (|binary| / 2)] + DecodeLine(Rows(binary)[|binary| / 2]) == binary
  {
    var n := |binary|;
    var k := n / 2;
    LastRow(binary);
    if n % 2 == 1 {
      assert 2 * k == n - 1;
      ByteHexRoundTrip(binary[n - 1]);
      assert binary == binary[..n - 1] + [binary[n - 1]];
    } else {
      assert 2 * k == n;
      assert DecodeLine("") == [];
      assert binary[..n] == binary;
    }
  }

  /** Because the padding looks at the whole file, the empty file and the
      one-byte file holding zero are written alike: the text alone does not
      tell them apart. */
  lemma EmptyAndZeroCollide()
    ensures FileText([]) == FileText([0])
  {
    ShortFile([]);
    ShortFile([0]);
    assert ByteToHex(0) == "00";
  }

  /** From two bytes on, the text determines the file: distinct files of at
      least one row give distinct texts. */
  lemma FileTextInjective(a: seq<byte>, b: seq<byte>)
    requires |a| >= LineSize && |b| >= LineSize && FileText(a) == FileText(b)
    ensures a == b
  {
    FileRoundTrip(a);
    FileRoundTrip(b);
    assert Zeros(LineSize - |a|) == [] && Zeros(LineSize - |b|) == [];
    assert a + [] == a && b + [] == b;
  }

  /** The output is the texts of the input files in argument order. */
  lemma OutputAppend(xs: seq<seq<byte>>, ys: seq<seq<byte>>)
    ensures OutputText(xs + ys) == OutputText(xs) + OutputText(ys)
  {
    ConcatMapAppend(FileText, xs, ys);
  }
}
