/*
 * The hex viewer (02_hex_viewer/src/main.rs): `print_hex_line`, which renders
 * up to sixteen bytes as one line of a hex dump, and `main`, which checks its
 * arguments, opens the file and feeds it to `print_hex_line` one buffer-full
 * at a time. Opening and reading the file are not modelled: their answers are
 * supplied as oracle replies, and the printed lines are collected as strings.
 */
module HexViewer {
  import opened Sequences

  /** A `u8`. */
  type byte = x: int | 0 <= x < 256

  /** Line 7: how many bytes one line shows, and the size of the read buffer. */
  const BYTES_PER_LINE: nat := 16

  // ---------------------------------------------------------------------------
  // Lowercase hexadecimal, as the `{:x}` format writes it
  // ---------------------------------------------------------------------------

  predicate IsHexDigit(c: char) {
    ('0' <= c <= '9') || ('a' <= c <= 'f')
  }

  predicate IsHex(s: string) {
    forall i | 0 <= i < |s| :: IsHexDigit(s[i])
  }

  /** The value of one hexadecimal digit (0 for any other character). */
  function DigitValue(c: char): nat {
    if '0' <= c <= '9' then c as int - '0' as int
    else if 'a' <= c <= 'f' then c as int - 'a' as int + 10
    else 0
  }

  /** The number a string of hexadecimal digits denotes, most significant digit first. */
  function HexValue(s: string): nat {
    if s == [] then 0 else 16 * HexValue(s[..|s| - 1]) + DigitValue(s[|s| - 1])
  }

  /** The lowercase digit for a value below 16. */
  function HexDigit(d: nat): (c: char)
    requires d < 16
    ensures IsHexDigit(c) && DigitValue(c) == d
  {
    if d < 10 then ('0' as int + d) as char else ('a' as int + d - 10) as char
  }

  /** 16 to the power `k`. */
  function Pow16(k: nat): (p: nat)
    ensures p >= 1
  {
    if k == 0 then 1 else 16 * Pow16(k - 1)
  }

  lemma HexValueSnoc(s: string, c: char)
    ensures HexValue(s + [c]) == 16 * HexValue(s) + DigitValue(c)
  {
    assert (s + [c])[..|s|] == s;
  }

  /** `{:x}`: the digits of `n`, with no leading zero. */
  function ToHex(n: nat): (s: string)
    ensures |s| >= 1 && IsHex(s)
    ensures HexValue(s) == n
    ensures n > 0 ==> s[0] != '0'
    decreases n
  {
    if n < 16 then
      assert HexValue([HexDigit(n)]) == DigitValue(HexDigit(n)) by { HexValueSnoc([], HexDigit(n)); }
      [HexDigit(n)]
    else
      var s := ToHex(n / 16) + [HexDigit(n % 16)];
      HexValueSnoc(ToHex(n / 16), HexDigit(n % 16));
      s
  }

  /** `n` needs at most `k` digits exactly when it is below 16^k. */
  lemma {:induction false} ToHexFits(n: nat, k: nat)
    requires k >= 1
    ensures |ToHex(n)| <= k <==> n < Pow16(k)
    decreases n
  {
    if n >= 16 {
      if k == 1 {
        assert |ToHex(n)| == |ToHex(n / 16)| + 1;
      } else {
        ToHexFits(n / 16, k - 1);
      }
    }
  }

  function Zeros(k: nat): (z: string)
    ensures |z| == k && forall i | 0 <= i < k :: z[i] == '0'
  {
    if k == 0 then [] else Zeros(k - 1) + ['0']
  }

  /** Leading zeros do not change the value. */
  lemma {:induction false} LeadingZeros(k: nat, s: string)
    ensures HexValue(Zeros(k) + s) == HexValue(s)
    decreases |s|, k
  {
    if s == [] {
      assert Zeros(k) + s == Zeros(k);
      if k > 0 {
        assert Zeros(k)[..k - 1] == Zeros(k - 1);
        LeadingZeros(k - 1, []);
        assert Zeros(k - 1) + [] == Zeros(k - 1);
      }
    } else {
      var init := s[..|s| - 1];
      assert Zeros(k) + s == (Zeros(k) + init) + [s[|s| - 1]];
      HexValueSnoc(Zeros(k) + init, s[|s| - 1]);
      HexValueSnoc(init, s[|s| - 1]);
      assert s == init + [s[|s| - 1]];
      LeadingZeros(k, init);
    }
  }

  /** Line 62's `{:08x}`: `offset` in lowercase hex, padded with zeros to at least eight digits. */
  function OffsetField(offset: nat): (r: string)
    ensures |r| >= 8 && IsHex(r)
    ensures HexValue(r) == offset
    ensures |r| == 8 <==> offset < 0x1_0000_0000
    ensures |r| > 8 ==> r[0] != '0'
  {
    var digits := ToHex(offset);
    ToHexFits(offset, 8);
    assert Pow16(8) == 0x1_0000_0000;
    if |digits| < 8 then
      LeadingZeros(8 - |digits|, digits);
      Zeros(8 - |digits|) + digits
    else
      digits
  }

  /** Line 67's `{:02x}`: exactly two lowercase digits. */
  function Hex2(b: byte): (r: string)
    ensures |r| == 2 && IsHex(r)
    ensures HexValue(r) == b
  {
    HexValueSnoc([], HexDigit(b / 16));
    assert [HexDigit(b / 16)] == [] + [HexDigit(b / 16)];
    HexValueSnoc([HexDigit(b / 16)], HexDigit(b % 16));
    [HexDigit(b / 16), HexDigit(b % 16)]
  }

  // ---------------------------------------------------------------------------
  // One line of the dump (lines 59-93)
  // ---------------------------------------------------------------------------

  /** Lines 81-90: a printable ASCII byte stands for itself, anything else for a dot. */
  function Printable(b: byte): (c: char)
    ensures ' ' <= c <= '~'
    ensures 32 <= b <= 126 ==> c as int == b
    ensures !(32 <= b <= 126) ==> c == '.'
  {
    if 32 <= b <= 126 then b as char else '.'
  }

  /** Lines 65-76, one turn: column `i` shows byte `i` or blanks, and column 7 is followed by the mid gap. */
  function Column(bytes: seq<byte>, i: nat): string {
    (if i < |bytes| then Hex2(bytes[i]) + " " else "   ") + (if i == 7 then " " else "")
  }

  /** The text of columns 0 to `k` - 1. */
  function HexArea(bytes: seq<byte>, k: nat): string {
    if k == 0 then "" else HexArea(bytes, k - 1) + Column(bytes, k - 1)
  }

  /** Where column `i` starts inside the hex area: three characters a column, one more after the gap. */
  function ColStart(i: nat): nat {
    3 * i + (if i > 7 then 1 else 0)
  }

  /** Lines 81-90: the ASCII gutter, one character per byte. */
  function Gutter(bytes: seq<byte>): string {
    if bytes == [] then "" else Gutter(bytes[..|bytes| - 1]) + [Printable(bytes[|bytes| - 1])]
  }

  /** The whole of what one call of `print_hex_line` prints, its final newline included. */
  function HexLine(bytes: seq<byte>, offset: nat): string {
    OffsetField(offset) + "  " + HexArea(bytes, BYTES_PER_LINE) + " |" + Gutter(bytes) + "|" + "\n"
  }

  /** The gutter shows every byte, in order, as its printable character. */
  lemma {:induction false} GutterShowsEachByte(bytes: seq<byte>)
    ensures |Gutter(bytes)| == |bytes|
    ensures forall i | 0 <= i < |bytes| :: Gutter(bytes)[i] == Printable(bytes[i])
    decreases |bytes|
  {
    if bytes != [] {
      GutterShowsEachByte(bytes[..|bytes| - 1]);
    }
  }

  /** The hex area is three characters a column plus the gap: 49 characters for the sixteen columns, whatever the number of bytes. */
  lemma {:induction false} HexAreaWidth(bytes: seq<byte>, k: nat)
    ensures |HexArea(bytes, k)| == 3 * k + (if k > 7 then 1 else 0)
    decreases k
  {
    if k > 0 {
      HexAreaWidth(bytes, k - 1);
    }
  }

  /** Column `j` of `area` shows byte `j` of `bytes`, or blanks when there is none. */
  predicate ColumnShows(area: string, bytes: seq<byte>, j: nat) {
    && ColStart(j) + 3 <= |area|
    && area[ColStart(j)..ColStart(j) + 3] == (if j < |bytes| then Hex2(bytes[j]) + " " else "   ")
  }

  /**
   * The hex area is laid out in fixed columns: column `i` holds two digits and
   * a space for byte `i`, three spaces when there is no such byte, and the gap
   * after column 7 is a space.
   */
  lemma {:induction false} HexAreaLayout(bytes: seq<byte>, k: nat)
    requires k <= BYTES_PER_LINE
    ensures |HexArea(bytes, k)| == ColStart(k)
    ensures forall i | 0 <= i < k :: ColumnShows(HexArea(bytes, k), bytes, i)
    ensures k > 7 ==> HexArea(bytes, k)[24] == ' '
    decreases k
  {
    HexAreaWidth(bytes, k);
    if k > 0 {
      HexAreaLayout(bytes, k - 1);
      var before := HexArea(bytes, k - 1);
      var area := HexArea(bytes, k);
      assert area == before + Column(bytes, k - 1);
      forall i | 0 <= i < k ensures ColumnShows(area, bytes, i) {
        if i < k - 1 {
          assert ColumnShows(before, bytes, i);
          SliceOfAppend(before, Column(bytes, k - 1), ColStart(i), ColStart(i) + 3);
        } else {
          SliceAfter(before, Column(bytes, k - 1), 3);
        }
      }
      if k > 8 {
        SliceOfAppend(before, Column(bytes, k - 1), 24, 25);
        assert area[24] == area[24..25][0];
      }
    }
  }

  /** How the six pieces of a line sit in it, for a 49-character hex area and a gutter of `n` characters. */
  lemma LineOfPieces(field: string, area: string, gutter: string, n: nat)
    requires |area| == 49 && |gutter| == n
    ensures var line, w := field + "  " + area + " |" + gutter + "|" + "\n", |field|;
      && |line| == w + 55 + n
      && line[..w] == field
      && line[w..w + 2] == "  "
      && line[w + 2..w + 51] == area
      && line[w + 51..w + 53] == " |"
      && line[w + 53..w + 53 + n] == gutter
      && line[w + 53 + n..] == "|\n"
  {
    var p1 := field + "  ";
    var p2 := p1 + area;
    var p3 := p2 + " |";
    var p4 := p3 + gutter;
    var line := p4 + "|" + "\n";
    assert line == p4 + "|\n";
    assert line[..|p4|] == p4;
    assert p4[..|p3|] == p3;
    assert p3[..|p2|] == p2;
    assert p2[..|p1|] == p1;
    assert line[..|field|] == p1[..|field|];
    assert line[|field|..|field| + 2] == p1[|field|..];
    assert line[|p1|..|p2|] == p2[|p1|..];
    assert line[|p2|..|p3|] == p3[|p2|..];
    assert line[|p3|..|p4|] == p4[|p3|..];
  }

  /**
   * Where everything sits on a line, counted from the end of the offset field:
   * two spaces, the 49-character hex area whatever the number of bytes, ` |`,
   * one gutter character per byte, `|` and the newline.
   */
  lemma HexLineLayout(bytes: seq<byte>, offset: nat)
    ensures var line, w, n := HexLine(bytes, offset), |OffsetField(offset)|, |bytes|;
      && |line| == w + 55 + n
      && line[..w] == OffsetField(offset)
      && line[w..w + 2] == "  "
      && line[w + 2..w + 51] == HexArea(bytes, BYTES_PER_LINE)
      && line[w + 51..w + 53] == " |"
      && line[w + 53..w + 53 + n] == Gutter(bytes)
      && line[w + 53 + n..] == "|\n"
  {
    HexAreaWidth(bytes, BYTES_PER_LINE);
    GutterShowsEachByte(bytes);
    LineOfPieces(OffsetField(offset), HexArea(bytes, BYTES_PER_LINE), Gutter(bytes), |bytes|);
  }

  /** Below 2^32 the offset takes exactly eight digits, and a line of n bytes is 62 + n characters before its newline. */
  lemma HexLineLength(bytes: seq<byte>, offset: nat)
    requires offset < 0x1_0000_0000
    ensures |HexLine(bytes, offset)| == 62 + |bytes| + 1
    ensures HexLine(bytes, offset)[..8] == OffsetField(offset)
  {
    HexLineLayout(bytes, offset);
  }

  /** Lines 59-93 as the source runs them: the line is built piece by piece by two loops. */
  method FormatHexLine(bytes: seq<byte>, offset: nat) returns (line: string)
    ensures line == HexLine(bytes, offset)
  {
    var head := OffsetField(offset) + "  ";
    line := head;
    for i := 0 to BYTES_PER_LINE
      invariant line == head + HexArea(bytes, i)
    {
      ghost var before := line;
      if i < |bytes| {
        line := line + (Hex2(bytes[i]) + " ");
      } else {
        line := line + "   ";
      }
      ghost var celled := line;
      if i == 7 {
        line := line + " ";
      }
      ColumnAppended(head, bytes, i, before, celled, line);
    }
    line := line + " |";
    ghost var body := line;
    for j := 0 to |bytes|
      invariant line == body + Gutter(bytes[..j])
    {
      GutterSnoc(bytes, j);
      if 32 <= bytes[j] <= 126 {
        line := line + [bytes[j] as char];
      } else {
        line := line + ".";
      }
      Regroup(body, Gutter(bytes[..j]), [Printable(bytes[j])], line);
    }
    assert bytes[..|bytes|] == bytes;
    line := line + "|";
    line := line + "\n";
  }

  /** Bookkeeping for `FormatHexLine`: printing column `i` extends the hex area by that column. */
  lemma ColumnAppended(head: string, bytes: seq<byte>, i: nat, before: string, celled: string, line: string)
    requires before == head + HexArea(bytes, i)
    requires celled == before + (if i < |bytes| then Hex2(bytes[i]) + " " else "   ")
    requires line == if i == 7 then celled + " " else celled
    ensures line == head + HexArea(bytes, i + 1)
  {
    var cell := if i < |bytes| then Hex2(bytes[i]) + " " else "   ";
    if i == 7 {
      Regroup(before, cell, " ", line);
    } else {
      assert cell + "" == cell;
    }
    Regroup(head, HexArea(bytes, i), Column(bytes, i), line);
  }

  /** The gutter of one more byte is one character longer. */
  lemma GutterSnoc(bytes: seq<byte>, j: nat)
    requires j < |bytes|
    ensures Gutter(bytes[..j + 1]) == Gutter(bytes[..j]) + [Printable(bytes[j])]
  {
    assert bytes[..j + 1][..j] == bytes[..j];
  }

  // ---------------------------------------------------------------------------
  // Reading a printed line back
  // ---------------------------------------------------------------------------

  /** The width of the offset field a line starts with: everything before its first space. */
  function FieldWidth(line: string): (n: nat)
    ensures n <= |line|
  {
    if line == [] || line[0] == ' ' then 0 else 1 + FieldWidth(line[1..])
  }

  lemma {:induction false} FieldWidthOfHex(field: string, rest: string)
    requires IsHex(field) && rest != [] && rest[0] == ' '
    ensures FieldWidth(field + rest) == |field|
    decreases |field|
  {
    if field == [] {
      assert field + rest == rest;
    } else {
      assert (field + rest)[1..] == field[1..] + rest;
      FieldWidthOfHex(field[1..], rest);
    }
  }

  /** The values in the hex columns of `area` from column `i` on, up to the first blank column. */
  function ReadColumns(area: string, i: nat): seq<int>
    decreases BYTES_PER_LINE - i
  {
    if i >= BYTES_PER_LINE || |area| < ColStart(i) + 2 || area[ColStart(i)] == ' ' then []
    else [HexValue(area[ColStart(i)..ColStart(i) + 2])] + ReadColumns(area, i + 1)
  }

  /** The offset a printed line shows. */
  function LineOffset(line: string): nat {
    HexValue(line[..FieldWidth(line)])
  }

  /** The bytes a printed line shows, read from its hex columns. */
  function LineBytes(line: string): seq<int> {
    var w := FieldWidth(line);
    if |line| < w + 51 then [] else ReadColumns(line[w + 2..w + 51], 0)
  }

  /** Reading columns `i` onwards of an area laid out as `HexAreaLayout` describes gives back the bytes from `i` on. */
  lemma {:induction false} ReadColumnsOfLayout(area: string, bytes: seq<byte>, i: nat)
    requires |bytes| <= BYTES_PER_LINE && i <= |bytes|
    requires forall j | 0 <= j < BYTES_PER_LINE :: ColumnShows(area, bytes, j)
    ensures ReadColumns(area, i) == bytes[i..]
    decreases BYTES_PER_LINE - i
  {
    if i < |bytes| {
      assert ColumnShows(area, bytes, i);
      var a := ColStart(i);
      SliceStart(area, a, 3);
      PrefixOfAppend(Hex2(bytes[i]), " ");
      assert area[a..a + 2] == Hex2(bytes[i]);
      ReadColumnsOfLayout(area, bytes, i + 1);
      SuffixCons(bytes, i);
    } else if i < BYTES_PER_LINE {
      assert ColumnShows(area, bytes, i);
      SliceStart(area, ColStart(i), 3);
    }
  }

  /** A line gives back the offset and the bytes it was printed from. */
  lemma LineRoundTrip(bytes: seq<byte>, offset: nat)
    requires |bytes| <= BYTES_PER_LINE
    ensures LineOffset(HexLine(bytes, offset)) == offset
    ensures LineBytes(HexLine(bytes, offset)) == bytes
  {
    var line, field := HexLine(bytes, offset), OffsetField(offset);
    HexLineLayout(bytes, offset);
    assert line == field + line[|field|..];
    FieldWidthOfHex(field, line[|field|..]);
    HexAreaLayout(bytes, BYTES_PER_LINE);
    ReadColumnsOfLayout(HexArea(bytes, BYTES_PER_LINE), bytes, 0);
    assert bytes[0..] == bytes;
  }

  // ---------------------------------------------------------------------------
  // The dump (lines 9-50)
  // ---------------------------------------------------------------------------

  /** What `File::open` reports. */
  datatype OpenReply = Opened | OpenFailure(error: string)

  /** What one `reader.read(&mut buffer)` reports: the bytes it placed in the buffer (none at end of file), or an error. */
  datatype ReadReply = Data(bytes: seq<byte>) | ReadFailure(error: string)

  /**
   * How `main` ends: normally; with the usage message and exit code 1; with
   * a panic when there is not even a program name for `args[0]`; or by
   * returning the error of `File::open` or of a read through `?`.
   */
  datatype Outcome = Completed | Usage(message: string) | IndexPanic | OpenFailed(error: string) | ReadFailed(error: string)

  /** Line 16. */
  function UsageMessage(program: string): string {
    "Usage: " + program + " <file_path>"
  }

  /** The process's exit status: 1 from `exit(1)` or from an `Err` returned by `main`, 101 from a panic. */
  function ExitCode(outcome: Outcome): int {
    match outcome
    case Completed => 0
    case IndexPanic => 101
    case _ => 1
  }

  /** The chunks the loop prints: the data of the reads before the first one that is empty or fails. */
  function Chunks(results: seq<ReadReply>): (cs: seq<seq<byte>>)
    ensures |cs| <= |results|
    ensures forall k | 0 <= k < |cs| :: results[k] == Data(cs[k]) && |cs[k]| > 0
    ensures |cs| < |results| ==> results[|cs|] == Data([]) || results[|cs|].ReadFailure?
  {
    if results == [] || results[0] == Data([]) || results[0].ReadFailure? then []
    else
      var rest := Chunks(results[1..]);
      assert forall k | 0 < k < |rest| + 1 :: results[k] == results[1..][k - 1];
      [results[0].bytes] + rest
  }

  /** All the chunks, one after another. */
  function Flatten(cs: seq<seq<byte>>): seq<byte> {
    if cs == [] then [] else Flatten(cs[..|cs| - 1]) + cs[|cs| - 1]
  }

  /** The lines printed for `cs`: each chunk with the number of bytes before it as its offset. */
  function Dump(cs: seq<seq<byte>>): (lines: seq<string>)
    ensures |lines| == |cs|
  {
    if cs == [] then []
    else
      var init := cs[..|cs| - 1];
      Dump(init) + [HexLine(cs[|cs| - 1], |Flatten(init)|)]
  }

  /** Line `k` of the dump shows chunk `k` at the offset of all bytes before it. */
  lemma {:induction false} DumpLine(cs: seq<seq<byte>>, k: nat)
    requires k < |cs|
    ensures Dump(cs)[k] == HexLine(cs[k], |Flatten(cs[..k])|)
    decreases |cs|
  {
    var init := cs[..|cs| - 1];
    if k < |init| {
      DumpLine(init, k);
      EarlierElement(Dump(cs), Dump(init), HexLine(cs[|cs| - 1], |Flatten(init)|), k);
      PrefixOfPrefix(cs, |cs| - 1, k);
    } else {
      LastLine(cs);
      assert init == cs[..k];
    }
  }

  /** The last line of the dump shows the last chunk, after all the others. */
  lemma LastLine(cs: seq<seq<byte>>)
    requires cs != []
    ensures Dump(cs)[|cs| - 1] == HexLine(cs[|cs| - 1], |Flatten(cs[..|cs| - 1])|)
  {
  }

  /** The dump has one line per chunk, and line `k` shows chunk `k` at the offset of all bytes before it. */
  lemma DumpLines(cs: seq<seq<byte>>)
    ensures |Dump(cs)| == |cs|
    ensures forall k | 0 <= k < |cs| :: Dump(cs)[k] == HexLine(cs[k], |Flatten(cs[..k])|)
  {
    forall k | 0 <= k < |cs| ensures Dump(cs)[k] == HexLine(cs[k], |Flatten(cs[..k])|) {
      DumpLine(cs, k);
    }
  }

  /** One more chunk adds one more line, at the offset of everything before it. */
  lemma DumpExtends(cs: seq<seq<byte>>, i: nat)
    requires i < |cs|
    ensures Dump(cs[..i + 1]) == Dump(cs[..i]) + [HexLine(cs[i], |Flatten(cs[..i])|)]
    ensures Flatten(cs[..i + 1]) == Flatten(cs[..i]) + cs[i]
  {
    assert cs[..i + 1][..i] == cs[..i];
  }

  /** The bytes shown by a list of printed lines, read back line after line. */
  function ReadBack(lines: seq<string>): seq<int> {
    if lines == [] then [] else ReadBack(lines[..|lines| - 1]) + LineBytes(lines[|lines| - 1])
  }

  /**
   * The dump loses nothing and adds nothing: reading its lines back gives the
   * file's bytes up to the end, and each line's offset is the number of bytes before it.
   */
  lemma {:induction false} DumpRoundTrip(cs: seq<seq<byte>>)
    requires forall k | 0 <= k < |cs| :: |cs[k]| <= BYTES_PER_LINE
    ensures ReadBack(Dump(cs)) == Flatten(cs)
    ensures forall k | 0 <= k < |cs| :: LineOffset(Dump(cs)[k]) == |Flatten(cs[..k])|
    decreases |cs|
  {
    DumpLines(cs);
    if cs != [] {
      var init, last := cs[..|cs| - 1], cs[|cs| - 1];
      DumpRoundTrip(init);
      LineRoundTrip(last, |Flatten(init)|);
      assert Dump(cs)[..|cs| - 1] == Dump(init);
      forall k | 0 <= k < |cs| ensures LineOffset(Dump(cs)[k]) == |Flatten(cs[..k])| {
        LineRoundTrip(cs[k], |Flatten(cs[..k])|);
      }
    }
  }

  /** `reader.read(&mut buffer)` filling the front of the buffer in place. */
  method ReadInto(buffer: array<byte>, data: seq<byte>)
    requires |data| <= buffer.Length
    modifies buffer
    ensures buffer[..|data|] == data
    ensures buffer[|data|..] == old(buffer[|data|..])
  {
    for k := 0 to |data|
      invariant buffer[..k] == data[..k]
      invariant buffer[|data|..] == old(buffer[|data|..])
    {
      buffer[k] := data[k];
    }
  }

  /**
   * Lines 9-50. With other than exactly two arguments it prints the usage
   * message and exits before touching any file. Otherwise it opens the file
   * named by the second and prints one line per chunk read into its buffer,
   * until a read returns nothing; a failing open or read ends the program
   * with that error. A script of replies that runs out results as end of file.
   */
  method HexDump(args: seq<string>, openReply: OpenReply, results: seq<ReadReply>)
      returns (lines: seq<string>, outcome: Outcome, openedFiles: seq<string>, readCalls: nat)
    requires forall k | 0 <= k < |results| :: results[k].Data? ==> |results[k].bytes| <= BYTES_PER_LINE
    ensures |args| != 2 ==> openedFiles == [] && readCalls == 0 && lines == []
    ensures |args| == 0 ==> outcome == IndexPanic
    ensures |args| != 2 && |args| > 0 ==> outcome == Usage(UsageMessage(args[0])) && ExitCode(outcome) == 1
    ensures |args| == 2 ==> openedFiles == [args[1]]
    ensures |args| == 2 && openReply.OpenFailure? ==> readCalls == 0 && lines == [] && outcome == OpenFailed(openReply.error)
    ensures |args| == 2 && openReply.Opened? ==>
      var cs := Chunks(results);
      && lines == Dump(cs)
      && readCalls == |cs| + 1
      && outcome == (if |cs| < |results| && results[|cs|].ReadFailure? then ReadFailed(results[|cs|].error) else Completed)
  {
    lines, openedFiles, readCalls := [], [], 0;
    if |args| != 2 {
      if |args| == 0 {
        outcome := IndexPanic;
      } else {
        outcome := Usage(UsageMessage(args[0]));
      }
      return;
    }
    openedFiles := [args[1]];
    if openReply.OpenFailure? {
      outcome := OpenFailed(openReply.error);
      return;
    }
    var buffer := new byte[BYTES_PER_LINE](_ => 0);
    var offset := 0;
    ghost var cs := Chunks(results);
    var i := 0;
    while true
      invariant 0 <= i <= |cs|
      invariant offset == |Flatten(cs[..i])|
      invariant lines == Dump(cs[..i])
      invariant readCalls == i
      decreases |results| - i
    {
      var reply := if i < |results| then results[i] else Data([]);
      readCalls := readCalls + 1;
      if reply.ReadFailure? {
        outcome := ReadFailed(reply.error);
        return;
      }
      var n := |reply.bytes|;
      ReadInto(buffer, reply.bytes);
      if n == 0 {
        assert i == |cs| && cs[..i] == cs;
        break;
      }
      assert i < |cs| && cs[i] == buffer[..n];
      DumpExtends(cs, i);
      var line := FormatHexLine(buffer[..n], offset);
      lines := lines + [line];
      offset := offset + n;
      i := i + 1;
    }
    outcome := Completed;
  }
}
