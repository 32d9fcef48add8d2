/**
 Chunked transfer: the fixed-column chunk header, cutting a message into chunks
 and the parser that reads a chunk back.
 */
module Chunking {
  import opened Common
  import opened Text
  import opened Utf8
  import opened Decimal
  import opened Framing

  const HEADER_SIZE := 38
  const U64_MAX := 0xFFFF_FFFF_FFFF_FFFF

  // ---------- writing ----------

  function Spaces(n: nat): (s: string)
    ensures |s| == n && forall i :: 0 <= i < n ==> s[i] == ' '
  {
    if n == 0 then "" else Spaces(n - 1) + " "
  }

  /** Right-aligned in a column; longer text is not cut. */
  function AlignRight(s: string, width: nat): string {
    if |s| < width then Spaces(width - |s|) + s else s
  }

  function AlignLeft(s: string, width: nat): string {
    if |s| < width then s + Spaces(width - |s|) else s
  }

  function IdField(id: nat): seq<Byte> {
    Encode(AlignRight(Digits(id), 20))
  }

  function NumberField(n: nat, width: nat): seq<Byte> {
    Encode(AlignLeft(Digits(n), width))
  }

  /** The datagram of one chunk: id in 20 columns, sequence number and total in 7, size in 4, then the payload. */
  function ChunkBytes(id: nat, seqNum: nat, total: nat, payload: seq<Byte>): seq<Byte> {
    IdField(id) + NumberField(seqNum, 7) + NumberField(total, 7) + NumberField(|payload|, 4) + payload
  }

  /**
   The payloads of a message: pieces of the given size, the last one shorter; one empty piece for an empty message.
   */
  function Slices(data: seq<Byte>, size: nat): (slices: seq<seq<Byte>>)
    requires data == [] || size > 0
    ensures |slices| >= 1
    decreases |data|
  {
    if |data| <= size then [data] else [data[..size]] + Slices(data[size..], size)
  }

  lemma {:induction false} SlicesAreSmall(data: seq<Byte>, size: nat)
    requires data == [] || size > 0
    ensures forall i :: 0 <= i < |Slices(data, size)| ==> |Slices(data, size)[i]| <= size
    decreases |data|
  {
    if |data| > size {
      SlicesAreSmall(data[size..], size);
    }
  }

  function Flatten(slices: seq<seq<Byte>>): seq<Byte> {
    if slices == [] then [] else Flatten(slices[..|slices| - 1]) + slices[|slices| - 1]
  }

  /** The number of chunks the source computes, by rounding up. */
  function TotalChunks(n: nat, size: nat): nat
    requires n == 0 || size > 0
  {
    if n == 0 then 1 else (n + size - 1) / size
  }

  lemma {:induction false} FlattenCons(head: seq<Byte>, tail: seq<seq<Byte>>)
    ensures Flatten([head] + tail) == head + Flatten(tail)
  {
    var s := [head] + tail;
    if tail == [] {
      assert s[..0] == [] && head + [] == head;
    } else {
      assert s[..|s| - 1] == [head] + tail[..|tail| - 1];
      FlattenCons(head, tail[..|tail| - 1]);
    }
  }

  lemma EmptyFlatten()
    ensures Flatten([]) == []
  {
  }

  /** The slices of a message concatenate to the message. */
  lemma {:induction false} SlicesFlatten(data: seq<Byte>, size: nat)
    requires data == [] || size > 0
    ensures Flatten(Slices(data, size)) == data
    decreases |data|
  {
    hide Flatten;
    if |data| <= size {
      FlattenCons(data, []);
      assert [data] + [] == [data] && data + Flatten([]) == data by { EmptyFlatten(); }
    } else {
      SlicesFlatten(data[size..], size);
      FlattenCons(data[..size], Slices(data[size..], size));
      assert data == data[..size] + data[size..];
    }
  }

  lemma NoMultipleBetween(k: int, d: nat)
    requires -(d as int) < k * d < d
    ensures k == 0
  {
  }

  lemma DivisionIs(x: nat, d: nat, q: nat)
    requires q * d <= x < q * d + d
    ensures x / d == q
  {
    var p := x / d;
    assert p * d <= x < p * d + d;
    assert (p - q) * d == p * d - q * d;
    NoMultipleBetween(p - q, d);
  }

  lemma DivideStep(x: nat, d: nat)
    requires d > 0
    ensures (x + d) / d == x / d + 1
  {
    var q := x / d;
    assert q * d <= x < q * d + d;
    assert (q + 1) * d == q * d + d;
    DivisionIs(x + d, d, q + 1);
  }

  lemma {:induction false} SlicesCount(data: seq<Byte>, size: nat)
    requires data == [] || size > 0
    ensures |Slices(data, size)| == TotalChunks(|data|, size)
    decreases |data|
  {
    if |data| > size {
      SlicesCount(data[size..], size);
      DivideStep(|data| - 1, size);
      DivideStep(|data| - size - 1, size);
    } else if |data| > 0 {
      DivideStep(|data| - 1, size);
      assert (|data| - 1) / size == 0;
    }
  }

  lemma {:induction false} SliceAt(data: seq<Byte>, size: nat, i: nat)
    requires data == [] || size > 0
    requires i < |Slices(data, size)|
    ensures i * size <= |data|
    ensures Slices(data, size)[i] == data[i * size..if i * size + size < |data| then i * size + size else |data|]
    decreases |data|
  {
    if |data| > size && i > 0 {
      var rest := data[size..];
      SliceAt(rest, size, i - 1);
      var from := (i - 1) * size;
      assert i * size == from + size;
      var to := if from + size < |rest| then from + size else |rest|;
      assert rest[from..to] == data[from + size..to + size];
    } else {
      assert i == 0 && 0 * size == 0;
    }
  }

  datatype Chunk = Chunk(data: seq<Byte>, seqNum: nat, total: nat)

  function ChunkOf(id: nat, seqNum: nat, total: nat, payload: seq<Byte>): Chunk {
    Chunk(ChunkBytes(id, seqNum, total, payload), seqNum, total)
  }

  /** One turn of the chunking loop: fills the buffer field by field. */
  method MakeChunk(id: nat, seqNum: nat, total: nat, payload: seq<Byte>) returns (chunk: Chunk)
    ensures chunk == ChunkOf(id, seqNum, total, payload)
  {
    hide Encode, Digits, AlignLeft, AlignRight;
    var buf := Encode(AlignRight(Digits(id), 20));
    buf := buf + Encode(AlignLeft(Digits(seqNum), 7));
    buf := buf + Encode(AlignLeft(Digits(total), 7));
    buf := buf + Encode(AlignLeft(Digits(|payload|), 4));
    buf := buf + payload;
    return Chunk(buf, seqNum, total);
  }

  /**
   Cuts a message into chunks; the id is drawn at random in the source. A chunk size of zero divides by zero there.
   */
  method ChunkMessage(id: nat, data: seq<Byte>, size: nat) returns (chunks: seq<Chunk>)
    requires data == [] || size > 0
    ensures var slices := Slices(data, size);
            |chunks| == |slices| && forall i :: 0 <= i < |chunks| ==> chunks[i] == ChunkOf(id, i, |slices|, slices[i])
  {
    hide Slices, ChunkOf;
    var total := if data == [] then 1 else (|data| + size - 1) / size;
    ghost var slices := Slices(data, size);
    SlicesCount(data, size);
    chunks := [];
    var n := 0;
    while n < total
      invariant 0 <= n <= total == |slices| && |chunks| == n
      invariant forall i :: 0 <= i < n ==> chunks[i] == ChunkOf(id, i, |slices|, slices[i])
    {
      SliceAt(data, size, n);
      var start := n * size;
      var end := if start + size < |data| then start + size else |data|;
      var chunk := MakeChunk(id, n, total, data[start..end]);
      chunks := chunks + [chunk];
      n := n + 1;
    }
  }

  // ---------- reading ----------

  datatype ChunkError = HeaderTooShort | BadId | BadSeqNum | BadTotal | BadSize | Truncated

  datatype Parsed = Parsed(id: nat, seqNum: nat, total: nat, payload: seq<Byte>)

  /** A header field: UTF-8 text, trimmed, parsed as a 64-bit unsigned number. */
  function ReadField(raw: seq<Byte>): Option<nat> {
    match Decode(raw)
    case None => None
    case Some(text) => ParseUnsigned(Trim(text), U64_MAX)
  }

  function ParseChunk(raw: seq<Byte>): Result<Parsed, ChunkError> {
    if |raw| < HEADER_SIZE then Err(HeaderTooShort) else
      match ReadField(raw[0..20])
      case None => Err(BadId)
      case Some(id) =>
        match ReadField(raw[20..27])
        case None => Err(BadSeqNum)
        case Some(seqNum) =>
          match ReadField(raw[27..34])
          case None => Err(BadTotal)
          case Some(total) =>
            match ReadField(raw[34..38])
            case None => Err(BadSize)
            case Some(size) =>
              if |raw| < HEADER_SIZE + size then Err(Truncated)
              else Ok(Parsed(id, seqNum, total, raw[HEADER_SIZE..HEADER_SIZE + size]))
  }

  lemma SpacesAreWhitespace(n: nat)
    ensures forall c :: c in Spaces(n) ==> IsWhitespace(c)
  {
  }

  /** A number padded with spaces on either side is read back exactly when it fits 64 bits. */
  lemma PaddedNumberIsRead(left: nat, n: nat, right: nat)
    ensures ReadField(Encode(Spaces(left) + Digits(n) + Spaces(right)))
            == if n < 0x1_0000_0000_0000_0000 then Some(n) else None
  {
    hide Encode, Decode, Trim, Digits, Spaces, Value;
    var d := Digits(n);
    var text := Spaces(left) + d + Spaces(right);
    DecodeOfEncode(text);
    SpacesAreWhitespace(left);
    SpacesAreWhitespace(right);
    assert IsDigit(d[0]) && IsDigit(d[|d| - 1]);
    TrimOfPadded(Spaces(left), d, Spaces(right));
    ParseOfDigits(n, U64_MAX);
  }

  lemma PaddedIsAscii(left: nat, n: nat, right: nat)
    ensures IsAscii(Spaces(left) + Digits(n) + Spaces(right))
  {
  }

  lemma PaddedField(left: nat, n: nat, right: nat, text: string)
    requires n <= U64_MAX && text == Spaces(left) + Digits(n) + Spaces(right)
    ensures ReadField(Encode(text)) == Some(n) && |Encode(text)| == left + |Digits(n)| + right
  {
    hide Encode, ReadField, Digits, Spaces;
    PaddedNumberIsRead(left, n, right);
    PaddedIsAscii(left, n, right);
    EncodeOfAscii(text);
  }

  lemma AlignedIsRead(n: nat, width: nat)
    requires n <= U64_MAX
    ensures ReadField(NumberField(n, width)) == Some(n)
    ensures |NumberField(n, width)| == if |Digits(n)| < width then width else |Digits(n)|
  {
    hide Encode, ReadField, Digits;
    var right := if |Digits(n)| < width then width - |Digits(n)| else 0;
    assert Spaces(0) == "";
    assert right == 0 ==> Spaces(right) == "";
    assert Spaces(0) + Digits(n) + Spaces(right) == AlignLeft(Digits(n), width);
    PaddedField(0, n, right, AlignLeft(Digits(n), width));
  }

  lemma IdIsRead(id: nat)
    requires id <= U64_MAX
    ensures ReadField(IdField(id)) == Some(id) && |IdField(id)| == 20
  {
    hide Encode, ReadField, Digits, PowerOfTen;
    TwentyDigits();
    DigitsFit(id, 20);
    var left := 20 - |Digits(id)|;
    assert left == 0 ==> Spaces(left) == "";
    assert Spaces(0) == "";
    assert Spaces(left) + Digits(id) + Spaces(0) == AlignRight(Digits(id), 20);
    PaddedField(left, id, 0, AlignRight(Digits(id), 20));
  }

  lemma TwentyDigits()
    ensures PowerOfTen(20) == 100_000_000_000_000_000_000
    ensures PowerOfTen(7) == 10_000_000 && PowerOfTen(4) == 10_000
  {
    assert PowerOfTen(4) == 10_000;
    assert PowerOfTen(7) == 1_000 * PowerOfTen(4);
    assert PowerOfTen(10) == 1_000 * PowerOfTen(7);
    assert PowerOfTen(13) == 1_000 * PowerOfTen(10);
    assert PowerOfTen(16) == 1_000 * PowerOfTen(13);
    assert PowerOfTen(20) == 10_000 * PowerOfTen(16);
  }

  /** A field of k bytes holds a number of at most k digits. */
  lemma FieldBelow(raw: seq<Byte>)
    requires ReadField(raw).Some?
    ensures ReadField(raw).value < PowerOfTen(|raw|)
  {
    var text := Decode(raw).value;
    DecodeIsShorter(raw);
    TrimIsShorter(text);
    var t := Trim(text);
    var digits := if t != "" && t[0] == '+' then t[1..] else t;
    ValueBelow(digits);
    PowerGrows(|digits|, |raw|);
  }

  lemma {:induction false} DecodeIsShorter(raw: seq<Byte>)
    requires Decode(raw).Some?
    ensures |Decode(raw).value| <= |raw|
  {
    if raw != [] {
      DecodeIsShorter(raw[Announced(raw[0])..]);
    }
  }

  lemma {:induction false} TrimStartIsShorter(s: string)
    ensures |TrimStart(s)| <= |s|
  {
    if s != "" && IsWhitespace(s[0]) {
      TrimStartIsShorter(s[1..]);
    }
  }

  lemma TrimIsShorter(s: string)
    ensures |Trim(s)| <= |s|
  {
    TrimStartIsShorter(s);
    assert TrimEnd(TrimStart(s)) <= TrimStart(s);
  }

  lemma {:induction false} PowerGrows(a: nat, b: nat)
    requires a <= b
    ensures PowerOfTen(a) <= PowerOfTen(b)
  {
    if a < b {
      PowerGrows(a, b - 1);
    }
  }

  lemma {:induction false} FieldsAre(a: seq<Byte>, b: seq<Byte>, c: seq<Byte>, d: seq<Byte>, payload: seq<Byte>)
    requires |a| == 20 && |b| == 7 && |c| == 7 && |d| == 4
    ensures var raw := a + b + c + d + payload;
            raw[0..20] == a && raw[20..27] == b && raw[27..34] == c && raw[34..38] == d && raw[38..] == payload
  {
  }

  /** The header is 38 bytes, each number in its own columns. */
  lemma HeaderSize(id: nat, seqNum: nat, total: nat, payload: seq<Byte>)
    requires id <= U64_MAX && seqNum < 10_000_000 && total < 10_000_000 && |payload| < 10_000
    ensures |ChunkBytes(id, seqNum, total, payload)| == HEADER_SIZE + |payload|
    ensures |NumberField(seqNum, 7)| == |NumberField(total, 7)| == 7 && |NumberField(|payload|, 4)| == 4
  {
    hide Encode, Digits, AlignLeft, AlignRight, PowerOfTen;
    TwentyDigits();
    IdIsRead(id);
    DigitsFit(seqNum, 7);
    DigitsFit(total, 7);
    DigitsFit(|payload|, 4);
    AlignedIsRead(seqNum, 7);
    AlignedIsRead(total, 7);
    AlignedIsRead(|payload|, 4);
  }

  lemma ChunkIsRead(id: nat, seqNum: nat, total: nat, payload: seq<Byte>)
    requires id <= U64_MAX && seqNum < total < 10_000_000 && |payload| < 10_000
    ensures ParseChunk(ChunkBytes(id, seqNum, total, payload)) == Ok(Parsed(id, seqNum, total, payload))
  {
    hide IdField, NumberField, ReadField;
    HeaderSize(id, seqNum, total, payload);
    IdIsRead(id);
    AlignedIsRead(seqNum, 7);
    AlignedIsRead(total, 7);
    AlignedIsRead(|payload|, 4);
    FieldsAre(IdField(id), NumberField(seqNum, 7), NumberField(total, 7), NumberField(|payload|, 4), payload);
    var raw := ChunkBytes(id, seqNum, total, payload);
    assert raw[38..38 + |payload|] == raw[38..];
  }

  lemma ParsedIsBounded(raw: seq<Byte>)
    requires ParseChunk(raw).Ok?
    ensures var p := ParseChunk(raw).value;
            p.seqNum < 10_000_000 && p.total < 10_000_000 && |p.payload| < 10_000
  {
    hide ReadField, PowerOfTen;
    TwentyDigits();
    FieldBelow(raw[20..27]);
    FieldBelow(raw[27..34]);
    FieldBelow(raw[34..38]);
  }

  /** The bytes show the text, one byte a character. */
  ghost predicate Shows(bytes: seq<Byte>, text: string) {
    |bytes| == |text| && forall i :: 0 <= i < |text| ==> bytes[i] as int == text[i] as int
  }

  lemma PaddedShows(left: nat, n: nat, right: nat)
    ensures Shows(Encode(Spaces(left) + Digits(n) + Spaces(right)), Spaces(left) + Digits(n) + Spaces(right))
  {
    PaddedIsAscii(left, n, right);
    EncodeOfAscii(Spaces(left) + Digits(n) + Spaces(right));
  }

  lemma NumberShows(n: nat, width: nat)
    requires |Digits(n)| <= width
    ensures Shows(NumberField(n, width), Digits(n) + Spaces(width - |Digits(n)|))
  {
    hide Encode, Digits;
    assert Spaces(0) == "";
    assert Spaces(0) + Digits(n) + Spaces(width - |Digits(n)|) == Digits(n) + Spaces(width - |Digits(n)|);
    assert |Digits(n)| == width ==> Digits(n) + Spaces(0) == Digits(n);
    PaddedShows(0, n, width - |Digits(n)|);
  }

  lemma IdShows(id: nat)
    requires |Digits(id)| <= 20
    ensures Shows(IdField(id), Spaces(20 - |Digits(id)|) + Digits(id))
  {
    hide Encode, Digits;
    assert Spaces(0) == "";
    assert Spaces(20 - |Digits(id)|) + Digits(id) + Spaces(0) == Spaces(20 - |Digits(id)|) + Digits(id);
    assert |Digits(id)| == 20 ==> Spaces(0) + Digits(id) == Digits(id);
    PaddedShows(20 - |Digits(id)|, id, 0);
  }

  lemma WidthsFit(id: nat, seqNum: nat, total: nat, size: nat)
    requires id <= U64_MAX && seqNum < 10_000_000 && total < 10_000_000 && size < 10_000
    ensures |Digits(id)| <= 20 && |Digits(seqNum)| <= 7 && |Digits(total)| <= 7 && |Digits(size)| <= 4
  {
    hide Digits, PowerOfTen;
    TwentyDigits();
    DigitsFit(id, 20);
    DigitsFit(seqNum, 7);
    DigitsFit(total, 7);
    DigitsFit(size, 4);
  }

  lemma ChunkColumns(id: nat, seqNum: nat, total: nat, payload: seq<Byte>)
    requires id <= U64_MAX && seqNum < 10_000_000 && total < 10_000_000 && |payload| < 10_000
    ensures var raw := ChunkBytes(id, seqNum, total, payload);
            && |raw| == 38 + |payload|
            && raw[0..20] == IdField(id) && raw[20..27] == NumberField(seqNum, 7)
            && raw[27..34] == NumberField(total, 7) && raw[34..38] == NumberField(|payload|, 4) && raw[38..] == payload
  {
    hide IdField, NumberField;
    HeaderSize(id, seqNum, total, payload);
    IdIsRead(id);
    FieldsAre(IdField(id), NumberField(seqNum, 7), NumberField(total, 7), NumberField(|payload|, 4), payload);
  }

  /**
   The layout of a chunk on the wire: the id right-aligned in columns 0 to 19, the position, the total and the size
   left-aligned from columns 20, 27 and 34, and the payload from column 38.
   */
  lemma ChunkLayout(id: nat, seqNum: nat, total: nat, payload: seq<Byte>)
    requires id <= U64_MAX && seqNum < 10_000_000 && total < 10_000_000 && |payload| < 10_000
    ensures |Digits(id)| <= 20 && |Digits(seqNum)| <= 7 && |Digits(total)| <= 7 && |Digits(|payload|)| <= 4
    ensures var raw := ChunkBytes(id, seqNum, total, payload);
            && |raw| == 38 + |payload|
            && Shows(raw[0..20], Spaces(20 - |Digits(id)|) + Digits(id))
            && Shows(raw[20..27], Digits(seqNum) + Spaces(7 - |Digits(seqNum)|))
            && Shows(raw[27..34], Digits(total) + Spaces(7 - |Digits(total)|))
            && Shows(raw[34..38], Digits(|payload|) + Spaces(4 - |Digits(|payload|)|))
            && raw[38..] == payload
  {
    hide Shows, IdField, NumberField, Digits, Spaces, ChunkBytes;
    WidthsFit(id, seqNum, total, |payload|);
    ChunkColumns(id, seqNum, total, payload);
    IdShows(id);
    NumberShows(seqNum, 7);
    NumberShows(total, 7);
    NumberShows(|payload|, 4);
  }

  /**
   A datagram is refused exactly when it is shorter than a header, a field does not read, or the payload is cut off.
   */
  lemma RefusedExactly(raw: seq<Byte>)
    ensures ParseChunk(raw).Err? <==>
            || |raw| < 38
            || ReadField(raw[0..20]).None? || ReadField(raw[20..27]).None? || ReadField(raw[27..34]).None?
            || ReadField(raw[34..38]).None? || |raw| < 38 + ReadField(raw[34..38]).value
    ensures ParseChunk(raw).Ok? ==>
      var p := ParseChunk(raw).value;
      && ReadField(raw[0..20]) == Some(p.id) && ReadField(raw[20..27]) == Some(p.seqNum)
      && ReadField(raw[27..34]) == Some(p.total) && ReadField(raw[34..38]) == Some(|p.payload|)
      && p.payload == raw[38..38 + |p.payload|]
  {
    hide ReadField;
  }

  /** A visible ASCII character other than a digit or a plus makes a field unreadable. */
  lemma GarbageIsRefused(raw: seq<Byte>, i: nat)
    requires i < |raw| && 0x21 <= raw[i] < 0x7F && !IsDigit(raw[i] as char) && raw[i] as char != '+'
    ensures ReadField(raw) == None
  {
    if Decode(raw).Some? {
      var text, c := Decode(raw).value, raw[i] as char;
      EncodeOfDecode(raw);
      AsciiByteIsChar(text, i);
      TrimKeeps(text, c);
      hide Decode, Encode, Trim, ParseUnsigned;
      var t := Trim(text);
      var j :| 0 <= j < |t| && t[j] == c;
      GarbageDoesNotParse(t, U64_MAX, j);
    }
  }

  /** A chunk that is cut off anywhere is refused. */
  lemma CutChunkIsRefused(id: nat, seqNum: nat, total: nat, payload: seq<Byte>, n: nat)
    requires id <= U64_MAX && seqNum < total < 10_000_000 && |payload| < 10_000
    requires n < |ChunkBytes(id, seqNum, total, payload)|
    ensures ParseChunk(ChunkBytes(id, seqNum, total, payload)[..n]) == Err(if n < 38 then HeaderTooShort else Truncated)
  {
    hide ReadField, ChunkBytes;
    var raw := ChunkBytes(id, seqNum, total, payload);
    ChunkIsRead(id, seqNum, total, payload);
    RefusedExactly(raw);
    HeaderSize(id, seqNum, total, payload);
    if n >= 38 {
      assert raw[..n][0..20] == raw[0..20] && raw[..n][20..27] == raw[20..27];
      assert raw[..n][27..34] == raw[27..34] && raw[..n][34..38] == raw[34..38];
    }
  }

  /** A chunk is parsed back to what it was made from exactly when its total fits 7 columns and its size fits 4. */
  lemma ChunkRoundTrip(id: nat, seqNum: nat, total: nat, payload: seq<Byte>)
    requires id <= 0xFFFF_FFFF_FFFF_FFFF && seqNum < total
    ensures ParseChunk(ChunkBytes(id, seqNum, total, payload)) == Ok(Parsed(id, seqNum, total, payload))
            <==> total < 10_000_000 && |payload| < 10_000
  {
    hide ParseChunk, ChunkBytes;
    if total < 10_000_000 && |payload| < 10_000 {
      ChunkIsRead(id, seqNum, total, payload);
    }
    var r := ParseChunk(ChunkBytes(id, seqNum, total, payload));
    if r.Ok? {
      ParsedIsBounded(ChunkBytes(id, seqNum, total, payload));
    }
  }

  /** A well-formed chunk datagram is never taken for a framed message: its first column announces half a gigabyte. */
  lemma ChunkIsNotAFrame<M>(parse: Parser<M>, id: nat, seqNum: nat, total: nat, payload: seq<Byte>)
    requires id <= U64_MAX && seqNum < total < 10_000_000 && |payload| < 10_000
    ensures DecodeFrame(parse, ChunkBytes(id, seqNum, total, payload)) == Err(Incomplete)
  {
    hide NumberField, DecodeFrame;
    HeaderSize(id, seqNum, total, payload);
    IdIsRead(id);
    var text := AlignRight(Digits(id), 20);
    EncodeOfAscii(text);
    assert text[0] == ' ' || IsDigit(text[0]);
    LargePrefixIsRefused(parse, ChunkBytes(id, seqNum, total, payload));
  }
}
