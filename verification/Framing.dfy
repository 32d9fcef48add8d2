/**
 Length-prefixed frames: a 32-bit big-endian length and the encoding of a message. The encoding itself, protobuf, is a
 library's business and a parameter here: a function that prints messages and one that parses them.
 */
module Framing {
  import opened Common
  import opened Utf8

  datatype FrameError = TooShort | Incomplete | Malformed

  datatype Frame<M> = Frame(message: M, rest: seq<Byte>)

  type Printer<!M> = M -> seq<Byte>

  type Parser<!M> = seq<Byte> -> Option<M>

  /** What is printed is parsed back. */
  ghost predicate Inverse<M(!new)>(render: Printer<M>, parse: Parser<M>) {
    forall m: M :: parse(render(m)) == Some(m)
  }

  /** Big-endian bytes of a 32-bit word. */
  function BigEndian(n: nat): (b: seq<Byte>)
    requires n < 0x1_0000_0000
    ensures |b| == 4 && FromBigEndian(b) == n
  {
    var high, low := n / 0x1_0000, n % 0x1_0000;
    [high / 0x100, high % 0x100, low / 0x100, low % 0x100]
  }

  function FromBigEndian(b: seq<Byte>): (n: nat)
    requires |b| >= 4
    ensures b[0] * 0x100_0000 <= n < 0x1_0000_0000
  {
    b[0] as int * 0x100_0000 + b[1] as int * 0x1_0000 + b[2] as int * 0x100 + b[3] as int
  }

  /** Big-endian: of two words the first byte in which they differ decides which is larger. */
  lemma FirstDifferenceDecides(a: seq<Byte>, b: seq<Byte>, i: nat)
    requires |a| == |b| == 4 && i < 4 && a[..i] == b[..i] && a[i] < b[i]
    ensures FromBigEndian(a) < FromBigEndian(b)
  {
    assert forall j :: 0 <= j < i ==> a[j] == a[..i][j] == b[..i][j] == b[j];
    assert i == 0 || i == 1 || i == 2 || i == 3;
  }

  /** The length is cast to 32 bits, so it wraps for longer encodings. */
  function EncodeFrame<M>(render: Printer<M>, message: M): seq<Byte> {
    BigEndian(|render(message)| % 0x1_0000_0000) + render(message)
  }

  function DecodeFrame<M>(parse: Parser<M>, buf: seq<Byte>): Result<Frame<M>, FrameError> {
    if |buf| < 4 then Err(TooShort) else
      var len := FromBigEndian(buf);
      if |buf| < 4 + len then Err(Incomplete) else
        match parse(buf[4..4 + len])
        case None => Err(Malformed)
        case Some(message) => Ok(Frame(message, buf[4 + len..]))
  }

  lemma LengthOfFrame<M>(render: Printer<M>, message: M, rest: seq<Byte>)
    ensures FromBigEndian(EncodeFrame(render, message) + rest) == |render(message)| % 0x1_0000_0000
  {
    var payload := render(message);
    var head := BigEndian(|payload| % 0x1_0000_0000);
    assert EncodeFrame(render, message) + rest == head + (payload + rest);
  }

  /** A frame followed by anything is read back, with what followed, exactly when the encoding's length fits 32 bits. */
  lemma FrameRoundTrip<M(!new)>(render: Printer<M>, parse: Parser<M>, message: M, rest: seq<Byte>)
    requires Inverse(render, parse)
    ensures DecodeFrame(parse, EncodeFrame(render, message) + rest) == Ok(Frame(message, rest))
            <==> |render(message)| < 0x1_0000_0000
  {
    LengthOfFrame(render, message, rest);
    var payload := render(message);
    var buf, len := EncodeFrame(render, message) + rest, |payload| % 0x1_0000_0000;
    if |payload| < 0x1_0000_0000 {
      assert buf[4..4 + len] == payload && buf[4 + len..] == rest;
    } else {
      assert |buf[4 + len..]| == |payload| - len + |rest|;
    }
  }

  /** A frame is refused as malformed exactly when it is whole and its payload is not the encoding of a message. */
  lemma MalformedExactly<M>(parse: Parser<M>, payload: seq<Byte>, rest: seq<Byte>)
    requires |payload| < 0x1_0000_0000
    ensures DecodeFrame(parse, BigEndian(|payload|) + payload + rest) == Err(Malformed) <==> parse(payload) == None
  {
    var buf := BigEndian(|payload|) + payload + rest;
    assert buf == BigEndian(|payload|) + (payload + rest);
    assert buf[4..4 + |payload|] == payload;
  }

  /** A frame that is cut off anywhere is refused: within its length as too short, after it as incomplete. */
  lemma CutFrameIsRefused<M>(render: Printer<M>, parse: Parser<M>, message: M, n: nat)
    requires |render(message)| < 0x1_0000_0000 && n < |EncodeFrame(render, message)|
    ensures DecodeFrame(parse, EncodeFrame(render, message)[..n]) == Err(if n < 4 then TooShort else Incomplete)
  {
    LengthOfFrame(render, message, []);
    var frame := EncodeFrame(render, message);
    assert frame + [] == frame;
    if n >= 4 {
      assert forall i :: 0 <= i < 4 ==> frame[..n][i] == frame[i];
    }
  }

  /** The frames of a stream. */
  function Stream<M>(render: Printer<M>, messages: seq<M>): seq<Byte> {
    if messages == [] then [] else EncodeFrame(render, messages[0]) + Stream(render, messages[1..])
  }

  /** Reading a stream of frames to its end. */
  function ReadAll<M>(parse: Parser<M>, buf: seq<Byte>): Result<seq<M>, FrameError>
    decreases |buf|
  {
    if buf == [] then Ok([]) else
      match DecodeFrame(parse, buf)
      case Err(e) => Err(e)
      case Ok(f) =>
        match ReadAll(parse, f.rest)
        case Err(e) => Err(e)
        case Ok(more) => Ok([f.message] + more)
  }

  /** Any stream of frames that fit is cut back into its messages, in order. */
  lemma {:induction false} StreamRoundTrip<M(!new)>(render: Printer<M>, parse: Parser<M>, messages: seq<M>)
    requires Inverse(render, parse)
    requires forall i :: 0 <= i < |messages| ==> |render(messages[i])| < 0x1_0000_0000
    ensures ReadAll(parse, Stream(render, messages)) == Ok(messages)
  {
    if messages != [] {
      FrameRoundTrip(render, parse, messages[0], Stream(render, messages[1..]));
      StreamRoundTrip(render, parse, messages[1..]);
      assert |Stream(render, messages)| >= 4;
      assert [messages[0]] + messages[1..] == messages;
    }
  }

  /** A buffer whose first byte is at least 0x20 announces half a gigabyte, so no smaller one is accepted. */
  lemma LargePrefixIsRefused<M>(parse: Parser<M>, buf: seq<Byte>)
    requires 4 <= |buf| < 0x2000_0004 && buf[0] >= 0x20
    ensures DecodeFrame(parse, buf) == Err(Incomplete)
  {
  }
}
