/** WebSocket frames (runtime/websocket.c; RFC 6455 sections 5.2 and 5.3). A connection is the sequence of
    bytes still to be received; `recv` with MSG_WAITALL gets all bytes asked for, or the read fails. */
module WebSocket {
  import opened Wrappers
  import opened Bytes
  import opened Sequences

  const MAX_PAYLOAD := 16 * 1024 * 1024

  // ---------- Exclusive or ----------

  function Pow2(n: nat): nat {
    if n == 0 then 1 else 2 * Pow2(n - 1)
  }

  function XorBits(a: nat, b: nat, n: nat): (r: nat)
    ensures r < Pow2(n)
    decreases n
  {
    if n == 0 then 0 else (a % 2 + b % 2) % 2 + 2 * XorBits(a / 2, b / 2, n - 1)
  }

  lemma {:induction false} Halves(bit: nat, x: nat)
    requires bit < 2
    ensures (bit + 2 * x) % 2 == bit && (bit + 2 * x) / 2 == x
  {
  }

  lemma {:induction false} BitTwice(a: nat, b: nat)
    requires a < 2 && b < 2
    ensures ((a + b) % 2 + b) % 2 == a
  {
  }

  lemma {:induction false} XorTwice(a: nat, b: nat, n: nat)
    requires a < Pow2(n)
    ensures XorBits(XorBits(a, b, n), b, n) == a
  {
    if n > 0 {
      XorTwice(a / 2, b / 2, n - 1);
      Halves((a % 2 + b % 2) % 2, XorBits(a / 2, b / 2, n - 1));
      BitTwice(a % 2, b % 2);
    }
  }

  lemma {:induction false} EightBits()
    ensures Pow2(8) == 256
  {
    assert Pow2(4) == 16;
  }

  function Xor(a: Byte, b: Byte): Byte {
    EightBits();
    XorBits(a, b, 8)
  }

  /** Combining with the same byte again undoes it. */
  lemma {:induction false} XorUndone(a: Byte, b: Byte)
    ensures Xor(Xor(a, b), b) == a
  {
    EightBits();
    XorTwice(a, b, 8);
  }

  /** Byte i is combined with byte i modulo 4 of the key; from byte i on. */
  function Masked(data: seq<Byte>, key: seq<Byte>, i: nat): (r: seq<Byte>)
    requires |key| == 4 && i <= |data|
    ensures |r| == |data| - i
    decreases |data| - i
  {
    if i == |data| then [] else [Xor(data[i], key[i % 4])] + Masked(data, key, i + 1)
  }

  lemma {:induction false} MaskedAt(data: seq<Byte>, key: seq<Byte>, i: nat, k: nat)
    requires |key| == 4 && i + k < |data|
    ensures Masked(data, key, i)[k] == Xor(data[i + k], key[(i + k) % 4])
    decreases k
  {
    if k > 0 {
      MaskedAt(data, key, i + 1, k - 1);
      MaskedNext(data, key, i, k);
    }
  }

  lemma {:induction false} MaskedNext(data: seq<Byte>, key: seq<Byte>, i: nat, k: nat)
    requires |key| == 4 && 0 < k && i + k < |data|
    ensures Masked(data, key, i)[k] == Masked(data, key, i + 1)[k - 1]
  {
  }

  lemma {:induction false} IsMasked(data: seq<Byte>, key: seq<Byte>, out: seq<Byte>)
    requires |key| == 4 && |out| == |data| && forall k | 0 <= k < |data| :: out[k] == Xor(data[k], key[k % 4])
    ensures out == Masked(data, key, 0)
  {
    forall k | 0 <= k < |data| ensures out[k] == Masked(data, key, 0)[k] {
      MaskedAt(data, key, 0, k);
    }
  }

  /** Unmasking is masking again. */
  lemma {:induction false} MaskTwice(data: seq<Byte>, key: seq<Byte>)
    requires |key| == 4
    ensures Masked(Masked(data, key, 0), key, 0) == data
  {
    var once := Masked(data, key, 0);
    forall k | 0 <= k < |data| ensures Masked(once, key, 0)[k] == data[k] {
      MaskedAt(data, key, 0, k);
      MaskedAt(once, key, 0, k);
      XorUndone(data[k], key[k % 4]);
    }
  }

  // ---------- Writing ----------

  /** n bytes, most significant first. */
  function BigEndian(v: nat, n: nat): (r: seq<Byte>)
    ensures |r| == n
  {
    if n == 0 then [] else BigEndian(v / 256, n - 1) + [v % 256]
  }

  /** The length in 7, 16 or 64 bits, with the mask bit. */
  function LenBytes(n: nat, masked: bool): seq<Byte>
    requires n < U64
  {
    var bit := if masked then 128 else 0;
    if n < 126 then [bit + n]
    else if n < 65536 then [bit + 126, n / 256, n % 256]
    else [bit + 127] + BigEndian(n, 8)
  }

  /** `ws_write_frame`: a whole text message, not masked. */
  function WriteFrame(data: seq<Byte>): seq<Byte>
    requires |data| < U64
  {
    [0x81] + LenBytes(|data|, false) + data
  }

  /** What a client sends (section 5.3). */
  function ClientFrame(data: seq<Byte>, key: seq<Byte>): seq<Byte>
    requires |data| < U64 && |key| == 4
  {
    [0x81] + LenBytes(|data|, true) + (key + Masked(data, key, 0))
  }

  // ---------- Reading ----------

  datatype Read = Payload(data: seq<Byte>, at: nat) | CloseFrame | Failed

  datatype Length = Length(len: nat, at: nat) | Short

  function BigValue(s: seq<Byte>, p: nat, n: nat, acc: nat): nat
    requires p + n <= |s|
    decreases n
  {
    if n == 0 then acc else BigValue(s, p + 1, n - 1, acc * 256 + s[p])
  }

  /** The length field whose first byte is at p. */
  function ReadLength(s: seq<Byte>, p: nat): (r: Length)
    requires p < |s|
    ensures r.Length? ==> p < r.at <= |s|
  {
    var n := s[p] % 128;
    if n == 126 then if p + 3 > |s| then Short else Length(s[p + 1] as int * 256 + s[p + 2] as int, p + 3)
    else if n == 127 then if p + 9 > |s| then Short else Length(BigValue(s, p + 1, 8, 0), p + 9)
    else Length(n, p + 1)
  }

  /** After a ping's length the next frame is read: the ping's key and payload are not skipped. */
  function ReadFrame(s: seq<Byte>, p: nat): (r: Read)
    requires p <= |s|
    ensures r.Payload? ==> p < r.at <= |s|
    decreases |s| - p
  {
    if p + 2 > |s| then Failed
    else
      var op, l := s[p] % 16, ReadLength(s, p + 1);
      if l.Short? then Failed
      else if op == 8 then CloseFrame
      else if op == 9 then ReadFrame(s, l.at)
      else ReadBody(s, l.at, l.len, s[p + 1] >= 128)
  }

  /** What is sent back while the frame at p is read: one empty pong for each ping passed. */
  function Pongs(s: seq<Byte>, p: nat): seq<Byte>
    requires p <= |s|
    decreases |s| - p
  {
    if p + 2 > |s| then []
    else
      var l := ReadLength(s, p + 1);
      if l.Short? || s[p] % 16 != 9 then [] else [0x8A, 0x00] + Pongs(s, l.at)
  }

  function ReadBody(s: seq<Byte>, p: nat, len: nat, masked: bool): (r: Read)
    requires p <= |s|
    ensures r.Payload? ==> p <= r.at <= |s|
    ensures !r.CloseFrame?
  {
    if !masked then ReadPayload(s, p, len, None)
    else if p + 4 > |s| then Failed
    else ReadPayload(s, p + 4, len, Some(s[p..p + 4]))
  }

  function ReadPayload(s: seq<Byte>, p: nat, len: nat, key: Option<seq<Byte>>): (r: Read)
    requires p <= |s| && (key.Some? ==> |key.value| == 4)
    ensures r.Payload? ==> r.at == p + len <= |s|
    ensures !r.CloseFrame?
  {
    if len > MAX_PAYLOAD || p + len > |s| then Failed
    else
      var data := s[p..p + len];
      Payload(if key.Some? then Masked(data, key.value, 0) else data, p + len)
  }

  // ---------- Round trips ----------

  lemma {:induction false} BigValueExtend(s: seq<Byte>, p: nat, n: nat, acc: nat)
    requires p + n + 1 <= |s|
    ensures BigValue(s, p, n + 1, acc) == BigValue(s, p, n, acc) * 256 + s[p + n]
    decreases n
  {
    if n > 0 {
      BigValueExtend(s, p + 1, n - 1, acc * 256 + s[p]);
    }
  }

  lemma {:induction false} BigEndianReadsBack(s: seq<Byte>, p: nat, v: nat, n: nat)
    requires v < Pow256(n) && Ahead(s, p, BigEndian(v, n))
    ensures BigValue(s, p, n, 0) == v
    decreases n
  {
    if n > 0 {
      AheadSplit(s, p, BigEndian(v / 256, n - 1), [v % 256]);
      assert s[p + (n - 1) + 0] == [v % 256][0];
      BigEndianReadsBack(s, p, v / 256, n - 1);
      BigValueExtend(s, p, n - 1, 0);
    }
  }

  /** All three length forms read back. */
  lemma {:induction false} LengthReadsBack(s: seq<Byte>, p: nat, n: nat, masked: bool)
    requires n < U64 && Ahead(s, p, LenBytes(n, masked))
    ensures p < |s| && ReadLength(s, p) == Length(n, p + |LenBytes(n, masked)|) && (s[p] >= 128 <==> masked)
  {
    var t := LenBytes(n, masked);
    assert s[p + 0] == t[0];
    if 126 <= n < 65536 {
      MiddleLength(s, p, n, masked);
    } else if n >= 65536 {
      LongLength(s, p, n, masked);
    }
  }

  lemma {:induction false} MiddleLength(s: seq<Byte>, p: nat, n: nat, masked: bool)
    requires 126 <= n < 65536 && Ahead(s, p, LenBytes(n, masked))
    ensures p < |s| && ReadLength(s, p) == Length(n, p + 3) && (s[p] >= 128 <==> masked)
  {
    var t := LenBytes(n, masked);
    assert s[p + 0] == t[0] && s[p + 1] == t[1] && s[p + 2] == t[2];
  }

  lemma {:induction false} LongLength(s: seq<Byte>, p: nat, n: nat, masked: bool)
    requires 65536 <= n < U64 && Ahead(s, p, LenBytes(n, masked))
    ensures p < |s| && ReadLength(s, p) == Length(n, p + 9) && (s[p] >= 128 <==> masked)
  {
    var first: Byte := if masked then 255 else 127;
    AheadSplit(s, p, [first], BigEndian(n, 8));
    AheadFirst(s, p, [first]);
    EightBytes();
    BigEndianReadsBack(s, p + 1, n, 8);
    AtLong(s, p, first);
  }

  lemma {:induction false} EightBytes()
    ensures Pow256(8) == U64
  {
    assert Pow256(4) == U32;
  }

  lemma {:induction false} AtLong(s: seq<Byte>, p: nat, first: Byte)
    requires p + 9 <= |s| && s[p] == first && first % 128 == 127
    ensures ReadLength(s, p) == Length(BigValue(s, p + 1, 8, 0), p + 9)
  {
  }

  lemma {:induction false} TextFrame(s: seq<Byte>, p: nat, q: nat, n: nat, masked: bool)
    requires p + 2 <= |s| && s[p] == 0x81 && ReadLength(s, p + 1) == Length(n, q) && (s[p + 1] >= 128 <==> masked)
    ensures ReadFrame(s, p) == ReadBody(s, q, n, masked)
  {
  }

  /** Past the header of a text frame only the body is left to read. */
  lemma {:induction false} TextHeader(s: seq<Byte>, p: nat, n: nat, masked: bool)
    requires n < U64 && Ahead(s, p, [0x81] + LenBytes(n, masked))
    ensures
      var q := p + 1 + |LenBytes(n, masked)|;
      q <= |s| && ReadFrame(s, p) == ReadBody(s, q, n, masked)
  {
    AheadSplit(s, p, [0x81], LenBytes(n, masked));
    AheadFirst(s, p, [0x81]);
    LengthReadsBack(s, p + 1, n, masked);
    TextFrame(s, p, p + 1 + |LenBytes(n, masked)|, n, masked);
  }

  /** Wherever the frame's bytes lie, reading there yields the data and ends right after them. */
  ghost predicate ReadsAs(frame: seq<Byte>, data: seq<Byte>) {
    forall s: seq<Byte>, p: nat {:trigger Ahead(s, p, frame)} | p <= |s| && Ahead(s, p, frame) ::
      ReadFrame(s, p) == Payload(data, p + |frame|)
  }

  /** A header that leaves an unmasked body to be read. */
  lemma {:induction false} PlainBody(s: seq<Byte>, p: nat, header: seq<Byte>, data: seq<Byte>)
    requires |data| <= MAX_PAYLOAD && Ahead(s, p, header + data)
    ensures ReadBody(s, p + |header|, |data|, false) == Payload(data, p + |header + data|)
  {
    AheadSplit(s, p, header, data);
    AheadSlice(s, p + |header|, data);
  }

  lemma {:induction false} KeyedBody(s: seq<Byte>, q: nat, key: seq<Byte>, body: seq<Byte>, data: seq<Byte>)
    requires |body| <= MAX_PAYLOAD && |key| == 4 && Ahead(s, q, key) && Ahead(s, q + 4, body) && Masked(body, key, 0) == data
    ensures ReadBody(s, q, |body|, true) == Payload(data, q + 4 + |body|)
  {
    AheadSlice(s, q, key);
    AheadSlice(s, q + 4, body);
    KeyedPayload(s, q + 4, body, key);
  }

  lemma {:induction false} KeyedPayload(s: seq<Byte>, p: nat, body: seq<Byte>, key: seq<Byte>)
    requires |body| <= MAX_PAYLOAD && |key| == 4 && p + |body| <= |s| && s[p..p + |body|] == body
    ensures ReadPayload(s, p, |body|, Some(key)) == Payload(Masked(body, key, 0), p + |body|)
  {
  }

  lemma {:induction false} MaskedBody(s: seq<Byte>, p: nat, header: seq<Byte>, key: seq<Byte>, body: seq<Byte>, data: seq<Byte>)
    requires |body| <= MAX_PAYLOAD && |key| == 4 && Ahead(s, p, header + (key + body)) && Masked(body, key, 0) == data
    ensures ReadBody(s, p + |header|, |body|, true) == Payload(data, p + |header| + 4 + |body|)
  {
    var q := p + |header|;
    SplitKey(s, p, header, key, body);
    KeyedBody(s, q, key, body, data);
  }

  lemma {:induction false} SplitKey(s: seq<Byte>, p: nat, header: seq<Byte>, key: seq<Byte>, body: seq<Byte>)
    requires |key| == 4 && Ahead(s, p, header + (key + body))
    ensures Ahead(s, p + |header|, key) && Ahead(s, p + |header| + 4, body)
  {
    AheadSplit(s, p, header, key + body);
    AheadSplit(s, p + |header|, key, body);
  }

  /** What the server writes, its own reader reads, and nothing more: exactly the payloads up to the limit, though
      longer ones are written, too. */
  lemma {:induction false} WrittenFrameReadsBack(data: seq<Byte>)
    requires |data| < U64
    ensures ReadsAs(WriteFrame(data), data) <==> |data| <= MAX_PAYLOAD
  {
    var header := [0x81] + LenBytes(|data|, false);
    if |data| <= MAX_PAYLOAD {
      forall s: seq<Byte>, p: nat | p <= |s| && Ahead(s, p, header + data)
        ensures ReadFrame(s, p) == Payload(data, p + |header + data|)
      {
        PlainBody(s, p, header, data);
        AheadSplit(s, p, header, data);
        TextHeader(s, p, |data|, false);
      }
    } else {
      AheadSelf(header + data);
      AheadSplit(header + data, 0, header, data);
      TextHeader(header + data, 0, |data|, false);
      assert ReadFrame(header + data, 0) == Failed;
    }
  }

  lemma {:induction false} ClientFrameAt(s: seq<Byte>, p: nat, header: seq<Byte>, key: seq<Byte>, masked: seq<Byte>, data: seq<Byte>)
    requires |data| == |masked| <= MAX_PAYLOAD && |key| == 4 && Masked(masked, key, 0) == data
    requires header == [0x81] + LenBytes(|data|, true) && p <= |s| && Ahead(s, p, header + (key + masked))
    ensures ReadFrame(s, p) == Payload(data, p + |header| + 4 + |data|)
  {
    MaskedBody(s, p, header, key, masked, data);
    AheadSplit(s, p, header, key + masked);
    TextHeader(s, p, |data|, true);
  }

  /** A masked text frame comes out unmasked. */
  lemma {:induction false} ClientFrameReadsBack(data: seq<Byte>, key: seq<Byte>)
    requires |data| <= MAX_PAYLOAD && |key| == 4
    ensures ReadsAs(ClientFrame(data, key), data)
  {
    var header, masked := [0x81] + LenBytes(|data|, true), Masked(data, key, 0);
    MaskTwice(data, key);
    forall s: seq<Byte>, p: nat | p <= |s| && Ahead(s, p, header + (key + masked))
      ensures ReadFrame(s, p) == Payload(data, p + |header + (key + masked)|)
    {
      ClientFrameAt(s, p, header, key, masked, data);
    }
  }

  function Concat(frames: seq<seq<Byte>>): seq<Byte> {
    if frames == [] then [] else frames[0] + Concat(frames[1..])
  }

  datatype AllRead = AllRead(payloads: seq<seq<Byte>>, at: nat) | Stopped

  /** The reader at any place of a stream. */
  type Reader = nat -> Read

  function ReaderOf(s: seq<Byte>): Reader {
    (p: nat) => if p <= |s| then ReadFrame(s, p) else Failed
  }

  /** n frames, each read where the one before it ends. */
  function ReadMany(read: Reader, p: nat, n: nat): AllRead
    decreases n
  {
    if n == 0 then AllRead([], p)
    else
      match read(p)
      case Payload(data, at) =>
        (match ReadMany(read, at, n - 1)
         case AllRead(rest, end) => AllRead([data] + rest, end)
         case Stopped => Stopped)
      case _ => Stopped
  }

  function ReadFrames(s: seq<Byte>, p: nat, n: nat): AllRead {
    ReadMany(ReaderOf(s), p, n)
  }

  ghost predicate AllReadAs(frames: seq<seq<Byte>>, payloads: seq<seq<Byte>>)
    requires |frames| == |payloads|
  {
    forall i {:trigger ReadsAs(frames[i], payloads[i])} | 0 <= i < |frames| :: ReadsAs(frames[i], payloads[i])
  }

  ghost predicate ReadHere(read: Reader, s: seq<Byte>, frame: seq<Byte>, data: seq<Byte>, p: nat) {
    p <= |s| && Ahead(s, p, frame) ==> read(p) == Payload(data, p + |frame|)
  }

  ghost predicate AllReadHere(read: Reader, s: seq<Byte>, frames: seq<seq<Byte>>, payloads: seq<seq<Byte>>)
    requires |frames| == |payloads|
  {
    forall i, p {:trigger ReadHere(read, s, frames[i], payloads[i], p)} | 0 <= i < |frames| ::
      ReadHere(read, s, frames[i], payloads[i], p)
  }

  /** From the i-th frame on. */
  lemma {:induction false} ManyReadBack(read: Reader, s: seq<Byte>, p: nat, frames: seq<seq<Byte>>, payloads: seq<seq<Byte>>, i: nat)
    requires i <= |frames| == |payloads| && AllReadHere(read, s, frames, payloads) && p <= |s| && Ahead(s, p, Concat(frames[i..]))
    ensures ReadMany(read, p, |payloads| - i) == AllRead(payloads[i..], p + |Concat(frames[i..])|)
    decreases |frames| - i
  {
    if i < |frames| {
      assert frames[i..][0] == frames[i] && frames[i..][1..] == frames[i + 1..];
      FirstAhead(s, p, frames[i..]);
      assert ReadHere(read, s, frames[i], payloads[i], p);
      ManyReadBack(read, s, p + |frames[i]|, frames, payloads, i + 1);
      assert [payloads[i]] + payloads[i + 1..] == payloads[i..];
    }
  }

  lemma {:induction false} FramesReadBack(s: seq<Byte>, p: nat, frames: seq<seq<Byte>>, payloads: seq<seq<Byte>>)
    requires |frames| == |payloads| && AllReadAs(frames, payloads) && p <= |s| && Ahead(s, p, Concat(frames))
    ensures ReadFrames(s, p, |payloads|) == AllRead(payloads, p + |Concat(frames)|)
  {
    forall i, q | 0 <= i < |frames|
      ensures ReadHere(ReaderOf(s), s, frames[i], payloads[i], q)
    {
      assert ReadsAs(frames[i], payloads[i]);
    }
    assert frames[0..] == frames && payloads[0..] == payloads;
    ManyReadBack(ReaderOf(s), s, p, frames, payloads, 0);
  }

  lemma {:induction false} FirstAhead(s: seq<Byte>, p: nat, frames: seq<seq<Byte>>)
    requires frames != [] && Ahead(s, p, Concat(frames))
    ensures
      var rest := Concat(frames[1..]);
      Ahead(s, p, frames[0]) && Ahead(s, p + |frames[0]|, rest) && |Concat(frames)| == |frames[0]| + |rest|
  {
    AheadSplit(s, p, frames[0], Concat(frames[1..]));
  }

  function WriteAll(payloads: seq<seq<Byte>>): (r: seq<seq<Byte>>)
    requires forall i | 0 <= i < |payloads| :: |payloads[i]| <= MAX_PAYLOAD
    ensures |r| == |payloads| && forall i | 0 <= i < |r| :: r[i] == WriteFrame(payloads[i])
  {
    if payloads == [] then [] else [WriteFrame(payloads[0])] + WriteAll(payloads[1..])
  }

  lemma {:induction false} AllWritten(payloads: seq<seq<Byte>>)
    requires forall i | 0 <= i < |payloads| :: |payloads[i]| <= MAX_PAYLOAD
    ensures AllReadAs(WriteAll(payloads), payloads)
  {
    if payloads != [] {
      WrittenFrameReadsBack(payloads[0]);
      AllWritten(payloads[1..]);
      assert WriteAll(payloads)[1..] == WriteAll(payloads[1..]);
    }
  }

  /** Any list of payloads: written one after the other, read one after the other, every byte used. */
  lemma {:induction false} StreamRoundTrip(payloads: seq<seq<Byte>>)
    requires forall i | 0 <= i < |payloads| :: |payloads[i]| <= MAX_PAYLOAD
    ensures
      var stream := Concat(WriteAll(payloads));
      ReadFrames(stream, 0, |payloads|) == AllRead(payloads, |stream|)
  {
    var frames := WriteAll(payloads);
    AllWritten(payloads);
    AheadSelf(Concat(frames));
    FramesReadBack(Concat(frames), 0, frames, payloads);
  }

  // ---------- Pings ----------

  /** What follows the header of a ping: the payload, with a client's key before it. */
  function PingBody(data: seq<Byte>, key: Option<seq<Byte>>): seq<Byte>
    requires key.Some? ==> |key.value| == 4
  {
    if key.Some? then key.value + Masked(data, key.value, 0) else data
  }

  function PingHeader(n: nat, masked: bool): seq<Byte>
    requires n < U64
  {
    [0x89] + LenBytes(n, masked)
  }

  function PingFrame(data: seq<Byte>, key: Option<seq<Byte>>): seq<Byte>
    requires |data| < U64 && (key.Some? ==> |key.value| == 4)
  {
    PingHeader(|data|, key.Some?) + PingBody(data, key)
  }

  /** Wherever these bytes lie, a reader that stands before them reads the frame behind them. */
  ghost predicate Skipped(x: seq<Byte>) {
    forall s: seq<Byte>, p: nat | p <= |s| && Ahead(s, p, x) :: ReadFrame(s, p) == ReadFrame(s, p + |x|)
  }

  /** From i on, nothing but complete headers of pings. */
  predicate PingHeaders(x: seq<Byte>, i: nat)
    requires i <= |x|
    decreases |x| - i
  {
    i == |x|
    || (i + 2 <= |x| && x[i] % 16 == 9 && ReadLength(x, i + 1).Length? && PingHeaders(x, ReadLength(x, i + 1).at))
  }

  lemma {:induction false} SameBigValue(s: seq<Byte>, p: nat, x: seq<Byte>, j: nat, n: nat, acc: nat)
    requires Ahead(s, p, x) && j + n <= |x|
    ensures BigValue(s, p + j, n, acc) == BigValue(x, j, n, acc)
    decreases n
  {
    if n > 0 {
      assert s[p + j] == x[j];
      SameBigValue(s, p, x, j + 1, n - 1, acc * 256 + x[j]);
    }
  }

  lemma {:induction false} SameLength(s: seq<Byte>, p: nat, x: seq<Byte>, j: nat)
    requires Ahead(s, p, x) && j < |x| && ReadLength(x, j).Length?
    ensures ReadLength(s, p + j) == Length(ReadLength(x, j).len, p + ReadLength(x, j).at)
  {
    assert s[p + j] == x[j];
    if x[j] % 128 == 126 {
      assert s[p + (j + 1)] == x[j + 1] && s[p + (j + 2)] == x[j + 2];
    } else if x[j] % 128 == 127 {
      SameBigValue(s, p, x, j + 1, 8, 0);
    }
  }

  lemma {:induction false} HeadersAreSkipped(s: seq<Byte>, p: nat, x: seq<Byte>, i: nat)
    requires Ahead(s, p, x) && i <= |x| && PingHeaders(x, i)
    ensures ReadFrame(s, p + i) == ReadFrame(s, p + |x|)
    decreases |x| - i
  {
    if i < |x| {
      assert s[p + i] == x[i];
      SameLength(s, p, x, i + 1);
      HeadersAreSkipped(s, p, x, ReadLength(x, i + 1).at);
    }
  }

  /** Bytes that are not all headers of pings are read as a frame, or as the start of one: one of two following frames
      is missed. */
  lemma {:induction false} OthersAreRead(x: seq<Byte>, i: nat, s: seq<Byte>, t: seq<Byte>)
    requires i <= |x| && !PingHeaders(x, i) && s == x + [0x88, 0x00] && t == x + [0x81, 0x00]
    ensures ReadFrame(s, i) != CloseFrame || ReadFrame(t, i) != Payload([], |x| + 2)
    decreases |x| - i
  {
    assert s[i] == x[i] == t[i];
    if i + 1 < |x| && x[i] % 16 == 9 && ReadLength(x, i + 1).Length? {
      assert Ahead(s, 0, x) && Ahead(t, 0, x);
      SameLength(s, 0, x, i + 1);
      SameLength(t, 0, x, i + 1);
      OthersAreRead(x, ReadLength(x, i + 1).at, s, t);
    } else if x[i] % 16 == 9 {
      HeaderRunsOver(x, i, s);
    }
  }

  /** The header of a ping that ends in the two bytes behind x leaves less than a header there. */
  lemma {:induction false} HeaderRunsOver(x: seq<Byte>, i: nat, s: seq<Byte>)
    requires i < |x| && |s| == |x| + 2 && s[..|x|] == x && x[i] % 16 == 9
    requires i + 1 < |x| ==> ReadLength(x, i + 1).Short?
    ensures ReadFrame(s, i) == Failed
  {
    assert s[i] == s[..|x|][i];
    var l := ReadLength(s, i + 1);
    if i + 1 < |x| {
      assert s[i + 1] == s[..|x|][i + 1];
    }
    assert l.Length? ==> l.at + 2 > |s|;
  }

  lemma {:induction false} SkippedExactly(x: seq<Byte>)
    ensures Skipped(x) <==> PingHeaders(x, 0)
  {
    if PingHeaders(x, 0) {
      forall s: seq<Byte>, p: nat | p <= |s| && Ahead(s, p, x)
        ensures ReadFrame(s, p) == ReadFrame(s, p + |x|)
      {
        HeadersAreSkipped(s, p, x, 0);
      }
    } else {
      var s, t := x + [0x88, 0x00], x + [0x81, 0x00];
      OthersAreRead(x, 0, s, t);
      assert Ahead(s, 0, x) && Ahead(t, 0, x);
      assert s[|x|] == 0x88 && s[|x| + 1] == 0 && t[|x|] == 0x81 && t[|x| + 1] == 0;
      assert ReadFrame(s, |x|) == CloseFrame && ReadFrame(t, |x|) == Payload([], |x| + 2);
      assert !(ReadFrame(s, 0) == ReadFrame(s, 0 + |x|) && ReadFrame(t, 0) == ReadFrame(t, 0 + |x|));
    }
  }

  /** Something in front moves the headers and changes nothing else. */
  lemma {:induction false} HeadersMove(front: seq<Byte>, x: seq<Byte>, i: nat)
    requires i <= |x|
    ensures PingHeaders(front + x, |front| + i) <==> PingHeaders(x, i)
    decreases |x| - i
  {
    var s, p := front + x, |front|;
    assert Ahead(s, p, x);
    if i + 2 <= |x| {
      assert s[p + i] == x[i] && s[p + (i + 1)] == x[i + 1];
      if ReadLength(x, i + 1).Length? {
        SameLength(s, p, x, i + 1);
        HeadersMove(front, x, ReadLength(x, i + 1).at);
      }
    }
  }

  lemma {:induction false} OwnHeader(n: nat, masked: bool, body: seq<Byte>)
    requires n < U64
    ensures var header := PingHeader(n, masked);
            PingHeaders(header + body, 0) <==> PingHeaders(header + body, |header|)
  {
    var header, s := PingHeader(n, masked), PingHeader(n, masked) + body;
    assert Ahead(s, 0, header);
    AheadSplit(s, 0, [0x89], LenBytes(n, masked));
    AheadFirst(s, 0, [0x89]);
    LengthReadsBack(s, 1, n, masked);
  }

  /** A ping is passed over whole, whatever comes behind it, if and only if its key and payload happen to be headers of
      pings themselves. */
  lemma {:induction false} PingIsSkippedExactly(data: seq<Byte>, key: Option<seq<Byte>>)
    requires |data| < U64 && (key.Some? ==> |key.value| == 4)
    ensures Skipped(PingFrame(data, key)) <==> PingHeaders(PingBody(data, key), 0)
  {
    var header, body := PingHeader(|data|, key.Some?), PingBody(data, key);
    SkippedExactly(header + body);
    OwnHeader(|data|, key.Some?, body);
    HeadersMove(header, body, 0);
  }

  /** Without a key and a payload there is nothing to trip over. */
  lemma {:induction false} EmptyPingIsSkipped()
    ensures Skipped(PingFrame([], None))
  {
    PingIsSkippedExactly([], None);
  }

  /** A client has to send a key: its empty ping is passed over if and only if the key is made of one or two headers of
      pings. */
  lemma {:induction false} ClientPingIsSkipped(key: seq<Byte>)
    requires |key| == 4
    ensures Skipped(PingFrame([], Some(key)))
            <==> key[0] % 16 == 9
                 && (key[1] % 128 == 126 || (key[1] % 128 < 126 && key[2] % 16 == 9 && key[3] % 128 < 126))
  {
    PingIsSkippedExactly([], Some(key));
    assert key + Masked([], key, 0) == key;
    assert PingHeaders(key, 4);
    assert !PingHeaders(key, 3);
  }

  /** A client's empty ping with this key ends the connection. */
  lemma {:induction false} ClientPingIsMisread(next: seq<Byte>)
    ensures ReadFrame(PingFrame([], Some([0x88, 0x00, 0x00, 0x00])) + next, 0) == CloseFrame
  {
    var key: seq<Byte> := [0x88, 0x00, 0x00, 0x00];
    assert PingBody([], Some(key)) == key + Masked([], key, 0) == key;
    assert LenBytes(0, true) == [128];
    assert PingHeader(0, true) == [0x89, 128];
    var s := PingFrame([], Some(key)) + next;
    assert s[0] == 0x89 && s[1] == 128 && s[2] == 0x88 && s[3] == 0;
    assert ReadFrame(s, 0) == ReadFrame(s, 2);
  }

  /** So does a ping whose payload is the two bytes of a close frame. */
  lemma {:induction false} PingPayloadIsRead(next: seq<Byte>)
    ensures ReadFrame(PingFrame([0x88, 0x00], None) + next, 0) == CloseFrame
  {
    assert LenBytes(2, false) == [2];
    assert PingHeader(2, false) == [0x89, 2];
    var s := PingFrame([0x88, 0x00], None) + next;
    assert s[0] == 0x89 && s[1] == 2 && s[2] == 0x88 && s[3] == 0;
    assert ReadFrame(s, 0) == ReadFrame(s, 2);
  }

  /** A payload that is a ping's header is passed over as well. */
  lemma {:induction false} PingInPing()
    ensures Skipped(PingFrame([0x89, 0x00], None))
  {
    PingIsSkippedExactly([0x89, 0x00], None);
    assert PingHeaders([0x89, 0x00], 2);
  }

  // ---------- The connection ----------

  class Connection {
    const input: seq<Byte>
    var pos: nat
    var sent: seq<Byte>

    ghost predicate Valid()
      reads this
    {
      pos <= |input|
    }

    constructor (input: seq<Byte>)
      ensures Valid() && this.input == input && pos == 0 && sent == []
    {
      this.input := input;
      pos, sent := 0, [];
    }

    /** None: the peer closed first. */
    method Recv(n: nat) returns (b: Option<seq<Byte>>)
      requires Valid()
      modifies this`pos
      ensures Valid() && (b.Some? <==> old(pos) + n <= |input|)
      ensures b.Some? ==> pos == old(pos) + n && b.value == input[old(pos)..pos]
    {
      if pos + n > |input| {
        pos := |input|;
        return None;
      }
      b := Some(input[pos..pos + n]);
      pos := pos + n;
    }

    method ReadLengthField(first: Byte) returns (len: Option<nat>)
      requires Valid() && pos > 0 && input[pos - 1] == first
      modifies this`pos
      ensures Valid()
      ensures
        var l := ReadLength(input, old(pos) - 1);
        if l.Length? then len == Some(l.len) && pos == l.at else len == None
    {
      ghost var p := pos;
      len := Some(first % 128);
      if first % 128 == 126 {
        var ext := Recv(2);
        if ext.None? {
          return None;
        }
        len := Some(ext.value[0] as int * 256 + ext.value[1] as int);
      } else if first % 128 == 127 {
        var ext := Recv(8);
        if ext.None? {
          return None;
        }
        var n := BigNumber(ext.value, p);
        len := Some(n);
        AtLong(input, p - 1, first);
      }
    }

    method BigNumber(ext: seq<Byte>, ghost p: nat) returns (n: nat)
      requires |ext| == 8 && p + 8 <= |input| && ext == input[p..p + 8]
      ensures n == BigValue(input, p, 8, 0)
    {
      n := 0;
      for i := 0 to 8
        invariant BigValue(input, p, 8, 0) == BigValue(input, p + i, 8 - i, n)
      {
        assert ext[i] == input[p + i];
        n := n * 256 + ext[i] as int;
      }
    }

    /** The reader. A ping is answered and the next frame read. */
    method ReadOne() returns (payload: Option<array<Byte>>, isClose: bool)
      requires Valid()
      modifies this
      ensures Valid() && sent == old(sent) + Pongs(input, old(pos))
      ensures payload.Some? <==> ReadFrame(input, old(pos)).Payload?
      ensures payload.Some? ==>
                var r := ReadFrame(input, old(pos));
                fresh(payload.value) && payload.value[..] == r.data && pos == r.at
      ensures isClose <==> ReadFrame(input, old(pos)).CloseFrame?
      decreases |input| - pos
    {
      payload, isClose := None, false;
      var hdr := Recv(2);
      if hdr.None? {
        return;
      }
      var op, masked := hdr.value[0] % 16, hdr.value[1] >= 128;
      var len := ReadLengthField(hdr.value[1]);
      if len.None? {
        return;
      }
      if op == 8 {
        isClose := true;
        return;
      }
      if op == 9 {
        ghost var p, was := pos, sent;
        sent := sent + [0x8A, 0x00];
        payload, isClose := ReadOne();
        Assoc(was, [0x8A, 0x00], Pongs(input, p));
        return;
      }
      payload := ReadRest(len.value, masked);
    }

    method ReadRest(len: nat, masked: bool) returns (payload: Option<array<Byte>>)
      requires Valid()
      modifies this`pos
      ensures Valid()
      ensures payload.Some? <==> ReadBody(input, old(pos), len, masked).Payload?
      ensures payload.Some? ==>
                var r := ReadBody(input, old(pos), len, masked);
                fresh(payload.value) && payload.value[..] == r.data && pos == r.at
    {
      var key: seq<Byte> := [0, 0, 0, 0];
      if masked {
        var k := Recv(4);
        if k.None? {
          return None;
        }
        key := k.value;
      }
      if len > MAX_PAYLOAD {
        return None;
      }
      var data := Recv(len);
      if data.None? {
        return None;
      }
      var buf := Unmask(data.value, masked, key);
      payload := Some(buf);
    }
  }

  /** In place, byte by byte. */
  method Unmask(data: seq<Byte>, masked: bool, key: seq<Byte>) returns (buf: array<Byte>)
    requires |key| == 4
    ensures fresh(buf) && buf[..] == if masked then Masked(data, key, 0) else data
  {
    buf := new Byte[|data|](i requires 0 <= i < |data| => data[i]);
    if masked {
      for i := 0 to |data|
        invariant forall k | 0 <= k < i :: buf[k] == Xor(data[k], key[k % 4])
        invariant forall k | i <= k < |data| :: buf[k] == data[k]
      {
        buf[i] := Xor(buf[i], key[i % 4]);
      }
      IsMasked(data, key, buf[..]);
    }
  }

  /** `v >> (8 * k)` */
  function Shift(v: nat, k: nat): nat
    decreases k
  {
    if k == 0 then v else Shift(v / 256, k - 1)
  }

  lemma {:induction false} BigEndianAt(v: nat, n: nat, i: nat)
    requires i < n
    ensures BigEndian(v, n)[i] == Shift(v, n - 1 - i) % 256
    decreases n
  {
    if i < n - 1 {
      BigEndianAt(v / 256, n - 1, i);
    }
  }

  /** The header is filled step by step, then sent together with the data. */
  method SendFrame(data: seq<Byte>) returns (bytes: seq<Byte>)
    requires |data| < U64
    ensures bytes == WriteFrame(data)
  {
    var hdr := new Byte[10];
    hdr[0] := 0x81;
    var len, n := |data|, 1;
    if len < 126 {
      hdr[1] := len;
      n := 2;
    } else if len < 65536 {
      hdr[1], hdr[2], hdr[3] := 126, len / 256, len % 256;
      n := 4;
    } else {
      hdr[1] := 127;
      n := 2;
      for i := 0 to 8
        invariant n == 2 + i && hdr[..n] == [0x81, 127] + BigEndian(len, 8)[..i]
      {
        BigEndianAt(len, 8, i);
        hdr[n] := Shift(len, 7 - i) % 256;
        n := n + 1;
      }
    }
    bytes := hdr[..n] + data;
  }
}
