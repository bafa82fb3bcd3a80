/**
 * The HTTP stream event handler of the audio upload path
 * (`_http_stream_event_handle` in components/audio_manage/common/esp_gmf_setup_pool.c).
 *
 * The handler frames each audio buffer with the chunked transfer coding of
 * section 7.1 of RFC 9112 (hex size, CRLF, data, CRLF), closes the body with the
 * last-chunk `0 CRLF CRLF`, picks the Content-Type, and keeps a static byte
 * counter `total_write` across calls.  The HTTP client is modelled by the calls
 * made to it: every `esp_http_client_write` is recorded with the result the
 * client returned (a parameter of the model, so any failure can happen), and the
 * bytes the client accepted are those of the writes that returned a positive
 * count.  A small chunk decoder is the partner of the framing: decoding what a
 * successful upload wrote gives back the buffers, concatenated in order.
 */
module HttpChunked {
  import opened EspCommon

  /** Largest value of the C `int` that carries `buffer_len`. */
  const INT_MAX: int := 0x7fff_ffff

  /** Size of `len_buf`, which receives `"%x\r\n"` and its NUL. */
  const LEN_BUF_SIZE: nat := 16

  /** Size of `dat`, which receives the decimal header values through `snprintf`. */
  const DAT_SIZE: nat := 10

  /** Default audio parameters announced in the request headers. */
  const SETUP_AUDIO_SAMPLE_RATE: nat := 16000
  const SETUP_AUDIO_BITS: nat := 16
  const SETUP_AUDIO_CHANNELS: nat := 1

  /** The `header_type` table of Content-Type values. */
  const HeaderType: seq<string> := ["audio/aac", "audio/opus", "audio/wav"]

  /** The 64-byte response buffer of FINISH_REQUEST. */
  const FINISH_BUF_SIZE: nat := 64
  /** What the source asks the client to read into that buffer. */
  const FINISH_READ_AS_WRITTEN: nat := 64
  /** What it can ask for and still store the NUL terminator inside the buffer. */
  const FINISH_READ_MAX: nat := 63

  const CR: byte := 13
  const LF: byte := 10
  const CRLF: seq<byte> := [CR, LF]

  /** The last-chunk and the empty trailer section: `0 CRLF CRLF`. */
  const LastChunk: seq<byte> := [48, CR, LF, CR, LF]

  // ---------------------------------------------------------------------------
  // Numerals

  predicate IsHexDigit(c: byte) {
    48 <= c <= 57 || 97 <= c <= 102 || 65 <= c <= 70
  }

  predicate IsLowerHexDigit(c: byte) {
    48 <= c <= 57 || 97 <= c <= 102
  }

  /** The value of a hex digit (and 0 for any other byte). */
  function DigitValue(c: byte): (v: nat)
    ensures v < 16
  {
    if 48 <= c <= 57 then c as int - 48
    else if 97 <= c <= 102 then c as int - 87
    else if 65 <= c <= 70 then c as int - 55
    else 0
  }

  /** One lower-case hexadecimal digit, as `printf`'s `%x` writes it. */
  function HexDigit(d: nat): (c: byte)
    requires d < 16
    ensures IsLowerHexDigit(c) && IsHexDigit(c) && DigitValue(c) == d
  {
    if d < 10 then (48 + d) as byte else (87 + d) as byte
  }

  /** `sprintf("%x", n)`: lower-case hexadecimal without leading zeros. */
  function Hex(n: nat): (s: seq<byte>)
    ensures 1 <= |s|
    decreases n
  {
    if n < 16 then [HexDigit(n)] else Hex(n / 16) + [HexDigit(n % 16)]
  }

  lemma {:induction false} HexIsLowerCase(n: nat)
    ensures forall i :: 0 <= i < |Hex(n)| ==> IsLowerHexDigit(Hex(n)[i]) && IsHexDigit(Hex(n)[i])
    decreases n
  {
    if n >= 16 {
      HexIsLowerCase(n / 16);
    }
  }

  /** The value of a numeral read most significant digit first, each digit
      shifting `acc` one hex place up. */
  function HexValue(acc: nat, s: seq<byte>): nat
    decreases |s|
  {
    if s == [] then acc else HexValue(16 * acc + DigitValue(s[0]), s[1..])
  }

  lemma {:induction false} HexValueSnoc(acc: nat, s: seq<byte>, c: byte)
    ensures HexValue(acc, s + [c]) == 16 * HexValue(acc, s) + DigitValue(c)
    decreases |s|
  {
    if s == [] {
      assert (s + [c])[1..] == [];
    } else {
      assert (s + [c])[1..] == s[1..] + [c];
      HexValueSnoc(16 * acc + DigitValue(s[0]), s[1..], c);
    }
  }

  function Pow16(k: nat): (p: nat)
    ensures p >= 1
  {
    if k == 0 then 1 else 16 * Pow16(k - 1)
  }

  lemma {:induction false} HexValueOfHex(n: nat)
    ensures HexValue(0, Hex(n)) == n
    decreases n
  {
    if n >= 16 {
      HexValueOfHex(n / 16);
      HexValueSnoc(0, Hex(n / 16), HexDigit(n % 16));
    }
  }

  lemma {:induction false} HexLength(n: nat, k: nat)
    requires 1 <= k && n < Pow16(k)
    ensures |Hex(n)| <= k
    decreases k
  {
    if n >= 16 {
      HexLength(n / 16, k - 1);
    }
  }

  /** Any non-negative `int` prints in at most eight hex digits, so `"%x\r\n"`
      and its NUL always fit `len_buf[16]`. */
  lemma HexFitsLenBuf(n: nat)
    requires n <= INT_MAX
    ensures |Hex(n)| + |CRLF| + 1 <= LEN_BUF_SIZE
  {
    assert Pow16(8) == 0x1_0000_0000 by {
      assert Pow16(4) == 0x1_0000;
    }
    HexLength(n, 8);
  }

  lemma Assoc(a: seq<byte>, b: seq<byte>, c: seq<byte>)
    ensures a + b + c == a + (b + c)
  {
  }

  // Decimal numerals for the `x-audio-*` headers.

  function Decimal(n: nat): (s: string)
    ensures 1 <= |s|
    ensures forall i :: 0 <= i < |s| ==> '0' <= s[i] <= '9'
    decreases n
  {
    if n < 10 then [('0' as int + n) as char] else Decimal(n / 10) + [('0' as int + n % 10) as char]
  }

  function Pow10(k: nat): (p: nat)
    ensures p >= 1
  {
    if k == 0 then 1 else 10 * Pow10(k - 1)
  }

  lemma {:induction false} DecimalLength(n: nat, k: nat)
    requires 1 <= k && n < Pow10(k)
    ensures |Decimal(n)| <= k
    decreases k
  {
    if n >= 10 {
      DecimalLength(n / 10, k - 1);
    }
  }

  /** `snprintf(dat, size, "%d", n)`: the numeral, cut to `size - 1` characters. */
  function SnprintfDecimal(n: nat, size: nat): (s: string)
    requires size >= 1
    ensures |s| <= size - 1
    ensures s <= Decimal(n)
  {
    var d := Decimal(n);
    if |d| <= size - 1 then d else d[..size - 1]
  }

  /** Every value below 10^9 prints into `dat[10]` without truncation. */
  lemma DecimalFitsDat(n: nat)
    requires n < 1_000_000_000
    ensures SnprintfDecimal(n, DAT_SIZE) == Decimal(n)
  {
    assert Pow10(9) == 1_000_000_000 by {
      assert Pow10(3) == 1000;
    }
    DecimalLength(n, 9);
  }

  // ---------------------------------------------------------------------------
  // Chunked framing and its decoder

  /** One chunk: size line, data, CRLF. */
  function ChunkFrame(data: seq<byte>): seq<byte> {
    Hex(|data|) + CRLF + data + CRLF
  }

  function Frames(bufs: seq<seq<byte>>): seq<byte> {
    if bufs == [] then [] else ChunkFrame(bufs[0]) + Frames(bufs[1..])
  }

  function Flatten(bufs: seq<seq<byte>>): seq<byte> {
    if bufs == [] then [] else bufs[0] + Flatten(bufs[1..])
  }

  predicate AllNonEmpty(bufs: seq<seq<byte>>) {
    forall i :: 0 <= i < |bufs| ==> |bufs[i]| > 0
  }

  /** A decoded body and the number of input bytes it took, last-chunk included. */
  datatype Decoded = Decoded(body: seq<byte>, used: nat)

  /** Decoder for the chunked coding, without chunk extensions or trailer fields,
      written as the receiver's state machine: `DecodeChunked` starts a chunk,
      `SizeDigits` reads the hex digits of its size line up to the CRLF, and
      `ChunkData` takes the data and the CRLF after it.  It stops at the first
      chunk whose size is zero. */
  function DecodeChunked(s: seq<byte>): (r: Option<Decoded>)
    ensures r.Some? ==> r.value.used <= |s|
    decreases |s|, 2, 0
  {
    SizeDigits(s, 0, 0)
  }

  /** Reads the size line from position `i` on, `size` being the value of the digits before it. */
  function SizeDigits(s: seq<byte>, i: nat, size: nat): (r: Option<Decoded>)
    requires i <= |s|
    ensures r.Some? ==> r.value.used <= |s|
    decreases |s|, 1, |s| - i
  {
    if i < |s| && IsHexDigit(s[i]) then SizeDigits(s, i + 1, 16 * size + DigitValue(s[i]))
    else if i == 0 || |s| < i + 2 || s[i] != CR || s[i + 1] != LF then None
    else ChunkData(s, i + 2, size)
  }

  /** Reads `size` bytes of data from position `h` on, the CRLF after them, and what follows. */
  function ChunkData(s: seq<byte>, h: nat, size: nat): (r: Option<Decoded>)
    requires 0 < h <= |s|
    ensures r.Some? ==> r.value.used <= |s|
    decreases |s|, 0, 0
  {
    var rest := s[h..];
    if size == 0 then
      if |rest| >= 2 && rest[0] == CR && rest[1] == LF then Some(Decoded([], h + 2)) else None
    else if |rest| < size + 2 || rest[size] != CR || rest[size + 1] != LF then None
    else
      match DecodeChunked(rest[size + 2..])
      case None => None
      case Some(d) => Some(Decoded(rest[..size] + d.body, h + size + 2 + d.used))
  }

  /** The digit scan reads a run of hex digits up to its CRLF and goes on to the data. */
  lemma {:induction false} SizeDigitsRun(s: seq<byte>, i: nat, j: nat, size: nat)
    requires 0 < j && i <= j && j + 2 <= |s|
    requires forall k :: i <= k < j ==> IsHexDigit(s[k])
    requires s[j] == CR && s[j + 1] == LF
    ensures SizeDigits(s, i, size) == ChunkData(s, j + 2, HexValue(size, s[i..j]))
    decreases j - i
  {
    if i < j {
      assert s[i..j][1..] == s[i + 1..j];
      SizeDigitsRun(s, i + 1, j, 16 * size + DigitValue(s[i]));
    }
  }

  /** The size line the handler writes is read back as the length it was written for. */
  lemma ReadSizeLine(n: nat, rest: seq<byte>)
    ensures var s := Hex(n) + CRLF + rest;
            DecodeChunked(s) == ChunkData(s, |Hex(n)| + 2, n) && s[|Hex(n)| + 2..] == rest
  {
    var s := Hex(n) + CRLF + rest;
    var k := |Hex(n)|;
    HexIsLowerCase(n);
    assert s[..k] == Hex(n);
    forall j | 0 <= j < k ensures IsHexDigit(s[j]) {
      assert s[j] == Hex(n)[j];
    }
    SizeDigitsRun(s, 0, k, 0);
    HexValueOfHex(n);
  }

  /** The zero-length chunk is exactly the last-chunk. */
  lemma EmptyChunkIsLastChunk()
    ensures ChunkFrame([]) == LastChunk
  {
  }

  /** The last-chunk decodes to the empty body, whatever follows it. */
  lemma DecodeLastChunk(tail: seq<byte>)
    ensures DecodeChunked(LastChunk + tail) == Some(Decoded([], |LastChunk|))
  {
    assert LastChunk == Hex(0) + CRLF + CRLF;
    Assoc(Hex(0) + CRLF, CRLF, tail);
    ReadSizeLine(0, CRLF + tail);
  }

  lemma ChunkBodySlices(data: seq<byte>, more: seq<byte>)
    ensures var rest := data + CRLF + more;
            var n := |data|;
            |rest| >= n + 2 && rest[..n] == data && rest[n] == CR && rest[n + 1] == LF && rest[n + 2..] == more
  {
  }

  /** After its size line, a chunk's data and CRLF are taken and decoding goes on after them. */
  lemma ChunkDataStep(s: seq<byte>, h: nat, data: seq<byte>, more: seq<byte>, d: Decoded)
    requires 0 < h <= |s| && |data| > 0 && DecodeChunked(more) == Some(d)
    requires var rest, n := s[h..], |data|;
             |rest| >= n + 2 && rest[..n] == data && rest[n] == CR && rest[n + 1] == LF && rest[n + 2..] == more
    ensures ChunkData(s, h, |data|) == Some(Decoded(data + d.body, h + |data| + 2 + d.used))
  {
  }

  lemma ChunkFrameThen(data: seq<byte>, more: seq<byte>)
    ensures ChunkFrame(data) + more == Hex(|data|) + CRLF + (data + CRLF + more)
  {
    var hex := Hex(|data|);
    Assoc(hex + CRLF + data, CRLF, more);
    Assoc(hex + CRLF, data, CRLF + more);
    Assoc(data, CRLF, more);
  }

  /** One non-empty chunk is read off and decoding continues after it. */
  lemma DecodeOneChunk(data: seq<byte>, more: seq<byte>, moreBody: seq<byte>, moreUsed: nat,
                        s: seq<byte>, body: seq<byte>, used: nat)
    requires |data| > 0 && DecodeChunked(more) == Some(Decoded(moreBody, moreUsed))
    requires s == ChunkFrame(data) + more && body == data + moreBody && used == |ChunkFrame(data)| + moreUsed
    ensures DecodeChunked(s) == Some(Decoded(body, used))
  {
    ChunkFrameThen(data, more);
    ReadSizeLine(|data|, data + CRLF + more);
    ChunkBodySlices(data, more);
    ChunkDataStep(s, |Hex(|data|)| + 2, data, more, Decoded(moreBody, moreUsed));
  }

  lemma FramesCons(bufs: seq<seq<byte>>, tail: seq<byte>)
    requires bufs != []
    ensures Frames(bufs) + LastChunk + tail == ChunkFrame(bufs[0]) + (Frames(bufs[1..]) + LastChunk + tail)
    ensures |Frames(bufs)| == |ChunkFrame(bufs[0])| + |Frames(bufs[1..])|
    ensures Flatten(bufs) == bufs[0] + Flatten(bufs[1..])
  {
  }

  lemma AllNonEmptyTail(bufs: seq<seq<byte>>)
    requires bufs != [] && AllNonEmpty(bufs)
    ensures |bufs[0]| > 0 && AllNonEmpty(bufs[1..])
  {
    forall i | 0 <= i < |bufs| - 1 ensures |bufs[1..][i]| > 0 {
      assert bufs[1..][i] == bufs[i + 1];
    }
  }

  /** Round trip: chunks of non-empty buffers followed by the last-chunk decode to
      the buffers concatenated in order, whatever follows the last-chunk. */
  lemma {:induction false} DecodeFrames(bufs: seq<seq<byte>>, tail: seq<byte>, s: seq<byte>)
    requires AllNonEmpty(bufs) && s == Frames(bufs) + LastChunk + tail
    ensures DecodeChunked(s) == Some(Decoded(Flatten(bufs), |Frames(bufs)| + |LastChunk|))
    decreases |bufs|
  {
    if bufs == [] {
      assert s == LastChunk + tail;
      DecodeLastChunk(tail);
    } else {
      var bs := bufs[1..];
      AllNonEmptyTail(bufs);
      FramesCons(bufs, tail);
      DecodeFrames(bs, tail, Frames(bs) + LastChunk + tail);
      DecodeOneChunk(bufs[0], Frames(bs) + LastChunk + tail, Flatten(bs), |Frames(bs)| + |LastChunk|,
                     s, Flatten(bufs), |Frames(bufs)| + |LastChunk|);
    }
  }

  lemma {:induction false} FramesAppend(a: seq<seq<byte>>, b: seq<seq<byte>>)
    ensures Frames(a + b) == Frames(a) + Frames(b)
    decreases |a|
  {
    if a == [] {
      assert a + b == b;
    } else {
      assert (a + b)[0] == a[0] && (a + b)[1..] == a[1..] + b;
      FramesAppend(a[1..], b);
    }
  }

  lemma {:induction false} FlattenAppend(a: seq<seq<byte>>, b: seq<seq<byte>>)
    ensures Flatten(a + b) == Flatten(a) + Flatten(b)
    decreases |a|
  {
    if a == [] {
      assert a + b == b;
    } else {
      assert (a + b)[0] == a[0] && (a + b)[1..] == a[1..] + b;
      FlattenAppend(a[1..], b);
    }
  }

  lemma FramesOfEmpty()
    ensures Frames([[]]) == LastChunk
  {
    assert Frames([[]]) == ChunkFrame([]) + Frames([]);
    EmptyChunkIsLastChunk();
  }

  lemma FramesWithEmpty(before: seq<seq<byte>>, after: seq<seq<byte>>)
    ensures Frames(before + [[]] + after) == Frames(before) + LastChunk + Frames(after)
  {
    FramesAppend(before + [[]], after);
    FramesAppend(before, [[]]);
    FramesOfEmpty();
  }

  /** With a client that reports a positive count for an empty write (see
      `EmptyBufferWritesLastChunk`), a zero-length buffer handed to ON_REQUEST puts a
      whole last-chunk on the wire early: the receiver's body ends there and every
      later buffer is lost to it. */
  lemma EmptyBufferEndsBody(before: seq<seq<byte>>, after: seq<seq<byte>>, wire: seq<byte>)
    requires AllNonEmpty(before) && AllNonEmpty(after) && after != []
    requires wire == Frames(before + [[]] + after) + LastChunk
    ensures DecodeChunked(wire) == Some(Decoded(Flatten(before), |Frames(before)| + |LastChunk|))
    ensures Flatten(before) != Flatten(before + [[]] + after)
  {
    var fb, fa := Frames(before), Frames(after);
    var tail := fa + LastChunk;
    FramesWithEmpty(before, after);
    Assoc(fb + LastChunk, fa, LastChunk);
    DecodeFrames(before, tail, wire);
    FlattenAppend(before + [[]], after);
    FlattenAppend(before, [[]]);
    assert Flatten([[]]) == [];
    assert |Flatten(after)| > 0 by {
      assert Flatten(after) == after[0] + Flatten(after[1..]);
    }
    assert |Flatten(before + [[]] + after)| == |Flatten(before)| + |Flatten(after)|;
  }

  // ---------------------------------------------------------------------------
  // The handler

  /** The audio type the URI helper reports for the request's format string. */
  datatype AudioType = Aac | Opus | OtherAudio(code: int)

  datatype StreamEvent =
    | PreRequest(fmt: AudioType)
    | OnRequest(buffer: seq<byte>)
    | PostRequest
    | FinishRequest
    | OtherEvent(id: int)

  /** What the client returns for the up-to-three writes one event makes, in order. */
  datatype WriteResults = WriteResults(first: int, second: int, third: int)

  /** What `esp_http_client_read` returns in FINISH_REQUEST, with the bytes it read. */
  datatype ReadResult = ReadResult(len: int, bytes: seq<byte>)

  datatype Header = Header(name: string, value: string)

  /** One `esp_http_client_write` call and the count the client returned. */
  datatype WriteCall = WriteCall(data: seq<byte>, result: int)

  /** The bytes the client accepted: those of the writes that returned a positive count. */
  function Accepted(ws: seq<WriteCall>): seq<byte> {
    if ws == [] then [] else (if ws[0].result > 0 then ws[0].data else []) + Accepted(ws[1..])
  }

  lemma {:induction false} AcceptedAppend(a: seq<WriteCall>, b: seq<WriteCall>)
    ensures Accepted(a + b) == Accepted(a) + Accepted(b)
    decreases |a|
  {
    if a == [] {
      assert a + b == b;
    } else {
      assert (a + b)[0] == a[0] && (a + b)[1..] == a[1..] + b;
      AcceptedAppend(a[1..], b);
    }
  }

  lemma AcceptedOne(c: WriteCall)
    ensures Accepted([c]) == if c.result > 0 then c.data else []
  {
  }

  function ContentType(fmt: AudioType): (t: string)
    ensures t in HeaderType
    ensures t == "audio/aac" <==> fmt.Aac?
    ensures t == "audio/opus" <==> fmt.Opus?
    ensures t == "audio/wav" <==> fmt.OtherAudio?
  {
    match fmt
    case Aac => HeaderType[0]
    case Opus => HeaderType[1]
    case OtherAudio(_) => HeaderType[2]
  }

  /** The headers PRE_REQUEST sets, in the order it sets them. */
  function PreRequestHeaders(fmt: AudioType): seq<Header> {
    [ Header("x-audio-sample-rates", SnprintfDecimal(SETUP_AUDIO_SAMPLE_RATE, DAT_SIZE)),
      Header("Content-Type", ContentType(fmt)),
      Header("x-audio-bits", SnprintfDecimal(SETUP_AUDIO_BITS, DAT_SIZE)),
      Header("x-audio-channel", SnprintfDecimal(SETUP_AUDIO_CHANNELS, DAT_SIZE)) ]
  }

  /** The writes ON_REQUEST makes: size line, data, CRLF, stopping after the first
      write that returns a count <= 0. */
  function OnRequestWrites(buffer: seq<byte>, w: WriteResults): seq<WriteCall> {
    var sizeLine := WriteCall(Hex(|buffer|) + CRLF, w.first);
    var data := WriteCall(buffer, w.second);
    if w.first <= 0 then [sizeLine]
    else if w.second <= 0 then [sizeLine, data]
    else [sizeLine, data, WriteCall(CRLF, w.third)]
  }

  predicate AllWritesOk(w: WriteResults) {
    w.first > 0 && w.second > 0 && w.third > 0
  }

  function EventWrites(ev: StreamEvent, w: WriteResults): seq<WriteCall> {
    match ev
    case OnRequest(buffer) => OnRequestWrites(buffer, w)
    case PostRequest => [WriteCall(LastChunk, w.first)]
    case _ => []
  }

  function EventHeaders(ev: StreamEvent): seq<Header> {
    if ev.PreRequest? then PreRequestHeaders(ev.fmt) else []
  }

  function EventResult(ev: StreamEvent, w: WriteResults, rd: ReadResult): int {
    match ev
    case PreRequest(_) => ESP_OK
    case OnRequest(buffer) => if AllWritesOk(w) then |buffer| else ESP_FAIL
    case PostRequest => if w.first > 0 then ESP_OK else ESP_FAIL
    case FinishRequest => if rd.len > 0 then ESP_OK else ESP_FAIL
    case OtherEvent(_) => ESP_OK
  }

  /** The value of the static `total_write` after the event. */
  function EventTotal(ev: StreamEvent, total: int, w: WriteResults, rd: ReadResult): int {
    match ev
    case PreRequest(_) => 0
    case OnRequest(buffer) => if AllWritesOk(w) then total + |buffer| else total
    case FinishRequest => if rd.len > 0 then 0 else total
    case _ => total
  }

  /** The bytes of three successful ON_REQUEST writes are exactly one chunk. */
  lemma AcceptedChunkWrites(buffer: seq<byte>, w: WriteResults, ws: seq<WriteCall>)
    requires AllWritesOk(w) && ws == OnRequestWrites(buffer, w)
    ensures Accepted(ws) == ChunkFrame(buffer)
  {
    var a := WriteCall(Hex(|buffer|) + CRLF, w.first);
    var b := WriteCall(buffer, w.second);
    var c := WriteCall(CRLF, w.third);
    assert ws == [a] + [b] + [c];
    AcceptedAppend([a] + [b], [c]);
    AcceptedAppend([a], [b]);
    AcceptedOne(a);
    AcceptedOne(b);
    AcceptedOne(c);
  }

  /** ON_REQUEST writes exactly one chunk when every write succeeds: size line in
      lower-case hex, CRLF, the buffer, CRLF, as three writes in that order; it
      returns the buffer length and adds it to the counter. */
  lemma OnRequestSuccess(buffer: seq<byte>, w: WriteResults, rd: ReadResult, total: int)
    requires AllWritesOk(w)
    ensures EventWrites(OnRequest(buffer), w)
            == [WriteCall(Hex(|buffer|) + CRLF, w.first), WriteCall(buffer, w.second), WriteCall(CRLF, w.third)]
    ensures Accepted(EventWrites(OnRequest(buffer), w)) == ChunkFrame(buffer)
    ensures EventResult(OnRequest(buffer), w, rd) == |buffer|
    ensures EventTotal(OnRequest(buffer), total, w, rd) == total + |buffer|
  {
    AcceptedChunkWrites(buffer, w, EventWrites(OnRequest(buffer), w));
  }

  /** A write that fails ends ON_REQUEST at once: it is the last write made, every
      earlier write succeeded, the handler returns ESP_FAIL and the counter keeps its value. */
  lemma OnRequestFailure(buffer: seq<byte>, w: WriteResults, rd: ReadResult, total: int)
    requires !AllWritesOk(w)
    ensures var ws := EventWrites(OnRequest(buffer), w);
            1 <= |ws| <= 3 && ws[|ws| - 1].result <= 0 &&
            (forall i :: 0 <= i < |ws| - 1 ==> ws[i].result > 0)
    ensures EventResult(OnRequest(buffer), w, rd) == ESP_FAIL
    ensures EventTotal(OnRequest(buffer), total, w, rd) == total
  {
  }

  /** With a client that reports the byte count of each write, the data write of a
      zero-length buffer returns 0: ON_REQUEST has sent only the size line `0\r\n`,
      returns ESP_FAIL and counts nothing. */
  lemma EmptyBufferFailsOnCountingClient(rd: ReadResult, total: int)
    ensures OnRequestWrites([], FullWrites([])) == [WriteCall([48, CR, LF], 3), WriteCall([], 0)]
    ensures Accepted(OnRequestWrites([], FullWrites([]))) == [48, CR, LF]
    ensures EventResult(OnRequest([]), FullWrites([]), rd) == ESP_FAIL
    ensures EventTotal(OnRequest([]), total, FullWrites([]), rd) == total
  {
    assert Hex(0) == [48];
    assert FullWrites([]) == WriteResults(3, 0, 2);
    assert Hex(0) + CRLF == [48, CR, LF];
    AcceptedAppend([WriteCall([48, CR, LF], 3)], [WriteCall([], 0)]);
  }

  /** With a client that reports a positive count for an empty write, a zero-length
      buffer makes ON_REQUEST put the whole last-chunk on the wire and return 0,
      leaving the counter as it was. */
  lemma EmptyBufferWritesLastChunk(w: WriteResults, rd: ReadResult, total: int)
    requires AllWritesOk(w)
    ensures Accepted(OnRequestWrites([], w)) == LastChunk
    ensures EventResult(OnRequest([]), w, rd) == 0
    ensures EventTotal(OnRequest([]), total, w, rd) == total
  {
    AcceptedChunkWrites([], w, OnRequestWrites([], w));
    EmptyChunkIsLastChunk();
  }

  /** POST_REQUEST writes the last-chunk and nothing else. */
  lemma PostRequestWritesLastChunk(w: WriteResults, rd: ReadResult, total: int)
    ensures EventWrites(PostRequest, w) == [WriteCall(LastChunk, w.first)]
    ensures EventResult(PostRequest, w, rd) == (if w.first > 0 then ESP_OK else ESP_FAIL)
    ensures EventTotal(PostRequest, total, w, rd) == total
  {
  }

  /** PRE_REQUEST announces 16000 Hz, 16 bits, 1 channel, each printed whole into
      `dat[10]`, picks the Content-Type from the format, writes nothing and resets the counter. */
  lemma PreRequestHeaderValues(fmt: AudioType, w: WriteResults, rd: ReadResult, total: int)
    ensures EventHeaders(PreRequest(fmt)) ==
            [ Header("x-audio-sample-rates", "16000"), Header("Content-Type", ContentType(fmt)),
              Header("x-audio-bits", "16"), Header("x-audio-channel", "1") ]
    ensures EventWrites(PreRequest(fmt), w) == []
    ensures EventResult(PreRequest(fmt), w, rd) == ESP_OK
    ensures EventTotal(PreRequest(fmt), total, w, rd) == 0
  {
    DecimalFitsDat(SETUP_AUDIO_SAMPLE_RATE);
    DecimalFitsDat(SETUP_AUDIO_BITS);
    DecimalFitsDat(SETUP_AUDIO_CHANNELS);
    assert Decimal(16) == "16";
    assert Decimal(160) == "160";
    assert Decimal(1600) == "1600";
    assert Decimal(16000) == "16000";
  }

  /** FINISH_REQUEST fails when the read returns nothing, and otherwise resets the counter. */
  lemma FinishRequestResult(w: WriteResults, rd: ReadResult, total: int)
    ensures EventWrites(FinishRequest, w) == []
    ensures rd.len <= 0 ==> EventResult(FinishRequest, w, rd) == ESP_FAIL &&
                            EventTotal(FinishRequest, total, w, rd) == total
    ensures rd.len > 0 ==> EventResult(FinishRequest, w, rd) == ESP_OK &&
                           EventTotal(FinishRequest, total, w, rd) == 0
  {
  }

  /** Every other event id returns ESP_OK with no write and no counter change. */
  lemma OtherEventIgnored(id: int, w: WriteResults, rd: ReadResult, total: int)
    ensures EventWrites(OtherEvent(id), w) == [] && EventHeaders(OtherEvent(id)) == []
    ensures EventResult(OtherEvent(id), w, rd) == ESP_OK
    ensures EventTotal(OtherEvent(id), total, w, rd) == total
  {
  }

  /** Where FINISH_REQUEST stores the NUL after a read of `readLen` bytes: right after them. */
  function TerminatorIndex(readLen: int): int {
    readLen
  }

  /** As written, FINISH_REQUEST reads up to 64 bytes into its 64-byte buffer and
      then stores the terminator at `buf[read_len]`: a read of 64 stores it one
      byte past the end. */
  predicate TerminatorInBuffer(readLen: int) {
    0 <= TerminatorIndex(readLen) < FINISH_BUF_SIZE
  }

  /** Of the successful read lengths the read of 64 bytes allows, exactly the
      full read puts the terminator outside the buffer. */
  lemma FinishTerminatorOverflowAsWritten(readLen: int)
    requires 0 < readLen <= FINISH_READ_AS_WRITTEN
    ensures !TerminatorInBuffer(readLen) <==> readLen == FINISH_READ_AS_WRITTEN
  {
  }

  /** With the read capped at 63 bytes, every successful read leaves room for the terminator. */
  lemma FinishTerminatorFitsCorrected(readLen: int)
    requires 0 < readLen <= FINISH_READ_MAX
    ensures TerminatorInBuffer(readLen)
  {
  }

  /** What the client returns when it takes the whole of every write: the byte count. */
  function FullWrites(buffer: seq<byte>): WriteResults {
    WriteResults(|Hex(|buffer|)| + 2, |buffer|, 2)
  }

  /** The writes of an upload in which the client takes every write whole: one
      ON_REQUEST per buffer, then POST_REQUEST. */
  function UploadWrites(bufs: seq<seq<byte>>): seq<WriteCall> {
    if bufs == [] then EventWrites(PostRequest, WriteResults(|LastChunk|, 0, 0))
    else EventWrites(OnRequest(bufs[0]), FullWrites(bufs[0])) + UploadWrites(bufs[1..])
  }

  lemma {:induction false} UploadWire(bufs: seq<seq<byte>>)
    requires AllNonEmpty(bufs)
    ensures Accepted(UploadWrites(bufs)) == Frames(bufs) + LastChunk
    decreases |bufs|
  {
    if bufs == [] {
      AcceptedOne(WriteCall(LastChunk, |LastChunk|));
    } else {
      var b, bs := bufs[0], bufs[1..];
      var ws := EventWrites(OnRequest(b), FullWrites(b));
      AcceptedChunkWrites(b, FullWrites(b), ws);
      AllNonEmptyTail(bufs);
      UploadWire(bs);
      AcceptedAppend(ws, UploadWrites(bs));
      Assoc(ChunkFrame(b), Frames(bs), LastChunk);
    }
  }

  /** What an upload of non-empty buffers puts on the wire is the chunks followed
      by the last-chunk, and it decodes back to the buffers in order. */
  lemma UploadRoundTrip(bufs: seq<seq<byte>>)
    requires AllNonEmpty(bufs)
    ensures Accepted(UploadWrites(bufs)) == Frames(bufs) + LastChunk
    ensures DecodeChunked(Accepted(UploadWrites(bufs)))
            == Some(Decoded(Flatten(bufs), |Frames(bufs)| + |LastChunk|))
  {
    UploadWire(bufs);
    var wire := Accepted(UploadWrites(bufs));
    assert wire == Frames(bufs) + LastChunk + [];
    DecodeFrames(bufs, [], wire);
  }

  lemma AppendFour(a: seq<Header>, h1: Header, h2: Header, h3: Header, h4: Header)
    ensures a + [h1] + [h2] + [h3] + [h4] == a + [h1, h2, h3, h4]
  {
  }

  /**
   * The handler's state: the static `total_write`, and what it has done to the
   * HTTP client so far (method set to POST, headers set, writes made).
   */
  class StreamHandler {
    var totalWrite: int
    var isPost: bool
    var headers: seq<Header>
    var writes: seq<WriteCall>

    constructor ()
      ensures totalWrite == 0 && !isPost && headers == [] && writes == []
    {
      totalWrite := 0;
      isPost := false;
      headers := [];
      writes := [];
    }

    /** The bytes the client has accepted so far. */
    function Sent(): seq<byte>
      reads this
    {
      Accepted(writes)
    }

    /** One call of the handler.  `w` gives the results of the writes the event
        makes and `rd` the result of the FINISH_REQUEST read; the read is capped at
        FINISH_READ_MAX bytes (see README, Findings). */
    method Handle(ev: StreamEvent, w: WriteResults, rd: ReadResult) returns (ret: int)
      requires ev.OnRequest? ==> |ev.buffer| <= INT_MAX
      requires ev.FinishRequest? ==> rd.len <= FINISH_READ_MAX && (rd.len > 0 ==> |rd.bytes| == rd.len)
      modifies this
      ensures ret == EventResult(ev, w, rd)
      ensures writes == old(writes) + EventWrites(ev, w)
      ensures Sent() == old(Sent()) + Accepted(EventWrites(ev, w))
      ensures headers == old(headers) + EventHeaders(ev)
      ensures totalWrite == EventTotal(ev, old(totalWrite), w, rd)
      ensures isPost == (old(isPost) || ev.PreRequest?)
    {
      AcceptedAppend(writes, EventWrites(ev, w));
      match ev
      case PreRequest(fmt) =>
        ret := HandlePreRequest(fmt);
      case OnRequest(buffer) =>
        ret := HandleOnRequest(buffer, w);
      case PostRequest =>
        ret := HandlePostRequest(w);
      case FinishRequest =>
        ret := HandleFinishRequest(rd);
      case OtherEvent(_) =>
        ret := ESP_OK;
    }

    /** PRE_REQUEST: switch the client to POST and set the four headers. */
    method HandlePreRequest(fmt: AudioType) returns (ret: int)
      modifies this
      ensures ret == ESP_OK
      ensures writes == old(writes)
      ensures headers == old(headers) + PreRequestHeaders(fmt)
      ensures totalWrite == 0 && isPost
    {
      isPost := true;
      ghost var h0 := headers;
      var rate := SnprintfDecimal(SETUP_AUDIO_SAMPLE_RATE, DAT_SIZE);
      headers := headers + [Header("x-audio-sample-rates", rate)];
      if fmt.Aac? {
        headers := headers + [Header("Content-Type", HeaderType[0])];
      } else if fmt.Opus? {
        headers := headers + [Header("Content-Type", HeaderType[1])];
      } else {
        headers := headers + [Header("Content-Type", HeaderType[2])];
      }
      var bits := SnprintfDecimal(SETUP_AUDIO_BITS, DAT_SIZE);
      headers := headers + [Header("x-audio-bits", bits)];
      var channels := SnprintfDecimal(SETUP_AUDIO_CHANNELS, DAT_SIZE);
      headers := headers + [Header("x-audio-channel", channels)];
      AppendFour(h0, Header("x-audio-sample-rates", rate), Header("Content-Type", ContentType(fmt)),
                 Header("x-audio-bits", bits), Header("x-audio-channel", channels));
      totalWrite := 0;
      return ESP_OK;
    }

    /** ON_REQUEST: write one chunk, giving up at the first write that fails. */
    method HandleOnRequest(buffer: seq<byte>, w: WriteResults) returns (ret: int)
      requires |buffer| <= INT_MAX
      modifies this
      ensures ret == (if AllWritesOk(w) then |buffer| else ESP_FAIL)
      ensures writes == old(writes) + OnRequestWrites(buffer, w)
      ensures headers == old(headers) && isPost == old(isPost)
      ensures totalWrite == (if AllWritesOk(w) then old(totalWrite) + |buffer| else old(totalWrite))
    {
      HexFitsLenBuf(|buffer|);
      var lenLine := Hex(|buffer|) + CRLF;
      writes := writes + [WriteCall(lenLine, w.first)];
      if w.first <= 0 {
        return ESP_FAIL;
      }
      writes := writes + [WriteCall(buffer, w.second)];
      if w.second <= 0 {
        return ESP_FAIL;
      }
      writes := writes + [WriteCall(CRLF, w.third)];
      if w.third <= 0 {
        return ESP_FAIL;
      }
      totalWrite := totalWrite + |buffer|;
      return |buffer|;
    }

    /** POST_REQUEST: write the last-chunk. */
    method HandlePostRequest(w: WriteResults) returns (ret: int)
      modifies this
      ensures ret == (if w.first > 0 then ESP_OK else ESP_FAIL)
      ensures writes == old(writes) + [WriteCall(LastChunk, w.first)]
      ensures headers == old(headers) && isPost == old(isPost) && totalWrite == old(totalWrite)
    {
      writes := writes + [WriteCall(LastChunk, w.first)];
      if w.first <= 0 {
        return ESP_FAIL;
      }
      return ESP_OK;
    }

    /** FINISH_REQUEST, corrected: read at most FINISH_READ_MAX bytes of the response
        into the 64-byte buffer, so that the terminator stored after them is in bounds. */
    method HandleFinishRequest(rd: ReadResult) returns (ret: int)
      requires rd.len <= FINISH_READ_MAX && (rd.len > 0 ==> |rd.bytes| == rd.len)
      modifies this
      ensures ret == (if rd.len > 0 then ESP_OK else ESP_FAIL)
      ensures totalWrite == (if rd.len > 0 then 0 else old(totalWrite))
      ensures writes == old(writes) && headers == old(headers) && isPost == old(isPost)
    {
      var buf := new byte[FINISH_BUF_SIZE];
      if rd.len <= 0 {
        return ESP_FAIL;
      }
      forall i | 0 <= i < rd.len {
        buf[i] := rd.bytes[i];
      }
      FinishTerminatorFitsCorrected(rd.len);
      buf[TerminatorIndex(rd.len)] := 0;
      assert buf[..rd.len] == rd.bytes;
      totalWrite := 0;
      return ESP_OK;
    }
  }
}
