/**
  The length-prefixed frame format: `[4 bytes BE length][1 byte type][payload]`,
  its slice decoder and its incremental stream reader.
*/
module Framing {
  import opened Basics

  type Byte = b: int | 0 <= b < 256

  type Bytes = seq<Byte>

  const MSG_SNAPSHOT: Byte := 1
  const MSG_HEARTBEAT: Byte := 2
  const MSG_ERROR: Byte := 3
  const MSG_HELLO: Byte := 4
  const MSG_WELCOME: Byte := 5

  const MAX_FRAME_SIZE: nat := 4 * 1024 * 1024
  const HEADER_SIZE: nat := 4
  const TWO_TO_THE_32: nat := 0x1_0000_0000

  datatype Frame = Frame(msgType: Byte, payload: Bytes)

  datatype ProtoError =
    | Io
    | UnexpectedEof
    | Codec
    | UnknownMessageType(tag: Byte)
    | FrameTooLarge(size: nat, max: nat)
    | IncompleteFrame(expected: nat, actual: nat)

  // -------------------------------------------------------------- slice codec

  function ToBigEndian(n: nat): (b: Bytes)
    requires n < TWO_TO_THE_32
    ensures |b| == HEADER_SIZE
  {
    [n / 256 / 256 / 256, n / 256 / 256 % 256, n / 256 % 256, n % 256]
  }

  function FromBigEndian(b: Bytes): (n: nat)
    requires |b| == HEADER_SIZE
    ensures n < TWO_TO_THE_32
  {
    ((b[0] as nat * 256 + b[1] as nat) * 256 + b[2] as nat) * 256 + b[3] as nat
  }

  lemma BigEndianRoundTrips(n: nat, b: Bytes)
    requires n < TWO_TO_THE_32 && |b| == HEADER_SIZE
    ensures FromBigEndian(ToBigEndian(n)) == n
    ensures ToBigEndian(FromBigEndian(b)) == b
  {
    var high := (b[0] as nat * 256 + b[1] as nat) * 256 + b[2] as nat;
    assert FromBigEndian(b) / 256 == high;
    assert high / 256 == b[0] as nat * 256 + b[1] as nat;
  }

  function ContentLen(f: Frame): nat {
    1 + |f.payload|
  }

  predicate Encodable(f: Frame) {
    ContentLen(f) <= MAX_FRAME_SIZE
  }

  function EncodeFrame(f: Frame): Result<Bytes, ProtoError> {
    if ContentLen(f) > MAX_FRAME_SIZE then
      Err(FrameTooLarge(ContentLen(f) % TWO_TO_THE_32, MAX_FRAME_SIZE)) // the size is cast to 32 bits
    else
      Ok(ToBigEndian(ContentLen(f)) + [f.msgType] + f.payload)
  }

  /** The bytes on the wire: the content length with its highest byte first, the type, the payload. */
  lemma FrameLayout(f: Frame, b: Bytes)
    ensures EncodeFrame(f) == Ok(b) <==>
            && |b| == 5 + |f.payload| && |f.payload| < 4194304
            && b[0] as int * 0x100_0000 + b[1] as int * 0x1_0000 + b[2] as int * 0x100 + b[3] as int == 1 + |f.payload|
            && b[4] == f.msgType && b[5..] == f.payload
  {
    if |b| >= 5 && 1 + |f.payload| <= MAX_FRAME_SIZE {
      BigEndianRoundTrips(1 + |f.payload|, b[..4]);
      assert b == b[..4] + [b[4]] + b[5..];
      var e := ToBigEndian(1 + |f.payload|) + [f.msgType] + f.payload;
      assert e[..4] == ToBigEndian(1 + |f.payload|) && e[5..] == f.payload;
    }
  }

  function DecodeFrame(buf: Bytes): Result<(Frame, nat), ProtoError> {
    if |buf| < HEADER_SIZE then Err(IncompleteFrame(HEADER_SIZE, |buf|))
    else
      var contentLen := FromBigEndian(buf[..HEADER_SIZE]);
      if contentLen > MAX_FRAME_SIZE then Err(FrameTooLarge(contentLen, MAX_FRAME_SIZE))
      else
        var total := HEADER_SIZE + contentLen;
        if |buf| < total then Err(IncompleteFrame(total, |buf|))
        else if contentLen == 0 then Err(IncompleteFrame(HEADER_SIZE + 1, HEADER_SIZE))
        else Ok((Frame(buf[HEADER_SIZE], buf[HEADER_SIZE + 1..total]), total))
  }

  /** Decoding undoes encoding, whatever bytes follow. */
  lemma DecodeInvertsEncode(f: Frame, trailing: Bytes)
    requires Encodable(f)
    ensures EncodeFrame(f).Ok?
    ensures DecodeFrame(EncodeFrame(f).value + trailing) == Ok((f, |EncodeFrame(f).value|))
  {
    var e := EncodeFrame(f).value;
    BigEndianRoundTrips(ContentLen(f), ToBigEndian(ContentLen(f)));
    assert (e + trailing)[..HEADER_SIZE] == ToBigEndian(ContentLen(f));
    assert (e + trailing)[HEADER_SIZE + 1..|e|] == f.payload;
  }

  /** The format is canonical: what decodes is the encoding of what it decodes to. */
  lemma EncodeInvertsDecode(buf: Bytes)
    requires DecodeFrame(buf).Ok?
    ensures var (f, used) := DecodeFrame(buf).value;
            used <= |buf| && EncodeFrame(f) == Ok(buf[..used])
  {
    var (f, used) := DecodeFrame(buf).value;
    BigEndianRoundTrips(ContentLen(f), buf[..HEADER_SIZE]);
    assert buf[..used] == buf[..HEADER_SIZE] + [buf[HEADER_SIZE]] + buf[HEADER_SIZE + 1..used];
  }

  /** A buffer decodes exactly if it starts with the encoding of some frame. */
  lemma DecodesIffStartsWithAFrame(buf: Bytes)
    ensures DecodeFrame(buf).Ok? <==> exists f, used :: 0 <= used <= |buf| && EncodeFrame(f) == Ok(buf[..used])
  {
    if DecodeFrame(buf).Ok? {
      EncodeInvertsDecode(buf);
    }
    forall f, used | 0 <= used <= |buf| && EncodeFrame(f) == Ok(buf[..used]) ensures DecodeFrame(buf).Ok? {
      DecodeInvertsEncode(f, buf[used..]);
      assert buf[..used] + buf[used..] == buf;
    }
  }

  // ------------------------------------------------------------ stream reader

  /** How a byte stream stops: the peer closes it, or an I/O error breaks it. */
  datatype Ending = Closed | Broken

  datatype ReadResult = Got(frame: Frame) | EndOfStream | Failed(error: ProtoError)

  function ShortRead(ending: Ending): ProtoError {
    if ending == Closed then UnexpectedEof else Io
  }

  /** One read on the bytes still to come: the result and the bytes left over. */
  function ReadOne(bytes: Bytes, ending: Ending, maxPayload: nat): (r: (ReadResult, Bytes))
    ensures r.0.Got? ==> |r.1| < |bytes|
  {
    if |bytes| < HEADER_SIZE then (if ending == Closed then EndOfStream else Failed(Io), [])
    else
      var contentLen := FromBigEndian(bytes[..HEADER_SIZE]);
      var body := bytes[HEADER_SIZE..];
      if contentLen > MAX_FRAME_SIZE then (Failed(FrameTooLarge(contentLen, MAX_FRAME_SIZE)), body)
      else if contentLen == 0 then (Failed(IncompleteFrame(1, 0)), body)
      else if contentLen - 1 > maxPayload then
        (Failed(FrameTooLarge(contentLen, Min(maxPayload + 1, TWO_TO_THE_32 - 1))), body)
      else if |body| < contentLen then (Failed(ShortRead(ending)), [])
      else (Got(Frame(body[0], body[1..contentLen])), body[contentLen..])
  }

  /** The reader and the slice decoder accept the same frames and reject in the same places. */
  lemma ReaderAgreesWithDecoder(bytes: Bytes, ending: Ending)
    ensures var (r, rest) := ReadOne(bytes, ending, MAX_FRAME_SIZE - 1);
            var decoded := DecodeFrame(bytes);
            && (r.Got? <==> decoded.Ok?)
            && (decoded.Ok? ==> var (f, used) := decoded.value; used <= |bytes| && r == Got(f) && rest == bytes[used..])
            && (forall size, max ::
                  decoded == Err(FrameTooLarge(size, max)) <==> r == Failed(FrameTooLarge(size, max)))
            && if |bytes| >= HEADER_SIZE && FromBigEndian(bytes[..HEADER_SIZE]) == 0
               then r == Failed(IncompleteFrame(1, 0)) && decoded == Err(IncompleteFrame(HEADER_SIZE + 1, HEADER_SIZE))
               else r in {EndOfStream, Failed(ShortRead(ending))} <==> decoded.Err? && decoded.error.IncompleteFrame?
  {
    if |bytes| >= HEADER_SIZE {
      var contentLen := FromBigEndian(bytes[..HEADER_SIZE]);
      var body := bytes[HEADER_SIZE..];
      if 0 < contentLen <= MAX_FRAME_SIZE && contentLen <= |body| {
        SliceOfTail(bytes, HEADER_SIZE, 1, contentLen);
        assert body[contentLen..] == bytes[HEADER_SIZE + contentLen..];
      }
    }
  }

  /** A tighter cap only turns larger frames away, on the header alone. */
  lemma CapRejectsOnHeader(bytes: Bytes, ending: Ending, maxPayload: nat)
    requires maxPayload < MAX_FRAME_SIZE
    ensures var (capped, rest) := ReadOne(bytes, ending, maxPayload);
            var (open, _) := ReadOne(bytes, ending, MAX_FRAME_SIZE - 1);
            if |bytes| >= HEADER_SIZE && maxPayload + 1 < FromBigEndian(bytes[..HEADER_SIZE]) <= MAX_FRAME_SIZE
            then capped == Failed(FrameTooLarge(FromBigEndian(bytes[..HEADER_SIZE]), maxPayload + 1))
                 && rest == bytes[HEADER_SIZE..]
            else (capped, rest) == ReadOne(bytes, ending, MAX_FRAME_SIZE - 1)
                 && (capped.Got? ==> |capped.frame.payload| <= maxPayload)
  {
  }

  /** Read until something other than a frame comes back. */
  function ReadAll(bytes: Bytes, ending: Ending): (seq<Frame>, ReadResult)
    decreases |bytes|
  {
    var (r, rest) := ReadOne(bytes, ending, MAX_FRAME_SIZE - 1);
    if r.Got? then
      var (frames, last) := ReadAll(rest, ending);
      ([r.frame] + frames, last)
    else ([], r)
  }

  predicate AllEncodable(frames: seq<Frame>) {
    forall i :: 0 <= i < |frames| ==> Encodable(frames[i])
  }

  function EncodeAll(frames: seq<Frame>): Bytes
    requires AllEncodable(frames)
  {
    if frames == [] then [] else EncodeFrame(frames[0]).value + EncodeAll(frames[1..])
  }

  lemma ReadsOne(f: Frame, trailing: Bytes, ending: Ending)
    requires Encodable(f)
    ensures ReadOne(EncodeFrame(f).value + trailing, ending, MAX_FRAME_SIZE - 1) == (Got(f), trailing)
  {
    var bytes := EncodeFrame(f).value + trailing;
    DecodeInvertsEncode(f, trailing);
    ReaderAgreesWithDecoder(bytes, ending);
    assert bytes[|EncodeFrame(f).value|..] == trailing;
  }

  lemma ReadAllUnfolds(bytes: Bytes, ending: Ending, f: Frame, rest: Bytes)
    requires ReadOne(bytes, ending, MAX_FRAME_SIZE - 1) == (Got(f), rest)
    ensures ReadAll(bytes, ending) == ([f] + ReadAll(rest, ending).0, ReadAll(rest, ending).1)
  {
  }

  /** Frames written back to back are read back as the same list, before whatever follows. */
  lemma {:induction false} StreamRoundTrips(frames: seq<Frame>, tail: Bytes, ending: Ending)
    requires AllEncodable(frames)
    ensures ReadAll(EncodeAll(frames) + tail, ending)
            == (frames + ReadAll(tail, ending).0, ReadAll(tail, ending).1)
  {
    hide ReadOne, ReadAll, EncodeFrame;
    if frames == [] {
      assert EncodeAll(frames) + tail == tail;
      assert [] + ReadAll(tail, ending).0 == ReadAll(tail, ending).0;
    } else {
      EncodedLength(frames[0]);
      var first := EncodeFrame(frames[0]).value;
      var rest := EncodeAll(frames[1..]) + tail;
      assert EncodeAll(frames) + tail == first + rest;
      ReadsOne(frames[0], rest, ending);
      ReadAllUnfolds(first + rest, ending, frames[0], rest);
      StreamRoundTrips(frames[1..], tail, ending);
      Reassociate(frames, ReadAll(tail, ending).0);
    }
  }

  lemma Reassociate(frames: seq<Frame>, more: seq<Frame>)
    requires frames != []
    ensures [frames[0]] + (frames[1..] + more) == frames + more
  {
  }

  /** How many whole frames fit in the first `k` bytes. */
  function WholeFrames(frames: seq<Frame>, k: nat): (j: nat)
    requires AllEncodable(frames)
    ensures j <= |frames|
  {
    if frames == [] || k < HEADER_SIZE + ContentLen(frames[0]) then 0
    else 1 + WholeFrames(frames[1..], k - (HEADER_SIZE + ContentLen(frames[0])))
  }

  /** `WholeFrames` is what its name says. */
  lemma {:induction false} WholeFramesFit(frames: seq<Frame>, k: nat)
    requires AllEncodable(frames)
    ensures var j := WholeFrames(frames, k);
            && |EncodeAll(frames[..j])| <= k
            && (j < |frames| ==> k < |EncodeAll(frames[..j + 1])|)
  {
    if frames != [] && k >= HEADER_SIZE + ContentLen(frames[0]) {
      var j := WholeFrames(frames, k);
      WholeFramesFit(frames[1..], k - (HEADER_SIZE + ContentLen(frames[0])));
      assert frames[..j][1..] == frames[1..][..j - 1];
      if j < |frames| {
        assert frames[..j + 1][1..] == frames[1..][..j];
      }
    } else if frames != [] {
      assert frames[..1][0] == frames[0];
    }
  }

  /** What the reader reports when the stream stops `left` bytes into a frame. */
  function CutOff(left: int, ending: Ending): ReadResult {
    if ending == Closed && left < HEADER_SIZE then EndOfStream else Failed(ShortRead(ending))
  }

  lemma CutInsideFrame(f: Frame, k: nat, ending: Ending)
    requires Encodable(f) && k < HEADER_SIZE + ContentLen(f)
    ensures |EncodeFrame(f).value| == HEADER_SIZE + ContentLen(f)
    ensures ReadAll(EncodeFrame(f).value[..k], ending) == ([], CutOff(k, ending))
  {
    var bytes := EncodeFrame(f).value[..k];
    if k >= HEADER_SIZE {
      assert bytes[..HEADER_SIZE] == ToBigEndian(ContentLen(f));
      BigEndianRoundTrips(ContentLen(f), bytes[..HEADER_SIZE]);
    }
  }

  lemma {:induction false} EncodeAllSplits(frames: seq<Frame>, j: nat)
    requires AllEncodable(frames) && j <= |frames|
    ensures EncodeAll(frames) == EncodeAll(frames[..j]) + EncodeAll(frames[j..])
  {
    hide EncodeFrame;
    if j == 0 {
      assert frames[0..] == frames && EncodeAll(frames[..0]) == [];
    } else {
      EncodeAllSplits(frames[1..], j - 1);
      assert frames[..j][1..] == frames[1..][..j - 1] && frames[j..] == frames[1..][j - 1..];
      assert frames[..j][0] == frames[0];
    }
  }

  /** What is left of a cut stream after its whole frames is the start of the next one, or nothing. */
  lemma CutTail(frames: seq<Frame>, k: nat, ending: Ending)
    requires AllEncodable(frames) && k <= |EncodeAll(frames)|
    ensures var j := WholeFrames(frames, k);
            var whole := EncodeAll(frames[..j]);
            && |whole| <= k && k - |whole| <= |EncodeAll(frames[j..])|
            && EncodeAll(frames)[..k] == whole + EncodeAll(frames[j..])[..k - |whole|]
            && ReadAll(EncodeAll(frames[j..])[..k - |whole|], ending) == ([], CutOff(k - |whole|, ending))
  {
    hide EncodeFrame, EncodeAll, ReadAll, CutOff;
    var j := WholeFrames(frames, k);
    var whole := EncodeAll(frames[..j]);
    WholeFramesFit(frames, k);
    EncodeAllSplits(frames, j);
    if j < |frames| {
      OneMoreFrame(frames, j);
      var first := EncodeFrame(frames[j]).value;
      CutInsideFrame(frames[j], k - |whole|, ending);
      SliceOfPrefix(first, EncodeAll(frames[j + 1..]), 0, k - |whole|);
    } else {
      assert frames[j..] == [] && frames[..j] == frames;
      NothingLeft(ending);
    }
  }

  lemma OneMoreFrame(frames: seq<Frame>, j: nat)
    requires AllEncodable(frames) && j < |frames|
    ensures EncodeFrame(frames[j]).Ok?
    ensures EncodeAll(frames[j..]) == EncodeFrame(frames[j]).value + EncodeAll(frames[j + 1..])
    ensures |EncodeAll(frames[..j + 1])| == |EncodeAll(frames[..j])| + HEADER_SIZE + ContentLen(frames[j])
  {
    hide EncodeFrame;
    EncodedLength(frames[j]);
    EncodeAllSplits(frames[..j + 1], j);
    assert frames[..j + 1][..j] == frames[..j] && frames[..j + 1][j..] == [frames[j]];
    assert EncodeAll([frames[j]]) == EncodeFrame(frames[j]).value + [];
    assert frames[j..][1..] == frames[j + 1..];
  }

  lemma EncodedLength(f: Frame)
    requires Encodable(f)
    ensures EncodeFrame(f).Ok? && |EncodeFrame(f).value| == HEADER_SIZE + ContentLen(f)
  {
  }

  lemma NothingLeft(ending: Ending)
    ensures EncodeAll([]) == [] && ReadAll([], ending) == ([], CutOff(0, ending))
  {
  }

  /**
    A stream cut anywhere yields exactly the whole frames before the cut, then
    end-of-stream if the cut leaves less than a header and an error otherwise.
  */
  lemma TruncationIsClean(frames: seq<Frame>, k: nat, ending: Ending)
    requires AllEncodable(frames) && k <= |EncodeAll(frames)|
    ensures var j := WholeFrames(frames, k);
            && |EncodeAll(frames[..j])| <= k
            && ReadAll(EncodeAll(frames)[..k], ending) ==
               (frames[..j], CutOff(k - |EncodeAll(frames[..j])|, ending))
  {
    hide EncodeAll, ReadAll, CutOff, WholeFrames;
    var j := WholeFrames(frames, k);
    CutTail(frames, k, ending);
    StreamRoundTrips(frames[..j], EncodeAll(frames[j..])[..k - |EncodeAll(frames[..j])|], ending);
    assert frames[..j] + [] == frames[..j];
  }

  // --------------------------------------------------------- reader and writer

  function Concat(chunks: seq<Bytes>): Bytes {
    if chunks == [] then [] else chunks[0] + Concat(chunks[1..])
  }

  /** An asynchronous byte source: what each further `read` call will hand over. */
  class ByteStream {
    var chunks: seq<Bytes>
    const ending: Ending

    /** A read that returns nothing means the stream has ended, so no chunk is empty. */
    ghost predicate Valid()
      reads this
    {
      forall i :: 0 <= i < |chunks| ==> chunks[i] != []
    }

    ghost function Pending(): Bytes
      reads this
    {
      Concat(chunks)
    }

    constructor (chunks: seq<Bytes>, ending: Ending)
      requires forall i :: 0 <= i < |chunks| ==> chunks[i] != []
      ensures Valid() && Pending() == Concat(chunks) && this.ending == ending
    {
      this.chunks, this.ending := chunks, ending;
    }

    /** Fills a buffer of `n` bytes, from as many chunks as it takes. */
    method ReadExact(n: nat) returns (r: Result<Bytes, ProtoError>)
      requires Valid()
      modifies this
      ensures Valid()
      ensures if n <= |old(Pending())| then r == Ok(old(Pending())[..n]) && Pending() == old(Pending())[n..]
              else r == Err(ShortRead(ending)) && Pending() == []
    {
      var buf: Bytes := [];
      while |buf| < n
        invariant Valid() && |buf| <= n
        invariant buf + Pending() == old(Pending())
        decreases n - |buf|
      {
        if chunks == [] {
          return Err(ShortRead(ending));
        }
        var chunk := chunks[0];
        var m := Min(n - |buf|, |chunk|);
        ghost var before := buf + Pending();
        ghost var later := chunks[1..];
        buf := buf + chunk[..m];
        chunks := (if m < |chunk| then [chunk[m..]] else []) + chunks[1..];
        assert Pending() == chunk[m..] + Concat(later) by {
          if m < |chunk| {
            assert chunks[1..] == later;
          } else {
            assert chunks == later;
          }
        }
        assert chunk == chunk[..m] + chunk[m..];
        assert buf + Pending() == before;
      }
      r := Ok(buf);
    }
  }

  class FrameReader {
    const reader: ByteStream

    constructor (reader: ByteStream)
      ensures this.reader == reader
    {
      this.reader := reader;
    }

    /** Depends on the pending bytes alone, however they are chunked. */
    method ReadFrameWithMaxPayload(maxPayload: nat) returns (r: ReadResult)
      requires reader.Valid()
      modifies reader
      ensures reader.Valid()
      ensures (r, reader.Pending()) == ReadOne(old(reader.Pending()), reader.ending, maxPayload)
    {
      ghost var bytes := reader.Pending();
      var header := reader.ReadExact(HEADER_SIZE);
      if header.Err? {
        return if header.error == UnexpectedEof then EndOfStream else Failed(header.error);
      }
      ghost var body := reader.Pending();
      var contentLen := FromBigEndian(header.value);
      if contentLen > MAX_FRAME_SIZE {
        return Failed(FrameTooLarge(contentLen, MAX_FRAME_SIZE));
      }
      if contentLen == 0 {
        return Failed(IncompleteFrame(1, 0));
      }
      var payloadLen := contentLen - 1;
      if payloadLen > maxPayload {
        return Failed(FrameTooLarge(contentLen, Min(maxPayload + 1, TWO_TO_THE_32 - 1)));
      }
      var typeBuf := reader.ReadExact(1);
      if typeBuf.Err? {
        return Failed(typeBuf.error);
      }
      var payload: Bytes := [];
      if payloadLen > 0 {
        var read := reader.ReadExact(payloadLen);
        if read.Err? {
          return Failed(read.error);
        }
        payload := read.value;
      }
      assert body[1..][..payloadLen] == body[1..contentLen];
      assert body[1..][payloadLen..] == body[contentLen..];
      r := Got(Frame(typeBuf.value[0], payload));
    }

    method ReadFrame() returns (r: ReadResult)
      requires reader.Valid()
      modifies reader
      ensures reader.Valid()
      ensures (r, reader.Pending()) == ReadOne(old(reader.Pending()), reader.ending, MAX_FRAME_SIZE - 1)
    {
      r := ReadFrameWithMaxPayload(MAX_FRAME_SIZE - 1);
    }

    /** The streaming loop: frames until the stream ends or fails. */
    method ReadFrames() returns (frames: seq<Frame>, last: ReadResult)
      requires reader.Valid()
      modifies reader
      ensures (frames, last) == ReadAll(old(reader.Pending()), reader.ending)
    {
      hide ReadOne;
      frames := [];
      last := ReadFrame();
      while last.Got?
        invariant reader.Valid()
        invariant var all_ := ReadAll(old(reader.Pending()), reader.ending);
                  if last.Got? then
                    var rest := ReadAll(reader.Pending(), reader.ending);
                    all_.0 == frames + ([last.frame] + rest.0) && all_.1 == rest.1
                  else all_ == (frames, last)
        decreases last.Got?, |reader.Pending()|
      {
        ghost var pending := reader.Pending();
        frames := frames + [last.frame];
        last := ReadFrame();
        assert ReadOne(pending, reader.ending, MAX_FRAME_SIZE - 1) == (last, reader.Pending());
        assert !last.Got? ==> ReadAll(pending, reader.ending) == ([], last);
        assert [frames[|frames| - 1]] + [] == [frames[|frames| - 1]];
      }
    }
  }

  class FrameWriter {
    var written: Bytes

    constructor ()
      ensures written == []
    {
      written := [];
    }

    /** A frame that does not encode is not written at all. */
    method WriteFrame(f: Frame) returns (r: Result<(), ProtoError>)
      modifies this
      ensures r.Ok? <==> Encodable(f)
      ensures written == old(written) + if Encodable(f) then EncodeAll([f]) else []
    {
      var bytes := EncodeFrame(f);
      if bytes.Err? {
        return Err(bytes.error);
      }
      assert EncodeAll([f]) == bytes.value + [];
      written := written + bytes.value;
      r := Ok(());
    }
  }
}
