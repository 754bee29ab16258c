/**
  Messages and their tags. The payload encoding is a parameter: an encoder that
  may fail and a decoder that undoes it.
*/
module Wire {
  import opened Basics
  import opened Framing

  datatype WireMessage<+S> =
    | Snapshot(snapshot: S)
    | Heartbeat(serverVersion: string, uptimeSecs: nat)
    | Error(code: nat, message: string)
    | Hello(clientVersion: string, authToken: Option<string>)
    | Welcome(serverVersion: string, hostname: string, refreshHz: nat)

  datatype PayloadCodec<!A> = PayloadCodec(
    encode: A -> Result<Bytes, ProtoError>,
    decode: Bytes -> Result<A, ProtoError>)

  datatype Codecs<!S> = Codecs(
    snapshot: PayloadCodec<S>,
    heartbeat: PayloadCodec<(string, nat)>,
    error: PayloadCodec<(nat, string)>,
    hello: PayloadCodec<(string, Option<string>)>,
    welcome: PayloadCodec<(string, string, nat)>)

  ghost predicate Inverse<A(!new)>(c: PayloadCodec<A>) {
    forall a :: c.encode(a).Ok? ==> c.decode(c.encode(a).value) == Ok(a)
  }

  ghost predicate Lawful<S(!new)>(c: Codecs<S>) {
    Inverse(c.snapshot) && Inverse(c.heartbeat) && Inverse(c.error) && Inverse(c.hello) && Inverse(c.welcome)
  }

  function Tagged(tag: Byte, payload: Result<Bytes, ProtoError>): Result<Frame, ProtoError> {
    match payload
    case Ok(bytes) => Ok(Frame(tag, bytes))
    case Err(e) => Err(e)
  }

  function EncodeSnapshotRef<S>(c: Codecs<S>, snap: S): Result<Frame, ProtoError> {
    Tagged(MSG_SNAPSHOT, c.snapshot.encode(snap))
  }

  function ToFrame<S>(c: Codecs<S>, m: WireMessage<S>): Result<Frame, ProtoError> {
    match m
    case Snapshot(snap) => Tagged(MSG_SNAPSHOT, c.snapshot.encode(snap))
    case Heartbeat(version, uptime) => Tagged(MSG_HEARTBEAT, c.heartbeat.encode((version, uptime)))
    case Error(code, message) => Tagged(MSG_ERROR, c.error.encode((code, message)))
    case Hello(version, token) => Tagged(MSG_HELLO, c.hello.encode((version, token)))
    case Welcome(version, hostname, hz) => Tagged(MSG_WELCOME, c.welcome.encode((version, hostname, hz)))
  }

  function MapOk<A, B>(r: Result<A, ProtoError>, f: A -> B): Result<B, ProtoError> {
    match r
    case Ok(a) => Ok(f(a))
    case Err(e) => Err(e)
  }

  function FromFrame<S>(c: Codecs<S>, f: Frame): Result<WireMessage<S>, ProtoError> {
    if f.msgType == MSG_SNAPSHOT then MapOk(c.snapshot.decode(f.payload), snap => Snapshot(snap))
    else if f.msgType == MSG_HEARTBEAT then
      MapOk(c.heartbeat.decode(f.payload), (x: (string, nat)) => Heartbeat(x.0, x.1))
    else if f.msgType == MSG_ERROR then
      MapOk(c.error.decode(f.payload), (x: (nat, string)) => WireMessage.Error(x.0, x.1))
    else if f.msgType == MSG_HELLO then
      MapOk(c.hello.decode(f.payload), (x: (string, Option<string>)) => Hello(x.0, x.1))
    else if f.msgType == MSG_WELCOME then
      MapOk(c.welcome.decode(f.payload), (x: (string, string, nat)) => Welcome(x.0, x.1, x.2))
    else Err(UnknownMessageType(f.msgType))
  }

  /** The tags on the wire; a frame with any other is refused by its tag. */
  lemma TagsOnTheWire<S(!new)>(c: Codecs<S>, m: WireMessage<S>, f: Frame)
    ensures ToFrame(c, m).Ok? ==>
              ToFrame(c, m).value.msgType ==
              match m
              case Snapshot(_) => 1 case Heartbeat(_, _) => 2 case Error(_, _) => 3
              case Hello(_, _) => 4 case Welcome(_, _, _) => 5
    ensures !(1 <= f.msgType <= 5) ==> FromFrame(c, f) == Err(UnknownMessageType(f.msgType))
    ensures FromFrame(c, f).Ok? ==>
              f.msgType ==
              match FromFrame(c, f).value
              case Snapshot(_) => 1 case Heartbeat(_, _) => 2 case Error(_, _) => 3
              case Hello(_, _) => 4 case Welcome(_, _, _) => 5
  {
  }

  /** A message comes back from its frame as the same message. */
  lemma MessageRoundTrips<S(!new)>(c: Codecs<S>, m: WireMessage<S>)
    requires Lawful(c) && ToFrame(c, m).Ok?
    ensures FromFrame(c, ToFrame(c, m).value) == Ok(m)
  {
    match m
    case Snapshot(snap) => assert c.snapshot.decode(c.snapshot.encode(snap).value) == Ok(snap);
    case Heartbeat(v, u) => assert c.heartbeat.decode(c.heartbeat.encode((v, u)).value) == Ok((v, u));
    case Error(code, msg) => assert c.error.decode(c.error.encode((code, msg)).value) == Ok((code, msg));
    case Hello(v, t) => assert c.hello.decode(c.hello.encode((v, t)).value) == Ok((v, t));
    case Welcome(v, h, z) => assert c.welcome.decode(c.welcome.encode((v, h, z)).value) == Ok((v, h, z));
  }

  /** What the relay encodes from a borrow is what the owning path would have sent. */
  lemma BorrowedSnapshotRoundTrips<S(!new)>(c: Codecs<S>, snap: S)
    requires Lawful(c) && EncodeSnapshotRef(c, snap).Ok?
    ensures FromFrame(c, EncodeSnapshotRef(c, snap).value) == Ok(Snapshot(snap))
  {
    MessageRoundTrips(c, Snapshot(snap));
    assert EncodeSnapshotRef(c, snap) == ToFrame(c, Snapshot(snap));
  }

  ghost predicate Sendable<S>(c: Codecs<S>, ms: seq<WireMessage<S>>) {
    forall i :: 0 <= i < |ms| ==> ToFrame(c, ms[i]).Ok? && Encodable(ToFrame(c, ms[i]).value)
  }

  ghost function Frames<S>(c: Codecs<S>, ms: seq<WireMessage<S>>): (frames: seq<Frame>)
    requires Sendable(c, ms)
    ensures |frames| == |ms| && forall i :: 0 <= i < |ms| ==> frames[i] == ToFrame(c, ms[i]).value
    ensures AllEncodable(frames)
  {
    seq(|ms|, i requires 0 <= i < |ms| => ToFrame(c, ms[i]).value)
  }

  /**
    End to end over one connection: whatever is cut off, the receiver decodes a
    prefix of the messages sent, in order, and all of them if nothing is cut.
  */
  lemma MessagesSurviveTheStream<S(!new)>(c: Codecs<S>, ms: seq<WireMessage<S>>, k: nat, ending: Ending)
    requires Lawful(c) && Sendable(c, ms) && k <= |EncodeAll(Frames(c, ms))|
    ensures var (frames, last) := ReadAll(EncodeAll(Frames(c, ms))[..k], ending);
            && |frames| == WholeFrames(Frames(c, ms), k)
            && (forall i :: 0 <= i < |frames| ==> FromFrame(c, frames[i]) == Ok(ms[i]))
            && (k == |EncodeAll(Frames(c, ms))| ==>
                  |frames| == |ms| && last == if ending == Closed then EndOfStream else Failed(Io))
  {
    var sent := Frames(c, ms);
    var bytes := EncodeAll(sent);
    TruncationIsClean(sent, k, ending);
    WholeFramesFit(sent, k);
    forall i | 0 <= i < WholeFrames(sent, k) ensures FromFrame(c, sent[i]) == Ok(ms[i]) {
      MessageRoundTrips(c, ms[i]);
    }
    if k == |bytes| {
      StreamRoundTrips(sent, [], ending);
      assert bytes[..k] == bytes + [];
      assert sent + [] == sent;
    }
  }
}
