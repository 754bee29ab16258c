/**
  The sessions of the pipeline over their byte streams: what a client decodes when
  its connection is cut at any byte.

  `number` gives the production number by which the pipeline names a snapshot.
*/
module Transport {
  import opened Basics
  import opened Framing
  import opened Wire
  import P = Pipeline

  ghost predicate SpellsOne<S>(m: P.Msg, w: WireMessage<S>, number: S -> nat) {
    match m
    case Welcome => w.Welcome?
    case Snap(id) => w.Snapshot? && number(w.snapshot) == id
    case Heartbeat => w.Heartbeat?
    case Unauthorized => w.Error?
  }

  /** The messages of a session log as they are written. */
  ghost predicate Spells<S>(log: seq<P.Msg>, ws: seq<WireMessage<S>>, number: S -> nat) {
    |ws| == |log| && forall i :: 0 <= i < |log| ==> SpellsOne(log[i], ws[i], number)
  }

  /** The production numbers of the snapshots among messages. */
  function Numbers<S>(ws: seq<WireMessage<S>>, number: S -> nat): seq<nat> {
    if ws == [] then []
    else
      var last := ws[|ws| - 1];
      Numbers(ws[..|ws| - 1], number) + if last.Snapshot? then [number(last.snapshot)] else []
  }

  lemma {:induction false} NumbersAreSnaps<S>(log: seq<P.Msg>, ws: seq<WireMessage<S>>, number: S -> nat)
    requires Spells(log, ws, number)
    ensures Numbers(ws, number) == P.Snaps(log)
  {
    if ws != [] {
      var n := |ws| - 1;
      NumbersAreSnaps(log[..n], ws[..n], number);
      assert SpellsOne(log[n], ws[n], number);
    }
  }

  lemma {:induction false} NumbersOfPrefix<S>(ws: seq<WireMessage<S>>, j: nat, number: S -> nat)
    requires j <= |ws|
    ensures Numbers(ws[..j], number) <= Numbers(ws, number)
  {
    if j < |ws| {
      NumbersOfPrefix(ws[..|ws| - 1], j, number);
      assert ws[..|ws| - 1][..j] == ws[..j];
    } else {
      assert ws[..j] == ws;
    }
  }

  /** What the receiver decodes of a stream of messages cut after `k` bytes. */
  ghost function Received<S(!new)>(c: Codecs<S>, ws: seq<WireMessage<S>>, k: nat, ending: Ending): seq<Frame>
    requires Sendable(c, ws) && k <= |EncodeAll(Frames(c, ws))|
  {
    ReadAll(EncodeAll(Frames(c, ws))[..k], ending).0
  }

  lemma ReceivedIsAPrefix<S(!new)>(c: Codecs<S>, ws: seq<WireMessage<S>>, k: nat, ending: Ending)
    requires Lawful(c) && Sendable(c, ws) && k <= |EncodeAll(Frames(c, ws))|
    ensures var got := Received(c, ws, k, ending);
            |got| <= |ws| && forall i :: 0 <= i < |got| ==> FromFrame(c, got[i]) == Ok(ws[i])
  {
    hide Lawful, Sendable, Frames, EncodeAll, ReadAll, FromFrame;
    MessagesSurviveTheStream(c, ws, k, ending);
  }

  /**
    In every reachable state, wherever the rest of a client's connection is cut: what
    decodes is a prefix of what was written, and after the snapshots shown and queued the
    decoded ones continue in strictly increasing production order.
  */
  lemma CutConnectionKeepsOrder<S(!new)>(
    cfg: P.Config, clients: set<nat>, events: seq<P.Event>, who: nat,
    c: Codecs<S>, ws: seq<WireMessage<S>>, number: S -> nat, k: nat, ending: Ending)
    requires Lawful(c)
    requires var s := P.Run(cfg, P.Init(cfg, clients), events);
             who in s.clients && Spells(P.Unread(s, s.clients[who]), ws, number)
    requires Sendable(c, ws) && k <= |EncodeAll(Frames(c, ws))|
    ensures var got := Received(c, ws, k, ending);
            var client := P.Run(cfg, P.Init(cfg, clients), events).clients[who];
            && |got| <= |ws| && (forall i :: 0 <= i < |got| ==> FromFrame(c, got[i]) == Ok(ws[i]))
            && P.Increasing(client.shown + client.queue + Numbers(ws[..|got|], number))
  {
    hide Lawful, Sendable, Received, P.Run, P.Init, P.Snaps, P.Unread, Numbers;
    var s := P.Run(cfg, P.Init(cfg, clients), events);
    var client := s.clients[who];
    P.RunIsOrdered(cfg, clients, events);
    ReceivedIsAPrefix(c, ws, k, ending);
    var j := |Received(c, ws, k, ending)|;
    NumbersAreSnaps(P.Unread(s, client), ws, number);
    NumbersOfPrefix(ws, j, number);
    PrefixStaysIncreasing(client.shown + client.queue, Numbers(ws[..j], number), Numbers(ws, number));
  }

  lemma PrefixStaysIncreasing(front: seq<nat>, part: seq<nat>, whole: seq<nat>)
    requires part <= whole && P.Increasing(front + whole)
    ensures P.Increasing(front + part)
  {
    assert front + part == (front + whole)[..|front + part|];
  }

  /**
    Wherever a session's stream is cut, a snapshot or a heartbeat is decoded only if the
    configured token was presented, and only after a Welcome.
  */
  lemma NothingIsStreamedUnauthorized<S(!new)>(
    cfg: P.Config, clients: set<nat>, events: seq<P.Event>, id: nat,
    c: Codecs<S>, ws: seq<WireMessage<S>>, number: S -> nat, k: nat, ending: Ending, i: nat)
    requires Lawful(c)
    requires var s := P.Run(cfg, P.Init(cfg, clients), events);
             id in s.logs && Spells(s.logs[id], ws, number)
    requires Sendable(c, ws) && k <= |EncodeAll(Frames(c, ws))| && i < |Received(c, ws, k, ending)|
    ensures var s := P.Run(cfg, P.Init(cfg, clients), events);
            var got := Received(c, ws, k, ending);
            var m := FromFrame(c, got[i]);
            && m.Ok?
            && (m.value.Snapshot? || m.value.Heartbeat? ==>
                  && id in s.hellos && s.hellos[id] == cfg.token
                  && FromFrame(c, got[0]).Ok? && FromFrame(c, got[0]).value.Welcome?)
  {
    hide Lawful, Sendable, Received, FromFrame, P.Run, P.Init;
    var s := P.Run(cfg, P.Init(cfg, clients), events);
    P.HandshakeComesFirst(cfg, clients, events);
    assert P.SessionOk(cfg, s, id);
    ReceivedIsAPrefix(c, ws, k, ending);
    assert SpellsOne(s.logs[id][i], ws[i], number);
    assert SpellsOne(s.logs[id][0], ws[0], number);
  }
}
