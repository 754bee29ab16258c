/** The token comparison of the server and the reconnect delays of the client. */
module Session {
  import opened Basics

  // --------------------------------------------------------------------- token

  function ByteAt(s: seq<bv8>, i: nat): bv8 {
    if i < |s| then s[i] else 0
  }

  /** No early return on length or content, and still exactly equality. */
  method ConstantTimeEq(a: seq<bv8>, b: seq<bv8>) returns (eq: bool)
    ensures eq <==> a == b
  {
    var lenMatches := |a| == |b|;
    var maxLen := if |a| >= |b| then |a| else |b|;
    var diff: bv8 := 0;
    for i := 0 to maxLen
      invariant diff == 0 <==> forall k: nat :: k < i ==> ByteAt(a, k) == ByteAt(b, k)
    {
      var x, y := ByteAt(a, i), ByteAt(b, i);
      OrXorIsZero(diff, x, y);
      diff := diff | (x ^ y);
    }
    eq := diff == 0 && lenMatches;
    assert eq ==> forall k: nat :: k < |a| ==> a[k] == ByteAt(a, k) == ByteAt(b, k) == b[k];
  }

  lemma OrXorIsZero(diff: bv8, x: bv8, y: bv8)
    ensures diff | (x ^ y) == 0 <==> diff == 0 && x == y
  {
  }

  // ------------------------------------------------------------------- backoff

  const INITIAL_BACKOFF: nat := 1
  const MAX_BACKOFF: nat := 30

  datatype RemoteError = Io | Protocol | HandshakeTimeout | ConnectionClosed | ServerError(code: nat)

  function Pow2(n: nat): nat {
    if n == 0 then 1 else 2 * Pow2(n - 1)
  }

  /**
    Failures in a row since a connection last ended with end-of-stream. That includes
    a server which closes before its Welcome, so such a server resets the delay too.
  */
  function Streak(errors: seq<RemoteError>): nat {
    if errors == [] || errors[|errors| - 1] == ConnectionClosed then 0
    else 1 + Streak(errors[..|errors| - 1])
  }

  /** The first delay is a second; each failure doubles it up to half a minute, and an end-of-stream starts over. */
  lemma DelaysDouble(errors: seq<RemoteError>, i: nat)
    requires i < |errors|
    ensures Min(Pow2(Streak(errors[..0])), MAX_BACKOFF) == 1
    ensures Min(Pow2(Streak(errors[..i + 1])), MAX_BACKOFF) ==
            if errors[i] == ConnectionClosed then 1 else Min(2 * Min(Pow2(Streak(errors[..i])), MAX_BACKOFF), 30)
  {
    assert errors[..i + 1][..i] == errors[..i];
  }

  /**
    The sleeps of the reconnect loop, in seconds. The delay before a retry depends
    on the errors before the current one: an end-of-stream resets the delay only
    after its own sleep.
  */
  method ReconnectDelays(errors: seq<RemoteError>) returns (delays: seq<nat>)
    ensures |delays| == |errors|
    ensures forall i :: 0 <= i < |errors| ==> delays[i] == Min(Pow2(Streak(errors[..i])), MAX_BACKOFF)
  {
    var backoff := INITIAL_BACKOFF;
    delays := [];
    for i := 0 to |errors|
      invariant |delays| == i
      invariant backoff == Min(Pow2(Streak(errors[..i])), MAX_BACKOFF)
      invariant forall k :: 0 <= k < i ==> delays[k] == Min(Pow2(Streak(errors[..k])), MAX_BACKOFF)
    {
      delays := delays + [backoff];
      assert errors[..i + 1][..i] == errors[..i];
      if errors[i] == ConnectionClosed {
        backoff := INITIAL_BACKOFF;
      } else {
        backoff := Min(backoff * 2, MAX_BACKOFF);
      }
    }
  }
}
