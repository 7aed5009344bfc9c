/**
  How a client cuts the bytes it receives into packets. Reads may end anywhere, so the
  question is whether the packets depend on where they end.
*/
module Framing {

  type byte = x: int | 0 <= x < 256

  const MAX_PACKET_LENGTH := 32768
  const HEADER := 3

  /** The length field at the front of a packet, low byte first. It counts the header too. */
  function LengthField(b: seq<byte>): nat
    requires |b| >= 2
  {
    b[0] as int + 256 * b[1] as int
  }

  /**
    The packets executed, and the bytes kept for later. A packet longer than the array it
    is copied to is an overrun: what happens from there on is not defined, and the model stops.
  */
  datatype Drained = Drained(packets: seq<seq<byte>>, rest: seq<byte>, overrun: bool)

  /** Everything that can be done with the bytes in the buffer. A length below three empties it. */
  function Drain(b: seq<byte>): Drained
    decreases |b|
  {
    if |b| < HEADER || LengthField(b) > |b| then
      Drained([], b, false)
    else if LengthField(b) < HEADER then
      Drained([], [], false)
    else if LengthField(b) > MAX_PACKET_LENGTH then
      Drained([], [], true)
    else
      var n := LengthField(b);
      Behind([b[..n]], Drain(b[n..]))
  }

  function Behind(packets: seq<seq<byte>>, later: Drained): Drained {
    Drained(packets + later.packets, later.rest, later.overrun)
  }

  /** The bytes from a malformed length field to the end of the buffer, if one is met. */
  function Jam(b: seq<byte>): nat
    decreases |b|
  {
    if |b| < HEADER || LengthField(b) > |b| || LengthField(b) > MAX_PACKET_LENGTH then
      0
    else if LengthField(b) < HEADER then
      |b|
    else
      Jam(b[LengthField(b)..])
  }

  class Client {
    var remaining: seq<byte>
    var executed: seq<seq<byte>>
    var overrun: bool  // no field of the source: it marks where the model stops

    constructor ()
      ensures remaining == [] && executed == [] && !overrun
    {
      remaining, executed, overrun := [], [], false;
    }

    function State(): Drained
      reads this
    {
      Drained(executed, remaining, overrun)
    }

    /** A successful read. */
    method OnNewMessage(chunk: seq<byte>)
      requires !overrun
      modifies this
      ensures State() == Behind(old(executed), Drain(old(remaining) + chunk))
    {
      remaining := remaining + chunk;
      ghost var all := Behind(executed, Drain(remaining));
      while true
        invariant !overrun && Behind(executed, Drain(remaining)) == all
        decreases |remaining|
      {
        if |remaining| < HEADER {
          break;
        }
        var packetSize := LengthField(remaining);
        if packetSize > |remaining| {
          break;
        }
        if packetSize < HEADER {
          remaining := [];
          return;
        }
        if packetSize > MAX_PACKET_LENGTH {
          remaining, overrun := [], true;
          return;
        }
        assert executed + ([remaining[..packetSize]] + Drain(remaining[packetSize..]).packets)
            == (executed + [remaining[..packetSize]]) + Drain(remaining[packetSize..]).packets;
        executed := executed + [remaining[..packetSize]];
        remaining := remaining[packetSize..];
        if |remaining| == 0 {
          break;
        }
      }
    }
  }

  // ------------------------------------------------------------------ chunks

  function Concat(chunks: seq<seq<byte>>): seq<byte> {
    if chunks == [] then [] else chunks[0] + Concat(chunks[1..])
  }

  /** One read after the other, from a buffer that holds `b`. */
  function Feed(b: seq<byte>, chunks: seq<seq<byte>>): Drained
    decreases |chunks|
  {
    if chunks == [] then
      Drained([], b, false)
    else
      var now := Drain(b + chunks[0]);
      if now.overrun then now else Behind(now.packets, Feed(now.rest, chunks[1..]))
  }

  /** A client that receives these reads. */
  method Receive(client: Client, chunks: seq<seq<byte>>)
    requires !client.overrun
    modifies client
    ensures client.State() == Behind(old(client.executed), Feed(old(client.remaining), chunks))
  {
    ghost var all := Behind(client.executed, Feed(client.remaining, chunks));
    for n := 0 to |chunks|
      invariant !client.overrun && Behind(client.executed, Feed(client.remaining, chunks[n..])) == all
    {
      assert chunks[n..][1..] == chunks[n + 1..];
      ghost var before, now := client.executed, Drain(client.remaining + chunks[n]);
      client.OnNewMessage(chunks[n]);
      if client.overrun {
        return;
      }
      BehindBehind(before, now.packets, Feed(now.rest, chunks[n + 1..]));
    }
    assert client.executed + [] == client.executed;
  }

  lemma BehindBehind(a: seq<seq<byte>>, b: seq<seq<byte>>, later: Drained)
    ensures Behind(a, Behind(b, later)) == Behind(a + b, later)
  {
    assert a + (b + later.packets) == (a + b) + later.packets;
  }


  lemma FrontOf(a: seq<byte>, c: seq<byte>, n: nat)
    requires n <= |a|
    ensures (a + c)[n..] == a[n..] + c && (a + c)[..n] == a[..n]
    ensures |a| >= 2 ==> LengthField(a + c) == LengthField(a)
  {
  }

  /** What more bytes add, when no malformed length was met before them. */
  lemma {:induction false} DrainGoesOn(a: seq<byte>, c: seq<byte>)
    requires Jam(a) == 0
    ensures Drain(a + c) == if Drain(a).overrun then Drain(a) else Behind(Drain(a).packets, Drain(Drain(a).rest + c))
    ensures Jam(a + c) == if Drain(a).overrun then 0 else Jam(Drain(a).rest + c)
    decreases |a|
  {
    if |a| >= HEADER && LengthField(a) <= |a| {
      var n := LengthField(a);
      FrontOf(a, c, n);
      if n <= MAX_PACKET_LENGTH {
        DrainGoesOn(a[n..], c);
        BehindBehind([a[..n]], Drain(a[n..]).packets, Drain(Drain(a[n..]).rest + c));
      }
    } else {
      assert Drain(a).packets + Drain(a + c).packets == Drain(a + c).packets;
    }
  }

  /** Behind a malformed length everything is lost. */
  lemma {:induction false} JamSwallows(a: seq<byte>, c: seq<byte>)
    requires Jam(a) > 0
    ensures Jam(a) >= HEADER && Drain(a).rest == [] && !Drain(a).overrun
    ensures Drain(a + c) == Drain(a) && Jam(a + c) == Jam(a) + |c|
    decreases |a|
  {
    var n := LengthField(a);
    if n >= HEADER {
      FrontOf(a, c, n);
      JamSwallows(a[n..], c);
    }
  }

  /** What is kept would not be touched by draining it again. */
  lemma {:induction false} RestIsSettled(b: seq<byte>)
    ensures Drain(Drain(b).rest) == Drained([], Drain(b).rest, false) && Jam(Drain(b).rest) == 0
    decreases |b|
  {
    if |b| >= HEADER && HEADER <= LengthField(b) <= |b| && LengthField(b) <= MAX_PACKET_LENGTH {
      RestIsSettled(b[LengthField(b)..]);
    }
  }

  lemma {:induction false} FeedIsDrain(b: seq<byte>, chunks: seq<seq<byte>>)
    requires Drain(b) == Drained([], b, false) && Jam(b) == 0
    requires Jam(b + Concat(chunks)) <= HEADER
    ensures Feed(b, chunks) == Drain(b + Concat(chunks))
    decreases |chunks|
  {
    if chunks == [] {
      assert b + Concat(chunks) == b;
    } else {
      var a, c := b + chunks[0], Concat(chunks[1..]);
      assert b + Concat(chunks) == a + c;
      RestIsSettled(a);
      if Jam(a) == 0 {
        DrainGoesOn(a, c);
      } else {
        JamSwallows(a, c);
        assert Drain(a).rest + c == [];
      }
      if !Drain(a).overrun {
        FeedIsDrain(Drain(a).rest, chunks[1..]);
        assert Jam(a) > 0 ==> Drain(a).packets + [] == Drain(a).packets;
      }
    }
  }

  lemma {:induction false} JamStartsEarly(s: seq<byte>)
    requires Jam(s) > HEADER
    ensures Jam(s[..|s| - 1]) > 0
    decreases |s|
  {
    var n := LengthField(s);
    var t := s[..|s| - 1];
    if n >= HEADER {
      JamStartsEarly(s[n..]);
      assert |s[n..]| >= HEADER;
      assert t[n..] == s[n..][..|s[n..]| - 1];
    }
  }

  lemma TwoChunks(a: seq<byte>, c: seq<byte>)
    requires !Drain(a).overrun
    ensures Concat([a, c]) == a + c
    ensures Feed([], [a, c]).rest == Drain(Drain(a).rest + c).rest
  {
    assert [a, c][1..] == [c];
    assert Concat([c]) == c + Concat([]) == c;
    assert [] + a == a;
    var now := Drain(Drain(a).rest + c);
    assert Feed(now.rest, []) == Drained([], now.rest, false);
    assert [c][1..] == [] && Feed(Drain(a).rest, [c]) == if now.overrun then now else Behind(now.packets, Feed(now.rest, []));
  }

  /**
    The packets and the bytes kept do not depend on how the stream is cut into reads
    exactly when no malformed length is met, or nothing follows its header; and so does
    whether there is an overrun.
  */
  lemma ChunkingDoesNotMatterIff(s: seq<byte>)
    ensures (forall chunks :: Concat(chunks) == s ==> Feed([], chunks) == Drain(s)) <==> Jam(s) <= HEADER
  {
    if Jam(s) <= HEADER {
      forall chunks | Concat(chunks) == s ensures Feed([], chunks) == Drain(s) {
        assert [] + s == s;
        FeedIsDrain([], chunks);
      }
    } else {
      var a, c := s[..|s| - 1], s[|s| - 1..];
      var chunks := [a, c];
      assert s == a + c;
      JamStartsEarly(s);
      JamSwallows(a, c);
      TwoChunks(a, c);
    }
  }

  // ------------------------------------------------------ well-formed streams

  predicate WellFormed(p: seq<byte>) {
    HEADER <= |p| <= MAX_PACKET_LENGTH && LengthField(p) == |p|
  }

  lemma PacketDrainsFirst(p: seq<byte>, s: seq<byte>)
    requires WellFormed(p)
    ensures Drain(p + s) == Behind([p], Drain(s)) && Jam(p + s) == Jam(s)
  {
    FrontOf(p, s, |p|);
    assert p[..|p|] == p && p[|p|..] + s == s;
  }

  lemma ConcatFirst(packets: seq<seq<byte>>, rest: seq<byte>)
    requires packets != []
    ensures Concat(packets) + rest == packets[0] + (Concat(packets[1..]) + rest)
  {
  }

  lemma {:induction false} WellFormedDrains(packets: seq<seq<byte>>, rest: seq<byte>)
    requires forall p <- packets :: WellFormed(p)
    requires |rest| < HEADER || |rest| < LengthField(rest)
    ensures Drain(Concat(packets) + rest) == Drained(packets, rest, false)
    ensures Jam(Concat(packets) + rest) == 0
    decreases |packets|
  {
    if packets == [] {
      assert Concat(packets) + rest == rest;
    } else {
      hide Drain, Jam, WellFormed, Concat;
      var p, s := packets[0], Concat(packets[1..]) + rest;
      WellFormedDrains(packets[1..], rest);
      PacketDrainsFirst(p, s);
      ConcatFirst(packets, rest);
      assert [p] + packets[1..] == packets;
    }
  }

  /** Well-formed packets and the beginning of another: every cut executes them, in order, and keeps the rest. */
  lemma StreamIsExecuted(packets: seq<seq<byte>>, rest: seq<byte>, chunks: seq<seq<byte>>)
    requires forall p <- packets :: WellFormed(p)
    requires |rest| < HEADER || |rest| < LengthField(rest)
    requires Concat(chunks) == Concat(packets) + rest
    ensures Feed([], chunks) == Drained(packets, rest, false)
  {
    WellFormedDrains(packets, rest);
    ChunkingDoesNotMatterIff(Concat(chunks));
  }

  /** A complete packet that does not fit into its array. */
  predicate Oversized(s: seq<byte>) {
    |s| >= HEADER && MAX_PACKET_LENGTH < LengthField(s) <= |s|
  }

  /** Every packet executed is well-formed, and there is an overrun exactly when an oversized one comes next. */
  lemma {:induction false} OverrunIff(b: seq<byte>)
    ensures forall p <- Drain(b).packets :: WellFormed(p)
    ensures Concat(Drain(b).packets) <= b
    ensures Drain(b).overrun <==> Oversized(b[|Concat(Drain(b).packets)|..])
    decreases |b|
  {
    if |b| >= HEADER && HEADER <= LengthField(b) <= |b| && LengthField(b) <= MAX_PACKET_LENGTH {
      var n := LengthField(b);
      var later := Drain(b[n..]);
      OverrunIff(b[n..]);
      assert b == b[..n] + b[n..];
      assert Drain(b).packets[0] == b[..n] && Drain(b).packets[1..] == later.packets;
      assert b[|Concat(Drain(b).packets)|..] == b[n..][|Concat(later.packets)|..];
    } else {
      assert b[0..] == b;
    }
  }
}
