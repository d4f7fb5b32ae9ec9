/**
 * The receive path (`virtio_net_notify`): when the Ethernet driver component
 * signals that packets are waiting, each one is fetched from the driver's
 * shared buffer and, if the ring emulation can hand out a receive buffer of
 * the packet's length, copied into it and completed to the guest. A packet
 * for which no receive buffer is available is dropped; the loop goes on
 * until the driver reports the last packet.
 *
 * The driver is modelled as a queue of pending packets, which fixes the
 * meaning of its status codes: 1 (a packet, more follow), 0 (the last
 * packet) and -1 (nothing was received). The ring emulation's answers come
 * from an oracle, and every call it receives is recorded in a log.
 */
module Receive {
  import opened Types

  /** A packet delivered by the Ethernet driver component. */
  type Packet = seq<Byte>

  /** `ethdriver_rx` status: no packet was received. */
  const RxNone: int := -1
  /** `ethdriver_rx` status: a packet was received and it was the last one. */
  const RxLast: int := 0
  /** `ethdriver_rx` status: a packet was received and more are waiting. */
  const RxMore: int := 1

  /** The Ethernet driver component with its shared packet buffer. */
  class EthDriver {
    /** Packets waiting in the driver, oldest first. */
    var pending: seq<Packet>
    /** The contents of the shared dataport `ethdriver_buf`. */
    var buf: Packet
    /** How many times `ethdriver_rx` was called. */
    var rxCalls: nat

    constructor (pending: seq<Packet>)
      ensures this.pending == pending && buf == [] && rxCalls == 0
    {
      this.pending := pending;
      buf := [];
      rxCalls := 0;
    }

    /**
     * `ethdriver_rx`: moves the oldest pending packet into the shared buffer
     * and returns its length, with status 1 when more packets wait and 0 when
     * it was the last one; with nothing pending returns -1 and leaves the
     * buffer alone.
     */
    method Rx() returns (status: int, len: int)
      modifies this
      ensures rxCalls == old(rxCalls) + 1
      ensures old(pending) == [] ==>
        status == RxNone && len == 0 && pending == [] && buf == old(buf)
      ensures old(pending) != [] ==>
        buf == old(pending)[0] && len == |buf| && pending == old(pending)[1..] &&
        status == (if pending == [] then RxLast else RxMore)
    {
      rxCalls := rxCalls + 1;
      if pending == [] {
        return RxNone, 0;
      }
      buf := pending[0];
      pending := pending[1..];
      status := if pending == [] then RxLast else RxMore;
      len := |buf|;
    }
  }

  /** A call received by the ring emulation's receive side. */
  datatype RingEvent =
    | AllocRxBuf(len: int)
    | RxComplete(count: nat, len: int, data: Packet)

  /**
   * How the ring emulation answers an `allocate_rx_buf` request, given the
   * calls it has received so far and the requested length: whether a buffer
   * (a descriptor of the guest's receive queue) was available.
   */
  type Grant = (seq<RingEvent>, int) -> bool

  /** The receive callbacks of the ring emulation (`i_cb`). */
  class RxRing {
    const grant: Grant
    /** The queue size the emulation was initialised with. */
    const queueSize: nat
    /** Every call received, in order. */
    var log: seq<RingEvent>

    constructor (grant: Grant, queueSize: nat)
      ensures this.grant == grant && this.queueSize == queueSize && log == []
    {
      this.grant := grant;
      this.queueSize := queueSize;
      log := [];
    }

    /** `allocate_rx_buf`: false stands for a NULL buffer. */
    method AllocateRxBuf(len: int) returns (ok: bool)
      modifies this
      ensures ok == grant(old(log), len)
      ensures log == old(log) + [AllocRxBuf(len)]
    {
      ok := grant(log, len);
      log := log + [AllocRxBuf(len)];
    }

    /** `rx_complete`: hands `count` filled buffers to the guest. */
    method Complete(count: nat, len: int, data: Packet)
      modifies this
      ensures log == old(log) + [RxComplete(count, len, data)]
    {
      log := log + [RxComplete(count, len, data)];
    }
  }

  /**
   * The ring calls for one packet after history `h`: a buffer request of the
   * packet's length and, when it is granted, the completion of that one
   * buffer holding the packet.
   */
  function PacketEvents(grant: Grant, h: seq<RingEvent>, p: Packet): seq<RingEvent> {
    [AllocRxBuf(|p|)] + (if grant(h, |p|) then [RxComplete(1, |p|, p)] else [])
  }

  /** The ring calls for a sequence of packets, packet after packet. */
  function Drain(grant: Grant, h: seq<RingEvent>, ps: seq<Packet>): seq<RingEvent>
    decreases |ps|
  {
    if ps == [] then []
    else
      var e := Drain(grant, h, ps[..|ps| - 1]);
      e + PacketEvents(grant, h + e, ps[|ps| - 1])
  }

  /** The lengths requested by the buffer requests among `es`, in order. */
  function Requests(es: seq<RingEvent>): seq<int> {
    if es == [] then []
    else (if es[0].AllocRxBuf? then [es[0].len] else []) + Requests(es[1..])
  }

  /** The packets handed to the guest by the completions among `es`, in order. */
  function Completed(es: seq<RingEvent>): seq<Packet> {
    if es == [] then []
    else (if es[0].RxComplete? then [es[0].data] else []) + Completed(es[1..])
  }

  /** The lengths of the packets, in order. */
  function Lengths(ps: seq<Packet>): (ls: seq<int>)
    ensures |ls| == |ps| && forall i :: 0 <= i < |ps| ==> ls[i] == |ps[i]|
  {
    if ps == [] then [] else Lengths(ps[..|ps| - 1]) + [|ps[|ps| - 1]|]
  }

  lemma {:induction false} RequestsAppend(a: seq<RingEvent>, b: seq<RingEvent>)
    ensures Requests(a + b) == Requests(a) + Requests(b)
  {
    if a == [] {
      assert a + b == b;
    } else {
      assert (a + b)[0] == a[0];
      assert (a + b)[1..] == a[1..] + b;
      RequestsAppend(a[1..], b);
    }
  }

  lemma {:induction false} CompletedAppend(a: seq<RingEvent>, b: seq<RingEvent>)
    ensures Completed(a + b) == Completed(a) + Completed(b)
  {
    if a == [] {
      assert a + b == b;
    } else {
      assert (a + b)[0] == a[0];
      assert (a + b)[1..] == a[1..] + b;
      CompletedAppend(a[1..], b);
    }
  }

  lemma PacketEventsShape(grant: Grant, h: seq<RingEvent>, p: Packet)
    ensures Requests(PacketEvents(grant, h, p)) == [|p|]
    ensures Completed(PacketEvents(grant, h, p)) == if grant(h, |p|) then [p] else []
  {
    var a := [AllocRxBuf(|p|)];
    var c: seq<RingEvent> := if grant(h, |p|) then [RxComplete(1, |p|, p)] else [];
    assert a[1..] == [];
    assert Requests(a) == [|p|] && Completed(a) == [];
    if c != [] {
      assert c[1..] == [];
    }
    assert Requests(c) == [] && Completed(c) == if grant(h, |p|) then [p] else [];
    RequestsAppend(a, c);
    CompletedAppend(a, c);
  }

  /**
   * The receive loop never stops early: it requests exactly one buffer per
   * packet, of that packet's length, in the order the driver delivered them,
   * whether or not earlier requests were granted.
   */
  lemma {:induction false} DrainRequestsEveryPacket(grant: Grant, h: seq<RingEvent>, ps: seq<Packet>)
    ensures Requests(Drain(grant, h, ps)) == Lengths(ps)
    decreases |ps|
  {
    if ps != [] {
      var front := ps[..|ps| - 1];
      var e := Drain(grant, h, front);
      DrainRequestsEveryPacket(grant, h, front);
      RequestsAppend(e, PacketEvents(grant, h + e, ps[|ps| - 1]));
      PacketEventsShape(grant, h + e, ps[|ps| - 1]);
    }
  }

  /**
   * Every completion in `d` hands over one buffer, immediately follows a
   * request of the same length, and carries a packet of that length.
   */
  predicate CompletionsFollowRequests(d: seq<RingEvent>) {
    forall k :: 0 <= k < |d| && d[k].RxComplete? ==>
      0 < k && d[k - 1] == AllocRxBuf(d[k].len) && d[k].count == 1 && |d[k].data| == d[k].len
  }

  /**
   * Every request in `d`, made after history `h`, is followed by a
   * completion exactly when the ring granted it.
   */
  predicate RequestsAnswered(grant: Grant, h: seq<RingEvent>, d: seq<RingEvent>) {
    forall k :: 0 <= k < |d| && d[k].AllocRxBuf? ==>
      ((k + 1 < |d| && d[k + 1].RxComplete?) <==> grant(h + d[..k], d[k].len))
  }

  /**
   * Buffer requests and completions pair up: a completion always follows
   * the request it answers, and a request is answered exactly when the ring
   * granted it, given the calls made before it.
   */
  lemma {:induction false} DrainPairs(grant: Grant, h: seq<RingEvent>, ps: seq<Packet>)
    ensures CompletionsFollowRequests(Drain(grant, h, ps))
    ensures RequestsAnswered(grant, h, Drain(grant, h, ps))
    decreases |ps|
  {
    if ps != [] {
      var front := ps[..|ps| - 1];
      var p := ps[|ps| - 1];
      var e := Drain(grant, h, front);
      var pe := PacketEvents(grant, h + e, p);
      var d := e + pe;
      assert d == Drain(grant, h, ps);
      DrainPairs(grant, h, front);
      forall k | 0 <= k < |d| && d[k].RxComplete?
        ensures 0 < k && d[k - 1] == AllocRxBuf(d[k].len) && d[k].count == 1 && |d[k].data| == d[k].len
      {
        if k < |e| {
          assert d[k] == e[k];
          assert d[k - 1] == e[k - 1];
        } else {
          assert d[|e|] == pe[0] == AllocRxBuf(|p|);
          assert k == |e| + 1 && |pe| == 2 && d[k] == pe[1] == RxComplete(1, |p|, p);
        }
      }
      forall k | 0 <= k < |d| && d[k].AllocRxBuf?
        ensures (k + 1 < |d| && d[k + 1].RxComplete?) <==> grant(h + d[..k], d[k].len)
      {
        if k < |e| {
          assert d[k] == e[k];
          assert d[..k] == e[..k];
          if k + 1 < |e| {
            assert d[k + 1] == e[k + 1];
          } else {
            assert d[k + 1] == pe[0];
          }
        } else {
          assert k == |e| && d[..k] == e && d[k] == AllocRxBuf(|p|);
          if grant(h + e, |p|) {
            assert d[k + 1] == pe[1];
          } else {
            assert |d| == k + 1;
          }
        }
      }
    }
  }

  /** When the ring grants every request, every packet reaches the guest, in order. */
  lemma {:induction false} DrainDeliversAll(grant: Grant, h: seq<RingEvent>, ps: seq<Packet>)
    requires forall g, len :: grant(g, len)
    ensures Completed(Drain(grant, h, ps)) == ps
    decreases |ps|
  {
    if ps != [] {
      var front := ps[..|ps| - 1];
      var e := Drain(grant, h, front);
      DrainDeliversAll(grant, h, front);
      CompletedAppend(e, PacketEvents(grant, h + e, ps[|ps| - 1]));
      PacketEventsShape(grant, h + e, ps[|ps| - 1]);
      assert front + [ps[|ps| - 1]] == ps;
    }
  }

  /**
   * `a` is a subsequence of `b`: `a` can be obtained from `b` by leaving out
   * some of its elements, keeping the order of the rest.
   */
  predicate Subsequence(a: seq<Packet>, b: seq<Packet>)
    decreases |b|
  {
    a == [] ||
    (b != [] &&
     (Subsequence(a, b[..|b| - 1]) ||
      (a[|a| - 1] == b[|b| - 1] && Subsequence(a[..|a| - 1], b[..|b| - 1]))))
  }

  /**
   * Which packet each completion carries: handling packet `k` adds packet
   * `k` itself to the packets handed to the guest when the ring grants its
   * request, given the calls made for the packets before it, and adds
   * nothing when the ring refuses it.
   */
  lemma DrainCompletesGranted(grant: Grant, h: seq<RingEvent>, ps: seq<Packet>, k: nat)
    requires k < |ps|
    ensures var e := Drain(grant, h, ps[..k]);
      Completed(Drain(grant, h, ps[..k + 1])) ==
        Completed(e) + (if grant(h + e, |ps[k]|) then [ps[k]] else [])
  {
    var e := Drain(grant, h, ps[..k]);
    assert ps[..k + 1][..k] == ps[..k];
    CompletedAppend(e, PacketEvents(grant, h + e, ps[k]));
    PacketEventsShape(grant, h + e, ps[k]);
  }

  /**
   * Whatever the ring answers, only driver packets reach the guest, in the
   * driver's order, each at most once: the completed packets are a
   * subsequence of the packets.
   */
  lemma {:induction false} DrainDeliversSubsequence(grant: Grant, h: seq<RingEvent>, ps: seq<Packet>)
    ensures Subsequence(Completed(Drain(grant, h, ps)), ps)
    ensures |Completed(Drain(grant, h, ps))| <= |ps|
    ensures forall q :: q in Completed(Drain(grant, h, ps)) ==> q in ps
    decreases |ps|
  {
    if ps != [] {
      var front := ps[..|ps| - 1];
      var p := ps[|ps| - 1];
      var e := Drain(grant, h, front);
      var done := Completed(e);
      DrainDeliversSubsequence(grant, h, front);
      CompletedAppend(e, PacketEvents(grant, h + e, p));
      PacketEventsShape(grant, h + e, p);
      if grant(h + e, |p|) {
        assert (done + [p])[..|done|] == done;
        assert Subsequence(done + [p], ps);
      } else {
        assert done + [] == done;
        assert done != [] ==> Subsequence(done, ps);
      }
      forall q | q in done ensures q in ps {
        var i :| 0 <= i < |front| && front[i] == q;
        assert ps[i] == q;
      }
    }
  }

  /** The ring calls for the first `k + 1` packets extend those for the first `k`. */
  lemma DrainStep(grant: Grant, h: seq<RingEvent>, ps: seq<Packet>, k: nat)
    requires k < |ps|
    ensures h + Drain(grant, h, ps[..k + 1]) ==
      (h + Drain(grant, h, ps[..k])) + PacketEvents(grant, h + Drain(grant, h, ps[..k]), ps[k])
  {
    assert ps[..k + 1][..k] == ps[..k];
  }

  /**
   * `virtio_net_notify`: fetches packets from the driver until it reports
   * the last one (or none), offering each to the ring emulation. The driver
   * ends up empty; it was asked once per packet, or once when it had none;
   * and the ring received exactly the calls `Drain` lists for the packets.
   */
  method Notify(drv: EthDriver, ring: RxRing)
    modifies drv, ring
    ensures drv.pending == []
    ensures drv.rxCalls == old(drv.rxCalls) + (if old(drv.pending) == [] then 1 else |old(drv.pending)|)
    ensures ring.log == old(ring.log) + Drain(ring.grant, old(ring.log), old(drv.pending))
  {
    ghost var ps := drv.pending;
    ghost var h := ring.log;
    ghost var c0 := drv.rxCalls;
    ghost var k: nat := 0;
    assert h + [] == h;
    var status, len := drv.Rx();
    while status != RxNone
      invariant k <= |ps|
      invariant ring.log == h + Drain(ring.grant, h, ps[..k])
      invariant status == RxNone ==> k == |ps| && drv.pending == []
      invariant status != RxNone ==>
        k < |ps| && drv.buf == ps[k] && len == |ps[k]| && drv.pending == ps[k + 1..] &&
        status == (if k + 1 == |ps| then RxLast else RxMore)
      invariant drv.rxCalls == c0 + (if ps == [] then 1 else if status == RxNone then k else k + 1)
      decreases |ps| - k + (if status == RxNone then 0 else 1)
    {
      ghost var e := ring.log;
      var ok := ring.AllocateRxBuf(len);
      if ok {
        // copy the packet out of the shared buffer and complete it
        ring.Complete(1, len, drv.buf[..len]);
        assert drv.buf[..len] == ps[k];
      }
      assert ring.log == e + PacketEvents(ring.grant, e, ps[k]);
      DrainStep(ring.grant, h, ps, k);
      if status == RxMore {
        status, len := drv.Rx();
      } else {
        // status 0: that was the last packet
        assert status == RxLast;
        status := RxNone;
      }
      k := k + 1;
    }
    assert ps[..k] == ps;
  }
}
