/**
 * The transmit path (`emul_raw_tx`): every frame the guest hands over is sent
 * to the fabric nodes its destination MAC address names -- all connected
 * nodes for the broadcast address, the single looked-up node otherwise. For
 * each live destination the path allocates a buffer of the frame's length,
 * writes the frame, and signals the node. The first refused call, or a
 * unicast address the fabric does not know, ends the whole call with
 * TX_FAILED; NULL node slots are skipped.
 *
 * The specification is split in two: `Plan` lists the steps the path would
 * take if every fabric call succeeded, and `Run` executes a plan against the
 * fabric's answers, stopping at the first failure. `RawTx`, written as the
 * source's nested loops, is proved to perform exactly `Run` of `Plan`.
 */
module Transmit {
  import opened Types
  import opened VlanFabric

  /** ETHIF_TX_COMPLETE and ETHIF_TX_FAILED. */
  datatype TxStatus = TxComplete | TxFailed

  /** One planned step: a fabric call, or the drop of an unreachable unicast frame. */
  datatype Step = Do(call: Call) | Stop

  /** The verdict of a transmit attempt and the fabric calls it made. */
  datatype TxRun = TxRun(status: TxStatus, calls: seq<Call>)

  /** The node indices one frame is sent to: `count` indices from `start`, or none reachable. */
  datatype Targets = Unreachable | Span(start: int, count: nat)

  /** The destination address: the first member of an Ethernet frame. */
  function DestAddr(frame: Frame): MacAddr {
    frame[..MacLen]
  }

  predicate IsBroadcast(m: MacAddr) {
    m == BroadcastAddr
  }

  /** Index `j` is one of the targets. */
  predicate InSpan(t: Targets, j: int) {
    t.Span? && t.start <= j < t.start + t.count
  }

  /**
   * The loop bounds chosen for a destination: broadcast addresses every index
   * below `n_connected`, a known unicast address exactly its looked-up index,
   * and an unknown unicast address nothing.
   */
  function Resolve(vlan: Vlan, dest: MacAddr): Targets {
    if IsBroadcast(dest) then Span(0, vlan.nConnected)
    else if vlan.IndexOf(dest) < 0 then Unreachable
    else Span(vlan.IndexOf(dest), 1)
  }

  /**
   * The destination set: a broadcast frame targets every index below
   * `n_connected`, a known unicast address exactly its looked-up index, and
   * a unicast address missing from the index table nothing at all.
   */
  lemma ResolveTargets(vlan: Vlan, dest: MacAddr, j: int)
    ensures Resolve(vlan, dest).Unreachable? <==> !IsBroadcast(dest) && vlan.IndexOf(dest) < 0
    ensures InSpan(Resolve(vlan, dest), j) <==>
      if IsBroadcast(dest) then 0 <= j < vlan.nConnected
      else 0 <= vlan.IndexOf(dest) == j
  {
  }

  /** The three calls that deliver a frame to one node, in the order the source makes them. */
  function Legs(node: NodeId, frame: Frame): seq<Step> {
    [Do(Alloc(node, |frame|)), Do(Write(node, frame)), Do(Signal(node))]
  }

  /** The steps for the destination at index `j`: none for a NULL slot. */
  function DestPlan(vlan: Vlan, frame: Frame, j: int): seq<Step> {
    match vlan.NodeAt(j)
    case None => []
    case Some(node) => Legs(node, frame)
  }

  /** The steps for the indices `lo .. hi-1`, in increasing order. */
  function SpanPlan(vlan: Vlan, frame: Frame, lo: int, hi: int): seq<Step>
    decreases hi - lo
  {
    if hi <= lo then []
    else SpanPlan(vlan, frame, lo, hi - 1) + DestPlan(vlan, frame, hi - 1)
  }

  /** The steps for one frame. */
  function FramePlan(vlan: Vlan, frame: Frame): seq<Step> {
    match Resolve(vlan, DestAddr(frame))
    case Unreachable => [Stop]
    case Span(s, c) => SpanPlan(vlan, frame, s, s + c)
  }

  /** The steps for a batch of frames, frame after frame. */
  function Plan(vlan: Vlan, frames: seq<Frame>): seq<Step> {
    if frames == [] then []
    else Plan(vlan, frames[..|frames| - 1]) + FramePlan(vlan, frames[|frames| - 1])
  }

  /** The fabric calls of a plan, ignoring drops. */
  function Calls(p: seq<Step>): seq<Call> {
    if p == [] then []
    else (if p[0].Do? then [p[0].call] else []) + Calls(p[1..])
  }

  /** Every call of `cs`, made after history `h`, is accepted by the fabric. */
  predicate AllOk(fate: Fate, h: seq<Call>, cs: seq<Call>)
    decreases |cs|
  {
    cs == [] || (fate(h, cs[0]) && AllOk(fate, h + [cs[0]], cs[1..]))
  }

  /**
   * Executes a plan after history `h`: each call is made in turn; a refused
   * call is the last one made, and a drop ends the run without a call.
   */
  function Run(fate: Fate, h: seq<Call>, p: seq<Step>): TxRun
    decreases |p|
  {
    if p == [] then TxRun(TxComplete, [])
    else match p[0]
      case Stop => TxRun(TxFailed, [])
      case Do(c) =>
        if !fate(h, c) then TxRun(TxFailed, [c])
        else
          var r := Run(fate, h + [c], p[1..]);
          TxRun(r.status, [c] + r.calls)
  }

  // ---------------------------------------------------------------------
  // Structure of plans and runs
  // ---------------------------------------------------------------------

  lemma {:induction false} CallsAppend(a: seq<Step>, b: seq<Step>)
    ensures Calls(a + b) == Calls(a) + Calls(b)
  {
    if a == [] {
      assert a + b == b;
    } else {
      assert (a + b)[0] == a[0];
      assert (a + b)[1..] == a[1..] + b;
      CallsAppend(a[1..], b);
    }
  }

  /**
   * Running `a + b` runs `a` first; if `a` fails, nothing of `b` is attempted,
   * otherwise `b` runs after `a`'s calls and the calls of `a` stay in place.
   */
  lemma {:induction false} RunAppend(fate: Fate, h: seq<Call>, a: seq<Step>, b: seq<Step>)
    ensures var ra := Run(fate, h, a);
      Run(fate, h, a + b) ==
        if ra.status == TxFailed then ra
        else
          var rb := Run(fate, h + ra.calls, b);
          TxRun(rb.status, ra.calls + rb.calls)
    decreases |a|
  {
    if a == [] {
      assert a + b == b;
      assert h + [] == h;
    } else {
      assert (a + b)[0] == a[0];
      assert (a + b)[1..] == a[1..] + b;
      match a[0]
      case Stop =>
      case Do(c) =>
        if fate(h, c) {
          RunAppend(fate, h + [c], a[1..], b);
          var r' := Run(fate, h + [c], a[1..]);
          assert h + [c] + r'.calls == h + ([c] + r'.calls);
          assert [c] + r'.calls + Run(fate, h + [c] + r'.calls, b).calls
              == [c] + (r'.calls + Run(fate, h + [c] + r'.calls, b).calls);
        }
    }
  }

  lemma {:induction false} AllOkAppend(fate: Fate, h: seq<Call>, a: seq<Call>, b: seq<Call>)
    ensures AllOk(fate, h, a + b) <==> AllOk(fate, h, a) && AllOk(fate, h + a, b)
    decreases |a|
  {
    if a == [] {
      assert a + b == b;
      assert h + a == h;
    } else {
      assert (a + b)[0] == a[0];
      assert (a + b)[1..] == a[1..] + b;
      AllOkAppend(fate, h + [a[0]], a[1..], b);
      assert h + [a[0]] + a[1..] == h + a;
    }
  }

  /**
   * A run completes exactly when the plan has no drop and the fabric accepts
   * every planned call; a completed run made all the planned calls.
   */
  lemma {:induction false} RunComplete(fate: Fate, h: seq<Call>, p: seq<Step>)
    ensures Run(fate, h, p).status == TxComplete <==> Stop !in p && AllOk(fate, h, Calls(p))
    ensures Run(fate, h, p).status == TxComplete ==> Run(fate, h, p).calls == Calls(p)
    decreases |p|
  {
    if p != [] {
      assert p == [p[0]] + p[1..];
      RunComplete(fate, h + (if p[0].Do? then [p[0].call] else []), p[1..]);
      if p[0].Do? {
        assert Calls(p) == [p[0].call] + Calls(p[1..]);
      }
    }
  }

  /** Whatever the outcome, the calls made are the first calls of the plan. */
  lemma {:induction false} RunCallsPrefix(fate: Fate, h: seq<Call>, p: seq<Step>)
    ensures Run(fate, h, p).calls <= Calls(p)
    decreases |p|
  {
    if p != [] {
      assert p == [p[0]] + p[1..];
      if p[0].Do? && fate(h, p[0].call) {
        RunCallsPrefix(fate, h + [p[0].call], p[1..]);
      }
    }
  }

  /** Every call of a run but the last one was accepted. */
  lemma {:induction false} RunAcceptedButLast(fate: Fate, h: seq<Call>, p: seq<Step>)
    ensures var cs := Run(fate, h, p).calls;
      cs != [] ==> AllOk(fate, h, cs[..|cs| - 1])
    decreases |p|
  {
    if p != [] && p[0].Do? {
      var c := p[0].call;
      if fate(h, c) {
        RunAcceptedButLast(fate, h + [c], p[1..]);
        var cs' := Run(fate, h + [c], p[1..]).calls;
        var cs := [c] + cs';
        if cs' != [] {
          assert cs[..|cs| - 1] == [c] + cs'[..|cs'| - 1];
          assert cs[..|cs| - 1][1..] == cs'[..|cs'| - 1];
        } else {
          assert cs[..|cs| - 1] == [];
        }
      } else {
        assert Run(fate, h, p).calls == [c];
        assert [c][..0] == [];
      }
    }
  }

  /** A failed run whose calls the fabric all accepted reached a drop. */
  lemma {:induction false} RunStopCause(fate: Fate, h: seq<Call>, p: seq<Step>)
    ensures var r := Run(fate, h, p);
      r.status == TxFailed && AllOk(fate, h, r.calls) ==> Stop in p
    decreases |p|
  {
    if p != [] {
      assert p == [p[0]] + p[1..];
      if p[0].Do? && fate(h, p[0].call) {
        var c := p[0].call;
        RunStopCause(fate, h + [c], p[1..]);
        var cs := [c] + Run(fate, h + [c], p[1..]).calls;
        assert cs[0] == c && cs[1..] == Run(fate, h + [c], p[1..]).calls;
      }
    }
  }

  /** A run some of whose calls were refused failed, and the refused call is its last. */
  lemma {:induction false} RunRefusedLast(fate: Fate, h: seq<Call>, p: seq<Step>)
    ensures var cs := Run(fate, h, p).calls;
      !AllOk(fate, h, cs) ==> Run(fate, h, p).status == TxFailed && !fate(h + cs[..|cs| - 1], cs[|cs| - 1])
    decreases |p|
  {
    if p != [] && p[0].Do? {
      var c := p[0].call;
      if fate(h, c) {
        RunRefusedLast(fate, h + [c], p[1..]);
        RefusedAfter(fate, h, c, Run(fate, h + [c], p[1..]).calls);
      } else {
        assert Run(fate, h, p).calls == [c];
        assert [c][..0] == [];
        assert h + [] == h;
      }
    }
  }

  lemma RefusedAfter(fate: Fate, h: seq<Call>, c: Call, cs': seq<Call>)
    requires fate(h, c)
    requires !AllOk(fate, h + [c], cs') ==> !fate(h + [c] + cs'[..|cs'| - 1], cs'[|cs'| - 1])
    ensures var cs := [c] + cs';
      !AllOk(fate, h, cs) ==> !fate(h + cs[..|cs| - 1], cs[|cs| - 1])
  {
    var cs := [c] + cs';
    assert cs[0] == c && cs[1..] == cs';
    assert AllOk(fate, h, cs) == AllOk(fate, h + [c], cs');
    if cs' != [] {
      assert cs[..|cs| - 1] == [c] + cs'[..|cs'| - 1];
      assert h + [c] + cs'[..|cs'| - 1] == h + cs[..|cs| - 1];
    }
  }

  // ---------------------------------------------------------------------
  // Structure of the plan
  // ---------------------------------------------------------------------

  lemma {:induction false} SpanSplit(vlan: Vlan, frame: Frame, lo: int, m: int, hi: int)
    requires lo <= m <= hi
    ensures SpanPlan(vlan, frame, lo, hi) == SpanPlan(vlan, frame, lo, m) + SpanPlan(vlan, frame, m, hi)
    decreases hi - m
  {
    if hi == m {
      assert SpanPlan(vlan, frame, m, hi) == [];
    } else {
      SpanSplit(vlan, frame, lo, m, hi - 1);
    }
  }

  /** A drop anywhere in a batch's plan comes from a frame with an unreachable destination. */
  lemma {:induction false} StopInPlan(vlan: Vlan, frames: seq<Frame>)
    ensures Stop in Plan(vlan, frames) <==>
      exists i :: 0 <= i < |frames| && Resolve(vlan, DestAddr(frames[i])).Unreachable?
  {
    if frames != [] {
      var n := |frames| - 1;
      var front := frames[..n];
      StopInPlan(vlan, front);
      SpanNoStop(vlan, frames[n]);
      assert forall i :: 0 <= i < n ==> front[i] == frames[i];
      if Stop in Plan(vlan, front) {
        var i :| 0 <= i < |front| && Resolve(vlan, DestAddr(front[i])).Unreachable?;
        assert frames[i] == front[i];
      }
    }
  }

  lemma SpanNoStop(vlan: Vlan, frame: Frame)
    ensures Resolve(vlan, DestAddr(frame)).Span? ==> Stop !in FramePlan(vlan, frame)
  {
    var t := Resolve(vlan, DestAddr(frame));
    if t.Span? {
      SpanHasNoStop(vlan, frame, t.start, t.start + t.count);
    }
  }

  lemma {:induction false} SpanHasNoStop(vlan: Vlan, frame: Frame, lo: int, hi: int)
    ensures Stop !in SpanPlan(vlan, frame, lo, hi)
    decreases hi - lo
  {
    if lo < hi {
      SpanHasNoStop(vlan, frame, lo, hi - 1);
    }
  }

  // ---------------------------------------------------------------------
  // Properties of the transmit specification
  // ---------------------------------------------------------------------

  /**
   * A NULL slot inside a span contributes no step, and the span goes on
   * with the next index.
   */
  lemma NullSlotSkipped(vlan: Vlan, frame: Frame, lo: int, j: int, hi: int)
    requires lo <= j < hi && vlan.NodeAt(j).None?
    ensures SpanPlan(vlan, frame, lo, hi) == SpanPlan(vlan, frame, lo, j) + SpanPlan(vlan, frame, j + 1, hi)
  {
    SpanSplit(vlan, frame, lo, j + 1, hi);
    assert SpanPlan(vlan, frame, lo, j + 1) == SpanPlan(vlan, frame, lo, j) + [];
  }

  /**
   * Per-destination order: within a span, a live destination's calls are its
   * allocation of the frame's length, then the write of the frame, then the
   * signal, right after the calls for the lower indices and before those for
   * the higher ones.
   */
  lemma DestinationInOrder(vlan: Vlan, frame: Frame, lo: int, j: int, hi: int, node: NodeId)
    requires lo <= j < hi && vlan.NodeAt(j) == Some(node)
    ensures Calls(SpanPlan(vlan, frame, lo, hi)) ==
      Calls(SpanPlan(vlan, frame, lo, j)) + [Alloc(node, |frame|), Write(node, frame), Signal(node)] +
      Calls(SpanPlan(vlan, frame, j + 1, hi))
  {
    var a, l, b := SpanPlan(vlan, frame, lo, j), Legs(node, frame), SpanPlan(vlan, frame, j + 1, hi);
    SpanSplit(vlan, frame, lo, j + 1, hi);
    assert SpanPlan(vlan, frame, lo, j + 1) == a + l;
    CallsAppend(a + l, b);
    CallsAppend(a, l);
    CallsLegs(node, frame);
  }

  lemma CallsLegs(node: NodeId, frame: Frame)
    ensures Calls(Legs(node, frame)) == [Alloc(node, |frame|), Write(node, frame), Signal(node)]
  {
    var l := Legs(node, frame);
    assert l[1..][1..][1..] == [];
    assert Calls(l[1..][1..]) == [Signal(node)];
    assert Calls(l[1..]) == [Write(node, frame), Signal(node)];
  }

  lemma CountLegs(at: NodeId, frame: Frame, node: NodeId)
    ensures var cs := Calls(Legs(at, frame));
      var n := if at == node then 1 else 0;
      Count(cs, Alloc(node, |frame|)) == n && Count(cs, Write(node, frame)) == n && Count(cs, Signal(node)) == n
  {
    CallsLegs(at, frame);
    CountThree(Alloc(at, |frame|), Write(at, frame), Signal(at), Alloc(node, |frame|));
    CountThree(Alloc(at, |frame|), Write(at, frame), Signal(at), Write(node, frame));
    CountThree(Alloc(at, |frame|), Write(at, frame), Signal(at), Signal(node));
  }

  lemma CountThree(x: Call, y: Call, z: Call, c: Call)
    ensures Count([x, y, z], c) == (if x == c then 1 else 0) + (if y == c then 1 else 0) + (if z == c then 1 else 0)
  {
    var cs := [x, y, z];
    assert cs[1..] == [y, z];
    assert [y, z][1..] == [z];
    assert [z][1..] == [];
    assert Count([z], c) == if z == c then 1 else 0;
    assert Count([y, z], c) == (if y == c then 1 else 0) + Count([z], c);
  }

  /** How often `c` occurs in `cs`. */
  function Count(cs: seq<Call>, c: Call): nat {
    if cs == [] then 0 else (if cs[0] == c then 1 else 0) + Count(cs[1..], c)
  }

  lemma {:induction false} CountAppend(a: seq<Call>, b: seq<Call>, c: Call)
    ensures Count(a + b, c) == Count(a, c) + Count(b, c)
  {
    if a == [] {
      assert a + b == b;
    } else {
      assert (a + b)[0] == a[0];
      assert (a + b)[1..] == a[1..] + b;
      CountAppend(a[1..], b, c);
    }
  }

  /** The indices in `lo .. hi-1` whose slot holds `node`. */
  function Hits(vlan: Vlan, lo: int, hi: int, node: NodeId): set<int> {
    set j | lo <= j < hi && vlan.NodeAt(j) == Some(node)
  }

  /**
   * Over a span, a node receives one allocation of the frame's length, one
   * write of the frame and one signal per index at which it sits (that no
   * other call is made is `SpanTargets`).
   */
  lemma {:induction false} SpanCounts(vlan: Vlan, frame: Frame, lo: int, hi: int, node: NodeId)
    ensures var cs := Calls(SpanPlan(vlan, frame, lo, hi));
      Count(cs, Alloc(node, |frame|)) == |Hits(vlan, lo, hi, node)| &&
      Count(cs, Write(node, frame)) == |Hits(vlan, lo, hi, node)| &&
      Count(cs, Signal(node)) == |Hits(vlan, lo, hi, node)|
    decreases hi - lo
  {
    if hi <= lo {
      assert Hits(vlan, lo, hi, node) == {};
    } else {
      var m := hi - 1;
      SpanCounts(vlan, frame, lo, m, node);
      var front := SpanPlan(vlan, frame, lo, m);
      var last := DestPlan(vlan, frame, m);
      CallsAppend(front, last);
      var cs := Calls(front) + Calls(last);
      CountAppend(Calls(front), Calls(last), Alloc(node, |frame|));
      CountAppend(Calls(front), Calls(last), Write(node, frame));
      CountAppend(Calls(front), Calls(last), Signal(node));
      if vlan.NodeAt(m).Some? {
        CountLegs(vlan.slots[m], frame, node);
      }
      if vlan.NodeAt(m) == Some(node) {
        assert Hits(vlan, lo, hi, node) == Hits(vlan, lo, m, node) + {m};
        assert m !in Hits(vlan, lo, m, node);
      } else {
        assert Hits(vlan, lo, hi, node) == Hits(vlan, lo, m, node);
      }
    }
  }

  /**
   * Every call made over a span goes to a node found at one of the span's
   * indices and is one of that node's three calls for this frame.
   */
  lemma {:induction false} SpanTargets(vlan: Vlan, frame: Frame, lo: int, hi: int)
    ensures forall c :: c in Calls(SpanPlan(vlan, frame, lo, hi)) ==>
      Hits(vlan, lo, hi, c.node) != {} &&
      (c == Alloc(c.node, |frame|) || c == Write(c.node, frame) || c == Signal(c.node))
    decreases hi - lo
  {
    if lo < hi {
      var m := hi - 1;
      SpanTargets(vlan, frame, lo, m);
      CallsAppend(SpanPlan(vlan, frame, lo, m), DestPlan(vlan, frame, m));
      if vlan.NodeAt(m).Some? {
        CallsLegs(vlan.slots[m], frame);
        assert m in Hits(vlan, lo, hi, vlan.slots[m]);
      }
      forall c | c in Calls(SpanPlan(vlan, frame, lo, m))
        ensures Hits(vlan, lo, hi, c.node) != {}
      {
        var k :| k in Hits(vlan, lo, m, c.node);
        assert k in Hits(vlan, lo, hi, c.node);
      }
    }
  }

  /**
   * Unicast exactness: a frame to a known unicast address addresses the node
   * at the looked-up index once, with an allocation, a write and a signal,
   * and no other node.
   */
  lemma UnicastExact(vlan: Vlan, frame: Frame, node: NodeId)
    requires !IsBroadcast(DestAddr(frame)) && vlan.IndexOf(DestAddr(frame)) >= 0
    ensures var cs := Calls(FramePlan(vlan, frame));
      var n := if vlan.NodeAt(vlan.IndexOf(DestAddr(frame))) == Some(node) then 1 else 0;
      Count(cs, Alloc(node, |frame|)) == n && Count(cs, Write(node, frame)) == n && Count(cs, Signal(node)) == n
    ensures forall c :: c in Calls(FramePlan(vlan, frame)) ==>
      vlan.NodeAt(vlan.IndexOf(DestAddr(frame))) == Some(c.node)
  {
    var idx := vlan.IndexOf(DestAddr(frame));
    assert FramePlan(vlan, frame) == SpanPlan(vlan, frame, idx, idx + 1);
    SpanCounts(vlan, frame, idx, idx + 1, node);
    HitsOne(vlan, idx, node);
    SpanTargets(vlan, frame, idx, idx + 1);
    forall c | c in Calls(SpanPlan(vlan, frame, idx, idx + 1))
      ensures vlan.NodeAt(idx) == Some(c.node)
    {
      HitsOne(vlan, idx, c.node);
    }
  }

  lemma HitsOne(vlan: Vlan, idx: int, node: NodeId)
    ensures Hits(vlan, idx, idx + 1, node) == if vlan.NodeAt(idx) == Some(node) then {idx} else {}
  {
  }

  /**
   * Broadcast fan-out completeness: when no node sits at two of the first
   * `n_connected` indices, a broadcast frame gives every node found at those
   * indices exactly one allocation, one write and one signal.
   */
  lemma BroadcastEachOnce(vlan: Vlan, frame: Frame, j: int)
    requires IsBroadcast(DestAddr(frame))
    requires forall a, b :: 0 <= a < b < vlan.nConnected && a in vlan.slots && b in vlan.slots ==>
      vlan.slots[a] != vlan.slots[b]
    requires 0 <= j < vlan.nConnected && j in vlan.slots
    ensures var cs := Calls(FramePlan(vlan, frame));
      var node := vlan.slots[j];
      Count(cs, Alloc(node, |frame|)) == 1 && Count(cs, Write(node, frame)) == 1 && Count(cs, Signal(node)) == 1
  {
    var node := vlan.slots[j];
    SpanCounts(vlan, frame, 0, vlan.nConnected, node);
    forall k | k in Hits(vlan, 0, vlan.nConnected, node) ensures k == j {
      assert vlan.slots[k] == vlan.slots[j];
    }
    assert Hits(vlan, 0, vlan.nConnected, node) == {j};
  }

  // ---------------------------------------------------------------------
  // The transmit path, step by step
  // ---------------------------------------------------------------------

  /**
   * The outcome of delivering to one node: the allocation, then the write,
   * then the signal, each made only if the one before it was accepted.
   */
  function LegsRun(fate: Fate, h: seq<Call>, node: NodeId, frame: Frame): TxRun {
    var a, w, s := Alloc(node, |frame|), Write(node, frame), Signal(node);
    if !fate(h, a) then TxRun(TxFailed, [a])
    else if !fate(h + [a], w) then TxRun(TxFailed, [a, w])
    else TxRun(if fate(h + [a, w], s) then TxComplete else TxFailed, [a, w, s])
  }

  /**
   * The outcome of the source's inner loop over the indices `lo .. hi-1`,
   * written index by index as the loop runs: a NULL slot adds nothing, a
   * failed delivery ends the loop.
   */
  function SpanRun(fate: Fate, h: seq<Call>, vlan: Vlan, frame: Frame, lo: int, hi: int): TxRun
    decreases hi - lo
  {
    if hi <= lo then TxRun(TxComplete, [])
    else
      var r := SpanRun(fate, h, vlan, frame, lo, hi - 1);
      if r.status == TxFailed then r
      else match vlan.NodeAt(hi - 1)
        case None => r
        case Some(node) =>
          var d := LegsRun(fate, h + r.calls, node, frame);
          TxRun(d.status, r.calls + d.calls)
  }

  /** The outcome of the source's per-frame step. */
  function FrameRun(fate: Fate, h: seq<Call>, vlan: Vlan, frame: Frame): TxRun {
    match Resolve(vlan, DestAddr(frame))
    case Unreachable => TxRun(TxFailed, [])
    case Span(s, c) => SpanRun(fate, h, vlan, frame, s, s + c)
  }

  /** The outcome of the source's outer loop over the first frames of a batch. */
  function BatchRun(fate: Fate, h: seq<Call>, vlan: Vlan, frames: seq<Frame>): TxRun
    decreases |frames|
  {
    if frames == [] then TxRun(TxComplete, [])
    else
      var r := BatchRun(fate, h, vlan, frames[..|frames| - 1]);
      if r.status == TxFailed then r
      else
        var d := FrameRun(fate, h + r.calls, vlan, frames[|frames| - 1]);
        TxRun(d.status, r.calls + d.calls)
  }

  /** Delivering to one node is running its three planned calls. */
  lemma LegsRunIsRun(fate: Fate, h: seq<Call>, node: NodeId, frame: Frame)
    ensures LegsRun(fate, h, node, frame) == Run(fate, h, Legs(node, frame))
  {
    var a, w, s := Alloc(node, |frame|), Write(node, frame), Signal(node);
    var l := Legs(node, frame);
    assert l[1..] == [Do(w), Do(s)];
    assert [Do(w), Do(s)][1..] == [Do(s)];
    assert [Do(s)][1..] == [];
    assert h + [a] + [w] == h + [a, w];
    assert Run(fate, h + [a, w] + [s], []) == TxRun(TxComplete, []);
    assert [s] + [] == [s];
    var rs := Run(fate, h + [a, w], [Do(s)]);
    assert rs == TxRun(if fate(h + [a, w], s) then TxComplete else TxFailed, [s]);
    var rw := Run(fate, h + [a], [Do(w), Do(s)]);
    assert rw == if !fate(h + [a], w) then TxRun(TxFailed, [w]) else TxRun(rs.status, [w] + rs.calls);
  }

  /** The inner loop's outcome is the run of the span's plan. */
  lemma {:induction false} SpanRunIsRun(fate: Fate, h: seq<Call>, vlan: Vlan, frame: Frame, lo: int, hi: int)
    ensures SpanRun(fate, h, vlan, frame, lo, hi) == Run(fate, h, SpanPlan(vlan, frame, lo, hi))
    decreases hi - lo
  {
    if lo < hi {
      SpanRunIsRun(fate, h, vlan, frame, lo, hi - 1);
      var done := SpanPlan(vlan, frame, lo, hi - 1);
      RunAppend(fate, h, done, DestPlan(vlan, frame, hi - 1));
      var r := Run(fate, h, done);
      match vlan.NodeAt(hi - 1)
      case None =>
        assert r.calls + [] == r.calls;
      case Some(node) =>
        LegsRunIsRun(fate, h + r.calls, node, frame);
    }
  }

  /** The per-frame step's outcome is the run of the frame's plan. */
  lemma FrameRunIsRun(fate: Fate, h: seq<Call>, vlan: Vlan, frame: Frame)
    ensures FrameRun(fate, h, vlan, frame) == Run(fate, h, FramePlan(vlan, frame))
  {
    match Resolve(vlan, DestAddr(frame))
    case Unreachable =>
    case Span(s, c) => SpanRunIsRun(fate, h, vlan, frame, s, s + c);
  }

  /** The outer loop's outcome is the run of the batch's plan. */
  lemma {:induction false} BatchRunIsRun(fate: Fate, h: seq<Call>, vlan: Vlan, frames: seq<Frame>)
    ensures BatchRun(fate, h, vlan, frames) == Run(fate, h, Plan(vlan, frames))
    decreases |frames|
  {
    if frames != [] {
      var front := frames[..|frames| - 1];
      BatchRunIsRun(fate, h, vlan, front);
      RunAppend(fate, h, Plan(vlan, front), FramePlan(vlan, frames[|frames| - 1]));
      FrameRunIsRun(fate, h + Run(fate, h, Plan(vlan, front)).calls, vlan, frames[|frames| - 1]);
    }
  }

  /**
   * A transmit call reports TX_COMPLETE exactly when every frame's
   * destination is reachable and the fabric accepts every planned call; it
   * then made exactly the planned calls: for every frame in order, and for
   * every live destination of that frame in index order, one allocation of
   * the frame's length, one write of the frame, one signal.
   */
  lemma TxCompleteIff(fate: Fate, h: seq<Call>, vlan: Vlan, frames: seq<Frame>)
    ensures var r := BatchRun(fate, h, vlan, frames);
      r.status == TxComplete <==>
        (forall i :: 0 <= i < |frames| ==> Resolve(vlan, DestAddr(frames[i])).Span?) &&
        AllOk(fate, h, Calls(Plan(vlan, frames)))
    ensures var r := BatchRun(fate, h, vlan, frames);
      r.status == TxComplete ==> r.calls == Calls(Plan(vlan, frames))
  {
    BatchRunIsRun(fate, h, vlan, frames);
    RunComplete(fate, h, Plan(vlan, frames));
    StopInPlan(vlan, frames);
  }

  /**
   * Whatever the verdict, the calls made are the first planned calls and all
   * but the last were accepted; a failed call either refused its last call
   * or had every call accepted while some frame of the batch has an
   * unreachable unicast address.
   */
  lemma TxCallsPrefix(fate: Fate, h: seq<Call>, vlan: Vlan, frames: seq<Frame>)
    ensures var cs := BatchRun(fate, h, vlan, frames).calls;
      cs <= Calls(Plan(vlan, frames)) && (cs != [] ==> AllOk(fate, h, cs[..|cs| - 1]))
    ensures var r := BatchRun(fate, h, vlan, frames);
      r.status == TxFailed ==>
        (r.calls != [] && !fate(h + r.calls[..|r.calls| - 1], r.calls[|r.calls| - 1])) ||
        (AllOk(fate, h, r.calls) && exists i :: 0 <= i < |frames| && Resolve(vlan, DestAddr(frames[i])).Unreachable?)
  {
    BatchRunIsRun(fate, h, vlan, frames);
    var p := Plan(vlan, frames);
    RunCallsPrefix(fate, h, p);
    RunAcceptedButLast(fate, h, p);
    RunStopCause(fate, h, p);
    RunRefusedLast(fate, h, p);
    StopInPlan(vlan, frames);
  }

  /** Once the inner loop has failed, the later indices change nothing. */
  lemma {:induction false} SpanFailSticks(fate: Fate, h: seq<Call>, vlan: Vlan, frame: Frame, lo: int, j: int, hi: int)
    requires lo <= j <= hi
    requires SpanRun(fate, h, vlan, frame, lo, j).status == TxFailed
    ensures SpanRun(fate, h, vlan, frame, lo, hi) == SpanRun(fate, h, vlan, frame, lo, j)
    decreases hi - j
  {
    if j < hi {
      SpanFailSticks(fate, h, vlan, frame, lo, j, hi - 1);
    }
  }

  /** Once the outer loop has failed, the later frames change nothing. */
  lemma {:induction false} BatchFailSticks(fate: Fate, h: seq<Call>, vlan: Vlan, frames: seq<Frame>, i: nat)
    requires i <= |frames|
    requires BatchRun(fate, h, vlan, frames[..i]).status == TxFailed
    ensures BatchRun(fate, h, vlan, frames) == BatchRun(fate, h, vlan, frames[..i])
    decreases |frames| - i
  {
    if i < |frames| {
      var front := frames[..|frames| - 1];
      assert front[..i] == frames[..i];
      BatchFailSticks(fate, h, vlan, front, i);
    } else {
      assert frames[..i] == frames;
    }
  }

  /**
   * A unicast frame whose address the fabric does not know fails the call:
   * the frames before it keep the calls made for them, and no call at all is
   * made for it or for any later frame.
   */
  lemma UnreachableFails(fate: Fate, h: seq<Call>, vlan: Vlan, frames: seq<Frame>, i: nat)
    requires i < |frames|
    requires !IsBroadcast(DestAddr(frames[i])) && vlan.IndexOf(DestAddr(frames[i])) < 0
    ensures var before := BatchRun(fate, h, vlan, frames[..i]);
      BatchRun(fate, h, vlan, frames) ==
        if before.status == TxFailed then before else TxRun(TxFailed, before.calls)
  {
    var before := BatchRun(fate, h, vlan, frames[..i]);
    assert frames[..i + 1][..i] == frames[..i];
    assert before.calls + [] == before.calls;
    assert BatchRun(fate, h, vlan, frames[..i + 1]) ==
      if before.status == TxFailed then before else TxRun(TxFailed, before.calls);
    BatchFailSticks(fate, h, vlan, frames, i + 1);
  }

  /** A one-frame call runs the frame's plan. */
  lemma SingleFramePlan(vlan: Vlan, frame: Frame)
    ensures Plan(vlan, [frame]) == FramePlan(vlan, frame)
  {
    assert [frame][..0] == [];
  }

  /**
   * A one-frame transmit to a known unicast address, whatever its verdict,
   * makes calls only to the node at the looked-up index, and at most one
   * allocation, one write and one signal to it.
   */
  lemma UnicastTxTarget(fate: Fate, h: seq<Call>, vlan: Vlan, frame: Frame)
    requires !IsBroadcast(DestAddr(frame)) && vlan.IndexOf(DestAddr(frame)) >= 0
    ensures var cs := BatchRun(fate, h, vlan, [frame]).calls;
      forall c :: c in cs ==> vlan.NodeAt(vlan.IndexOf(DestAddr(frame))) == Some(c.node)
    ensures var cs := BatchRun(fate, h, vlan, [frame]).calls;
      var node := vlan.NodeAt(vlan.IndexOf(DestAddr(frame)));
      node.Some? ==>
        Count(cs, Alloc(node.value, |frame|)) <= 1 && Count(cs, Write(node.value, frame)) <= 1 &&
        Count(cs, Signal(node.value)) <= 1
  {
    var plan := Calls(FramePlan(vlan, frame));
    var cs := BatchRun(fate, h, vlan, [frame]).calls;
    SingleFramePlan(vlan, frame);
    BatchRunIsRun(fate, h, vlan, [frame]);
    RunCallsPrefix(fate, h, FramePlan(vlan, frame));
    assert plan == cs + plan[|cs|..];
    forall c | c in cs ensures c in plan {
      var i :| 0 <= i < |cs| && cs[i] == c;
      assert plan[i] == c;
    }
    var node := vlan.NodeAt(vlan.IndexOf(DestAddr(frame)));
    var at := if node.Some? then node.value else 0;
    UnicastExact(vlan, frame, at);
    CountAppend(cs, plan[|cs|..], Alloc(at, |frame|));
    CountAppend(cs, plan[|cs|..], Write(at, frame));
    CountAppend(cs, plan[|cs|..], Signal(at));
  }

  /**
   * A one-frame broadcast that reports TX_COMPLETE, when no node sits at two
   * of the first `n_connected` indices, gave every node found there exactly
   * one allocation of the frame's length, one write and one signal.
   */
  lemma BroadcastTxEachOnce(fate: Fate, h: seq<Call>, vlan: Vlan, frame: Frame, j: int)
    requires IsBroadcast(DestAddr(frame))
    requires forall a, b :: 0 <= a < b < vlan.nConnected && a in vlan.slots && b in vlan.slots ==>
      vlan.slots[a] != vlan.slots[b]
    requires 0 <= j < vlan.nConnected && j in vlan.slots
    ensures var r := BatchRun(fate, h, vlan, [frame]);
      var node := vlan.slots[j];
      r.status == TxComplete ==>
        Count(r.calls, Alloc(node, |frame|)) == 1 && Count(r.calls, Write(node, frame)) == 1 &&
        Count(r.calls, Signal(node)) == 1
  {
    SingleFramePlan(vlan, frame);
    TxCompleteIff(fate, h, vlan, [frame]);
    BroadcastEachOnce(vlan, frame, j);
  }

  /**
   * One destination's delivery: allocate a buffer of the frame's length,
   * write the frame into it, signal the node; stop at the first refusal.
   */
  method Deliver(fabric: Fabric, node: NodeId, frame: Frame) returns (ok: bool)
    modifies fabric
    ensures var r := LegsRun(fabric.fate, old(fabric.log), node, frame);
      ok == (r.status == TxComplete) && fabric.log == old(fabric.log) + r.calls
  {
    ghost var h := fabric.log;
    ghost var a, w := Alloc(node, |frame|), Write(node, frame);
    assert h + [a] + [w] == h + [a, w];
    ok := fabric.AllocateBuff(node, |frame|);
    if !ok {
      return;
    }
    ok := fabric.BuffWrite(node, frame);
    if !ok {
      return;
    }
    ok := fabric.SignalQueue(node);
  }

  /**
   * The inner loop of the source: the destinations at indices `lo .. hi-1`,
   * in order, skipping NULL slots and stopping at the first failed delivery.
   */
  method DeliverSpan(fabric: Fabric, frame: Frame, lo: int, hi: int) returns (ok: bool)
    requires lo <= hi
    modifies fabric
    ensures var r := SpanRun(fabric.fate, old(fabric.log), fabric.vlan, frame, lo, hi);
      ok == (r.status == TxComplete) && fabric.log == old(fabric.log) + r.calls
  {
    ghost var h := fabric.log;
    var vlan := fabric.vlan;
    assert h + [] == h;
    for j := lo to hi
      invariant SpanRun(fabric.fate, h, vlan, frame, lo, j).status == TxComplete
      invariant fabric.log == h + SpanRun(fabric.fate, h, vlan, frame, lo, j).calls
    {
      ghost var r := SpanRun(fabric.fate, h, vlan, frame, lo, j);
      var destnode := vlan.NodeAt(j);
      if destnode.None? {
        // a hole in the node array
        continue;
      }
      ok := Deliver(fabric, destnode.value, frame);
      assert fabric.log == h + (r.calls + LegsRun(fabric.fate, h + r.calls, destnode.value, frame).calls);
      if !ok {
        SpanFailSticks(fabric.fate, h, vlan, frame, lo, j + 1, hi);
        return;
      }
    }
    ok := true;
  }

  /**
   * The body of the source's per-frame loop: resolve the destination MAC
   * to a span of node indices (every connected node for broadcast, the one
   * registered node for unicast) and deliver to each; an unknown unicast
   * address fails at once without touching the fabric.
   */
  method SendFrame(fabric: Fabric, frame: Frame) returns (ok: bool)
    modifies fabric
    ensures var r := FrameRun(fabric.fate, old(fabric.log), fabric.vlan, frame);
      ok == (r.status == TxComplete) && fabric.log == old(fabric.log) + r.calls
  {
    var vlan := fabric.vlan;
    var dest := DestAddr(frame);
    var start: int, n: nat;
    if IsBroadcast(dest) {
      // send to every node on the VLAN
      start, n := 0, vlan.nConnected;
    } else {
      // send only to the node the address names
      start, n := vlan.IndexOf(dest), 1;
      if start < 0 {
        assert fabric.log + [] == fabric.log;
        return false;
      }
    }
    ok := DeliverSpan(fabric, frame, start, start + n);
  }

  /**
   * `emul_raw_tx`: sends each frame to its destinations on the fabric and
   * returns the verdict. By `BatchRunIsRun` it makes exactly the calls of
   * running the batch's plan against the fabric's answers, and returns that
   * run's verdict.
   */
  method RawTx(fabric: Fabric, frames: seq<Frame>) returns (status: TxStatus)
    modifies fabric
    ensures var r := BatchRun(fabric.fate, old(fabric.log), fabric.vlan, frames);
      status == r.status && fabric.log == old(fabric.log) + r.calls
  {
    ghost var h0 := fabric.log;
    var vlan := fabric.vlan;
    assert h0 + [] == h0;
    for i := 0 to |frames|
      invariant BatchRun(fabric.fate, h0, vlan, frames[..i]).status == TxComplete
      invariant fabric.log == h0 + BatchRun(fabric.fate, h0, vlan, frames[..i]).calls
    {
      ghost var r := BatchRun(fabric.fate, h0, vlan, frames[..i]);
      var ok := SendFrame(fabric, frames[i]);
      assert frames[..i + 1][..i] == frames[..i];
      assert fabric.log == h0 + (r.calls + FrameRun(fabric.fate, h0 + r.calls, vlan, frames[i]).calls);
      if !ok {
        BatchFailSticks(fabric.fate, h0, vlan, frames, i + 1);
        return TxFailed;
      }
    }
    assert frames[..|frames|] == frames;
    status := TxComplete;
  }
}
