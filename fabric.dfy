/**
 * The shared inter-guest fabric ("VLAN") as the transmit path sees it: a set
 * of connected nodes found by MAC address or by index, each with a buffer
 * queue that can allocate a buffer, take a frame written into it, and be
 * signalled. The fabric itself is a foreign library; here its answers come
 * from an oracle and every call it receives is recorded in a log.
 */
module VlanFabric {
  import opened Types

  /** Length of an IEEE 802.3 MAC address. */
  const MacLen: nat := 6

  type MacAddr = m: seq<Byte> | |m| == 6 witness [0, 0, 0, 0, 0, 0]

  /** The all-ones broadcast address of IEEE 802.3. */
  const BroadcastAddr: MacAddr := [0xff, 0xff, 0xff, 0xff, 0xff, 0xff]

  /**
   * An Ethernet frame handed over by the ring emulation: its first six bytes
   * are the destination MAC address, which the transmit path reads
   * unconditionally; the frame's length is `len[i]` of the source.
   */
  type Frame = s: seq<Byte> | |s| >= 6 witness [0, 0, 0, 0, 0, 0]

  type NodeId = nat

  /**
   * The fabric's membership view: the number of connected nodes, the
   * MAC-to-index lookup (a missing address answers -1), and the node array
   * (a missing index is a NULL slot, a "hole").
   */
  datatype Vlan = Vlan(nConnected: nat, index: map<MacAddr, int>, slots: map<int, NodeId>)
  {
    /** `sel4vlan_get_destnode_index_by_macaddr`: negative when the address is unknown. */
    function IndexOf(m: MacAddr): int {
      if m in index then index[m] else -1
    }

    /** `sel4vlan_get_destnode_by_index`: None stands for a NULL node pointer. */
    function NodeAt(j: int): Option<NodeId> {
      if j in slots then Some(slots[j]) else None
    }
  }

  /** A call made on a node's buffer queue. */
  datatype Call =
    | Alloc(node: NodeId, size: nat)
    | Write(node: NodeId, data: Frame)
    | Signal(node: NodeId)

  /**
   * How the fabric answers: given the calls it has received so far and the
   * next call, whether that call succeeds (a buffer was available, the write
   * or the signal returned 0).
   */
  type Fate = (seq<Call>, Call) -> bool

  class Fabric {
    const vlan: Vlan
    const fate: Fate
    /** Every buffer-queue call received, in order. */
    var log: seq<Call>

    constructor (vlan: Vlan, fate: Fate)
      ensures this.vlan == vlan && this.fate == fate && log == []
    {
      this.vlan := vlan;
      this.fate := fate;
      log := [];
    }

    /** `sel4buffqueue_allocate_buff`: false stands for a NULL buffer (pool exhausted). */
    method AllocateBuff(node: NodeId, size: nat) returns (ok: bool)
      modifies this
      ensures ok == fate(old(log), Alloc(node, size))
      ensures log == old(log) + [Alloc(node, size)]
    {
      ok := fate(log, Alloc(node, size));
      log := log + [Alloc(node, size)];
    }

    /** `sel4buffqueue_buff_write` into the buffer just allocated for `node`: false is a nonzero error. */
    method BuffWrite(node: NodeId, data: Frame) returns (ok: bool)
      modifies this
      ensures ok == fate(old(log), Write(node, data))
      ensures log == old(log) + [Write(node, data)]
    {
      ok := fate(log, Write(node, data));
      log := log + [Write(node, data)];
    }

    /** `sel4buffqueue_signal` on the node's queue: false is a nonzero error. */
    method SignalQueue(node: NodeId) returns (ok: bool)
      modifies this
      ensures ok == fate(old(log), Signal(node))
      ensures log == old(log) + [Signal(node)]
    {
      ok := fate(log, Signal(node));
      log := log + [Signal(node)];
    }
  }
}
