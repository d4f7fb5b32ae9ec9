/**
 * Attaching the virtio-net device to the guest (`make_virtio_net`): a PCI
 * function with the virtio vendor and transitional network device IDs
 * (section 4.1.2 of the Virtio 1.0 specification) and one I/O BAR at 0x9000
 * of 2^6 ports, the matching port handler, the device state with its ring
 * emulation, and a final drain that throws away every packet the Ethernet
 * driver already holds.
 */
module Device {
  import opened Types
  import opened PortIo
  import opened Receive

  /** `VIRTIO_VID`. */
  const VirtioVendorId: U32 := 0x1af4
  /** `VIRTIO_DID_START`: the transitional network device ID. */
  const VirtioDeviceId: U32 := 0x1000
  /** `QUEUE_SIZE`: descriptors per virtqueue handed to the ring emulation. */
  const QueueSize: nat := 128
  /** The base of the device's I/O window and the address of its BAR. */
  const IoBase: U32 := 0x9000
  /** The BAR's `size_bits`: the window spans 2^6 ports. */
  const BarSizeBits: nat := 6
  /** The description the port handler is registered with. */
  const HandlerName: string := "VIRTIO PCI NET"

  function Pow2(n: nat): (r: nat)
    ensures r >= 1
  {
    if n == 0 then 1 else 2 * Pow2(n - 1)
  }

  /** `MASK(n)`: the low `n` bits set. */
  function Mask(n: nat): nat {
    Pow2(n) - 1
  }

  /** The non-zero fields of the device's PCI configuration header; all others are zero. */
  datatype PciConfig = PciConfig(
    vendorId: U32, deviceId: U32, cacheLineSize: nat, latencyTimer: nat,
    subsystemId: nat, interruptPin: nat, interruptLine: nat)

  /** A PCI base address register: I/O or memory space, address, and log2 of its size. */
  datatype Bar = Bar(isMem: bool, address: U32, sizeBits: nat)

  /**
   * A PCI function as registered with the VMM: configuration reads are
   * served from `config` with the BARs emulated over it, and configuration
   * writes are ignored when `ignoresWrites` holds.
   */
  datatype PciEntry = PciEntry(config: PciConfig, bars: seq<Bar>, ignoresWrites: bool)

  /** A guest I/O port handler for the ports `first .. last`, both included. */
  datatype PortHandler = PortHandler(first: U32, last: U32, name: string)

  const NetConfig: PciConfig := PciConfig(VirtioVendorId, VirtioDeviceId, 64, 64, 1, 6, 6)
  const NetBar: Bar := Bar(false, IoBase, BarSizeBits)

  /** The VMM's device registries. */
  class Vmm {
    var pci: seq<PciEntry>
    var ioPorts: seq<PortHandler>

    constructor ()
      ensures pci == [] && ioPorts == []
    {
      pci := [];
      ioPorts := [];
    }
  }

  /** `virtio_net_t`: the device's I/O base and its ring emulation. */
  class VirtioNet {
    const iobase: U32
    const emul: RxRing

    constructor (iobase: U32, emul: RxRing)
      ensures this.iobase == iobase && this.emul == emul
    {
      this.iobase := iobase;
      this.emul := emul;
    }
  }

  /**
   * `make_virtio_net`: registers the PCI function and the port handler,
   * creates the device and its ring emulation, and then calls the driver's
   * receive until it reports nothing, discarding every packet it held: once
   * per packet plus the final empty call, with no call on the fresh ring.
   */
  method MakeVirtioNet(vmm: Vmm, drv: EthDriver, grant: Grant) returns (net: VirtioNet)
    modifies vmm, drv
    ensures vmm.pci == old(vmm.pci) + [PciEntry(NetConfig, [NetBar], true)]
    ensures vmm.ioPorts == old(vmm.ioPorts) + [PortHandler(IoBase, IoBase + Mask(BarSizeBits), HandlerName)]
    ensures fresh(net) && fresh(net.emul)
    ensures net.iobase == IoBase && net.emul.grant == grant && net.emul.queueSize == QueueSize
    ensures net.emul.log == []
    ensures drv.pending == [] && drv.rxCalls == old(drv.rxCalls) + |old(drv.pending)| + 1
    ensures var hd, bar := vmm.ioPorts[|vmm.ioPorts| - 1], vmm.pci[|vmm.pci| - 1].bars[0];
      hd.first == bar.address == net.iobase && hd.last - hd.first + 1 == Pow2(bar.sizeBits) && !bar.isMem
  {
    vmm.pci := vmm.pci + [PciEntry(NetConfig, [NetBar], true)];
    assert Pow2(BarSizeBits) == 64;
    vmm.ioPorts := vmm.ioPorts + [PortHandler(IoBase, IoBase + Mask(BarSizeBits), HandlerName)];
    var emul := new RxRing(grant, QueueSize);
    net := new VirtioNet(IoBase, emul);
    // throw away whatever the driver received before the device existed
    ghost var n0 := |drv.pending|;
    ghost var c0 := drv.rxCalls;
    var status, len := drv.Rx();
    while status != RxNone
      modifies drv
      invariant |drv.pending| <= n0
      invariant status == RxNone ==> drv.pending == []
      invariant drv.rxCalls == c0 + n0 - |drv.pending| + (if status == RxNone then 1 else 0)
      decreases |drv.pending| + (if status == RxNone then 0 else 1)
    {
      status, len := drv.Rx();
    }
  }

  /**
   * Every port of the registered handler reaches the ring emulation as a
   * register access at offset `port - 0x9000`, below the BAR's 64 ports, with
   * the access width and the written value unchanged.
   */
  lemma RegisteredPortsDecode(port: U32, size: U32, value: U32)
    requires IoBase <= port <= IoBase + Mask(BarSizeBits)
    ensures IoIn(IoBase, port, size) == RegRead(port - IoBase, size)
    ensures IoOut(IoBase, port, size, value) == RegWrite(port - IoBase, size, value)
    ensures port - IoBase < Pow2(BarSizeBits)
  {
    DecodeWindow(IoBase, Pow2(BarSizeBits), port);
  }
}
