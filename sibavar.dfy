/** The per-core data model of the siba(4) Sonics/OCP backplane driver: its
    capacity constants, the config-block resource-ID arithmetic, the address
    space, config block, interrupt and core identification descriptors, and the
    per-device record that aggregates them. */
module SibaVar {

  import opened MachineInts
  import opened Wrappers

  // ---------------------------------------------------------------------------
  // Constants
  // ---------------------------------------------------------------------------

  /** SIBA_CFG_NUM_2_2: a Sonics 2.2 backplane maps one config block (CFG0). */
  const CfgNum22: nat := 1
  /** SIBA_CFG_NUM_2_3: a Sonics 2.3 backplane maps two config blocks (CFG0, CFG1). */
  const CfgNum23: nat := 2
  /** SIBA_MAX_CFG: capacity of the per-core config block tables. */
  const MaxCfg: nat := CfgNum23
  /** SIBA_CFG_RID_BASE: the first resource ID used for config block allocations. */
  const CfgRidBase: nat := 100
  /** SIBA_CORE_ADDRSPACE: the address space holding the core's primary registers. */
  const CoreAddrspace: nat := 0
  /** SIBA_MAX_ADDRSPACE: capacity of the per-core address space table. */
  const MaxAddrspace: nat := 4
  /** SIBA_MAX_PORT: the most bhnd(4) ports a siba core advertises. */
  const MaxPort: nat := 2
  /** The resource ID an interrupt descriptor holds while no bus resource is assigned. */
  const UnassignedRid: int := -1

  /** The largest core index whose config-block resource IDs fit in an `int`
      (1073741773). Up to it the stored IDs are positive and at least the base. */
  const MaxRidCoreIdx: nat := (Int32Max - CfgRidBase - (MaxCfg - 1)) / MaxCfg
  /** The first core index whose config-block IDs wrap in `unsigned int`
      (2147483598). */
  const WrapCoreIdx: nat := (Two32 - CfgRidBase) / MaxCfg
  /** The first core index whose config-block IDs repeat those of an earlier
      core (2^31): from here on core k shares its IDs with core k - 2^31. */
  const CollideCoreIdx: nat := Two32 / MaxCfg

  // ---------------------------------------------------------------------------
  // Backplane generations
  // ---------------------------------------------------------------------------

  /** The two Sonics backplane generations the config block counts distinguish. */
  datatype BackplaneRev = Sonics22 | Sonics23

  /** How many config blocks a backplane generation maps. */
  function CfgBlockCount(rev: BackplaneRev): (n: nat)
    ensures CfgNum22 <= n <= MaxCfg
    ensures n == MaxCfg <==> rev == Sonics23
  {
    match rev
    case Sonics22 => CfgNum22
    case Sonics23 => CfgNum23
  }

  // ---------------------------------------------------------------------------
  // Descriptors
  // ---------------------------------------------------------------------------

  /** A bus resource or PMU state the record refers to but does not look into. */
  datatype Handle = Handle(id: nat)

  /** struct siba_addrspace: one address window of a core. */
  datatype AddrSpace = AddrSpace(base: u32, size: u32, rid: i32, busReserved: u32)

  /** struct siba_cfg_block: one Sonics config register block of a core. */
  datatype CfgBlock = CfgBlock(base: u32, size: u32, rid: i32)

  /** struct siba_intr: the backplane interrupt flag descriptor. */
  datatype Intr = Intr(flag: u32, mapped: bool, rid: i32, irq: u64)

  /** struct bhnd_core_info, reduced to the one field the config RIDs use. */
  datatype CoreInfo = CoreInfo(coreIdx: u32)

  /** struct siba_core_id: per-core identification. */
  datatype CoreId = CoreId(
    coreInfo: CoreInfo,
    sonicsVendor: u16,
    sonicsRev: u8,
    numAddrspace: u8,
    numCfgBlocks: u8)

  /** The fixed-size arrays of struct siba_devinfo. */
  type AddrSpaceTable = s: seq<AddrSpace> | |s| == MaxAddrspace
    witness [AddrSpace(0, 0, 0, 0), AddrSpace(0, 0, 0, 0), AddrSpace(0, 0, 0, 0), AddrSpace(0, 0, 0, 0)]
  type CfgTable = s: seq<CfgBlock> | |s| == MaxCfg
    witness [CfgBlock(0, 0, 0), CfgBlock(0, 0, 0)]
  type CfgResTable = s: seq<Option<Handle>> | |s| == MaxCfg
    witness [None, None]
  type CfgRidTable = s: seq<i32> | |s| == MaxCfg
    witness [0, 0]

  /** struct siba_devinfo: the per-core record. A NULL pointer is `None`. */
  datatype DevInfo = DevInfo(
    coreId: CoreId,
    addrspace: AddrSpaceTable,
    cfg: CfgTable,
    intr: Intr,
    intrEn: bool,
    cfgRes: CfgResTable,
    cfgRid: CfgRidTable,
    pmuInfo: Option<Handle>)

  // ---------------------------------------------------------------------------
  // Config block resource IDs
  // ---------------------------------------------------------------------------

  /** SIBA_CFG_RID: the resource ID of config block `cfg` of the core with
      enumeration index `coreIdx`, evaluated in `unsigned int` arithmetic. Up to
      MaxRidCoreIdx the ID fits in an `int`, lies at or above the base, and the
      core and block can be read back from it. */
  function CfgRid(coreIdx: u32, cfg: u32): (rid: u32)
    ensures coreIdx <= MaxRidCoreIdx && cfg < MaxCfg ==>
      && CfgRidBase <= rid <= Int32Max
      && (rid - CfgRidBase) / MaxCfg == coreIdx
      && (rid - CfgRidBase) % MaxCfg == cfg
  {
    WrapU32(CfgRidBase + cfg + coreIdx * MaxCfg)
  }

  /** The (core index, block number) pair a config resource ID belongs to. */
  datatype CfgSlot = CfgSlot(coreIdx: nat, cfg: nat)

  /** The inverse of `CfgRid`: which core and block own a resource ID, if any. */
  function CfgRidSlot(rid: int): (r: Option<CfgSlot>)
    ensures r.Some? <==> rid >= CfgRidBase
    ensures r.Some? ==> r.value.cfg < MaxCfg
    ensures r.Some? ==> rid == CfgRidBase + r.value.coreIdx * MaxCfg + r.value.cfg
  {
    if rid < CfgRidBase then None
    else Some(CfgSlot((rid - CfgRidBase) / MaxCfg, (rid - CfgRidBase) % MaxCfg))
  }

  /** Reading an `unsigned int` resource ID back yields the core and block it
      was made from, for every core index whose ID does not wrap. */
  lemma CfgRidSlotRoundTrip(coreIdx: u32, cfg: u32)
    requires coreIdx < WrapCoreIdx && cfg < MaxCfg
    ensures CfgRidSlot(CfgRid(coreIdx, cfg)) == Some(CfgSlot(coreIdx, cfg))
  {
  }

  /** Every non-negative `int` resource ID from the base upward is the ID of
      exactly the slot it reads back as. */
  lemma CfgRidSlotComplete(rid: int)
    requires CfgRidBase <= rid <= Int32Max
    ensures CfgRidSlot(rid).Some?
    ensures CfgRidSlot(rid).value.coreIdx <= MaxRidCoreIdx
    ensures CfgRid(CfgRidSlot(rid).value.coreIdx, CfgRidSlot(rid).value.cfg) == rid
  {
  }

  /** The four regimes of the `unsigned int` arithmetic, by core index: up to
      MaxRidCoreIdx the ID is exact and fits an `int`; up to WrapCoreIdx it is
      still exact but reads as a negative `int`; from WrapCoreIdx it wraps, and
      until CollideCoreIdx the wrapped IDs fall below the base; from
      CollideCoreIdx on core k repeats the IDs of core k - 2^31. */
  lemma CfgRidRegimes(coreIdx: u32, cfg: u32)
    requires cfg < MaxCfg
    ensures coreIdx < WrapCoreIdx <==> CfgRid(coreIdx, cfg) == CfgRidBase + cfg + coreIdx * MaxCfg
    ensures coreIdx <= MaxRidCoreIdx ==> CfgRidBase <= U32ToI32(CfgRid(coreIdx, cfg)) == CfgRid(coreIdx, cfg)
    ensures MaxRidCoreIdx < coreIdx < WrapCoreIdx ==> U32ToI32(CfgRid(coreIdx, cfg)) < 0
    ensures WrapCoreIdx <= coreIdx < CollideCoreIdx ==>
      CfgRid(coreIdx, cfg) == CfgRidBase + cfg + coreIdx * MaxCfg - Two32 < CfgRidBase
    ensures CollideCoreIdx <= coreIdx ==> CfgRid(coreIdx, cfg) == CfgRid(coreIdx - CollideCoreIdx, cfg)
  {
  }

  /** Two different (core, block) pairs below CollideCoreIdx never share a
      resource ID, neither as `unsigned int` nor once stored in an `int`. */
  lemma CfgRidInjective(core1: u32, cfg1: u32, core2: u32, cfg2: u32)
    requires core1 < CollideCoreIdx && cfg1 < MaxCfg
    requires core2 < CollideCoreIdx && cfg2 < MaxCfg
    requires U32ToI32(CfgRid(core1, cfg1)) == U32ToI32(CfgRid(core2, cfg2))
    ensures core1 == core2 && cfg1 == cfg2
  {
  }

  /** A core's blocks get consecutive IDs, and the next core's IDs start right
      after them: the per-core ranges tile the ID space without overlap. */
  lemma CfgRidConsecutive(coreIdx: u32)
    requires coreIdx < MaxRidCoreIdx
    ensures CfgRid(coreIdx, 1) == CfgRid(coreIdx, 0) + 1
    ensures CfgRid(coreIdx + 1, 0) == CfgRid(coreIdx, MaxCfg - 1) + 1
  {
  }

  /** Resource IDs of a lower core index are below all of a higher one's. */
  lemma CfgRidOrderedByCore(core1: u32, cfg1: u32, core2: u32, cfg2: u32)
    requires core1 < core2 <= MaxRidCoreIdx && cfg1 < MaxCfg && cfg2 < MaxCfg
    ensures CfgRid(core1, cfg1) < CfgRid(core2, cfg2)
  {
  }

  /** The boundary values: the first core past MaxRidCoreIdx gets an exact ID
      that reads as INT_MIN, the first wrapped ID is 0, and core 2^31 collides
      with core 0. */
  lemma CfgRidBoundaryValues()
    ensures CfgRid(MaxRidCoreIdx + 1, 0) == Int32Max + 1 && U32ToI32(CfgRid(MaxRidCoreIdx + 1, 0)) == -0x8000_0000
    ensures CfgRid(WrapCoreIdx - 1, 1) == Two32 - 1 && CfgRid(WrapCoreIdx, 0) == 0
    ensures CfgRid(CollideCoreIdx, 0) == CfgRid(0, 0)
  {
  }

  // ---------------------------------------------------------------------------
  // Address spaces
  // ---------------------------------------------------------------------------

  /** A half-open address interval [start, end). */
  datatype Range = Range(start: int, end: int)

  predicate InRange(r: Range, addr: int) {
    r.start <= addr < r.end
  }

  /** The bus-reserved bytes are part of the window. */
  predicate AddrSpaceValid(a: AddrSpace) {
    a.busReserved <= a.size
  }

  /** The whole window described by an address space. */
  function Window(a: AddrSpace): (r: Range)
    ensures r.end - r.start == a.size
  {
    Range(a.base, a.base + a.size)
  }

  /** The part of the window left to the core once the bus has taken its bytes. */
  function CoreRange(a: AddrSpace): (r: Range)
    requires AddrSpaceValid(a)
    ensures r.start == Window(a).start <= r.end <= Window(a).end
    ensures r.end - r.start == a.size - a.busReserved
  {
    Range(a.base, a.base + a.size - a.busReserved)
  }

  /** The bytes at the high end of the window reserved for the bus. */
  function ReservedRange(a: AddrSpace): (r: Range)
    requires AddrSpaceValid(a)
    ensures Window(a).start <= r.start <= r.end == Window(a).end
    ensures r.end - r.start == a.busReserved
  {
    Range(a.base + a.size - a.busReserved, a.base + a.size)
  }

  /** Each address of the window belongs to exactly one of the core's part and
      the bus's part, and every bus-reserved address lies above every core address. */
  lemma WindowSplits(a: AddrSpace, addr: int)
    requires AddrSpaceValid(a)
    ensures InRange(Window(a), addr) <==> InRange(CoreRange(a), addr) || InRange(ReservedRange(a), addr)
    ensures !(InRange(CoreRange(a), addr) && InRange(ReservedRange(a), addr))
    ensures InRange(ReservedRange(a), addr) ==> CoreRange(a).end <= addr
  {
  }

  // ---------------------------------------------------------------------------
  // Interrupt descriptor
  // ---------------------------------------------------------------------------

  /** A resource ID other than the "unassigned" marker. */
  type BusRid = x: int | -0x8000_0000 <= x < 0x8000_0000 && x != -1

  /** What an assigned interrupt flag means: the flag, the bus resource if one is
      assigned, and the host IRQ if one is mapped. */
  datatype IntrAssignment = IntrAssignment(flag: u32, resource: Option<BusRid>, irq: Option<u64>)

  /** Reads the `intr_en` flag and the `intr` descriptor of a record: no interrupt
      unless `intr_en`; rid -1 means no resource; `irq` counts only when `mapped`. */
  function IntrOf(intrEn: bool, intr: Intr): (r: Option<IntrAssignment>)
    ensures r.Some? <==> intrEn
    ensures r.Some? ==> r.value.flag == intr.flag
    ensures r.Some? ==> (r.value.resource.None? <==> intr.rid == UnassignedRid)
    ensures r.Some? && r.value.resource.Some? ==> r.value.resource.value == intr.rid
    ensures r.Some? ==> (r.value.irq.Some? <==> intr.mapped)
    ensures r.Some? && r.value.irq.Some? ==> r.value.irq.value == intr.irq
  {
    if !intrEn then None
    else Some(IntrAssignment(
      intr.flag,
      if intr.rid == UnassignedRid then None else Some(intr.rid),
      if intr.mapped then Some(intr.irq) else None))
  }

  /** The canonical fields that record an interrupt assignment (or its absence):
      rid -1 for no resource, `mapped` false and `irq` 0 for no IRQ. */
  function IntrFields(a: Option<IntrAssignment>): (fields: (bool, Intr))
    ensures fields.0 <==> a.Some?
    ensures !fields.1.mapped ==> fields.1.irq == 0
    ensures a.None? ==> fields.1.rid == UnassignedRid && !fields.1.mapped
  {
    match a
    case None => (false, Intr(0, false, UnassignedRid, 0))
    case Some(IntrAssignment(flag, resource, irq)) =>
      (true, Intr(
        flag,
        irq.Some?,
        if resource.Some? then resource.value else UnassignedRid,
        if irq.Some? then irq.value else 0))
  }

  /** Recording an assignment and reading it back gives the same assignment. */
  lemma IntrRoundTrip(a: Option<IntrAssignment>)
    ensures IntrOf(IntrFields(a).0, IntrFields(a).1) == a
  {
  }

  /** Reading a descriptor and recording it again keeps every field that has a
      meaning: the enable flag always, and flag, rid, mapped and the mapped irq
      when the core has an interrupt. */
  lemma IntrFieldsKeepMeaning(intrEn: bool, intr: Intr)
    ensures IntrFields(IntrOf(intrEn, intr)).0 == intrEn
    ensures intrEn ==>
      var i := IntrFields(IntrOf(intrEn, intr)).1;
      && i.flag == intr.flag && i.rid == intr.rid && i.mapped == intr.mapped
      && (intr.mapped ==> i.irq == intr.irq)
  {
  }

  // ---------------------------------------------------------------------------
  // The per-core record
  // ---------------------------------------------------------------------------

  /** The declared counts fit the fixed-size tables. */
  predicate CoreIdValid(id: CoreId) {
    id.numAddrspace <= MaxAddrspace && id.numCfgBlocks <= MaxCfg
  }

  /** A well-formed record: its counts fit the tables, every declared address
      space keeps its bus-reserved bytes inside its window, and every config block
      resource it holds belongs to a declared block and carries that block's
      SIBA_CFG_RID, as stored into an `int`. */
  predicate Valid(d: DevInfo) {
    && CoreIdValid(d.coreId)
    && (forall i :: 0 <= i < d.coreId.numAddrspace ==> AddrSpaceValid(d.addrspace[i]))
    && (forall i :: 0 <= i < MaxCfg && d.cfgRes[i].Some? ==>
          i < d.coreId.numCfgBlocks && d.cfgRid[i] == U32ToI32(CfgRid(d.coreId.coreInfo.coreIdx, i)))
  }

  /** `dinfo->addrspace[i]` for a declared address space: the slot exists and its
      bus-reserved bytes lie inside its window. */
  function AddrSpaceAt(d: DevInfo, i: nat): (a: AddrSpace)
    requires Valid(d) && i < d.coreId.numAddrspace
    ensures a == d.addrspace[i]
    ensures AddrSpaceValid(a)
  {
    d.addrspace[i]
  }

  /** Every index below a declared count names a slot of the matching table. */
  lemma DeclaredSlotsInBounds(d: DevInfo)
    requires Valid(d)
    ensures d.coreId.numAddrspace <= |d.addrspace|
    ensures d.coreId.numCfgBlocks <= |d.cfg| && d.coreId.numCfgBlocks <= |d.cfgRes| && d.coreId.numCfgBlocks <= |d.cfgRid|
  {
  }

  /** The primary register window is a declared slot of any core that declares
      an address space at all. */
  lemma PrimaryAddrSpaceDeclared(d: DevInfo)
    requires Valid(d) && d.coreId.numAddrspace >= 1
    ensures CoreAddrspace < d.coreId.numAddrspace
    ensures AddrSpaceValid(d.addrspace[CoreAddrspace])
  {
  }

  /** Either backplane generation's block count fits every config table. */
  lemma CfgCountFitsTables(rev: BackplaneRev, d: DevInfo)
    ensures CfgNum22 <= CfgNum23 == MaxCfg
    ensures CfgBlockCount(rev) <= |d.cfg| && CfgBlockCount(rev) <= |d.cfgRes| && CfgBlockCount(rev) <= |d.cfgRid|
  {
  }

  /** The resource IDs of the config blocks a record holds, from slot `i` on. */
  function HeldCfgRidsFrom(d: DevInfo, i: nat): seq<int>
    requires i <= MaxCfg
    decreases MaxCfg - i
  {
    if i == MaxCfg then []
    else (if d.cfgRes[i].Some? then [d.cfgRid[i] as int] else []) + HeldCfgRidsFrom(d, i + 1)
  }

  /** The resource IDs of all config blocks a record holds, in slot order. */
  function HeldCfgRids(d: DevInfo): seq<int> {
    HeldCfgRidsFrom(d, 0)
  }

  /** The config block IDs a well-formed record holds are at least the base,
      pairwise distinct, and read back as blocks of this core. */
  lemma HeldCfgRidsOwned(d: DevInfo)
    requires Valid(d) && d.coreId.coreInfo.coreIdx <= MaxRidCoreIdx
    ensures forall x :: x in HeldCfgRids(d) ==>
      && CfgRidBase <= x
      && CfgRidSlot(x).Some?
      && CfgRidSlot(x).value.coreIdx == d.coreId.coreInfo.coreIdx
      && CfgRidSlot(x).value.cfg < d.coreId.numCfgBlocks
    ensures NoDuplicates(HeldCfgRids(d))
  {
  }

  /** The config block IDs a well-formed record holds are pairwise distinct,
      whatever its core index. */
  lemma HeldCfgRidsDistinct(d: DevInfo)
    requires Valid(d)
    ensures NoDuplicates(HeldCfgRids(d))
  {
  }

  // ---------------------------------------------------------------------------
  // All records of one bus
  // ---------------------------------------------------------------------------

  predicate NoDuplicates(s: seq<int>) {
    forall i, j :: 0 <= i < j < |s| ==> s[i] != s[j]
  }

  /** The records of a bus carry pairwise distinct core indices. */
  predicate DistinctCoreIndices(ds: seq<DevInfo>) {
    forall i, j :: 0 <= i < j < |ds| ==> ds[i].coreId.coreInfo.coreIdx != ds[j].coreId.coreInfo.coreIdx
  }

  /** The config block IDs held by all records of a bus, record by record. */
  function BusHeldCfgRids(ds: seq<DevInfo>): seq<int> {
    if ds == [] then [] else HeldCfgRids(ds[0]) + BusHeldCfgRids(ds[1..])
  }

  lemma {:induction false} NoDuplicatesAppend(a: seq<int>, b: seq<int>)
    requires NoDuplicates(a) && NoDuplicates(b)
    requires forall x :: x in a ==> x !in b
    ensures NoDuplicates(a + b)
  {
    forall i, j | 0 <= i < j < |a + b|
      ensures (a + b)[i] != (a + b)[j]
    {
      if j < |a| {
        assert (a + b)[i] == a[i] && (a + b)[j] == a[j];
      } else if i < |a| {
        assert (a + b)[i] == a[i] && (a + b)[j] == b[j - |a|];
        assert a[i] in a;
      } else {
        assert (a + b)[i] == b[i - |a|] && (a + b)[j] == b[j - |a|];
      }
    }
  }

  /** Every ID a bus holds reads back as a block of one of its records. */
  lemma {:induction false} BusHeldCfgRidsOwned(ds: seq<DevInfo>)
    requires forall k :: 0 <= k < |ds| ==> Valid(ds[k]) && ds[k].coreId.coreInfo.coreIdx <= MaxRidCoreIdx
    ensures forall x :: x in BusHeldCfgRids(ds) ==>
      CfgRidSlot(x).Some? && exists k :: 0 <= k < |ds| && CfgRidSlot(x).value.coreIdx == ds[k].coreId.coreInfo.coreIdx
  {
    if ds != [] {
      HeldCfgRidsOwned(ds[0]);
      BusHeldCfgRidsOwned(ds[1..]);
      forall x | x in BusHeldCfgRids(ds)
        ensures CfgRidSlot(x).Some? && exists k :: 0 <= k < |ds| && CfgRidSlot(x).value.coreIdx == ds[k].coreId.coreInfo.coreIdx
      {
        if x in HeldCfgRids(ds[0]) {
          assert CfgRidSlot(x).value.coreIdx == ds[0].coreId.coreInfo.coreIdx;
        } else {
          assert x in BusHeldCfgRids(ds[1..]);
          var k :| 0 <= k < |ds[1..]| && CfgRidSlot(x).value.coreIdx == ds[1..][k].coreId.coreInfo.coreIdx;
          assert ds[1..][k] == ds[k + 1];
        }
      }
    }
  }

  /** No two config blocks held anywhere on a bus share a resource ID, and all
      of them lie at or above the base, provided every record is well formed and
      the core indices are distinct and at most MaxRidCoreIdx, the largest whose
      IDs fit in an `int`. */
  lemma {:induction false} BusCfgRidsUnique(ds: seq<DevInfo>)
    requires forall k :: 0 <= k < |ds| ==> Valid(ds[k]) && ds[k].coreId.coreInfo.coreIdx <= MaxRidCoreIdx
    requires DistinctCoreIndices(ds)
    ensures NoDuplicates(BusHeldCfgRids(ds))
    ensures forall x :: x in BusHeldCfgRids(ds) ==> CfgRidBase <= x
  {
    if ds != [] {
      var rest := ds[1..];
      assert forall k :: 0 <= k < |rest| ==> rest[k] == ds[k + 1];
      HeldCfgRidsOwned(ds[0]);
      BusCfgRidsUnique(rest);
      BusHeldCfgRidsOwned(rest);
      forall y | y in BusHeldCfgRids(rest)
        ensures CfgRidSlot(y).value.coreIdx != ds[0].coreId.coreInfo.coreIdx
      {
        var k :| 0 <= k < |rest| && CfgRidSlot(y).value.coreIdx == rest[k].coreId.coreInfo.coreIdx;
        assert rest[k].coreId.coreInfo.coreIdx != ds[0].coreId.coreInfo.coreIdx;
      }
      NoDuplicatesAppend(HeldCfgRids(ds[0]), BusHeldCfgRids(rest));
    }
  }
}
