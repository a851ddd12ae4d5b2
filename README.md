# siba(4) per-core data model

A Dafny model of the internal definitions of FreeBSD's siba(4) driver, which
enumerates the cores of a Sonics/OCP ("siba") on-chip backplane. The model
covers `sys/dev/bhnd/siba/sibavar.h`:

- the capacity constants: `SIBA_MAX_ADDRSPACE` (4), `SIBA_MAX_CFG` (2), the
  per-generation config block counts `SIBA_CFG_NUM_2_2` (1) and
  `SIBA_CFG_NUM_2_3` (2), the primary window index `SIBA_CORE_ADDRSPACE` (0),
  `SIBA_MAX_PORT` (2) and `SIBA_CFG_RID_BASE` (100);
- the `SIBA_CFG_RID` macro, which gives the bus resource ID of config block
  `cfg` of the core with enumeration index `core_idx`;
- `struct siba_addrspace`, `siba_cfg_block`, `siba_intr`, `siba_core_id` and
  `siba_devinfo`. These are datatypes, and each fixed-size C array is a
  sequence whose length is fixed by its type.

Files:

- `machine_ints.dfy` (module `MachineInts`): the C integer widths as subset
  types, `unsigned int` wrap-around, and the conversion of an `unsigned int`
  to an `int`.
- `wrappers.dfy` (module `Wrappers`): `Option`, used for NULL pointers and
  for the "unassigned" resource ID.
- `sibavar.dfy` (module `SibaVar`): the constants, the descriptors, the
  validity predicate `Valid`, the resource-ID arithmetic and the lemmas.

Modelling decisions:

- `core_idx` is an `unsigned int`, as in the `siba_parse_core_id` prototype
  (line 69). So `SIBA_CFG_RID` is evaluated modulo 2^32. It is then stored into
  an `int` table (`cfg_rid[]`), and the model converts it two's-complement.
  `CfgRidRegimes` states the exact boundaries in terms of the core index:
  - Up to `MaxRidCoreIdx` = 1073741773 each ID is exact, fits in an `int` and
    is at least 100. The bound lemmas and the lemmas that decode a stored `int`
    ID back to its core hold in this range. The round trip on the
    `unsigned int` value holds up to `WrapCoreIdx`.
  - Above that and below `WrapCoreIdx` = 2147483598 the `unsigned int` value is
    still exact, but it reads as a negative `int` once stored.
  - From `WrapCoreIdx` the `unsigned int` arithmetic wraps. Up to
    `CollideCoreIdx` = 2^31 the wrapped IDs fall below 100.
  - From `CollideCoreIdx` on, core k repeats the IDs of core k - 2^31.

  `CfgRidInjective` holds for every core index below 2^31.
  `CfgRidBoundaryValues` gives the values at each boundary. Real backplanes
  enumerate only a handful of cores, far below every one of these limits.
- `CfgRidSlot` is the inverse of `SIBA_CFG_RID`: it maps a resource ID back to
  its (core, block) pair. The round-trip lemmas rest on it, and so do the
  decoding clauses of `HeldCfgRidsOwned` and the bus-wide lemmas. Per-record
  uniqueness (`HeldCfgRidsDistinct`) needs only the macro's values.
  `CfgRidConsecutive` and
  `CfgRidOrderedByCore` state the tiling directly on `SIBA_CFG_RID`'s values.
- `Valid(d)` is the well-formedness of a `siba_devinfo`. It requires:
  - the declared `num_addrspace` and `num_cfg_blocks` fit their tables;
  - every declared address space has `sa_bus_reserved <= sa_size`;
  - every slot `i` whose `cfg_res[i]` is non-NULL is a declared block
    (`i < num_cfg_blocks`) and has `cfg_rid[i] == SIBA_CFG_RID(dinfo, i)`.

  `Valid` puts no constraint on `intr`: while `intr_en` is false the
  interrupt fields are unconstrained, because the descriptor has no meaning
  then (line 194, "if any"). The "unassigned" encoding `rid == -1` is read
  by `IntrOf` and produced by `IntrFields`, not required by `Valid`.

  The header never states this link between `cfg_rid[]` and the macro. The
  model reads it from the macro's doc comment (line 130: "base resource ID for
  SIBA_CFG* register allocations") together with `cfg_res[]`/`cfg_rid[]`
  (lines 197-198).
- The interrupt descriptor is read through `IntrOf`:
  - no interrupt unless `intr_en`;
  - `rid == -1` means no bus resource is assigned;
  - `irq` has a meaning only when `mapped`.

  `IntrFields` is the canonical encoding back into the C fields. The header
  does not say whether `mapped` and an assigned `rid` always go together, so
  the model keeps the two independent.
- A Sonics 2.2 backplane maps one config block and a 2.3 backplane maps two.
  The model uses the enumeration `BackplaneRev` for these two generations. In
  the hardware the `sonics_rev` code selects the generation, but the code
  values are defined outside this header.
- Bus-wide uniqueness: `BusCfgRidsUnique` lifts the per-pair injectivity to a
  sequence of records with distinct core indices. No config block resource ID
  held anywhere on the bus is repeated.

## Model

| member | source | states |
|---|---|---|
| SibaVar.CfgBlockCount | sys/dev/bhnd/siba/sibavar.h:125-127 | a backplane generation maps between SIBA_CFG_NUM_2_2 and SIBA_MAX_CFG config blocks, and exactly SIBA_MAX_CFG only on Sonics 2.3 |
| SibaVar.CfgCountFitsTables | sys/dev/bhnd/siba/sibavar.h:125-127 | SIBA_CFG_NUM_2_2 <= SIBA_CFG_NUM_2_3 == SIBA_MAX_CFG, so either generation's count fits `cfg[]`, `cfg_res[]` and `cfg_rid[]` |
| SibaVar.CfgRid | sys/dev/bhnd/siba/sibavar.h:130-133 | for core indices up to MaxRidCoreIdx, the largest whose IDs fit in an `int`, a config resource ID lies between SIBA_CFG_RID_BASE and INT_MAX, and the core index and block number can be read back from it (quotient and remainder by SIBA_MAX_CFG) |
| SibaVar.CfgRidSlot | sys/dev/bhnd/siba/sibavar.h:130-133 | an ID names a (core, block) slot exactly when it is at least the base; the block is below SIBA_MAX_CFG and the ID equals SIBA_CFG_RID_BASE + block + core * SIBA_MAX_CFG |
| SibaVar.CfgRidSlotRoundTrip | sys/dev/bhnd/siba/sibavar.h:131-133 | for every core index below WrapCoreIdx, reading back the `unsigned int` ID of (core, block) gives (core, block) |
| SibaVar.HeldCfgRidsDistinct | sys/dev/bhnd/siba/sibavar.h:197-198 | in a well-formed record with any core index, no two held config block IDs are equal |
| SibaVar.CfgRidSlotComplete | sys/dev/bhnd/siba/sibavar.h:131-133 | every `int` ID from the base up is the SIBA_CFG_RID of the slot it reads back as, so the IDs from the base up cover that range with no gaps |
| SibaVar.CfgRidInjective | sys/dev/bhnd/siba/sibavar.h:131-133 | two (core, block) pairs with core < 2^31 and block < SIBA_MAX_CFG share an ID, as `unsigned int` or as the stored `int`, only if they are the same pair |
| SibaVar.CfgRidConsecutive | sys/dev/bhnd/siba/sibavar.h:131-133 | for core indices below MaxRidCoreIdx, blocks 0 and 1 of a core get consecutive IDs, and core k+1's first ID directly follows core k's last |
| SibaVar.CfgRidOrderedByCore | sys/dev/bhnd/siba/sibavar.h:131-133 | for core indices up to MaxRidCoreIdx, every ID of a lower core index is below every ID of a higher one, so per-core ranges never overlap |
| SibaVar.CfgRidRegimes | sys/dev/bhnd/siba/sibavar.h:131-133 | the macro's value is exact exactly for core indices below WrapCoreIdx; up to MaxRidCoreIdx the stored `int` is the same value and at least the base; between MaxRidCoreIdx and WrapCoreIdx the stored `int` is negative; from WrapCoreIdx up to 2^31 the wrapped ID is the exact value minus 2^32 and lies below the base; from 2^31 on, core k repeats core k - 2^31's IDs |
| SibaVar.CfgRidBoundaryValues | sys/dev/bhnd/siba/sibavar.h:131-133 | at the boundaries: core MaxRidCoreIdx + 1 gets ID 2^31, which is INT_MIN as an `int`; core WrapCoreIdx - 1's block 1 gets 2^32 - 1; core WrapCoreIdx's block 0 wraps to 0; core 2^31 collides with core 0 |
| SibaVar.BusCfgRidsUnique | sys/dev/bhnd/siba/sibavar.h:131-133 | across all well-formed records of a bus with distinct core indices, each up to MaxRidCoreIdx, the held config block IDs are pairwise distinct and at least SIBA_CFG_RID_BASE |
| SibaVar.HeldCfgRidsOwned | sys/dev/bhnd/siba/sibavar.h:197-198 | in a well-formed record with core index up to MaxRidCoreIdx, each held config ID is at least the base, reads back as a declared block of this core, and no two are equal |
| SibaVar.CoreRange | sys/dev/bhnd/siba/sibavar.h:148-154 | the core's part of a window starts at `sa_base` and is `sa_size - sa_bus_reserved` bytes long |
| SibaVar.ReservedRange | sys/dev/bhnd/siba/sibavar.h:152-153 | the bus-reserved part is `sa_bus_reserved` bytes ending at the top of the window |
| SibaVar.WindowSplits | sys/dev/bhnd/siba/sibavar.h:148-154 | each window address is in exactly one of the core part and the bus-reserved part, and reserved addresses lie above every core address |
| SibaVar.AddrSpaceAt | sys/dev/bhnd/siba/sibavar.h:192 | returns slot `i` of `addrspace[]`; for a declared slot of a well-formed record that slot keeps its reserved bytes inside its window |
| SibaVar.DeclaredSlotsInBounds | sys/dev/bhnd/siba/sibavar.h:179-193 | in a well-formed record `num_addrspace` <= SIBA_MAX_ADDRSPACE and `num_cfg_blocks` <= SIBA_MAX_CFG, so every index below a count names a slot of `addrspace[]`, `cfg[]`, `cfg_res[]` and `cfg_rid[]` |
| SibaVar.PrimaryAddrSpaceDeclared | sys/dev/bhnd/siba/sibavar.h:136-137 | SIBA_CORE_ADDRSPACE is a declared, well-formed slot of any core that declares at least one address space |
| SibaVar.IntrOf | sys/dev/bhnd/siba/sibavar.h:164-169 | a record has an interrupt exactly when `intr_en`; its resource is absent exactly when `rid == -1`; its IRQ is present exactly when `mapped`, with the stored values |
| SibaVar.IntrFields | sys/dev/bhnd/siba/sibavar.h:164-169 | the canonical encoding sets `intr_en` exactly for an assignment, and records no interrupt as `rid == -1` and not mapped |
| SibaVar.IntrRoundTrip | sys/dev/bhnd/siba/sibavar.h:164-169 | encoding an interrupt assignment into the C fields and reading it back gives the same assignment |
| SibaVar.IntrFieldsKeepMeaning | sys/dev/bhnd/siba/sibavar.h:164-169 | reading and re-encoding a descriptor keeps `intr_en`, and for an enabled interrupt keeps flag, rid, mapped and the mapped irq |

## Left out

- The function prototypes at lines 57-121 are not modelled. Their bodies are in the driver's `.c` files, outside this header. This covers `siba_probe`, `siba_attach`, `siba_detach`, `siba_resume`, `siba_suspend`, `siba_get_intr_count`, `siba_get_intr_ivec`, `siba_get_bhnd_mfgid`, `siba_parse_core_id`, `siba_add_children`, `siba_alloc_dinfo`, `siba_init_dinfo`, `siba_free_dinfo`, `siba_port_count`, `siba_is_port_valid`, `siba_port_region_count`, `siba_cfg_index`, `siba_addrspace_index`, `siba_addrspace_device_port`/`_region`, `siba_cfg_agent_port`/`_region`, `siba_find_addrspace`, `siba_find_cfg_block`, `siba_append_dinfo_region`, `siba_admatch_offset` and `siba_parse_admatch`. Any body written for them would be invented behaviour.
- `siba_write_target_state` and `siba_wait_target_busy` are left out. Their bodies are in the driver's `.c` files, outside this header, and they are register I/O with timed busy-polling.
- `struct siba_softc` (lines 204-207) is left out. It is bus framework state.
- The `resources` resource list of `siba_devinfo` (line 190) is left out. Its type is defined outside this header.
- The bus resource and PMU pointers are opaque `Handle` values, because their structures are defined outside this header.
- `struct bhnd_core_info` is reduced to `core_idx`. Its other fields are defined outside this header and nothing modelled here uses them.
- The decoding of `sonics_rev` codes into backplane generations is left out. The code values are defined outside this header.
- `SIBA_MAX_PORT` is declared as a constant but has no property. Nothing in the header uses it; its comment (line 144) ties it to the bhnd(4) port queries, whose code is in the driver's `.c` files.
- `irq` (`rman_res_t`, line 168) is taken to be a 64-bit unsigned value, the width of `uintmax_t` on the platforms the driver supports. Its type is defined outside this header.
- SibaVar.CfgRid: its contract, the bound lemmas and the lemmas that decode the stored `int` take `core_idx <= MaxRidCoreIdx` as a hypothesis, because above that limit the stored ID is no longer at least 100. The C macro has no such guard. `CfgRidRegimes` states what happens above the limit.
- SibaVar.BusCfgRidsUnique: takes `core_idx <= MaxRidCoreIdx` for every record. Its proof decodes each stored ID back to its core, and that needs the ID to fit in an `int`. The pairwise `CfgRidInjective` holds up to 2^31.
- The header's comment on `SIBA_CFG_NUM_2_3` says "sonics <= 2.3". The model reads it as the Sonics 2.3 generation, following the macro names.
