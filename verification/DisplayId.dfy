/**
 * The 64-bit display identifiers of the display stack.
 *
 * Bit 63 marks a virtual display. For physical displays bit 62 marks an id that is
 * stable across reboots, bits 40..55 hold the EDID manufacturer id, bits 8..39 the
 * EDID model hash and bits 0..7 the connector port. For virtual displays bit 61 marks
 * a GPU-backed display and the low 32 bits hold a base id.
 *
 * Every id kind is a wrapper around one `bv64`, so the equality of two ids of the same
 * kind is the equality of their values.
 */
module DisplayId {
  import opened Wrappers

  const FLAG_VIRTUAL: bv64 := 1 << 63
  const FLAG_STABLE: bv64 := 1 << 62
  const FLAG_GPU: bv64 := 1 << 61

  datatype DisplayId = DisplayId(value: bv64)
  datatype PhysicalDisplayId = PhysicalDisplayId(value: bv64) {
    function AsDisplayId(): DisplayId { DisplayId(value) }
  }
  datatype VirtualDisplayId = VirtualDisplayId(value: bv64) {
    function AsDisplayId(): DisplayId { DisplayId(value) }
  }
  datatype HalVirtualDisplayId = HalVirtualDisplayId(value: bv64) {
    function AsDisplayId(): DisplayId { DisplayId(value) }
  }
  datatype GpuVirtualDisplayId = GpuVirtualDisplayId(value: bv64) {
    function AsDisplayId(): DisplayId { DisplayId(value) }
  }
  /** The id of a display managed by the hardware composer. */
  datatype HalDisplayId = HalDisplayId(value: bv64) {
    function AsDisplayId(): DisplayId { DisplayId(value) }
  }

  /** `DisplayId::isVirtual`: the virtual flag is the top bit, so an id is virtual
      exactly when its unsigned value is at least 2^63. */
  predicate IsVirtual(id: DisplayId)
    ensures IsVirtual(id) <==> id.value as int >= 0x8000_0000_0000_0000
  {
    id.value & FLAG_VIRTUAL != 0
  }

  predicate HasGpuFlag(id: DisplayId) {
    id.value & FLAG_GPU != 0
  }

  predicate IsStable(id: DisplayId) {
    id.value & FLAG_STABLE != 0
  }

  /** The EDID fields a physical id packs; the header has no getters for them, they
      exist here to state that the packing loses nothing. */
  function ManufacturerId(id: PhysicalDisplayId): bv16 {
    ((id.value >> 40) & 0xFFFF) as bv16
  }

  function ModelHash(id: PhysicalDisplayId): bv32 {
    ((id.value >> 8) & 0xFFFF_FFFF) as bv32
  }

  /** `PhysicalDisplayId::getPort`: the truncation of the value to its low byte. */
  function GetPort(id: PhysicalDisplayId): bv8 {
    (id.value & 0xFF) as bv8
  }

  /** The private packing constructor of `PhysicalDisplayId`. */
  function PackPhysical(flags: bv64, port: bv8, manufacturerId: bv16, modelHash: bv32): bv64 {
    flags | ((manufacturerId as bv64) << 40) | ((modelHash as bv64) << 8) | (port as bv64)
  }

  /** `PhysicalDisplayId::fromEdid`: a stable physical id that keeps all three EDID fields. */
  function FromEdid(port: bv8, manufacturerId: bv16, modelHash: bv32): (r: PhysicalDisplayId)
    ensures !IsVirtual(r.AsDisplayId())
    ensures IsStable(r.AsDisplayId())
    ensures GetPort(r) == port
    ensures ManufacturerId(r) == manufacturerId
    ensures ModelHash(r) == modelHash
    ensures !HasGpuFlag(r.AsDisplayId())
    ensures r.value & 0x1F00_0000_0000_0000 == 0
  {
    PhysicalDisplayId(PackPhysical(FLAG_STABLE, port, manufacturerId, modelHash))
  }

  /** `PhysicalDisplayId::fromPort`: an unstable id whose value is the port number itself. */
  function FromPort(port: bv8): (r: PhysicalDisplayId)
    ensures r.value as int == port as int
    ensures !IsVirtual(r.AsDisplayId())
    ensures !IsStable(r.AsDisplayId())
    ensures GetPort(r) == port
  {
    PhysicalDisplayId(PackPhysical(0, port, 0, 0))
  }

  /** `PhysicalDisplayId::fromValue`: the raw value, unchecked. It agrees with the cast
      exactly on the values the cast accepts. */
  function PhysicalFromValue(value: bv64): (r: PhysicalDisplayId)
    ensures r.AsDisplayId() == DisplayId.DisplayId(value)
    ensures PhysicalTryCast(DisplayId.DisplayId(value)) == Some(r) <==> !IsVirtual(r.AsDisplayId())
  {
    PhysicalDisplayId(value)
  }

  /** `PhysicalDisplayId::tryCast`. */
  function PhysicalTryCast(id: DisplayId): (r: Option<PhysicalDisplayId>)
    ensures r.Some? <==> id.value as int < 0x8000_0000_0000_0000
    ensures r.Some? ==> r.value.AsDisplayId() == id
  {
    if IsVirtual(id) then None else Some(PhysicalDisplayId(id.value))
  }

  /** The protected `VirtualDisplayId(uint64_t)` constructor, which adds the virtual flag. */
  function VirtualFromBase(value: bv64): (r: VirtualDisplayId)
    ensures IsVirtual(r.AsDisplayId())
    ensures r.value & 0x7FFF_FFFF_FFFF_FFFF == value & 0x7FFF_FFFF_FFFF_FFFF
  {
    VirtualDisplayId(FLAG_VIRTUAL | value)
  }

  /** `VirtualDisplayId::fromValue`, which keeps the raw value and does not add the flag. */
  function VirtualFromValue(value: bv64): (r: VirtualDisplayId)
    ensures r.AsDisplayId() == DisplayId.DisplayId(value)
    ensures VirtualTryCast(DisplayId.DisplayId(value)) == Some(r) <==> IsVirtual(r.AsDisplayId())
  {
    VirtualDisplayId(value)
  }

  /** `VirtualDisplayId::tryCast`. */
  function VirtualTryCast(id: DisplayId): (r: Option<VirtualDisplayId>)
    ensures r.Some? <==> id.value as int >= 0x8000_0000_0000_0000
    ensures r.Some? ==> r.value.AsDisplayId() == id
  {
    if IsVirtual(id) then Some(VirtualDisplayId(id.value)) else None
  }

  /** `HalVirtualDisplayId(BaseId)`: the base id with the virtual flag and nothing else. */
  function HalVirtual(baseId: bv32): (r: HalVirtualDisplayId)
    ensures IsVirtual(r.AsDisplayId()) && !HasGpuFlag(r.AsDisplayId())
    ensures r.value & 0xFFFF_FFFF == baseId as bv64
    ensures r.value & 0x7FFF_FFFF_0000_0000 == 0
  {
    HalVirtualDisplayId(FLAG_VIRTUAL | baseId as bv64)
  }

  /** `HalVirtualDisplayId::fromValue`: the raw value, unchecked, so it can hold an id
      that is not virtual or is GPU-backed. It agrees with the cast exactly on the values
      the cast accepts. */
  function HalVirtualFromValue(value: bv64): (r: HalVirtualDisplayId)
    ensures r.AsDisplayId() == DisplayId.DisplayId(value)
    ensures HalVirtualTryCast(DisplayId.DisplayId(value)) == Some(r)
            <==> IsVirtual(r.AsDisplayId()) && !HasGpuFlag(r.AsDisplayId())
  {
    HalVirtualDisplayId(value)
  }

  /** `HalVirtualDisplayId::tryCast`: virtual and not GPU-backed. */
  function HalVirtualTryCast(id: DisplayId): (r: Option<HalVirtualDisplayId>)
    ensures r.Some? <==> id.value as int >= 0x8000_0000_0000_0000 && !HasGpuFlag(id)
    ensures r.Some? ==> r.value.AsDisplayId() == id
  {
    if IsVirtual(id) && !HasGpuFlag(id) then Some(HalVirtualDisplayId(id.value)) else None
  }

  /** `GpuVirtualDisplayId(BaseId)`: the base id with the virtual and GPU flags. */
  function GpuVirtual(baseId: bv32): (r: GpuVirtualDisplayId)
    ensures IsVirtual(r.AsDisplayId()) && HasGpuFlag(r.AsDisplayId())
    ensures r.value & 0xFFFF_FFFF == baseId as bv64
    ensures r.value & 0x5FFF_FFFF_0000_0000 == 0
  {
    GpuVirtualDisplayId(FLAG_VIRTUAL | FLAG_GPU | baseId as bv64)
  }

  /** `GpuVirtualDisplayId::fromValue`: the raw value, unchecked. It agrees with the cast
      exactly on the values the cast accepts. */
  function GpuVirtualFromValue(value: bv64): (r: GpuVirtualDisplayId)
    ensures r.AsDisplayId() == DisplayId.DisplayId(value)
    ensures GpuVirtualTryCast(DisplayId.DisplayId(value)) == Some(r)
            <==> IsVirtual(r.AsDisplayId()) && HasGpuFlag(r.AsDisplayId())
  {
    GpuVirtualDisplayId(value)
  }

  /** `GpuVirtualDisplayId::tryCast`: virtual and GPU-backed. */
  function GpuVirtualTryCast(id: DisplayId): (r: Option<GpuVirtualDisplayId>)
    ensures r.Some? <==> id.value as int >= 0x8000_0000_0000_0000 && HasGpuFlag(id)
    ensures r.Some? ==> r.value.AsDisplayId() == id
  {
    if IsVirtual(id) && HasGpuFlag(id) then Some(GpuVirtualDisplayId(id.value)) else None
  }

  /** The implicit conversion of a physical id to `HalDisplayId`: a genuine physical id
      is one the HAL cast accepts, and the physical cast gives it back. */
  function HalFromPhysical(id: PhysicalDisplayId): (r: HalDisplayId)
    ensures r.AsDisplayId() == id.AsDisplayId()
    ensures !IsVirtual(id.AsDisplayId()) ==> HalTryCast(id.AsDisplayId()) == Some(r)
    ensures PhysicalTryCast(r.AsDisplayId()) == Some(id) <==> !IsVirtual(id.AsDisplayId())
  {
    HalDisplayId(id.value)
  }

  /** The implicit conversion of a HAL-virtual id to `HalDisplayId`: a genuine HAL-virtual
      id is one the HAL cast accepts, and the HAL-virtual cast gives it back. */
  function HalFromHalVirtual(id: HalVirtualDisplayId): (r: HalDisplayId)
    ensures r.AsDisplayId() == id.AsDisplayId()
    ensures HalVirtualTryCast(id.AsDisplayId()).Some? ==> HalTryCast(id.AsDisplayId()) == Some(r)
    ensures HalVirtualTryCast(r.AsDisplayId()) == Some(id) <==> HalVirtualTryCast(id.AsDisplayId()).Some?
  {
    HalDisplayId(id.value)
  }

  /** `HalDisplayId::fromValue`: the raw value, unchecked, so it can hold a GPU-backed
      virtual id. It agrees with the cast exactly on the values the cast accepts. */
  function HalFromValue(value: bv64): (r: HalDisplayId)
    ensures r.AsDisplayId() == DisplayId.DisplayId(value)
    ensures HalTryCast(DisplayId.DisplayId(value)) == Some(r)
            <==> !(IsVirtual(r.AsDisplayId()) && HasGpuFlag(r.AsDisplayId()))
  {
    HalDisplayId(value)
  }

  /** `HalDisplayId::tryCast`: every id except a GPU-backed virtual one. */
  function HalTryCast(id: DisplayId): (r: Option<HalDisplayId>)
    ensures r.Some? <==> !(IsVirtual(id) && HasGpuFlag(id))
    ensures r.Some? ==> r.value.AsDisplayId() == id
  {
    if GpuVirtualTryCast(id).Some? then None else Some(HalDisplayId(id.value))
  }

  /** Physical, HAL-virtual and GPU-virtual ids partition the 64-bit values: exactly one
      of the three casts succeeds, and the HAL cast succeeds exactly for the first two. */
  lemma CastsPartition(id: DisplayId)
    ensures PhysicalTryCast(id).Some? || HalVirtualTryCast(id).Some? || GpuVirtualTryCast(id).Some?
    ensures !(PhysicalTryCast(id).Some? && HalVirtualTryCast(id).Some?)
    ensures !(PhysicalTryCast(id).Some? && GpuVirtualTryCast(id).Some?)
    ensures !(HalVirtualTryCast(id).Some? && GpuVirtualTryCast(id).Some?)
    ensures HalTryCast(id).Some? <==> PhysicalTryCast(id).Some? || HalVirtualTryCast(id).Some?
    ensures VirtualTryCast(id).Some? <==> HalVirtualTryCast(id).Some? || GpuVirtualTryCast(id).Some?
  {
  }

  /** Every constructed id is accepted by its own cast and by no other kind's cast, and
      the cast gives back the same id. */
  lemma ConstructedIdsRoundTrip(port: bv8, manufacturerId: bv16, modelHash: bv32, baseId: bv32)
    ensures PhysicalTryCast(FromEdid(port, manufacturerId, modelHash).AsDisplayId())
            == Some(FromEdid(port, manufacturerId, modelHash))
    ensures PhysicalTryCast(FromPort(port).AsDisplayId()) == Some(FromPort(port))
    ensures HalVirtualTryCast(HalVirtual(baseId).AsDisplayId()) == Some(HalVirtual(baseId))
    ensures GpuVirtualTryCast(HalVirtual(baseId).AsDisplayId()).None?
    ensures GpuVirtualTryCast(GpuVirtual(baseId).AsDisplayId()) == Some(GpuVirtual(baseId))
    ensures HalVirtualTryCast(GpuVirtual(baseId).AsDisplayId()).None?
    ensures HalTryCast(HalVirtual(baseId).AsDisplayId()).Some?
    ensures HalTryCast(GpuVirtual(baseId).AsDisplayId()).None?
    ensures HalTryCast(FromEdid(port, manufacturerId, modelHash).AsDisplayId()).Some?
  {
  }

  /** The EDID packing is injective: distinct EDID triples never share a display id. */
  lemma FromEdidInjective(p: bv8, m: bv16, h: bv32, p': bv8, m': bv16, h': bv32)
    requires FromEdid(p, m, h) == FromEdid(p', m', h')
    ensures p == p' && m == m' && h == h'
  {
    assert GetPort(FromEdid(p, m, h)) == p;
    assert GetPort(FromEdid(p', m', h')) == p';
    assert ManufacturerId(FromEdid(p, m, h)) == m;
    assert ManufacturerId(FromEdid(p', m', h')) == m';
    assert ModelHash(FromEdid(p, m, h)) == h;
    assert ModelHash(FromEdid(p', m', h')) == h';
  }

  /** The contract of `FromEdid` pins its value: any physical id with those fields, the
      stable flag, no virtual or GPU flag and clear bits 56..60 is the EDID id. */
  lemma FromEdidDeterminedByFields(id: PhysicalDisplayId, p: bv8, m: bv16, h: bv32)
    requires !IsVirtual(id.AsDisplayId()) && IsStable(id.AsDisplayId()) && !HasGpuFlag(id.AsDisplayId())
    requires GetPort(id) == p && ManufacturerId(id) == m && ModelHash(id) == h
    requires id.value & 0x1F00_0000_0000_0000 == 0
    ensures id == FromEdid(p, m, h)
  {
    assert id.value & FLAG_VIRTUAL == 0;
    assert id.value == PackPhysical(FLAG_STABLE, p, m, h);
  }

  /** An EDID id and a port-only id never coincide: the stable flag tells them apart. */
  lemma StableAndPortIdsDiffer(p: bv8, m: bv16, h: bv32, q: bv8)
    ensures FromEdid(p, m, h) != FromPort(q)
  {
    assert IsStable(FromEdid(p, m, h).AsDisplayId());
    assert !IsStable(FromPort(q).AsDisplayId());
  }

  /** The `fromValue` factories keep the raw bits: a value without the virtual flag stays
      non-virtual when wrapped as a virtual id, unlike the base-id constructors. */
  lemma FromValueSkipsVirtualFlag(value: bv64)
    requires value as int < 0x8000_0000_0000_0000
    ensures !IsVirtual(VirtualFromValue(value).AsDisplayId())
    ensures !IsVirtual(HalVirtualFromValue(value).AsDisplayId())
    ensures !IsVirtual(GpuVirtualFromValue(value).AsDisplayId())
    ensures IsVirtual(VirtualFromBase(value).AsDisplayId())
  {
  }
}
