/** Placement of graph arguments in one staging region. */
module StagingMemory {
  import opened Numbers
  import opened Wrappers

  const ALIGNMENT: nat := 4096

  datatype Argument = Argument(name: string, bytes: nat)

  datatype MemoryError = AlreadyAllocated | EmptyBuffer | NotAllocated | UnknownName(name: string)

  /** Room reserved for an argument: always at least one byte more than it needs. */
  function SlotSize(bytes: nat): nat {
    bytes + ALIGNMENT - bytes % ALIGNMENT
  }

  /** Where the `i`-th appended argument begins. */
  function SlotStart(args: seq<Argument>, i: nat): nat
    requires i <= |args|
  {
    if i == 0 then 0 else SlotStart(args, i - 1) + SlotSize(args[i - 1].bytes)
  }

  function RegionSize(args: seq<Argument>): nat {
    SlotStart(args, |args|)
  }

  /** The lookup table after appending `args` in order: a name that is appended again keeps its first entry. */
  function OffsetTable(args: seq<Argument>): map<string, nat> {
    if args == [] then map[] else
    var before := args[..|args| - 1];
    var name := args[|args| - 1].name;
    if name in OffsetTable(before) then OffsetTable(before) else OffsetTable(before)[name := RegionSize(before)]
  }

  // ---- geometry ----

  lemma SlotSizeIsPages(bytes: nat)
    ensures SlotSize(bytes) == 4096 * (bytes / 4096 + 1)
    ensures SlotSize(bytes) % 4096 == 0 && bytes < SlotSize(bytes)
  {
    assert bytes == ALIGNMENT * (bytes / ALIGNMENT) + bytes % ALIGNMENT;
  }

  lemma {:induction false} SlotStartAligned(args: seq<Argument>, i: nat)
    requires i <= |args|
    ensures SlotStart(args, i) % ALIGNMENT == 0
  {
    if i > 0 {
      SlotStartAligned(args, i - 1);
      SlotSizeIsPages(args[i - 1].bytes);
    }
  }

  lemma {:induction false} SlotStartMonotone(args: seq<Argument>, i: nat, j: nat)
    requires i <= j <= |args|
    ensures SlotStart(args, i) <= SlotStart(args, j)
  {
    if i < j {
      SlotStartMonotone(args, i, j - 1);
    }
  }

  lemma {:induction false} SlotStartOfPrefix(args: seq<Argument>, n: nat, i: nat)
    requires i <= n <= |args|
    ensures SlotStart(args[..n], i) == SlotStart(args, i)
  {
    if i > 0 {
      SlotStartOfPrefix(args, n, i - 1);
    }
  }

  /** Slots are page aligned, in order of appending, pairwise disjoint with a gap between any two, and end
      strictly inside the region. */
  lemma SlotsAreSeparate(args: seq<Argument>, i: nat)
    requires i < |args|
    ensures SlotStart(args, i) % ALIGNMENT == 0
    ensures SlotStart(args, i) + args[i].bytes < SlotStart(args, i + 1) <= RegionSize(args)
    ensures forall j: nat | i < j < |args| :: SlotStart(args, i) + args[i].bytes < SlotStart(args, j)
  {
    SlotStartAligned(args, i);
    SlotSizeIsPages(args[i].bytes);
    SlotStartMonotone(args, i + 1, |args|);
    forall j: nat | i < j < |args| ensures SlotStart(args, i) + args[i].bytes < SlotStart(args, j) {
      SlotStartMonotone(args, i + 1, j);
    }
  }

  /** The size of a region is the sum of 4096 * (bytes / 4096 + 1). */
  lemma {:induction false} RegionSizeIsPages(args: seq<Argument>)
    ensures RegionSize(args) == ALIGNMENT * Pages(args)
  {
    if args != [] {
      var before := args[..|args| - 1];
      RegionSizeIsPages(before);
      SlotStartOfPrefix(args, |before|, |before|);
      SlotSizeIsPages(args[|before|].bytes);
    }
  }

  function Pages(args: seq<Argument>): nat {
    if args == [] then 0 else Pages(args[..|args| - 1]) + args[|args| - 1].bytes / ALIGNMENT + 1
  }

  /** The table holds exactly the appended names ... */
  lemma {:induction false} TableHoldsNames(args: seq<Argument>, name: string)
    ensures name in OffsetTable(args) <==> exists i :: 0 <= i < |args| && args[i].name == name
  {
    if args != [] {
      var before := args[..|args| - 1];
      TableHoldsNames(before, name);
      if i :| 0 <= i < |args| && args[i].name == name {
        assert i < |before| ==> before[i].name == name;
      }
    }
  }

  /** ... each at the slot of its first occurrence. */
  lemma {:induction false} TableFindsFirst(args: seq<Argument>, i: nat)
    requires i < |args| && forall j | 0 <= j < i :: args[j].name != args[i].name
    ensures args[i].name in OffsetTable(args) && OffsetTable(args)[args[i].name] == SlotStart(args, i)
  {
    var before := args[..|args| - 1];
    SlotStartOfPrefix(args, |before|, i);
    if i < |before| {
      assert before[i] == args[i];
      TableFindsFirst(before, i);
    } else {
      TableHoldsNames(before, args[i].name);
    }
  }

  // ---- contents ----

  /** `region` with `data` stored from `at` on. */
  function Splice(region: seq<byte>, at: nat, data: seq<byte>): (r: seq<byte>)
    requires at + |data| <= |region|
    ensures |r| == |region|
    ensures forall k | 0 <= k < |region| :: r[k] == if at <= k < at + |data| then data[k - at] else region[k]
  {
    region[..at] + data + region[at + |data|..]
  }

  /** What argument `i` of a region holds. */
  function SlotContents(args: seq<Argument>, region: seq<byte>, i: nat): (data: seq<byte>)
    requires i < |args| && |region| == RegionSize(args)
    ensures |data| == args[i].bytes
  {
    SlotsAreSeparate(args, i);
    region[SlotStart(args, i)..SlotStart(args, i) + args[i].bytes]
  }

  /** Copies argument `i` from `src` to `dst`. */
  function CopyArgument(args: seq<Argument>, dst: seq<byte>, src: seq<byte>, i: nat): (r: seq<byte>)
    requires i < |args| && |dst| == |src| == RegionSize(args)
    ensures |r| == |dst|
    ensures forall k: nat | k < |dst| :: r[k] == if InSlot(args, i, k) then src[k] else dst[k]
  {
    SlotsAreSeparate(args, i);
    Splice(dst, SlotStart(args, i), SlotContents(args, src, i))
  }

  /** Copies the first `n` arguments from `src` to `dst`, one at a time. */
  function CopyArguments(args: seq<Argument>, dst: seq<byte>, src: seq<byte>, n: nat): (r: seq<byte>)
    requires n <= |args| && |dst| == |src| == RegionSize(args)
    ensures |r| == |dst|
  {
    if n == 0 then dst else
    CopyArgument(args, CopyArguments(args, dst, src, n - 1), src, n - 1)
  }

  /** Byte `k` belongs to one of the first `n` arguments. */
  predicate Covered(args: seq<Argument>, n: nat, k: nat)
    requires n <= |args|
  {
    n > 0 && (InSlot(args, n - 1, k) || Covered(args, n - 1, k))
  }

  lemma {:induction false} SlotIsCovered(args: seq<Argument>, n: nat, i: nat, k: nat)
    requires i < n <= |args| && InSlot(args, i, k)
    ensures Covered(args, n, k)
  {
    if i < n - 1 {
      SlotIsCovered(args, n - 1, i, k);
    }
  }

  lemma {:induction false} CopiedByte(args: seq<Argument>, dst: seq<byte>, src: seq<byte>, n: nat, k: nat)
    requires n <= |args| && |dst| == |src| == RegionSize(args) && k < |dst|
    ensures CopyArguments(args, dst, src, n)[k] == if Covered(args, n, k) then src[k] else dst[k]
  {
    if n > 0 {
      CopiedByte(args, dst, src, n - 1, k);
    }
  }

  lemma SlotsAgree(args: seq<Argument>, a: seq<byte>, b: seq<byte>, i: nat)
    requires |a| == |b| == RegionSize(args) && i < |args|
    requires forall k: nat | k < |a| && InSlot(args, i, k) :: a[k] == b[k]
    ensures SlotContents(args, a, i) == SlotContents(args, b, i)
  {
    SlotsAreSeparate(args, i);
    var start, end := SlotStart(args, i), SlotStart(args, i) + args[i].bytes;
    assert a[start..end] == b[start..end];
  }

  lemma CopiedArgument(args: seq<Argument>, dst: seq<byte>, src: seq<byte>, n: nat, i: nat)
    requires i < n <= |args| && |dst| == |src| == RegionSize(args)
    ensures SlotContents(args, CopyArguments(args, dst, src, n), i) == SlotContents(args, src, i)
  {
    var copied := CopyArguments(args, dst, src, n);
    forall k: nat | k < |copied| && InSlot(args, i, k) ensures copied[k] == src[k] {
      SlotIsCovered(args, n, i, k);
      CopiedByte(args, dst, src, n, k);
    }
    SlotsAgree(args, copied, src, i);
  }

  /** One bulk copy of a region (its result is `src`) moves the same arguments as copying each on its own, and
      the latter touches nothing else. */
  lemma {:induction false} BulkCopyCopiesEveryArgument(args: seq<Argument>, dst: seq<byte>, src: seq<byte>)
    requires |dst| == |src| == RegionSize(args)
    ensures var copied := CopyArguments(args, dst, src, |args|);
            && (forall i: nat | i < |args| :: SlotContents(args, copied, i) == SlotContents(args, src, i))
            && (forall k: nat | k < |dst| && !Covered(args, |args|, k) :: copied[k] == dst[k])
  {
    var copied := CopyArguments(args, dst, src, |args|);
    forall i: nat | i < |args| ensures SlotContents(args, copied, i) == SlotContents(args, src, i) {
      CopiedArgument(args, dst, src, |args|, i);
    }
    forall k: nat | k < |dst| && !Covered(args, |args|, k) ensures copied[k] == dst[k] {
      CopiedByte(args, dst, src, |args|, k);
    }
  }

  predicate InSlot(args: seq<Argument>, i: nat, k: int)
    requires i < |args|
  {
    SlotStart(args, i) <= k < SlotStart(args, i) + args[i].bytes
  }

  /** Storing an argument in its slot leaves every other slot alone. */
  lemma SpliceKeepsOtherSlots(args: seq<Argument>, region: seq<byte>, i: nat, data: seq<byte>)
    requires i < |args| && |region| == RegionSize(args) && |data| == args[i].bytes
    ensures SlotStart(args, i) + |data| <= |region|
    ensures forall j: nat | j < |args| ::
              SlotContents(args, Splice(region, SlotStart(args, i), data), j)
              == if j == i then data else SlotContents(args, region, j)
  {
    SlotsAreSeparate(args, i);
    var after := Splice(region, SlotStart(args, i), data);
    forall j: nat | j < |args|
      ensures SlotContents(args, after, j) == if j == i then data else SlotContents(args, region, j)
    {
      SlotsAreSeparate(args, j);
      assert j != i ==> forall k | 0 <= k < args[j].bytes ::
        SlotContents(args, after, j)[k] == SlotContents(args, region, j)[k];
    }
  }

  // ---- the unit itself ----

  /** Elements a tensor of these dimensions has. */
  function Elements(dims: seq<nat>): nat {
    if dims == [] then 1 else Elements(dims[..|dims| - 1]) * dims[|dims| - 1]
  }

  /** No dimensions make one element, and each further one as many times more. */
  lemma {:induction false} ElementsMultiply(a: seq<nat>, b: seq<nat>)
    ensures Elements(a + b) == Elements(a) * Elements(b) && Elements([]) == 1
    ensures |a| == 1 ==> Elements(a) == a[0]
  {
    if |a| == 1 {
      assert a[..0] == [];
    }
    if b == [] {
      assert a + b == a;
    } else {
      assert (a + b)[..|a + b| - 1] == a + b[..|b| - 1];
      ElementsMultiply(a, b[..|b| - 1]);
      TimesAssociative(Elements(a), Elements(b[..|b| - 1]), b[|b| - 1]);
    }
  }

  lemma TimesAssociative(x: nat, y: nat, z: nat)
    ensures x * y * z == x * (y * z)
  {
  }

  /** Bytes an argument needs: the least whole number of bytes that holds all its bits. */
  method SizeIOBytes(dims: seq<nat>, bitsPerElement: nat) returns (bytes: nat)
    ensures 8 * bytes >= Elements(dims) * bitsPerElement
    ensures forall fewer: nat | 8 * fewer >= Elements(dims) * bitsPerElement :: bytes <= fewer
  {
    var elements := 1;
    for i := 0 to |dims|
      invariant elements == Elements(dims[..i])
    {
      assert dims[..i + 1][..i] == dims[..i];
      elements := elements * dims[i];
    }
    assert dims[..|dims|] == dims;
    bytes := (elements * bitsPerElement + 7) / 8;
  }

  datatype Allocation = Allocation(address: nat, size: nat)

  class MemoryManagementUnit {
    var size: nat
    var offsets: map<string, nat>
    var host: Option<Allocation>
    var device: Option<Allocation>
    ghost var args: seq<Argument>

    ghost predicate Valid()
      reads this
    {
      size == RegionSize(args) && offsets == OffsetTable(args)
    }

    constructor ()
      ensures Valid() && args == [] && host == None && device == None
    {
      size, offsets, host, device, args := 0, map[], None, None, [];
    }

    method AppendArgument(arg: Argument)
      requires Valid()
      modifies this
      ensures Valid() && args == old(args) + [arg]
      ensures host == old(host) && device == old(device)
    {
      if arg.name !in offsets {
        offsets := offsets[arg.name := size];
      }
      SlotStartOfPrefix(args + [arg], |args|, |args|);
      assert (args + [arg])[..|args|] == args;
      size := size + (arg.bytes + ALIGNMENT - arg.bytes % ALIGNMENT);
      args := args + [arg];
    }

    /** `address` is what the driver returns for a host allocation. */
    method AllocateHost(address: nat) returns (r: Outcome<MemoryError>)
      requires Valid()
      modifies `host
      ensures Valid()
      ensures r == (if old(host).Some? && old(host).value.size != 0 then Fail(AlreadyAllocated)
                    else if args == [] then Fail(EmptyBuffer) else Pass)
      ensures host == if r.Pass? then Some(Allocation(address, RegionSize(args))) else old(host)
    {
      RegionEmptyIff(args);
      if host.Some? && host.value.size != 0 {
        return Fail(AlreadyAllocated);
      }
      if 0 == size {
        return Fail(EmptyBuffer);
      }
      host := Some(Allocation(address, size));
      return Pass;
    }

    method AllocateHostAndDevice(address: nat, deviceAddress: nat) returns (r: Outcome<MemoryError>)
      requires Valid()
      modifies `host, `device
      ensures Valid()
      ensures r == (if old(host).Some? && old(host).value.size != 0 then Fail(AlreadyAllocated)
                    else if args == [] then Fail(EmptyBuffer) else Pass)
      ensures host == if r.Pass? then Some(Allocation(address, RegionSize(args))) else old(host)
      ensures device == if r.Pass? then Some(Allocation(deviceAddress, RegionSize(args))) else old(device)
    {
      r := AllocateHost(address);
      if r.Pass? {
        device := Some(Allocation(deviceAddress, size));
      }
    }

    method GetHostPtr(name: string) returns (r: Result<nat, MemoryError>)
      requires Valid()
      ensures r == PointerInto(host, args, name)
    {
      r := Lookup(host, name);
    }

    method GetDevicePtr(name: string) returns (r: Result<nat, MemoryError>)
      requires Valid()
      ensures r == PointerInto(device, args, name)
    {
      r := Lookup(device, name);
    }

    method Lookup(from: Option<Allocation>, name: string) returns (r: Result<nat, MemoryError>)
      requires Valid()
      ensures r == PointerInto(from, args, name)
    {
      if from.None? || from.value.address == 0 {
        return Err(NotAllocated);
      }
      if name !in offsets {
        return Err(UnknownName(name));
      }
      return Ok(offsets[name] + from.value.address);
    }

    method CheckHostPtr(ptr: nat) returns (inside: bool)
      requires Valid()
      ensures inside == PointsInto(host, args, ptr)
    {
      var from := if host.Some? then host.value.address else 0;
      inside := ptr >= from && from + size > ptr;
    }
  }

  function PointerInto(from: Option<Allocation>, args: seq<Argument>, name: string): Result<nat, MemoryError> {
    if from.None? || from.value.address == 0 then Err(NotAllocated)
    else if name !in OffsetTable(args) then Err(UnknownName(name))
    else Ok(OffsetTable(args)[name] + from.value.address)
  }

  /** An address inside the host region.  With nothing allocated the region is taken to begin at address 0. */
  predicate PointsInto(host: Option<Allocation>, args: seq<Argument>, ptr: nat) {
    var from := if host.Some? then host.value.address else 0;
    from <= ptr < from + RegionSize(args)
  }

  lemma RegionEmptyIff(args: seq<Argument>)
    ensures RegionSize(args) == 0 <==> args == []
  {
    RegionSizeIsPages(args);
  }

  /** A name resolves to the slot of the first argument appended under it. */
  lemma {:induction false} NameResolvesToItsSlot(from: Allocation, args: seq<Argument>, i: nat)
    requires i < |args| && (forall j | 0 <= j < i :: args[j].name != args[i].name) && from.address != 0
    ensures PointerInto(Some(from), args, args[i].name) == Ok(SlotStart(args, i) + from.address)
  {
    TableFindsFirst(args, i);
  }

  /** There is no pointer without memory, and none for a name that was not appended. */
  lemma PointersFail(from: Option<Allocation>, args: seq<Argument>, name: string)
    ensures PointerInto(from, args, name) == Err(NotAllocated) <==> from.None? || from.value.address == 0
    ensures PointerInto(from, args, name).Ok? <==>
            from.Some? && from.value.address != 0 && exists i :: 0 <= i < |args| && args[i].name == name
    ensures from.Some? && from.value.address != 0 && !PointerInto(from, args, name).Ok? ==>
              PointerInto(from, args, name) == Err(UnknownName(name))
  {
    TableHoldsNames(args, name);
  }

  lemma SlotsDisjoint(args: seq<Argument>, i: nat, j: nat, k: int)
    requires i < |args| && j < |args| && i != j
    ensures !(InSlot(args, i, k) && InSlot(args, j, k))
  {
    SlotsAreSeparate(args, if i < j then i else j);
  }

  /** The region test ends where the region does; without memory it takes the region to be at the start. */
  lemma RegionTestIsTight(host: Allocation, args: seq<Argument>, ptr: nat)
    ensures PointsInto(None, args, ptr) <==> PointsInto(Some(Allocation(0, 0)), args, ptr)
    ensures ptr < host.address ==> !PointsInto(Some(host), args, ptr)
    ensures ptr == host.address + RegionSize(args) ==> !PointsInto(Some(host), args, ptr)
    ensures args != [] ==> PointsInto(Some(host), args, host.address + RegionSize(args) - 1)
    ensures args != [] ==> PointsInto(Some(host), args, host.address)
  {
    RegionEmptyIff(args);
  }

  /** Every byte of every argument passes the region test, and belongs to no other argument: the test cannot
      tell one slot from another. */
  lemma RegionTestAcceptsEverySlot(host: Allocation, args: seq<Argument>, i: nat, k: nat)
    requires i < |args| && InSlot(args, i, k)
    ensures PointsInto(Some(host), args, host.address + k)
    ensures forall j: nat | j < |args| && j != i :: !InSlot(args, j, k)
  {
    SlotsAreSeparate(args, i);
    forall j: nat | j < |args| && j != i ensures !InSlot(args, j, k) {
      SlotsDisjoint(args, i, j, k);
    }
  }

  // ---- ownership of allocations ----

  /** The driver's side: the addresses handed out and not yet given back. */
  class Driver {
    var live: set<nat>

    method Release(address: nat)
      requires address in live
      modifies this
      ensures live == old(live) - {address}
    {
      live := live - {address};
    }
  }

  /** A host or device allocation that can be moved but not copied. */
  class MemoryHandle {
    var size: nat
    var data: nat

    method Free(driver: Driver, ghost handles: set<MemoryHandle>)
      requires this in handles && EachOwnedOnce(driver, handles)
      modifies this`size, this`data, driver
      ensures EachOwnedOnce(driver, handles) && size == 0
      ensures driver.live == old(driver.live) - if old(size) != 0 then {old(data)} else {}
    {
      if size != 0 {
        size := 0;
        driver.Release(data);
        data := 0;
      }
    }

    method MoveFrom(other: MemoryHandle, driver: Driver, ghost handles: set<MemoryHandle>)
      requires this in handles && other in handles && EachOwnedOnce(driver, handles)
      modifies this, other, driver
      ensures EachOwnedOnce(driver, handles)
      ensures size == old(other.size) && (size != 0 ==> data == old(other.data))
      ensures other != this ==> other.size == 0
      ensures driver.live == old(driver.live) - if other != this && old(size) != 0 then {old(data)} else {}
    {
      if this == other {
        return;
      }
      Free(driver, handles);
      size := other.size;
      data := other.data;
      other.size := 0;
      other.data := 0;
    }
  }

  /** Every live allocation belongs to exactly one handle and no handle names a dead one: nothing leaks and
      nothing is freed twice. */
  ghost predicate EachOwnedOnce(driver: Driver, handles: set<MemoryHandle>)
    reads driver, handles
  {
    && (forall h | h in handles && h.size != 0 :: h.data in driver.live)
    && (forall h, h' | h in handles && h' in handles && h != h' && h.size != 0 && h'.size != 0 :: h.data != h'.data)
    && (forall a | a in driver.live :: exists h :: h in handles && h.size != 0 && h.data == a)
  }
}
