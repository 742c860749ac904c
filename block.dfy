/** The memory block handed out by the sub-allocator (`MemoryBlock` in block.rs):
    its immutable description, its mapping state machine, and the operations that
    map, unmap, write and read it through the device.

    The pure functions `MapWindow`, `MapSpec` and `UnmapSpec` describe one call of
    `map` or `unmap` as a step from a mapping state; the methods of `MemoryBlock`
    perform those steps on the block's `mapped` field and on the device, and their
    postconditions tie them to the functions. Each compare-exchange or store on
    `mapped` is one indivisible step. A panic is an `Outcome` of its own: the
    operation stops there, with whatever state it had reached. */
module Block {
  import opened Types
  import opened Align
  import opened Device
  import opened Host

  /** The `mapped` field, a `u8` holding MAPPING_STATE_UNMAPPED (0),
      MAPPING_STATE_MAPPED (1) or MAPPING_STATE_UNMAPPING (2). */
  datatype MappingState = Unmapped | Mapped | Unmapping

  /** How the block was allocated. A Linear or Buddy block may carry the host pointer
      of its persistently mapped chunk. */
  datatype MemoryBlockFlavor =
    | Dedicated
    | Linear(chunk: u64, ptr: Option<Address>)
    | Buddy(chunk: u64, index: u64, ptr: Option<Address>)

  datatype MapError = AlreadyMapped | NonHostVisible | DeviceFailure(error: DeviceError)

  /** Why an operation panicked, one reason per `expect`, `assert` or checked addition. */
  datatype PanicReason =
    | SizeExceedsDevice         // `size` does not fit a u64
    | AlignedSizeExceedsDevice  // `align_up(size)` does not fit a u64
    | OffsetOutOfBounds         // `offset >= self.size`
    | RangeOutOfBounds          // `size > self.size - offset`
    | AtomTooLarge              // the alignment shift does not fit an isize
    | BeyondHostAddressSpace    // a Linear/Buddy offset does not fit an isize
    | ArithmeticOverflow        // a u64 addition overflowed (overflow checks on)

  /** The result of a block operation, or the panic that ended it. */
  datatype Outcome<T> = Ok(value: T) | Err(error: MapError) | Panic(reason: PanicReason)
  {
    /** The same failure at another value type, as `?` or an unwinding panic passes it on. */
    function Forward<U>(): Outcome<U>
      requires !Ok?
    {
      if Err? then Err(error) else Panic(reason)
    }
  }

  /** The immutable part of a block: everything `map`, `unmap` and the byte copies consult. */
  datatype BlockView<M> = BlockView(
    memory: M,
    props: set<MemoryProperty>,
    offset: u64,
    size: u64,
    mapMask: u64,
    flavor: MemoryBlockFlavor)
  {
    predicate Valid() {
      IsAlignMask(mapMask)
    }

    /** `coherent()`: the memory needs no explicit flush or invalidate. */
    predicate Coherent() {
      HostCoherent in props
    }
  }

  /** The non-coherent alignment window of a `map` call: the requested offset rounded
      down and the requested length rounded up to the atom. */
  datatype Window = Window(alignedOffset: u64, alignedSize: u64)

  /** The checks `map` makes before anything else (block.rs:152-163), in their order:
      `len` must fit a u64, its rounded-up value too, `offset` must lie in the block,
      and `offset + len` must not pass its end. */
  function MapWindow(size: u64, mapMask: u64, offset: u64, len: nat): (r: Outcome<Window>)
    requires IsAlignMask(mapMask)
    ensures !r.Err?
    ensures r.Ok? <==> len <= U64_MAX - mapMask && offset < size && len <= size - offset
    ensures r.Ok? ==> (r.value.alignedOffset == AlignDown(offset, mapMask)
                       && AlignUp(len, mapMask) == Some(r.value.alignedSize))
  {
    if len > U64_MAX then Panic(SizeExceedsDevice)
    else if AlignUp(len, mapMask).None? then Panic(AlignedSizeExceedsDevice)
    else if offset >= size then Panic(OffsetOutOfBounds)
    else if len > size - offset then Panic(RangeOutOfBounds)
    else Ok(Window(AlignDown(offset, mapMask), AlignUp(len, mapMask).value))
  }

  /** One call of `map` or `unmap`: what it returned, the mapping state it left, and
      the device calls it made. */
  datatype MapStep<M> = MapStep(result: Outcome<Address>, state: MappingState, calls: seq<DeviceCall<M>>)
  datatype UnmapStep<M> = UnmapStep(unmapped: bool, state: MappingState, calls: seq<DeviceCall<M>>)

  /** `map(device, offset, len)` on a block described by `v` whose mapping state is `s`.
      `reply` is what the device answers if it is asked to map. */
  function MapSpec<M>(v: BlockView<M>, s: MappingState, offset: u64, len: nat,
                      reply: Reply<Address>): (r: MapStep<M>)
    requires v.Valid()
    // a failed check panics before any state change or device call
    ensures !MapWindow(v.size, v.mapMask, offset, len).Ok? ==>
              r == MapStep(MapWindow(v.size, v.mapMask, offset, len).Forward(), s, [])
    // only an unmapped block can be mapped; otherwise nothing changes
    ensures s != Unmapped ==> !r.result.Ok? && r.state == s && r.calls == []
    ensures r.result.Ok? ==> (s == Unmapped && r.state == Mapped
                              && MapWindow(v.size, v.mapMask, offset, len).Ok?)
    // only a Dedicated block calls the device, at most once
    ensures r.calls != [] ==> v.flavor.Dedicated? && |r.calls| == 1 && r.calls[0].MapCall?
    ensures r.result == Err(NonHostVisible) <==>
              MapWindow(v.size, v.mapMask, offset, len).Ok? && !v.flavor.Dedicated? && v.flavor.ptr.None?
    // a device failure rolls the state back
    ensures r.result.Err? && r.result.error.DeviceFailure? ==> r.state == Unmapped && r.calls != []
    // every other error leaves the state as it was
    ensures r.result.Err? && !r.result.error.DeviceFailure? ==> r.state == s
    ensures r.result == Err(AlreadyMapped) <==>
              && s != Unmapped
              && MapWindow(v.size, v.mapMask, offset, len).Ok?
              && (v.flavor.Dedicated? ==> offset - AlignDown(offset, v.mapMask) <= ISIZE_MAX)
              && (!v.flavor.Dedicated? ==> v.flavor.ptr.Some?)
    ensures r.result.Panic? ==> r.calls == []
  {
    var window := MapWindow(v.size, v.mapMask, offset, len);
    if !window.Ok? then MapStep(window.Forward(), s, [])
    else
      var w := window.value;
      match v.flavor
      case Dedicated =>
        var shift := offset - w.alignedOffset;
        if shift > ISIZE_MAX then MapStep(Panic(AtomTooLarge), s, [])
        else if s != Unmapped then MapStep(Err(AlreadyMapped), s, [])
        // the block is claimed (Mapped) from here on
        else if offset + w.alignedSize > U64_MAX || v.offset + w.alignedOffset > U64_MAX then
          MapStep(Panic(ArithmeticOverflow), Mapped, [])
        else
          var call := MapCall(v.memory, v.offset + w.alignedOffset, offset + w.alignedSize - w.alignedOffset);
          match reply {
            case Done(p) => MapStep(Ok(p + shift), Mapped, [call])
            case Failed(e) => MapStep(Err(DeviceFailure(e)), Unmapped, [call])
          }
      case _ =>
        if v.flavor.ptr.None? then MapStep(Err(NonHostVisible), s, [])
        else if s != Unmapped then MapStep(Err(AlreadyMapped), s, [])
        else if offset > ISIZE_MAX then MapStep(Panic(BeyondHostAddressSpace), Mapped, [])
        else MapStep(Ok(v.flavor.ptr.value + offset), Mapped, [])
  }

  /** `unmap(device)` on a block described by `v` whose mapping state is `s`. */
  function UnmapSpec<M>(v: BlockView<M>, s: MappingState): (r: UnmapStep<M>)
    ensures r.unmapped <==> s == Mapped
    ensures !r.unmapped ==> r.state == s && r.calls == []
    ensures r.unmapped ==> r.state == Unmapped
    ensures r.calls == (if r.unmapped && v.flavor.Dedicated? then [UnmapCall(v.memory)] else [])
  {
    if s != Mapped then UnmapStep(false, s, [])
    else UnmapStep(true, Unmapped, if v.flavor.Dedicated? then [UnmapCall(v.memory)] else [])
  }

  /** The range `write_bytes` flushes and `read_bytes` invalidates, as written:
      offset `align_down(offset)` relative to the block, size `align_up(len)`. It
      starts on the atom boundary at or below `offset`, but it reaches `offset + len`
      only when the offset's distance past that boundary fits in the rounding slack
      of `len`. */
  function SyncRange<M>(v: BlockView<M>, offset: u64, len: u64): (r: MappedMemoryRange<M>)
    requires v.Valid() && AlignUp(len, v.mapMask).Some?
    ensures r.memory == v.memory
    ensures Aligned(r.offset, v.mapMask) && r.offset <= offset < r.offset + v.mapMask + 1
    ensures Aligned(r.size, v.mapMask) && len <= r.size
    ensures r.offset + r.size >= offset + len <==> offset % (v.mapMask + 1) <= r.size - len
  {
    MappedMemoryRange(v.memory, AlignDown(offset, v.mapMask), AlignUp(len, v.mapMask).value)
  }

  /** What `write_bytes` and `read_bytes` return once the copy is done: `Ok` for
      coherent memory, otherwise the flush or invalidate result. */
  function SyncOutcome(coherent: bool, reply: Reply<()>): (r: Outcome<()>)
    ensures !r.Panic?
    ensures r.Ok? <==> coherent || reply.Done?
    ensures r.Err? ==> r.error == DeviceFailure(reply.error)
  {
    if coherent || reply.Done? then Ok(()) else Err(DeviceFailure(reply.error))
  }

  lemma MapDedicated<M>(v: BlockView<M>, offset: u64, len: nat, reply: Reply<Address>)
    requires v.Valid() && v.flavor.Dedicated?
    requires MapWindow(v.size, v.mapMask, offset, len).Ok?
    requires offset - AlignDown(offset, v.mapMask) <= ISIZE_MAX
    requires offset + AlignUp(len, v.mapMask).value <= U64_MAX
    requires v.offset + AlignDown(offset, v.mapMask) <= U64_MAX
    ensures var down, up := AlignDown(offset, v.mapMask), AlignUp(len, v.mapMask).value;
            var r := MapSpec(v, Unmapped, offset, len, reply);
            && r.calls == [MapCall(v.memory, v.offset + down, offset + up - down)]
            && (reply.Done? ==> r.result == Ok(reply.value + (offset - down)) && r.state == Mapped)
            && (reply.Failed? ==> r.result == Err(DeviceFailure(reply.error)) && r.state == Unmapped)
  {
  }

  lemma MapResident<M>(v: BlockView<M>, s: MappingState, offset: u64, len: nat, reply: Reply<Address>)
    requires v.Valid() && !v.flavor.Dedicated? && v.flavor.ptr.Some?
    requires MapWindow(v.size, v.mapMask, offset, len).Ok?
    ensures var r := MapSpec(v, s, offset, len, reply);
            && r.calls == []
            && (s == Unmapped && offset <= ISIZE_MAX ==> r.result == Ok(v.flavor.ptr.value + offset) && r.state == Mapped)
            && (s == Unmapped && offset > ISIZE_MAX ==> r.result.Panic? && r.state == Mapped)
            && (s != Unmapped ==> r.result == Err(AlreadyMapped) && r.state == s)
  {
  }

  /** A successful `map` followed by `unmap` leaves the block unmapped again, and the
      same `map` succeeds once more with the same pointer. */
  lemma MapUnmapMap<M>(v: BlockView<M>, offset: u64, len: nat, reply: Reply<Address>)
    requires v.Valid() && MapSpec(v, Unmapped, offset, len, reply).result.Ok?
    ensures var first := MapSpec(v, Unmapped, offset, len, reply);
            var un := UnmapSpec(v, first.state);
            && un.unmapped && un.state == Unmapped
            && MapSpec(v, un.state, offset, len, reply) == first
  {
  }

  /** Two `map` calls with no `unmap` between them cannot both succeed: once the
      first has succeeded, a second one that passes its checks is refused with
      `AlreadyMapped`, changing nothing and calling nothing. */
  lemma SecondMapRefused<M>(v: BlockView<M>, offset1: u64, len1: nat, reply1: Reply<Address>,
                            offset2: u64, len2: nat, reply2: Reply<Address>)
    requires v.Valid() && MapSpec(v, Unmapped, offset1, len1, reply1).result.Ok?
    requires MapWindow(v.size, v.mapMask, offset2, len2).Ok?
    requires v.flavor.Dedicated? ==> offset2 - AlignDown(offset2, v.mapMask) <= ISIZE_MAX
    ensures var first := MapSpec(v, Unmapped, offset1, len1, reply1);
            MapSpec(v, first.state, offset2, len2, reply2) == MapStep(Err(AlreadyMapped), Mapped, [])
  {
  }

  /** Finding: the flushed or invalidated range need not cover the bytes copied. With a
      64-byte atom, `offset == 10` and 60 bytes, the range is [0, 64) but the bytes are
      [10, 70). With 20 bytes the same range [0, 64) does cover them. */
  lemma SyncRangeMissesTail<M>(v: BlockView<M>)
    requires v.mapMask == 63
    ensures v.Valid()
    ensures SyncRange(v, 10, 20) == MappedMemoryRange(v.memory, 0, 64)
    ensures SyncRange(v, 10, 60) == MappedMemoryRange(v.memory, 0, 64) && 0 + 64 < 10 + 60
  {
    PowerOfTwoMask(6);
  }

  /** The evidently intended range: from `align_down(offset)` to `align_up(offset + len)`,
      so both ends are on atom boundaries and every copied byte is inside. */
  function IntendedSyncRange<M>(v: BlockView<M>, offset: u64, len: u64): (r: Option<MappedMemoryRange<M>>)
    requires v.Valid() && offset + len <= U64_MAX
    ensures r.None? <==> offset + len > U64_MAX - v.mapMask
    ensures r.Some? ==>
              && r.value.memory == v.memory
              && Aligned(r.value.offset, v.mapMask) && Aligned(r.value.offset + r.value.size, v.mapMask)
              && r.value.offset <= offset && offset + len <= r.value.offset + r.value.size
  {
    var start := AlignDown(offset, v.mapMask);
    match AlignUp(offset + len, v.mapMask)
    case None => None
    case Some(end) => Some(MappedMemoryRange(v.memory, start, end - start))
  }

  class MemoryBlock<M> {
    const memory: M
    const memoryType: u32
    const props: set<MemoryProperty>
    const offset: u64
    const size: u64
    const mapMask: u64
    const flavor: MemoryBlockFlavor
    var mapped: MappingState
    /** The `Relevant` leak guard: armed from construction until `Deallocate`. */
    ghost var armed: bool

    ghost predicate Valid() {
      View().Valid()
    }

    function View(): BlockView<M> {
      BlockView(memory, props, offset, size, mapMask, flavor)
    }

    /** `new`: the caller (the allocator) passes `non_coherent_atom_size - 1` as the mask. */
    constructor (memory: M, memoryType: u32, props: set<MemoryProperty>, offset: u64, size: u64,
                 mapMask: u64, flavor: MemoryBlockFlavor)
      requires IsAlignMask(mapMask)
      ensures View() == BlockView(memory, props, offset, size, mapMask, flavor)
      ensures this.memoryType == memoryType
      ensures mapped == Unmapped && armed && Valid()
    {
      this.memory := memory;
      this.memoryType := memoryType;
      this.props := props;
      this.offset := offset;
      this.size := size;
      this.mapMask := mapMask;
      this.flavor := flavor;
      mapped := Unmapped;
      armed := true;
    }

    /** `deallocate`: gives the parent memory and the flavor back to the allocator and
        disarms the leak guard. The block is consumed, so this happens once. */
    method Deallocate() returns (memory': M, flavor': MemoryBlockFlavor)
      requires armed
      modifies this`armed
      ensures memory' == memory && flavor' == flavor && !armed
    {
      armed := false;
      memory', flavor' := memory, flavor;
    }

    /** `coherent()`: writes and reads of this block need no flush or invalidate. */
    predicate Coherent()
      ensures Coherent() <==> HostCoherent in props
    {
      View().Coherent()
    }

    /** Compare-exchange Unmapped -> Mapped. */
    method AcquireMapping() returns (acquired: bool)
      modifies this`mapped
      ensures acquired <==> old(mapped) == Unmapped
      ensures mapped == if acquired then Mapped else old(mapped)
    {
      acquired := mapped == Unmapped;
      if acquired {
        mapped := Mapped;
      }
    }

    /** Store Unmapped after a failed device map. */
    method MappingFailed()
      modifies this`mapped
      ensures mapped == Unmapped
    {
      mapped := Unmapped;
    }

    /** Compare-exchange Mapped -> Unmapping. */
    method StartUnmapping() returns (started: bool)
      modifies this`mapped
      ensures started <==> old(mapped) == Mapped
      ensures mapped == if started then Unmapping else old(mapped)
    {
      started := mapped == Mapped;
      if started {
        mapped := Unmapping;
      }
    }

    /** Store Unmapped at the end of an unmap. */
    method EndUnmapping()
      modifies this`mapped
      ensures mapped == Unmapped
    {
      mapped := Unmapped;
    }

    /** `map`: a host pointer to `len` bytes at `offset` in the block, claiming the
        mapping. `reply` is the device's answer when it is asked to map. */
    method Map(device: MemoryDevice<M>, offset: u64, len: nat)
      returns (r: Outcome<Address>, ghost reply: Reply<Address>)
      requires Valid()
      requires armed
      modifies this`mapped, device`log
      ensures var step := MapSpec(View(), old(mapped), offset, len, reply);
              r == step.result && mapped == step.state && device.log == old(device.log) + step.calls
    {
      reply := Failed(DeviceError(0));  // consulted only when the device is called
      var window := MapWindow(size, mapMask, offset, len);
      if !window.Ok? {
        return window.Forward(), reply;
      }
      var w := window.value;
      match flavor {
        case Dedicated =>
          var shift := offset - w.alignedOffset;
          if shift > ISIZE_MAX {
            return Panic(AtomTooLarge), reply;
          }
          var acquired := AcquireMapping();
          if !acquired {
            return Err(AlreadyMapped), reply;
          }
          if offset + w.alignedSize > U64_MAX {
            return Panic(ArithmeticOverflow), reply;
          }
          var alignedSize := offset + w.alignedSize - w.alignedOffset;
          if this.offset + w.alignedOffset > U64_MAX {
            return Panic(ArithmeticOverflow), reply;
          }
          var result := device.MapMemory(memory, this.offset + w.alignedOffset, alignedSize);
          reply := result;
          match result {
            case Done(p) =>
              r := Ok(p + shift);
            case Failed(e) =>
              MappingFailed();
              r := Err(DeviceFailure(e));
          }
        case _ =>
          if flavor.ptr.None? {
            return Err(NonHostVisible), reply;
          }
          var acquired := AcquireMapping();
          if !acquired {
            return Err(AlreadyMapped), reply;
          }
          if offset > ISIZE_MAX {
            return Panic(BeyondHostAddressSpace), reply;
          }
          r := Ok(flavor.ptr.value + offset);
      }
    }

    /** `unmap`: releases a mapping; `false` when the block was not mapped. */
    method Unmap(device: MemoryDevice<M>) returns (unmapped: bool)
      requires armed
      modifies this`mapped, device`log
      ensures var step := UnmapSpec(View(), old(mapped));
              unmapped == step.unmapped && mapped == step.state && device.log == old(device.log) + step.calls
    {
      var started := StartUnmapping();
      if !started {
        return false;
      }
      match flavor {
        case Dedicated =>
          device.UnmapMemory(memory);
        case Linear(_, _) =>
        case Buddy(_, _, _) =>
      }
      EndUnmapping();
      return true;
    }

    /** `write_bytes`: maps `|data|` bytes at `offset`, copies `data` there, flushes
        non-coherent memory, and unmaps. `mapReply` and `flushReply` are the device's
        answers to the map and flush calls. */
    method WriteBytes(device: MemoryDevice<M>, host: HostMemory, offset: u64, data: seq<u8>)
      returns (r: Outcome<()>, ghost mapReply: Reply<Address>,
               ghost flushReply: Reply<()>)
      requires Valid()
      requires armed
      modifies this`mapped, device`log, host
      ensures var m := MapSpec(View(), old(mapped), offset, |data|, mapReply);
              if !m.result.Ok? then
                && r == m.result.Forward()
                && mapped == m.state
                && device.log == old(device.log) + m.calls
                && host.bytes == old(host.bytes)
              else
                && Overwrites(host.bytes, old(host.bytes), m.result.value, data)
                && device.log == old(device.log) + m.calls
                     + (if Coherent() then [] else [FlushCall([SyncRange(View(), offset, |data|)])])
                     + UnmapSpec(View(), Mapped).calls
                && mapped == Unmapped
                && r == SyncOutcome(Coherent(), flushReply)
    {
      flushReply := Done(());  // consulted only for non-coherent memory
      var mapped;
      mapped, mapReply := Map(device, offset, |data|);
      if !mapped.Ok? {
        return mapped.Forward(), mapReply, flushReply;
      }
      host.CopyIn(mapped.value, data);
      var result: Reply<()> := Done(());
      if !Coherent() {
        result := device.FlushMemoryRanges([SyncRange(View(), offset, |data|)]);
      }
      flushReply := result;
      var _ := Unmap(device);
      r := SyncOutcome(Coherent(), result);
    }

    /** `read_bytes`: maps `data.Length` bytes at `offset`, invalidates non-coherent
        memory, copies the bytes into `data` only if that succeeded, and unmaps. */
    method ReadBytes(device: MemoryDevice<M>, host: HostMemory, offset: u64, data: array<u8>)
      returns (r: Outcome<()>, ghost mapReply: Reply<Address>,
               ghost invalidateReply: Reply<()>)
      requires Valid()
      requires armed
      modifies this`mapped, device`log, data
      ensures var m := MapSpec(View(), old(mapped), offset, data.Length, mapReply);
              if !m.result.Ok? then
                && r == m.result.Forward()
                && mapped == m.state
                && device.log == old(device.log) + m.calls
                && data[..] == old(data[..])
              else
                && device.log == old(device.log) + m.calls
                     + (if Coherent() then [] else [InvalidateCall([SyncRange(View(), offset, data.Length)])])
                     + UnmapSpec(View(), Mapped).calls
                && mapped == Unmapped
                && r == SyncOutcome(Coherent(), invalidateReply)
                && data[..] == if r.Ok? then Slice(host.bytes, m.result.value, data.Length) else old(data[..])
    {
      invalidateReply := Done(());  // consulted only for non-coherent memory
      var mapped;
      mapped, mapReply := Map(device, offset, data.Length);
      if !mapped.Ok? {
        return mapped.Forward(), mapReply, invalidateReply;
      }
      var result: Reply<()> := Done(());
      if !Coherent() {
        result := device.InvalidateMemoryRanges([SyncRange(View(), offset, data.Length)]);
      }
      invalidateReply := result;
      r := SyncOutcome(Coherent(), result);
      if r.Ok? {
        host.CopyOut(mapped.value, data);
      }
      var _ := Unmap(device);
    }
  }

  /** Writing bytes to a coherent block whose chunk is persistently mapped, then reading
      the same range back, gives the bytes written. */
  method WriteThenRead<M>(block: MemoryBlock<M>, device: MemoryDevice<M>, host: HostMemory,
                          offset: u64, data: seq<u8>, buffer: array<u8>)
    returns (written: Outcome<()>, read: Outcome<()>)
    requires block.Valid() && block.armed && block.mapped == Unmapped && block.Coherent()
    requires !block.flavor.Dedicated? && block.flavor.ptr.Some?
    requires buffer.Length == |data|
    modifies block`mapped, device`log, host, buffer
    ensures written.Ok? ==> read.Ok? && buffer[..] == data
  {
    ghost var mapReply, flushReply, invalidateReply;
    ghost var before := host.bytes;
    written, mapReply, flushReply := block.WriteBytes(device, host, offset, data);
    if written.Ok? {
      MapResident(block.View(), Unmapped, offset, |data|, mapReply);
      ghost var at := MapSpec(block.View(), Unmapped, offset, |data|, mapReply).result.value;
      SliceOfOverwrite(host.bytes, before, at, data);
      read, mapReply, invalidateReply := block.ReadBytes(device, host, offset, buffer);
      MapResident(block.View(), Unmapped, offset, |data|, mapReply);
    } else {
      read := written;
    }
  }
}
