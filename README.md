# Memory block of the gpu-alloc sub-allocator, in Dafny

This project models `MemoryBlock`, the sub-allocation that gpu-alloc hands to
applications (gpu-alloc/src/block.rs). A block is a byte range of a device memory
object. It has a property set, a non-coherent alignment mask, an allocation flavor
(Dedicated, Linear or Buddy) and a three-state mapping field. The model covers:

- **the mapping state machine**: `Unmapped`, `Mapped` and `Unmapping`, the `u8` values 0, 1 and 2.
  It is driven by `acquire_mapping`, `mapping_failed`, `start_unmapping` and `end_unmapping`.
  Each compare-exchange or store is one indivisible step.
- **`map`**: the bounds checks, the alignment window, and the dispatch on the flavor.
  A Dedicated block maps through the device. A Linear or Buddy block with a resident pointer offsets that pointer.
  Any other block is not host-visible.
- **`unmap`**, and **`write_bytes` / `read_bytes`**: map, copy, flush or invalidate non-coherent memory, then always unmap.
- **construction and `deallocate`**, with the `Relevant` leak guard as a ghost `armed` flag.

Files:

- `types.dfy`: `Option`, and the fixed-width integers as subset types of `int`.
- `align.dfy`: the crate's `align_down`/`align_up`, specified by contract.
- `device.dfy`: the device collaborator. It logs every call with its arguments and may answer each call with any success or failure.
- `host.dfy`: the host address space, and the byte copies in and out of it.
- `block.dfy`: the block.
  - The pure functions `MapWindow`, `MapSpec` and `UnmapSpec` give one `map` or `unmap` call as a step from a mapping state.
  - The class `MemoryBlock` performs those steps. Each of its methods is proved against those functions.
- `lease.dfy`: sequences of calls. It proves that the mapping is granted to one caller at a time.

A panic is modelled as an outcome, `Panic(reason)`. The operation stops at the panic, in whatever state it had reached.
This matters in two places:

- A Linear/Buddy `map` claims the block before its `isize` conversion of the offset. If that conversion panics, the block is left `Mapped`.
- A Dedicated `map` does two `u64` additions after claiming the block. They are modelled with overflow checks on, as a panic.

Where the code and its doc comments disagree, the model follows the code:

- `map` and `write_bytes`/`read_bytes` on a mapped block return `Err(AlreadyMapped)` rather than panicking.
- `unmap` on an unmapped block returns `false` rather than panicking.
- The state machine has no transient "mapping" state. A Dedicated block becomes `Mapped` before the device call, and goes back to `Unmapped` if the call fails.

## Model

| member | source | states |
|---|---|---|
| `Align.AlignDown` | gpu-alloc/src/block.rs:157 | the result is the largest multiple of the atom `mask + 1` that is at most `x`, and is `x` itself when `x` is aligned |
| `Align.AlignUp` | gpu-alloc/src/block.rs:154-155 | `None` exactly when `x` lies within `mask` of `u64::MAX`; otherwise the smallest multiple of the atom that is at least `x` |
| `Align.AlignUpNoneIffUnrepresentable` | gpu-alloc/src/block.rs:154-155 | `align_up` fails exactly when no multiple of the atom at or above `x` fits a `u64` |
| `Align.PowerOfTwoMask` | gpu-alloc/src/block.rs:43 | every power-of-two atom size up to 2^64 gives a mask that the alignment helpers accept |
| `Block.MapWindow` | gpu-alloc/src/block.rs:152-163 | the checks pass exactly when `len` rounded up fits a `u64`, `offset < size` and `len <= size - offset`; the window is `align_down(offset)` and `align_up(len)` |
| `Block.MapSpec` | gpu-alloc/src/block.rs:146-204 | a failed check panics with no state change and no device call; only an `Unmapped` block can be mapped, and every other state stays as it is with no device call; success leaves `Mapped`; only Dedicated calls the device, once; `NonHostVisible` exactly for a Linear/Buddy block without a pointer; `AlreadyMapped` exactly when the checks pass and the block is already claimed; a device failure rolls back to `Unmapped`, and every other error leaves the state unchanged |
| `Block.MapDedicated` | gpu-alloc/src/block.rs:166-187 | an unmapped Dedicated block calls `map_memory(memory, self.offset + align_down(offset), offset + align_up(len) - align_down(offset))`; on `Ok(p)` it returns `p + (offset - align_down(offset))` and is `Mapped`, on `Err` it returns the error and is `Unmapped` |
| `Block.MapResident` | gpu-alloc/src/block.rs:189-199 | a Linear/Buddy block with pointer `p` makes no device call; from `Unmapped` it returns `p + offset` and is `Mapped`; otherwise it returns `AlreadyMapped` and the state is unchanged |
| `Block.SecondMapRefused` | gpu-alloc/src/block.rs:171-193 | after a successful `map`, a second `map` that passes its checks returns `AlreadyMapped` and changes nothing |
| `Block.MapUnmapMap` | gpu-alloc/src/block.rs:217-230 | a successful `map` followed by `unmap` returns the block to `Unmapped`, and the same `map` succeeds again |
| `Block.UnmapSpec` | gpu-alloc/src/block.rs:217-230 | `unmap` returns `true` exactly when the block was `Mapped`, and then ends `Unmapped`; it calls `unmap_memory` once for Dedicated and never for Linear/Buddy; when it returns `false` there is no device call and no state change |
| `Block.SyncRangeMissesTail` | gpu-alloc/src/block.rs:254-262 | with a 64-byte atom, offset 10 and 20 bytes, the flushed range is [0, 64); with 60 bytes it is still [0, 64), which misses the written bytes [64, 70) |
| `Block.SyncRange` | gpu-alloc/src/block.rs:255-261 | the flush range as written (also the invalidate range of lines 299-305): it starts on the atom boundary at or below `offset`, its size is a multiple of the atom and at least `len`, and it reaches `offset + len` exactly when `offset mod atom <= align_up(len) - len` |
| `Block.SyncOutcome` | gpu-alloc/src/block.rs:254-268 | `write_bytes`/`read_bytes` return `Ok` exactly when the memory is coherent or the flush/invalidate succeeded, and otherwise the device's error; they never panic at this point |
| `Block.IntendedSyncRange` | gpu-alloc/src/block.rs:254-262 | the corrected range from `align_down(offset)` to `align_up(offset + len)` has both ends on atom boundaries and covers `[offset, offset + len)` |
| `Block.MemoryBlock.Coherent` | gpu-alloc/src/block.rs:348-350 | `coherent()` holds exactly when the property set contains `HOST_COHERENT`; `WriteBytes` and `ReadBytes` skip the flush and the invalidate exactly then |
| `Block.MemoryBlock.constructor` | gpu-alloc/src/block.rs:50-70 | every argument is stored unchanged; the block starts `Unmapped` with the leak guard armed |
| `Block.MemoryBlock.Deallocate` | gpu-alloc/src/block.rs:72-75 | returns the parent memory and the flavor unchanged, and disarms the leak guard |
| `Block.MemoryBlock.AcquireMapping` | gpu-alloc/src/block.rs:318-327 | succeeds exactly from `Unmapped`, moving to `Mapped`; otherwise the state is unchanged |
| `Block.MemoryBlock.MappingFailed` | gpu-alloc/src/block.rs:329-331 | the state becomes `Unmapped` |
| `Block.MemoryBlock.StartUnmapping` | gpu-alloc/src/block.rs:333-342 | succeeds exactly from `Mapped`, moving to `Unmapping`; otherwise the state is unchanged |
| `Block.MemoryBlock.EndUnmapping` | gpu-alloc/src/block.rs:344-346 | the state becomes `Unmapped` |
| `Block.MemoryBlock.Map` | gpu-alloc/src/block.rs:146-204 | the result, the new state and the device calls are those of `MapSpec` for the old state and the device's answer |
| `Block.MemoryBlock.Unmap` | gpu-alloc/src/block.rs:217-230 | the result, the new state and the device calls are those of `UnmapSpec` for the old state |
| `Block.MemoryBlock.WriteBytes` | gpu-alloc/src/block.rs:244-269 | a failed `map` is returned with nothing copied; otherwise `data` is written at the mapped address, non-coherent memory gets exactly one flush of `(align_down(offset), align_up(len))`, the block is unmapped, and the flush result is returned |
| `Block.MemoryBlock.ReadBytes` | gpu-alloc/src/block.rs:283-316 | a failed `map` is returned with `data` untouched; otherwise non-coherent memory is invalidated over the same range, the bytes are copied into `data` only if that succeeded, the block is unmapped, and the invalidate result is returned |
| `Block.WriteThenRead` | gpu-alloc/src/block.rs:244-316 | on a coherent block with a resident pointer, reading back a range just written gives the written bytes |
| `Host.HostMemory.CopyIn` | gpu-alloc/src/block.rs:253 | the bytes at the destination become `data`, and every other byte is unchanged |
| `Host.HostMemory.CopyOut` | gpu-alloc/src/block.rs:311 | the buffer receives the bytes at the source address |
| `Lease.HeldUntilReleased` | gpu-alloc/src/block.rs:318-342 | from a mapped block, no `map` succeeds before an `unmap` has returned `true` |
| `Lease.ExclusiveMapping` | gpu-alloc/src/block.rs:318-346 | in any sequence of `map`/`unmap` calls, whatever the device answers, two successful `map` calls always have an `unmap` that returned `true` between them |

## Left out

- Atomic memory orderings and thread interleavings (`Acquire`/`Release`/`Relaxed`, the `Send`/`Sync` impls) are not modelled. Each compare-exchange or store is one sequential step. Mutual exclusion is proved over sequences of whole calls.
- The `Drop` bodies of `Relevant` (log line, `eprintln!`, or panic) are logging and feature flags. Only the ghost `armed` flag is kept.
- `cached()` and the warning `read_bytes` logs for non-cached memory are observability only, so they are not modelled.
- `MemoryDevice`, `MappedMemoryRange`, `MemoryPropertyFlags` and the device error types belong to another crate and are not part of this model.
  - The device is an abstract object that logs its calls and may answer each call with any success or failure.
  - The property set keeps only `HOST_COHERENT`, the one flag the modelled operations consult.
- `MapError` and its `From` conversions are not part of this model. A device error becomes `DeviceFailure(e)`.
- Raw-pointer validity, `NonNull` and the safety of `copy_nonoverlapping` are not modelled.
  - Addresses are integers.
  - Host memory is a byte at every address.
- The host is taken to be 64-bit: `isize::MAX` is 2^63 - 1, and `usize` lengths are `nat`, so `u64::try_from` fails only above `u64::MAX`.
- `Block.MapSpec`: the two `u64` additions of the Dedicated path are modelled with overflow checks on, as a panic. A release build would wrap them instead.
- `Align.AlignDown` and `Align.AlignUp`: their definitions are not part of this model.
  - Their bodies use the arithmetic form. It equals the crate's bit-mask form when the atom is a power of two, which `IsAlignMask` requires.
- `Block.MemoryBlock.constructor`: requires the mask to be `atom - 1` for a power-of-two atom. `new` does not check this; its callers derive the mask from `non_coherent_atom_size`.
- `Block.MemoryBlock.Deallocate`: requires the guard to be armed. This stands for the move of `self`, which makes a second call impossible. `Map`, `Unmap`, `WriteBytes` and `ReadBytes` require it too, since no method can be called on a consumed block.
- `Block.MemoryBlock.WriteBytes`: the flush range's offset is relative to the block, as written. Whether the device expects an offset relative to the memory object is up to `MappedMemoryRange`, which is not part of this model.
- `Block.MemoryBlock.ReadBytes`: uses the same block-relative invalidate range.
- `Block.WriteThenRead`: the round trip is proved only for blocks with a resident pointer. For a Dedicated block, `map` returns whatever address the device chooses, and which bytes the device maps there is not modelled.

## Findings

| source | as written | input that shows it | evidently intended | confidence | as-written member | corrected member |
|---|---|---|---|---|---|---|
| gpu-alloc/src/block.rs:254-262 | `write_bytes` flushes from `align_down(offset)` for `align_up(len)` bytes (`read_bytes` invalidates the same range, lines 298-306) | atom 64 (mask 63), offset 10, 60 bytes: range [0, 64), but bytes [10, 70) were written, so [64, 70) is never flushed | the range from `align_down(offset)` to `align_up(offset + len)` | not executed; high | `Block.SyncRangeMissesTail` | `Block.IntendedSyncRange` |

`WriteBytes` and `ReadBytes` use the range as written, so the model keeps the code's behaviour. `Block.IntendedSyncRange` states the correction and its covering property.
