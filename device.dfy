/** The device collaborator of the block (the `MemoryDevice` trait and the types
    `MappedMemoryRange` and `MemoryPropertyFlags` of the `gpu_alloc_types` crate).
    The device is abstract: it records every call with its arguments in `log`, and
    each call may succeed or fail, with any pointer and any error. */
module Device {
  import opened Types

  /** The one memory property flag the block consults. */
  datatype MemoryProperty = HostCoherent

  /** An error reported by the device; its variants are the device's business. */
  datatype DeviceError = DeviceError(code: nat)

  /** The device's answer to a call that can fail. */
  datatype Reply<T> = Done(value: T) | Failed(error: DeviceError)

  /** A range of a memory object to flush or invalidate. */
  datatype MappedMemoryRange<M> = MappedMemoryRange(memory: M, offset: u64, size: u64)

  /** One call the block made into the device. */
  datatype DeviceCall<M> =
    | MapCall(memory: M, offset: u64, size: u64)
    | UnmapCall(memory: M)
    | FlushCall(ranges: seq<MappedMemoryRange<M>>)
    | InvalidateCall(ranges: seq<MappedMemoryRange<M>>)

  class MemoryDevice<M> {
    /** The calls made so far, oldest first. */
    var log: seq<DeviceCall<M>>

    constructor ()
      ensures log == []
    {
      log := [];
    }

    /** Makes `size` bytes of `memory` starting at `offset` host-visible and returns
        their host address, or fails. */
    method MapMemory(memory: M, offset: u64, size: u64) returns (r: Reply<Address>)
      modifies this`log
      ensures log == old(log) + [MapCall(memory, offset, size)]
    {
      r :| true;
      log := log + [MapCall(memory, offset, size)];
    }

    method UnmapMemory(memory: M)
      modifies this`log
      ensures log == old(log) + [UnmapCall(memory)]
    {
      log := log + [UnmapCall(memory)];
    }

    /** Publishes host writes in `ranges` to the device. */
    method FlushMemoryRanges(ranges: seq<MappedMemoryRange<M>>) returns (r: Reply<()>)
      modifies this`log
      ensures log == old(log) + [FlushCall(ranges)]
    {
      r :| true;
      log := log + [FlushCall(ranges)];
    }

    /** Makes device writes in `ranges` visible to the host. */
    method InvalidateMemoryRanges(ranges: seq<MappedMemoryRange<M>>) returns (r: Reply<()>)
      modifies this`log
      ensures log == old(log) + [InvalidateCall(ranges)]
    {
      r :| true;
      log := log + [InvalidateCall(ranges)];
    }
  }
}
