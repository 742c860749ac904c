/** The host address space, which mapped pointers point into: a byte at every
    address. `copy_nonoverlapping` between it and the caller's buffers is a loop
    over the bytes. */
module Host {
  import opened Types

  /** The `n` bytes of `mem` starting at `at`. */
  function Slice(mem: Address -> u8, at: Address, n: nat): (s: seq<u8>)
    ensures |s| == n
  {
    seq(n, i => mem(at + i))
  }

  /** `after` is `before` with `data` written at `at` and nothing else changed. */
  ghost predicate Overwrites(after: Address -> u8, before: Address -> u8, at: Address, data: seq<u8>) {
    forall a :: after(a) == if at <= a < at + |data| then data[a - at] else before(a)
  }

  /** Reading back what was just written gives the written bytes. */
  lemma SliceOfOverwrite(after: Address -> u8, before: Address -> u8, at: Address, data: seq<u8>)
    requires Overwrites(after, before, at, data)
    ensures Slice(after, at, |data|) == data
  {
    forall i | 0 <= i < |data|
      ensures Slice(after, at, |data|)[i] == data[i]
    {
      assert after(at + i) == data[i];
    }
  }

  class HostMemory {
    var bytes: Address -> u8

    constructor (contents: Address -> u8)
      ensures bytes == contents
    {
      bytes := contents;
    }

    /** Copies `data` to the host memory at `at`. */
    method CopyIn(at: Address, data: seq<u8>)
      modifies this
      ensures Overwrites(bytes, old(bytes), at, data)
    {
      var i := 0;
      while i < |data|
        invariant 0 <= i <= |data|
        invariant Overwrites(bytes, old(bytes), at, data[..i])
      {
        var before, address, value := bytes, at + i, data[i];
        bytes := a => if a == address then value else before(a);
        i := i + 1;
      }
      assert data[..i] == data;
    }

    /** Copies the `dst.Length` bytes at `at` into `dst`. */
    method CopyOut(at: Address, dst: array<u8>)
      modifies dst
      ensures dst[..] == Slice(bytes, at, dst.Length)
    {
      var i := 0;
      while i < dst.Length
        invariant 0 <= i <= dst.Length
        invariant forall j :: 0 <= j < i ==> dst[j] == bytes(at + j)
      {
        dst[i] := bytes(at + i);
        i := i + 1;
      }
    }
  }
}
