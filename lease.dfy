/** Sequences of `map` and `unmap` calls made one after another on one block. The
    mapping state machine hands out at most one mapping (a lease) at a time: between
    two successful `map` calls there is always an `unmap` that returned `true`. */
module Lease {
  import opened Types
  import opened Device
  import opened Block

  /** A call on the block; a map call carries the device's answer should it be asked. */
  datatype Call = MapOp(offset: u64, len: nat, reply: Reply<Address>) | UnmapOp

  /** What a call returned. */
  datatype Returned = MapReturned(result: Outcome<Address>) | UnmapReturned(unmapped: bool)

  predicate Granted(o: Returned) {
    o.MapReturned? && o.result.Ok?
  }

  predicate Released(o: Returned) {
    o == UnmapReturned(true)
  }

  datatype Stepped = Stepped(returned: Returned, state: MappingState)

  function Step<M>(v: BlockView<M>, s: MappingState, c: Call): Stepped
    requires v.Valid()
  {
    match c
    case MapOp(offset, len, reply) =>
      var m := MapSpec(v, s, offset, len, reply);
      Stepped(MapReturned(m.result), m.state)
    case UnmapOp =>
      var u := UnmapSpec(v, s);
      Stepped(UnmapReturned(u.unmapped), u.state)
  }

  /** What each of `calls` returns, made in order from state `s`. */
  function Run<M>(v: BlockView<M>, s: MappingState, calls: seq<Call>): (r: seq<Returned>)
    requires v.Valid()
    ensures |r| == |calls|
    decreases |calls|
  {
    if calls == [] then []
    else
      var first := Step(v, s, calls[0]);
      [first.returned] + Run(v, first.state, calls[1..])
  }

  /** No grant in `r` comes before a release. */
  ghost predicate HeldUntilRelease(r: seq<Returned>) {
    forall j :: 0 <= j < |r| && Granted(r[j]) ==> exists k :: 0 <= k < j && Released(r[k])
  }

  /** Between any two grants in `r` lies a release. */
  ghost predicate ReleasedBetweenGrants(r: seq<Returned>) {
    forall i, j :: 0 <= i < j < |r| && Granted(r[i]) && Granted(r[j]) ==>
      exists k :: i < k < j && Released(r[k])
  }

  /** A step from a mapped block grants nothing, and stays mapped unless it releases. */
  lemma StepFromMapped<M>(v: BlockView<M>, c: Call)
    requires v.Valid()
    ensures var st := Step(v, Mapped, c);
            !Granted(st.returned) && (Released(st.returned) || st.state == Mapped)
  {
  }

  /** A step that grants leaves the block mapped. */
  lemma GrantLeavesMapped<M>(v: BlockView<M>, s: MappingState, c: Call)
    requires v.Valid() && Granted(Step(v, s, c).returned)
    ensures Step(v, s, c).state == Mapped
  {
  }

  /** From a mapped block, no `map` succeeds before an `unmap` has returned `true`. */
  lemma {:induction false} HeldUntilReleased<M>(v: BlockView<M>, calls: seq<Call>)
    requires v.Valid()
    decreases |calls|
    ensures HeldUntilRelease(Run(v, Mapped, calls))
  {
    if calls != [] {
      var r := Run(v, Mapped, calls);
      var first := Step(v, Mapped, calls[0]);
      var rest := Run(v, first.state, calls[1..]);
      assert r == [first.returned] + rest;
      StepFromMapped(v, calls[0]);
      if !Released(first.returned) {
        HeldUntilReleased(v, calls[1..]);
      }
      forall j | 0 <= j < |r| && Granted(r[j])
        ensures exists k :: 0 <= k < j && Released(r[k])
      {
        if Released(first.returned) {
          assert Released(r[0]);
        } else {
          assert Granted(rest[j - 1]);
          var k :| 0 <= k < j - 1 && Released(rest[k]);
          assert Released(r[k + 1]);
        }
      }
    }
  }

  /** Mutual exclusion: two successful `map` calls always have a successful `unmap`
      between them, whatever the starting state and the device's answers. */
  lemma {:induction false} ExclusiveMapping<M>(v: BlockView<M>, s: MappingState, calls: seq<Call>)
    requires v.Valid()
    decreases |calls|
    ensures ReleasedBetweenGrants(Run(v, s, calls))
  {
    if calls != [] {
      var r := Run(v, s, calls);
      var first := Step(v, s, calls[0]);
      var rest := Run(v, first.state, calls[1..]);
      assert r == [first.returned] + rest;
      ExclusiveMapping(v, first.state, calls[1..]);
      if Granted(first.returned) {
        GrantLeavesMapped(v, s, calls[0]);
        HeldUntilReleased(v, calls[1..]);
      }
      forall i, j | 0 <= i < j < |r| && Granted(r[i]) && Granted(r[j])
        ensures exists k :: i < k < j && Released(r[k])
      {
        assert Granted(rest[j - 1]);
        if i == 0 {
          var k :| 0 <= k < j - 1 && Released(rest[k]);
          assert Released(r[k + 1]);
        } else {
          assert Granted(rest[i - 1]);
          var k :| i - 1 < k < j - 1 && Released(rest[k]);
          assert Released(r[k + 1]);
        }
      }
    }
  }
}
