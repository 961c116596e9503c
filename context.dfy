/**
 * The archive context threaded through one validation: the archive bytes,
 * the stack of ranges being validated and the set of committed ranges.
 */
module Context {
  import opened Errors
  import opened Layout
  import opened Primitives
  import opened ClaimsTracker

  class ArchiveContext {
    const buf: seq<byte>
    var ancestors: seq<Range>
    var committed: set<Range>

    /** The claim state as a value. */
    function Snapshot(): Tracker
      reads this
    {
      Tracker(ancestors, committed)
    }

    /** The context invariant: all claims in bounds and pairwise disjoint. */
    ghost predicate Valid()
      reads this
    {
      Sound(|buf|, Snapshot())
    }

    /** A fresh context over the archive bytes: nothing claimed. */
    constructor (archive: seq<byte>)
      ensures buf == archive && Snapshot() == Empty && Valid()
    {
      buf := archive;
      ancestors := [];
      committed := {};
    }

    /**
     * Enter range r, which lies within the archive: refused if it meets a
     * committed range (overlap) or an open ancestor (cycle); otherwise pushed
     * onto the ancestor stack.
     */
    method Enter(r: Range) returns (out: Outcome)
      requires r.start <= r.end <= |buf|
      modifies this
      ensures Entered(old(Snapshot()), r) == (if out.Pass? then Ok(Snapshot()) else Err(out.error))
      ensures out.Fail? ==> Snapshot() == old(Snapshot())
      ensures old(Valid()) ==> Valid()
    {
      var rest := committed;
      while rest != {}
        invariant rest <= committed
        invariant forall k | k in committed - rest :: !Overlaps(k, r)
        decreases rest
      {
        var k :| k in rest;
        if Overlaps(k, r) {
          return Fail(OverlappingClaim);
        }
        rest := rest - {k};
      }
      var i := 0;
      while i < |ancestors|
        invariant 0 <= i <= |ancestors|
        invariant forall j | 0 <= j < i :: !Overlaps(ancestors[j], r)
      {
        if Overlaps(ancestors[i], r) {
          return Fail(CyclicClaim);
        }
        i := i + 1;
      }
      EnteredSound(|buf|, Snapshot(), r);
      ancestors := ancestors + [r];
      out := Pass;
    }

    /** Leave the innermost open range: pop it and commit it. */
    method Exit()
      requires ancestors != []
      modifies this
      ensures Snapshot() == Exited(old(Snapshot()))
      ensures old(Valid()) ==> Valid()
    {
      var n := |ancestors| - 1;
      committed := committed + {ancestors[n]};
      ancestors := ancestors[..n];
    }

    /**
     * Claim the size bytes that the offset stored at field refers to: bounds,
     * overrun and alignment first, then Enter.
     */
    method Claim(field: nat, offset: int, size: nat, align: Alignment) returns (res: Result<Range>)
      modifies this
      ensures match TryClaim(|buf|, field, offset, size, align, old(Snapshot()))
              case Ok(g) => res == Ok(g.range) && Snapshot() == g.after
              case Err(e) => res == Err(e) && Snapshot() == old(Snapshot())
      ensures old(Valid()) ==> Valid()
    {
      var target := field + offset;
      if target < 0 || target > |buf| {
        return Err(OutOfBounds);
      }
      if target + size > |buf| {
        return Err(Overrun);
      }
      if target % align != 0 {
        return Err(Misaligned);
      }
      var r := Range(target, target + size);
      var entered := Enter(r);
      if entered.Fail? {
        return Err(entered.error);
      }
      res := Ok(r);
    }
  }
}
