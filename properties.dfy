/**
 * Properties of the validation rules that hold for every buffer: how a scalar
 * root is refused, that a unit struct needs nothing but an in-range position,
 * that a node whose box leads back into an open node is refused as a cycle,
 * that two sibling strings naming overlapping bytes are refused, how option
 * and enum tags are dispatched, that boxes, vectors and Cons nodes commit the
 * range they claim, and that a committed empty range still blocks.
 */
module Properties {
  import opened Errors
  import opened Layout
  import opened Primitives
  import opened ClaimsTracker
  import opened Shapes
  import opened Rules

  /**
   * A u32 root is refused as out of bounds when its position lies past the
   * end, as an overrun when its four bytes do not fit, as misaligned when the
   * position is not a multiple of 4, and passes otherwise.
   */
  lemma ScalarRoot(buf: seq<byte>, pos: nat)
    ensures Validate(buf, U32, pos) ==
      if pos > |buf| then Fail(OutOfBounds)
      else if pos + 4 > |buf| then Fail(Overrun)
      else if pos % 4 != 0 then Fail(Misaligned)
      else Pass
  {
  }

  /** A unit struct validates exactly at the positions within [0, |buf|]. */
  lemma UnitRoot(buf: seq<byte>, pos: nat)
    ensures Validate(buf, Unit, pos).Pass? <==> pos <= |buf|
  {
    if pos <= |buf| {
      assert AllClaims(Empty) == {};
    }
  }

  /** A root that validates lies within the buffer and is aligned as its shape requires. */
  lemma PassedRootFits(buf: seq<byte>, s: Shape, pos: nat)
    requires WellFormed(s) && Validate(buf, s, pos) == Pass
    ensures pos + Size(s) <= |buf| && pos % Align(s) == 0
  {
  }

  /**
   * A Cons node whose box refers to an in-bounds, aligned node that overlaps a
   * node still being validated (and no committed range) is refused with a
   * cyclic claim, wrapped once by the node rule.
   */
  lemma CycleThroughOpenNode(buf: seq<byte>, pos: nat, t: Tracker, target: nat)
    requires pos + NODE_SIZE <= |buf| && buf[pos] == 1
    requires target == pos + NODE_BOX + LoadI32(buf, pos + NODE_BOX)
    requires target + NODE_SIZE <= |buf| && target % NODE_ALIGN == 0
    requires forall k | k in t.committed :: !Overlaps(k, Range(target, target + NODE_SIZE))
    requires exists k | k in t.ancestors :: Overlaps(k, Range(target, target + NODE_SIZE))
    ensures NodeCheck(buf, pos, t) == Step(Fail(Nested(CyclicClaim)), t)
  {
    var claim := Range(target, target + NODE_SIZE);
    assert Locate(|buf|, pos + NODE_BOX, LoadI32(buf, pos + NODE_BOX), NODE_SIZE, NODE_ALIGN) == Ok(claim);
    assert Entered(t, claim) == Err(CyclicClaim);
  }

  /**
   * A Cons node checks the box at pos + 4: the claim of the 8 bytes of the
   * node its offset refers to is refused with the claim's error wrapped once
   * and the tracker unchanged; once granted, the node there is checked, its
   * failure wrapped once, and the claimed node committed whatever its outcome.
   */
  lemma NodeConsClaim(buf: seq<byte>, pos: nat, t: Tracker)
    requires pos + NODE_SIZE <= |buf| && buf[pos] == 1
    ensures var claim := TryClaim(|buf|, pos + NODE_BOX, LoadI32(buf, pos + NODE_BOX), NODE_SIZE, NODE_ALIGN, t);
      if claim.Err? then NodeCheck(buf, pos, t) == Step(Fail(Nested(claim.error)), t)
      else
        var inner := NodeCheck(buf, claim.value.range.start, claim.value.after);
        && NodeCheck(buf, pos, t).outcome == (if inner.outcome.Pass? then Pass else Fail(Nested(inner.outcome.error)))
        && claim.value.range in NodeCheck(buf, pos, t).after.committed
  {
    var claim := TryClaim(|buf|, pos + NODE_BOX, LoadI32(buf, pos + NODE_BOX), NODE_SIZE, NODE_ALIGN, t);
    if claim.Ok? {
      var inner := NodeCheck(buf, claim.value.range.start, claim.value.after);
      ExitCommitsClaim(t, claim.value.range, inner.after);
    }
  }

  /** A node that refers to itself is refused when validated as a root. */
  lemma SelfReferentialNode(buf: seq<byte>, pos: nat)
    requires pos + NODE_SIZE <= |buf| && pos % NODE_ALIGN == 0
    requires buf[pos] == 1 && LoadI32(buf, pos + NODE_BOX) == -(NODE_BOX as int)
    ensures Validate(buf, Node, pos) == Fail(Nested(CyclicClaim))
  {
    var root := Range(pos, pos + NODE_SIZE);
    assert AllClaims(Empty) == {};
    var t := Tracker([root], {});
    assert Empty.ancestors + [root] == [root];
    assert TryClaim(|buf|, 0, pos, NODE_SIZE, NODE_ALIGN, Empty) == Ok(Grant(root, t));
    assert root in t.ancestors && Overlaps(root, root);
    CycleThroughOpenNode(buf, pos, t, pos);
  }

  /**
   * A string whose bytes are in bounds but overlap a committed range is
   * refused with an overlapping claim.
   */
  lemma StringOverCommitted(buf: seq<byte>, pos: nat, t: Tracker, claimed: Range)
    requires pos + 8 <= |buf| && claimed in t.committed
    requires
      var target := pos + LoadI32(buf, pos);
      0 <= target && target + LoadU32(buf, pos + 4) <= |buf| &&
      Overlaps(claimed, Range(target, target + LoadU32(buf, pos + 4)))
    ensures CheckString(buf, pos, t).outcome == Fail(OverlappingClaim)
  {
    var target := pos + LoadI32(buf, pos);
    var range := Range(target, target + LoadU32(buf, pos + 4));
    assert Locate(|buf|, pos, LoadI32(buf, pos), LoadU32(buf, pos + 4), 1) == Ok(range);
    assert Entered(t, range) == Err(OverlappingClaim);
  }

  /**
   * Of two sibling strings checked one after the other, the second is refused
   * with an overlapping claim when the first passed and the second names
   * in-bounds bytes that overlap the first's.
   */
  lemma SiblingStringsOverlap(buf: seq<byte>, first: nat, second: nat, t: Tracker)
    requires first + 8 <= |buf| && second + 8 <= |buf|
    requires CheckString(buf, first, t).outcome.Pass?
    requires
      var a := first + LoadI32(buf, first);
      var b := second + LoadI32(buf, second);
      0 <= a && 0 <= b && b + LoadU32(buf, second + 4) <= |buf| &&
      Overlaps(Range(a, a + LoadU32(buf, first + 4)), Range(b, b + LoadU32(buf, second + 4)))
    ensures CheckString(buf, second, CheckString(buf, first, t).after).outcome == Fail(OverlappingClaim)
  {
    var a := first + LoadI32(buf, first);
    StringOverCommitted(buf, second, CheckString(buf, first, t).after, Range(a, a + LoadU32(buf, first + 4)));
  }

  /**
   * A committed empty range [a, a) still blocks: any later range that holds a
   * strictly inside it is refused as overlapping.
   */
  lemma EmptyCommittedBlocks(t: Tracker, a: nat, r: Range)
    requires Range(a, a) in t.committed && r.start < a < r.end
    ensures Entered(t, r) == Err(OverlappingClaim)
  {
    assert Overlaps(Range(a, a), r);
  }

  /**
   * An option whose tag byte is neither 0 (None) nor 1 (Some) is refused with
   * that tag, before its payload is looked at and without touching the claims.
   */
  lemma OptBadTag(buf: seq<byte>, some: Shape, pos: nat, t: Tracker)
    requires WellFormed(Opt(some)) && pos + Size(Opt(some)) <= |buf| && buf[pos] > 1
    ensures Check(buf, Opt(some), pos, t) == Step(Fail(InvalidDiscriminant(buf[pos] as int)), t)
  {
  }

  /** An option whose tag byte is 0 is None: it passes and claims nothing. */
  lemma OptNone(buf: seq<byte>, some: Shape, pos: nat, t: Tracker)
    requires WellFormed(Opt(some)) && pos + Size(Opt(some)) <= |buf| && buf[pos] == 0
    ensures Check(buf, Opt(some), pos, t) == Step(Pass, t)
  {
  }

  /**
   * A derived enum whose tag byte names no variant is refused with that tag,
   * without touching the claims.
   */
  lemma UnionBadTag(buf: seq<byte>, s: Shape, pos: nat, t: Tracker)
    requires s.Union? && WellFormed(s) && pos + Size(s) <= |buf| && buf[pos] as int >= |s.variants|
    ensures Check(buf, s, pos, t) == Step(Fail(InvalidDiscriminant(buf[pos] as int)), t)
  {
  }

  /**
   * A box whose claim is refused fails with the claim's error and leaves the
   * tracker as it was; once its claim is granted, the granted range (the
   * Size(target) bytes its relative offset refers to, by TryClaim) ends up
   * committed whatever the target's outcome, so a later claim that meets it
   * is refused as overlapping.
   */
  lemma BoxCommitsClaim(buf: seq<byte>, target: Shape, pos: nat, t: Tracker)
    requires WellFormed(target) && pos + 4 <= |buf|
    ensures var claim := TryClaim(|buf|, pos, LoadI32(buf, pos), Size(target), Align(target), t);
      if claim.Err? then CheckBox(buf, target, pos, t) == Step(Fail(claim.error), t)
      else claim.value.range in CheckBox(buf, target, pos, t).after.committed
  {
    var claim := TryClaim(|buf|, pos, LoadI32(buf, pos), Size(target), Align(target), t);
    if claim.Ok? {
      var inner := Check(buf, target, claim.value.range.start, claim.value.after);
      ExitCommitsClaim(t, claim.value.range, inner.after);
    }
  }

  /**
   * The same for a vector of count elements (count is stored at pos + 4): a
   * refused claim fails and changes nothing; a granted one, the
   * Span(Size(elem), count) bytes (count * Size(elem), by SpanIsProduct) its
   * relative offset refers to, ends up committed whatever the elements' outcome.
   */
  lemma VecCommitsClaim(buf: seq<byte>, elem: Shape, pos: nat, t: Tracker)
    requires WellFormed(elem) && pos + 8 <= |buf|
    ensures var claim := TryClaim(|buf|, pos, LoadI32(buf, pos), Span(Size(elem), LoadU32(buf, pos + 4)), Align(elem), t);
      if claim.Err? then CheckVec(buf, elem, pos, t) == Step(Fail(claim.error), t)
      else claim.value.range in CheckVec(buf, elem, pos, t).after.committed
  {
    var count := LoadU32(buf, pos + 4);
    var claim := TryClaim(|buf|, pos, LoadI32(buf, pos), Span(Size(elem), count), Align(elem), t);
    if claim.Ok? {
      SpanFits(|buf|, Size(elem), claim.value.range.start, count);
      var inner := CheckElements(buf, elem, claim.value.range.start, count, claim.value.after);
      ExitCommitsClaim(t, claim.value.range, inner.after);
    }
  }

  /** Exiting after a check that left the ancestors as it found them commits the range it was entered for. */
  lemma ExitCommitsClaim(t: Tracker, claimed: Range, inner: Tracker)
    requires inner.ancestors == t.ancestors + [claimed]
    ensures inner.ancestors != [] && claimed in Exited(inner).committed
  {
    assert inner.ancestors[|inner.ancestors| - 1] == claimed;
  }
}
