/**
 * The claims tracker: which byte ranges are being validated (the ancestor
 * stack, used to detect cycles) and which have been validated and committed
 * (used to detect overlap between siblings).
 */
module ClaimsTracker {
  import opened Errors
  import opened Primitives

  /** The claim state threaded through one validation. */
  datatype Tracker = Tracker(ancestors: seq<Range>, committed: set<Range>)

  const Empty: Tracker := Tracker([], {})

  /** The fresh tracker knows of no claim, so it is sound for a buffer of any length. */
  lemma EmptySound(len: nat)
    ensures AllClaims(Empty) == {} && Sound(len, Empty)
  {
    assert AllClaims(Empty) == {};
  }

  /** Do two half-open ranges share a byte position? */
  predicate Overlaps(a: Range, b: Range) {
    a.start < b.end && b.start < a.end
  }

  /** Every range the tracker knows of, open or committed. */
  function AllClaims(t: Tracker): set<Range> {
    (set r | r in t.ancestors) + t.committed
  }

  /** Every claim lies within a buffer of len bytes and no two claims overlap. */
  ghost predicate Sound(len: nat, t: Tracker) {
    (forall r | r in AllClaims(t) :: r.start <= r.end <= len) &&
    (forall a, b | a in AllClaims(t) && b in AllClaims(t) && a != b :: !Overlaps(a, b))
  }

  /**
   * The tracker after entering range r: refused with OverlappingClaim when r
   * meets a committed range, with CyclicClaim when it meets an open ancestor,
   * and otherwise r is pushed onto the ancestor stack.
   */
  function Entered(t: Tracker, r: Range): (res: Result<Tracker>)
    ensures res.Ok? <==> forall k | k in AllClaims(t) :: !Overlaps(k, r)
    ensures res.Ok? ==> res.value == Tracker(t.ancestors + [r], t.committed)
    ensures res == Err(OverlappingClaim) <==> exists k | k in t.committed :: Overlaps(k, r)
    ensures res == Err(CyclicClaim) <==>
      (forall k | k in t.committed :: !Overlaps(k, r)) && exists k | k in t.ancestors :: Overlaps(k, r)
  {
    if exists k | k in t.committed :: Overlaps(k, r) then Err(OverlappingClaim)
    else if exists k | k in t.ancestors :: Overlaps(k, r) then Err(CyclicClaim)
    else Ok(Tracker(t.ancestors + [r], t.committed))
  }

  /** The tracker after leaving the innermost open range: it is popped and committed. */
  function Exited(t: Tracker): (res: Tracker)
    requires t.ancestors != []
    ensures AllClaims(res) == AllClaims(t)
    ensures res.ancestors == t.ancestors[..|t.ancestors| - 1]
    ensures res.committed == t.committed + {t.ancestors[|t.ancestors| - 1]}
  {
    var n := |t.ancestors| - 1;
    var res := Tracker(t.ancestors[..n], t.committed + {t.ancestors[n]});
    assert t.ancestors == t.ancestors[..n] + [t.ancestors[n]];
    res
  }

  /** Entering a range that lies within the buffer keeps the tracker sound. */
  lemma EnteredSound(len: nat, t: Tracker, r: Range)
    requires r.start <= r.end <= len && Entered(t, r).Ok?
    ensures Sound(len, t) ==> Sound(len, Entered(t, r).value)
  {
    var t' := Entered(t, r).value;
    assert AllClaims(t') == AllClaims(t) + {r};
  }

  /** Is byte position i inside some claimed range? */
  ghost predicate Covered(t: Tracker, i: int) {
    exists k | k in AllClaims(t) :: k.start <= i < k.end
  }

  /** The number of bytes of a len-byte buffer that no claim covers yet. */
  ghost function Free(len: nat, t: Tracker): nat {
    |set i | 0 <= i < len && !Covered(t, i)|
  }

  /**
   * Entering a non-empty range consumes at least one free byte: this is why a
   * validation that recurses only through fresh claims terminates.
   */
  lemma EnterConsumesFree(len: nat, t: Tracker, r: Range)
    requires r.start < r.end <= len && Entered(t, r).Ok?
    ensures Free(len, Entered(t, r).value) < Free(len, t)
  {
    var t' := Entered(t, r).value;
    var before := set i | 0 <= i < len && !Covered(t, i);
    var after := set i | 0 <= i < len && !Covered(t', i);
    assert AllClaims(t') == AllClaims(t) + {r};
    assert after <= before;
    assert r.start in before;
    assert r.start !in after by {
      assert r in AllClaims(t');
    }
    assert before == after + (before - after);
    assert |before - after| >= 1;
  }

  /** A successful claim: the claimed range and the tracker with that range entered. */
  datatype Grant = Grant(range: Range, after: Tracker)

  /**
   * Claim the size bytes that the offset stored at field refers to: the range
   * must be in bounds and aligned (checked first), then it is entered.
   */
  function TryClaim(len: nat, field: nat, offset: int, size: nat, align: Alignment, t: Tracker): (res: Result<Grant>)
    ensures res.Ok? <==>
      0 <= field + offset && field + offset + size <= len && (field + offset) % align == 0 &&
      forall k | k in AllClaims(t) :: !Overlaps(k, Range(field + offset, field + offset + size))
    ensures res.Ok? ==>
      res.value.range == Range(field + offset, field + offset + size) &&
      res.value.after == Tracker(t.ancestors + [res.value.range], t.committed)
    ensures res.Ok? && Sound(len, t) ==> Sound(len, res.value.after)
  {
    match Locate(len, field, offset, size, align)
    case Err(e) => Err(e)
    case Ok(r) =>
      match Entered(t, r)
      case Err(e) => Err(e)
      case Ok(t') =>
        EnteredSound(len, t, r);
        Ok(Grant(r, t'))
  }
}
