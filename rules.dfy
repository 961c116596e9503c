/**
 * The validation rules as functions: given the archive bytes, a shape, a
 * position and the claim state, the outcome and the claim state afterwards.
 * These are the specification the imperative engine is proved against.
 */
module Rules {
  import opened Errors
  import opened Layout
  import opened Primitives
  import opened ClaimsTracker
  import opened Shapes

  /** What a rule produces: its outcome and the claim state it leaves behind. */
  datatype Step = Step(outcome: Outcome, after: Tracker)

  /** What every rule promises about the claim state it leaves behind. */
  ghost predicate Balanced(len: nat, before: Tracker, after: Tracker) {
    after.ancestors == before.ancestors && before.committed <= after.committed &&
    (Sound(len, before) ==> Sound(len, after))
  }

  /** The bytes taken by count values of width bytes each, laid out one after another. */
  function Span(width: nat, count: nat): nat {
    if count == 0 then 0 else width + Span(width, count - 1)
  }

  /** Elements laid out one after another fill exactly the count * width bytes a vector claims. */
  lemma {:induction false} SpanIsProduct(width: nat, count: nat)
    ensures Span(width, count) == count * width
  {
    if count > 0 {
      SpanIsProduct(width, count - 1);
    }
  }

  /** Do count values of width bytes each, laid out one after another from pos on, fit in len bytes? */
  predicate ElementsFit(len: nat, width: nat, pos: nat, count: nat)
    decreases count
  {
    count == 0 || (pos + width <= len && ElementsFit(len, width, pos + width, count - 1))
  }

  /** A range of Span(width, count) bytes from pos within the buffer holds all count elements. */
  lemma {:induction false} SpanFits(len: nat, width: nat, pos: nat, count: nat)
    requires pos + Span(width, count) <= len
    ensures ElementsFit(len, width, pos, count)
    decreases count
  {
    if count > 0 {
      SpanFits(len, width, pos + width, count - 1);
    }
  }

  /**
   * Check the archived value of shape s at pos. Scalars and unit structs need no
   * check beyond the claim of the range holding them; strings, boxes and vectors
   * claim the range their relative offset refers to, validate inside it and exit
   * it again (also on failure); options and derived enums dispatch on a tag byte.
   */
  function Check(buf: seq<byte>, s: Shape, pos: nat, t: Tracker): (r: Step)
    requires WellFormed(s) && pos + Size(s) <= |buf|
    ensures Balanced(|buf|, t, r.after)
    decreases s, 1, 0
  {
    match s
    case U8 => Step(Pass, t)
    case U32 => Step(Pass, t)
    case Unit => Step(Pass, t)
    case Str => CheckString(buf, pos, t)
    case Opt(some) =>
      var tag := buf[pos];
      if tag == 0 then Step(Pass, t)
      else if tag == 1 then Check(buf, some, pos + OptPayload(some), t)
      else Step(Fail(InvalidDiscriminant(tag as int)), t)
    case BoxOf(target) => CheckBox(buf, target, pos, t)
    case VecOf(elem) => CheckVec(buf, elem, pos, t)
    case Record(_, _, _) => CheckFields(buf, s, 0, pos, t)
    case Union(_, _, variants) =>
      var tag := buf[pos];
      if (tag as int) < |variants| then Check(buf, variants[tag], pos, t)
      else Step(Fail(InvalidDiscriminant(tag as int)), t)
    case Node => NodeCheck(buf, pos, t)
  }

  /**
   * A string: claim the byte range [target, target + length) named by the
   * relative offset at pos and the length at pos + 4, then exit it.
   */
  function CheckString(buf: seq<byte>, pos: nat, t: Tracker): (r: Step)
    requires pos + 8 <= |buf|
    ensures Balanced(|buf|, t, r.after)
    ensures var target, len := pos + LoadI32(buf, pos), LoadU32(buf, pos + 4);
      && (r.outcome.Pass? <==>
            0 <= target && target + len <= |buf| &&
            forall k | k in AllClaims(t) :: !Overlaps(k, Range(target, target + len)))
      && (r.outcome.Pass? ==> r.after == Tracker(t.ancestors, t.committed + {Range(target, target + len)}))
      && (r.outcome.Fail? ==> r.after == t)
  {
    match TryClaim(|buf|, pos, LoadI32(buf, pos), LoadU32(buf, pos + 4), 1, t)
    case Err(e) => Step(Fail(e), t)
    case Ok(g) => Step(Pass, Exited(g.after))
  }

  /**
   * A box: claim the Size(target) bytes its relative offset at pos refers to,
   * check the boxed value there, then exit the range whatever the outcome.
   */
  function CheckBox(buf: seq<byte>, target: Shape, pos: nat, t: Tracker): (r: Step)
    requires WellFormed(target) && pos + 4 <= |buf|
    ensures Balanced(|buf|, t, r.after)
    decreases target, 3, 0
  {
    match TryClaim(|buf|, pos, LoadI32(buf, pos), Size(target), Align(target), t)
    case Err(e) => Step(Fail(e), t)
    case Ok(g) =>
      var r := Check(buf, target, g.range.start, g.after);
      Step(r.outcome, Exited(r.after))
  }

  /**
   * A vector: claim the count * Size(elem) bytes (SpanIsProduct) at the
   * position its relative offset at pos refers to (count is stored at pos + 4),
   * check every element, then exit the range whatever the outcome.
   */
  function CheckVec(buf: seq<byte>, elem: Shape, pos: nat, t: Tracker): (r: Step)
    requires WellFormed(elem) && pos + 8 <= |buf|
    ensures Balanced(|buf|, t, r.after)
    decreases elem, 3, 0
  {
    var count := LoadU32(buf, pos + 4);
    match TryClaim(|buf|, pos, LoadI32(buf, pos), Span(Size(elem), count), Align(elem), t)
    case Err(e) => Step(Fail(e), t)
    case Ok(g) =>
      SpanFits(|buf|, Size(elem), g.range.start, count);
      var r := CheckElements(buf, elem, g.range.start, count, g.after);
      Step(r.outcome, Exited(r.after))
  }

  /** Check the fields of record rec from field i on, in declaration order, stopping at the first failure. */
  function CheckFields(buf: seq<byte>, rec: Shape, i: nat, base: nat, t: Tracker): (r: Step)
    requires rec.Record? && WellFormed(rec) && i <= |rec.fields|
    requires base + rec.size <= |buf|
    ensures Balanced(|buf|, t, r.after)
    decreases rec, 0, |rec.fields| - i
  {
    if i == |rec.fields| then Step(Pass, t)
    else
      var f := rec.fields[i];
      var r := Check(buf, f.shape, base + f.offset, t);
      if r.outcome.Fail? then r
      else CheckFields(buf, rec, i + 1, base, r.after)
  }

  /** Check the count elements of shape elem laid out from pos on, in order, stopping at the first failure. */
  function CheckElements(buf: seq<byte>, elem: Shape, pos: nat, count: nat, t: Tracker): (r: Step)
    requires WellFormed(elem) && ElementsFit(|buf|, Size(elem), pos, count)
    ensures Balanced(|buf|, t, r.after)
    decreases elem, 2, count
  {
    if count == 0 then Step(Pass, t)
    else
      var r := Check(buf, elem, pos, t);
      if r.outcome.Fail? then r
      else CheckElements(buf, elem, pos + Size(elem), count - 1, r.after)
  }

  /** The first of count elements is checked, and only when it passes are the rest after it. */
  lemma ElementsAdvance(buf: seq<byte>, elem: Shape, pos: nat, count: nat, t: Tracker)
    requires WellFormed(elem) && 0 < count && ElementsFit(|buf|, Size(elem), pos, count)
    ensures pos + Size(elem) <= |buf| && ElementsFit(|buf|, Size(elem), pos + Size(elem), count - 1)
    ensures var c := Check(buf, elem, pos, t);
      CheckElements(buf, elem, pos, count, t) ==
        if c.outcome.Fail? then c else CheckElements(buf, elem, pos + Size(elem), count - 1, c.after)
  {
    assert pos + Size(elem) <= |buf|;
  }

  /**
   * The hand-written rule for a node: tag 0 (Nil) passes without looking at
   * the payload; tag 1 (Cons) checks the box at pos + 4 and wraps its error;
   * any other tag is rejected.
   */
  function NodeCheck(buf: seq<byte>, pos: nat, t: Tracker): (r: Step)
    requires pos + NODE_SIZE <= |buf|
    ensures Balanced(|buf|, t, r.after)
    ensures buf[pos] == 0 ==> r == Step(Pass, t)
    ensures buf[pos] !in {0, 1} ==> r == Step(Fail(InvalidDiscriminant(buf[pos] as int)), t)
    ensures buf[pos] == 1 && r.outcome.Fail? ==> r.outcome.error.Nested?
    decreases Free(|buf|, t), 1
  {
    var tag := buf[pos];
    if tag == 0 then Step(Pass, t)
    else if tag == 1 then
      var r := NodeBoxCheck(buf, pos + NODE_BOX, t);
      if r.outcome.Fail? then Step(Fail(Nested(r.outcome.error)), r.after) else r
    else Step(Fail(InvalidDiscriminant(tag as int)), t)
  }

  /** The box inside a node: claim the 8 bytes of the node it refers to, check that node, exit. */
  function NodeBoxCheck(buf: seq<byte>, field: nat, t: Tracker): (r: Step)
    requires field + 4 <= |buf|
    ensures Balanced(|buf|, t, r.after)
    decreases Free(|buf|, t), 0
  {
    match TryClaim(|buf|, field, LoadI32(buf, field), NODE_SIZE, NODE_ALIGN, t)
    case Err(e) => Step(Fail(e), t)
    case Ok(g) =>
      EnterConsumesFree(|buf|, t, g.range);
      var r := NodeCheck(buf, g.range.start, g.after);
      Step(r.outcome, Exited(r.after))
  }

  /**
   * Validate a whole archive: with a fresh tracker, claim the root's range at
   * pos (in bounds, not overrunning, aligned), check the root, exit its range.
   */
  function Run(buf: seq<byte>, s: Shape, pos: nat): (r: Step)
    requires WellFormed(s)
    ensures Sound(|buf|, r.after) && r.after.ancestors == []
    ensures r.outcome.Pass? ==> Range(pos, pos + Size(s)) in r.after.committed
  {
    EmptySound(|buf|);
    match TryClaim(|buf|, 0, pos, Size(s), Align(s), Empty)
    case Err(e) => Step(Fail(e), Empty)
    case Ok(g) =>
      var r := Check(buf, s, pos, g.after);
      assert r.after.ancestors == [g.range];
      Step(r.outcome, Exited(r.after))
  }

  /**
   * The outcome of validating the archive buf as shape s with its root at pos.
   * The root itself is refused as out of bounds past the end, as an overrun
   * when the shape does not fit, as misaligned off its alignment, before any
   * rule of the shape is applied.
   */
  function Validate(buf: seq<byte>, s: Shape, pos: nat): (r: Outcome)
    requires WellFormed(s)
    ensures pos > |buf| ==> r == Fail(OutOfBounds)
    ensures pos <= |buf| < pos + Size(s) ==> r == Fail(Overrun)
    ensures pos + Size(s) <= |buf| && pos % Align(s) != 0 ==> r == Fail(Misaligned)
    ensures r.Pass? ==> pos + Size(s) <= |buf| && pos % Align(s) == 0
  {
    Run(buf, s, pos).outcome
  }
}
