/**
 * The validation engine: recursive methods that walk an archive through a
 * shared ArchiveContext, each proved to compute exactly what the rule
 * functions specify.
 */
module Engine {
  import opened Errors
  import opened Layout
  import opened Primitives
  import opened ClaimsTracker
  import opened Shapes
  import opened Rules
  import opened Context

  /** Check the archived value of shape s at pos, claiming through ctx. */
  method CheckBytes(ctx: ArchiveContext, s: Shape, pos: nat) returns (r: Outcome)
    requires WellFormed(s) && pos + Size(s) <= |ctx.buf|
    modifies ctx
    ensures Check(ctx.buf, s, pos, old(ctx.Snapshot())) == Step(r, ctx.Snapshot())
    ensures old(ctx.Valid()) ==> ctx.Valid()
    decreases s, 1
  {
    var buf := ctx.buf;
    match s {
      case U8 => r := Pass;
      case U32 => r := Pass;
      case Unit => r := Pass;
      case Str =>
        r := CheckStringAt(ctx, pos);
      case Opt(some) =>
        var tag := buf[pos];
        if tag == 0 {
          r := Pass;
        } else if tag == 1 {
          r := CheckBytes(ctx, some, pos + OptPayload(some));
        } else {
          r := Fail(InvalidDiscriminant(tag as int));
        }
      case BoxOf(target) =>
        r := CheckBoxAt(ctx, target, pos);
      case VecOf(elem) =>
        r := CheckVecAt(ctx, elem, pos);
      case Record(_, _, _) =>
        r := CheckFieldsAt(ctx, s, pos);
      case Union(_, _, variants) =>
        var tag := buf[pos];
        if (tag as int) < |variants| {
          r := CheckBytes(ctx, variants[tag], pos);
        } else {
          r := Fail(InvalidDiscriminant(tag as int));
        }
      case Node =>
        r := CheckNode(ctx, pos);
    }
  }

  /** A record: check its fields in declaration order, stopping at the first failure. */
  method CheckFieldsAt(ctx: ArchiveContext, rec: Shape, pos: nat) returns (r: Outcome)
    requires rec.Record? && WellFormed(rec) && pos + rec.size <= |ctx.buf|
    modifies ctx
    ensures CheckFields(ctx.buf, rec, 0, pos, old(ctx.Snapshot())) == Step(r, ctx.Snapshot())
    ensures old(ctx.Valid()) ==> ctx.Valid()
    decreases rec, 0
  {
    ghost var t0 := ctx.Snapshot();
    var buf, fields := ctx.buf, rec.fields;
    var i := 0;
    while i < |fields|
      invariant 0 <= i <= |fields| && ctx.buf == buf
      invariant CheckFields(buf, rec, 0, pos, t0) == CheckFields(buf, rec, i, pos, ctx.Snapshot())
      decreases |fields| - i
    {
      r := CheckBytes(ctx, fields[i].shape, pos + fields[i].offset);
      if r.Fail? {
        return;
      }
      i := i + 1;
    }
    r := Pass;
  }

  /** A string: claim the bytes its fat reference at pos names, then exit. */
  method CheckStringAt(ctx: ArchiveContext, pos: nat) returns (r: Outcome)
    requires pos + 8 <= |ctx.buf|
    modifies ctx
    ensures CheckString(ctx.buf, pos, old(ctx.Snapshot())) == Step(r, ctx.Snapshot())
    ensures old(ctx.Valid()) ==> ctx.Valid()
  {
    var claim := ctx.Claim(pos, LoadI32(ctx.buf, pos), LoadU32(ctx.buf, pos + 4), 1);
    if claim.Err? {
      return Fail(claim.error);
    }
    ctx.Exit();
    r := Pass;
  }

  /** A box: claim the value its relative offset at pos refers to, check it, exit. */
  method CheckBoxAt(ctx: ArchiveContext, target: Shape, pos: nat) returns (r: Outcome)
    requires WellFormed(target) && pos + 4 <= |ctx.buf|
    modifies ctx
    ensures CheckBox(ctx.buf, target, pos, old(ctx.Snapshot())) == Step(r, ctx.Snapshot())
    ensures old(ctx.Valid()) ==> ctx.Valid()
    decreases target, 3
  {
    var claim := ctx.Claim(pos, LoadI32(ctx.buf, pos), Size(target), Align(target));
    if claim.Err? {
      return Fail(claim.error);
    }
    r := CheckBytes(ctx, target, claim.value.start);
    ctx.Exit();
  }

  /** A vector: claim its elements' range, check each element, exit. */
  method CheckVecAt(ctx: ArchiveContext, elem: Shape, pos: nat) returns (r: Outcome)
    requires WellFormed(elem) && pos + 8 <= |ctx.buf|
    modifies ctx
    ensures CheckVec(ctx.buf, elem, pos, old(ctx.Snapshot())) == Step(r, ctx.Snapshot())
    ensures old(ctx.Valid()) ==> ctx.Valid()
    decreases elem, 3
  {
    var count := LoadU32(ctx.buf, pos + 4);
    SpanIsProduct(Size(elem), count);
    var claim := ctx.Claim(pos, LoadI32(ctx.buf, pos), count * Size(elem), Align(elem));
    if claim.Err? {
      return Fail(claim.error);
    }
    SpanFits(|ctx.buf|, Size(elem), claim.value.start, count);
    r := CheckElementsOf(ctx, elem, claim.value.start, count);
    ctx.Exit();
  }

  /** Check the count elements of shape elem laid out one after another from pos on. */
  method CheckElementsOf(ctx: ArchiveContext, elem: Shape, pos: nat, count: nat) returns (r: Outcome)
    requires WellFormed(elem) && ElementsFit(|ctx.buf|, Size(elem), pos, count)
    modifies ctx
    ensures CheckElements(ctx.buf, elem, pos, count, old(ctx.Snapshot())) == Step(r, ctx.Snapshot())
    ensures old(ctx.Valid()) ==> ctx.Valid()
    decreases elem, 2
  {
    ghost var t0, valid := ctx.Snapshot(), ctx.Valid();
    var buf, width := ctx.buf, Size(elem);
    var p, left := pos, count;
    while left > 0
      invariant ctx.buf == buf && ElementsFit(|buf|, width, p, left)
      invariant CheckElements(buf, elem, pos, count, t0) == CheckElements(buf, elem, p, left, ctx.Snapshot())
      invariant valid ==> ctx.Valid()
      decreases left
    {
      ElementsAdvance(buf, elem, p, left, ctx.Snapshot());
      r := CheckBytes(ctx, elem, p);
      if r.Fail? {
        return;
      }
      p, left := p + width, left - 1;
    }
    r := Pass;
  }

  /** The hand-written node rule: tag 0 passes, tag 1 checks the box at pos + 4, other tags fail. */
  method CheckNode(ctx: ArchiveContext, pos: nat) returns (r: Outcome)
    requires pos + NODE_SIZE <= |ctx.buf|
    modifies ctx
    ensures NodeCheck(ctx.buf, pos, old(ctx.Snapshot())) == Step(r, ctx.Snapshot())
    ensures old(ctx.Valid()) ==> ctx.Valid()
    decreases Free(|ctx.buf|, ctx.Snapshot()), 1
  {
    var tag := ctx.buf[pos];
    if tag == 0 {
      r := Pass;
    } else if tag == 1 {
      r := CheckNodeBox(ctx, pos + NODE_BOX);
      if r.Fail? {
        r := Fail(Nested(r.error));
      }
    } else {
      r := Fail(InvalidDiscriminant(tag as int));
    }
  }

  /** The box inside a node: claim the node it refers to, check it, exit. */
  method CheckNodeBox(ctx: ArchiveContext, field: nat) returns (r: Outcome)
    requires field + 4 <= |ctx.buf|
    modifies ctx
    ensures NodeBoxCheck(ctx.buf, field, old(ctx.Snapshot())) == Step(r, ctx.Snapshot())
    ensures old(ctx.Valid()) ==> ctx.Valid()
    decreases Free(|ctx.buf|, ctx.Snapshot()), 0
  {
    ghost var t0 := ctx.Snapshot();
    var claim := ctx.Claim(field, LoadI32(ctx.buf, field), NODE_SIZE, NODE_ALIGN);
    if claim.Err? {
      return Fail(claim.error);
    }
    EnterConsumesFree(|ctx.buf|, t0, claim.value);
    r := CheckNode(ctx, claim.value.start);
    ctx.Exit();
  }

  /**
   * The entry point: validate the archive buf as shape s with its root at pos,
   * through a fresh context.
   */
  method CheckArchive(buf: seq<byte>, s: Shape, pos: nat) returns (r: Outcome)
    requires WellFormed(s)
    ensures r == Validate(buf, s, pos)
  {
    var ctx := new ArchiveContext(buf);
    var root := ctx.Claim(0, pos, Size(s), Align(s));
    if root.Err? {
      return Fail(root.error);
    }
    r := CheckBytes(ctx, s, pos);
    ctx.Exit();
  }
}
