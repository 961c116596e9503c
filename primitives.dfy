/**
 * Self-relative reference resolution and the bounds, overrun and alignment
 * checks made before a range of the archive may be claimed.
 */
module Primitives {
  import opened Errors
  import opened Layout

  /** A required alignment: a positive number of bytes. */
  type Alignment = a: nat | 1 <= a witness 1

  /** A half-open byte range [start, end) of the archive. */
  datatype Range = Range(start: nat, end: nat)

  /**
   * The absolute position named by the signed offset stored at position field:
   * field + offset, provided it lies within [0, len].
   */
  function Resolve(len: nat, field: nat, offset: int): (r: Result<nat>)
    ensures r.Ok? <==> 0 <= field + offset <= len
    ensures r.Ok? ==> r.value == field + offset
    ensures r.Err? ==> r.error == OutOfBounds
  {
    if 0 <= field + offset <= len then Ok(field + offset) else Err(OutOfBounds)
  }

  /** May size bytes at position pos, aligned to align, be viewed within a buffer of len bytes? */
  function CheckSpan(len: nat, pos: nat, size: nat, align: Alignment): (r: Outcome)
    ensures r.Pass? <==> pos + size <= len && pos % align == 0
    ensures r == Fail(Overrun) <==> pos + size > len
    ensures r == Fail(Misaligned) <==> pos + size <= len && pos % align != 0
  {
    if pos + size > len then Fail(Overrun)
    else if pos % align != 0 then Fail(Misaligned)
    else Pass
  }

  /**
   * The range of size bytes that the offset stored at field refers to, checked
   * in the order: out of bounds, overrun, misaligned.
   */
  function Locate(len: nat, field: nat, offset: int, size: nat, align: Alignment): (r: Result<Range>)
    ensures r.Ok? <==> 0 <= field + offset && field + offset + size <= len && (field + offset) % align == 0
    ensures r.Ok? ==> r.value == Range(field + offset, field + offset + size)
    ensures r == Err(OutOfBounds) <==> !(0 <= field + offset <= len)
    ensures r == Err(Overrun) <==> 0 <= field + offset <= len && field + offset + size > len
    ensures r == Err(Misaligned) <==>
      0 <= field + offset && field + offset + size <= len && (field + offset) % align != 0
  {
    match Resolve(len, field, offset)
    case Err(e) => Err(e)
    case Ok(target) =>
      match CheckSpan(len, target, size, align)
      case Fail(e) => Err(e)
      case Pass => Ok(Range(target, target + size))
  }

  /**
   * The writer's side of a relative reference: the offset it stores at field
   * for a target, read back and resolved, gives the target again.
   */
  lemma ResolveStoredOffset(len: nat, field: nat, target: nat)
    requires target <= len && -TWO_31 <= target - field < TWO_31
    ensures Resolve(len, field, LoadI32(StoreI32(target - field), 0)) == Ok(target)
  {
    LoadStoreI32(target - field);
  }
}
