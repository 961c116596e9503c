/**
 * The archived shapes a validator can be asked to check, with the size and
 * alignment of each archived form and the field-offset tables that a
 * derived validator is built from.
 */
module Shapes {
  import opened Primitives

  datatype Shape =
    | U8                                                  // a byte: every value is valid
    | U32                                                 // a 32-bit integer: every value is valid
    | Unit                                                // a unit struct: zero bytes
    | Str                                                 // a string: relative offset + byte length
    | Opt(some: Shape)                                    // an option: u8 tag, payload after padding
    | BoxOf(target: Shape)                                // an owning box: relative offset
    | VecOf(elem: Shape)                                  // a vector: relative offset + element count
    | Record(size: nat, align: Alignment, fields: seq<Field>)    // a struct, tuple struct or tuple
    | Union(size: nat, align: Alignment, variants: seq<Shape>)   // a derived enum: u8 tag, one record per variant
    | Node                                                // the linked-list node with a hand-written rule

  /** One entry of a field-offset table: where a field starts relative to its record. */
  datatype Field = Field(offset: nat, shape: Shape)

  /** Size and alignment of the archived node: a tag padded to 4 bytes, then a box. */
  const NODE_SIZE: nat := 8
  const NODE_ALIGN: Alignment := 4
  /** Position of the node's box relative to the node. */
  const NODE_BOX: nat := 4

  /** The number of bytes an archived value of shape s occupies. */
  function Size(s: Shape): nat {
    match s
    case U8 => 1
    case U32 => 4
    case Unit => 0
    case Str => 8
    case Opt(some) => Align(some) + Size(some)
    case BoxOf(_) => 4
    case VecOf(_) => 8
    case Record(size, _, _) => size
    case Union(size, _, _) => size
    case Node => NODE_SIZE
  }

  /** The alignment an archived value of shape s requires. */
  function Align(s: Shape): Alignment {
    match s
    case U8 => 1
    case U32 => 4
    case Unit => 1
    case Str => 4
    case Opt(some) => Align(some)
    case BoxOf(_) => 4
    case VecOf(_) => 4
    case Record(_, align, _) => align
    case Union(_, align, _) => align
    case Node => NODE_ALIGN
  }

  /** Where the payload of an option with payload shape some starts. */
  function OptPayload(some: Shape): (offset: nat)
    ensures 1 <= offset && offset + Size(some) == Size(Opt(some))
  {
    Align(some)
  }

  /**
   * A layout table is consistent: every field of a record fits inside it, and
   * every variant of a union is a record that fits inside the union. A union
   * is at least one byte long, so its tag byte lies inside it. The derived
   * layouts start a variant's fields after the tag and its padding, but the
   * predicate does not require a field to stay off the tag byte.
   */
  predicate WellFormed(s: Shape) {
    match s
    case Opt(some) => WellFormed(some)
    case BoxOf(target) => WellFormed(target)
    case VecOf(elem) => WellFormed(elem)
    case Record(size, _, fields) =>
      forall i | 0 <= i < |fields| ::
        fields[i].offset + Size(fields[i].shape) <= size && WellFormed(fields[i].shape)
    case Union(size, _, variants) =>
      1 <= size &&
      forall i | 0 <= i < |variants| ::
        variants[i].Record? && Size(variants[i]) <= size && WellFormed(variants[i])
    case _ => true
  }
}
