# Archive validation for rkyv, modelled in Dafny

An rkyv archive is a byte buffer. Inside it, every string, box and vector
refers to its contents through a *self-relative* 32-bit little-endian signed
offset, counted from the position where the offset is stored. Before such a
buffer can be read in place, `check_archive::<T>(buf, pos)` validates the
archived `T` whose root lies at `pos`, through an `ArchiveContext`:

- Every reference must resolve to a position inside the buffer (out of
  bounds otherwise).
- The bytes it names must fit (overrun otherwise) and be aligned for the
  target type (misaligned otherwise).
- Each claimed range is entered on a stack of ranges still being
  validated, then committed once its contents have been checked.
- A range that meets a committed range is an *overlapping claim*. One that
  meets a range still on the stack is a *cyclic claim*. This is what makes
  validation of a buffer whose references form a loop terminate.

The test suite `rkyv_test/src/validation.rs` pins this behaviour down with
synthetic buffers. It also holds one hand-written rule: `check_bytes` for the
recursive `ArchivedNode` list.

The model has three layers:

- **Pure functions.** These cover:
  - little-endian decoding (`Layout`);
  - reference resolution and the bounds, overrun and alignment checks
    (`Primitives`);
  - the claim state as a value (`ClaimsTracker`);
  - the shape tables that stand in for derived code (`Shapes`);
  - one rule function per archived shape (`Rules`).
- **An imperative engine.** This is a class `Context.ArchiveContext` whose
  `Enter`, `Exit` and `Claim` update the ancestor stack and the committed
  set in place. The recursive validator in `Engine` is a set of methods
  that modify it. Each method is proved equal to the rule function it
  implements, and `Engine.CheckArchive` is proved equal to
  `Rules.Validate`.
- **Concrete lemmas and general properties.** Every test buffer of the
  suite becomes a concrete lemma (`Vectors`, `DeriveVectors`). The one
  exception is the unit struct of `derive_unit_struct`: it has no bytes to
  lay out, and `Properties.UnitRoot` covers it at every position. General
  properties of the rules are in `Properties`.

Termination of the node rule, whose recursion is not structural, rests on
the number of buffer bytes no claim covers yet. Each box inside a node
claims 8 fresh bytes, so that number strictly decreases
(`ClaimsTracker.EnterConsumesFree`). The other shapes recurse structurally
over the shape.

The comment at `rkyv_test/src/validation.rs:43` calls the `u32` at position 5
of a 5-byte buffer "out of bounds". Position 5 is the one-past-the-end
position, which is a valid place to resolve to. The check that then fails is
that four bytes do not fit, so the model reports `Overrun` there. The test
itself asserts only that validation fails, which the model proves. A position
strictly past the end, such as 6, is what the model reports as `OutOfBounds`.

## Model

| member | source | states |
|---|---|---|
| Layout.LoadU32 | rkyv_test/src/validation.rs:33-34 | the little-endian length field decodes to an unsigned 32-bit value; Layout.LoadStoreU32 and Layout.StoreLoadU32 make it the inverse of the writer's encoding |
| Layout.LoadI32 | rkyv_test/src/validation.rs:136 | the little-endian relative offset decodes to a signed 32-bit value in [-2^31, 2^31); Layout.LoadStoreI32 and Layout.StoreLoadI32 make it the inverse of the two's complement encoding |
| Layout.LoadStoreU32 | rkyv_test/src/validation.rs:33-34 | a 32-bit length stored little-endian reads back as the stored value |
| Layout.StoreLoadU32 | rkyv_test/src/validation.rs:33-34 | any four bytes are the little-endian encoding of the value read from them |
| Layout.LoadStoreI32 | rkyv_test/src/validation.rs:136 | a signed relative offset stored in two's complement reads back as itself (244,255,255,255 is -12) |
| Layout.StoreLoadI32 | rkyv_test/src/validation.rs:136 | any four bytes are the two's complement encoding of the signed value read from them |
| Primitives.Resolve | rkyv_test/src/validation.rs:33 | a relative offset resolves to field + offset exactly when that lies in [0, len], and fails with OutOfBounds otherwise |
| Primitives.CheckSpan | rkyv_test/src/validation.rs:45-48 | a span passes exactly when it fits and is aligned; Overrun exactly when it does not fit; Misaligned exactly when it fits but is not aligned |
| Primitives.Locate | rkyv_test/src/validation.rs:43-48 | the claimed range is [target, target + size) exactly when it is in bounds, fits and is aligned; each error is given with its exact condition, in the order out of bounds, overrun, misaligned |
| Primitives.ResolveStoredOffset | rkyv_test/src/validation.rs:12-15 | the offset a writer stores for a target resolves back to that target |
| Shapes.OptPayload | rkyv_test/src/validation.rs:32-33 | an option's payload starts after its tag byte and its padding, and ends with the option |
| ClaimsTracker.EmptySound | rkyv_test/src/validation.rs:15 | a fresh tracker knows of no claim and is sound for a buffer of any length |
| ClaimsTracker.Entered | rkyv_test/src/validation.rs:66-81 | entering succeeds exactly when the range meets no known claim, and then pushes it; it fails with OverlappingClaim exactly when it meets a committed range, and with CyclicClaim exactly when it meets only open ancestors |
| ClaimsTracker.Exited | rkyv_test/src/validation.rs:117-121 | leaving pops the innermost open range and commits it; the set of known claims is unchanged |
| ClaimsTracker.EnteredSound | rkyv_test/src/validation.rs:66-81 | entering an in-bounds range keeps every claim in bounds and all claims pairwise disjoint |
| ClaimsTracker.EnterConsumesFree | rkyv_test/src/validation.rs:129-139 | entering a non-empty range strictly lowers the number of unclaimed bytes, so validation through fresh claims terminates |
| ClaimsTracker.TryClaim | rkyv_test/src/validation.rs:43-48 | a claim succeeds exactly when the referenced range is in bounds, fits, is aligned and meets no known claim; it then enters that range and keeps the tracker sound |
| Rules.Check | rkyv_test/src/validation.rs:143-194 | checking any shape leaves the ancestor stack as it found it, only adds committed ranges, and keeps the claims sound |
| Rules.CheckString | rkyv_test/src/validation.rs:66-81 | a string passes exactly when [target, target + length) is in bounds and meets no known claim; on success that range is committed, on failure the tracker is unchanged |
| Rules.CheckBox | rkyv_test/src/validation.rs:158 | checking a box leaves the ancestor stack as found and the claims sound |
| Rules.CheckVec | rkyv_test/src/validation.rs:158 | checking a vector leaves the ancestor stack as found and the claims sound |
| Rules.SpanIsProduct | rkyv_test/src/validation.rs:164 | count elements of a given size laid out one after another take exactly count * size bytes, the size a vector claims |
| Rules.SpanFits | rkyv_test/src/validation.rs:164 | when a vector's claimed bytes lie within the buffer, every one of its elements does |
| Rules.CheckFields | rkyv_test/src/validation.rs:155-158 | checking a record's fields in order leaves the ancestor stack as found and the claims sound |
| Rules.CheckElements | rkyv_test/src/validation.rs:164 | checking a vector's elements in order leaves the ancestor stack as found and the claims sound |
| Rules.NodeCheck | rkyv_test/src/validation.rs:113-125 | tag 0 passes without touching the payload or the claims; tag 1 fails only with a wrapped (Nested) error; any other tag is refused with InvalidDiscriminant and the claims unchanged (the tag-1 claim and check are in Properties.NodeConsClaim) |
| Rules.NodeBoxCheck | rkyv_test/src/validation.rs:117-121 | checking the node's box leaves the ancestor stack as found and the claims sound |
| Rules.Run | rkyv_test/src/validation.rs:15 | after validation no range is left open and the claims are sound; a root that passes has its whole range committed |
| Rules.Validate | rkyv_test/src/validation.rs:15 | the outcome of `check_archive`: a root past the end is out of bounds, one whose shape does not fit is an overrun, one off its alignment is misaligned, in that order, and a root that passes fits and is aligned |
| Engine.CheckBytes | rkyv_test/src/validation.rs:109-126 | the recursive validator's outcome and new claim state are exactly those of Rules.Check, and a Valid context stays Valid (as for every engine method below) |
| Engine.CheckFieldsAt | rkyv_test/src/validation.rs:155-158 | the record loop's outcome and claim state are exactly those of Rules.CheckFields |
| Engine.CheckStringAt | rkyv_test/src/validation.rs:66-81 | outcome and claim state exactly those of Rules.CheckString |
| Engine.CheckBoxAt | rkyv_test/src/validation.rs:158 | outcome and claim state exactly those of Rules.CheckBox |
| Engine.CheckVecAt | rkyv_test/src/validation.rs:158 | outcome and claim state exactly those of Rules.CheckVec |
| Engine.CheckElementsOf | rkyv_test/src/validation.rs:164 | the element loop's outcome and claim state are exactly those of Rules.CheckElements |
| Engine.CheckNode | rkyv_test/src/validation.rs:109-126 | the hand-written node rule's outcome and claim state are exactly those of Rules.NodeCheck |
| Engine.CheckNodeBox | rkyv_test/src/validation.rs:117-121 | outcome and claim state exactly those of Rules.NodeBoxCheck |
| Engine.CheckArchive | rkyv_test/src/validation.rs:15 | the engine, from a fresh context, computes exactly Rules.Validate |
| Context.ArchiveContext.constructor | rkyv_test/src/validation.rs:15 | a fresh context over the archive has nothing claimed |
| Context.ArchiveContext.Enter | rkyv_test/src/validation.rs:66-81 | the in-place enter of a range within the archive computes Entered on the context's claim state, leaves the state unchanged when it refuses, and keeps the context invariant Valid (claims in bounds and pairwise disjoint) |
| Context.ArchiveContext.Exit | rkyv_test/src/validation.rs:117-121 | the in-place exit computes Exited on the context's claim state and keeps Valid |
| Context.ArchiveContext.Claim | rkyv_test/src/validation.rs:117-121 | the in-place claim returns the range TryClaim grants and the new claim state, or TryClaim's error with the state unchanged, and keeps Valid |
| Vectors.U32PastTheEnd | rkyv_test/src/validation.rs:44 | a u32 at position 5 of [0,1,2,3,4] is refused (Overrun) |
| Vectors.U32Overrun | rkyv_test/src/validation.rs:46 | a u32 at position 2 of [0,1,2,3,4] is refused with Overrun |
| Vectors.U32Unaligned | rkyv_test/src/validation.rs:48 | a u32 at position 1 of [0,1,2,3,4] is refused as Misaligned |
| Vectors.U32OutOfBounds | rkyv_test/src/validation.rs:43-44 | a u32 at position 6, past the end of [0,1,2,3,4], is refused as OutOfBounds |
| Vectors.SomeStringValidates | rkyv_test/src/validation.rs:31-40 | the synthetic Some("Hello world") buffer validates at 0 |
| Vectors.BadTagRejected | rkyv_test/src/validation.rs:54-63 | the same layout with tag 2 is refused with InvalidDiscriminant(2) |
| Vectors.SharedFirstString | rkyv_test/src/validation.rs:70-72 | the first string of the pair claims and commits [16, 27) |
| Vectors.SharedSecondString | rkyv_test/src/validation.rs:73-75 | the second string names the same committed range and is refused with OverlappingClaim |
| Vectors.SharedStringsRejected | rkyv_test/src/validation.rs:69-80 | the (String, String) buffer is refused with OverlappingClaim |
| Vectors.CycleClosesAtSecondBox | rkyv_test/src/validation.rs:135-136 | the second node's box, 12 bytes back, meets the open first node: CyclicClaim |
| Vectors.CyclicNodesRejected | rkyv_test/src/validation.rs:130-139 | the cyclic node buffer is refused with a cyclic claim wrapped by each of the two node rules |
| DeriveVectors.StructValidates | rkyv_test/src/validation.rs:152-178 | Test { 42, "hello world", Box(vec!["yes", "no"]) }, and the tuple struct with the same layout, validate at the writer's position 40 |
| DeriveVectors.EnumAValidates | rkyv_test/src/validation.rs:191 | Test::A(42) validates at the writer's position 0 |
| DeriveVectors.EnumBValidates | rkyv_test/src/validation.rs:192 | Test::B("hello world") validates at the writer's position 12 |
| DeriveVectors.EnumCValidates | rkyv_test/src/validation.rs:193 | Test::C(Box(vec!["yes", "no"])) validates at the writer's position 32 |
| DeriveVectors.ArchivedOptionValidates | rkyv_test/src/validation.rs:20-28 | the writer's layout of Some("Hello world") validates at its position 12 |
| Properties.ScalarRoot | rkyv_test/src/validation.rs:43-48 | for every buffer and position, a u32 root fails as out of bounds, overrun or misaligned, in that order, and passes otherwise |
| Properties.UnitRoot | rkyv_test/src/validation.rs:142-149 | a unit struct validates exactly at the positions within [0, len] |
| Properties.PassedRootFits | rkyv_test/src/validation.rs:8-16 | a root that validates lies within the buffer and is aligned for its shape |
| Properties.CycleThroughOpenNode | rkyv_test/src/validation.rs:113-125 | a Cons node whose box leads into a node still being validated is refused with a cyclic claim, wrapped once |
| Properties.NodeConsClaim | rkyv_test/src/validation.rs:116-121 | a Cons node claims the 8-byte node its box at pos + 4 refers to: a refused claim fails wrapped once with the claims unchanged; a granted one checks the node there, wraps its failure once, and commits the claimed node whatever its outcome |
| Properties.SelfReferentialNode | rkyv_test/src/validation.rs:129-139 | a Cons node whose box refers to itself is refused as a root, for every buffer |
| Properties.StringOverCommitted | rkyv_test/src/validation.rs:66-81 | a string whose in-bounds bytes overlap a committed range is refused with OverlappingClaim |
| Properties.SiblingStringsOverlap | rkyv_test/src/validation.rs:66-81 | of two strings checked one after the other, the second is refused with OverlappingClaim whenever the first passed and the second's in-bounds bytes overlap the first's, for every buffer |
| Properties.EmptyCommittedBlocks | rkyv_test/src/validation.rs:66-81 | a committed empty range [a, a) makes every later claim of a range holding a strictly inside it fail with OverlappingClaim |
| Properties.OptBadTag | rkyv_test/src/validation.rs:54-63 | an option whose tag byte is neither 0 nor 1 is refused with InvalidDiscriminant of that tag and the claims untouched, for every payload shape |
| Properties.OptNone | rkyv_test/src/validation.rs:32 | an option whose tag byte is 0 passes without claiming anything |
| Properties.UnionBadTag | rkyv_test/src/validation.rs:181-194 | a derived enum whose tag byte names no variant is refused with InvalidDiscriminant of that tag and the claims untouched |
| Properties.BoxCommitsClaim | rkyv_test/src/validation.rs:158 | a box whose claim is refused fails with that error and changes nothing; once granted, the claimed range is committed after the box whatever its target's outcome |
| Properties.VecCommitsClaim | rkyv_test/src/validation.rs:158 | the same for a vector: a refused claim fails and changes nothing; a granted one, count * Size(elem) bytes, is committed after the vector |

## Left out

- The archive writer (`ArchiveBuffer`, `archive`, `into_inner`) is not part of this model. The derive tests' buffers are written out by hand in the layout the writer produces: children first, root last, in a zero-filled 256-byte buffer.
- The `#[derive(Archive)]` and `#[derive(CheckBytes)]` code generation is not modelled. The `Shape` tables (field offsets, sizes, alignments, the variants of an enum) stand in for the generated code.
- Error formatting is not modelled: `NodeError`, `Display`, `Error` and `Box<dyn Error>` have no behaviour to model. The wrapping `NodeError(e.into())` becomes the `Nested(e)` error.
- The `panic!()` on an unknown node tag becomes the `InvalidDiscriminant(tag)` error, not a process abort.
- Raw pointers and `unsafe` casts are not modelled; positions are natural-number indices into an immutable byte sequence.
- The UTF-8 validity of string bytes is not modelled, because the suite never exercises it.
- A vector's claim is written in the rules as Span(size, count), the bytes of count elements laid out one after another; Rules.SpanIsProduct proves it equal to the count * size that the engine claims. The element loop walks the elements by position rather than by index.
- The `u8` and `u32` scalars need no check of their own. A scalar inside a record is covered by the claim of the record around it.
- Rules.CheckBox, Rules.CheckVec, Rules.CheckFields, Rules.CheckElements, Rules.NodeBoxCheck: their own contracts state only how the claim state is kept balanced and sound. What each one computes is tied to the engine through the methods that equal them, and to the test vectors through the concrete lemmas, not through a closed-form contract. For boxes and vectors, Properties.BoxCommitsClaim and Properties.VecCommitsClaim add the refused-claim outcome and the commit of a granted claim.
- Rules.Check: its contract states how the claim state is kept, not the outcome for every shape. Outcomes are stated per shape in CheckString, NodeCheck with Properties.NodeConsClaim for its tag 1, Properties.OptBadTag, Properties.OptNone and Properties.UnionBadTag, and per buffer in the vector lemmas.
- Alignment is checked on positions within the buffer (`pos % align`), not on machine addresses. The model takes the buffer to start at an address aligned for every shape, as the `Aligned` wrapper around the buffers the writer fills is there to ensure; a plain byte array passed to `check_archive` carries no such guarantee.
- An empty range (a string or vector of length 0) is claimed like any other: `Overlaps` makes `[a, a)` meet every range that holds `a` strictly inside it. An empty string or vector whose offset points strictly inside a committed range is refused with OverlappingClaim, and one inside an open ancestor with CyclicClaim. One at the edge of a range, or outside every range, is accepted. The same test works the other way: once an empty range `[a, a)` is committed, a later claim of a range that holds `a` strictly inside it is refused with OverlappingClaim, so an empty string accepted at 20 makes a later box whose target is `[16, 24)` fail (Properties.EmptyCommittedBlocks).
