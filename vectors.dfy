/**
 * The buffers of the test suite in rkyv_test/src/validation.rs, and what
 * validating each of them gives.
 */
module Vectors {
  import opened Errors
  import opened Layout
  import opened Primitives
  import opened ClaimsTracker
  import opened Shapes
  import opened Rules

  /** The size of the writer's buffer in the derive tests. */
  const BUFFER_SIZE: nat := 256

  /** The writer's zero-initialised buffer with the archived bytes at its front. */
  function Padded(bytes: seq<byte>): (buf: seq<byte>)
    requires |bytes| <= BUFFER_SIZE
    ensures |buf| == BUFFER_SIZE && buf[..|bytes|] == bytes
  {
    bytes + seq(BUFFER_SIZE - |bytes|, _ => 0)
  }

  /** Validation claims the root's range, then checks the root inside it. */
  lemma RunFromRoot(buf: seq<byte>, s: Shape, pos: nat, g: Grant)
    requires WellFormed(s) && TryClaim(|buf|, 0, pos, Size(s), Align(s), Empty) == Ok(g)
    ensures Validate(buf, s, pos) == Check(buf, s, pos, g.after).outcome
  {
  }

  /**
   * A box of a vector whose target is in bounds, aligned and unclaimed: when
   * the vector passes with its range open, the box passes and its range is
   * committed on exit.
   */
  lemma BoxedVecPasses(buf: seq<byte>, elem: Shape, pos: nat, t: Tracker, r: Range, done: Tracker)
    requires WellFormed(elem) && pos + 4 <= |buf|
    requires Locate(|buf|, pos, LoadI32(buf, pos), 8, 4) == Ok(r)
    requires forall k | k in AllClaims(t) :: !Overlaps(k, r)
    requires CheckVec(buf, elem, r.start, Tracker(t.ancestors + [r], t.committed)) == Step(Pass, done)
    ensures done.ancestors == t.ancestors + [r]
    ensures CheckBox(buf, VecOf(elem), pos, t) == Step(Pass, Exited(done))
  {
    var inner := Tracker(t.ancestors + [r], t.committed);
    assert TryClaim(|buf|, pos, LoadI32(buf, pos), 8, 4, t) == Ok(Grant(r, inner));
    assert Check(buf, VecOf(elem), r.start, inner) == Step(Pass, done);
  }

  /** A derived enum with a valid tag is checked as the record of the variant the tag selects. */
  lemma VariantChosen(buf: seq<byte>, s: Shape, pos: nat, t: Tracker)
    requires s.Union? && WellFormed(s) && pos + Size(s) <= |buf| && (buf[pos] as int) < |s.variants|
    ensures s.variants[buf[pos]].Record?
    ensures Check(buf, s, pos, t) == CheckFields(buf, s.variants[buf[pos]], 0, pos, t)
  {
    assert Check(buf, s, pos, t) == Check(buf, s.variants[buf[pos]], pos, t);
  }

  /** A byte at the front of a padded buffer is the archived byte there. */
  lemma PaddedByte(bytes: seq<byte>, i: nat)
    requires |bytes| <= BUFFER_SIZE && i < |bytes|
    ensures Padded(bytes)[i] == bytes[i]
  {
    assert Padded(bytes)[..|bytes|][i] == bytes[i];
  }

  /** The 32-bit word at pos of a padded buffer, from the four archived bytes there. */
  lemma PaddedWord(bytes: seq<byte>, pos: nat, b0: byte, b1: byte, b2: byte, b3: byte)
    requires |bytes| <= BUFFER_SIZE && pos + 4 <= |bytes|
    requires bytes[pos] == b0 && bytes[pos + 1] == b1 && bytes[pos + 2] == b2 && bytes[pos + 3] == b3
    ensures LoadU32(Padded(bytes), pos)
      == b0 as int + 0x100 * b1 as int + 0x1_0000 * b2 as int + 0x100_0000 * b3 as int
  {
    var buf := Padded(bytes);
    assert buf[pos] == buf[..|bytes|][pos] && buf[pos + 1] == buf[..|bytes|][pos + 1];
    assert buf[pos + 2] == buf[..|bytes|][pos + 2] && buf[pos + 3] == buf[..|bytes|][pos + 3];
  }

  const OPTION_STRING: Shape := Opt(Str)
  const STRING_PAIR: Shape := Record(16, 4, [Field(0, Str), Field(8, Str)])
  /** The fields a: u32, b: String, c: Box<Vec<String>> (or .0, .1, .2 of the tuple struct). */
  const TEST_STRUCT: Shape := Record(16, 4, [Field(0, U32), Field(4, Str), Field(12, BoxOf(VecOf(Str)))])
  /** The variants A(u32), B(String), C(Box<Vec<String>>), each payload after the padded tag. */
  const TEST_ENUM: Shape := Union(12, 4, [VARIANT_A, VARIANT_B, VARIANT_C])
  const VARIANT_A: Shape := Record(8, 4, [Field(4, U32)])
  const VARIANT_B: Shape := Record(12, 4, [Field(4, Str)])
  const VARIANT_C: Shape := Record(8, 4, [Field(4, BoxOf(VecOf(Str)))])

  const HELLO_WORLD: seq<byte> := [0x48, 0x65, 0x6c, 0x6c, 0x6f, 0x20, 0x77, 0x6f, 0x72, 0x6c, 0x64]
  const SMALL: seq<byte> := [0, 1, 2, 3, 4]

  const SOME_STRING: seq<byte> := [1, 0, 0, 0, 8, 0, 0, 0, 11, 0, 0, 0] + HELLO_WORLD
  const BAD_TAG: seq<byte> := [2, 0, 0, 0, 8, 0, 0, 0, 11, 0, 0, 0] + HELLO_WORLD
  const SHARED_STRINGS: seq<byte> := [16, 0, 0, 0, 11, 0, 0, 0, 8, 0, 0, 0, 11, 0, 0, 0] + HELLO_WORLD
  const CYCLIC_NODES: seq<byte> := [1, 0, 0, 0, 4, 0, 0, 0, 1, 0, 0, 0, 244, 255, 255, 255]

  lemma U32PastTheEnd()
    ensures Validate(SMALL, U32, 5) == Fail(Overrun)
  {
  }

  lemma U32Overrun()
    ensures Validate(SMALL, U32, 2) == Fail(Overrun)
  {
  }

  lemma U32Unaligned()
    ensures Validate(SMALL, U32, 1) == Fail(Misaligned)
  {
  }

  lemma U32OutOfBounds()
    ensures Validate(SMALL, U32, 6) == Fail(OutOfBounds)
  {
  }

  lemma SomeStringValidates()
    ensures Validate(SOME_STRING, OPTION_STRING, 0) == Pass
  {
  }

  lemma BadTagRejected()
    ensures Validate(BAD_TAG, OPTION_STRING, 0) == Fail(InvalidDiscriminant(2))
  {
  }

  /** The first string of the pair claims [16, 27), the whole tail of the buffer. */
  lemma SharedFirstString()
    ensures CheckString(SHARED_STRINGS, 0, Tracker([Range(0, 16)], {}))
      == Step(Pass, Tracker([Range(0, 16)], {Range(16, 27)}))
  {
    var root, first := Range(0, 16), Range(16, 27);
    assert AllClaims(Tracker([root], {})) == {root};
    assert LoadI32(SHARED_STRINGS, 0) == 16 && LoadU32(SHARED_STRINGS, 4) == 11;
    assert [root] + [first] == [root, first];
    assert TryClaim(27, 0, 16, 11, 1, Tracker([root], {})) == Ok(Grant(first, Tracker([root, first], {})));
  }

  /** The second string of the pair names the same, already committed, range. */
  lemma SharedSecondString()
    ensures CheckString(SHARED_STRINGS, 8, Tracker([Range(0, 16)], {Range(16, 27)}))
      == Step(Fail(OverlappingClaim), Tracker([Range(0, 16)], {Range(16, 27)}))
  {
    var buf := SHARED_STRINGS;
    assert buf[8] == 8 && buf[9] == 0 && buf[10] == 0 && buf[11] == 0;
    assert buf[12] == 11 && buf[13] == 0 && buf[14] == 0 && buf[15] == 0;
    assert LoadI32(buf, 8) == 8 && LoadU32(buf, 12) == 11;
    assert Overlaps(Range(16, 27), Range(16, 27));
  }

  lemma SharedRootClaim()
    ensures TryClaim(27, 0, 0, 16, 4, Empty) == Ok(Grant(Range(0, 16), Tracker([Range(0, 16)], {})))
  {
    assert AllClaims(Empty) == {};
    assert Empty.ancestors + [Range(0, 16)] == [Range(0, 16)];
  }

  lemma SharedSecondField()
    ensures CheckFields(SHARED_STRINGS, STRING_PAIR, 1, 0, Tracker([Range(0, 16)], {Range(16, 27)})).outcome
      == Fail(OverlappingClaim)
  {
    assert |SHARED_STRINGS| == 27 && WellFormed(STRING_PAIR);
    SharedSecondString();
  }

  lemma SharedFields()
    ensures Check(SHARED_STRINGS, STRING_PAIR, 0, Tracker([Range(0, 16)], {})).outcome
      == Fail(OverlappingClaim)
  {
    assert |SHARED_STRINGS| == 27 && WellFormed(STRING_PAIR);
    SharedFirstString();
    SharedSecondField();
  }

  lemma SharedStringsRejected()
    ensures Validate(SHARED_STRINGS, STRING_PAIR, 0) == Fail(OverlappingClaim)
  {
    assert WellFormed(STRING_PAIR);
    assert |SHARED_STRINGS| == 27;
    var t1 := Tracker([Range(0, 16)], {});
    SharedRootClaim();
    SharedFields();
    RunFromRoot(SHARED_STRINGS, STRING_PAIR, 0, Grant(Range(0, 16), t1));
  }

  lemma CycleClosesAtSecondBox()
    ensures NodeBoxCheck(CYCLIC_NODES, 12, Tracker([Range(0, 8), Range(8, 16)], {})).outcome == Fail(CyclicClaim)
  {
    var t2 := Tracker([Range(0, 8), Range(8, 16)], {});
    assert LoadI32(CYCLIC_NODES, 12) == -12;
    assert Overlaps(Range(0, 8), Range(0, 8));
    assert TryClaim(16, 12, -12, 8, 4, t2) == Err(CyclicClaim);
  }

  lemma CycleSecondNode()
    ensures NodeCheck(CYCLIC_NODES, 8, Tracker([Range(0, 8), Range(8, 16)], {})).outcome == Fail(Nested(CyclicClaim))
  {
    CycleClosesAtSecondBox();
  }

  lemma CycleFirstBoxClaim()
    ensures TryClaim(16, 4, LoadI32(CYCLIC_NODES, 4), 8, 4, Tracker([Range(0, 8)], {}))
      == Ok(Grant(Range(8, 16), Tracker([Range(0, 8), Range(8, 16)], {})))
  {
    var first, second := Range(0, 8), Range(8, 16);
    assert AllClaims(Tracker([first], {})) == {first};
    assert LoadI32(CYCLIC_NODES, 4) == 4;
    assert [first] + [second] == [first, second];
  }

  lemma CycleEntersSecondNode()
    ensures NodeBoxCheck(CYCLIC_NODES, 4, Tracker([Range(0, 8)], {})).outcome == Fail(Nested(CyclicClaim))
  {
    CycleFirstBoxClaim();
    CycleSecondNode();
  }

  lemma CycleFirstNode()
    ensures NodeCheck(CYCLIC_NODES, 0, Tracker([Range(0, 8)], {})).outcome == Fail(Nested(Nested(CyclicClaim)))
  {
    CycleEntersSecondNode();
  }

  lemma CycleRootClaim()
    ensures TryClaim(16, 0, 0, 8, 4, Empty) == Ok(Grant(Range(0, 8), Tracker([Range(0, 8)], {})))
  {
    assert AllClaims(Empty) == {};
    assert Empty.ancestors + [Range(0, 8)] == [Range(0, 8)];
  }

  lemma CyclicNodesRejected()
    ensures Validate(CYCLIC_NODES, Node, 0) == Fail(Nested(Nested(CyclicClaim)))
  {
    CycleRootClaim();
    CycleFirstNode();
    RunFromRoot(CYCLIC_NODES, Node, 0, Grant(Range(0, 8), Tracker([Range(0, 8)], {})));
  }
}
