/**
 * The derive tests of rkyv_test/src/validation.rs: a value laid out the way
 * the writer lays it out, at the front of the writer's zero-initialised
 * 256-byte buffer, validates at the position the writer returns. The byte
 * layouts are written out by hand: children first, each string's bytes
 * before the fields that refer to them, the root last.
 */
module DeriveVectors {
  import opened Errors
  import opened Layout
  import opened Primitives
  import opened ClaimsTracker
  import opened Shapes
  import opened Rules
  import opened Vectors

  /**
   * Test { a: 42, b: "hello world", c: Box::new(vec!["yes", "no"]) } (and the
   * tuple struct with the same fields): the string bytes at 0..16, the two
   * archived strings of the vector at 16 and 24, the archived vector at 32,
   * the root at 40.
   */
  const STRUCT_BYTES: seq<byte> := [
    0x68, 0x65, 0x6c, 0x6c, 0x6f, 0x20, 0x77, 0x6f, 0x72, 0x6c, 0x64,  // "hello world"
    0x79, 0x65, 0x73,                                                  // "yes"
    0x6e, 0x6f,                                                        // "no"
    251, 255, 255, 255, 3, 0, 0, 0,                                    // 16: "yes", 5 bytes back
    246, 255, 255, 255, 2, 0, 0, 0,                                    // 24: "no", 10 bytes back
    240, 255, 255, 255, 2, 0, 0, 0,                                    // 32: the vector, 16 bytes back
    42, 0, 0, 0,                                                       // 40: a
    212, 255, 255, 255, 11, 0, 0, 0,                                   // 44: b, 44 bytes back
    236, 255, 255, 255]                                                // 52: c, the box, 20 bytes back
  const STRUCT_BUF: seq<byte> := Padded(STRUCT_BYTES)

  const STRUCT_ROOT: Range := Range(40, 56)
  const STRUCT_B: Range := Range(0, 11)
  const STRUCT_BOX: Range := Range(32, 40)
  const STRUCT_VEC: Range := Range(16, 32)
  const STRUCT_YES: Range := Range(11, 14)
  const STRUCT_NO: Range := Range(14, 16)

  lemma StructYesRef()
    ensures LoadI32(STRUCT_BUF, 16) == -5 && LoadU32(STRUCT_BUF, 20) == 3
  {
    PaddedWord(STRUCT_BYTES, 16, 251, 255, 255, 255);
    PaddedWord(STRUCT_BYTES, 20, 3, 0, 0, 0);
  }

  lemma StructNoRef()
    ensures LoadI32(STRUCT_BUF, 24) == -10 && LoadU32(STRUCT_BUF, 28) == 2
  {
    PaddedWord(STRUCT_BYTES, 24, 246, 255, 255, 255);
    PaddedWord(STRUCT_BYTES, 28, 2, 0, 0, 0);
  }

  lemma StructVecRef()
    ensures LoadI32(STRUCT_BUF, 32) == -16 && LoadU32(STRUCT_BUF, 36) == 2
  {
    PaddedWord(STRUCT_BYTES, 32, 240, 255, 255, 255);
    PaddedWord(STRUCT_BYTES, 36, 2, 0, 0, 0);
  }

  lemma StructStringRef()
    ensures LoadI32(STRUCT_BUF, 44) == -44 && LoadU32(STRUCT_BUF, 48) == 11
  {
    PaddedWord(STRUCT_BYTES, 44, 212, 255, 255, 255);
    PaddedWord(STRUCT_BYTES, 48, 11, 0, 0, 0);
  }

  lemma StructBoxRef()
    ensures LoadI32(STRUCT_BUF, 52) == -20
  {
    PaddedWord(STRUCT_BYTES, 52, 236, 255, 255, 255);
  }

  /** The claim state inside the struct's vector range, with the given committed ranges. */
  function InStructVec(committed: set<Range>): Tracker {
    Tracker([STRUCT_ROOT, STRUCT_BOX, STRUCT_VEC], committed)
  }

  lemma StructSecondElement()
    ensures CheckString(STRUCT_BUF, 24, InStructVec({STRUCT_B, STRUCT_YES}))
      == Step(Pass, InStructVec({STRUCT_B, STRUCT_YES, STRUCT_NO}))
  {
    var t := InStructVec({STRUCT_B, STRUCT_YES});
    StructNoRef();
    assert AllClaims(t) == {STRUCT_ROOT, STRUCT_BOX, STRUCT_VEC, STRUCT_B, STRUCT_YES};
  }

  lemma StructFirstElement()
    ensures CheckString(STRUCT_BUF, 16, InStructVec({STRUCT_B}))
      == Step(Pass, InStructVec({STRUCT_B, STRUCT_YES}))
  {
    var t := InStructVec({STRUCT_B});
    StructYesRef();
    assert AllClaims(t) == {STRUCT_ROOT, STRUCT_BOX, STRUCT_VEC, STRUCT_B};
  }

  lemma StructElements()
    ensures CheckElements(STRUCT_BUF, Str, 16, 2, InStructVec({STRUCT_B}))
      == Step(Pass, InStructVec({STRUCT_B, STRUCT_YES, STRUCT_NO}))
  {
    assert |STRUCT_BUF| == 256;
    StructFirstElement();
    StructSecondElement();
    assert CheckElements(STRUCT_BUF, Str, 24, 1, InStructVec({STRUCT_B, STRUCT_YES}))
      == Step(Pass, InStructVec({STRUCT_B, STRUCT_YES, STRUCT_NO}));
  }

  lemma StructVecClaim()
    ensures TryClaim(256, 32, -16, 16, 4, Tracker([STRUCT_ROOT, STRUCT_BOX], {STRUCT_B}))
      == Ok(Grant(STRUCT_VEC, InStructVec({STRUCT_B})))
  {
    var t := Tracker([STRUCT_ROOT, STRUCT_BOX], {STRUCT_B});
    assert AllClaims(t) == {STRUCT_ROOT, STRUCT_BOX, STRUCT_B};
    assert t.ancestors + [STRUCT_VEC] == InStructVec({STRUCT_B}).ancestors;
  }

  lemma StructVector()
    ensures CheckVec(STRUCT_BUF, Str, 32, Tracker([STRUCT_ROOT, STRUCT_BOX], {STRUCT_B}))
      == Step(Pass, Tracker([STRUCT_ROOT, STRUCT_BOX], {STRUCT_B, STRUCT_YES, STRUCT_NO, STRUCT_VEC}))
  {
    var t := Tracker([STRUCT_ROOT, STRUCT_BOX], {STRUCT_B});
    StructVecRef();
    StructVecClaim();
    StructElements();
    var done := InStructVec({STRUCT_B, STRUCT_YES, STRUCT_NO});
    assert done.ancestors[..2] == t.ancestors;
    assert Exited(done) == Tracker(t.ancestors, {STRUCT_B, STRUCT_YES, STRUCT_NO, STRUCT_VEC});
    assert CheckVec(STRUCT_BUF, Str, 32, t) == Step(Pass, Exited(done));
  }

  lemma StructBox()
    ensures CheckBox(STRUCT_BUF, VecOf(Str), 52, Tracker([STRUCT_ROOT], {STRUCT_B}))
      == Step(Pass, Tracker([STRUCT_ROOT], {STRUCT_B, STRUCT_YES, STRUCT_NO, STRUCT_VEC, STRUCT_BOX}))
  {
    var t := Tracker([STRUCT_ROOT], {STRUCT_B});
    StructBoxRef();
    assert AllClaims(t) == {STRUCT_ROOT, STRUCT_B};
    assert t.ancestors + [STRUCT_BOX] == [STRUCT_ROOT, STRUCT_BOX];
    StructVector();
    var done := Tracker([STRUCT_ROOT, STRUCT_BOX], {STRUCT_B, STRUCT_YES, STRUCT_NO, STRUCT_VEC});
    BoxedVecPasses(STRUCT_BUF, Str, 52, t, STRUCT_BOX, done);
    assert done.ancestors[..1] == t.ancestors;
    assert Exited(done) == Tracker(t.ancestors, {STRUCT_B, STRUCT_YES, STRUCT_NO, STRUCT_VEC, STRUCT_BOX});
  }

  lemma StructString()
    ensures CheckString(STRUCT_BUF, 44, Tracker([STRUCT_ROOT], {}))
      == Step(Pass, Tracker([STRUCT_ROOT], {STRUCT_B}))
  {
    var t := Tracker([STRUCT_ROOT], {});
    StructStringRef();
    assert AllClaims(t) == {STRUCT_ROOT};
  }

  lemma StructFields()
    ensures Check(STRUCT_BUF, TEST_STRUCT, 40, Tracker([STRUCT_ROOT], {})).outcome == Pass
  {
    var t := Tracker([STRUCT_ROOT], {});
    assert |STRUCT_BUF| == 256 && WellFormed(TEST_STRUCT);
    StructString();
    StructBox();
    assert CheckFields(STRUCT_BUF, TEST_STRUCT, 2, 40, Tracker([STRUCT_ROOT], {STRUCT_B})).outcome == Pass;
    assert CheckFields(STRUCT_BUF, TEST_STRUCT, 1, 40, t).outcome == Pass;
  }

  lemma StructRoot()
    ensures TryClaim(256, 0, 40, 16, 4, Empty) == Ok(Grant(STRUCT_ROOT, Tracker([STRUCT_ROOT], {})))
  {
    assert AllClaims(Empty) == {};
    assert Empty.ancestors + [STRUCT_ROOT] == [STRUCT_ROOT];
  }

  /** The derived struct and tuple struct validate at the position of their root. */
  lemma StructValidates()
    ensures Validate(STRUCT_BUF, TEST_STRUCT, 40) == Pass
  {
    assert |STRUCT_BUF| == 256 && WellFormed(TEST_STRUCT);
    StructRoot();
    StructFields();
    RunFromRoot(STRUCT_BUF, TEST_STRUCT, 40, Grant(STRUCT_ROOT, Tracker([STRUCT_ROOT], {})));
  }

  /** Test::A(42): the tag 0, padding, then the u32 payload. */
  const ENUM_A_BYTES: seq<byte> := [0, 0, 0, 0, 42, 0, 0, 0, 0, 0, 0, 0]
  const ENUM_A_BUF: seq<byte> := Padded(ENUM_A_BYTES)

  lemma EnumARoot()
    ensures TryClaim(256, 0, 0, 12, 4, Empty) == Ok(Grant(Range(0, 12), Tracker([Range(0, 12)], {})))
  {
    assert AllClaims(Empty) == {};
    assert Empty.ancestors + [Range(0, 12)] == [Range(0, 12)];
  }

  lemma EnumAVariant()
    ensures Check(ENUM_A_BUF, TEST_ENUM, 0, Tracker([Range(0, 12)], {})).outcome == Pass
  {
    assert |ENUM_A_BUF| == 256 && WellFormed(TEST_ENUM);
    PaddedByte(ENUM_A_BYTES, 0);
    VariantChosen(ENUM_A_BUF, TEST_ENUM, 0, Tracker([Range(0, 12)], {}));
  }

  /** The derived enum's first variant validates at the position of its root. */
  lemma EnumAValidates()
    ensures Validate(ENUM_A_BUF, TEST_ENUM, 0) == Pass
  {
    var t := Tracker([Range(0, 12)], {});
    assert |ENUM_A_BUF| == 256 && WellFormed(TEST_ENUM);
    EnumARoot();
    EnumAVariant();
    RunFromRoot(ENUM_A_BUF, TEST_ENUM, 0, Grant(Range(0, 12), t));
  }

  /** Test::B("hello world"): the string bytes, then at 12 the tag 1, padding and the string 16 bytes back. */
  const ENUM_B_BYTES: seq<byte> := [
    0x68, 0x65, 0x6c, 0x6c, 0x6f, 0x20, 0x77, 0x6f, 0x72, 0x6c, 0x64, 0,
    1, 0, 0, 0, 240, 255, 255, 255, 11, 0, 0, 0]
  const ENUM_B_BUF: seq<byte> := Padded(ENUM_B_BYTES)

  lemma EnumBStringRef()
    ensures LoadI32(ENUM_B_BUF, 16) == -16 && LoadU32(ENUM_B_BUF, 20) == 11
  {
    PaddedWord(ENUM_B_BYTES, 16, 240, 255, 255, 255);
    PaddedWord(ENUM_B_BYTES, 20, 11, 0, 0, 0);
  }

  lemma EnumBString()
    ensures CheckString(ENUM_B_BUF, 16, Tracker([Range(12, 24)], {}))
      == Step(Pass, Tracker([Range(12, 24)], {Range(0, 11)}))
  {
    var t := Tracker([Range(12, 24)], {});
    EnumBStringRef();
    assert AllClaims(t) == {Range(12, 24)};
  }

  lemma EnumBRoot()
    ensures TryClaim(256, 0, 12, 12, 4, Empty) == Ok(Grant(Range(12, 24), Tracker([Range(12, 24)], {})))
  {
    assert AllClaims(Empty) == {};
    assert Empty.ancestors + [Range(12, 24)] == [Range(12, 24)];
  }

  lemma EnumBFields()
    ensures CheckFields(ENUM_B_BUF, VARIANT_B, 0, 12, Tracker([Range(12, 24)], {})).outcome == Pass
  {
    assert |ENUM_B_BUF| == 256 && WellFormed(VARIANT_B);
    EnumBString();
  }

  lemma EnumBVariant()
    ensures Check(ENUM_B_BUF, TEST_ENUM, 12, Tracker([Range(12, 24)], {})).outcome == Pass
  {
    assert |ENUM_B_BUF| == 256 && WellFormed(TEST_ENUM);
    PaddedByte(ENUM_B_BYTES, 12);
    VariantChosen(ENUM_B_BUF, TEST_ENUM, 12, Tracker([Range(12, 24)], {}));
    EnumBFields();
  }

  /** The derived enum's second variant validates at the position of its root. */
  lemma EnumBValidates()
    ensures Validate(ENUM_B_BUF, TEST_ENUM, 12) == Pass
  {
    var t := Tracker([Range(12, 24)], {});
    assert |ENUM_B_BUF| == 256 && WellFormed(TEST_ENUM);
    EnumBRoot();
    EnumBVariant();
    RunFromRoot(ENUM_B_BUF, TEST_ENUM, 12, Grant(Range(12, 24), t));
  }

  /** Some("Hello world") as the writer archives it: the string bytes, then the option at 12. */
  const OPTION_BYTES: seq<byte> := [
    0x48, 0x65, 0x6c, 0x6c, 0x6f, 0x20, 0x77, 0x6f, 0x72, 0x6c, 0x64, 0,
    1, 0, 0, 0, 240, 255, 255, 255, 11, 0, 0, 0]
  const OPTION_BUF: seq<byte> := Padded(OPTION_BYTES)

  lemma OptionStringRef()
    ensures LoadI32(OPTION_BUF, 16) == -16 && LoadU32(OPTION_BUF, 20) == 11
  {
    PaddedWord(OPTION_BYTES, 16, 240, 255, 255, 255);
    PaddedWord(OPTION_BYTES, 20, 11, 0, 0, 0);
  }

  lemma OptionString()
    ensures CheckString(OPTION_BUF, 16, Tracker([Range(12, 24)], {}))
      == Step(Pass, Tracker([Range(12, 24)], {Range(0, 11)}))
  {
    var t := Tracker([Range(12, 24)], {});
    OptionStringRef();
    assert AllClaims(t) == {Range(12, 24)};
  }

  lemma OptionPayload()
    ensures Check(OPTION_BUF, OPTION_STRING, 12, Tracker([Range(12, 24)], {})).outcome == Pass
  {
    assert |OPTION_BUF| == 256 && WellFormed(OPTION_STRING);
    PaddedByte(OPTION_BYTES, 12);
    OptionString();
  }

  /** The regularly archived Option<String> validates at the position the writer returns. */
  lemma ArchivedOptionValidates()
    ensures Validate(OPTION_BUF, OPTION_STRING, 12) == Pass
  {
    var t := Tracker([Range(12, 24)], {});
    assert |OPTION_BUF| == 256 && WellFormed(OPTION_STRING) && Size(OPTION_STRING) == 12;
    EnumBRoot();
    OptionPayload();
    RunFromRoot(OPTION_BUF, OPTION_STRING, 12, Grant(Range(12, 24), t));
  }

  /**
   * Test::C(Box::new(vec!["yes", "no"])): the string bytes at 0..5, the two
   * archived strings at 8 and 16, the archived vector at 24, the root at 32.
   */
  const ENUM_C_BYTES: seq<byte> := [
    0x79, 0x65, 0x73, 0x6e, 0x6f, 0, 0, 0,                             // "yes", "no"
    248, 255, 255, 255, 3, 0, 0, 0,                                    // 8: "yes", 8 bytes back
    243, 255, 255, 255, 2, 0, 0, 0,                                    // 16: "no", 13 bytes back
    240, 255, 255, 255, 2, 0, 0, 0,                                    // 24: the vector, 16 bytes back
    2, 0, 0, 0, 244, 255, 255, 255, 0, 0, 0, 0]                        // 32: tag 2, the box 12 bytes back
  const ENUM_C_BUF: seq<byte> := Padded(ENUM_C_BYTES)

  const ENUM_C_ROOT: Range := Range(32, 44)
  const ENUM_C_BOX: Range := Range(24, 32)
  const ENUM_C_VEC: Range := Range(8, 24)
  const ENUM_C_YES: Range := Range(0, 3)
  const ENUM_C_NO: Range := Range(3, 5)

  lemma EnumCYesRef()
    ensures LoadI32(ENUM_C_BUF, 8) == -8 && LoadU32(ENUM_C_BUF, 12) == 3
  {
    PaddedWord(ENUM_C_BYTES, 8, 248, 255, 255, 255);
    PaddedWord(ENUM_C_BYTES, 12, 3, 0, 0, 0);
  }

  lemma EnumCNoRef()
    ensures LoadI32(ENUM_C_BUF, 16) == -13 && LoadU32(ENUM_C_BUF, 20) == 2
  {
    PaddedWord(ENUM_C_BYTES, 16, 243, 255, 255, 255);
    PaddedWord(ENUM_C_BYTES, 20, 2, 0, 0, 0);
  }

  lemma EnumCVecRef()
    ensures LoadI32(ENUM_C_BUF, 24) == -16 && LoadU32(ENUM_C_BUF, 28) == 2
  {
    PaddedWord(ENUM_C_BYTES, 24, 240, 255, 255, 255);
    PaddedWord(ENUM_C_BYTES, 28, 2, 0, 0, 0);
  }

  lemma EnumCBoxRef()
    ensures LoadI32(ENUM_C_BUF, 36) == -12
  {
    PaddedWord(ENUM_C_BYTES, 36, 244, 255, 255, 255);
  }

  /** The claim state inside the enum's vector range, with the given committed ranges. */
  function InEnumCVec(committed: set<Range>): Tracker {
    Tracker([ENUM_C_ROOT, ENUM_C_BOX, ENUM_C_VEC], committed)
  }

  lemma EnumCSecondElement()
    ensures CheckString(ENUM_C_BUF, 16, InEnumCVec({ENUM_C_YES})) == Step(Pass, InEnumCVec({ENUM_C_YES, ENUM_C_NO}))
  {
    var t := InEnumCVec({ENUM_C_YES});
    EnumCNoRef();
    assert AllClaims(t) == {ENUM_C_ROOT, ENUM_C_BOX, ENUM_C_VEC, ENUM_C_YES};
  }

  lemma EnumCFirstElement()
    ensures CheckString(ENUM_C_BUF, 8, InEnumCVec({})) == Step(Pass, InEnumCVec({ENUM_C_YES}))
  {
    var t := InEnumCVec({});
    EnumCYesRef();
    assert AllClaims(t) == {ENUM_C_ROOT, ENUM_C_BOX, ENUM_C_VEC};
  }

  lemma EnumCElements()
    ensures CheckElements(ENUM_C_BUF, Str, 8, 2, InEnumCVec({})) == Step(Pass, InEnumCVec({ENUM_C_YES, ENUM_C_NO}))
  {
    assert |ENUM_C_BUF| == 256;
    EnumCFirstElement();
    EnumCSecondElement();
    assert CheckElements(ENUM_C_BUF, Str, 16, 1, InEnumCVec({ENUM_C_YES}))
      == Step(Pass, InEnumCVec({ENUM_C_YES, ENUM_C_NO}));
  }

  lemma EnumCVecClaim()
    ensures TryClaim(256, 24, -16, 16, 4, Tracker([ENUM_C_ROOT, ENUM_C_BOX], {}))
      == Ok(Grant(ENUM_C_VEC, InEnumCVec({})))
  {
    var t := Tracker([ENUM_C_ROOT, ENUM_C_BOX], {});
    assert AllClaims(t) == {ENUM_C_ROOT, ENUM_C_BOX};
    assert t.ancestors + [ENUM_C_VEC] == InEnumCVec({}).ancestors;
  }

  lemma EnumCVector()
    ensures CheckVec(ENUM_C_BUF, Str, 24, Tracker([ENUM_C_ROOT, ENUM_C_BOX], {}))
      == Step(Pass, Tracker([ENUM_C_ROOT, ENUM_C_BOX], {ENUM_C_YES, ENUM_C_NO, ENUM_C_VEC}))
  {
    var t := Tracker([ENUM_C_ROOT, ENUM_C_BOX], {});
    EnumCVecRef();
    EnumCVecClaim();
    EnumCElements();
    var done := InEnumCVec({ENUM_C_YES, ENUM_C_NO});
    assert done.ancestors[..2] == t.ancestors;
    assert Exited(done) == Tracker(t.ancestors, {ENUM_C_YES, ENUM_C_NO, ENUM_C_VEC});
    assert CheckVec(ENUM_C_BUF, Str, 24, t) == Step(Pass, Exited(done));
  }

  lemma EnumCBox()
    ensures CheckBox(ENUM_C_BUF, VecOf(Str), 36, Tracker([ENUM_C_ROOT], {}))
      == Step(Pass, Tracker([ENUM_C_ROOT], {ENUM_C_YES, ENUM_C_NO, ENUM_C_VEC, ENUM_C_BOX}))
  {
    var t := Tracker([ENUM_C_ROOT], {});
    EnumCBoxRef();
    assert AllClaims(t) == {ENUM_C_ROOT};
    assert t.ancestors + [ENUM_C_BOX] == [ENUM_C_ROOT, ENUM_C_BOX];
    EnumCVector();
    var done := Tracker([ENUM_C_ROOT, ENUM_C_BOX], {ENUM_C_YES, ENUM_C_NO, ENUM_C_VEC});
    BoxedVecPasses(ENUM_C_BUF, Str, 36, t, ENUM_C_BOX, done);
    assert done.ancestors[..1] == t.ancestors;
    assert Exited(done) == Tracker(t.ancestors, {ENUM_C_YES, ENUM_C_NO, ENUM_C_VEC, ENUM_C_BOX});
  }

  lemma EnumCRoot()
    ensures TryClaim(256, 0, 32, 12, 4, Empty) == Ok(Grant(ENUM_C_ROOT, Tracker([ENUM_C_ROOT], {})))
  {
    assert AllClaims(Empty) == {};
    assert Empty.ancestors + [ENUM_C_ROOT] == [ENUM_C_ROOT];
  }

  lemma EnumCFields()
    ensures CheckFields(ENUM_C_BUF, VARIANT_C, 0, 32, Tracker([ENUM_C_ROOT], {})).outcome == Pass
  {
    assert |ENUM_C_BUF| == 256 && WellFormed(VARIANT_C);
    EnumCBox();
    assert Check(ENUM_C_BUF, BoxOf(VecOf(Str)), 36, Tracker([ENUM_C_ROOT], {})).outcome == Pass;
  }

  lemma EnumCVariant()
    ensures Check(ENUM_C_BUF, TEST_ENUM, 32, Tracker([ENUM_C_ROOT], {})).outcome == Pass
  {
    assert |ENUM_C_BUF| == 256 && WellFormed(TEST_ENUM);
    PaddedByte(ENUM_C_BYTES, 32);
    VariantChosen(ENUM_C_BUF, TEST_ENUM, 32, Tracker([ENUM_C_ROOT], {}));
    EnumCFields();
  }

  /** The derived enum's third variant validates at the position of its root. */
  lemma EnumCValidates()
    ensures Validate(ENUM_C_BUF, TEST_ENUM, 32) == Pass
  {
    var t := Tracker([ENUM_C_ROOT], {});
    assert |ENUM_C_BUF| == 256 && WellFormed(TEST_ENUM);
    EnumCRoot();
    EnumCVariant();
    RunFromRoot(ENUM_C_BUF, TEST_ENUM, 32, Grant(ENUM_C_ROOT, t));
  }
}
