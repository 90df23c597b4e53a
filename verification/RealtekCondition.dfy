/** The condition check of crates/radio-core/src/realtek_table.rs: whether a table section written for
    some chip cut, package, interface and board applies to the adapter at hand. */
module RealtekCondition {
  import Words

  datatype ConditionEnv = ConditionEnv(
    cutVersion: bv8, packageType: bv8, supportInterface: bv8, supportPlatform: bv8, boardType: bv8,
    typeGlna: bv16, typeGpa: bv16, typeAlna: bv16, typeApa: bv16)

  /** The board-type byte with its bits rearranged as the condition words expect them. */
  function BoardBits(board: bv8): bv8 {
    ((board & 0x10) >> 4)
    | (((board & 0x08) >> 3) << 1)
    | (((board & 0x80) >> 7) << 2)
    | (((board & 0x40) >> 6) << 3)
    | (((board & 0x04) >> 2) << 4)
    | (((board & 0x02) >> 1) << 5)
    | (((board & 0x20) >> 5) << 6)
  }

  function OrAny(field: bv8): bv8 {
    if field == 0 then 15 else field
  }

  function Driver1(env: ConditionEnv): bv32 {
    (OrAny(env.cutVersion) as bv32 << 24)
    | ((env.supportInterface & 0xf0) as bv32 << 16)
    | (env.supportPlatform as bv32 << 16)
    | (OrAny(env.packageType) as bv32 << 12)
    | ((env.supportInterface & 0x0f) as bv32 << 8)
    | (BoardBits(env.boardType) as bv32)
  }

  function Driver2(env: ConditionEnv): bv32 {
    ((env.typeGlna & 0x00ff) as bv32)
    | ((env.typeGpa & 0x00ff) as bv32 << 8)
    | ((env.typeAlna & 0x00ff) as bv32 << 16)
    | ((env.typeApa & 0x00ff) as bv32 << 24)
  }

  function Driver4(env: ConditionEnv): bv32 {
    (((env.typeGlna & 0xff00) >> 8) as bv32)
    | ((env.typeGpa & 0xff00) as bv32)
    | ((env.typeAlna & 0xff00) as bv32 << 8)
    | ((env.typeApa & 0xff00) as bv32 << 16)
  }

  function ByteMask(cond1: bv32): bv32 {
    (if cond1 & 1 != 0 then 0x0000_00ff else 0)
    | (if cond1 & 2 != 0 then 0x0000_ff00 else 0)
    | (if cond1 & 4 != 0 then 0x00ff_0000 else 0)
    | (if cond1 & 8 != 0 then 0xff00_0000 else 0)
  }

  /** A zero nibble in the condition matches anything. */
  predicate NibbleOk(cond: bv32, driver: bv32, mask: bv32) {
    cond & mask == 0 || cond & mask == driver & mask
  }

  predicate AmplifiersOk(cond: bv32, c2: bv32, c4: bv32, d2: bv32, d4: bv32) {
    cond & 0x0f == 0 || (c2 & ByteMask(cond) == d2 & ByteMask(cond) && c4 & ByteMask(cond) == d4 & ByteMask(cond))
  }

  /** The check on the condition words `c1`, `c2`, `c4` and the adapter's words `d1`, `d2`, `d4`. */
  predicate Check(c1: bv32, c2: bv32, c4: bv32, d1: bv32, d2: bv32, d4: bv32) {
    && NibbleOk(c1, d1, 0xf000)
    && NibbleOk(c1, d1, 0x0f00_0000)
    && (c1 & 0x00ff_0fff) & (d1 & 0x00ff_0fff) == c1 & 0x00ff_0fff
    && AmplifiersOk(c1 & 0x00ff_0fff, c2, c4, d2, d4)
  }

  predicate CheckPositive(env: ConditionEnv, c1: bv32, c2: bv32, c3: bv32, c4: bv32) {
    Check(c1, c2, c4, Driver1(env), Driver2(env), Driver4(env))
  }

  // ---------------------------------------------------------------- field by field

  function Byte(w: bv32, i: nat): bv8
    requires i < 4
  {
    if i == 0 then Words.Byte0(w)
    else if i == 1 then Words.Byte1(w)
    else if i == 2 then Words.Byte2(w)
    else Words.Byte3(w)
  }

  function Nibble(w: bv32, at: nat): bv32
    requires at < 32
  {
    (w >> at) & 0xf
  }

  predicate BitsIn(part: bv8, whole: bv8) {
    part & whole == part
  }

  predicate SameByte(flags: bv32, flag: bv32, c2: bv32, c4: bv32, d2: bv32, d4: bv32, i: nat)
    requires i < 4
  {
    flags & flag != 0 ==> Byte(c2, i) == Byte(d2, i) && Byte(c4, i) == Byte(d4, i)
  }

  /** What the check means: a zero package or cut nibble asks for nothing, every interface, platform
      and board bit asked for is there, and each amplifier byte flagged in the low nibble agrees. */
  predicate FieldsAgree(c1: bv32, c2: bv32, c4: bv32, d1: bv32, d2: bv32, d4: bv32) {
    && (Nibble(c1, 12) == 0 || Nibble(c1, 12) == Nibble(d1, 12))
    && (Nibble(c1, 24) == 0 || Nibble(c1, 24) == Nibble(d1, 24))
    && Nibble(c1, 8) & Nibble(d1, 8) == Nibble(c1, 8)
    && BitsIn(Byte(c1, 0), Byte(d1, 0))
    && BitsIn(Byte(c1, 2), Byte(d1, 2))
    && SameByte(c1, 1, c2, c4, d2, d4, 0)
    && SameByte(c1, 2, c2, c4, d2, d4, 1)
    && SameByte(c1, 4, c2, c4, d2, d4, 2)
    && SameByte(c1, 8, c2, c4, d2, d4, 3)
  }

  lemma NibblesDown(c: bv32, d: bv32)
    requires NibbleOk(c, d, 0xf000) && NibbleOk(c, d, 0x0f00_0000)
    ensures Nibble(c, 12) == 0 || Nibble(c, 12) == Nibble(d, 12)
    ensures Nibble(c, 24) == 0 || Nibble(c, 24) == Nibble(d, 24)
  {
  }

  lemma NibblesUp(c: bv32, d: bv32)
    requires Nibble(c, 12) == 0 || Nibble(c, 12) == Nibble(d, 12)
    requires Nibble(c, 24) == 0 || Nibble(c, 24) == Nibble(d, 24)
    ensures NibbleOk(c, d, 0xf000) && NibbleOk(c, d, 0x0f00_0000)
  {
  }

  lemma InterfaceDown(c: bv32, d: bv32)
    requires (c & 0x00ff_0fff) & (d & 0x00ff_0fff) == c & 0x00ff_0fff
    ensures Nibble(c, 8) & Nibble(d, 8) == Nibble(c, 8)
  {
  }

  lemma BoardDown(c: bv32, d: bv32)
    requires (c & 0x00ff_0fff) & (d & 0x00ff_0fff) == c & 0x00ff_0fff
    ensures BitsIn(Byte(c, 0), Byte(d, 0))
  {
  }

  lemma PlatformDown(c: bv32, d: bv32)
    requires (c & 0x00ff_0fff) & (d & 0x00ff_0fff) == c & 0x00ff_0fff
    ensures BitsIn(Byte(c, 2), Byte(d, 2))
  {
  }

  lemma PresentDown(c: bv32, d: bv32)
    requires (c & 0x00ff_0fff) & (d & 0x00ff_0fff) == c & 0x00ff_0fff
    ensures Nibble(c, 8) & Nibble(d, 8) == Nibble(c, 8)
    ensures BitsIn(Byte(c, 0), Byte(d, 0))
    ensures BitsIn(Byte(c, 2), Byte(d, 2))
  {
    InterfaceDown(c, d);
    BoardDown(c, d);
    PlatformDown(c, d);
  }

  lemma PresentUp(c: bv32, d: bv32)
    requires Nibble(c, 8) & Nibble(d, 8) == Nibble(c, 8)
    requires BitsIn(Byte(c, 0), Byte(d, 0))
    requires BitsIn(Byte(c, 2), Byte(d, 2))
    ensures (c & 0x00ff_0fff) & (d & 0x00ff_0fff) == c & 0x00ff_0fff
  {
  }

  lemma MaskDown(flags: bv32, v: bv32, w: bv32)
    requires v & ByteMask(flags) == w & ByteMask(flags)
    ensures flags & 1 != 0 ==> Byte(v, 0) == Byte(w, 0)
    ensures flags & 2 != 0 ==> Byte(v, 1) == Byte(w, 1)
    ensures flags & 4 != 0 ==> Byte(v, 2) == Byte(w, 2)
    ensures flags & 8 != 0 ==> Byte(v, 3) == Byte(w, 3)
  {
  }

  lemma MaskUp(flags: bv32, v: bv32, w: bv32)
    requires flags & 1 != 0 ==> Byte(v, 0) == Byte(w, 0)
    requires flags & 2 != 0 ==> Byte(v, 1) == Byte(w, 1)
    requires flags & 4 != 0 ==> Byte(v, 2) == Byte(w, 2)
    requires flags & 8 != 0 ==> Byte(v, 3) == Byte(w, 3)
    ensures v & ByteMask(flags) == w & ByteMask(flags)
  {
  }

  lemma SameFlags(c: bv32)
    ensures (c & 0x00ff_0fff) & 1 == c & 1
    ensures (c & 0x00ff_0fff) & 2 == c & 2
    ensures (c & 0x00ff_0fff) & 4 == c & 4
    ensures (c & 0x00ff_0fff) & 8 == c & 8
    ensures (c & 0x00ff_0fff) & 0x0f == 0 ==> c & 1 == c & 2 == c & 4 == c & 8 == 0
  {
  }

  lemma AmplifiersDown(c: bv32, c2: bv32, c4: bv32, d2: bv32, d4: bv32)
    requires AmplifiersOk(c & 0x00ff_0fff, c2, c4, d2, d4)
    ensures SameByte(c, 1, c2, c4, d2, d4, 0) && SameByte(c, 2, c2, c4, d2, d4, 1)
    ensures SameByte(c, 4, c2, c4, d2, d4, 2) && SameByte(c, 8, c2, c4, d2, d4, 3)
  {
    var flags := c & 0x00ff_0fff;
    SameFlags(c);
    if flags & 0x0f != 0 {
      MaskDown(flags, c2, d2);
      MaskDown(flags, c4, d4);
    }
  }

  lemma AmplifiersUp(c: bv32, c2: bv32, c4: bv32, d2: bv32, d4: bv32)
    requires SameByte(c, 1, c2, c4, d2, d4, 0) && SameByte(c, 2, c2, c4, d2, d4, 1)
    requires SameByte(c, 4, c2, c4, d2, d4, 2) && SameByte(c, 8, c2, c4, d2, d4, 3)
    ensures AmplifiersOk(c & 0x00ff_0fff, c2, c4, d2, d4)
  {
    SameFlags(c);
    MaskUp(c & 0x00ff_0fff, c2, d2);
    MaskUp(c & 0x00ff_0fff, c4, d4);
  }

  lemma CheckDown(c1: bv32, c2: bv32, c4: bv32, d1: bv32, d2: bv32, d4: bv32)
    requires Check(c1, c2, c4, d1, d2, d4)
    ensures FieldsAgree(c1, c2, c4, d1, d2, d4)
  {
    NibblesDown(c1, d1);
    PresentDown(c1, d1);
    AmplifiersDown(c1, c2, c4, d2, d4);
  }

  lemma CheckUp(c1: bv32, c2: bv32, c4: bv32, d1: bv32, d2: bv32, d4: bv32)
    requires FieldsAgree(c1, c2, c4, d1, d2, d4)
    ensures Check(c1, c2, c4, d1, d2, d4)
  {
    NibblesUp(c1, d1);
    PresentUp(c1, d1);
    AmplifiersUp(c1, c2, c4, d2, d4);
  }

  /** The masked comparison of whole words says exactly that the fields agree. */
  lemma CheckMeansFieldsAgree(env: ConditionEnv, c1: bv32, c2: bv32, c3: bv32, c4: bv32)
    ensures CheckPositive(env, c1, c2, c3, c4) <==>
            FieldsAgree(c1, c2, c4, Driver1(env), Driver2(env), Driver4(env))
  {
    if CheckPositive(env, c1, c2, c3, c4) {
      CheckDown(c1, c2, c4, Driver1(env), Driver2(env), Driver4(env));
    } else if FieldsAgree(c1, c2, c4, Driver1(env), Driver2(env), Driver4(env)) {
      CheckUp(c1, c2, c4, Driver1(env), Driver2(env), Driver4(env));
    }
  }

  /** Where each property of the adapter ends up in its words. A package type above 15 spills into
      the platform byte, as the shift in the source lets it. */
  lemma DriverFields(env: ConditionEnv)
    ensures Nibble(Driver1(env), 12) == (OrAny(env.packageType) & 0xf) as bv32
    ensures Nibble(Driver1(env), 24) == (OrAny(env.cutVersion) & 0xf) as bv32
    ensures Nibble(Driver1(env), 8) == (env.supportInterface & 0x0f) as bv32
    ensures Byte(Driver1(env), 0) == BoardBits(env.boardType)
    ensures Byte(Driver1(env), 2)
            == (env.supportInterface & 0xf0) | env.supportPlatform | (OrAny(env.packageType) >> 4)
    ensures Byte(Driver2(env), 0) == (env.typeGlna & 0xff) as bv8 && Byte(Driver4(env), 0) == (env.typeGlna >> 8) as bv8
    ensures Byte(Driver2(env), 1) == (env.typeGpa & 0xff) as bv8 && Byte(Driver4(env), 1) == (env.typeGpa >> 8) as bv8
    ensures Byte(Driver2(env), 2) == (env.typeAlna & 0xff) as bv8 && Byte(Driver4(env), 2) == (env.typeAlna >> 8) as bv8
    ensures Byte(Driver2(env), 3) == (env.typeApa & 0xff) as bv8 && Byte(Driver4(env), 3) == (env.typeApa >> 8) as bv8
  {
  }
}
