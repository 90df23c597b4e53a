/** Facts about shifts and masks of machine words. */
module Words {
  function Pack(l: bv32, p: bv8): bv32 {
    (l << 8) | (p as bv32)
  }

  function Byte3(w: bv32): bv8 { ((w >> 24) & 0xff) as bv8 }
  function Byte2(w: bv32): bv8 { ((w >> 16) & 0xff) as bv8 }
  function Byte1(w: bv32): bv8 { ((w >> 8) & 0xff) as bv8 }
  function Byte0(w: bv32): bv8 { (w & 0xff) as bv8 }

  /** The bytes of a word, most significant first. */
  function BigEndian(w: bv32): (b: seq<bv8>)
    ensures |b| == 4
  {
    [Byte3(w), Byte2(w), Byte1(w), Byte0(w)]
  }

  function Join(a: bv8, b: bv8, c: bv8, d: bv8): bv32 {
    (a as bv32 << 24) | (b as bv32 << 16) | (c as bv32 << 8) | (d as bv32)
  }

  function FromBigEndian(b: seq<bv8>): bv32
    requires |b| == 4
  {
    Join(b[0], b[1], b[2], b[3])
  }

  lemma JoinedBytes(w: bv32)
    ensures Join(Byte3(w), Byte2(w), Byte1(w), Byte0(w)) == w
  {
  }

  lemma BigEndianBack(w: bv32)
    ensures FromBigEndian(BigEndian(w)) == w
  {
    JoinedBytes(w);
  }

  lemma SameBytes(v: bv32, w: bv32)
    requires Byte3(v) == Byte3(w) && Byte2(v) == Byte2(w) && Byte1(v) == Byte1(w) && Byte0(v) == Byte0(w)
    ensures v == w
  {
  }

  lemma BigEndianInjective(v: bv32, w: bv32)
    requires BigEndian(v) == BigEndian(w)
    ensures v == w
  {
    assert BigEndian(v)[0] == BigEndian(w)[0] && BigEndian(v)[1] == BigEndian(w)[1];
    assert BigEndian(v)[2] == BigEndian(w)[2] && BigEndian(v)[3] == BigEndian(w)[3];
    SameBytes(v, w);
  }

  function Low24(w: bv32): bv32 {
    w & 0x00ff_ffff
  }

  lemma PackedPort(l: bv32, p: bv8, m: bv32, q: bv8)
    requires Pack(l, p) == Pack(m, q)
    ensures p == q
  {
  }

  lemma PackedLink(l: bv32, p: bv8, m: bv32, q: bv8)
    requires Pack(l, p) == Pack(m, q)
    ensures Low24(l) == Low24(m)
  {
  }

  lemma PackIgnoresTop(l: bv32, p: bv8, m: bv32)
    requires Low24(l) == Low24(m)
    ensures Pack(l, p) == Pack(m, p)
  {
  }

  lemma SmallLow24(l: bv32)
    requires l <= 0x00ff_ffff
    ensures Low24(l) == l
  {
  }

  lemma FourLanes(b0: bv8, b1: bv8, b2: bv8, b3: bv8)
    ensures var w := (((0 | (b0 as bv32)) | (b1 as bv32 << 8)) | (b2 as bv32 << 16)) | (b3 as bv32 << 24);
            Byte0(w) == b0 && Byte1(w) == b1 && Byte2(w) == b2 && Byte3(w) == b3
  {
  }

  lemma ByteOfSmall(n: nat)
    requires n < 0x100
    ensures (n % 0x100) as bv8 as int == n
  {
  }

  lemma WordOfSmall(n: nat)
    requires n < 0x1_0000
    ensures (n % 0x1_0000) as bv16 as int == n
  {
  }
}
