/** Which printed tables read back: exactly what becomes of literals that run together once the block
    comments between them are stripped. */
module RealtekJoins {
  import opened RealtekText
  import opened RealtekPrinter
  import opened Wrappers

  // ---------------------------------------------------------------- hexadecimal digits read as decimal

  predicate AllDecimal(s: string) {
    forall i | 0 <= i < |s| :: IsDigit(s[i])
  }

  function Digits(v: nat): (s: string)
    requires v < U32_LIMIT
    ensures |s| == 8 && forall i | 0 <= i < |s| :: IsHex(s[i])
  {
    assert Pow16(8) == U32_LIMIT;
    HexDigitsRead(v, 8);
    HexDigits(v, 8)
  }

  lemma HexCharDecimal(d: nat)
    requires d < 16
    ensures IsDigit(HexChar(d)) <==> d < 10
    ensures IsHex(HexChar(d)) && DigitValue(HexChar(d)) == d && !(HexChar(d) in "xX")
  {
    HexCharRead(d);
    assert d == 0 || d == 1 || d == 2 || d == 3 || d == 4 || d == 5 || d == 6 || d == 7
        || d == 8 || d == 9 || d == 10 || d == 11 || d == 12 || d == 13 || d == 14 || d == 15;
  }

  predicate AllHex(s: string) {
    forall i | 0 <= i < |s| :: IsHex(s[i])
  }

  lemma HexSnoc(s: string, c: char, radix: nat)
    requires AllHex(s) && IsHex(c)
    ensures AllHex(s + [c]) && RadixValue(radix, s + [c]) == RadixValue(radix, s) * radix + DigitValue(c)
  {
    assert (s + [c])[..|s|] == s;
  }

  lemma {:induction false} HexDigitsAllHex(v: nat, n: nat)
    ensures |HexDigits(v, n)| == n && AllHex(HexDigits(v, n))
    ensures forall i | 0 <= i < n :: !(HexDigits(v, n)[i] in "xX")
  {
    if n > 0 {
      HexDigitsAllHex(v / 16, n - 1);
      HexCharDecimal(v % 16);
    }
  }

  /** Read as decimal, hexadecimal digits that all are decimal give less, except for a single one. */
  lemma {:induction false} DecimalReading(v: nat, n: nat)
    requires v < Pow16(n)
    ensures AllHex(HexDigits(v, n)) && |HexDigits(v, n)| == n
    ensures v < 10 ==> AllDecimal(HexDigits(v, n))
    ensures AllDecimal(HexDigits(v, n)) ==>
              RadixValue(10, HexDigits(v, n)) <= v && (RadixValue(10, HexDigits(v, n)) == v <==> v < 10)
  {
    HexDigitsAllHex(v, n);
    if n > 0 {
      var front, c := HexDigits(v / 16, n - 1), HexChar(v % 16);
      DecimalReading(v / 16, n - 1);
      HexCharDecimal(v % 16);
      HexSnoc(front, c, 10);
      DecimalSnoc(front, c);
    }
  }

  lemma DecimalSnoc(s: string, c: char)
    ensures AllDecimal(s + [c]) <==> AllDecimal(s) && IsDigit(c)
  {
    assert (s + [c])[|s|] == c && forall i | 0 <= i < |s| :: (s + [c])[i] == s[i];
  }

  // ---------------------------------------------------------------- the first value scanned

  /** What may follow a literal's digits: nothing, a character that is no digit, or another literal. */
  predicate Follows(rest: string) {
    || rest == ""
    || (!IsHex(rest[0]) && !(rest[0] in "xX"))
    || (|rest| >= 2 && rest[0] == '0' && rest[1] == 'x')
  }

  /** `r` does not begin with `v`. */
  predicate Misses(r: Result<seq<nat>, TextError>, v: nat) {
    r.Ok? ==> r.value == [] || r.value[0] != v
  }

  lemma RunCons(c: char, s: string)
    ensures DigitRun([c] + s, false) == if IsDigit(c) then [c] + DigitRun(s, false) else ""
  {
    assert ([c] + s)[1..] == s;
  }

  lemma {:induction false} RunThrough(s: string, rest: string)
    requires AllDecimal(s)
    ensures DigitRun(s + rest, false) == s + DigitRun(rest, false)
  {
    if s == "" {
      assert s + rest == rest;
    } else {
      RunThrough(s[1..], rest);
      RunCons(s[0], s[1..] + rest);
      Regroup(s, rest);
      Regroup(s, DigitRun(rest, false));
    }
  }

  lemma {:induction false} RunWithin(s: string, rest: string)
    requires !AllDecimal(s)
    ensures DigitRun(s + rest, false) == DigitRun(s, false) && |DigitRun(s, false)| < |s|
  {
    RunCons(s[0], s[1..] + rest);
    RunCons(s[0], s[1..]);
    Regroup(s, rest);
    assert s == [s[0]] + s[1..];
    if IsDigit(s[0]) {
      RunWithin(s[1..], rest);
    }
  }

  lemma RunAhead(rest: string)
    requires Follows(rest)
    ensures |DigitRun(rest, false)| <= 1
  {
    if rest != "" && rest[0] == '0' && |rest| >= 2 {
      assert !IsDigit(rest[1..][0]);
    }
  }

  /** Digits with a letter among them are read up to the letter, which gives less. */
  lemma {:induction false} LetterReadsLess(v: nat, n: nat, rest: string)
    requires v < Pow16(n) && !AllDecimal(HexDigits(v, n))
    ensures RadixValue(10, DigitRun(HexDigits(v, n) + rest, false)) < v
  {
    if n > 0 {
      var front, c := HexDigits(v / 16, n - 1), HexChar(v % 16);
      HexCharDecimal(v % 16);
      DecimalSnoc(front, c);
      RunWithin(front + [c], rest);
      if AllDecimal(front) {
        DecimalReading(v / 16, n - 1);
        RunThrough(front, [c]);
        assert DigitRun([c], false) == "" && front + "" == front;
      } else {
        RunWithin(front, [c]);
        LetterReadsLess(v / 16, n - 1, [c]);
      }
    }
  }

  function Pow10(n: nat): nat {
    if n == 0 then 1 else 10 * Pow10(n - 1)
  }

  lemma {:induction false} DecimalBound(s: string)
    requires AllHex(s) && AllDecimal(s)
    ensures RadixValue(10, s) < Pow10(|s|)
  {
    if s != "" {
      DecimalBound(s[..|s| - 1]);
    }
  }

  lemma {:induction false} PowersGrow(m: nat, n: nat)
    requires m <= n + 1
    ensures Pow10(m) <= 10 * Pow16(n) && Pow16(n) >= 1
  {
    if n == 0 {
      assert m == 0 || (m == 1 && Pow10(1) == 10 * Pow10(0));
    } else {
      PowersGrow(if m == 0 then 0 else m - 1, n - 1);
    }
  }

  lemma ScanRun(s: string)
    requires s != "" && IsDigit(s[0]) && !StartsHex(s)
    ensures var digits := DigitRun(s, false);
      digits != "" && Scan(s) == if RadixValue(10, digits) >= U32_LIMIT then Err(InvalidNumber(digits))
                                 else Prepend(RadixValue(10, digits), Scan(s[|digits|..]))
  {
  }

  lemma PrependMisses(u: nat, r: Result<seq<nat>, TextError>, v: nat)
    requires u != v
    ensures Misses(Prepend(u, r), v)
  {
  }

  lemma RunMisses(s: string, v: nat)
    requires s != "" && IsDigit(s[0]) && !StartsHex(s) && RadixValue(10, DigitRun(s, false)) != v
    ensures Misses(Scan(s), v)
  {
    ScanRun(s);
    PrependMisses(RadixValue(10, DigitRun(s, false)), Scan(s[|DigitRun(s, false)|..]), v);
  }

  lemma NotHexAhead(h: string, rest: string)
    requires h != "" && (forall i | 0 <= i < |h| :: !(h[i] in "xX")) && Follows(rest)
    ensures !StartsHex(h + rest)
  {
    var s := h + rest;
    if |s| > 1 {
      assert s[1] == if |h| > 1 then h[1] else rest[0];
    }
  }

  /** Past a leading letter the digits left are too few for a large value, or are letters to the end. */
  lemma {:induction false} ShortRunMisses(h: string, rest: string, v: nat)
    requires AllHex(h) && (forall i | 0 <= i < |h| :: !(h[i] in "xX")) && Follows(rest)
    requires v >= 10 * Pow16(|h|)
    ensures Misses(Scan(h + rest), v)
         || (Scan(h + rest) == Scan(rest) && forall i | 0 <= i < |h| :: !IsDigit(h[i]))
  {
    if h == "" {
      assert h + rest == rest;
    } else if IsDigit(h[0]) {
      var run := DigitRun(h + rest, false);
      if AllDecimal(h) {
        RunThrough(h, rest);
        RunAhead(rest);
      } else {
        RunWithin(h, rest);
      }
      DecimalBound(run);
      PowersGrow(|run|, |h|);
      NotHexAhead(h, rest);
      RunMisses(h + rest, v);
    } else {
      ShortRunMisses(h[1..], rest, v);
      NotHexAhead(h, rest);
      assert (h + rest)[1..] == h[1..] + rest;
      assert forall i | 0 < i < |h| :: h[i] == h[1..][i - 1];
    }
  }

  lemma {:induction false} LeadingLetter(v: nat, n: nat)
    requires n > 0 && v < Pow16(n) && |HexDigits(v, n)| == n && !IsDigit(HexDigits(v, n)[0])
    ensures v >= 10 * Pow16(n - 1)
  {
    if n == 1 {
      HexCharDecimal(v % 16);
    } else {
      HexDigitsAllHex(v / 16, n - 1);
      LeadingLetter(v / 16, n - 1);
    }
  }

  lemma LastLetter(v: nat, n: nat)
    requires n > 0 && |HexDigits(v, n)| == n && !IsDigit(HexDigits(v, n)[n - 1])
    ensures v % 16 >= 10
  {
    HexCharDecimal(v % 16);
  }

  lemma NineDigits(s: string)
    requires AllHex(s) && AllDecimal(s) && |s| <= 9
    ensures RadixValue(10, s) < U32_LIMIT
  {
    DecimalBound(s);
    assert Pow10(0) == 1 && Pow10(1) == 10 && Pow10(2) == 100 && Pow10(3) == 1000 && Pow10(4) == 10_000;
    assert Pow10(5) == 100_000 && Pow10(6) == 1_000_000 && Pow10(7) == 10_000_000 && Pow10(8) == 100_000_000;
    assert Pow10(9) == 1_000_000_000;
  }

  /** A run of decimal digits is read whole, with the zero of a literal right behind it. */
  lemma RunOfDigits(h: string, rest: string)
    requires AllHex(h) && AllDecimal(h) && 0 < |h| <= 8 && (forall i | 0 <= i < |h| :: !(h[i] in "xX")) && Follows(rest)
    ensures var more := DigitRun(rest, false);
            AllHex(h + more) && Scan(h + rest) == Prepend(RadixValue(10, h + more), Scan(rest[|more|..]))
  {
    var more := DigitRun(rest, false);
    NotHexAhead(h, rest);
    RunThrough(h, rest);
    RunAhead(rest);
    NineDigits(h + more);
    ScanRun(h + rest);
    assert (h + rest)[|h + more|..] == rest[|more|..];
  }

  /** Digits that hold a letter never read as their value: less is read, or nothing at all. */
  lemma LettersMiss(v: nat, rest: string)
    requires v < U32_LIMIT && !AllDecimal(Digits(v)) && Follows(rest)
    ensures Misses(Scan(Digits(v) + rest), v) || (Scan(Digits(v) + rest) == Scan(rest) && v % 16 >= 10)
  {
    var h := Digits(v);
    assert Pow16(8) == U32_LIMIT;
    HexDigitsAllHex(v, 8);
    NotHexAhead(h, rest);
    if IsDigit(h[0]) {
      LetterReadsLess(v, 8, rest);
      RunMisses(h + rest, v);
    } else {
      LeadingLetter(v, 8);
      ShortRunMisses(h[1..], rest, v);
      assert (h + rest)[1..] == h[1..] + rest;
      if forall i | 0 <= i < 7 :: !IsDigit(h[1..][i]) {
        assert h[7] == h[1..][6];
        LastLetter(v, 8);
      }
    }
  }

  // ---------------------------------------------------------------- literals that run together

  /** The literal that runs on from the one before, and the pieces behind it. */
  function Next(pieces: seq<Piece>): (n: (nat, seq<Piece>))
    requires AllOk(pieces) && !StartsApart(pieces)
    ensures n.0 < U32_LIMIT && AllOk(n.1) && |n.1| < |pieces|
  {
    if pieces[0].Literal? then (pieces[0].value, pieces[1..]) else Next(pieces[1..])
  }

  lemma AtLiteral(pieces: seq<Piece>)
    requires pieces != [] && pieces[0].Literal? && pieces[0].value < U32_LIMIT
    ensures ResidueAll(pieces) == "0x" + (Digits(pieces[0].value) + ResidueAll(pieces[1..]))
    ensures Values(pieces) == [pieces[0].value] + Values(pieces[1..])
  {
    Join3("0x", Digits(pieces[0].value), ResidueAll(pieces[1..]));
  }

  lemma Join3(a: string, b: string, c: string)
    ensures (a + b) + c == a + (b + c)
  {
  }

  lemma {:induction false} NextResidue(pieces: seq<Piece>)
    requires AllOk(pieces) && !StartsApart(pieces)
    ensures var (v, after) := Next(pieces);
            ResidueAll(pieces) == "0x" + (Digits(v) + ResidueAll(after)) && Values(pieces) == [v] + Values(after)
  {
    if pieces[0].Literal? {
      AtLiteral(pieces);
    } else {
      NextResidue(pieces[1..]);
      PastNonLiteral(pieces);
    }
  }

  /** The digits of `v`, taken as decimal with a zero behind them, are `v`. */
  predicate ReadsWithZero(v: nat)
    requires v < U32_LIMIT
  {
    AllDecimal(Digits(v)) && RadixValue(10, Digits(v) + "0") == v
  }

  function DecimalOf(v: nat, n: nat): nat {
    if n == 0 then 0 else 10 * DecimalOf(v / 16, n - 1) + v % 16
  }

  predicate NoLetters(v: nat, n: nat) {
    n == 0 || (v % 16 < 10 && NoLetters(v / 16, n - 1))
  }

  lemma {:induction false} ReadsAsDecimal(v: nat, n: nat)
    requires NoLetters(v, n)
    ensures AllHex(HexDigits(v, n)) && AllDecimal(HexDigits(v, n))
    ensures RadixValue(10, HexDigits(v, n)) == DecimalOf(v, n)
  {
    if n > 0 {
      ReadsAsDecimal(v / 16, n - 1);
      HexCharDecimal(v % 16);
      HexSnoc(HexDigits(v / 16, n - 1), HexChar(v % 16), 10);
      DecimalSnoc(HexDigits(v / 16, n - 1), HexChar(v % 16));
    }
  }

  lemma ReadsWithZeroIf(v: nat)
    requires v < U32_LIMIT && NoLetters(v, 8) && 10 * DecimalOf(v, 8) == v
    ensures ReadsWithZero(v)
  {
    ReadsAsDecimal(v, 8);
    HexSnoc(Digits(v), '0', 10);
  }

  lemma {:induction false} ZeroReads(n: nat)
    ensures NoLetters(0, n) && DecimalOf(0, n) == 0
  {
    if n > 0 {
      ZeroReads(n - 1);
    }
  }

  lemma OddNumber()
    ensures NoLetters(0x112308, 8) && 10 * DecimalOf(0x112308, 8) == 0x112308
  {
    ZeroReads(2);
    assert NoLetters(0x1, 3) && DecimalOf(0x1, 3) == 1;
    assert NoLetters(0x11, 4) && DecimalOf(0x11, 4) == 11;
    assert NoLetters(0x112, 5) && DecimalOf(0x112, 5) == 112;
    assert NoLetters(0x1123, 6) && DecimalOf(0x1123, 6) == 1123;
    assert NoLetters(0x11230, 7) && DecimalOf(0x11230, 7) == 11230;
  }

  /** Zero is such a number, and not the only one. */
  lemma ReadingWithZero(v: nat)
    requires v == 0 || v == 0x112308
    ensures ReadsWithZero(v)
  {
    ZeroReads(8);
    OddNumber();
    ReadsWithZeroIf(v);
  }

  /** A literal may run into the next only if it is zero; what it runs into is read as decimal. */
  predicate JoinsWell(pieces: seq<Piece>)
    requires AllOk(pieces)
    decreases |pieces|, 0
  {
    if pieces == [] then true
    else if !pieces[0].Literal? || StartsApart(pieces[1..]) then JoinsWell(pieces[1..])
    else pieces[0].value == 0 && TailReads(Next(pieces[1..]).0, Next(pieces[1..]).1)
  }

  /** A literal that another ran into is a single digit at the end of its row, and within the row one of
      the few numbers that read as themselves with a zero behind them. */
  predicate TailReads(v: nat, pieces: seq<Piece>)
    requires v < U32_LIMIT && AllOk(pieces)
    decreases |pieces|, 1
  {
    if StartsApart(pieces) then v < 10 && JoinsWell(pieces)
    else ReadsWithZero(v) && TailReads(Next(pieces).0, Next(pieces).1)
  }

  lemma {:induction false} ResidueFollows(pieces: seq<Piece>)
    requires AllOk(pieces)
    ensures Follows(ResidueAll(pieces))
    ensures StartsApart(pieces) ==> DigitRun(ResidueAll(pieces), false) == ""
  {
    if pieces != [] {
      if pieces[0].BlockComment? {
        ResidueFollows(pieces[1..]);
        assert ResidueAll(pieces) == ResidueAll(pieces[1..]);
      } else {
        assert ResidueAll(pieces)[0] == Residue(pieces[0])[0];
      }
    }
  }

  lemma PrependIs(u: nat, r: Result<seq<nat>, TextError>, v: nat, values: seq<nat>)
    ensures Prepend(u, r) == Ok([v] + values) <==> u == v && r == Ok(values)
  {
    if r.Ok? && [u] + r.value == [v] + values {
      assert ([u] + r.value)[1..] == r.value && ([v] + values)[1..] == values;
      assert ([u] + r.value)[0] == u && ([v] + values)[0] == v;
    }
  }

  lemma ScanPastX(z: string)
    ensures Scan("x" + z) == Scan(z)
  {
    ScanSkip("x", z);
  }

  lemma JoinedText(v: nat, z: string)
    requires v < U32_LIMIT
    ensures FormatU32(v) + ("0x" + z) == "0x" + ((Digits(v) + "0") + ("x" + z))
    ensures AllHex(Digits(v) + "0") && RadixValue(16, Digits(v) + "0") == 16 * v
  {
    assert Pow16(8) == U32_LIMIT;
    HexDigitsRead(v, 8);
    HexSnoc(Digits(v), '0', 16);
  }

  /** A literal run into: its digits take the next one's zero, and the next one's digits are bare. */
  lemma ScanJoined(v: nat, z: string)
    requires v < U32_LIMIT
    ensures 16 * v < U32_LIMIT ==> Scan(FormatU32(v) + ("0x" + z)) == Prepend(16 * v, Scan(z))
    ensures 16 * v >= U32_LIMIT ==> Scan(FormatU32(v) + ("0x" + z)).Err?
  {
    var digits, rest := Digits(v) + "0", "x" + z;
    JoinedText(v, z);
    ScanPastX(z);
    if 16 * v < U32_LIMIT {
      ScanHex(digits, rest);
    } else {
      ScanHexOverflows(digits, rest);
    }
  }

  lemma ScanHexOverflows(digits: string, rest: string)
    requires digits != "" && AllHex(digits) && Apart(rest) && RadixValue(16, digits) >= U32_LIMIT
    ensures Scan("0x" + (digits + rest)).Err?
  {
    var s := "0x" + (digits + rest);
    assert s[2..] == digits + rest && s[2] == digits[0];
    DigitRunStops(digits, rest);
  }

  /** The digits of a literal that was run into, where it is the last of its row. */
  lemma ScanLastTail(v: nat, rest: string)
    requires v < U32_LIMIT && AllDecimal(Digits(v)) && Follows(rest) && DigitRun(rest, false) == ""
    ensures Scan(Digits(v) + rest) == Prepend(RadixValue(10, Digits(v)), Scan(rest))
  {
    HexDigitsAllHex(v, 8);
    RunOfDigits(Digits(v), rest);
    assert Digits(v) + "" == Digits(v) && rest[0..] == rest;
  }

  lemma ScanInnerTail(v: nat, z: string)
    requires v < U32_LIMIT && AllDecimal(Digits(v))
    ensures AllHex(Digits(v) + "0")
    ensures Scan(Digits(v) + ("0x" + z)) == Prepend(RadixValue(10, Digits(v) + "0"), Scan(z))
  {
    var rest := "0x" + z;
    HexDigitsAllHex(v, 8);
    RunOfDigits(Digits(v), rest);
    assert rest[1..] == "x" + z;
    assert DigitRun(rest, false) == "0";
    ScanPastX(z);
  }

  lemma NoShiftApart(v: nat, u: nat, pieces: seq<Piece>)
    requires u < U32_LIMIT && AllOk(pieces) && StartsApart(pieces) && Scan(ResidueAll(pieces)) != Ok([v] + Values(pieces))
    ensures Scan(FormatU32(u) + ResidueAll(pieces)) != Ok([v] + ([u] + Values(pieces)))
  {
    ResidueApart(pieces);
    ScanLiteral(u, ResidueAll(pieces));
    PrependIs(u, Scan(ResidueAll(pieces)), v, [u] + Values(pieces));
  }

  lemma JoinedMisses(v: nat, u: nat, z: string)
    requires u < U32_LIMIT && v % 16 >= 10
    ensures Misses(Scan(FormatU32(u) + ("0x" + z)), v)
  {
    ScanJoined(u, z);
    ShiftedMisses(Scan(FormatU32(u) + ("0x" + z)), u, Scan(z), v);
  }

  lemma ShiftedMisses(r: Result<seq<nat>, TextError>, u: nat, q: Result<seq<nat>, TextError>, v: nat)
    requires v % 16 >= 10 && (16 * u < U32_LIMIT ==> r == Prepend(16 * u, q)) && (16 * u >= U32_LIMIT ==> r.Err?)
    ensures Misses(r, v)
  {
    if 16 * u < U32_LIMIT {
      PrependMisses(16 * u, q, v);
    }
  }

  lemma NoShiftJoined(v: nat, u: nat, pieces: seq<Piece>, values: seq<nat>)
    requires u < U32_LIMIT && v % 16 >= 10 && AllOk(pieces) && !StartsApart(pieces)
    ensures Scan(FormatU32(u) + ResidueAll(pieces)) != Ok([v] + values)
  {
    NextResidue(pieces);
    JoinedMisses(v, u, Digits(Next(pieces).0) + ResidueAll(Next(pieces).1));
  }

  /** A value that ends in a letter cannot be made up for: no list of pieces scans to one value more. */
  lemma {:induction false} NoShift(v: nat, pieces: seq<Piece>)
    requires AllOk(pieces) && v % 16 >= 10
    ensures Scan(ResidueAll(pieces)) != Ok([v] + Values(pieces))
    decreases |pieces|
  {
    if pieces != [] {
      NoShift(v, pieces[1..]);
      if pieces[0].Literal? {
        if StartsApart(pieces[1..]) {
          NoShiftApart(v, pieces[0].value, pieces[1..]);
        } else {
          NoShiftJoined(v, pieces[0].value, pieces[1..], Values(pieces));
        }
      } else {
        PastNonLiteral(pieces);
        if !pieces[0].BlockComment? {
          ScanSkip(Residue(pieces[0]), ResidueAll(pieces[1..]));
        }
      }
    }
  }

  lemma LetterExact(v: nat, pieces: seq<Piece>)
    requires v < U32_LIMIT && AllOk(pieces) && !AllDecimal(Digits(v))
    ensures Scan(Digits(v) + ResidueAll(pieces)) != Ok([v] + Values(pieces)) && !TailReads(v, pieces)
  {
    ResidueFollows(pieces);
    LettersMiss(v, ResidueAll(pieces));
    assert Pow16(8) == U32_LIMIT;
    DecimalReading(v, 8);
    if v % 16 >= 10 {
      NoShift(v, pieces);
    }
  }

  lemma LastExact(v: nat, pieces: seq<Piece>)
    requires v < U32_LIMIT && AllOk(pieces) && AllDecimal(Digits(v)) && StartsApart(pieces)
    ensures Scan(Digits(v) + ResidueAll(pieces)) == Ok([v] + Values(pieces))
       <==> v < 10 && Scan(ResidueAll(pieces)) == Ok(Values(pieces))
  {
    ResidueFollows(pieces);
    assert Pow16(8) == U32_LIMIT;
    DecimalReading(v, 8);
    ScanLastTail(v, ResidueAll(pieces));
    PrependIs(RadixValue(10, Digits(v)), Scan(ResidueAll(pieces)), v, Values(pieces));
  }

  lemma InnerExact(v: nat, pieces: seq<Piece>)
    requires v < U32_LIMIT && AllOk(pieces) && AllDecimal(Digits(v)) && !StartsApart(pieces)
    ensures var (u, after) := Next(pieces);
      Scan(Digits(v) + ResidueAll(pieces)) == Ok([v] + Values(pieces))
      <==> ReadsWithZero(v) && Scan(Digits(u) + ResidueAll(after)) == Ok([u] + Values(after))
  {
    var (u, after) := Next(pieces);
    NextResidue(pieces);
    ScanInnerTail(v, Digits(u) + ResidueAll(after));
    PrependIs(RadixValue(10, Digits(v) + "0"), Scan(Digits(u) + ResidueAll(after)), v, Values(pieces));
  }

  /** The digits of a literal that was run into and all behind it read back exactly under `TailReads`. */
  lemma {:induction false} TailExact(v: nat, pieces: seq<Piece>)
    requires v < U32_LIMIT && AllOk(pieces)
    ensures Scan(Digits(v) + ResidueAll(pieces)) == Ok([v] + Values(pieces)) <==> TailReads(v, pieces)
    decreases |pieces|, 1
  {
    if !AllDecimal(Digits(v)) {
      LetterExact(v, pieces);
    } else if StartsApart(pieces) {
      LastExact(v, pieces);
      ResidueExact(pieces);
    } else {
      InnerExact(v, pieces);
      TailExact(Next(pieces).0, Next(pieces).1);
    }
  }

  lemma LiteralApartExact(v: nat, pieces: seq<Piece>)
    requires v < U32_LIMIT && AllOk(pieces) && StartsApart(pieces)
    ensures Scan(FormatU32(v) + ResidueAll(pieces)) == Ok([v] + Values(pieces))
       <==> Scan(ResidueAll(pieces)) == Ok(Values(pieces))
  {
    ResidueApart(pieces);
    ScanLiteral(v, ResidueAll(pieces));
    PrependIs(v, Scan(ResidueAll(pieces)), v, Values(pieces));
  }

  lemma LiteralJoinedExact(v: nat, pieces: seq<Piece>)
    requires v < U32_LIMIT && AllOk(pieces) && !StartsApart(pieces)
    ensures var (u, after) := Next(pieces);
      Scan(FormatU32(v) + ResidueAll(pieces)) == Ok([v] + Values(pieces))
      <==> v == 0 && Scan(Digits(u) + ResidueAll(after)) == Ok([u] + Values(after))
  {
    var (u, after) := Next(pieces);
    NextResidue(pieces);
    ScanJoined(v, Digits(u) + ResidueAll(after));
    PrependIs(16 * v, Scan(Digits(u) + ResidueAll(after)), v, Values(pieces));
  }

  /** Stripped pieces read back exactly under `JoinsWell`. */
  lemma {:induction false} ResidueExact(pieces: seq<Piece>)
    requires AllOk(pieces)
    ensures Scan(ResidueAll(pieces)) == Ok(Values(pieces)) <==> JoinsWell(pieces)
    decreases |pieces|, 0
  {
    if pieces != [] {
      var rest := pieces[1..];
      if pieces[0].Literal? {
        if StartsApart(rest) {
          LiteralApartExact(pieces[0].value, rest);
          ResidueExact(rest);
        } else {
          LiteralJoinedExact(pieces[0].value, rest);
          TailExact(Next(rest).0, Next(rest).1);
        }
      } else {
        ResidueExact(rest);
        PastNonLiteral(pieces);
        if !pieces[0].BlockComment? {
          ScanSkip(Residue(pieces[0]), ResidueAll(rest));
        }
      }
    }
  }

  // ---------------------------------------------------------------- which tables read back

  /** For every layout of literals, blanks and comments: it reads back as its literals if and only if
      wherever literals run together they join well. */
  lemma PrintedLayoutReadsBackIff(pieces: seq<Piece>)
    requires AllOk(pieces)
    ensures Scan(Strip(PrintAll(pieces))) == Ok(Values(pieces)) <==> JoinsWell(pieces)
  {
    StripPrinted(pieces);
    ResidueExact(pieces);
  }

  /** The same for the whole declaration, where the literals must also come in pairs. */
  lemma DeclarationReadsBackIff(
    prefix: string, arrayName: string, middle: string, pieces: seq<Piece>, suffix: string)
    requires Declares(prefix, arrayName, middle, PrintAll(pieces), suffix) && AllOk(pieces)
    ensures ParseU32Array(Declare(prefix, arrayName, middle, PrintAll(pieces), suffix), arrayName) == Ok(Values(pieces))
       <==> JoinsWell(pieces) && |Values(pieces)| % 2 == 0
  {
    FindBody(prefix, arrayName, middle, PrintAll(pieces), suffix);
    PrintedLayoutReadsBackIff(pieces);
  }

  /** No zero runs into another literal. */
  predicate NoZeroJoins(pieces: seq<Piece>) {
    pieces == [] ||
    (NoZeroJoins(pieces[1..]) && (pieces[0].Literal? && pieces[0].value == 0 ==> StartsApart(pieces[1..])))
  }

  lemma {:induction false} JoinsWellIfSeparated(pieces: seq<Piece>)
    requires AllOk(pieces)
    ensures Separated(pieces) ==> JoinsWell(pieces)
    ensures NoZeroJoins(pieces) && JoinsWell(pieces) ==> Separated(pieces)
  {
    if pieces != [] {
      JoinsWellIfSeparated(pieces[1..]);
    }
  }

  /** Apart from zeros, a layout reads back if and only if its literals are separated. */
  lemma NonzeroLayoutReadsBackIff(pieces: seq<Piece>)
    requires AllOk(pieces) && NoZeroJoins(pieces)
    ensures Scan(Strip(PrintAll(pieces))) == Ok(Values(pieces)) <==> Separated(pieces)
  {
    PrintedLayoutReadsBackIff(pieces);
    JoinsWellIfSeparated(pieces);
  }

  /** A block comment alone runs its neighbours together: the pair reads back if and only if the first is
      zero and the second a single digit. */
  lemma BlockCommentAloneJoins(v: nat, text: string, w: nat)
    requires v < U32_LIMIT && w < U32_LIMIT && NoEnd(text)
    ensures Scan(Strip(Print(Literal(v)) + (Print(BlockComment(text)) + Print(Literal(w))))) == Ok([v, w])
       <==> v == 0 && w < 10
  {
    var last := [Literal(w)];
    var pieces := [Literal(v), BlockComment(text)] + last;
    assert pieces[1..] == [BlockComment(text)] + last && pieces[1..][1..] == last && last[1..] == [];
    assert PrintAll(last) == Print(Literal(w)) + "" == Print(Literal(w));
    assert PrintAll(pieces[1..]) == Print(BlockComment(text)) + PrintAll(last);
    assert PrintAll(pieces) == Print(Literal(v)) + PrintAll(pieces[1..]);
    assert Values(last) == [w] && Values(pieces[1..]) == [w] && Values(pieces) == [v, w];
    assert Next(last) == (w, []) && Next(pieces[1..]) == (w, []);
    PrintedLayoutReadsBackIff(pieces);
  }
}
