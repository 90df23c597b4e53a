/** Printed register tables: source text laid out from literals, blanks and comments, and the proof that
    the front end of crates/radio-core/src/realtek_table.rs reads back what was printed. */
module RealtekPrinter {
  import opened RealtekText
  import opened Wrappers

  function HexChar(d: nat): char
    requires d < 16
  {
    "0123456789abcdef"[d]
  }

  function HexDigits(v: nat, n: nat): string {
    if n == 0 then "" else HexDigits(v / 16, n - 1) + [HexChar(v % 16)]
  }

  /** A 32-bit value as the planner prints it. */
  function FormatU32(v: nat): string {
    "0x" + HexDigits(v, 8)
  }

  function Pow16(n: nat): nat {
    if n == 0 then 1 else 16 * Pow16(n - 1)
  }

  lemma {:induction false} HexDigitsRead(v: nat, n: nat)
    requires v < Pow16(n)
    ensures |HexDigits(v, n)| == n
    ensures forall i | 0 <= i < n :: IsHex(HexDigits(v, n)[i]) && !(HexDigits(v, n)[i] in "/{}")
    ensures RadixValue(16, HexDigits(v, n)) == v
  {
    if n > 0 {
      HexDigitsRead(v / 16, n - 1);
      var front := HexDigits(v / 16, n - 1);
      assert HexDigits(v, n)[..n - 1] == front;
      HexCharRead(v % 16);
    }
  }

  lemma HexCharRead(d: nat)
    requires d < 16
    ensures IsHex(HexChar(d)) && DigitValue(HexChar(d)) == d && !(HexChar(d) in "/{}")
  {
    assert d == 0 || d == 1 || d == 2 || d == 3 || d == 4 || d == 5 || d == 6 || d == 7
        || d == 8 || d == 9 || d == 10 || d == 11 || d == 12 || d == 13 || d == 14 || d == 15;
  }

  datatype Piece =
    | Literal(value: nat)
    | Blank(c: char)
    | LineComment(text: string)
    | BlockComment(text: string)

  predicate IsBlank(c: char) {
    c in ", \t\n\r"
  }

  predicate NoEnd(text: string) {
    forall i | 0 <= i && i + 1 < |text| :: !(text[i] == '*' && text[i + 1] == '/')
  }

  predicate PieceOk(p: Piece) {
    match p
    case Literal(value) => value < U32_LIMIT
    case Blank(c) => IsBlank(c)
    case LineComment(text) => '\n' !in text
    case BlockComment(text) => NoEnd(text)
  }

  predicate AllOk(pieces: seq<Piece>) {
    pieces == [] || (PieceOk(pieces[0]) && AllOk(pieces[1..]))
  }

  /** What a piece leaves once comments are stripped: a line comment still ends its line. */
  function Residue(p: Piece): string {
    match p
    case Literal(value) => FormatU32(value)
    case Blank(c) => [c]
    case LineComment(_) => "\n"
    case BlockComment(_) => ""
  }

  function Print(p: Piece): string {
    match p
    case Literal(value) => FormatU32(value)
    case Blank(c) => [c]
    case LineComment(text) => "//" + text + "\n"
    case BlockComment(text) => "/*" + text + "*/"
  }

  function PrintAll(pieces: seq<Piece>): string {
    if pieces == [] then "" else Print(pieces[0]) + PrintAll(pieces[1..])
  }

  function ResidueAll(pieces: seq<Piece>): string {
    if pieces == [] then "" else Residue(pieces[0]) + ResidueAll(pieces[1..])
  }

  function Values(pieces: seq<Piece>): seq<nat> {
    if pieces == [] then []
    else (if pieces[0].Literal? then [pieces[0].value] else []) + Values(pieces[1..])
  }

  /** Between two literals something stays once comments are stripped: a block comment alone runs them
      together. */
  predicate Separated(pieces: seq<Piece>) {
    pieces == [] ||
    (PieceOk(pieces[0]) && Separated(pieces[1..]) && (pieces[0].Literal? ==> StartsApart(pieces[1..])))
  }

  lemma {:induction false} SeparatedOk(pieces: seq<Piece>)
    requires Separated(pieces)
    ensures AllOk(pieces)
  {
    if pieces != [] {
      SeparatedOk(pieces[1..]);
    }
  }

  predicate StartsApart(pieces: seq<Piece>) {
    pieces == [] || pieces[0].Blank? || pieces[0].LineComment? || (pieces[0].BlockComment? && StartsApart(pieces[1..]))
  }

  // ---------------------------------------------------------------- stripping what was printed

  lemma Regroup(s: string, rest: string)
    requires s != ""
    ensures s + rest == [s[0]] + (s[1..] + rest)
  {
  }

  lemma {:induction false} StripPlain(plain: string, rest: string)
    requires forall i | 0 <= i < |plain| :: plain[i] != '/'
    ensures Strip(plain + rest) == plain + Strip(rest)
  {
    if plain == "" {
      assert plain + rest == rest && plain + Strip(rest) == Strip(rest);
    } else {
      StripPlain(plain[1..], rest);
      assert (plain + rest)[1..] == plain[1..] + rest;
      Regroup(plain, Strip(rest));
    }
  }

  lemma {:induction false} AfterLineText(text: string, rest: string)
    requires '\n' !in text
    ensures AfterLine(text + "\n" + rest) == "\n" + rest
  {
    var s := text + "\n" + rest;
    if text == "" {
      assert s == "\n" + rest;
    } else {
      AfterLineText(text[1..], rest);
      assert s[1..] == text[1..] + "\n" + rest;
    }
  }

  lemma {:induction false} AfterBlockText(text: string, prev: char, rest: string)
    requires NoEnd(text) && !(prev == '*' && text != "" && text[0] == '/')
    ensures AfterBlock(text + "*/" + rest, prev) == rest
  {
    var s := text + "*/" + rest;
    if text == "" {
      assert s[1..] == "/" + rest && s[1..][1..] == rest;
    } else {
      assert 0 + 1 < |text| ==> !(text[0] == '*' && text[0 + 1] == '/');
      forall i | 0 <= i && i + 1 < |text[1..]|
        ensures !(text[1..][i] == '*' && text[1..][i + 1] == '/')
      {
        assert !(text[i + 1] == '*' && text[i + 1 + 1] == '/');
      }
      AfterBlockText(text[1..], text[0], rest);
      assert s[1..] == text[1..] + "*/" + rest;
    }
  }

  lemma LiteralPlain(v: nat)
    requires v < U32_LIMIT
    ensures forall i | 0 <= i < |FormatU32(v)| :: FormatU32(v)[i] != '/'
    ensures |FormatU32(v)| == 10
  {
    assert Pow16(8) == U32_LIMIT;
    HexDigitsRead(v, 8);
  }

  lemma StripLine(text: string, rest: string)
    requires '\n' !in text
    ensures Strip("//" + text + "\n" + rest) == "\n" + Strip(rest)
  {
    assert ("//" + text + "\n" + rest)[2..] == text + "\n" + rest;
    AfterLineText(text, rest);
    StripPlain("\n", rest);
  }

  lemma StripBlock(text: string, rest: string)
    requires NoEnd(text)
    ensures Strip("/*" + text + "*/" + rest) == Strip(rest)
  {
    assert ("/*" + text + "*/" + rest)[2..] == text + "*/" + rest;
    AfterBlockText(text, '\0', rest);
  }

  lemma StripPiece(p: Piece, rest: string)
    requires PieceOk(p)
    ensures Strip(Print(p) + rest) == Residue(p) + Strip(rest)
  {
    match p
    case Literal(v) =>
      LiteralPlain(v);
      StripPlain(FormatU32(v), rest);
    case Blank(c) => StripPlain([c], rest);
    case LineComment(text) => StripLine(text, rest);
    case BlockComment(text) =>
      StripBlock(text, rest);
      assert "" + Strip(rest) == Strip(rest);
  }

  lemma {:induction false} StripPrinted(pieces: seq<Piece>)
    requires AllOk(pieces)
    ensures Strip(PrintAll(pieces)) == ResidueAll(pieces)
  {
    if pieces != [] {
      StripPiece(pieces[0], PrintAll(pieces[1..]));
      StripPrinted(pieces[1..]);
    }
  }

  // ---------------------------------------------------------------- scanning what was left

  predicate Apart(s: string) {
    s == "" || !IsHex(s[0])
  }

  lemma {:induction false} ResidueApart(pieces: seq<Piece>)
    requires AllOk(pieces) && StartsApart(pieces)
    ensures Apart(ResidueAll(pieces))
  {
    if pieces != [] && pieces[0].BlockComment? {
      ResidueApart(pieces[1..]);
      assert ResidueAll(pieces) == ResidueAll(pieces[1..]);
    }
  }

  lemma {:induction false} DigitRunStops(digits: string, rest: string)
    requires (forall i | 0 <= i < |digits| :: IsHex(digits[i])) && Apart(rest)
    ensures DigitRun(digits + rest, true) == digits
  {
    var s := digits + rest;
    if digits == "" {
      assert s == rest;
    } else {
      DigitRunStops(digits[1..], rest);
      assert s[1..] == digits[1..] + rest;
      assert digits == [digits[0]] + digits[1..];
    }
  }

  lemma ScanHex(digits: string, rest: string)
    requires digits != "" && (forall i | 0 <= i < |digits| :: IsHex(digits[i])) && Apart(rest)
    requires RadixValue(16, digits) < U32_LIMIT
    ensures Scan("0x" + (digits + rest)) == Prepend(RadixValue(16, digits), Scan(rest))
  {
    var s := "0x" + (digits + rest);
    assert s[2..] == digits + rest && s[2 + |digits|..] == rest;
    assert s[2] == digits[0];
    DigitRunStops(digits, rest);
  }

  lemma ScanLiteral(v: nat, rest: string)
    requires v < U32_LIMIT && Apart(rest)
    ensures Scan(FormatU32(v) + rest) == Prepend(v, Scan(rest))
  {
    assert Pow16(8) == U32_LIMIT;
    HexDigitsRead(v, 8);
    ScanHex(HexDigits(v, 8), rest);
    assert FormatU32(v) + rest == "0x" + (HexDigits(v, 8) + rest);
  }

  lemma ScanSkip(c: string, rest: string)
    requires |c| == 1 && !IsDigit(c[0])
    ensures Scan(c + rest) == Scan(rest)
  {
    assert (c + rest)[1..] == rest;
  }

  lemma PastNonLiteral(pieces: seq<Piece>)
    requires pieces != [] && !pieces[0].Literal?
    ensures Values(pieces) == Values(pieces[1..])
    ensures pieces[0].BlockComment? ==> ResidueAll(pieces) == ResidueAll(pieces[1..])
  {
  }

  lemma {:induction false} ScanResidue(pieces: seq<Piece>)
    requires Separated(pieces)
    ensures Scan(ResidueAll(pieces)) == Ok(Values(pieces))
  {
    if pieces != [] {
      ScanResidue(pieces[1..]);
      if pieces[0].Literal? {
        SeparatedOk(pieces[1..]);
        ResidueApart(pieces[1..]);
        ScanLiteral(pieces[0].value, ResidueAll(pieces[1..]));
      } else {
        PastNonLiteral(pieces);
        if !pieces[0].BlockComment? {
          ScanSkip(Residue(pieces[0]), ResidueAll(pieces[1..]));
        }
      }
    }
  }

  // ---------------------------------------------------------------- the whole declaration

  ghost predicate NoBrace(s: string) {
    forall i | 0 <= i < |s| :: s[i] != '{' && s[i] != '}'
  }

  function Declare(prefix: string, arrayName: string, middle: string, body: string, suffix: string): string {
    prefix + arrayName + middle + "{" + body + "}" + suffix
  }

  /** The name does not occur before its declaration, and the declaration's first brace opens the body,
      which may itself hold braces in comments as long as they balance. */
  ghost predicate Declares(prefix: string, arrayName: string, middle: string, body: string, suffix: string) {
    && (forall i | 0 <= i < |prefix| :: !OccursAt(Declare(prefix, arrayName, middle, body, suffix), arrayName, i))
    && '{' !in arrayName + middle
    && Balanced(body)
  }

  lemma FindName(prefix: string, arrayName: string, middle: string, body: string, suffix: string)
    requires Declares(prefix, arrayName, middle, body, suffix)
    ensures Find(Declare(prefix, arrayName, middle, body, suffix), arrayName, 0) == Some(|prefix|)
  {
    var source := Declare(prefix, arrayName, middle, body, suffix);
    assert source[|prefix|..|prefix| + |arrayName|] == arrayName;
    assert OccursAt(source, arrayName, |prefix|);
  }

  lemma FindBrace(source: string, prefix: string, head: string, tail: string)
    requires '{' !in head && source == prefix + head + "{" + tail
    ensures Find(source, "{", |prefix|) == Some(|prefix| + |head|)
  {
    assert OccursAt(source, "{", |prefix| + |head|);
    forall i | |prefix| <= i < |prefix| + |head|
      ensures !OccursAt(source, "{", i)
    {
      assert source[i..i + 1][0] == source[i] == head[i - |prefix|];
    }
  }

  /** The body of a source that begins with `opening`, whose last character opens it. */
  lemma FindBodyAfter(source: string, arrayName: string, offset: nat, opening: string, body: string, suffix: string)
    requires source == opening + body + "}" + suffix && Balanced(body) && opening != ""
    requires Find(source, arrayName, 0) == Some(offset) && Find(source, "{", offset) == Some(|opening| - 1)
    ensures FindArrayBody(source, arrayName) == Ok(body)
  {
    BodySlice(opening, body, suffix);
    BodyEndIs(source, |opening|, |opening| + |body|);
    FoundBody(source, arrayName, offset, |opening| - 1, |opening| + |body|);
  }

  lemma FindBody(prefix: string, arrayName: string, middle: string, body: string, suffix: string)
    requires Declares(prefix, arrayName, middle, body, suffix)
    ensures FindArrayBody(Declare(prefix, arrayName, middle, body, suffix), arrayName) == Ok(body)
  {
    var source, head := Declare(prefix, arrayName, middle, body, suffix), arrayName + middle;
    FindName(prefix, arrayName, middle, body, suffix);
    DeclareForms(prefix, arrayName, middle, body, suffix);
    FindBrace(source, prefix, head, body + "}" + suffix);
    FindBodyAfter(source, arrayName, |prefix|, prefix + head + "{", body, suffix);
  }

  lemma DeclareForms(prefix: string, arrayName: string, middle: string, body: string, suffix: string)
    ensures var source, opening := Declare(prefix, arrayName, middle, body, suffix), prefix + (arrayName + middle) + "{";
            source == opening + (body + "}" + suffix) && source == opening + body + "}" + suffix
  {
  }

  lemma FoundBody(source: string, arrayName: string, offset: nat, brace: nat, end: nat)
    requires Find(source, arrayName, 0) == Some(offset) && Find(source, "{", offset) == Some(brace)
    requires BodyEnd(source, 1, brace + 1) == Some(end) && brace < end <= |source|
    ensures FindArrayBody(source, arrayName) == Ok(source[brace + 1..end])
  {
  }

  lemma BodySlice(opening: string, body: string, suffix: string)
    requires Balanced(body)
    ensures var source := opening + body + "}" + suffix;
            var end := |opening| + |body|;
            end < |source| && source[|opening|..end] == body && ClosesAt(source, |opening|, end)
  {
  }

  lemma BodyEndIs(source: string, start: nat, end: nat)
    requires ClosesAt(source, start, end)
    ensures BodyEnd(source, 1, start) == Some(end)
  {
    BodyEndFromStart(source, start);
    ClosingBraceUnique(source, start, end, BodyEnd(source, 1, start).value);
  }

  /** Round trip: a declaration whose body is any separated layout of literals, blanks and comments reads
      back as exactly its literals, and an odd number of them is reported as such. */
  lemma PrintedTableReadsBack(prefix: string, arrayName: string, middle: string, pieces: seq<Piece>, suffix: string)
    requires Declares(prefix, arrayName, middle, PrintAll(pieces), suffix)
    requires Separated(pieces)
    ensures ParseU32Array(Declare(prefix, arrayName, middle, PrintAll(pieces), suffix), arrayName)
         == if |Values(pieces)| % 2 == 0 then Ok(Values(pieces)) else Err(OddValueCount(arrayName, |Values(pieces)|))
  {
    FindBody(prefix, arrayName, middle, PrintAll(pieces), suffix);
    SeparatedOk(pieces);
    StripPrinted(pieces);
    ScanResidue(pieces);
  }

  /** The byte reader returns the same literals exactly when all fit a byte, else the first that does not. */
  lemma PrintedBytesReadBack(prefix: string, arrayName: string, middle: string, pieces: seq<Piece>, suffix: string)
    requires Declares(prefix, arrayName, middle, PrintAll(pieces), suffix)
    requires Separated(pieces)
    ensures match ParseU8Array(Declare(prefix, arrayName, middle, PrintAll(pieces), suffix), arrayName)
      case Ok(bytes) => bytes == Values(pieces) && forall v <- bytes :: v < 0x100
      case Err(ByteOutOfRange(_, v)) =>
        exists i :: 0 <= i < |Values(pieces)| && Values(pieces)[i] == v >= 0x100
          && forall j | 0 <= j < i :: Values(pieces)[j] < 0x100
      case Err(_) => false
  {
    FindBody(prefix, arrayName, middle, PrintAll(pieces), suffix);
    SeparatedOk(pieces);
    StripPrinted(pieces);
    ScanResidue(pieces);
    AsBytesMeaning(arrayName, Values(pieces));
  }

  lemma {:induction false} AsBytesMeaning(arrayName: string, values: seq<nat>)
    ensures match AsBytes(arrayName, values)
      case Ok(bytes) => bytes == values && forall v <- values :: v < 0x100
      case Err(ByteOutOfRange(name, v)) => name == arrayName &&
        exists i :: 0 <= i < |values| && values[i] == v >= 0x100 && forall j | 0 <= j < i :: values[j] < 0x100
      case Err(_) => false
  {
    if values != [] && values[0] < 0x100 {
      AsBytesMeaning(arrayName, values[1..]);
      assert values == [values[0]] + values[1..];
      var r := AsBytes(arrayName, values[1..]);
      if r.Err? {
        var i :| 0 <= i < |values[1..]| && values[1..][i] == r.error.value
          && forall j | 0 <= j < i :: values[1..][j] < 0x100;
        assert values[i + 1] == r.error.value;
        assert forall j | 0 <= j < i + 1 :: values[j] < 0x100 by {
          assert forall j | 0 < j < i + 1 :: values[j] == values[1..][j - 1];
        }
      }
    }
  }

  /** Brace-free comments always balance. */
  lemma {:induction false} BraceFreeBalances(s: string)
    requires NoBrace(s)
    ensures Balanced(s)
  {
    if s != "" {
      BraceFreeBalances(s[..|s| - 1]);
      forall k | 0 <= k < |s|
        ensures Depth(s[..k]) >= 0
      {
        assert s[..k] == s[..|s| - 1][..k];
      }
      assert s[..|s|] == s;
    }
  }
}
