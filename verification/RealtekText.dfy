/** The text front end of crates/radio-core/src/realtek_table.rs: finding a C array initializer,
    stripping its comments and scanning its literals. Source text is a sequence of characters. */
module RealtekText {
  import opened Wrappers

  datatype TextError =
    | ArrayNotFound(arrayName: string)
    | ArrayBodyNotFound(arrayName: string)
    | OddValueCount(arrayName: string, valueCount: nat)
    | ByteOutOfRange(arrayName: string, value: nat)
    | InvalidNumber(literal: string)

  // ---------------------------------------------------------------- finding the body

  predicate OccursAt(source: string, name: string, i: nat) {
    i + |name| <= |source| && source[i..i + |name|] == name
  }

  /** The first place at or after `from` where `name` occurs. */
  function Find(source: string, name: string, from: nat): (r: Option<nat>)
    requires from <= |source|
    ensures r.Some? ==> from <= r.value && OccursAt(source, name, r.value)
    ensures r.Some? ==> forall i | from <= i < r.value :: !OccursAt(source, name, i)
    ensures r.None? ==> forall i | from <= i :: !OccursAt(source, name, i)
    decreases |source| - from
  {
    if OccursAt(source, name, from) then Some(from)
    else if from == |source| then None
    else Find(source, name, from + 1)
  }

  function Nesting(c: char): int {
    if c == '{' then 1 else if c == '}' then -1 else 0
  }

  /** Opening braces less closing braces. */
  function Depth(s: string): int {
    if s == "" then 0 else Depth(s[..|s| - 1]) + Nesting(s[|s| - 1])
  }

  ghost predicate Balanced(s: string) {
    Depth(s) == 0 && forall k | 0 <= k <= |s| :: Depth(s[..k]) >= 0
  }

  /** The brace at `end` closes the initializer whose body begins at `start`. */
  ghost predicate ClosesAt(source: string, start: nat, end: nat) {
    start <= end < |source| && source[end] == '}' && Balanced(source[start..end])
  }

  /** The scan for the closing brace, `depth` braces deep at `i`. */
  function BodyEnd(source: string, depth: nat, i: nat): (r: Option<nat>)
    requires 1 <= depth && i <= |source|
    ensures r.Some? ==> i <= r.value < |source|
    decreases |source| - i
  {
    if i == |source| then None
    else if source[i] == '{' then BodyEnd(source, depth + 1, i + 1)
    else if source[i] == '}' then if depth == 1 then Some(i) else BodyEnd(source, depth - 1, i + 1)
    else BodyEnd(source, depth, i + 1)
  }

  function FindArrayBody(source: string, arrayName: string): Result<string, TextError> {
    match Find(source, arrayName, 0)
    case None => Err(ArrayNotFound(arrayName))
    case Some(offset) =>
      match Find(source, "{", offset)
      case None => Err(ArrayBodyNotFound(arrayName))
      case Some(brace) =>
        match BodyEnd(source, 1, brace + 1)
        case None => Err(ArrayBodyNotFound(arrayName))
        case Some(end) => Ok(source[brace + 1..end])
  }

  method FindArrayBodyLoop(source: string, arrayName: string) returns (r: Result<string, TextError>)
    ensures r == FindArrayBody(source, arrayName)
  {
    var offset := Find(source, arrayName, 0);
    if offset.None? {
      return Err(ArrayNotFound(arrayName));
    }
    var brace := Find(source, "{", offset.value);
    if brace.None? {
      return Err(ArrayBodyNotFound(arrayName));
    }
    var bodyStart, depth := brace.value + 1, 1;
    for i := bodyStart to |source|
      invariant 1 <= depth
      invariant BodyEnd(source, 1, bodyStart) == BodyEnd(source, depth, i)
    {
      if source[i] == '{' {
        depth := depth + 1;
      } else if source[i] == '}' {
        depth := depth - 1;
        if depth == 0 {
          return Ok(source[bodyStart..i]);
        }
      }
    }
    return Err(ArrayBodyNotFound(arrayName));
  }

  lemma DepthAppend(s: string, c: char)
    ensures Depth(s + [c]) == Depth(s) + Nesting(c)
  {
    assert (s + [c])[..|s|] == s;
  }

  lemma BalancedHere(source: string, start: nat, i: nat)
    requires start <= i <= |source| && Depth(source[start..i]) == 0
    requires forall k | start <= k <= i :: Depth(source[start..k]) >= 0
    ensures Balanced(source[start..i])
  {
    forall k | 0 <= k <= i - start
      ensures Depth(source[start..i][..k]) >= 0
    {
      assert source[start..i][..k] == source[start..start + k];
    }
  }

  /** No brace from `i` on closes a body that began at `start`. */
  ghost predicate NeverCloses(source: string, start: nat, i: nat) {
    forall e | i <= e :: !ClosesAt(source, start, e)
  }

  lemma ClosesHere(source: string, start: nat, i: nat)
    requires start <= i < |source| && 0 <= Depth(source[start..i])
    requires forall k | start <= k <= i :: Depth(source[start..k]) >= 0
    ensures ClosesAt(source, start, i) <==> source[i] == '}' && Depth(source[start..i]) == 0
    ensures Depth(source[start..i + 1]) == Depth(source[start..i]) + Nesting(source[i])
  {
    assert source[start..i + 1] == source[start..i] + [source[i]];
    DepthAppend(source[start..i], source[i]);
    if Depth(source[start..i]) == 0 {
      BalancedHere(source, start, i);
    }
  }

  lemma {:induction false} BodyEndCloses(source: string, start: nat, i: nat)
    requires start <= i <= |source| && 0 <= Depth(source[start..i])
    requires forall k | start <= k <= i :: Depth(source[start..k]) >= 0
    ensures var r := BodyEnd(source, 1 + Depth(source[start..i]), i);
            if r.Some? then ClosesAt(source, start, r.value) else NeverCloses(source, start, i)
    decreases |source| - i
  {
    if i < |source| {
      ClosesHere(source, start, i);
      if !(source[i] == '}' && Depth(source[start..i]) == 0) {
        BodyEndCloses(source, start, i + 1);
      }
    }
  }

  /** Two braces cannot both close the same initializer. */
  lemma {:induction false} ClosingBraceUnique(source: string, start: nat, e: nat, f: nat)
    requires ClosesAt(source, start, e) && ClosesAt(source, start, f)
    ensures e == f
  {
    if e < f {
      CloserIsFirst(source, start, e, f);
    } else if f < e {
      CloserIsFirst(source, start, f, e);
    }
  }

  lemma CloserIsFirst(source: string, start: nat, e: nat, f: nat)
    requires ClosesAt(source, start, e) && ClosesAt(source, start, f)
    ensures f <= e
  {
    if e < f {
      assert source[start..f][..e + 1 - start] == source[start..e] + [source[e]];
      DepthAppend(source[start..e], source[e]);
    }
  }

  /** The body of the array, if there is one, begins at `start`: right after the first opening brace at
      or after the first occurrence of the name. */
  predicate StartsAt(source: string, arrayName: string, start: nat) {
    var offset := Find(source, arrayName, 0);
    offset.Some? && Find(source, "{", offset.value) == Some(start - 1)
  }

  lemma BodyEndFromStart(source: string, start: nat)
    requires start <= |source|
    ensures var r := BodyEnd(source, 1, start);
            if r.Some? then ClosesAt(source, start, r.value) else NeverCloses(source, start, start)
  {
    assert source[start..start] == "";
    BodyEndCloses(source, start, start);
  }

  lemma NameMissing(source: string, arrayName: string)
    requires Find(source, arrayName, 0) == None
    ensures FindArrayBody(source, arrayName) == Err(ArrayNotFound(arrayName))
    ensures forall i :: !OccursAt(source, arrayName, i)
  {
  }

  lemma NoStart(source: string, arrayName: string, offset: nat)
    requires Find(source, arrayName, 0) == Some(offset) && Find(source, "{", offset) == None
    ensures FindArrayBody(source, arrayName) == Err(ArrayBodyNotFound(arrayName))
    ensures BodyMissing(source, arrayName)
  {
  }

  ghost predicate HasBody(source: string, arrayName: string, body: string) {
    exists start: nat, end: nat ::
      StartsAt(source, arrayName, start) && ClosesAt(source, start, end) && body == source[start..end]
  }

  ghost predicate BodyMissing(source: string, arrayName: string) {
    forall start: nat, end: nat :: !(StartsAt(source, arrayName, start) && ClosesAt(source, start, end))
  }

  /** From the one place the body can start, it is found if any brace closes it. */
  lemma BodyFromBrace(source: string, arrayName: string, offset: nat, brace: nat)
    requires Find(source, arrayName, 0) == Some(offset) && Find(source, "{", offset) == Some(brace)
    ensures var found := FindArrayBody(source, arrayName);
      if found.Ok? then HasBody(source, arrayName, found.value)
      else found.error == ArrayBodyNotFound(arrayName) && BodyMissing(source, arrayName)
  {
    BodyEndFromStart(source, brace + 1);
    assert StartsAt(source, arrayName, brace + 1);
  }

  /** What is found is the brace-balanced text at the array's start, and it is missed only when the name,
      the opening brace or the closing brace is missing. */
  lemma BodyIsBalanced(source: string, arrayName: string)
    ensures var found := FindArrayBody(source, arrayName);
      if found.Ok? then HasBody(source, arrayName, found.value)
      else if found.error.ArrayNotFound? then forall i :: !OccursAt(source, arrayName, i)
      else (exists i: nat :: OccursAt(source, arrayName, i)) && BodyMissing(source, arrayName)
  {
    var offset := Find(source, arrayName, 0);
    if offset.None? {
      NameMissing(source, arrayName);
    } else {
      assert OccursAt(source, arrayName, offset.value);
      var brace := Find(source, "{", offset.value);
      if brace.None? {
        NoStart(source, arrayName, offset.value);
      } else {
        BodyFromBrace(source, arrayName, offset.value, brace.value);
      }
    }
  }

  // ---------------------------------------------------------------- comments

  /** The text from the first newline on. */
  function AfterLine(s: string): (rest: string)
    ensures |rest| <= |s|
  {
    if s == "" || s[0] == '\n' then s else AfterLine(s[1..])
  }

  /** The text after the first star and slash in a row, `prev` being the character before `s`. */
  function AfterBlock(s: string, prev: char): (rest: string)
    ensures |rest| <= |s|
  {
    if s == "" then ""
    else if prev == '*' && s[0] == '/' then s[1..]
    else AfterBlock(s[1..], s[0])
  }

  function Strip(s: string): string
    decreases |s|
  {
    if s == "" then ""
    else if s[0] != '/' then [s[0]] + Strip(s[1..])
    else if |s| >= 2 && s[1] == '/' then Strip(AfterLine(s[2..]))
    else if |s| >= 2 && s[1] == '*' then Strip(AfterBlock(s[2..], '\0'))
    else [s[0]] + Strip(s[1..])
  }

  method SkipLine(chars: string) returns (rest: string)
    ensures rest == AfterLine(chars)
  {
    rest := chars;
    while rest != "" && rest[0] != '\n'
      invariant AfterLine(rest) == AfterLine(chars)
      decreases |rest|
    {
      rest := rest[1..];
    }
  }

  method SkipBlock(chars: string) returns (rest: string)
    ensures rest == AfterBlock(chars, '\0')
  {
    rest := chars;
    var prev := '\0';
    while rest != "" && !(prev == '*' && rest[0] == '/')
      invariant AfterBlock(rest, prev) == AfterBlock(chars, '\0')
      decreases |rest|
    {
      prev := rest[0];
      rest := rest[1..];
    }
    if rest != "" {
      rest := rest[1..];
    }
  }

  method StripCComments(source: string) returns (output: string)
    ensures output == Strip(source)
  {
    output := "";
    var chars := source;
    while chars != ""
      invariant Strip(source) == output + Strip(chars)
      decreases |chars|
    {
      var ch, rest := chars[0], chars[1..];
      if ch != '/' {
        output := output + [ch];
        chars := rest;
      } else if rest != "" && rest[0] == '/' {
        assert rest[1..] == chars[2..];
        chars := SkipLine(rest[1..]);
      } else if rest != "" && rest[0] == '*' {
        assert rest[1..] == chars[2..];
        chars := SkipBlock(rest[1..]);
      } else {
        output := output + [ch];
        chars := rest;
      }
    }
  }

  ghost predicate HasOpener(s: string) {
    exists i :: 0 <= i && i + 1 < |s| && s[i] == '/' && (s[i + 1] == '/' || s[i + 1] == '*')
  }

  /** Stripped text opens no comment, not even one pieced together from what a comment separated. */
  lemma {:induction false} StripLeavesNoOpener(s: string)
    ensures !HasOpener(Strip(s))
    decreases |s|
  {
    if s != "" {
      if |s| >= 2 && s[0] == '/' && s[1] == '/' {
        StripLeavesNoOpener(AfterLine(s[2..]));
      } else if |s| >= 2 && s[0] == '/' && s[1] == '*' {
        StripLeavesNoOpener(AfterBlock(s[2..], '\0'));
      } else {
        var rest := Strip(s[1..]);
        StripLeavesNoOpener(s[1..]);
        assert s[0] == '/' && |s| >= 2 ==> rest == [s[1]] + Strip(s[1..][1..]);
        assert Strip(s) == [s[0]] + rest;
        forall i | 0 <= i && i + 1 < |Strip(s)| && Strip(s)[i] == '/'
          ensures Strip(s)[i + 1] != '/' && Strip(s)[i + 1] != '*'
        {
          if i > 0 {
            assert Strip(s)[i] == rest[i - 1] && Strip(s)[i + 1] == rest[i];
          }
        }
      }
    }
  }

  lemma {:induction false} StripKeepsPlainText(s: string)
    requires !HasOpener(s)
    ensures Strip(s) == s
    decreases |s|
  {
    if s != "" {
      assert !(|s| >= 2 && s[0] == '/' && (s[1] == '/' || s[1] == '*')) by {
        assert 0 + 1 < |s| ==> s[0 + 1] == s[1];
      }
      forall i | 0 <= i && i + 1 < |s[1..]| && s[1..][i] == '/'
        ensures s[1..][i + 1] != '/' && s[1..][i + 1] != '*'
      {
        assert s[i + 1] == s[1..][i] && s[i + 1 + 1] == s[1..][i + 1];
      }
      StripKeepsPlainText(s[1..]);
      assert s == [s[0]] + s[1..];
    }
  }

  /** Stripping twice strips no more than once. */
  lemma StripIdempotent(s: string)
    ensures Strip(Strip(s)) == Strip(s)
  {
    StripLeavesNoOpener(s);
    StripKeepsPlainText(Strip(s));
  }

  // ---------------------------------------------------------------- literals

  predicate IsDigit(c: char) { '0' <= c <= '9' }

  predicate IsHex(c: char) { IsDigit(c) || 'a' <= c <= 'f' || 'A' <= c <= 'F' }

  function DigitValue(c: char): (d: nat)
    requires IsHex(c)
    ensures d < 16
  {
    if IsDigit(c) then (c - '0') as int
    else if 'a' <= c <= 'f' then (c - 'a') as int + 10
    else (c - 'A') as int + 10
  }

  function RadixValue(radix: nat, digits: string): nat
    requires forall i | 0 <= i < |digits| :: IsHex(digits[i])
  {
    if digits == "" then 0
    else RadixValue(radix, digits[..|digits| - 1]) * radix + DigitValue(digits[|digits| - 1])
  }

  const U32_LIMIT := 0x1_0000_0000

  /** The digits at the front of `s`, hexadecimal or decimal. */
  function DigitRun(s: string, hex: bool): (run: string)
    ensures |run| <= |s| && run == s[..|run|]
    ensures forall i | 0 <= i < |run| :: IsHex(run[i]) && (hex || IsDigit(run[i]))
    ensures s != "" && (if hex then IsHex(s[0]) else IsDigit(s[0])) ==> run != ""
  {
    if s == "" || !(if hex then IsHex(s[0]) else IsDigit(s[0])) then ""
    else [s[0]] + DigitRun(s[1..], hex)
  }

  predicate StartsHex(s: string) {
    |s| > 2 && s[0] == '0' && (s[1] == 'x' || s[1] == 'X') && IsHex(s[2])
  }

  function Prepend(v: nat, r: Result<seq<nat>, TextError>): Result<seq<nat>, TextError> {
    match r
    case Ok(values) => Ok([v] + values)
    case Err(e) => Err(e)
  }

  function Scan(s: string): Result<seq<nat>, TextError>
    decreases |s|
  {
    if s == "" then Ok([])
    else if StartsHex(s) then
      var digits := DigitRun(s[2..], true);
      if RadixValue(16, digits) >= U32_LIMIT then Err(InvalidNumber("0" + [s[1]] + digits))
      else Prepend(RadixValue(16, digits), Scan(s[2 + |digits|..]))
    else if IsDigit(s[0]) then
      var digits := DigitRun(s, false);
      if RadixValue(10, digits) >= U32_LIMIT then Err(InvalidNumber(digits))
      else Prepend(RadixValue(10, digits), Scan(s[|digits|..]))
    else Scan(s[1..])
  }

  method TakeDigits(text: string, hex: bool) returns (run: string)
    ensures run == DigitRun(text, hex)
  {
    var index := 0;
    while index < |text| && (if hex then IsHex(text[index]) else IsDigit(text[index]))
      invariant index <= |text|
      invariant |DigitRun(text, hex)| == index + |DigitRun(text[index..], hex)|
    {
      assert text[index..][1..] == text[index + 1..];
      index := index + 1;
    }
    return text[..index];
  }

  function PrependAll(values: seq<nat>, r: Result<seq<nat>, TextError>): Result<seq<nat>, TextError> {
    match r
    case Ok(more) => Ok(values + more)
    case Err(e) => Err(e)
  }

  lemma PrependNext(values: seq<nat>, v: nat, r: Result<seq<nat>, TextError>)
    ensures PrependAll(values, Prepend(v, r)) == PrependAll(values + [v], r)
  {
    if r.Ok? {
      assert values + ([v] + r.value) == (values + [v]) + r.value;
    }
  }

  method ScanU32Literals(source: string) returns (r: Result<seq<nat>, TextError>)
    ensures r == Scan(source)
  {
    var values: seq<nat>, text := [], source;
    assert Scan(source).Ok? ==> [] + Scan(source).value == Scan(source).value;
    while text != ""
      invariant Scan(source) == PrependAll(values, Scan(text))
      decreases |text|
    {
      if StartsHex(text) {
        var digits := TakeDigits(text[2..], true);
        var value := RadixValue(16, digits);
        if value >= U32_LIMIT {
          return Err(InvalidNumber("0" + [text[1]] + digits));
        }
        text := text[2 + |digits|..];
        PrependNext(values, value, Scan(text));
        values := values + [value];
      } else if IsDigit(text[0]) {
        var digits := TakeDigits(text, false);
        var value := RadixValue(10, digits);
        if value >= U32_LIMIT {
          return Err(InvalidNumber(digits));
        }
        text := text[|digits|..];
        PrependNext(values, value, Scan(text));
        values := values + [value];
      } else {
        text := text[1..];
      }
    }
    assert values + [] == values;
    return Ok(values);
  }

  function ParseU32Array(source: string, arrayName: string): Result<seq<nat>, TextError> {
    match FindArrayBody(source, arrayName)
    case Err(e) => Err(e)
    case Ok(body) =>
      match Scan(Strip(body))
      case Err(e) => Err(e)
      case Ok(values) =>
        if |values| % 2 != 0 then Err(OddValueCount(arrayName, |values|)) else Ok(values)
  }

  /** The first value above 255 is the one reported. */
  function AsBytes(arrayName: string, values: seq<nat>): Result<seq<nat>, TextError> {
    if values == [] then Ok([])
    else if values[0] >= 0x100 then Err(ByteOutOfRange(arrayName, values[0]))
    else Prepend(values[0], AsBytes(arrayName, values[1..]))
  }

  function ParseU8Array(source: string, arrayName: string): Result<seq<nat>, TextError> {
    match FindArrayBody(source, arrayName)
    case Err(e) => Err(e)
    case Ok(body) =>
      match Scan(Strip(body))
      case Err(e) => Err(e)
      case Ok(values) => AsBytes(arrayName, values)
  }
}
