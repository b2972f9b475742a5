/** The default Java harness: it prints int arrays as `[a,b,c]` and parses them, and reads its input line either as
    `name = value` pairs or as one array. Ints have 32 bits. */
module JavaHarness {
  import opened Common

  type Int32 = x: int | -0x8000_0000 <= x < 0x8000_0000

  datatype Exception = NumberFormat | StringIndexOutOfBounds | ArrayIndexOutOfBounds

  // ---- Decimal ----

  function DigitChar(d: nat): char
    requires d < 10
  {
    ('0' as int + d) as char
  }

  predicate IsDigit(c: char) { '0' <= c <= '9' }

  /** The rows of 16 characters whose first ten are the other decimal digits of 16 bits in Unicode 15, and those whose
      last ten are. */
  predicate DigitsFirst(row: nat) {
    || row == 0x066 || row == 0x06F || row == 0x07C || row == 0x0E5 || row == 0x0ED || row == 0x0F2 || row == 0x104
    || row == 0x109 || row == 0x17E || row == 0x181 || row == 0x19D || row == 0x1A8 || row == 0x1A9
    || row == 0x1B5 || row == 0x1BB || row == 0x1C4 || row == 0x1C5 || row == 0xA62 || row == 0xA8D
    || row == 0xA90 || row == 0xA9D || row == 0xA9F || row == 0xAA5 || row == 0xABF || row == 0xFF1
  }

  predicate DigitsLast(row: nat) {
    || row == 0x096 || row == 0x09E || row == 0x0A6 || row == 0x0AE || row == 0x0B6
    || row == 0x0BE || row == 0x0C6 || row == 0x0CE || row == 0x0D6 || row == 0x0DE || row == 0x194
  }

  /** Character.digit for radix 10. */
  function DigitOf(c: char): (d: Option<nat>)
    ensures IsDigit(c) ==> d == Some(c as int - '0' as int)
    ensures d.Some? ==> d.value < 10
    ensures c < '\U{0660}' && !IsDigit(c) ==> d == None
  {
    var row, column := c as int / 16, c as int % 16;
    if IsDigit(c) then Some(c as int - '0' as int)
    else if column < 10 && DigitsFirst(row) then Some(column)
    else if column >= 6 && DigitsLast(row) then Some(column - 6)
    else None
  }

  function Digits(n: nat): string {
    if n < 10 then [DigitChar(n)] else Digits(n / 10) + [DigitChar(n % 10)]
  }

  /** System.out.print of an int. */
  function Decimal(x: int): string { if x < 0 then "-" + Digits(-x) else Digits(x) }

  function DigitsValue(s: string): Option<nat> {
    if s == [] then Some(0)
    else
      var high, digit := DigitsValue(s[..|s| - 1]), DigitOf(s[|s| - 1]);
      if high.None? || digit.None? then None else Some(10 * high.value + digit.value)
  }

  function Signed(negative: bool, digits: string): Result<Int32, Exception> {
    var n := DigitsValue(digits);
    if digits == [] || n.None? then Err(NumberFormat)
    else
      var magnitude: int := n.value;
      var x := if negative then -magnitude else magnitude;
      if -0x8000_0000 <= x < 0x8000_0000 then Ok(x) else Err(NumberFormat)
  }

  /** Integer.parseInt. */
  function ParseInt(s: string): Result<Int32, Exception> {
    if s == [] then Err(NumberFormat)
    else if s[0] == '-' then Signed(true, s[1..])
    else if s[0] == '+' then Signed(false, s[1..])
    else Signed(false, s)
  }

  lemma {:induction false} DigitsHaveValue(n: nat)
    ensures Digits(n) != [] && DigitsValue(Digits(n)) == Some(n)
    ensures forall i :: 0 <= i < |Digits(n)| ==> IsDigit(Digits(n)[i])
  {
    var s := Digits(n);
    if n >= 10 {
      DigitsHaveValue(n / 10);
      assert s[..|s| - 1] == Digits(n / 10);
    } else {
      assert s[..0] == [];
    }
  }

  /** Every int survives being printed and parsed, and its text holds only digits and perhaps a sign. */
  lemma DecimalRoundTrip(x: Int32)
    ensures ParseInt(Decimal(x)) == Ok(x)
    ensures Decimal(x) != [] && IsDigit(Decimal(x)[|Decimal(x)| - 1])
    ensures forall i :: 0 <= i < |Decimal(x)| ==> IsDigit(Decimal(x)[i]) || Decimal(x)[i] == '-'
  {
    var n := Abs(x);
    var digits, s := Digits(n), Decimal(x);
    DigitsHaveValue(n);
    if x < 0 {
      assert s == ['-'] + digits && s[1..] == digits;
      assert ParseInt(s) == Signed(true, digits);
    } else {
      assert s == digits && IsDigit(s[0]);
      assert ParseInt(s) == Signed(false, digits);
    }
  }

  // ---- Splitting ----

  /** String.trim removes the characters up to the space. */
  predicate IsControl(c: char) { c <= ' ' }

  function JavaTrim(s: string): string { Trim(IsControl, s) }

  function Pieces(s: string, separator: char): (r: seq<string>)
    ensures r != []
  {
    if s == [] then [[]]
    else
      var rest := Pieces(s[1..], separator);
      if s[0] == separator then [[]] + rest else [[s[0]] + rest[0]] + rest[1..]
  }

  function DropTrailingEmpty(parts: seq<string>): seq<string> {
    if parts != [] && parts[|parts| - 1] == [] then DropTrailingEmpty(parts[..|parts| - 1]) else parts
  }

  /** String.split by a character: trailing empty pieces are dropped, and a string without the character is itself the
      only piece. */
  function Split(s: string, separator: char): seq<string> {
    if separator !in s then [s] else DropTrailingEmpty(Pieces(s, separator))
  }

  lemma {:induction false} PiecesOfOne(s: string, separator: char)
    requires separator !in s
    ensures Pieces(s, separator) == [s]
  {
    if s != [] {
      PiecesOfOne(s[1..], separator);
      assert [s[0]] + s[1..] == s;
    }
  }

  lemma {:induction false} PiecesOfMore(first: string, separator: char, rest: string)
    requires separator !in first
    ensures Pieces(first + [separator] + rest, separator) == [first] + Pieces(rest, separator)
  {
    var s := first + [separator] + rest;
    if first == [] {
      assert s[1..] == rest;
    } else {
      assert s[1..] == first[1..] + [separator] + rest;
      PiecesOfMore(first[1..], separator, rest);
      assert [first[0]] + first[1..] == first;
    }
  }

  // ---- Arrays ----

  function Join(parts: seq<string>): string {
    if parts == [] then [] else if |parts| == 1 then parts[0] else parts[0] + "," + Join(parts[1..])
  }

  function Decimals(a: seq<Int32>): seq<string> { seq(|a|, i requires 0 <= i < |a| => Decimal(a[i])) }

  /** What printResult writes for an int array. */
  function Printed(a: seq<Int32>): string { "[" + Join(Decimals(a)) + "]" }

  /** The text between the brackets; the last character is dropped whatever it is. */
  function Unbracketed(s: string): Result<string, Exception> {
    if s != [] && s[0] == '[' then
      if |s| == 1 then Err(StringIndexOutOfBounds) else Ok(s[1..|s| - 1])
    else Ok(s)
  }

  function ParseAll(elements: seq<string>): Result<seq<Int32>, Exception> {
    if elements == [] then Ok([])
    else
      var init := ParseAll(elements[..|elements| - 1]);
      if init.Err? then init
      else
        match ParseInt(JavaTrim(elements[|elements| - 1]))
        case Ok(x) => Ok(init.value + [x])
        case Err(e) => Err(e)
  }

  function ParsedIntArray(s: string): Result<seq<Int32>, Exception> {
    match Unbracketed(JavaTrim(s))
    case Err(e) => Err(e)
    case Ok(inner) => ParseAll(Split(inner, ','))
  }

  lemma PlainTrims(s: string)
    requires s != [] ==> !IsControl(s[0]) && !IsControl(s[|s| - 1])
    ensures JavaTrim(s) == s
  {
    TrimIsTheCore(IsControl, [], s, []);
    assert [] + s + [] == s;
  }

  predicate NoCommas(parts: seq<string>) { forall i :: 0 <= i < |parts| ==> ',' !in parts[i] }

  lemma {:induction false} PiecesOfJoin(parts: seq<string>)
    requires parts != [] && NoCommas(parts)
    ensures Pieces(Join(parts), ',') == parts
  {
    if |parts| == 1 {
      PiecesOfOne(parts[0], ',');
    } else {
      PiecesOfJoin(parts[1..]);
      PiecesOfMore(parts[0], ',', Join(parts[1..]));
    }
  }

  lemma SplitOfJoin(parts: seq<string>)
    requires parts != [] && NoCommas(parts) && parts[|parts| - 1] != []
    ensures Split(Join(parts), ',') == parts
  {
    PiecesOfJoin(parts);
    if ',' !in Join(parts) {
      PiecesOfOne(Join(parts), ',');
    }
  }

  lemma DecimalsAreClean(a: seq<Int32>)
    ensures NoCommas(Decimals(a))
    ensures forall i :: 0 <= i < |a| ==>
              Decimals(a)[i] != [] && JavaTrim(Decimals(a)[i]) == Decimals(a)[i] && ParseInt(Decimals(a)[i]) == Ok(a[i])
  {
    forall i | 0 <= i < |a|
      ensures ',' !in Decimals(a)[i] && Decimals(a)[i] != []
      ensures JavaTrim(Decimals(a)[i]) == Decimals(a)[i] && ParseInt(Decimals(a)[i]) == Ok(a[i])
    {
      DecimalRoundTrip(a[i]);
      PlainTrims(Decimal(a[i]));
    }
  }

  lemma {:induction false} ParseAllDecimals(a: seq<Int32>)
    ensures ParseAll(Decimals(a)) == Ok(a)
  {
    if a != [] {
      var n := |a| - 1;
      assert Decimals(a)[..n] == Decimals(a[..n]);
      ParseAllDecimals(a[..n]);
      DecimalsAreClean(a);
      assert a[..n] + [a[n]] == a;
    }
  }

  /** Printing and parsing undo each other on every array but the empty one, whose text the parser rejects. */
  lemma ArrayRoundTripIff(a: seq<Int32>)
    ensures ParsedIntArray(Printed(a)) == Ok(a) <==> a != []
    ensures a == [] ==> ParsedIntArray(Printed(a)) == Err(NumberFormat)
  {
    var s := Printed(a);
    PlainTrims(s);
    assert s[1..|s| - 1] == Join(Decimals(a));
    if a == [] {
      EmptyTextFails();
    } else {
      DecimalsAreClean(a);
      SplitOfJoin(Decimals(a));
      ParseAllDecimals(a);
    }
  }

  lemma EmptyTextFails()
    ensures ParseAll(Split([], ',')) == Err(NumberFormat)
  {
    var parts: seq<string> := [[]];
    assert Split([], ',') == parts;
    assert parts[..0] == [];
    PlainTrims([]);
  }

  // ---- The input line ----

  datatype Value = Ints(a: seq<Int32>) | Int(x: Int32) | Text(s: string)

  /** What parseInput makes of a line: the two named values, all values of the pairs, one array, or the line. */
  datatype Input =
    | NumsAndTarget(nums: Value, target: Value)
    | Values(pairs: map<string, Value>)
    | OneArray(a: seq<Int32>)
    | Line(s: string)

  function ParseValue(value: string): Result<Value, Exception> {
    if value != [] && value[0] == '[' && value[|value| - 1] == ']' then
      match ParsedIntArray(value)
      case Ok(a) => Ok(Ints(a))
      case Err(e) => Err(e)
    else
      match ParseInt(value)
      case Ok(x) => Ok(Int(x))
      case Err(_) => Ok(Text(value))
  }

  function ParsePairs(parts: seq<string>): Result<map<string, Value>, Exception> {
    if parts == [] then Ok(map[])
    else
      var init := ParsePairs(parts[..|parts| - 1]);
      if init.Err? then init
      else
        var keyValue := Split(parts[|parts| - 1], '=');
        if |keyValue| < 2 then Err(ArrayIndexOutOfBounds)
        else
          match ParseValue(JavaTrim(keyValue[1]))
          case Ok(v) => Ok(init.value[JavaTrim(keyValue[0]) := v])
          case Err(e) => Err(e)
  }

  function FromPairs(pairs: map<string, Value>): Input {
    if "nums" in pairs && "target" in pairs then NumsAndTarget(pairs["nums"], pairs["target"]) else Values(pairs)
  }

  function ParsedInput(input: string): Result<Input, Exception> {
    if '=' in input then
      match ParsePairs(Split(input, ','))
      case Ok(pairs) => Ok(FromPairs(pairs))
      case Err(e) => Err(e)
    else if input != [] && input[0] == '[' && input[|input| - 1] == ']' then
      match ParsedIntArray(input)
      case Ok(a) => Ok(OneArray(a))
      case Err(e) => Err(e)
    else Ok(Line(input))
  }

  /** The values of the pairs, one for each key, in some order of the keys: a HashMap specifies none. */
  ghost predicate Enumerates(pairs: map<string, Value>, objects: seq<Value>) {
    exists keys: seq<string> {:trigger Lists(pairs, keys, objects)} :: Lists(pairs, keys, objects)
  }

  ghost predicate Lists(pairs: map<string, Value>, keys: seq<string>, objects: seq<Value>) {
    && |keys| == |objects|
    && (forall i, j :: 0 <= i < j < |keys| ==> keys[i] != keys[j])
    && (forall k :: k in pairs ==> k in keys)
    && (forall i :: 0 <= i < |keys| ==> keys[i] in pairs && objects[i] == pairs[keys[i]])
  }

  lemma {:induction false} DropTrailingKeeps(parts: seq<string>, n: nat)
    requires 0 < n <= |parts| && parts[n - 1] != []
    ensures n <= |DropTrailingEmpty(parts)| && DropTrailingEmpty(parts)[..n] == parts[..n]
  {
    if parts[|parts| - 1] == [] {
      DropTrailingKeeps(parts[..|parts| - 1], n);
      assert parts[..|parts| - 1][..n] == parts[..n];
    }
  }

  lemma SplitInTwo(first: string, separator: char, second: string)
    requires separator !in first && separator !in second && second != []
    ensures Split(first + [separator] + second, separator) == [first, second]
  {
    var s := first + [separator] + second;
    assert s[|first|] == separator;
    PiecesOfMore(first, separator, second);
    PiecesOfOne(second, separator);
    DropTrailingKeeps([first, second], 2);
  }

  lemma SplitStarts(first: string, second: string, rest: string)
    requires ',' !in first && ',' !in second && second != []
    ensures var parts := Split(first + "," + (second + "," + rest), ',');
      |parts| >= 2 && parts[0] == first && parts[1] == second
  {
    var s := first + "," + (second + "," + rest);
    assert s[|first|] == ',';
    PiecesOfMore(first, ',', second + "," + rest);
    PiecesOfMore(second, ',', rest);
    var parts := Pieces(s, ',');
    assert parts[0] == first && parts[1] == second;
    DropTrailingKeeps(parts, 2);
    assert parts[..2] == [first, second];
    assert DropTrailingEmpty(parts)[..2][0] == first && DropTrailingEmpty(parts)[..2][1] == second;
  }

  lemma {:induction false} PairsFailFrom(parts: seq<string>, n: nat)
    requires n <= |parts| && ParsePairs(parts[..n]).Err?
    ensures ParsePairs(parts) == ParsePairs(parts[..n])
  {
    if n == |parts| {
      assert parts[..n] == parts;
    } else {
      assert parts[..|parts| - 1][..n] == parts[..n];
      PairsFailFrom(parts[..|parts| - 1], n);
    }
  }

  /** The documented input line for an array and a target. */
  function TwoSumLine(a: seq<Int32>, target: Int32): string {
    "nums = " + Printed(a) + ", target = " + Decimal(target)
  }

  lemma TargetPair(target: Int32)
    ensures var s := " target = " + Decimal(target);
      ',' !in s && Split(s, '=') == [" target ", " " + Decimal(target)]
    ensures JavaTrim(" target ") == "target" && JavaTrim(" " + Decimal(target)) == Decimal(target)
    ensures ParseValue(Decimal(target)) == Ok(Int(target))
  {
    DecimalRoundTrip(target);
    var d := Decimal(target);
    assert " target = " + d == " target " + ['='] + (" " + d);
    SplitInTwo(" target ", '=', " " + d);
    TrimIsTheCore(IsControl, " ", "target", " ");
    assert " " + "target" + " " == " target ";
    TrimIsTheCore(IsControl, " ", d, "");
    assert " " + d + "" == " " + d;
  }

  lemma NumsPair(value: string)
    requires value != [] && value[0] == '[' && !IsControl(value[|value| - 1]) && '=' !in value
    ensures Split("nums = " + value, '=') == ["nums ", " " + value]
    ensures JavaTrim("nums ") == "nums" && JavaTrim(" " + value) == value
  {
    assert "nums = " + value == "nums " + ['='] + (" " + value);
    SplitInTwo("nums ", '=', " " + value);
    TrimIsTheCore(IsControl, "", "nums", " ");
    assert "" + "nums" + " " == "nums ";
    TrimIsTheCore(IsControl, " ", value, "");
    assert " " + value + "" == " " + value;
  }

  lemma LineOfTwoParts(a: seq<Int32>, target: Int32)
    requires ',' !in Printed(a)
    ensures var first, second := "nums = " + Printed(a), " target = " + Decimal(target);
      '=' in TwoSumLine(a, target) && Split(TwoSumLine(a, target), ',') == [first, second]
  {
    var first, second := "nums = " + Printed(a), " target = " + Decimal(target);
    assert ", target = " == [','] + " target = ";
    assert TwoSumLine(a, target) == first + [','] + second;
    assert first[5] == '=' && TwoSumLine(a, target)[5] == '=';
    TargetPair(target);
    SplitInTwo(first, ',', second);
  }

  lemma TextOfOne(x: Int32)
    ensures Printed([x]) == "[" + Decimal(x) + "]"
    ensures ',' !in Printed([x]) && '=' !in Printed([x])
  {
    DecimalRoundTrip(x);
    assert Decimals([x]) == [Decimal(x)];
  }

  lemma PairOfOne(x: Int32)
    ensures ParsePairs(["nums = " + Printed([x])]) == Ok(map["nums" := Ints([x])])
  {
    TextOfOne(x);
    NumsPair(Printed([x]));
    ArrayRoundTripIff([x]);
    assert ParseValue(Printed([x])) == Ok(Ints([x]));
    assert ["nums = " + Printed([x])][..0] == [];
  }

  lemma SecondPair(first: string, second: string, pairs: map<string, Value>, key: string, text: string, value: Value)
    requires ParsePairs([first]) == Ok(pairs)
    requires Split(second, '=') == [key, text] && ParseValue(JavaTrim(text)) == Ok(value)
    ensures ParsePairs([first, second]) == Ok(pairs[JavaTrim(key) := value])
  {
    assert [first, second][..1] == [first];
  }

  lemma InputOfPairs(line: string, parts: seq<string>)
    requires '=' in line && Split(line, ',') == parts
    ensures ParsedInput(line) == match ParsePairs(parts) case Ok(pairs) => Ok(FromPairs(pairs)) case Err(e) => Err(e)
  {
  }

  lemma InputOfTwoPairs(line: string, first: string, second: string, pairs: map<string, Value>,
                        key: string, text: string, value: Value)
    requires '=' in line && Split(line, ',') == [first, second]
    requires ParsePairs([first]) == Ok(pairs)
    requires Split(second, '=') == [key, text] && ParseValue(JavaTrim(text)) == Ok(value)
    ensures ParsedInput(line) == Ok(FromPairs(pairs[JavaTrim(key) := value]))
  {
    SecondPair(first, second, pairs, key, text, value);
    InputOfPairs(line, [first, second]);
  }

  /** With one element the line is read as it is meant. */
  lemma OneElementIsRead(x: Int32, target: Int32)
    ensures ParsedInput(TwoSumLine([x], target)) == Ok(NumsAndTarget(Ints([x]), Int(target)))
  {
    TextOfOne(x);
    LineOfTwoParts([x], target);
    PairOfOne(x);
    TargetPair(target);
    InputOfTwoPairs(TwoSumLine([x], target), "nums = " + Printed([x]), " target = " + Decimal(target),
                    map["nums" := Ints([x])], " target ", " " + Decimal(target), Int(target));
  }

  lemma PairOfNone()
    ensures ',' !in Printed([]) && ParsePairs(["nums = " + Printed([])]) == Err(NumberFormat)
  {
    var value := Printed([]);
    assert value == ['[', ']'];
    NumsPair(value);
    ArrayRoundTripIff([]);
    assert ["nums = " + value][..0] == [];
  }

  /** With no element the array text itself is rejected. */
  lemma NoElementFails(target: Int32)
    ensures ParsedInput(TwoSumLine([], target)) == Err(NumberFormat)
  {
    var parts := ["nums = " + Printed([]), " target = " + Decimal(target)];
    PairOfNone();
    LineOfTwoParts([], target);
    assert parts[..1] == ["nums = " + Printed([])];
    PairsFailFrom(parts, 1);
    InputOfPairs(TwoSumLine([], target), parts);
  }

  lemma {:induction false} NonDigitHasNoValue(s: string, i: nat)
    requires i < |s| && DigitOf(s[i]) == None
    ensures DigitsValue(s) == None
  {
    if i < |s| - 1 {
      NonDigitHasNoValue(s[..|s| - 1], i);
    }
  }

  lemma CutValueIsText(x: Int32)
    ensures ParseValue("[" + Decimal(x)) == Ok(Text("[" + Decimal(x)))
  {
    var value := "[" + Decimal(x);
    DecimalRoundTrip(x);
    assert IsDigit(value[|value| - 1]);
    NonDigitHasNoValue(value, 0);
  }

  lemma CutPair(x: Int32)
    ensures var first := "nums = [" + Decimal(x);
      ',' !in first && ParsePairs([first]) == Ok(map["nums" := Text("[" + Decimal(x))])
  {
    var first, value := "nums = [" + Decimal(x), "[" + Decimal(x);
    DecimalRoundTrip(x);
    assert first == "nums = " + value;
    NumsPair(value);
    CutValueIsText(x);
    assert [first][..0] == [];
  }

  lemma LineInPieces(ds: seq<string>, d: string) returns (second: string, rest: string)
    requires |ds| >= 2 && ',' !in ds[1] && '=' !in ds[1] && ds[1] != []
    ensures ',' !in second && '=' !in second && second != []
    ensures "nums = " + ("[" + Join(ds) + "]") + ", target = " + d == "nums = [" + ds[0] + "," + (second + "," + rest)
  {
    var tail := " target = " + d;
    if |ds| == 2 {
      second, rest := ds[1] + "]", tail;
      assert Join(ds[1..]) == ds[1];
    } else {
      second, rest := ds[1], Join(ds[2..]) + "]" + "," + tail;
      assert ds[1..][1..] == ds[2..];
      assert Join(ds[1..]) == ds[1] + "," + Join(ds[2..]);
    }
    assert Join(ds) == ds[0] + "," + Join(ds[1..]);
    assert ", target = " + d == "," + tail;
    assert "nums = " + "[" == "nums = [";
    assert Join(ds[1..]) + "]" + "," + tail == second + "," + rest;
    Regroup("nums = ", ds[0], Join(ds[1..]), ", target = " + d);
  }

  lemma Regroup(name: string, first: string, others: string, end: string)
    ensures name + ("[" + (first + "," + others) + "]") + end == name + "[" + first + "," + (others + "]" + end)
  {
  }

  lemma SecondPiece(a: seq<Int32>, target: Int32) returns (second: string, rest: string)
    requires |a| >= 2
    ensures ',' !in second && '=' !in second && second != []
    ensures TwoSumLine(a, target) == "nums = [" + Decimal(a[0]) + "," + (second + "," + rest)
  {
    DecimalRoundTrip(a[1]);
    second, rest := LineInPieces(Decimals(a), Decimal(target));
  }

  /** With two or more the line is cut inside the brackets, and the second piece has no `=`. */
  lemma MoreElementsFail(a: seq<Int32>, target: Int32)
    requires |a| >= 2
    ensures ParsedInput(TwoSumLine(a, target)) == Err(ArrayIndexOutOfBounds)
  {
    var first := "nums = [" + Decimal(a[0]);
    var second, rest := SecondPiece(a, target);
    CutPair(a[0]);
    assert first[5] == '=' && TwoSumLine(a, target)[5] == '=';
    SplitStarts(first, second, rest);
    var parts := Split(TwoSumLine(a, target), ',');
    assert parts[..2] == [first, second] && [first, second][..1] == [first];
    assert ParsePairs(parts[..2]) == Err(ArrayIndexOutOfBounds);
    PairsFailFrom(parts, 2);
  }

  /** The documented line is read as the array and the target it names if and only if the array has one element; in
      every other case the harness throws. */
  lemma TwoSumLineIsReadIff(a: seq<Int32>, target: Int32)
    ensures ParsedInput(TwoSumLine(a, target)) == Ok(NumsAndTarget(Ints(a), Int(target))) <==> |a| == 1
    ensures a == [] ==> ParsedInput(TwoSumLine(a, target)) == Err(NumberFormat)
    ensures |a| >= 2 ==> ParsedInput(TwoSumLine(a, target)) == Err(ArrayIndexOutOfBounds)
  {
    if a == [] {
      NoElementFails(target);
    } else if |a| == 1 {
      assert a == [a[0]];
      OneElementIsRead(a[0], target);
    } else {
      MoreElementsFail(a, target);
    }
  }

  // ---- The harness's loops ----

  method PrintResult(a: array<Int32>) returns (out: string)
    ensures out == Printed(a[..])
  {
    ghost var ds := Decimals(a[..]);
    out := "[";
    for i := 0 to a.Length
      invariant i < a.Length ==> out + Join(ds[i..]) == "[" + Join(ds)
      invariant i == a.Length ==> out == "[" + Join(ds)
    {
      assert i < a.Length - 1 ==> Join(ds[i..]) == ds[i] + "," + Join(ds[i + 1..]) by {
        assert ds[i..][1..] == ds[i + 1..];
      }
      out := out + Decimal(a[i]);
      if i < a.Length - 1 {
        out := out + ",";
      }
    }
    out := out + "]";
  }

  lemma NextElement(elements: seq<string>, i: nat, before: seq<Int32>)
    requires i < |elements| && ParseAll(elements[..i]) == Ok(before)
    ensures match ParseInt(JavaTrim(elements[i]))
      case Ok(x) => ParseAll(elements[..i + 1]) == Ok(before + [x])
      case Err(e) => ParseAll(elements[..i + 1]) == Err(e)
  {
    assert elements[..i + 1][..i] == elements[..i];
  }

  /** The loop of parseIntArray over the elements. */
  method ParseElements(elements: seq<string>) returns (r: Result<seq<Int32>, Exception>)
    ensures r == ParseAll(elements)
  {
    var result := new Int32[|elements|](_ => 0);
    for i := 0 to |elements|
      invariant ParseAll(elements[..i]) == Ok(result[..i])
    {
      NextElement(elements, i, result[..i]);
      match ParseInt(JavaTrim(elements[i])) {
        case Ok(x) =>
          result[i] := x;
          assert result[..i + 1] == result[..i] + [x];
        case Err(e) =>
          ParseAllFailsFrom(elements, i + 1);
          return Err(e);
      }
    }
    assert elements[..|elements|] == elements && result[..|elements|] == result[..];
    return Ok(result[..]);
  }

  method ParseIntArray(arrayStr: string) returns (r: Result<seq<Int32>, Exception>)
    ensures r == ParsedIntArray(arrayStr)
  {
    var s := JavaTrim(arrayStr);
    if s != [] && s[0] == '[' {
      if |s| == 1 {
        return Err(StringIndexOutOfBounds);
      }
      s := s[1..|s| - 1];
    }
    r := ParseElements(Split(s, ','));
  }

  lemma {:induction false} ParseAllFailsFrom(elements: seq<string>, n: nat)
    requires n <= |elements| && ParseAll(elements[..n]).Err?
    ensures ParseAll(elements) == ParseAll(elements[..n])
  {
    if n == |elements| {
      assert elements[..n] == elements;
    } else {
      assert elements[..|elements| - 1][..n] == elements[..n];
      ParseAllFailsFrom(elements[..|elements| - 1], n);
    }
  }

  /** The value of one pair. */
  method ReadValue(value: string) returns (r: Result<Value, Exception>)
    ensures r == ParseValue(value)
  {
    if value != [] && value[0] == '[' && value[|value| - 1] == ']' {
      var a := ParseIntArray(value);
      return match a case Ok(ints) => Ok(Ints(ints)) case Err(e) => Err(e);
    }
    return match ParseInt(value) case Ok(x) => Ok(Int(x)) case Err(_) => Ok(Text(value));
  }

  lemma NextPair(parts: seq<string>, i: nat, before: map<string, Value>)
    requires i < |parts| && ParsePairs(parts[..i]) == Ok(before)
    ensures var keyValue, next := Split(parts[i], '='), ParsePairs(parts[..i + 1]);
      if |keyValue| < 2 then next == Err(ArrayIndexOutOfBounds)
      else match ParseValue(JavaTrim(keyValue[1]))
        case Ok(v) => next == Ok(before[JavaTrim(keyValue[0]) := v])
        case Err(e) => next == Err(e)
  {
    assert parts[..i + 1][..i] == parts[..i];
  }

  method ReadPairs(parts: seq<string>) returns (r: Result<map<string, Value>, Exception>)
    ensures r == ParsePairs(parts)
  {
    var keyValuePairs: map<string, Value> := map[];
    for i := 0 to |parts|
      invariant ParsePairs(parts[..i]) == Ok(keyValuePairs)
    {
      NextPair(parts, i, keyValuePairs);
      var keyValue := Split(parts[i], '=');
      if |keyValue| < 2 {
        PairsFailFrom(parts, i + 1);
        return Err(ArrayIndexOutOfBounds);
      }
      var key, value := JavaTrim(keyValue[0]), JavaTrim(keyValue[1]);
      var parsed := ReadValue(value);
      if parsed.Err? {
        PairsFailFrom(parts, i + 1);
        return Err(parsed.error);
      }
      keyValuePairs := keyValuePairs[key := parsed.value];
    }
    assert parts[..|parts|] == parts;
    return Ok(keyValuePairs);
  }

  /** values().toArray of a HashMap. */
  method ValuesOf(pairs: map<string, Value>) returns (objects: seq<Value>)
    ensures Enumerates(pairs, objects)
  {
    objects := [];
    ghost var keys: seq<string> := [];
    var rest := pairs.Keys;
    while rest != {}
      invariant rest <= pairs.Keys && forall k :: k in pairs ==> k in rest || k in keys
      invariant |keys| == |objects|
      invariant forall i, j :: 0 <= i < j < |keys| ==> keys[i] != keys[j]
      invariant forall i :: 0 <= i < |keys| ==> keys[i] in pairs && keys[i] !in rest && objects[i] == pairs[keys[i]]
      decreases rest
    {
      var key :| key in rest;
      objects, keys := objects + [pairs[key]], keys + [key];
      rest := rest - {key};
    }
    assert Lists(pairs, keys, objects);
  }

  /** parseInput. */
  method ParseInput(input: string) returns (r: Result<seq<Value>, Exception>)
    ensures match ParsedInput(input)
      case Ok(NumsAndTarget(nums, target)) => r == Ok([nums, target])
      case Ok(Values(pairs)) => r.Ok? && Enumerates(pairs, r.value)
      case Ok(OneArray(a)) => r == Ok([Ints(a)])
      case Ok(Line(s)) => r == Ok([Text(s)])
      case Err(e) => r == Err(e)
  {
    if '=' in input {
      var pairs := ReadPairs(Split(input, ','));
      if pairs.Err? {
        return Err(pairs.error);
      }
      if "nums" in pairs.value && "target" in pairs.value {
        return Ok([pairs.value["nums"], pairs.value["target"]]);
      }
      var objects := ValuesOf(pairs.value);
      return Ok(objects);
    }
    if input != [] && input[0] == '[' && input[|input| - 1] == ']' {
      var a := ParseIntArray(input);
      return match a case Ok(ints) => Ok([Ints(ints)]) case Err(e) => Err(e);
    }
    return Ok([Text(input)]);
  }
}
