/** What the texts of the Java harness are, said without its splitting and folding: which strings are ints and with what
    value, which texts are arrays, and which lines are pairs of a name and a value. */
module JavaLines {
  import opened Common
  import opened JavaHarness

  // ---- Ints ----

  lemma RowOfDigits(row: nat)
    ensures DigitsFirst(row) <==>
            (var zero := 16 * row;
             || zero == 0x06F0 || zero == 0x07C0 || zero == 0x0E50 || zero == 0x0ED0 || zero == 0x0F20 || zero == 0x1040
             || zero == 0x1090 || zero == 0x17E0 || zero == 0x1810 || zero == 0x19D0 || zero == 0x1A80 || zero == 0x1A90
             || zero == 0x1B50 || zero == 0x1BB0 || zero == 0x1C40 || zero == 0x1C50 || zero == 0xA620 || zero == 0xA8D0
             || zero == 0xA900 || zero == 0xA9D0 || zero == 0xA9F0 || zero == 0xAA50 || zero == 0xABF0 || zero == 0xFF10
             || zero == 0x0660)
    ensures DigitsLast(row) <==>
            (var zero := 16 * row + 6;
             || zero == 0x0966 || zero == 0x09E6 || zero == 0x0A66 || zero == 0x0AE6 || zero == 0x0B66 || zero == 0x0BE6
             || zero == 0x0C66 || zero == 0x0CE6 || zero == 0x0D66 || zero == 0x0DE6 || zero == 0x1946)
  {
  }

  /** The 37 zeros of the decimal digits of 16 bits. */
  predicate IsZero(zero: int) {
    || zero == 0x0030 || zero == 0x0660 || zero == 0x06F0 || zero == 0x07C0 || zero == 0x0966 || zero == 0x09E6
    || zero == 0x0A66 || zero == 0x0AE6 || zero == 0x0B66 || zero == 0x0BE6 || zero == 0x0C66 || zero == 0x0CE6
    || zero == 0x0D66 || zero == 0x0DE6 || zero == 0x0E50 || zero == 0x0ED0 || zero == 0x0F20 || zero == 0x1040
    || zero == 0x1090 || zero == 0x17E0 || zero == 0x1810 || zero == 0x1946 || zero == 0x19D0 || zero == 0x1A80
    || zero == 0x1A90 || zero == 0x1B50 || zero == 0x1BB0 || zero == 0x1C40 || zero == 0x1C50 || zero == 0xA620
    || zero == 0xA8D0 || zero == 0xA900 || zero == 0xA9D0 || zero == 0xA9F0 || zero == 0xAA50 || zero == 0xABF0
    || zero == 0xFF10
  }

  /** A character is the decimal digit `v` if and only if it comes `v` places, at most 9, after a zero. */
  lemma DigitIs(c: char, v: nat)
    ensures DigitOf(c) == Some(v) <==> v < 10 && IsZero(c as int - v)
  {
    if v < 10 && IsZero(c as int - v) {
      ZeroGivesDigit(c, v);
    }
    if DigitOf(c) == Some(v) {
      DigitHasZero(c, v);
    }
  }

  lemma ZeroGivesDigit(c: char, v: nat)
    requires v < 10 && IsZero(c as int - v)
    ensures DigitOf(c) == Some(v)
  {
    var zero := c as int - v;
    if zero % 16 == 0 && zero != 0x30 {
      RowOfDigits(zero / 16);
      assert c as int / 16 == zero / 16 && c as int % 16 == v;
    } else if zero % 16 == 6 {
      RowOfDigits(zero / 16);
      assert c as int / 16 == zero / 16 && c as int % 16 == v + 6;
    }
  }

  lemma DigitHasZero(c: char, v: nat)
    requires DigitOf(c) == Some(v)
    ensures v < 10 && IsZero(c as int - v)
  {
    RowOfDigits(c as int / 16);
  }

  function Power10(n: nat): nat { if n == 0 then 1 else 10 * Power10(n - 1) }

  /** The number that digits stand for, each at its place. */
  function PlaceValue(digits: seq<nat>): nat {
    if digits == [] then 0 else digits[0] * Power10(|digits| - 1) + PlaceValue(digits[1..])
  }

  lemma {:induction false} PlaceValueAppend(digits: seq<nat>, d: nat)
    ensures PlaceValue(digits + [d]) == 10 * PlaceValue(digits) + d
  {
    if digits == [] {
      assert [] + [d] == [d];
    } else {
      assert (digits + [d])[1..] == digits[1..] + [d];
      PlaceValueAppend(digits[1..], d);
    }
  }

  /** `digits` are the values of the characters of `s`. */
  predicate AreDigits(s: string, digits: seq<nat>) {
    |s| == |digits| && forall i :: 0 <= i < |s| ==> DigitOf(s[i]) == Some(digits[i])
  }

  lemma {:induction false} DigitsHavePlaceValue(s: string, digits: seq<nat>)
    requires AreDigits(s, digits)
    ensures DigitsValue(s) == Some(PlaceValue(digits))
  {
    if s != [] {
      var init, last := digits[..|digits| - 1], digits[|digits| - 1];
      assert digits == init + [last];
      DigitsHavePlaceValue(s[..|s| - 1], init);
      PlaceValueAppend(init, last);
    }
  }

  lemma {:induction false} ValueHasDigits(s: string) returns (digits: seq<nat>)
    requires DigitsValue(s).Some?
    ensures AreDigits(s, digits)
  {
    if s == [] {
      digits := [];
    } else {
      digits := ValueHasDigits(s[..|s| - 1]);
      digits := digits + [DigitOf(s[|s| - 1]).value];
    }
  }

  ghost predicate SaysNumber(s: string, n: int) {
    exists digits: seq<nat> :: digits != [] && AreDigits(s, digits) && n == PlaceValue(digits)
  }

  /** The string is digits, with at most one sign before them, and stands for the number. */
  ghost predicate SaysInt(s: string, x: int) {
    || SaysNumber(s, x)
    || (s != [] && s[0] == '+' && SaysNumber(s[1..], x))
    || (s != [] && s[0] == '-' && SaysNumber(s[1..], -x))
  }

  lemma SaysNumberIff(s: string, n: int)
    ensures SaysNumber(s, n) <==> s != [] && n >= 0 && DigitsValue(s) == Some(n)
  {
    if digits: seq<nat> :| digits != [] && AreDigits(s, digits) && n == PlaceValue(digits) {
      DigitsHavePlaceValue(s, digits);
    }
    if s != [] && DigitsValue(s).Some? {
      var digits := ValueHasDigits(s);
      DigitsHavePlaceValue(s, digits);
    }
  }

  lemma SignIsNoDigit(s: string)
    requires s != [] && (s[0] == '+' || s[0] == '-')
    ensures DigitsValue(s) == None
  {
    NonDigitHasNoValue(s, 0);
  }

  /** Integer.parseInt accepts a string, with the number it stands for, if and only if that is one of 32 bits. */
  lemma ParseIntIff(s: string, x: Int32)
    ensures ParseInt(s) == Ok(x) <==> SaysInt(s, x)
  {
    SaysNumberIff(s, x);
    if s != [] {
      SaysNumberIff(s[1..], x);
      var y: int := x;
      SaysNumberIff(s[1..], -y);
      if s[0] == '+' || s[0] == '-' {
        SignIsNoDigit(s);
      }
    }
  }

  /** The text of an int is the shortest: ASCII digits, a minus sign before those of a negative one, no zero first. */
  lemma DecimalIsShortest(x: Int32)
    ensures var s := Decimal(x);
      && (x == 0 ==> s == "0")
      && (x > 0 ==> '1' <= s[0] <= '9')
      && (x < 0 ==> |s| >= 2 && s[0] == '-' && '1' <= s[1] <= '9')
      && (forall i :: 0 <= i < |s| ==> '0' <= s[i] <= '9' || (i == 0 && x < 0))
      && SaysInt(s, x)
  {
    DecimalRoundTrip(x);
    ParseIntIff(Decimal(x), x);
    DigitsHaveValue(Abs(x));
    if x != 0 {
      NoZeroFirst(Abs(x));
    }
  }

  lemma {:induction false} NoZeroFirst(n: nat)
    requires n > 0
    ensures Digits(n) != [] && '1' <= Digits(n)[0] <= '9'
  {
    if n >= 10 {
      NoZeroFirst(n / 10);
    }
  }

  // ---- Arrays ----

  /** The text of an array, one element at a time. */
  lemma PrintedIs(a: seq<Int32>, x: Int32)
    ensures Printed([]) == "[]" && Printed([x]) == "[" + Decimal(x) + "]"
    ensures a != [] ==> |Printed(a)| >= 2 && Printed(a + [x]) == Printed(a)[..|Printed(a)| - 1] + "," + Decimal(x) + "]"
  {
    assert Decimals([x]) == [Decimal(x)];
    if a != [] {
      assert Decimals(a + [x]) == Decimals(a) + [Decimal(x)];
      JoinAppend(Decimals(a), Decimal(x));
      assert Printed(a)[..|Printed(a)| - 1] == "[" + Join(Decimals(a));
    }
  }

  lemma {:induction false} JoinAppend(parts: seq<string>, last: string)
    requires parts != []
    ensures Join(parts + [last]) == Join(parts) + "," + last
  {
    if |parts| == 1 {
      assert parts + [last] == [parts[0], last];
      assert [parts[0], last][1..] == [last];
    } else {
      assert (parts + [last])[1..] == parts[1..] + [last];
      JoinAppend(parts[1..], last);
      assert parts[0] + "," + (Join(parts[1..]) + "," + last) == (parts[0] + "," + Join(parts[1..])) + "," + last;
    }
  }

  function Repeated(c: char, n: nat): string { seq(n, _ => c) }

  function Commas(n: nat): string { Repeated(',', n) }

  function Nothings(n: nat): seq<string> { seq(n, _ => []) }

  lemma {:induction false} PiecesOfRepeated(c: char, n: nat)
    ensures Pieces(Repeated(c, n), c) == Nothings(n + 1)
  {
    if n == 0 {
      assert Nothings(1) == [[]];
    } else {
      assert Repeated(c, n)[1..] == Repeated(c, n - 1);
      PiecesOfRepeated(c, n - 1);
      assert [[]] + Nothings(n) == Nothings(n + 1);
    }
  }

  lemma {:induction false} PiecesWithCommas(parts: seq<string>, n: nat)
    requires parts != [] && NoCommas(parts)
    ensures Pieces(Join(parts) + Commas(n), ',') == parts + Nothings(n)
  {
    if |parts| > 1 {
      PiecesWithCommas(parts[1..], n);
      PiecesOfMore(parts[0], ',', Join(parts[1..]) + Commas(n));
      assert Join(parts) + Commas(n) == parts[0] + [','] + (Join(parts[1..]) + Commas(n));
      assert parts + Nothings(n) == [parts[0]] + (parts[1..] + Nothings(n));
    } else if n > 0 {
      PiecesOfRepeated(',', n - 1);
      PiecesOfMore(parts[0], ',', Commas(n - 1));
      assert Join(parts) + Commas(n) == parts[0] + [','] + Commas(n - 1);
      assert parts + Nothings(n) == [parts[0]] + Nothings(n);
    } else {
      PiecesOfOne(parts[0], ',');
      assert Join(parts) + Commas(n) == parts[0];
      assert parts + Nothings(n) == [parts[0]];
    }
  }

  lemma {:induction false} NothingsAreDropped(parts: seq<string>, n: nat)
    requires parts != [] && parts[|parts| - 1] != []
    ensures DropTrailingEmpty(parts + Nothings(n)) == parts
  {
    if n == 0 {
      assert parts + Nothings(0) == parts;
    } else {
      assert (parts + Nothings(n))[..|parts| + n - 1] == parts + Nothings(n - 1);
      NothingsAreDropped(parts, n - 1);
    }
  }

  lemma {:induction false} OnlyNothingsAreDropped(n: nat)
    ensures DropTrailingEmpty(Nothings(n)) == []
  {
    if n > 0 {
      assert Nothings(n)[..n - 1] == Nothings(n - 1);
      OnlyNothingsAreDropped(n - 1);
    }
  }

  lemma SplitWithCommas(parts: seq<string>, n: nat)
    requires parts != [] && NoCommas(parts) && parts[|parts| - 1] != []
    ensures Split(Join(parts) + Commas(n), ',') == parts
  {
    PiecesWithCommas(parts, n);
    NothingsAreDropped(parts, n);
    if ',' !in Join(parts) + Commas(n) {
      PiecesOfOne(Join(parts) + Commas(n), ',');
    }
  }

  predicate Blank(s: string) { forall i :: 0 <= i < |s| ==> s[i] as int <= 32 }

  /** Characters up to the space around the text of an int. */
  ghost predicate PadsInt(s: string, x: Int32) {
    exists before: string, core: string, after: string ::
      Blank(before) && Blank(after) && s == before + core + after && SaysInt(core, x)
  }

  lemma CoreOfInt(core: string, x: Int32)
    requires SaysInt(core, x)
    ensures core != [] && core[0] > ' ' && core[|core| - 1] > ' ' && ',' !in core && '=' !in core
  {
    forall i | 0 <= i < |core|
      ensures core[i] == '+' || core[i] == '-' || DigitOf(core[i]).Some?
    {
      CharOfInt(core, x, i);
    }
  }

  lemma CharOfInt(s: string, x: Int32, i: nat)
    requires SaysInt(s, x) && i < |s|
    ensures s[i] == '+' || s[i] == '-' || DigitOf(s[i]).Some?
  {
    if SaysNumber(s, x) {
      var digits: seq<nat> :| digits != [] && AreDigits(s, digits) && x == PlaceValue(digits);
    } else {
      var digits: seq<nat> :| digits != [] && AreDigits(s[1..], digits);
      assert i > 0 ==> s[i] == s[1..][i - 1];
    }
  }

  lemma PadsIntIsParsed(s: string, x: Int32)
    requires PadsInt(s, x)
    ensures s != [] && ',' !in s && ParseInt(JavaTrim(s)) == Ok(x)
  {
    var before: string, core: string, after: string :|
      Blank(before) && Blank(after) && s == before + core + after && SaysInt(core, x);
    CoreOfInt(core, x);
    TrimIsTheCore(IsControl, before, core, after);
    ParseIntIff(core, x);
  }

  ghost predicate PadsInts(texts: seq<string>, a: seq<Int32>) {
    |texts| == |a| && forall i :: 0 <= i < |a| ==> PadsInt(texts[i], a[i])
  }

  lemma {:induction false} PaddedAreParsed(texts: seq<string>, a: seq<Int32>)
    requires PadsInts(texts, a)
    ensures ParseAll(texts) == Ok(a)
  {
    if a != [] {
      var n := |a| - 1;
      PaddedAreParsed(texts[..n], a[..n]);
      PadsIntIsParsed(texts[n], a[n]);
      assert a[..n] + [a[n]] == a;
    }
  }

  lemma SplitOfPadded(texts: seq<string>, a: seq<Int32>, n: nat)
    requires PadsInts(texts, a) && a != []
    ensures Split(Join(texts) + Commas(n), ',') == texts
  {
    forall i | 0 <= i < |texts|
      ensures ',' !in texts[i] && texts[i] != []
    {
      PadsIntIsParsed(texts[i], a[i]);
    }
    SplitWithCommas(texts, n);
  }

  /** An array text is read with any blanks around it and around its elements, with any commas after the last one, and
      with any visible character in the place of the closing bracket. */
  lemma ArrayTextIsRead(before: string, texts: seq<string>, n: nat, close: char, after: string, a: seq<Int32>)
    requires PadsInts(texts, a) && a != [] && Blank(before) && Blank(after) && close as int > 32
    ensures ParsedIntArray(before + ("[" + (Join(texts) + Commas(n)) + [close]) + after) == Ok(a)
  {
    var inner := Join(texts) + Commas(n);
    var text := "[" + inner + [close];
    TrimIsTheCore(IsControl, before, text, after);
    assert text[0] == '[' && text[1..|text| - 1] == inner;
    SplitOfPadded(texts, a, n);
    PaddedAreParsed(texts, a);
  }

  /** A lone opening bracket has no end to drop. */
  lemma LoneBracketFails(before: string, after: string)
    requires Blank(before) && Blank(after)
    ensures ParsedIntArray(before + "[" + after) == Err(StringIndexOutOfBounds)
  {
    TrimIsTheCore(IsControl, before, "[", after);
  }

  // ---- Lines ----

  lemma {:induction false} NotInJoin(parts: seq<string>, c: char)
    requires c != ',' && forall i :: 0 <= i < |parts| ==> c !in parts[i]
    ensures c !in Join(parts)
  {
    if |parts| > 1 {
      NotInJoin(parts[1..], c);
    }
  }

  lemma PadsIntHasNoEquals(s: string, x: Int32)
    requires PadsInt(s, x)
    ensures '=' !in s
  {
    var before: string, core: string, after: string :|
      Blank(before) && Blank(after) && s == before + core + after && SaysInt(core, x);
    CoreOfInt(core, x);
  }

  /** A line in brackets without `=` is read as its array, with any blanks around the elements and commas after them. */
  lemma ArrayLineIsRead(texts: seq<string>, n: nat, a: seq<Int32>)
    requires PadsInts(texts, a) && a != []
    ensures ParsedInput("[" + (Join(texts) + Commas(n)) + [']']) == Ok(OneArray(a))
  {
    NoEqualsInArray(texts, n, a);
    ArrayTextIsRead("", texts, n, ']', "", a);
    var line := "[" + (Join(texts) + Commas(n)) + [']'];
    assert "" + line + "" == line;
  }

  lemma NoEqualsInArray(texts: seq<string>, n: nat, a: seq<Int32>)
    requires PadsInts(texts, a)
    ensures '=' !in "[" + (Join(texts) + Commas(n)) + [']']
  {
    forall i | 0 <= i < |texts|
      ensures '=' !in texts[i]
    {
      PadsIntHasNoEquals(texts[i], a[i]);
    }
    NotInJoin(texts, '=');
  }

  /** A printed array is read back as a line of its own, if and only if it is not empty. */
  lemma PrintedLineIsReadIff(a: seq<Int32>)
    ensures ParsedInput(Printed(a)) == Ok(OneArray(a)) <==> a != []
    ensures a == [] ==> ParsedInput(Printed(a)) == Err(NumberFormat)
  {
    ArrayRoundTripIff(a);
    forall i | 0 <= i < |a|
      ensures '=' !in Decimals(a)[i]
    {
      DecimalRoundTrip(a[i]);
    }
    NotInJoin(Decimals(a), '=');
    assert Printed(a)[0] == '[' && Printed(a)[|Printed(a)| - 1] == ']' && '=' !in Printed(a);
  }

  /** Any other line without `=` is returned as it is. */
  lemma PlainLineIsReturned(line: string)
    requires '=' !in line && (line == [] || line[0] != '[' || line[|line| - 1] != ']')
    ensures ParsedInput(line) == Ok(Line(line))
  {
  }

  // ---- Lines of pairs ----

  /** The text stands for the value: an int, an array of one int in brackets, or any other visible text without a comma
      or `=`. */
  ghost predicate SaysValue(v: string, value: Value) {
    match value
    case Int(x) => SaysInt(v, x)
    case Ints(a) => |a| == 1 && exists text: string :: PadsInt(text, a[0]) && v == "[" + text + "]"
    case Text(s) =>
      && v == s && s != [] && s[0] as int > 32 && s[|s| - 1] as int > 32 && ',' !in s && '=' !in s
      && !(s[0] == '[' && s[|s| - 1] == ']') && forall x: Int32 :: !SaysInt(s, x)
  }

  lemma BracketedIntIsRead(text: string, x: Int32)
    requires PadsInt(text, x)
    ensures ParsedIntArray("[" + text + "]") == Ok([x])
    ensures ',' !in "[" + text + "]" && '=' !in "[" + text + "]"
  {
    PadsIntIsParsed(text, x);
    PadsIntHasNoEquals(text, x);
    assert Join([text]) + Commas(0) == text;
    ArrayTextIsRead("", [text], 0, ']', "", [x]);
    assert "" + ("[" + text + [']']) + "" == "[" + text + "]";
  }

  lemma ValueIsRead(v: string, value: Value)
    requires SaysValue(v, value)
    ensures v != [] && v[0] > ' ' && v[|v| - 1] > ' ' && ',' !in v && '=' !in v
    ensures ParseValue(v) == Ok(value)
  {
    match value
    case Int(x) =>
      CoreOfInt(v, x);
      ParseIntIff(v, x);
      CharOfInt(v, x, 0);
    case Ints(a) =>
      var text: string :| PadsInt(text, a[0]) && v == "[" + text + "]";
      BracketedIntIsRead(text, a[0]);
      assert a == [a[0]];
    case Text(s) =>
      if ParseInt(s).Ok? {
        ParseIntIff(s, ParseInt(s).value);
      }
  }

  /** The part of a line is a name and a value with `=` between them and blanks anywhere around. */
  ghost predicate SaysPair(part: string, name: string, value: Value) {
    exists left: string, right: string, v: string ::
      part == left + ['='] + right && IsTrimmed(left, name) && IsTrimmed(right, v) && SaysValue(v, value) &&
      ',' !in name && '=' !in name
  }

  /** `core` has no blank at its ends, and the string is it with blanks around it. */
  ghost predicate IsTrimmed(s: string, core: string) {
    (core == [] || (core[0] as int > 32 && core[|core| - 1] as int > 32)) &&
    exists before: string, after: string :: Blank(before) && Blank(after) && s == before + core + after
  }

  lemma TrimmedTrims(s: string, core: string)
    requires IsTrimmed(s, core)
    ensures JavaTrim(s) == core
    ensures forall c :: c > ' ' && c !in core ==> c !in s
    ensures core != [] ==> s != []
  {
    var before: string, after: string :| Blank(before) && Blank(after) && s == before + core + after;
    TrimIsTheCore(IsControl, before, core, after);
  }

  lemma PairIsRead(part: string, name: string, value: Value) returns (key: string, text: string)
    requires SaysPair(part, name, value)
    ensures Split(part, '=') == [key, text] && JavaTrim(key) == name && ParseValue(JavaTrim(text)) == Ok(value)
    ensures '=' in part && ',' !in part && part != []
  {
    var left: string, right: string, v: string :|
      part == left + ['='] + right && IsTrimmed(left, name) && IsTrimmed(right, v) && SaysValue(v, value) &&
      ',' !in name && '=' !in name;
    TrimmedTrims(left, name);
    TrimmedTrims(right, v);
    ValueIsRead(v, value);
    SplitInTwo(left, '=', right);
    key, text := left, right;
    assert part[|left|] == '=';
  }

  ghost predicate SaysPairs(parts: seq<string>, names: seq<string>, values: seq<Value>) {
    && |parts| == |names| == |values|
    && forall i :: 0 <= i < |parts| ==> SaysPair(parts[i], names[i], values[i])
  }

  /** The value given last for the name. */
  function LastValue(names: seq<string>, values: seq<Value>, name: string): Value
    requires |names| == |values| && name in names
  {
    if names[|names| - 1] == name then values[|names| - 1]
    else LastValue(names[..|names| - 1], values[..|names| - 1], name)
  }

  predicate Holds(pairs: map<string, Value>, names: seq<string>, values: seq<Value>)
    requires |names| == |values|
  {
    && (forall k :: k in pairs ==> k in names)
    && (forall i :: 0 <= i < |names| ==>
          names[i] in pairs && pairs[names[i]] == LastValue(names, values, names[i]))
  }

  lemma {:induction false} PairsAreRead(parts: seq<string>, names: seq<string>, values: seq<Value>)
    returns (pairs: map<string, Value>)
    requires SaysPairs(parts, names, values)
    ensures ParsePairs(parts) == Ok(pairs) && Holds(pairs, names, values)
  {
    pairs := map[];
    if parts != [] {
      var n := |parts| - 1;
      var before := PairsAreRead(parts[..n], names[..n], values[..n]);
      var key, text := PairIsRead(parts[n], names[n], values[n]);
      pairs := before[names[n] := values[n]];
      HoldsMore(before, names, values);
    }
  }

  lemma HoldsMore(before: map<string, Value>, names: seq<string>, values: seq<Value>)
    requires |names| == |values| > 0
    requires Holds(before, names[..|names| - 1], values[..|names| - 1])
    ensures Holds(before[names[|names| - 1] := values[|names| - 1]], names, values)
  {
    var n := |names| - 1;
    forall i | 0 <= i < n
      ensures names[i] in names[..n] && names[i] in before
      ensures before[names[i]] == LastValue(names[..n], values[..n], names[i])
    {
      assert names[..n][i] == names[i];
    }
  }

  /** A line of pairs is read as it is meant: with both `nums` and `target` among the names, as their values, and else
      as the values of all names, the last one for each. */
  lemma LineOfPairsIsRead(parts: seq<string>, names: seq<string>, values: seq<Value>)
    requires SaysPairs(parts, names, values) && parts != []
    ensures ParsedInput(Join(parts)).Ok?
    ensures "nums" in names && "target" in names ==>
              ParsedInput(Join(parts)).value ==
                NumsAndTarget(LastValue(names, values, "nums"), LastValue(names, values, "target"))
    ensures "nums" !in names || "target" !in names ==>
              ParsedInput(Join(parts)).value.Values? && Holds(ParsedInput(Join(parts)).value.pairs, names, values)
  {
    var pairs := PairsAreRead(parts, names, values);
    forall i | 0 <= i < |parts|
      ensures '=' in parts[i] && ',' !in parts[i] && parts[i] != []
    {
      var key, text := PairIsRead(parts[i], names[i], values[i]);
    }
    SplitOfJoin(parts);
    EqualsInJoin(parts);
    InputOfPairs(Join(parts), parts);
  }

  lemma EqualsInJoin(parts: seq<string>)
    requires parts != [] && '=' in parts[0]
    ensures '=' in Join(parts)
  {
  }

  lemma NameAloneIsOnePiece(name: string, n: nat)
    requires '=' !in name && n >= 1
    ensures |Split(name + Repeated('=', n), '=')| < 2
  {
    var s := name + Repeated('=', n);
    assert s[|name|] == '=';
    PiecesOfMore(name, '=', Repeated('=', n - 1));
    assert s == name + ['='] + Repeated('=', n - 1);
    PiecesOfRepeated('=', n - 1);
    if name == [] {
      assert [name] + Nothings(n) == Nothings(n + 1);
      OnlyNothingsAreDropped(n + 1);
    } else {
      NothingsAreDropped([name], n);
    }
  }

  /** A name without a value has nothing at index 1, however many `=` come after it. */
  lemma NameAloneFails(name: string, n: nat)
    requires ',' !in name && '=' !in name && n >= 1
    ensures ParsedInput(name + Repeated('=', n)) == Err(ArrayIndexOutOfBounds)
  {
    var line := name + Repeated('=', n);
    assert line[|name|] == '=';
    NameAloneIsOnePiece(name, n);
    assert [line][..0] == [];
    InputOfPairs(line, [line]);
  }

  // ---- The values of a map ----

  /** Whatever their order, the values returned for a line of other names are one for each name. */
  lemma OneValueForEachName(pairs: map<string, Value>, objects: seq<Value>)
    requires Enumerates(pairs, objects)
    ensures |objects| == |pairs.Keys|
    ensures forall k :: k in pairs ==> pairs[k] in objects
    ensures forall v :: v in objects ==> exists k :: k in pairs && pairs[k] == v
  {
    var keys: seq<string> :| Lists(pairs, keys, objects);
    AsManyAsKeys(keys, pairs.Keys);
    forall k | k in pairs
      ensures pairs[k] in objects
    {
      var i :| 0 <= i < |keys| && keys[i] == k;
      assert objects[i] == pairs[k];
    }
    forall v | v in objects
      ensures exists k :: k in pairs && pairs[k] == v
    {
      var i :| 0 <= i < |objects| && objects[i] == v;
      assert keys[i] in pairs && pairs[keys[i]] == v;
    }
  }

  lemma {:induction false} AsManyAsKeys(keys: seq<string>, names: set<string>)
    requires forall i, j :: 0 <= i < j < |keys| ==> keys[i] != keys[j]
    requires forall k :: k in names <==> k in keys
    ensures |keys| == |names|
  {
    if keys == [] {
      assert names == {};
    } else {
      var init, last := keys[..|keys| - 1], keys[|keys| - 1];
      forall k: string
        ensures k in names - {last} <==> k in init
      {
        assert k in keys <==> k in init || k == last;
      }
      AsManyAsKeys(init, names - {last});
    }
  }
}
