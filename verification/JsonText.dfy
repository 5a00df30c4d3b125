/** JSON values without floats, the compact writer and the strict reader the approval files go through
    (RFC 8259, sections 2 to 7). Text is a sequence of Unicode scalar values. */
module JsonText {
  import opened Basics

  datatype Json = Null | Bool(b: bool) | Int(n: int) | Str(s: string) | Arr(items: seq<Json>) | Obj(members: seq<Member>)

  datatype Member = Member(key: string, value: Json)

  datatype Parsed<T> = Fail | Got(value: T, rest: string)

  // ------------------------------------------------------------------ writer

  function Hex(d: nat): char
    requires d < 16
  {
    "0123456789abcdef"[d]
  }

  function EscapeChar(c: char): string {
    if c == '\"' then "\\\""
    else if c == '\\' then "\\\\"
    else if c == '\n' then "\\n"
    else if c == '\r' then "\\r"
    else if c == '\t' then "\\t"
    else if c as int == 8 then "\\b"
    else if c as int == 12 then "\\f"
    else if c < ' ' then "\\u00" + [Hex(c as int / 16), Hex(c as int % 16)]
    else [c]
  }

  function Escape(s: string): string {
    if s == "" then "" else EscapeChar(s[0]) + Escape(s[1..])
  }

  function RenderString(s: string): string {
    "\"" + Escape(s) + "\""
  }

  function RenderNat(n: nat): string {
    if n < 10 then [Hex(n)] else RenderNat(n / 10) + [Hex(n % 10)]
  }

  function RenderInt(n: int): string {
    if n < 0 then "-" + RenderNat(-n) else RenderNat(n)
  }

  function Render(v: Json): string {
    match v
    case Null => "null"
    case Bool(b) => if b then "true" else "false"
    case Int(n) => RenderInt(n)
    case Str(s) => RenderString(s)
    case Arr(items) => "[" + RenderItems(items) + "]"
    case Obj(members) => "{" + RenderMembers(members) + "}"
  }

  function RenderItems(items: seq<Json>): string {
    if items == [] then ""
    else Render(items[0]) + (if |items| == 1 then "" else "," + RenderItems(items[1..]))
  }

  function RenderMembers(members: seq<Member>): string {
    if members == [] then ""
    else RenderString(members[0].key) + ":" + Render(members[0].value)
         + (if |members| == 1 then "" else "," + RenderMembers(members[1..]))
  }

  // ------------------------------------------------------------------ reader: tokens

  predicate Blank(c: char) { c == ' ' || c == '\t' || c == '\n' || c == '\r' }

  function Skip(s: string): (r: string)
    ensures |r| <= |s|
  {
    if s != "" && Blank(s[0]) then Skip(s[1..]) else s
  }

  predicate IsDigit(c: char) { '0' <= c <= '9' }

  function HexValue(c: char): Option<nat> {
    if '0' <= c <= '9' then Some(c as int - '0' as int)
    else if 'a' <= c <= 'f' then Some(c as int - 'a' as int + 10)
    else if 'A' <= c <= 'F' then Some(c as int - 'A' as int + 10)
    else None
  }

  /** Four hexadecimal digits: one UTF-16 code unit. */
  function CodeUnit(s: string): (r: Parsed<nat>)
    ensures r.Got? ==> r.value < 0x1_0000 && |s| >= 4 && r.rest == s[4..]
  {
    if |s| < 4 then Fail
    else
      var a, b, c, d := HexValue(s[0]), HexValue(s[1]), HexValue(s[2]), HexValue(s[3]);
      if a.Some? && b.Some? && c.Some? && d.Some?
      then Got(((a.value * 16 + b.value) * 16 + c.value) * 16 + d.value, s[4..])
      else Fail
  }

  /** What follows a backslash. A surrogate pair is one character; a lone surrogate is refused, since
      no text containing one can be encoded again. */
  function ParseEscape(s: string): (r: Parsed<char>)
    ensures r.Got? ==> |r.rest| < |s|
  {
    if s == "" then Fail
    else if s[0] == '\"' || s[0] == '\\' || s[0] == '/' then Got(s[0], s[1..])
    else if s[0] == 'b' then Got(8 as char, s[1..])
    else if s[0] == 'f' then Got(12 as char, s[1..])
    else if s[0] == 'n' then Got('\n', s[1..])
    else if s[0] == 'r' then Got('\r', s[1..])
    else if s[0] == 't' then Got('\t', s[1..])
    else if s[0] == 'u' then
      var unit := CodeUnit(s[1..]);
      if unit.Fail? then Fail
      else if !(0xD800 <= unit.value < 0xE000) then Got(unit.value as char, unit.rest)
      else if unit.value < 0xDC00 && |unit.rest| >= 2 && unit.rest[..2] == "\\u" then
        var low := CodeUnit(unit.rest[2..]);
        if low.Got? && 0xDC00 <= low.value < 0xE000
        then Got((0x1_0000 + (unit.value - 0xD800) * 0x400 + (low.value - 0xDC00)) as char, low.rest)
        else Fail
      else Fail
    else Fail
  }

  /** The rest of a string after its opening quote. */
  function ParseStringBody(s: string): (r: Parsed<string>)
    ensures r.Got? ==> |r.rest| < |s|
    decreases |s|
  {
    if s == "" then Fail
    else if s[0] == '\"' then Got("", s[1..])
    else if s[0] == '\\' then
      var c := ParseEscape(s[1..]);
      if c.Fail? then Fail
      else
        var tail := ParseStringBody(c.rest);
        if tail.Fail? then Fail else Got([c.value] + tail.value, tail.rest)
    else if s[0] < ' ' then Fail
    else
      var tail := ParseStringBody(s[1..]);
      if tail.Fail? then Fail else Got([s[0]] + tail.value, tail.rest)
  }

  /** How many digits the text begins with. */
  function Digits(s: string): (n: nat)
    ensures n <= |s| && AllDigits(s[..n])
    ensures n < |s| ==> !IsDigit(s[n])
  {
    if s != "" && IsDigit(s[0]) then
      var n := 1 + Digits(s[1..]);
      assert s[..n] == [s[0]] + s[1..][..n - 1];
      n
    else 0
  }

  predicate AllDigits(s: string) {
    forall i :: 0 <= i < |s| ==> IsDigit(s[i])
  }

  function DigitOf(c: char): (d: nat)
    requires IsDigit(c)
    ensures d < 10
  {
    c as int - '0' as int
  }

  function DigitsValue(s: string): nat
    requires AllDigits(s)
  {
    if s == "" then 0
    else
      assert IsDigit(s[|s| - 1]);
      DigitsValue(s[..|s| - 1]) * 10 + DigitOf(s[|s| - 1])
  }

  function ParseNat(s: string): (r: Parsed<nat>)
    ensures r.Got? ==> |r.rest| < |s|
  {
    if s == "" || !IsDigit(s[0]) then Fail
    else if s[0] == '0' then Got(0, s[1..])
    else Got(DigitsValue(s[..Digits(s)]), s[Digits(s)..])
  }

  /** A fraction or an exponent makes a float, which no approval record holds. */
  predicate FloatTail(s: string) { s != "" && (s[0] == '.' || s[0] == 'e' || s[0] == 'E') }

  function ParseNumber(s: string): (r: Parsed<Json>)
    ensures r.Got? ==> |r.rest| < |s|
  {
    if s != "" && s[0] == '-' then
      var n := ParseNat(s[1..]);
      if n.Fail? || FloatTail(n.rest) then Fail
      else
        var magnitude: int := n.value;
        Got(Int(-magnitude), n.rest)
    else
      var n := ParseNat(s);
      if n.Fail? || FloatTail(n.rest) then Fail else Got(Int(n.value), n.rest)
  }

  // ------------------------------------------------------------------ reader: values

  predicate Starts(s: string, word: string) { |word| <= |s| && s[..|word|] == word }

  predicate DistinctKeys(members: seq<Member>) {
    forall i, j :: 0 <= i < j < |members| ==> members[i].key != members[j].key
  }

  /** A value at the head of the text. */
  function ParseValue(s: string): (r: Parsed<Json>)
    ensures r.Got? ==> |r.rest| < |s|
    decreases |s|, 0
  {
    if s == "" then Fail
    else if Starts(s, "null") then Got(Null, s[4..])
    else if Starts(s, "true") then Got(Bool(true), s[4..])
    else if Starts(s, "false") then Got(Bool(false), s[5..])
    else if s[0] == '\"' then
      var body := ParseStringBody(s[1..]);
      if body.Fail? then Fail else Got(Str(body.value), body.rest)
    else if s[0] == '[' then
      var inner := Skip(s[1..]);
      if inner != "" && inner[0] == ']' then Got(Arr([]), inner[1..])
      else
        var items := ParseItems(inner);
        if items.Fail? then Fail else Got(Arr(items.value), items.rest)
    else if s[0] == '{' then
      var inner := Skip(s[1..]);
      if inner != "" && inner[0] == '}' then Got(Obj([]), inner[1..])
      else
        var members := ParseMembers(inner);
        if members.Fail? || !DistinctKeys(members.value) then Fail else Got(Obj(members.value), members.rest)
    else ParseNumber(s)
  }

  /** One or more values up to the closing bracket. */
  function ParseItems(s: string): (r: Parsed<seq<Json>>)
    ensures r.Got? ==> |r.rest| < |s|
    decreases |s|, 1
  {
    var first := ParseValue(s);
    if first.Fail? then Fail
    else
      var after := Skip(first.rest);
      if after == "" then Fail
      else if after[0] == ']' then Got([first.value], after[1..])
      else if after[0] != ',' then Fail
      else
        var others := ParseItems(Skip(after[1..]));
        if others.Fail? then Fail else Got([first.value] + others.value, others.rest)
  }

  function ParseMember(s: string): (r: Parsed<Member>)
    ensures r.Got? ==> |r.rest| < |s|
    decreases |s|, 1
  {
    if s == "" || s[0] != '\"' then Fail
    else
      var key := ParseStringBody(s[1..]);
      if key.Fail? then Fail
      else
        var colon := Skip(key.rest);
        if colon == "" || colon[0] != ':' then Fail
        else
          var value := ParseValue(Skip(colon[1..]));
          if value.Fail? then Fail else Got(Member(key.value, value.value), value.rest)
  }

  /** One or more members up to the closing brace. */
  function ParseMembers(s: string): (r: Parsed<seq<Member>>)
    ensures r.Got? ==> |r.rest| < |s|
    decreases |s|, 2
  {
    var first := ParseMember(s);
    if first.Fail? then Fail
    else
      var after := Skip(first.rest);
      if after == "" then Fail
      else if after[0] == '}' then Got([first.value], after[1..])
      else if after[0] != ',' then Fail
      else
        var others := ParseMembers(Skip(after[1..]));
        if others.Fail? then Fail else Got([first.value] + others.value, others.rest)
  }

  function Loads(s: string): Option<Json> {
    var v := ParseValue(Skip(s));
    if v.Got? && Skip(v.rest) == "" then Some(v.value) else None
  }
}
