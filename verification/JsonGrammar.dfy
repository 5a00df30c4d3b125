/** The language the strict reader reads: values spelled as section 2 to 7 of RFC 8259 allow, without fractions
    and exponents, in any of their spellings. */
module JsonGrammar {
  import opened Basics
  import opened JsonText
  import opened JsonRoundTrip

  // ------------------------------------------------------------------ spellings

  predicate AllBlank(s: string) {
    forall i :: 0 <= i < |s| ==> s[i] == ' ' || s[i] == '\t' || s[i] == '\n' || s[i] == '\r'
  }

  /** One character of a string: as it is, by a letter, by four hexadecimal digits, or by two times four. */
  datatype Letter = Plain(c: char) | Short(sign: char) | Code(digits: string) | Pair(high: string, low: string)

  function HexNumber(c: char): int {
    match c
    case '0' => 0 case '1' => 1 case '2' => 2 case '3' => 3 case '4' => 4
    case '5' => 5 case '6' => 6 case '7' => 7 case '8' => 8 case '9' => 9
    case 'a' => 10 case 'b' => 11 case 'c' => 12 case 'd' => 13 case 'e' => 14 case 'f' => 15
    case 'A' => 10 case 'B' => 11 case 'C' => 12 case 'D' => 13 case 'E' => 14 case 'F' => 15
    case _ => -1
  }

  predicate FourHex(d: string) {
    |d| == 4 && HexNumber(d[0]) >= 0 && HexNumber(d[1]) >= 0 && HexNumber(d[2]) >= 0 && HexNumber(d[3]) >= 0
  }

  function UnitOf(d: string): (n: nat)
    requires FourHex(d)
    ensures n < 0x1_0000
  {
    HexNumber(d[0]) * 0x1000 + HexNumber(d[1]) * 0x100 + HexNumber(d[2]) * 0x10 + HexNumber(d[3])
  }

  predicate GoodLetter(l: Letter) {
    match l
    case Plain(c) => c as int >= 0x20 && c != '\"' && c != '\\'
    case Short(sign) => sign in {'\"', '\\', '/', 'b', 'f', 'n', 'r', 't'}
    case Code(digits) => FourHex(digits) && !(0xD800 <= UnitOf(digits) < 0xE000)
    case Pair(high, low) => FourHex(high) && FourHex(low) && 0xD800 <= UnitOf(high) < 0xDC00 <= UnitOf(low) < 0xE000
  }

  function LetterText(l: Letter): string {
    match l
    case Plain(c) => [c]
    case Short(sign) => ['\\', sign]
    case Code(digits) => "\\u" + digits
    case Pair(high, low) => "\\u" + high + "\\u" + low
  }

  function LetterValue(l: Letter): char
    requires GoodLetter(l)
  {
    match l
    case Plain(c) => c
    case Short(sign) =>
      (match sign
       case 'b' => 8 as char case 'f' => 12 as char case 'n' => 10 as char case 'r' => 13 as char case 't' => 9 as char
       case _ => sign)
    case Code(digits) => UnitOf(digits) as char
    case Pair(high, low) => (0x1_0000 + (UnitOf(high) - 0xD800) * 0x400 + (UnitOf(low) - 0xDC00)) as char
  }

  predicate GoodString(ls: seq<Letter>) { forall i :: 0 <= i < |ls| ==> GoodLetter(ls[i]) }

  /** The letters and the closing quote. */
  function StringText(ls: seq<Letter>): string {
    if ls == [] then "\"" else LetterText(ls[0]) + StringText(ls[1..])
  }

  function StringValue(ls: seq<Letter>): string
    requires GoodString(ls)
  {
    if ls == [] then "" else
      assert forall i :: 0 <= i < |ls| - 1 ==> ls[1..][i] == ls[i + 1];
      [LetterValue(ls[0])] + StringValue(ls[1..])
  }

  /** A value as it is spelled; `after` and `next` are the blanks before and behind what follows an element. */
  datatype Tree =
    | NullT | BoolT(b: bool) | NumT(negative: bool, digits: string) | StrT(letters: seq<Letter>)
    | ArrT(blank: string, items: seq<ItemT>) | ObjT(blank: string, members: seq<MemberT>)

  datatype ItemT = ItemT(tree: Tree, after: string, next: string)

  datatype MemberT = MemberT(key: seq<Letter>, colon: string, before: string, tree: Tree, after: string, next: string)

  predicate GoodNumber(digits: string) {
    && digits != "" && (forall i :: 0 <= i < |digits| ==> '0' <= digits[i] <= '9')
    && (digits[0] == '0' ==> |digits| == 1)
  }

  predicate GoodItem(x: ItemT) { Good(x.tree) && AllBlank(x.after) && AllBlank(x.next) }

  predicate GoodMember(m: MemberT) {
    && GoodString(m.key) && AllBlank(m.colon) && AllBlank(m.before) && Good(m.tree) && AllBlank(m.after) && AllBlank(m.next)
  }

  predicate KeysApart(members: seq<MemberT>) {
    && (forall i :: 0 <= i < |members| ==> GoodString(members[i].key))
    && (forall i, j :: 0 <= i < j < |members| ==> StringValue(members[i].key) != StringValue(members[j].key))
  }

  predicate Good(x: Tree) {
    match x
    case NumT(_, digits) => GoodNumber(digits)
    case StrT(letters) => GoodString(letters)
    case ArrT(blank, items) => AllBlank(blank) && forall i :: i in items ==> GoodItem(i)
    case ObjT(blank, members) =>
      AllBlank(blank) && (forall m :: m in members ==> GoodMember(m)) && KeysApart(members)
    case _ => true
  }

  function Spell(x: Tree): string {
    match x
    case NullT => "null"
    case BoolT(b) => if b then "true" else "false"
    case NumT(negative, digits) => (if negative then "-" else "") + digits
    case StrT(letters) => "\"" + StringText(letters)
    case ArrT(blank, items) => "[" + blank + (if items == [] then "]" else SpellItems(items))
    case ObjT(blank, members) => "{" + blank + (if members == [] then "}" else SpellMembers(members))
  }

  function SpellItems(items: seq<ItemT>): string
    requires items != []
  {
    Spell(items[0].tree) + items[0].after
    + (if |items| == 1 then "]" else "," + items[0].next + SpellItems(items[1..]))
  }

  function SpellMember(m: MemberT): string {
    "\"" + StringText(m.key) + m.colon + ":" + m.before + Spell(m.tree)
  }

  function SpellMembers(members: seq<MemberT>): string
    requires members != []
  {
    SpellMember(members[0]) + members[0].after
    + (if |members| == 1 then "}" else "," + members[0].next + SpellMembers(members[1..]))
  }

  /** The value a spelling stands for. */
  function Means(x: Tree): Json
    requires Good(x)
  {
    match x
    case NullT => Null
    case BoolT(b) => Bool(b)
    case NumT(negative, digits) =>
      var n: int := DigitsValue(digits);
      Int(if negative then -n else n)
    case StrT(letters) => Str(StringValue(letters))
    case ArrT(_, items) => Arr(MeansItems(items))
    case ObjT(_, members) => Obj(MeansMembers(members))
  }

  function MeansItems(items: seq<ItemT>): seq<Json>
    requires forall i :: i in items ==> GoodItem(i)
  {
    if items == [] then []
    else
      assert GoodItem(items[0]);
      [Means(items[0].tree)] + MeansItems(items[1..])
  }

  function MeansMembers(members: seq<MemberT>): seq<Member>
    requires forall m :: m in members ==> GoodMember(m)
  {
    if members == [] then []
    else
      assert GoodMember(members[0]);
      [Member(StringValue(members[0].key), Means(members[0].tree))] + MeansMembers(members[1..])
  }

  // ------------------------------------------------------------------ blanks and letters

  lemma {:induction false} SkipBlanks(blank: string, s: string)
    requires AllBlank(blank) && (s == "" || !Blank(s[0]))
    ensures Skip(blank + s) == s
  {
    if blank == "" {
      assert blank + s == s;
    } else {
      assert (blank + s)[0] == blank[0] && (blank + s)[1..] == blank[1..] + s;
      SkipBlanks(blank[1..], s);
    }
  }

  lemma {:induction false} Regrouped(a: string, b: string, c: string)
    ensures a + (b + c) == a + b + c
  {
  }

  /** An element, blanks and what closes or follows it. */
  lemma {:induction false} ElementText(one: string, blank: string, next: string, out: string)
    ensures one + (blank + (next + out)) == one + blank + next + out
  {
    Regrouped(blank, next, out);
    Regrouped(one, blank + next, out);
    Regrouped(one, blank, next);
  }

  lemma {:induction false} Behind(a: string, b: string, c: string, d: string)
    requires |a| == 1
    ensures (a + b + c + d)[0] == a[0] && (a + b + c + d)[1..] == b + (c + d)
  {
    Regrouped(a + b, c, d);
    Regrouped(a, b, c + d);
  }

  lemma {:induction false} SkipRead(s: string)
    ensures s != "" && Blank(s[0]) ==> Skip(s) == Skip(s[1..])
    ensures s == "" || !Blank(s[0]) ==> Skip(s) == s
  {
  }

  lemma {:induction false} SkippedIsBlank(s: string) returns (blank: string)
    ensures AllBlank(blank) && s == blank + Skip(s) && (Skip(s) == "" || !Blank(Skip(s)[0]))
  {
    hide Skip, AllBlank;
    SkipRead(s);
    if s != "" && Blank(s[0]) {
      var rest := SkippedIsBlank(s[1..]);
      blank := [s[0]] + rest;
      MoreBlank(s[0], rest);
      Regrouped([s[0]], rest, Skip(s));
      assert s == [s[0]] + s[1..];
    } else {
      blank := "";
      MoreBlank(' ', "");
    }
  }

  lemma {:induction false} MoreBlank(c: char, rest: string)
    ensures AllBlank("") && (Blank(c) && AllBlank(rest) ==> AllBlank([c] + rest))
  {
  }

  lemma {:induction false} HexAgrees(c: char)
    ensures HexValue(c) == if HexNumber(c) >= 0 then Some(HexNumber(c)) else None
  {
  }

  lemma {:induction false} UnitAgrees(d: string, rest: string)
    requires |d| == 4
    ensures CodeUnit(d + rest) == if FourHex(d) then Got(UnitOf(d), rest) else Fail
  {
    var s := d + rest;
    assert s[0] == d[0] && s[1] == d[1] && s[2] == d[2] && s[3] == d[3] && s[4..] == rest;
    HexAgrees(d[0]);
    HexAgrees(d[1]);
    HexAgrees(d[2]);
    HexAgrees(d[3]);
  }

  lemma {:induction false} UnitSplit(s: string)
    requires CodeUnit(s).Got?
    ensures |s| >= 4 && FourHex(s[..4]) && CodeUnit(s) == Got(UnitOf(s[..4]), s[4..])
  {
    assert s == s[..4] + s[4..];
    UnitAgrees(s[..4], s[4..]);
  }

  lemma {:induction false} LetterParses(l: Letter, body: string)
    requires GoodLetter(l) && ParseStringBody(body).Got?
    ensures ParseStringBody(LetterText(l) + body) ==
            Got([LetterValue(l)] + ParseStringBody(body).value, ParseStringBody(body).rest)
  {
    var s := LetterText(l) + body;
    match l
    case Plain(c) => assert s[0] == c && s[1..] == body;
    case Short(sign) => assert s[0] == '\\' && s[1..] == [sign] + body && s[1..][1..] == body;
    case Code(digits) => CodeParses(digits, body);
    case Pair(high, low) => PairParses(high, low, body);
  }

  lemma {:induction false} EscapedAtHead(s: string, c: char, body: string)
    requires s != "" && s[0] == '\\' && ParseEscape(s[1..]) == Got(c, body) && |body| < |s| && ParseStringBody(body).Got?
    ensures ParseStringBody(s) == Got([c] + ParseStringBody(body).value, ParseStringBody(body).rest)
  {
    hide ParseEscape;
  }

  lemma {:induction false} UnitAtHead(s: string, n: nat, rest: string)
    requires s != "" && s[0] == 'u' && n < 0x1_0000 && CodeUnit(s[1..]) == Got(n, rest)
    ensures !(0xD800 <= n < 0xE000) ==> ParseEscape(s) == Got(n as char, rest)
    ensures 0xD800 <= n < 0xDC00 && |rest| >= 2 && rest[..2] == "\\u" && CodeUnit(rest[2..]).Got?
            && 0xDC00 <= CodeUnit(rest[2..]).value < 0xE000 ==>
              ParseEscape(s) == Got((0x1_0000 + (n - 0xD800) * 0x400 + (CodeUnit(rest[2..]).value - 0xDC00)) as char,
                                    CodeUnit(rest[2..]).rest)
  {
    hide CodeUnit;
  }

  lemma {:induction false} CodeParses(digits: string, body: string)
    requires GoodLetter(Code(digits)) && ParseStringBody(body).Got?
    ensures ParseStringBody("\\u" + digits + body) ==
            Got([LetterValue(Code(digits))] + ParseStringBody(body).value, ParseStringBody(body).rest)
  {
    hide CodeUnit, UnitOf, FourHex, ParseStringBody, ParseEscape;
    var s := "\\u" + digits + body;
    FourLong(digits);
    assert s[0] == '\\' && s[1..][0] == 'u' && s[1..][1..] == digits + body;
    UnitAgrees(digits, body);
    UnitAtHead(s[1..], UnitOf(digits), body);
    EscapedAtHead(s, LetterValue(Code(digits)), body);
  }

  lemma {:induction false} FourLong(d: string)
    requires FourHex(d)
    ensures |d| == 4
  {
  }

  lemma {:induction false} PairParses(high: string, low: string, body: string)
    requires GoodLetter(Pair(high, low)) && ParseStringBody(body).Got?
    ensures ParseStringBody("\\u" + high + "\\u" + low + body) ==
            Got([LetterValue(Pair(high, low))] + ParseStringBody(body).value, ParseStringBody(body).rest)
  {
    hide CodeUnit, FourHex, UnitOf, ParseStringBody, ParseEscape;
    var tail := "\\u" + low + body;
    var s := "\\u" + high + "\\u" + low + body;
    FourLong(high);
    FourLong(low);
    PairHead(high, low, body);
    UnitAgrees(high, tail);
    UnitAgrees(low, body);
    UnitAtHead(s[1..], UnitOf(high), tail);
    EscapedAtHead(s, LetterValue(Pair(high, low)), body);
  }

  lemma {:induction false} PairHead(high: string, low: string, body: string)
    ensures var tail := "\\u" + low + body;
            var s := "\\u" + high + "\\u" + low + body;
            && |tail| >= 2 && tail[..2] == "\\u" && tail[2..] == low + body
            && |body| < |s| && s[0] == '\\' && s[1..][0] == 'u' && s[1..][1..] == high + tail
  {
  }

  lemma {:induction false} StringParsesBack(ls: seq<Letter>, rest: string)
    requires GoodString(ls)
    ensures ParseStringBody(StringText(ls) + rest) == Got(StringValue(ls), rest)
  {
    if ls == [] {
      assert (StringText(ls) + rest)[1..] == rest;
    } else {
      assert forall i :: 0 <= i < |ls| - 1 ==> ls[1..][i] == ls[i + 1];
      StringParsesBack(ls[1..], rest);
      LetterParses(ls[0], StringText(ls[1..]) + rest);
      assert StringText(ls) + rest == LetterText(ls[0]) + (StringText(ls[1..]) + rest);
    }
  }

  /** What follows a backslash in a readable text. */
  lemma {:induction false} EscapeIsLetter(s: string) returns (l: Letter)
    requires ParseEscape(s).Got?
    ensures GoodLetter(l) && LetterValue(l) == ParseEscape(s).value && ['\\'] + s == LetterText(l) + ParseEscape(s).rest
  {
    if s[0] == 'u' {
      l := UnitIsLetter(s);
    } else {
      hide CodeUnit;
      l := Short(s[0]);
      assert s == [s[0]] + s[1..];
    }
  }

  /** What a unit escape reads as. */
  lemma {:induction false} UnitRead(s: string)
    requires ParseEscape(s).Got? && s[0] == 'u'
    ensures CodeUnit(s[1..]).Got?
    ensures var unit := CodeUnit(s[1..]);
            if !(0xD800 <= unit.value < 0xE000) then ParseEscape(s) == Got(unit.value as char, unit.rest)
            else
              && unit.value < 0xDC00 && |unit.rest| >= 2 && unit.rest[..2] == "\\u"
              && var low := CodeUnit(unit.rest[2..]);
                 && low.Got? && 0xDC00 <= low.value < 0xE000
                 && ParseEscape(s) == Got((0x1_0000 + (unit.value - 0xD800) * 0x400 + (low.value - 0xDC00)) as char, low.rest)
  {
    hide CodeUnit;
  }

  lemma {:induction false} UnitIsLetter(s: string) returns (l: Letter)
    requires ParseEscape(s).Got? && s[0] == 'u'
    ensures GoodLetter(l) && LetterValue(l) == ParseEscape(s).value && ['\\'] + s == LetterText(l) + ParseEscape(s).rest
  {
    hide ParseEscape, CodeUnit, UnitOf, FourHex;
    UnitRead(s);
    UnitSplit(s[1..]);
    var d, after := s[1..][..4], s[1..][4..];
    if !(0xD800 <= UnitOf(d) < 0xE000) {
      l := Code(d);
      CodeText(s, d, after);
    } else {
      UnitSplit(after[2..]);
      var e, rest := after[2..][..4], after[2..][4..];
      l := Pair(d, e);
      PairText(s, d, e, after, rest);
    }
  }

  lemma {:induction false} CodeText(s: string, d: string, after: string)
    requires |s| >= 1 && s[0] == 'u' && s[1..] == d + after
    ensures ['\\'] + s == "\\u" + d + after
  {
    assert s == ['u'] + s[1..];
  }

  lemma {:induction false} PairText(s: string, d: string, e: string, after: string, rest: string)
    requires |s| >= 1 && s[0] == 'u' && s[1..] == d + after && |after| >= 2 && after[..2] == "\\u" && after[2..] == e + rest
    ensures ['\\'] + s == "\\u" + d + "\\u" + e + rest
  {
    assert after == "\\u" + (e + rest);
  }

  /** One step of the string reader. */
  lemma {:induction false} BodyRead(s: string)
    requires ParseStringBody(s).Got?
    ensures s != ""
    ensures s[0] == '\"' ==> ParseStringBody(s) == Got("", s[1..])
    ensures s[0] == '\\' ==>
              var c := ParseEscape(s[1..]);
              c.Got? && |c.rest| < |s| && ParseStringBody(c.rest).Got?
              && ParseStringBody(s) == Got([c.value] + ParseStringBody(c.rest).value, ParseStringBody(c.rest).rest)
    ensures s[0] != '\"' && s[0] != '\\' ==>
              s[0] >= ' ' && ParseStringBody(s[1..]).Got?
              && ParseStringBody(s) == Got([s[0]] + ParseStringBody(s[1..]).value, ParseStringBody(s[1..]).rest)
  {
    hide ParseEscape;
  }

  lemma {:induction false} MoreLetters(l: Letter, rest: seq<Letter>)
    requires GoodLetter(l) && GoodString(rest)
    ensures GoodString([l] + rest) && StringValue([l] + rest) == [LetterValue(l)] + StringValue(rest)
    ensures StringText([l] + rest) == LetterText(l) + StringText(rest)
  {
    assert ([l] + rest)[1..] == rest;
    assert forall i :: 0 < i < |[l] + rest| ==> ([l] + rest)[i] == rest[i - 1];
  }

  lemma {:induction false} BodyIsLetters(s: string) returns (ls: seq<Letter>)
    requires ParseStringBody(s).Got?
    ensures GoodString(ls) && StringValue(ls) == ParseStringBody(s).value && s == StringText(ls) + ParseStringBody(s).rest
    decreases |s|
  {
    hide ParseStringBody, ParseEscape, LetterValue, GoodLetter, LetterText, GoodString;
    if s[0] == '\"' {
      BodyRead(s);
      ls := NoLetters();
      assert s == "\"" + s[1..];
    } else {
      hide StringText, StringValue;
      var l, tail := HeadLetter(s);
      var rest := BodyIsLetters(tail);
      ls := [l] + rest;
      MoreLetters(l, rest);
      Regrouped(LetterText(l), StringText(rest), ParseStringBody(tail).rest);
    }
  }

  lemma {:induction false} NoLetters() returns (ls: seq<Letter>)
    ensures ls == [] && GoodString(ls) && StringText(ls) == "\"" && StringValue(ls) == ""
  {
    ls := [];
  }

  /** The first letter of a string that goes on. */
  lemma {:induction false} HeadLetter(s: string) returns (l: Letter, tail: string)
    requires ParseStringBody(s).Got? && s != "" && s[0] != '\"'
    ensures GoodLetter(l) && s == LetterText(l) + tail && |tail| < |s| && ParseStringBody(tail).Got?
    ensures ParseStringBody(s) == Got([LetterValue(l)] + ParseStringBody(tail).value, ParseStringBody(tail).rest)
  {
    hide ParseStringBody, ParseEscape;
    BodyRead(s);
    if s[0] == '\\' {
      l := EscapeIsLetter(s[1..]);
      tail := ParseEscape(s[1..]).rest;
      assert s == ['\\'] + s[1..];
    } else {
      l, tail := Plain(s[0]), s[1..];
      PlainIs(s[0]);
      assert s == [s[0]] + s[1..];
    }
  }

  lemma {:induction false} PlainIs(c: char)
    requires c >= ' ' && c != '\"' && c != '\\'
    ensures GoodLetter(Plain(c)) && LetterValue(Plain(c)) == c
  {
  }

  // ------------------------------------------------------------------ every spelling is read

  lemma {:induction false} SpellHead(x: Tree)
    requires Good(x)
    ensures Spell(x) != "" && !Blank(Spell(x)[0]) && Spell(x)[0] !in {']', '}', ',', ':'}
    ensures x.NumT? ==> Spell(x)[0] == '-' || IsDigit(Spell(x)[0])
  {
    if x.NumT? { assert IsDigit(x.digits[0]); }
  }

  lemma {:induction false} DigitsParse(digits: string, rest: string)
    requires GoodNumber(digits) && EndsNumber(rest)
    ensures AllDigits(digits) && IsDigit(digits[0]) && ParseNat(digits + rest) == Got(DigitsValue(digits), rest)
  {
    var t := digits + rest;
    assert AllDigits(digits) && IsDigit(digits[0]) && t[0] == digits[0];
    DigitsStop(digits, rest);
    assert t[..|digits|] == digits && t[|digits|..] == rest;
    if digits[0] == '0' {
      assert digits == "0" && t[1..] == rest;
      ZeroIsNothing();
    }
  }

  lemma {:induction false} NumberParses(negative: bool, digits: string, rest: string)
    requires GoodNumber(digits) && EndsNumber(rest)
    ensures ParseValue(Spell(NumT(negative, digits)) + rest) == Got(Means(NumT(negative, digits)), rest)
  {
    hide ParseValue, ParseNat, DigitsValue;
    var t := digits + rest;
    DigitsParse(digits, rest);
    assert t[0] == digits[0];
    var s := Spell(NumT(negative, digits)) + rest;
    if negative {
      assert s[0] == '-' && s[1..] == t;
    } else {
      assert s == t;
    }
    NumberAtHead(s);
  }

  lemma {:induction false} ZeroIsNothing()
    ensures AllDigits("0") && DigitsValue("0") == 0
  {
    assert "0"[..0] == "" && IsDigit("0"[0]);
  }

  lemma {:induction false} NumberAtHead(s: string)
    requires s != "" && (s[0] == '-' || IsDigit(s[0]))
    ensures ParseValue(s) == ParseNumber(s)
  {
    hide ParseNumber;
  }

  lemma {:induction false} TextParses(letters: seq<Letter>, rest: string)
    requires GoodString(letters)
    ensures ParseValue("\"" + StringText(letters) + rest) == Got(Str(StringValue(letters)), rest)
  {
    hide StringText, ParseStringBody, ParseNumber, StringValue;
    StringParsesBack(letters, rest);
    var s := "\"" + StringText(letters) + rest;
    assert s[0] == '\"' && s[1..] == StringText(letters) + rest;
  }

  lemma {:induction false} SpelledParses(x: Tree, rest: string)
    requires Good(x) && (x.NumT? ==> EndsNumber(rest))
    ensures ParseValue(Spell(x) + rest) == Got(Means(x), rest)
    decreases x
  {
    match x
    case NullT => WordParses("null", rest);
    case BoolT(b) => WordParses(if b then "true" else "false", rest);
    case NumT(negative, digits) => NumberParses(negative, digits, rest);
    case StrT(letters) => TextParses(letters, rest);
    case ArrT(blank, items) =>
      if items != [] { SpelledItemsParse(items, rest); }
      ArrayParses(blank, items, rest);
    case ObjT(blank, members) =>
      if members != [] { SpelledMembersParse(members, rest); }
      ObjectParses(blank, members, rest);
  }

  lemma {:induction false} ArrayParses(blank: string, items: seq<ItemT>, rest: string)
    requires Good(ArrT(blank, items))
    requires items != [] ==> ParseItems(SpellItems(items) + rest) == Got(MeansItems(items), rest)
    ensures ParseValue(Spell(ArrT(blank, items)) + rest) == Got(Arr(MeansItems(items)), rest)
  {
    hide SpellItems, ParseItems, MeansItems, Good;
    var inner := (if items == [] then "]" else SpellItems(items)) + rest;
    var s := Spell(ArrT(blank, items)) + rest;
    Behind("[", blank, if items == [] then "]" else SpellItems(items), rest);
    if items == [] {
      assert inner[0] == ']' && inner[1..] == rest;
      NoItems();
    } else {
      ItemsHeadIs(items, blank);
      assert inner[0] == SpellItems(items)[0];
    }
    BlankOf(blank, items);
    SkipBlanks(blank, inner);
    ArrayAtHead(s, inner);
  }

  lemma {:induction false} NoItems()
    ensures MeansItems([]) == [] && MeansMembers([]) == []
  {
  }

  lemma {:induction false} BlankOf(blank: string, items: seq<ItemT>)
    requires Good(ArrT(blank, items))
    ensures AllBlank(blank)
  {
  }

  lemma {:induction false} ItemsHeadIs(items: seq<ItemT>, blank: string)
    requires items != [] && Good(ArrT(blank, items))
    ensures SpellItems(items) != "" && !Blank(SpellItems(items)[0]) && SpellItems(items)[0] != ']'
  {
    assert GoodItem(items[0]);
    SpellHead(items[0].tree);
  }

  lemma {:induction false} ArrayAtHead(s: string, inner: string)
    requires s != "" && s[0] == '[' && Skip(s[1..]) == inner && inner != ""
    ensures ParseValue(s) == if inner[0] == ']' then Got(Arr([]), inner[1..])
                             else if ParseItems(inner).Fail? then Fail else Got(Arr(ParseItems(inner).value), ParseItems(inner).rest)
  {
    hide ParseItems, Skip;
  }

  lemma {:induction false} ObjectAtHead(s: string, inner: string)
    requires s != "" && s[0] == '{' && Skip(s[1..]) == inner && inner != ""
    ensures ParseValue(s) == if inner[0] == '}' then Got(Obj([]), inner[1..])
                             else if ParseMembers(inner).Fail? || !DistinctKeys(ParseMembers(inner).value) then Fail
                             else Got(Obj(ParseMembers(inner).value), ParseMembers(inner).rest)
  {
    hide ParseMembers, Skip, DistinctKeys;
  }

  lemma {:induction false} AllGood(items: seq<ItemT>, k: nat)
    requires (forall i :: i in items ==> GoodItem(i)) && k < |items|
    ensures GoodItem(items[k]) && forall i :: i in items[k..] ==> GoodItem(i)
  {
    assert items[k] in items;
  }

  lemma {:induction false} ItemsAtHead(s: string, after: string)
    requires ParseValue(s).Got? && Skip(ParseValue(s).rest) == after && after != ""
    ensures after[0] == ']' ==> ParseItems(s) == Got([ParseValue(s).value], after[1..])
    ensures after[0] == ',' && ParseItems(Skip(after[1..])).Got? ==>
              ParseItems(s) == Got([ParseValue(s).value] + ParseItems(Skip(after[1..])).value, ParseItems(Skip(after[1..])).rest)
  {
    hide ParseValue, Skip;
  }

  lemma {:induction false} SpelledItemsParse(items: seq<ItemT>, rest: string)
    requires items != [] && forall i :: i in items ==> GoodItem(i)
    ensures ParseItems(SpellItems(items) + rest) == Got(MeansItems(items), rest)
    decreases items
  {
    hide Spell, ParseValue, Means, Good, MeansItems, ParseItems, Skip, AllBlank;
    MeansMore(items);
    var x := items[0];
    var after: string;
    if |items| == 1 {
      after := "]" + rest;
      assert after[0] == ']' && after[1..] == rest && items[1..] == [];
      NoItems();
      assert MeansItems(items) == [Means(x.tree)];
    } else {
      var others := items[1..];
      var more := SpellItems(others) + rest;
      after := "," + x.next + more;
      SpelledItemsParse(others, rest);
      MeansMore(others);
      SpellHead(others[0].tree);
      assert more[0] == Spell(others[0].tree)[0];
      assert after[0] == ',' && after[1..] == x.next + more;
      SkipBlanks(x.next, more);
    }
    EndsAfter(x.after, after);
    SpelledParses(x.tree, x.after + after);
    assert SpellItems(items) + rest == Spell(x.tree) + (x.after + after);
    SkipBlanks(x.after, after);
    ItemsAtHead(SpellItems(items) + rest, after);
  }

  lemma {:induction false} MeansMore(items: seq<ItemT>)
    requires items != [] && forall i :: i in items ==> GoodItem(i)
    ensures GoodItem(items[0]) && Good(items[0].tree)
    ensures MeansItems(items) == [Means(items[0].tree)] + MeansItems(items[1..])
  {
    assert GoodItem(items[0]);
  }

  /** Blanks and what follows an element end a number. */
  lemma {:induction false} EndsAfter(blank: string, tail: string)
    requires AllBlank(blank) && tail != "" && tail[0] in {']', '}', ','}
    ensures EndsNumber(blank + tail)
  {
    assert (blank + tail)[0] == if blank == "" then tail[0] else blank[0];
  }

  lemma {:induction false} ObjectText(blank: string, members: seq<MemberT>)
    requires Good(ObjT(blank, members))
    ensures Spell(ObjT(blank, members)) == "{" + blank + (if members == [] then "}" else SpellMembers(members))
    ensures AllBlank(blank) && (forall m :: m in members ==> GoodMember(m)) && KeysApart(members)
    ensures Means(ObjT(blank, members)) == Obj(MeansMembers(members)) && DistinctKeys(MeansMembers(members))
  {
    KeysAreDistinct(members);
  }

  lemma {:induction false} ObjectParses(blank: string, members: seq<MemberT>, rest: string)
    requires Good(ObjT(blank, members))
    requires members != [] ==> ParseMembers(SpellMembers(members) + rest) == Got(MeansMembers(members), rest)
    ensures ParseValue(Spell(ObjT(blank, members)) + rest) == Got(Obj(MeansMembers(members)), rest)
  {
    hide SpellMembers, ParseMembers, MeansMembers, GoodMember, KeysApart, DistinctKeys, ParseValue, Skip, AllBlank, Good, Spell,
         Means;
    ObjectText(blank, members);
    var inner := (if members == [] then "}" else SpellMembers(members)) + rest;
    var s := Spell(ObjT(blank, members)) + rest;
    Behind("{", blank, if members == [] then "}" else SpellMembers(members), rest);
    if members == [] {
      assert inner[0] == '}' && inner[1..] == rest;
      NoItems();
    } else {
      MembersHeadIs(members);
      assert inner[0] == SpellMembers(members)[0];
    }
    SkipBlanks(blank, inner);
    ObjectAtHead(s, inner);
  }

  lemma {:induction false} MembersHeadIs(members: seq<MemberT>)
    requires members != []
    ensures SpellMembers(members) != "" && SpellMembers(members)[0] == '\"'
  {
  }

  lemma {:induction false} MeansKeys(members: seq<MemberT>, k: nat)
    requires (forall m :: m in members ==> GoodMember(m)) && k < |members|
    ensures |MeansMembers(members)| == |members| && GoodMember(members[k])
    ensures MeansMembers(members)[k] == Member(StringValue(members[k].key), Means(members[k].tree))
  {
    assert GoodMember(members[0]) && GoodMember(members[k]);
    if k > 0 {
      assert members[1..][k - 1] == members[k];
      MeansKeys(members[1..], k - 1);
    } else if |members| > 1 {
      MeansKeys(members[1..], 0);
    }
  }

  lemma {:induction false} KeysAreDistinct(members: seq<MemberT>)
    requires forall m :: m in members ==> GoodMember(m)
    requires forall i :: 0 <= i < |members| ==> GoodString(members[i].key)
    ensures DistinctKeys(MeansMembers(members)) <==> KeysApart(members)
  {
    hide MeansMembers, GoodMember;
    if members == [] {
      NoItems();
    } else {
      MeansKeys(members, 0);
      forall i | 0 <= i < |members| ensures MeansMembers(members)[i].key == StringValue(members[i].key) { MeansKeys(members, i); }
    }
  }

  lemma {:induction false} MemberAtHead(s: string, body: string, colon: string, value: string)
    requires s != "" && s[0] == '\"' && s[1..] == body && ParseStringBody(body).Got?
    requires Skip(ParseStringBody(body).rest) == colon && colon != "" && colon[0] == ':' && Skip(colon[1..]) == value
    requires ParseValue(value).Got?
    ensures ParseMember(s) == Got(Member(ParseStringBody(body).value, ParseValue(value).value), ParseValue(value).rest)
  {
    hide ParseStringBody, ParseValue, Skip;
  }

  lemma {:induction false} SpelledMemberParses(m: MemberT, tail: string)
    requires GoodMember(m) && ParseValue(Spell(m.tree) + tail) == Got(Means(m.tree), tail)
    ensures ParseMember(SpellMember(m) + tail) == Got(Member(StringValue(m.key), Means(m.tree)), tail)
  {
    hide ParseValue, Spell, ParseStringBody, StringText, StringValue, Means, Good, ParseMember, Skip, AllBlank, GoodString;
    SpellHead(m.tree);
    var value := Spell(m.tree) + tail;
    var after := ":" + m.before + value;
    var s := SpellMember(m) + tail;
    StringParsesBack(m.key, m.colon + after);
    var body := StringText(m.key) + (m.colon + after);
    assert s == "\"" + body;
    SkipBlanks(m.colon, after);
    assert after[1..] == m.before + value && value[0] == Spell(m.tree)[0];
    SkipBlanks(m.before, value);
    MemberAtHead(s, body, after, value);
  }

  lemma {:induction false} MembersAtHead(s: string, after: string)
    requires ParseMember(s).Got? && Skip(ParseMember(s).rest) == after && after != ""
    ensures after[0] == '}' ==> ParseMembers(s) == Got([ParseMember(s).value], after[1..])
    ensures after[0] == ',' && ParseMembers(Skip(after[1..])).Got? ==>
              ParseMembers(s) == Got([ParseMember(s).value] + ParseMembers(Skip(after[1..])).value,
                                     ParseMembers(Skip(after[1..])).rest)
  {
    hide ParseMember, Skip;
  }

  lemma {:induction false} SpelledMembersParse(members: seq<MemberT>, rest: string)
    requires members != [] && forall m :: m in members ==> GoodMember(m)
    ensures ParseMembers(SpellMembers(members) + rest) == Got(MeansMembers(members), rest)
    decreases members
  {
    hide SpellMember, ParseMember, ParseMembers, GoodMember, Good, MeansMembers, Means, ParseValue, Skip, AllBlank;
    MeansMoreMembers(members);
    var m := members[0];
    var after: string;
    if |members| == 1 {
      after := "}" + rest;
      assert after[0] == '}' && after[1..] == rest && members[1..] == [];
      NoItems();
      assert MeansMembers(members) == [Member(StringValue(m.key), Means(m.tree))];
    } else {
      var others := members[1..];
      var more := SpellMembers(others) + rest;
      after := "," + m.next + more;
      SpelledMembersParse(others, rest);
      MembersHeadIs(others);
      assert more[0] == SpellMembers(others)[0];
      assert after[0] == ',' && after[1..] == m.next + more;
      SkipBlanks(m.next, more);
    }
    EndsAfter(m.after, after);
    SpelledParses(m.tree, m.after + after);
    SpelledMemberParses(m, m.after + after);
    assert SpellMembers(members) + rest == SpellMember(m) + (m.after + after);
    SkipBlanks(m.after, after);
    MembersAtHead(SpellMembers(members) + rest, after);
  }

  lemma {:induction false} MeansMoreMembers(members: seq<MemberT>)
    requires members != [] && forall m :: m in members ==> GoodMember(m)
    ensures GoodMember(members[0]) && Good(members[0].tree) && AllBlank(members[0].after) && AllBlank(members[0].next)
    ensures MeansMembers(members) ==
            [Member(StringValue(members[0].key), Means(members[0].tree))] + MeansMembers(members[1..])
  {
    assert GoodMember(members[0]);
  }

  // ------------------------------------------------------------------ only spellings are read

  lemma {:induction false} NatIsDigits(s: string) returns (digits: string)
    requires ParseNat(s).Got?
    ensures GoodNumber(digits) && AllDigits(digits) && DigitsValue(digits) == ParseNat(s).value && s == digits + ParseNat(s).rest
  {
    if s[0] == '0' {
      digits := "0";
      ZeroIsNothing();
      assert s == "0" + s[1..];
    } else {
      digits := s[..Digits(s)];
      DigitsNonEmpty(s);
      assert digits[0] == s[0];
      forall i | 0 <= i < |digits| ensures '0' <= digits[i] <= '9' { assert IsDigit(digits[i]); }
    }
  }

  lemma {:induction false} DigitsNonEmpty(s: string)
    requires s != "" && IsDigit(s[0])
    ensures Digits(s) > 0
  {
  }

  lemma {:induction false} NumberRead(s: string)
    requires ParseNumber(s).Got?
    ensures var negative := s != "" && s[0] == '-';
            var n := ParseNat(if negative then s[1..] else s);
            n.Got? && var magnitude: int := n.value; ParseNumber(s) == Got(Int(if negative then -magnitude else magnitude), n.rest)
  {
    hide ParseNat;
  }

  lemma {:induction false} NumberIsSpelled(s: string) returns (x: Tree)
    requires ParseNumber(s).Got?
    ensures Good(x) && Means(x) == ParseNumber(s).value && s == Spell(x) + ParseNumber(s).rest
  {
    hide ParseNat, ParseNumber, GoodNumber, DigitsValue, AllDigits;
    NumberRead(s);
    var negative := s != "" && s[0] == '-';
    var digits := NatIsDigits(if negative then s[1..] else s);
    x := NumT(negative, digits);
    if negative {
      Regrouped("-", digits, ParseNumber(s).rest);
      assert s == "-" + s[1..];
    }
  }

  /** Whatever is read is the meaning of a spelling, and the rest is what follows it. */
  lemma {:induction false} ReadIsSpelled(s: string) returns (x: Tree)
    requires ParseValue(s).Got?
    ensures Good(x) && Means(x) == ParseValue(s).value && s == Spell(x) + ParseValue(s).rest
    decreases |s|, 0
  {
    if Starts(s, "null") {
      x := NullT;
    } else if Starts(s, "true") {
      x := BoolT(true);
    } else if Starts(s, "false") {
      x := BoolT(false);
    } else if s[0] == '\"' {
      x := TextIsSpelled(s);
    } else if s[0] == '[' {
      x := ArrayIsSpelled(s);
    } else if s[0] == '{' {
      x := ObjectIsSpelled(s);
    } else {
      x := NumberIsSpelled(s);
    }
  }

  lemma {:induction false} TextIsSpelled(s: string) returns (x: Tree)
    requires ParseValue(s).Got? && s[0] == '\"'
    ensures Good(x) && Means(x) == ParseValue(s).value && s == Spell(x) + ParseValue(s).rest
  {
    hide ParseStringBody, StringText, GoodString, ParseNumber;
    var letters := BodyIsLetters(s[1..]);
    x := StrT(letters);
    assert s == "\"" + s[1..];
  }

  lemma {:induction false} ArrayIsSpelled(s: string) returns (x: Tree)
    requires ParseValue(s).Got? && s[0] == '['
    ensures Good(x) && Means(x) == ParseValue(s).value && s == Spell(x) + ParseValue(s).rest
    decreases |s| - 1, 3
  {
    hide ParseValue, ParseItems, SpellItems, MeansItems, GoodItem, Skip, AllBlank;
    var blank := SkippedIsBlank(s[1..]);
    var inner := Skip(s[1..]);
    assert s == "[" + (blank + inner) by { assert s == "[" + s[1..]; }
    SomethingInside(s, inner);
    ArrayAtHead(s, inner);
    if inner[0] == ']' {
      x := ArrT(blank, []);
      NoItems();
      assert inner == "]" + inner[1..];
      ElementText("[", blank, "]", inner[1..]);
    } else {
      var items := ItemsAreSpelled(inner);
      x := ArrT(blank, items);
      ElementText("[", blank, SpellItems(items), ParseItems(inner).rest);
    }
  }

  lemma {:induction false} SomethingInside(s: string, inner: string)
    requires ParseValue(s).Got? && (s[0] == '[' || s[0] == '{') && inner == Skip(s[1..])
    ensures inner != ""
  {
  }

  lemma {:induction false} ItemsRead(s: string)
    requires ParseItems(s).Got?
    ensures ParseValue(s).Got?
    ensures var after := Skip(ParseValue(s).rest);
            && after != ""
            && (after[0] == ']' || (after[0] == ',' && ParseItems(Skip(after[1..])).Got?))
            && (after[0] == ']' ==> ParseItems(s) == Got([ParseValue(s).value], after[1..]))
            && (after[0] == ',' ==>
                  ParseItems(s) == Got([ParseValue(s).value] + ParseItems(Skip(after[1..])).value,
                                       ParseItems(Skip(after[1..])).rest))
  {
    hide ParseValue, Skip;
  }

  lemma {:induction false} ItemsAreSpelled(s: string) returns (items: seq<ItemT>)
    requires ParseItems(s).Got?
    ensures items != [] && forall i :: i in items ==> GoodItem(i)
    ensures MeansItems(items) == ParseItems(s).value && s == SpellItems(items) + ParseItems(s).rest
    decreases |s|, 1
  {
    hide ParseValue, ParseItems, Spell, SpellItems, Means, MeansItems, Good, Skip, AllBlank;
    ItemsRead(s);
    var x := ReadIsSpelled(s);
    var rest := ParseValue(s).rest;
    var blank := SkippedIsBlank(rest);
    var after := Skip(rest);
    if after[0] == ']' {
      MoreBlank(' ', "");
      items := [ItemT(x, blank, "")];
      assert after == "]" + after[1..];
      OneItem(items);
      ElementText(Spell(x), blank, "]", after[1..]);
    } else {
      var next := SkippedIsBlank(after[1..]);
      var others := ItemsAreSpelled(Skip(after[1..]));
      var out := ParseItems(Skip(after[1..])).rest;
      assert after == "," + after[1..];
      items := [ItemT(x, blank, next)] + others;
      MoreItems(ItemT(x, blank, next), others);
      ElementText(",", next, SpellItems(others), out);
      ElementText(Spell(x), blank, "," + next + SpellItems(others), out);
    }
  }

  lemma {:induction false} OneItem(items: seq<ItemT>)
    requires |items| == 1 && GoodItem(items[0])
    ensures (forall i :: i in items ==> GoodItem(i)) && Good(items[0].tree)
    ensures MeansItems(items) == [Means(items[0].tree)] && SpellItems(items) == Spell(items[0].tree) + items[0].after + "]"
  {
    assert items[1..] == [];
    NoItems();
  }

  lemma {:induction false} MoreItems(x: ItemT, others: seq<ItemT>)
    requires GoodItem(x) && others != [] && forall i :: i in others ==> GoodItem(i)
    ensures (forall i :: i in [x] + others ==> GoodItem(i)) && Good(x.tree)
    ensures MeansItems([x] + others) == [Means(x.tree)] + MeansItems(others)
    ensures SpellItems([x] + others) == Spell(x.tree) + x.after + ("," + x.next + SpellItems(others))
  {
    assert ([x] + others)[1..] == others;
  }

  lemma {:induction false} ObjectIsSpelled(s: string) returns (x: Tree)
    requires ParseValue(s).Got? && s[0] == '{'
    ensures Good(x) && Means(x) == ParseValue(s).value && s == Spell(x) + ParseValue(s).rest
    decreases |s| - 1, 3
  {
    hide ParseValue, ParseMembers, SpellMembers, MeansMembers, GoodMember, KeysApart, DistinctKeys, Skip, AllBlank;
    var blank := SkippedIsBlank(s[1..]);
    var inner := Skip(s[1..]);
    assert s == "{" + (blank + inner) by { assert s == "{" + s[1..]; }
    SomethingInside(s, inner);
    ObjectAtHead(s, inner);
    if inner[0] == '}' {
      x := ObjT(blank, []);
      NoItems();
      NoKeys();
      assert inner == "}" + inner[1..];
      ElementText("{", blank, "}", inner[1..]);
    } else {
      var members := MembersAreSpelled(inner);
      ElementText("{", blank, SpellMembers(members), ParseMembers(inner).rest);
      GoodKeys(members);
      KeysAreDistinct(members);
      x := ObjT(blank, members);
    }
  }

  lemma {:induction false} NoKeys()
    ensures KeysApart([])
  {
  }

  lemma {:induction false} GoodKeys(members: seq<MemberT>)
    requires forall m :: m in members ==> GoodMember(m)
    ensures forall i :: 0 <= i < |members| ==> GoodString(members[i].key)
  {
    forall i | 0 <= i < |members| ensures GoodString(members[i].key) { assert GoodMember(members[i]); }
  }

  lemma {:induction false} MembersRead(s: string)
    requires ParseMembers(s).Got?
    ensures ParseMember(s).Got?
    ensures var after := Skip(ParseMember(s).rest);
            && after != ""
            && (after[0] == '}' || (after[0] == ',' && ParseMembers(Skip(after[1..])).Got?))
            && (after[0] == '}' ==> ParseMembers(s) == Got([ParseMember(s).value], after[1..]))
            && (after[0] == ',' ==>
                  ParseMembers(s) == Got([ParseMember(s).value] + ParseMembers(Skip(after[1..])).value,
                                         ParseMembers(Skip(after[1..])).rest))
  {
    hide ParseMember, Skip;
  }

  lemma {:induction false} MemberRead(s: string)
    requires ParseMember(s).Got?
    ensures s != "" && s[0] == '\"' && ParseStringBody(s[1..]).Got?
    ensures var colon := Skip(ParseStringBody(s[1..]).rest);
            && colon != "" && colon[0] == ':' && |colon| < |s|
            && ParseValue(Skip(colon[1..])).Got?
            && ParseMember(s) == Got(Member(ParseStringBody(s[1..]).value, ParseValue(Skip(colon[1..])).value),
                                     ParseValue(Skip(colon[1..])).rest)
  {
    hide ParseStringBody, ParseValue, Skip;
  }

  lemma {:induction false} MemberIsSpelled(s: string) returns (m: MemberT)
    requires ParseMember(s).Got?
    ensures GoodString(m.key) && AllBlank(m.colon) && AllBlank(m.before) && Good(m.tree) && m.after == "" && m.next == ""
    ensures ParseMember(s).value == Member(StringValue(m.key), Means(m.tree)) && s == SpellMember(m) + ParseMember(s).rest
    decreases |s|, 1
  {
    hide ParseStringBody, ParseValue, ParseMember, StringText, StringValue, GoodString, Spell, Means, Good, Skip, AllBlank;
    MemberRead(s);
    var key := BodyIsLetters(s[1..]);
    var behind := ParseStringBody(s[1..]).rest;
    var before := SkippedIsBlank(behind);
    var colon := Skip(behind);
    var blank := SkippedIsBlank(colon[1..]);
    var x := ReadIsSpelled(Skip(colon[1..]));
    m := MemberT(key, before, blank, x, "", "");
    assert s == "\"" + s[1..] && colon == ":" + colon[1..];
    MemberText(StringText(key), before, blank, Spell(x), ParseMember(s).rest);
  }

  lemma {:induction false} MemberText(key: string, before: string, blank: string, value: string, out: string)
    ensures "\"" + (key + (before + (":" + (blank + (value + out))))) == "\"" + key + before + ":" + blank + value + out
  {
    ElementText(":", blank, value, out);
    ElementText(key, before, ":" + blank + value, out);
    Regrouped("\"", key + before + (":" + blank + value), out);
    Regrouped("\"", key + before, ":" + blank + value);
    Regrouped("\"", key, before);
    Regrouped("\"" + key + before, ":" + blank, value);
    Regrouped("\"" + key + before, ":", blank);
  }

  lemma {:induction false} MembersAreSpelled(s: string) returns (members: seq<MemberT>)
    requires ParseMembers(s).Got?
    ensures members != [] && forall m :: m in members ==> GoodMember(m)
    ensures MeansMembers(members) == ParseMembers(s).value && s == SpellMembers(members) + ParseMembers(s).rest
    decreases |s|, 2
  {
    hide ParseMember, ParseMembers, Spell, SpellMember, SpellMembers, Means, MeansMembers, Good, Skip, GoodString, StringValue,
         StringText, AllBlank;
    MembersRead(s);
    var m := MemberIsSpelled(s);
    var rest := ParseMember(s).rest;
    var blank := SkippedIsBlank(rest);
    var after := Skip(rest);
    if after[0] == '}' {
      var one := m.(after := blank);
      members := [one];
      assert after == "}" + after[1..];
      OneMember(members);
      SameMember(m, one);
      ElementText(SpellMember(m), blank, "}", after[1..]);
    } else {
      var next := SkippedIsBlank(after[1..]);
      var others := MembersAreSpelled(Skip(after[1..]));
      var out := ParseMembers(Skip(after[1..])).rest;
      assert after == "," + after[1..];
      var one := m.(after := blank, next := next);
      members := [one] + others;
      MoreMembers(one, others);
      SameMember(m, one);
      ElementText(",", next, SpellMembers(others), out);
      ElementText(SpellMember(m), blank, "," + next + SpellMembers(others), out);
    }
  }

  lemma {:induction false} SameMember(m: MemberT, one: MemberT)
    requires one == m.(after := one.after, next := one.next)
    ensures SpellMember(one) == SpellMember(m)
  {
  }

  lemma {:induction false} OneMember(members: seq<MemberT>)
    requires |members| == 1 && GoodMember(members[0])
    ensures (forall m :: m in members ==> GoodMember(m)) && Good(members[0].tree)
    ensures MeansMembers(members) == [Member(StringValue(members[0].key), Means(members[0].tree))]
    ensures SpellMembers(members) == SpellMember(members[0]) + members[0].after + "}"
  {
    assert members[1..] == [];
    NoItems();
  }

  lemma {:induction false} MoreMembers(m: MemberT, others: seq<MemberT>)
    requires GoodMember(m) && others != [] && forall x :: x in others ==> GoodMember(x)
    ensures (forall x :: x in [m] + others ==> GoodMember(x)) && Good(m.tree)
    ensures MeansMembers([m] + others) == [Member(StringValue(m.key), Means(m.tree))] + MeansMembers(others)
    ensures SpellMembers([m] + others) == SpellMember(m) + m.after + ("," + m.next + SpellMembers(others))
  {
    assert ([m] + others)[1..] == others;
  }

  // ------------------------------------------------------------------ the reader

  lemma {:induction false} SpelledIsLoaded(before: string, x: Tree, after: string)
    requires AllBlank(before) && AllBlank(after) && Good(x)
    ensures Loads(before + Spell(x) + after) == Some(Means(x))
  {
    hide ParseValue, Skip, Good, Means, Spell, AllBlank;
    SpellHead(x);
    var s := Spell(x) + after;
    assert before + Spell(x) + after == before + s && s[0] == Spell(x)[0];
    SkipBlanks(before, s);
    BlankEndsNumber(after);
    SpelledParses(x, after);
    assert after + "" == after;
    SkipBlanks(after, "");
  }

  /** The reader reads exactly the spelled values, blanks around them allowed, and reads what they mean. */
  lemma {:induction false} LoadsExactlyWhen(t: string, v: Json)
    ensures Loads(t) == Some(v) <==>
            exists before: string, x: Tree, after: string ::
              AllBlank(before) && AllBlank(after) && Good(x) && Means(x) == v && t == before + Spell(x) + after
  {
    hide ParseValue, Skip, Good, Means, Spell, AllBlank;
    if Loads(t) == Some(v) {
      var before := SkippedIsBlank(t);
      var s := Skip(t);
      var x := ReadIsSpelled(s);
      var rest := ParseValue(s).rest;
      var after := SkippedIsBlank(rest);
      assert rest == after;
      assert t == before + Spell(x) + after;
    }
    if before: string, x: Tree, after: string :|
         AllBlank(before) && AllBlank(after) && Good(x) && Means(x) == v && t == before + Spell(x) + after {
      SpelledIsLoaded(before, x, after);
    }
  }

  lemma {:induction false} BlankEndsNumber(blank: string)
    requires AllBlank(blank)
    ensures EndsNumber(blank)
  {
  }
}
