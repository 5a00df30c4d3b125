/** Reading back what the writer wrote, and the converse shape of everything the reader returns. */
module JsonRoundTrip {
  import opened Basics
  import opened JsonText

  // ------------------------------------------------------------------ strings

  lemma {:induction false} HexRead(d: nat)
    requires d < 16
    ensures HexValue(Hex(d)) == Some(d) && Hex(d) >= '0'
    ensures d < 10 ==> IsDigit(Hex(d)) && DigitOf(Hex(d)) == d
    ensures Hex(d) == '0' <==> d == 0
  {
    assert "0123456789abcdef"[0] == '0' && "0123456789abcdef"[1] == '1' && "0123456789abcdef"[2] == '2';
    assert "0123456789abcdef"[3] == '3' && "0123456789abcdef"[4] == '4' && "0123456789abcdef"[5] == '5';
    assert "0123456789abcdef"[6] == '6' && "0123456789abcdef"[7] == '7' && "0123456789abcdef"[8] == '8';
    assert "0123456789abcdef"[9] == '9' && "0123456789abcdef"[10] == 'a' && "0123456789abcdef"[11] == 'b';
    assert "0123456789abcdef"[12] == 'c' && "0123456789abcdef"[13] == 'd' && "0123456789abcdef"[14] == 'e';
    assert "0123456789abcdef"[15] == 'f';
  }

  lemma {:induction false} ControlUnit(c: char, rest: string)
    requires c < ' '
    ensures CodeUnit("00" + [Hex(c as int / 16), Hex(c as int % 16)] + rest) == Got(c as int, rest)
  {
    HexRead(c as int / 16);
    HexRead(c as int % 16);
    var s := "00" + [Hex(c as int / 16), Hex(c as int % 16)] + rest;
    assert s[0] == '0' && s[1] == '0' && s[2] == Hex(c as int / 16) && s[3] == Hex(c as int % 16);
    assert s[4..] == rest;
  }

  lemma {:induction false} ControlParses(c: char, rest: string)
    requires c < ' '
    ensures ParseEscape("u00" + [Hex(c as int / 16), Hex(c as int % 16)] + rest) == Got(c, rest)
  {
    var s := "u00" + [Hex(c as int / 16), Hex(c as int % 16)] + rest;
    ControlUnit(c, rest);
    assert s[1..] == "00" + [Hex(c as int / 16), Hex(c as int % 16)] + rest;
  }

  /** Reading one escaped character in front of a readable string body. */
  lemma {:induction false} EscapeCharParses(c: char, body: string)
    requires ParseStringBody(body).Got?
    ensures ParseStringBody(EscapeChar(c) + body) ==
            Got([c] + ParseStringBody(body).value, ParseStringBody(body).rest)
  {
    var e := EscapeChar(c);
    var s := e + body;
    if |e| == 1 {
      assert s[1..] == body;
    } else if |e| == 2 {
      assert s[1..][0] == e[1] && s[1..][1..] == body;
      assert ParseEscape(s[1..]) == Got(c, body);
    } else {
      ControlParses(c, body);
      assert s[1..] == "u00" + [Hex(c as int / 16), Hex(c as int % 16)] + body;
    }
  }

  lemma {:induction false} EscapeParses(s: string, rest: string)
    ensures ParseStringBody(Escape(s) + "\"" + rest) == Got(s, rest)
  {
    if s == "" {
      assert (Escape(s) + "\"" + rest)[1..] == rest;
    } else {
      var body := Escape(s[1..]) + "\"" + rest;
      EscapeParses(s[1..], rest);
      EscapeCharParses(s[0], body);
      assert Escape(s) + "\"" + rest == EscapeChar(s[0]) + body;
      assert [s[0]] + s[1..] == s;
    }
  }

  // ------------------------------------------------------------------ numbers

  lemma {:induction false} RenderNatValue(n: nat)
    ensures AllDigits(RenderNat(n)) && DigitsValue(RenderNat(n)) == n && RenderNat(n) != ""
    ensures RenderNat(n)[0] == '0' <==> n == 0
    ensures n == 0 ==> RenderNat(n) == "0"
  {
    HexRead(n % 10);
    if n < 10 {
      assert RenderNat(n)[..0] == "";
    } else {
      RenderNatValue(n / 10);
      assert RenderNat(n)[..|RenderNat(n)| - 1] == RenderNat(n / 10);
    }
  }

  predicate EndsNumber(rest: string) {
    rest == "" || (!IsDigit(rest[0]) && !FloatTail(rest))
  }

  lemma {:induction false} DigitsStop(t: string, rest: string)
    requires AllDigits(t) && (rest == "" || !IsDigit(rest[0]))
    ensures Digits(t + rest) == |t|
  {
    if t == "" {
      assert t + rest == rest;
    } else {
      DigitsStop(t[1..], rest);
      assert IsDigit(t[0]) && (t + rest)[1..] == t[1..] + rest;
    }
  }

  lemma {:induction false} NatParses(n: nat, rest: string)
    requires EndsNumber(rest)
    ensures ParseNat(RenderNat(n) + rest) == Got(n, rest)
  {
    var t := RenderNat(n);
    var s := t + rest;
    RenderNatValue(n);
    assert s[0] == t[0] && IsDigit(t[0]);
    if n == 0 {
      assert s[1..] == rest;
    } else {
      DigitsStop(t, rest);
      assert s[..|t|] == t && s[|t|..] == rest;
    }
  }

  lemma {:induction false} IntParses(n: int, rest: string)
    requires EndsNumber(rest)
    ensures ParseNumber(RenderInt(n) + rest) == Got(Int(n), rest)
  {
    hide RenderNat, ParseNat;
    if n < 0 {
      NatParses(-n, rest);
      assert (RenderInt(n) + rest)[1..] == RenderNat(-n) + rest;
    } else {
      NatParses(n, rest);
      RenderNatValue(n);
      assert (RenderInt(n) + rest)[0] == RenderNat(n)[0];
    }
  }

  // ------------------------------------------------------------------ values

  /** Objects are dictionaries: no key twice, at any depth. */
  predicate DictLike(v: Json) {
    match v
    case Arr(items) => forall x :: x in items ==> DictLike(x)
    case Obj(members) => DistinctKeys(members) && forall m :: m in members ==> DictLike(m.value)
    case _ => true
  }

  predicate Closes(v: Json, rest: string) { v.Int? ==> EndsNumber(rest) }

  /** The first character of a value: enough to tell it from white space and from every closer. */
  lemma {:induction false} RenderHead(v: Json)
    ensures Render(v) != "" && !Blank(Render(v)[0]) && Render(v)[0] !in {']', '}', ','}
    ensures v.Int? ==> Render(v)[0] == '-' || IsDigit(Render(v)[0])
  {
    if v.Int? {
      RenderNatValue(if v.n < 0 then -v.n else v.n);
      var t := RenderNat(if v.n < 0 then -v.n else v.n);
      assert IsDigit(t[0]);
    }
  }

  lemma {:induction false} SkipNothing(s: string)
    requires s == "" || !Blank(s[0])
    ensures Skip(s) == s
  {
  }

  lemma {:induction false} ValueParses(v: Json, rest: string)
    requires DictLike(v) && Closes(v, rest)
    ensures ParseValue(Render(v) + rest) == Got(v, rest)
    decreases v
  {
    match v
    case Null => WordParses("null", rest);
    case Bool(b) => WordParses(if b then "true" else "false", rest);
    case Int(n) => IntValueParses(n, rest);
    case Str(s) => StringParses(s, rest);
    case Arr(items) =>
      if items == [] {
        EmptyArrParses(rest);
      } else {
        ItemsParse(items, rest);
        ArrParses(items, rest);
      }
    case Obj(members) =>
      if members == [] {
        EmptyObjParses(rest);
      } else {
        MembersParse(members, rest);
        ObjParses(members, rest);
      }
  }

  lemma {:induction false} WordParses(word: string, rest: string)
    requires word == "null" || word == "true" || word == "false"
    ensures ParseValue(word + rest) == Got(if word == "null" then Null else Bool(word == "true"), rest)
  {
    var s := word + rest;
    assert s[..|word|] == word && s[|word|..] == rest;
    assert s[0] == word[0];
  }

  lemma {:induction false} IntValueParses(n: int, rest: string)
    requires EndsNumber(rest)
    ensures ParseValue(RenderInt(n) + rest) == Got(Int(n), rest)
  {
    hide RenderNat, ParseNumber, Skip;
    IntParses(n, rest);
    RenderHead(Int(n));
    assert Render(Int(n)) == RenderInt(n);
    hide RenderInt;
    var s := RenderInt(n) + rest;
    assert s[0] == RenderInt(n)[0];
  }

  lemma {:induction false} StringParses(t: string, rest: string)
    ensures ParseValue(RenderString(t) + rest) == Got(Str(t), rest)
  {
    hide Escape, ParseStringBody, ParseNumber;
    EscapeParses(t, rest);
    var s := RenderString(t) + rest;
    assert s[0] == '\"' && s[1..] == Escape(t) + "\"" + rest;
  }

  lemma {:induction false} EmptyArrParses(rest: string)
    ensures ParseValue(Render(Arr([])) + rest) == Got(Arr([]), rest)
  {
    var s := Render(Arr([])) + rest;
    assert s[0] == '[' && s[1..] == "]" + rest && (("]" + rest)[1..]) == rest;
  }

  lemma {:induction false} EmptyObjParses(rest: string)
    ensures ParseValue(Render(Obj([])) + rest) == Got(Obj([]), rest)
  {
    var s := Render(Obj([])) + rest;
    assert s[0] == '{' && s[1..] == "}" + rest && (("}" + rest)[1..]) == rest;
  }

  lemma {:induction false} ArrParses(items: seq<Json>, rest: string)
    requires items != [] && ParseItems(RenderItems(items) + "]" + rest) == Got(items, rest)
    ensures ParseValue(Render(Arr(items)) + rest) == Got(Arr(items), rest)
  {
    hide RenderItems, ParseItems;
    var inner := RenderItems(items) + "]" + rest;
    var s := Render(Arr(items)) + rest;
    assert s[0] == '[' && s[1..] == inner;
    ItemsHead(items);
    assert inner[0] == RenderItems(items)[0];
    SkipNothing(inner);
  }

  lemma {:induction false} ItemsHead(items: seq<Json>)
    requires items != []
    ensures RenderItems(items) != "" && !Blank(RenderItems(items)[0]) && RenderItems(items)[0] != ']'
  {
    RenderHead(items[0]);
  }

  lemma {:induction false} ObjParses(members: seq<Member>, rest: string)
    requires members != [] && DistinctKeys(members)
    requires ParseMembers(RenderMembers(members) + "}" + rest) == Got(members, rest)
    ensures ParseValue(Render(Obj(members)) + rest) == Got(Obj(members), rest)
  {
    hide RenderMembers, ParseMembers, DistinctKeys;
    var inner := RenderMembers(members) + "}" + rest;
    var s := Render(Obj(members)) + rest;
    assert s[0] == '{' && s[1..] == inner;
    MembersHead(members);
    assert inner[0] == '\"';
    SkipNothing(inner);
  }

  lemma {:induction false} MembersHead(members: seq<Member>)
    requires members != []
    ensures RenderMembers(members) != "" && RenderMembers(members)[0] == '\"'
  {
  }

  lemma {:induction false} ItemsParse(items: seq<Json>, rest: string)
    requires items != [] && forall x :: x in items ==> DictLike(x)
    ensures ParseItems(RenderItems(items) + "]" + rest) == Got(items, rest)
    decreases items
  {
    var first, others := items[0], items[1..];
    if others == [] {
      ValueParses(first, "]" + rest);
      LastItemParses(first, rest);
      assert items == [first];
    } else {
      var tail := RenderItems(others) + "]" + rest;
      ValueParses(first, "," + tail);
      ItemsParse(others, rest);
      MoreItemsParse(first, others, rest);
      assert items == [first] + others;
    }
  }

  lemma {:induction false} LastItemParses(v: Json, rest: string)
    requires ParseValue(Render(v) + ("]" + rest)) == Got(v, "]" + rest)
    ensures ParseItems(RenderItems([v]) + "]" + rest) == Got([v], rest)
  {
    hide Render, ParseValue;
    assert RenderItems([v]) + "]" + rest == Render(v) + ("]" + rest);
    SkipNothing("]" + rest);
    assert ("]" + rest)[1..] == rest;
  }

  lemma {:induction false} MoreItemsParse(v: Json, others: seq<Json>, rest: string)
    requires others != []
    requires var tail := RenderItems(others) + "]" + rest;
             ParseValue(Render(v) + ("," + tail)) == Got(v, "," + tail) && ParseItems(tail) == Got(others, rest)
    ensures ParseItems(RenderItems([v] + others) + "]" + rest) == Got([v] + others, rest)
  {
    hide Render, ParseValue;
    var tail := RenderItems(others) + "]" + rest;
    assert ([v] + others)[1..] == others;
    assert RenderItems([v] + others) + "]" + rest == Render(v) + ("," + tail);
    SkipNothing("," + tail);
    assert ("," + tail)[1..] == tail;
    ItemsHead(others);
    assert tail[0] == RenderItems(others)[0];
    SkipNothing(tail);
  }

  lemma {:induction false} MembersParse(members: seq<Member>, rest: string)
    requires members != [] && forall m :: m in members ==> DictLike(m.value)
    ensures ParseMembers(RenderMembers(members) + "}" + rest) == Got(members, rest)
    decreases members
  {
    var first, others := members[0], members[1..];
    if others == [] {
      ValueParses(first.value, "}" + rest);
      MemberParses(first, "}" + rest);
      LastMemberParses(first, rest);
      assert members == [first];
    } else {
      var tail := RenderMembers(others) + "}" + rest;
      ValueParses(first.value, "," + tail);
      MemberParses(first, "," + tail);
      MembersParse(others, rest);
      MoreMembersParse(first, others, rest);
      assert members == [first] + others;
    }
  }

  function RenderMember(m: Member): string {
    RenderString(m.key) + ":" + Render(m.value)
  }

  lemma {:induction false} MemberParses(m: Member, rest: string)
    requires ParseValue(Render(m.value) + rest) == Got(m.value, rest)
    ensures ParseMember(RenderMember(m) + rest) == Got(m, rest)
  {
    hide ParseValue, Render;
    var value := Render(m.value) + rest;
    var s := RenderMember(m) + rest;
    EscapeParses(m.key, ":" + value);
    assert s[0] == '\"' && s[1..] == Escape(m.key) + "\"" + (":" + value);
    SkipNothing(":" + value);
    assert (":" + value)[1..] == value;
    RenderHead(m.value);
    assert value[0] == Render(m.value)[0];
    SkipNothing(value);
  }

  lemma {:induction false} LastMemberParses(m: Member, rest: string)
    requires ParseMember(RenderMember(m) + ("}" + rest)) == Got(m, "}" + rest)
    ensures ParseMembers(RenderMembers([m]) + "}" + rest) == Got([m], rest)
  {
    hide Render, ParseMember, RenderString;
    assert RenderMembers([m]) + "}" + rest == RenderMember(m) + ("}" + rest);
    SkipNothing("}" + rest);
    assert ("}" + rest)[1..] == rest;
  }

  lemma {:induction false} MoreMembersParse(m: Member, others: seq<Member>, rest: string)
    requires others != []
    requires var tail := RenderMembers(others) + "}" + rest;
             ParseMember(RenderMember(m) + ("," + tail)) == Got(m, "," + tail) && ParseMembers(tail) == Got(others, rest)
    ensures ParseMembers(RenderMembers([m] + others) + "}" + rest) == Got([m] + others, rest)
  {
    hide Render, ParseMember, RenderString;
    var tail := RenderMembers(others) + "}" + rest;
    assert ([m] + others)[1..] == others;
    assert RenderMembers([m] + others) + "}" + rest == RenderMember(m) + ("," + tail);
    SkipNothing("," + tail);
    assert ("," + tail)[1..] == tail;
    MembersHead(others);
    assert tail[0] == RenderMembers(others)[0];
    SkipNothing(tail);
  }

  /** Reading the compact text of a value gives the value back. */
  lemma {:induction false} LoadsRender(v: Json)
    requires DictLike(v)
    ensures Loads(Render(v)) == Some(v)
  {
    RenderHead(v);
    SkipNothing(Render(v));
    ValueParses(v, "");
    assert Render(v) + "" == Render(v);
  }

  // ------------------------------------------------------------------ whatever is read is dictionary-like

  lemma {:induction false} ParsedIsDictLike(s: string)
    ensures ParseValue(s).Got? ==> DictLike(ParseValue(s).value)
    decreases |s|, 0
  {
    if s != "" && s[0] == '[' {
      ParsedItemsAreDictLike(Skip(s[1..]));
    } else if s != "" && s[0] == '{' {
      ParsedMembersAreDictLike(Skip(s[1..]));
    }
  }

  lemma {:induction false} ParsedItemsAreDictLike(s: string)
    ensures ParseItems(s).Got? ==> forall x :: x in ParseItems(s).value ==> DictLike(x)
    decreases |s|, 1
  {
    ParsedIsDictLike(s);
    var first := ParseValue(s);
    if first.Got? {
      var after := Skip(first.rest);
      if after != "" && after[0] == ',' {
        ParsedItemsAreDictLike(Skip(after[1..]));
      }
    }
  }

  lemma {:induction false} ParsedMemberIsDictLike(s: string)
    ensures ParseMember(s).Got? ==> DictLike(ParseMember(s).value.value)
    decreases |s|, 1
  {
    if s != "" && s[0] == '\"' {
      var key := ParseStringBody(s[1..]);
      if key.Got? {
        var colon := Skip(key.rest);
        if colon != "" && colon[0] == ':' {
          ParsedIsDictLike(Skip(colon[1..]));
        }
      }
    }
  }

  lemma {:induction false} ParsedMembersAreDictLike(s: string)
    ensures ParseMembers(s).Got? ==> forall m :: m in ParseMembers(s).value ==> DictLike(m.value)
    decreases |s|, 2
  {
    ParsedMemberIsDictLike(s);
    var first := ParseMember(s);
    if first.Got? {
      var after := Skip(first.rest);
      if after != "" && after[0] == ',' {
        ParsedMembersAreDictLike(Skip(after[1..]));
      }
    }
  }
}
