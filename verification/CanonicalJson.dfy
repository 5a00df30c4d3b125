/** Canonical approval JSON: sorted keys, NFC text, one spelling per value, LF-framed logs. */
module CanonicalJson {
  import opened Basics
  import opened JsonText
  import opened JsonRoundTrip

  // ------------------------------------------------------------------ the canonical form of a value

  predicate KeyLe(a: Member, b: Member) { StringLe(a.key, b.key) }

  function Canon(v: Json): Json
    decreases v
  {
    match v
    case Arr(items) => Arr(CanonItems(items))
    case Obj(members) => Obj(SortBy(CanonMembers(members), KeyLe))
    case _ => v
  }

  function CanonItems(items: seq<Json>): seq<Json>
    decreases items
  {
    seq(|items|, i requires 0 <= i < |items| => Canon(items[i]))
  }

  function CanonMembers(members: seq<Member>): seq<Member>
    decreases members
  {
    seq(|members|, i requires 0 <= i < |members| => Member(members[i].key, Canon(members[i].value)))
  }

  /** Keys in order at every depth. */
  predicate InOrder(v: Json) {
    match v
    case Arr(items) => forall x :: x in items ==> InOrder(x)
    case Obj(members) => IsSorted(members, KeyLe) && forall m :: m in members ==> InOrder(m.value)
    case _ => true
  }

  /** Equality of the decoded values: lists by position, objects by key, insertion order ignored. */
  predicate SameValue(v: Json, w: Json)
    decreases v
  {
    if v.Arr? && w.Arr? then
      |v.items| == |w.items| && forall i :: 0 <= i < |v.items| ==> SameValue(v.items[i], w.items[i])
    else if v.Obj? && w.Obj? then
      && (forall m :: m in v.members ==> exists n :: n in w.members && n.key == m.key && SameValue(m.value, n.value))
      && (forall n :: n in w.members ==> exists m :: m in v.members && m.key == n.key)
    else v == w
  }

  lemma {:induction false} KeyOrder()
    ensures TotalPreorder(KeyLe)
  {
    forall x, y ensures KeyLe(x, y) || KeyLe(y, x) { StringLeTotal(x.key, y.key); }
    forall x, y, z | KeyLe(x, y) && KeyLe(y, z) ensures KeyLe(x, z) { StringLeTransitive(x.key, y.key, z.key); }
  }

  function Keys(members: seq<Member>): seq<string> {
    seq(|members|, i requires 0 <= i < |members| => members[i].key)
  }

  lemma {:induction false} SortedKeysDistinct(members: seq<Member>, sorted: seq<Member>)
    requires DistinctKeys(members) && multiset(sorted) == multiset(members)
    ensures DistinctKeys(sorted)
  {
    assert Distinct(members);
    DistinctPermutation(members, sorted);
    MultisetMember(sorted, members);
    forall i, j | 0 <= i < j < |sorted|
      ensures sorted[i].key != sorted[j].key
    {
      assert sorted[i] in members && sorted[j] in members && sorted[i] != sorted[j];
    }
  }

  lemma {:induction false} CanonKeeps(v: Json)
    requires DictLike(v)
    ensures DictLike(Canon(v)) && InOrder(Canon(v))
    decreases v
  {
    match v
    case Arr(items) =>
      forall i | 0 <= i < |items| ensures DictLike(Canon(items[i])) && InOrder(Canon(items[i])) { CanonKeeps(items[i]); }
    case Obj(members) =>
      var canon, sorted := CanonMembers(members), SortBy(CanonMembers(members), KeyLe);
      forall i | 0 <= i < |members|
        ensures DictLike(canon[i].value) && InOrder(canon[i].value)
      {
        CanonKeeps(members[i].value);
      }
      KeyOrder();
      SortBySorted(canon, KeyLe);
      SortedKeysDistinct(canon, sorted);
      MultisetMember(sorted, canon);
    case _ =>
  }

  lemma {:induction false} OrderedIsCanonical(v: Json)
    requires InOrder(v)
    ensures Canon(v) == v
    decreases v
  {
    match v
    case Arr(items) =>
      forall i | 0 <= i < |items| ensures Canon(items[i]) == items[i] { OrderedIsCanonical(items[i]); }
      assert CanonItems(items) == items;
    case Obj(members) =>
      forall i | 0 <= i < |members|
        ensures CanonMembers(members)[i] == members[i]
      {
        OrderedIsCanonical(members[i].value);
      }
      assert CanonMembers(members) == members;
      SortByFixed(members, KeyLe);
    case _ =>
  }

  // ------------------------------------------------------------------ one spelling per value

  lemma {:induction false} SameMembersSorted(a: seq<Member>, b: seq<Member>)
    requires DistinctKeys(a) && DistinctKeys(b)
    requires forall m :: m in a <==> m in b
    ensures SortBy(a, KeyLe) == SortBy(b, KeyLe)
  {
    assert Distinct(a) && Distinct(b);
    SameElements(a, b);
    KeyOrder();
    SortBySorted(a, KeyLe);
    SortBySorted(b, KeyLe);
    var x, y := SortBy(a, KeyLe), SortBy(b, KeyLe);
    MultisetMember(x, a);
    forall m, n | m in x && n in x && KeyLe(m, n) && KeyLe(n, m)
      ensures m == n
    {
      StringLeAntisymmetric(m.key, n.key);
    }
    SortedUnique(x, y, KeyLe);
  }

  lemma {:induction false} CanonMembersMember(members: seq<Member>, x: Member)
    ensures x in CanonMembers(members) <==> exists m :: m in members && x == Member(m.key, Canon(m.value))
  {
    if x in CanonMembers(members) {
      var i :| 0 <= i < |members| && CanonMembers(members)[i] == x;
      assert members[i] in members;
    }
    if m :| m in members && x == Member(m.key, Canon(m.value)) {
      var i :| 0 <= i < |members| && members[i] == m;
      assert CanonMembers(members)[i] == x;
    }
  }

  lemma {:induction false} SameKeySameMember(members: seq<Member>, a: Member, b: Member)
    requires DistinctKeys(members) && a in members && b in members && a.key == b.key
    ensures a == b
  {
  }

  /** The canonical forms agree exactly when the values do. */
  lemma {:induction false} CanonDecidesEquality(v: Json, w: Json)
    requires DictLike(v) && DictLike(w)
    ensures Canon(v) == Canon(w) <==> SameValue(v, w)
    decreases v
  {
    if v.Arr? && w.Arr? {
      forall i | 0 <= i < |v.items| && i < |w.items|
        ensures Canon(v.items[i]) == Canon(w.items[i]) <==> SameValue(v.items[i], w.items[i])
      {
        CanonDecidesEquality(v.items[i], w.items[i]);
      }
      ItemsAgree(v.items, w.items);
    } else if v.Obj? && w.Obj? {
      forall m, n | m in v.members && n in w.members
        ensures Canon(m.value) == Canon(n.value) <==> SameValue(m.value, n.value)
      {
        CanonDecidesEquality(m.value, n.value);
      }
      MembersAgree(v.members, w.members);
    }
  }

  lemma {:induction false} ItemsAgree(a: seq<Json>, b: seq<Json>)
    requires forall i :: 0 <= i < |a| && i < |b| ==> (Canon(a[i]) == Canon(b[i]) <==> SameValue(a[i], b[i]))
    ensures CanonItems(a) == CanonItems(b) <==> SameValue(Arr(a), Arr(b))
  {
    SameArr(a, b);
    hide Canon, SameValue;
    if CanonItems(a) == CanonItems(b) {
      assert |a| == |CanonItems(a)| == |b|;
      forall i | 0 <= i < |a|
        ensures SameValue(a[i], b[i])
      {
        assert CanonItems(a)[i] == CanonItems(b)[i];
      }
    }
  }

  lemma {:induction false} SameArr(a: seq<Json>, b: seq<Json>)
    ensures SameValue(Arr(a), Arr(b)) <==> |a| == |b| && forall i :: 0 <= i < |a| ==> SameValue(a[i], b[i])
  {
  }

  lemma {:induction false} SameObj(a: seq<Member>, b: seq<Member>)
    ensures SameValue(Obj(a), Obj(b)) <==> Covered(a, b) && KeysCovered(a, b)
  {
  }

  predicate Covered(a: seq<Member>, b: seq<Member>) {
    forall m :: m in a ==> exists n :: n in b && n.key == m.key && SameValue(m.value, n.value)
  }

  predicate KeysCovered(a: seq<Member>, b: seq<Member>) {
    forall n :: n in b ==> exists m :: m in a && m.key == n.key
  }

  lemma {:induction false} MembersAgree(a: seq<Member>, b: seq<Member>)
    requires DistinctKeys(a) && DistinctKeys(b)
    requires forall m, n :: m in a && n in b ==> (Canon(m.value) == Canon(n.value) <==> SameValue(m.value, n.value))
    ensures Canon(Obj(a)) == Canon(Obj(b)) <==> SameValue(Obj(a), Obj(b))
  {
    SameObj(a, b);
    hide Canon, SameValue, Covered, KeysCovered;
    if Covered(a, b) && KeysCovered(a, b) {
      SameGivesCanon(a, b);
    }
    if Canon(Obj(a)) == Canon(Obj(b)) {
      CanonGivesSame(a, b);
    }
  }

  lemma {:induction false} SameGivesCanon(a: seq<Member>, b: seq<Member>)
    requires DistinctKeys(a) && DistinctKeys(b)
    requires forall m, n :: m in a && n in b ==> (Canon(m.value) == Canon(n.value) <==> SameValue(m.value, n.value))
    requires Covered(a, b) && KeysCovered(a, b)
    ensures Canon(Obj(a)) == Canon(Obj(b))
  {
    hide Canon, SameValue;
    forall x
      ensures x in CanonMembers(a) <==> x in CanonMembers(b)
    {
      CanonMembersMember(a, x);
      CanonMembersMember(b, x);
      if x in CanonMembers(a) {
        var m :| m in a && x == Member(m.key, Canon(m.value));
        var n :| n in b && n.key == m.key && SameValue(m.value, n.value);
        assert x == Member(n.key, Canon(n.value));
      }
      if x in CanonMembers(b) {
        var n :| n in b && x == Member(n.key, Canon(n.value));
        var m :| m in a && m.key == n.key;
        var n' :| n' in b && n'.key == m.key && SameValue(m.value, n'.value);
        SameKeySameMember(b, n, n');
        assert x == Member(m.key, Canon(m.value));
      }
    }
    CanonMembersDistinct(a);
    CanonMembersDistinct(b);
    SameMembersSorted(CanonMembers(a), CanonMembers(b));
    CanonObj(a);
    CanonObj(b);
  }

  lemma {:induction false} CanonObj(a: seq<Member>)
    ensures Canon(Obj(a)) == Obj(SortBy(CanonMembers(a), KeyLe))
  {
  }

  lemma {:induction false} CanonMembersDistinct(a: seq<Member>)
    requires DistinctKeys(a)
    ensures DistinctKeys(CanonMembers(a))
  {
  }

  lemma {:induction false} CanonGivesSame(a: seq<Member>, b: seq<Member>)
    requires forall m, n :: m in a && n in b ==> (Canon(m.value) == Canon(n.value) <==> SameValue(m.value, n.value))
    requires Canon(Obj(a)) == Canon(Obj(b))
    ensures Covered(a, b) && KeysCovered(a, b)
  {
    hide SameValue;
    CanonObj(a);
    CanonObj(b);
    hide Canon;
    var x, y := SortBy(CanonMembers(a), KeyLe), SortBy(CanonMembers(b), KeyLe);
    MultisetMember(x, CanonMembers(a));
    MultisetMember(y, CanonMembers(b));
    forall m | m in a
      ensures exists n :: n in b && n.key == m.key && SameValue(m.value, n.value)
    {
      var c := Member(m.key, Canon(m.value));
      CanonMembersMember(a, c);
      CanonMembersMember(b, c);
      var n :| n in b && c == Member(n.key, Canon(n.value));
      assert SameValue(m.value, n.value);
    }
    forall n | n in b
      ensures exists m :: m in a && m.key == n.key
    {
      var c := Member(n.key, Canon(n.value));
      CanonMembersMember(b, c);
      CanonMembersMember(a, c);
    }
  }

  // ------------------------------------------------------------------ text

  type Nfc = string -> bool

  predicate AllNfc(nfc: Nfc, v: Json)
    decreases v
  {
    match v
    case Str(s) => nfc(s)
    case Arr(items) => forall x :: x in items ==> AllNfc(nfc, x)
    case Obj(members) => forall m :: m in members ==> nfc(m.key) && AllNfc(nfc, m.value)
    case _ => true
  }

  lemma {:induction false} CanonKeepsNfc(nfc: Nfc, v: Json)
    ensures AllNfc(nfc, Canon(v)) <==> AllNfc(nfc, v)
    decreases v
  {
    match v
    case Arr(items) =>
      forall i | 0 <= i < |items|
        ensures AllNfc(nfc, CanonItems(items)[i]) <==> AllNfc(nfc, items[i])
      {
        CanonKeepsNfc(nfc, items[i]);
      }
      assert forall i :: 0 <= i < |items| ==> CanonItems(items)[i] in CanonItems(items);
    case Obj(members) =>
      var canon, sorted := CanonMembers(members), SortBy(CanonMembers(members), KeyLe);
      MultisetMember(sorted, canon);
      forall i | 0 <= i < |members|
        ensures AllNfc(nfc, canon[i].value) <==> AllNfc(nfc, members[i].value)
      {
        CanonKeepsNfc(nfc, members[i].value);
      }
      assert forall i :: 0 <= i < |members| ==> canon[i] in canon && canon[i].key == members[i].key;
    case _ =>
  }

  /** The canonical text, unless some string or key is not normalized. */
  function CanonicalText(nfc: Nfc, v: Json): Option<string> {
    if AllNfc(nfc, v) then Some(Render(Canon(v))) else None
  }

  datatype CanonicalError = ByteOrderMark | TrailingNewline | NotNormalized | InvalidJson | NotCanonical
                          | BadFraming | BlankRecord

  const BOM: char := '\U{FEFF}'

  function ParseCanonical(nfc: Nfc, text: string): Result<Json, CanonicalError> {
    if text != "" && text[0] == BOM then Err(ByteOrderMark)
    else if text != "" && (text[|text| - 1] == '\n' || text[|text| - 1] == '\r') then Err(TrailingNewline)
    else if !nfc(text) then Err(NotNormalized)
    else
      var v := Loads(text);
      if v.None? then Err(InvalidJson)
      else if CanonicalText(nfc, v.value) != Some(text) then Err(NotCanonical)
      else Ok(v.value)
  }

  /** The hook that turns the pairs of one object into a dictionary. */
  method PairsWithoutDuplicates(nfc: Nfc, pairs: seq<Member>) returns (r: Result<map<string, Json>, CanonicalError>)
    ensures r.Ok? <==> DistinctKeys(pairs) && forall m :: m in pairs ==> nfc(m.key)
    ensures r.Ok? ==> r.value.Keys == (set m | m in pairs :: m.key) && forall m :: m in pairs ==> r.value[m.key] == m.value
  {
    var result: map<string, Json> := map[];
    var normalized: set<string> := {};
    for k := 0 to |pairs|
      invariant result.Keys == normalized == (set i | 0 <= i < k :: pairs[i].key)
      invariant forall i, j :: 0 <= i < j < k ==> pairs[i].key != pairs[j].key
      invariant forall i :: 0 <= i < k ==> nfc(pairs[i].key) && result[pairs[i].key] == pairs[i].value
    {
      if !nfc(pairs[k].key) {
        assert pairs[k] in pairs;
        return Err(NotNormalized);
      }
      if pairs[k].key in normalized { return Err(InvalidJson); }
      normalized := normalized + {pairs[k].key};
      result := result[pairs[k].key := pairs[k].value];
    }
    return Ok(result);
  }

  // ------------------------------------------------------------------ rendered text is clean

  predicate Printable(s: string) {
    forall i :: 0 <= i < |s| ==> s[i] >= ' '
  }

  lemma {:induction false} EscapeCharPrintable(c: char)
    ensures Printable(EscapeChar(c))
  {
    if c < ' ' {
      HexRead(c as int / 16);
      HexRead(c as int % 16);
    }
  }

  lemma {:induction false} EscapePrintable(s: string)
    ensures Printable(Escape(s)) && Printable(RenderString(s))
  {
    if s != "" {
      EscapeCharPrintable(s[0]);
      EscapePrintable(s[1..]);
    }
  }

  lemma {:induction false} DigitsPrintable(s: string)
    requires AllDigits(s)
    ensures Printable(s)
  {
    forall i | 0 <= i < |s| ensures s[i] >= ' ' { assert IsDigit(s[i]); }
  }

  lemma {:induction false} IntPrintable(n: int)
    ensures Printable(RenderInt(n))
  {
    var magnitude := if n < 0 then -n else n;
    RenderNatValue(magnitude);
    DigitsPrintable(RenderNat(magnitude));
  }

  lemma {:induction false} PrintableBetween(a: string, s: string, b: string)
    requires Printable(a) && Printable(s) && Printable(b)
    ensures Printable(a + s + b)
  {
  }

  lemma {:induction false} WordsPrintable()
    ensures Printable("null") && Printable("true") && Printable("false")
  {
  }

  /** Control characters are escaped, so a line feed can only be a record's end. */
  lemma {:induction false} RenderPrintable(v: Json)
    ensures Printable(Render(v))
    decreases v
  {
    hide RenderItems, RenderMembers, RenderInt, RenderString;
    match v
    case Int(n) => IntPrintable(n);
    case Str(s) => EscapePrintable(s);
    case Arr(items) => ItemsPrintable(items); PrintableBetween("[", RenderItems(items), "]");
    case Obj(members) => MembersPrintable(members); PrintableBetween("{", RenderMembers(members), "}");
    case _ => WordsPrintable();
  }

  lemma {:induction false} ItemsPrintable(items: seq<Json>)
    ensures Printable(RenderItems(items))
    decreases items
  {
    if items != [] {
      RenderPrintable(items[0]);
      ItemsPrintable(items[1..]);
    }
  }

  lemma {:induction false} MembersPrintable(members: seq<Member>)
    ensures Printable(RenderMembers(members))
    decreases members
  {
    if members != [] {
      EscapePrintable(members[0].key);
      RenderPrintable(members[0].value);
      MembersPrintable(members[1..]);
    }
  }

  lemma {:induction false} RenderFirst(v: Json)
    ensures Render(v) != "" && Render(v)[0] as int < 128
  {
    RenderHead(v);
    if v.Int? { assert Render(v)[0] == '-' || IsDigit(Render(v)[0]); }
  }

  // ------------------------------------------------------------------ the spelling itself

  function HexDigit(d: nat): char
    requires d < 16
  {
    if d < 10 then ('0' as int + d) as char else ('a' as int + d - 10) as char
  }

  /** How each character is written: quote, backslash and control characters escaped, in the short form where
      there is one and in lower-case hexadecimal otherwise; everything else as it is. */
  lemma {:induction false} EscapeIs(c: char)
    ensures EscapeChar(c) ==
      if c == '\"' || c == '\\' then ['\\', c]
      else if c as int >= 0x20 then [c]
      else match c as int
           case 8 => ['\\', 'b'] case 9 => ['\\', 't'] case 10 => ['\\', 'n'] case 12 => ['\\', 'f'] case 13 => ['\\', 'r']
           case n => ['\\', 'u', '0', '0', HexDigit(n / 16), HexDigit(n % 16)]
  {
    if c as int < 0x20 {
      HexIs(c as int / 16);
      HexIs(c as int % 16);
    }
  }

  lemma {:induction false} HexIs(d: nat)
    requires d < 16
    ensures Hex(d) == HexDigit(d)
  {
  }

  /** In canonical text the keys of every object stand in strictly ascending code-point order. */
  lemma {:induction false} KeysAscend(v: Json, i: nat, j: nat)
    requires DictLike(v) && v.Obj? && i < j < |Canon(v).members|
    ensures Precedes(Canon(v).members[i].key, Canon(v).members[j].key)
  {
    CanonKeeps(v);
    var members := Canon(v).members;
    assert KeyLe(members[i], members[j]) && members[i].key != members[j].key;
    StringLeExact(members[i].key, members[j].key);
  }
}
