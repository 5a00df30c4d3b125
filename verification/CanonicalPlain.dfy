/** Text without control characters always reads back: the reader's NFC check on the whole text can
    only fail next to an escape that ends in a letter. */
module CanonicalPlain {
  import opened Basics
  import opened JsonText
  import opened JsonRoundTrip
  import opened CanonicalJson
  import opened CanonicalCodec

  /** Structural characters and digits: in Unicode none of them combines with a neighbour. */
  predicate Inert(c: char) {
    c in {'\"', '\\', ',', ':', '[', ']', '{', '}', '-'} || IsDigit(c)
  }

  /** What is used of normalization: it can be decided on the two sides of an inert character, and the
      three literal words are normalized. */
  ghost predicate SplitsAtInert(nfc: Nfc) {
    && (forall a: string, c: char, b: string :: Inert(c) ==> (nfc(a + [c] + b) <==> nfc(a) && nfc(b)))
    && nfc("") && nfc("null") && nfc("true") && nfc("false")
  }

  /** Every string and key is free of control characters, as approval texts are. */
  predicate Plain(v: Json)
    decreases v
  {
    match v
    case Str(s) => Printable(s)
    case Arr(items) => forall x :: x in items ==> Plain(x)
    case Obj(members) => forall m :: m in members ==> Printable(m.key) && Plain(m.value)
    case _ => true
  }

  lemma {:induction false} SplitAt(nfc: Nfc, a: string, c: char, b: string)
    requires SplitsAtInert(nfc) && Inert(c)
    ensures nfc(a + [c] + b) <==> nfc(a) && nfc(b)
  {
  }

  lemma {:induction false} Behind(nfc: Nfc, c: char, b: string)
    requires SplitsAtInert(nfc) && Inert(c)
    ensures nfc([c] + b) <==> nfc(b)
  {
    SplitAt(nfc, "", c, b);
    assert "" + [c] + b == [c] + b;
  }

  predicate Unescaped(s: string) {
    forall i :: 0 <= i < |s| ==> s[i] != '\"' && s[i] != '\\'
  }

  /** The part of a string before its first quote or backslash. */
  function Head(s: string): (n: nat)
    ensures n <= |s| && Unescaped(s[..n])
    ensures n < |s| ==> s[n] == '\"' || s[n] == '\\'
  {
    if s == "" || s[0] == '\"' || s[0] == '\\' then 0
    else
      var n := 1 + Head(s[1..]);
      assert s[..n] == [s[0]] + s[1..][..n - 1];
      n
  }

  lemma {:induction false} EscapeHead(c: char, tail: string)
    ensures Escape([c] + tail) == EscapeChar(c) + Escape(tail)
  {
    assert ([c] + tail)[0] == c && ([c] + tail)[1..] == tail;
  }

  lemma {:induction false} Associate(a: string, b: string, c: string)
    ensures (a + b) + c == a + (b + c)
  {
  }

  lemma {:induction false} EscapeAppend(a: string, b: string)
    ensures Escape(a + b) == Escape(a) + Escape(b)
  {
    if a == "" {
      assert a + b == b;
    } else {
      hide Escape, EscapeChar;
      var c, rest := a[0], a[1..];
      assert a == [c] + rest;
      EscapeAppend(rest, b);
      EscapeHead(c, rest);
      EscapeHead(c, rest + b);
      Associate([c], rest, b);
      Associate(EscapeChar(c), Escape(rest), Escape(b));
    }
  }

  lemma {:induction false} EscapeNothing(s: string)
    requires Unescaped(s) && Printable(s)
    ensures Escape(s) == s
  {
    if s != "" {
      assert s[0] >= ' ' && s[0] != '\"' && s[0] != '\\';
      EscapeNothing(s[1..]);
      assert EscapeChar(s[0]) == [s[0]];
    }
  }

  lemma {:induction false} EscapeSplit(head: string, c: char, tail: string)
    requires Unescaped(head) && Printable(head) && (c == '\"' || c == '\\')
    ensures Escape(head + [c] + tail) == head + ['\\'] + ([c] + Escape(tail))
  {
    hide Escape, Printable, Unescaped;
    EscapeNothing(head);
    EscapeAppend(head, [c] + tail);
    EscapeHead(c, tail);
    assert EscapeChar(c) == ['\\', c];
    hide EscapeChar;
    Associate(head, [c], tail);
    assert ['\\', c] + Escape(tail) == ['\\'] + ([c] + Escape(tail));
    Associate(head, ['\\'], [c] + Escape(tail));
  }

  /** Escaping keeps plain text normalized: it only inserts backslashes. */
  lemma {:induction false} EscapeKeepsNfc(nfc: Nfc, s: string)
    requires SplitsAtInert(nfc) && nfc(s) && Printable(s)
    ensures nfc(Escape(s))
    decreases |s|
  {
    hide SplitsAtInert, Escape;
    var n := Head(s);
    var head := s[..n];
    if n == |s| {
      assert s == head;
      EscapeNothing(s);
    } else {
      var c, tail := s[n], s[n + 1..];
      assert s == head + [c] + tail;
      SplitAt(nfc, head, c, tail);
      EscapeKeepsNfc(nfc, tail);
      Behind(nfc, c, Escape(tail));
      SplitAt(nfc, head, '\\', [c] + Escape(tail));
      EscapeSplit(head, c, tail);
    }
  }

  lemma {:induction false} StringNfc(nfc: Nfc, s: string)
    requires SplitsAtInert(nfc) && nfc(s) && Printable(s)
    ensures nfc(RenderString(s))
  {
    EscapeKeepsNfc(nfc, s);
    Between(nfc, '\"', Escape(s), '\"');
  }

  lemma {:induction false} Between(nfc: Nfc, a: char, s: string, b: char)
    requires SplitsAtInert(nfc) && Inert(a) && Inert(b) && nfc(s)
    ensures nfc([a] + s + [b])
  {
    SplitAt(nfc, s, b, "");
    Behind(nfc, a, s + [b] + "");
    assert [a] + (s + [b] + "") == [a] + s + [b];
  }

  lemma {:induction false} DigitsNfc(nfc: Nfc, s: string)
    requires SplitsAtInert(nfc) && AllDigits(s)
    ensures nfc(s)
  {
    if s != "" {
      assert IsDigit(s[0]);
      DigitsNfc(nfc, s[1..]);
      Behind(nfc, s[0], s[1..]);
      assert [s[0]] + s[1..] == s;
    }
  }

  lemma {:induction false} IntNfc(nfc: Nfc, n: int)
    requires SplitsAtInert(nfc)
    ensures nfc(RenderInt(n))
  {
    hide SplitsAtInert;
    var magnitude := if n < 0 then -n else n;
    RenderNatValue(magnitude);
    DigitsNfc(nfc, RenderNat(magnitude));
    Behind(nfc, '-', RenderNat(magnitude));
  }

  lemma {:induction false} Joint(nfc: Nfc, a: string, c: char, b: string)
    requires SplitsAtInert(nfc) && Inert(c) && nfc(a) && nfc(b)
    ensures nfc(a + ([c] + b))
  {
    SplitAt(nfc, a, c, b);
    assert a + ([c] + b) == a + [c] + b;
  }

  lemma {:induction false} RenderNfc(nfc: Nfc, v: Json)
    requires SplitsAtInert(nfc) && AllNfc(nfc, v) && Plain(v)
    ensures nfc(Render(v))
    decreases v
  {
    hide SplitsAtInert, RenderItems, RenderMembers, RenderInt, RenderString, Printable;
    match v
    case Null => Words(nfc);
    case Bool(_) => Words(nfc);
    case Int(n) => IntNfc(nfc, n);
    case Str(s) => StringNfc(nfc, s);
    case Arr(items) => ItemsNfc(nfc, items); Between(nfc, '[', RenderItems(items), ']');
    case Obj(members) => MembersNfc(nfc, members); Between(nfc, '{', RenderMembers(members), '}');
  }

  lemma {:induction false} Words(nfc: Nfc)
    requires SplitsAtInert(nfc)
    ensures nfc("") && nfc("null") && nfc("true") && nfc("false")
  {
  }

  lemma {:induction false} ItemsNfc(nfc: Nfc, items: seq<Json>)
    requires SplitsAtInert(nfc) && forall x :: x in items ==> AllNfc(nfc, x) && Plain(x)
    ensures nfc(RenderItems(items))
    decreases items
  {
    hide SplitsAtInert, Render, AllNfc, Plain;
    if items == [] {
      Words(nfc);
    } else {
      RenderNfc(nfc, items[0]);
      if |items| > 1 {
        ItemsNfc(nfc, items[1..]);
        Joint(nfc, Render(items[0]), ',', RenderItems(items[1..]));
      } else {
        assert Render(items[0]) + "" == Render(items[0]);
      }
    }
  }

  lemma {:induction false} MembersNfc(nfc: Nfc, members: seq<Member>)
    requires SplitsAtInert(nfc)
    requires forall m :: m in members ==> nfc(m.key) && Printable(m.key) && AllNfc(nfc, m.value) && Plain(m.value)
    ensures nfc(RenderMembers(members))
    decreases members
  {
    hide SplitsAtInert, Render, RenderString, AllNfc, Plain, Printable;
    if members == [] {
      Words(nfc);
    } else {
      var first := members[0];
      StringNfc(nfc, first.key);
      RenderNfc(nfc, first.value);
      Joint(nfc, RenderString(first.key), ':', Render(first.value));
      var here := RenderString(first.key) + ([':'] + Render(first.value));
      assert RenderMember(first) == here;
      if |members| > 1 {
        MembersNfc(nfc, members[1..]);
        Joint(nfc, here, ',', RenderMembers(members[1..]));
        assert RenderMembers(members) == here + ("," + RenderMembers(members[1..]));
      } else {
        assert RenderMembers(members) == here;
      }
    }
  }

  lemma {:induction false} CanonKeepsPlain(v: Json)
    requires Plain(v)
    ensures Plain(Canon(v))
    decreases v
  {
    match v
    case Arr(items) =>
      forall i | 0 <= i < |items| ensures Plain(CanonItems(items)[i]) { CanonKeepsPlain(items[i]); }
    case Obj(members) =>
      var canon := CanonMembers(members);
      forall i | 0 <= i < |members|
        ensures Printable(canon[i].key) && Plain(canon[i].value)
      {
        CanonKeepsPlain(members[i].value);
      }
      MultisetMember(SortBy(canon, KeyLe), canon);
    case _ =>
  }

  /** Values whose strings hold no control character always read back as themselves with sorted keys. */
  lemma {:induction false} PlainRoundTrip(nfc: Nfc, v: Json)
    requires SplitsAtInert(nfc) && Encodable(nfc, v) && Plain(v)
    ensures nfc(Text(v)) && ParseCanonical(nfc, Text(v)) == Ok(Canon(v))
  {
    hide SplitsAtInert, Render, Canon, Plain, AllNfc;
    CanonKeepsPlain(v);
    CanonKeepsNfc(nfc, v);
    RenderNfc(nfc, Canon(v));
    CanonicalRoundTrip(nfc, v);
  }

  /** And so do whole logs of them. */
  lemma {:induction false} PlainLogRoundTrip(nfc: Nfc, vs: seq<Json>)
    requires SplitsAtInert(nfc) && forall v :: v in vs ==> Encodable(nfc, v) && Plain(v)
    ensures EncodeJsonl(nfc, vs).Some? && ParseJsonl(nfc, EncodeJsonl(nfc, vs).value) == Ok(CanonItems(vs))
  {
    hide SplitsAtInert, Text, Plain, Encodable, ParseJsonl;
    forall v | v in vs
      ensures nfc(Text(v))
    {
      PlainRoundTrip(nfc, v);
    }
    JsonlRoundTrip(nfc, vs);
  }

  /** The hypothesis on normalization is consistent with the failing example. */
  lemma {:induction false} TildeFreeSplits()
    ensures SplitsAtInert(TildeFree)
  {
    forall a: string, c: char, b: string | Inert(c)
      ensures TildeFree(a + [c] + b) <==> TildeFree(a) && TildeFree(b)
    {
      TildeFreeAround(a, c, b);
    }
  }

  lemma {:induction false} TildeFreeAround(a: string, c: char, b: string)
    requires c != 'n' && c != COMBINING_TILDE
    ensures TildeFree(a + [c] + b) <==> TildeFree(a) && TildeFree(b)
  {
    var s := a + [c] + b;
    assert forall i :: 0 <= i < |a| ==> s[i] == a[i];
    assert s[|a|] == c;
    assert forall i :: 0 <= i < |b| ==> s[|a| + 1 + i] == b[i];
    if TildeFree(s) {
      forall i | 0 < i < |b|
        ensures !(b[i - 1] == 'n' && b[i] == COMBINING_TILDE)
      {
        assert s[|a| + 1 + i - 1] == b[i - 1] && s[|a| + 1 + i] == b[i];
      }
    }
    if TildeFree(a) && TildeFree(b) {
      forall i | 0 < i < |s|
        ensures !(s[i - 1] == 'n' && s[i] == COMBINING_TILDE)
      {
        if i > |a| + 1 { assert s[i] == b[i - |a| - 1] && s[i - 1] == b[i - |a| - 2]; }
      }
    }
  }
}
