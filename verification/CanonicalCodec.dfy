/** The canonical codec is one-to-one on what it accepts, for single values and for LF-framed logs. */
module CanonicalCodec {
  import opened Basics
  import opened JsonText
  import opened JsonRoundTrip
  import opened JsonGrammar
  import opened CanonicalJson

  /** A value the program can hand to the writer: a dictionary tree whose strings are NFC. */
  predicate Encodable(nfc: Nfc, v: Json) { DictLike(v) && AllNfc(nfc, v) }

  function Text(v: Json): string { Render(Canon(v)) }

  lemma {:induction false} TextIsClean(v: Json)
    ensures Text(v) != "" && Text(v)[0] != BOM && Printable(Text(v))
  {
    RenderFirst(Canon(v));
    RenderPrintable(Canon(v));
  }

  lemma {:induction false} TextReads(nfc: Nfc, v: Json)
    requires Encodable(nfc, v)
    ensures Loads(Text(v)) == Some(Canon(v)) && Encodable(nfc, Canon(v)) && Canon(Canon(v)) == Canon(v)
  {
    CanonKeeps(v);
    CanonKeepsNfc(nfc, v);
    OrderedIsCanonical(Canon(v));
    LoadsRender(Canon(v));
  }

  /** Reading a canonical text gives the value with its keys sorted, provided the text as a whole is
      NFC; otherwise the reader refuses what the writer wrote. */
  lemma {:induction false} CanonicalRoundTrip(nfc: Nfc, v: Json)
    requires Encodable(nfc, v)
    ensures CanonicalText(nfc, v) == Some(Text(v))
    ensures ParseCanonical(nfc, Text(v)) == if nfc(Text(v)) then Ok(Canon(v)) else Err(NotNormalized)
  {
    hide Render, Canon, Loads, DictLike, AllNfc;
    TextIsClean(v);
    TextReads(nfc, v);
    var t := Text(v);
    assert t[|t| - 1] >= ' ';
  }

  /** Accepted texts are exactly the normalized renderings of encodable values with keys in order,
      and the value read is that value. */
  lemma {:induction false} AcceptedExactlyWhen(nfc: Nfc, t: string, v: Json)
    ensures ParseCanonical(nfc, t) == Ok(v) <==> Encodable(nfc, v) && InOrder(v) && t == Render(v) && nfc(t)
  {
    hide Render, Loads, DictLike, AllNfc, Canon, InOrder;
    if ParseCanonical(nfc, t) == Ok(v) {
      LoadsDictLike(t);
      TextReads(nfc, v);
      CanonKeeps(v);
    }
    if Encodable(nfc, v) && InOrder(v) && t == Render(v) && nfc(t) {
      OrderedIsCanonical(v);
      CanonicalRoundTrip(nfc, v);
    }
  }

  /** The text spells some value, blanks around it allowed. */
  ghost predicate Spelled(t: string) {
    exists before: string, x: Tree, after: string ::
      AllBlank(before) && AllBlank(after) && Good(x) && t == before + Spell(x) + after
  }

  ghost predicate IsCanonical(nfc: Nfc, t: string) {
    exists v :: Encodable(nfc, v) && InOrder(v) && t == Render(v)
  }

  lemma {:induction false} LoadsSpelled(t: string)
    ensures Loads(t).Some? <==> Spelled(t)
  {
    hide Good, Means, Spell, AllBlank, Loads;
    if Loads(t).Some? { LoadsExactlyWhen(t, Loads(t).value); }
    if before: string, x: Tree, after: string :| AllBlank(before) && AllBlank(after) && Good(x) && t == before + Spell(x) + after {
      SpelledIsLoaded(before, x, after);
    }
  }

  /** Why a text is refused, in order. */
  lemma {:induction false} CanonicalRefusals(nfc: Nfc, t: string)
    ensures var r := ParseCanonical(nfc, t);
            if t != "" && t[0] == '\U{FEFF}' then r == Err(ByteOrderMark)
            else if t != "" && (t[|t| - 1] == '\n' || t[|t| - 1] == '\r') then r == Err(TrailingNewline)
            else if !nfc(t) then r == Err(NotNormalized)
            else if !Spelled(t) then r == Err(InvalidJson)
            else if !IsCanonical(nfc, t) then r == Err(NotCanonical)
            else r.Ok?
  {
    hide Loads, Render, Canon, DictLike, AllNfc, InOrder, Spelled;
    LoadsSpelled(t);
    var r := ParseCanonical(nfc, t);
    if r.Ok? { AcceptedExactlyWhen(nfc, t, r.value); }
    if v :| Encodable(nfc, v) && InOrder(v) && t == Render(v) {
      if nfc(t) { AcceptedExactlyWhen(nfc, t, v); }
    }
  }

  lemma {:induction false} LoadsDictLike(t: string)
    ensures Loads(t).Some? ==> DictLike(Loads(t).value)
  {
    ParsedIsDictLike(Skip(t));
  }

  /** Equal values have equal canonical texts, and different values different ones. */
  lemma {:induction false} OneTextPerValue(nfc: Nfc, v: Json, w: Json)
    requires Encodable(nfc, v) && Encodable(nfc, w)
    ensures CanonicalText(nfc, v) == CanonicalText(nfc, w) <==> SameValue(v, w)
  {
    hide Render, Loads, DictLike, AllNfc, Canon, SameValue;
    TextReads(nfc, v);
    TextReads(nfc, w);
    CanonDecidesEquality(v, w);
  }

  // ------------------------------------------------------------------ where normalization bites

  const COMBINING_TILDE: char := '\U{0303}'

  /** The one fact of Unicode normalization used below: `n` before a combining tilde is not NFC. */
  predicate TildeFree(s: string) {
    forall i :: 0 < i < |s| ==> !(s[i - 1] == 'n' && s[i] == COMBINING_TILDE)
  }

  /** A line feed before a combining tilde is a normalized string, but its escape `\n` is not: the
      reader refuses the bytes that the writer produced. */
  lemma {:induction false} EscapedLineFeedIsRefused()
    ensures var v := Str(['\n', COMBINING_TILDE]);
            && Encodable(TildeFree, v)
            && CanonicalText(TildeFree, v) == Some("\"\\n" + [COMBINING_TILDE] + "\"")
            && ParseCanonical(TildeFree, Text(v)) == Err(NotNormalized)
  {
    var s := ['\n', COMBINING_TILDE];
    var nfc: Nfc := TildeFree;
    assert s[1..] == [COMBINING_TILDE] && [COMBINING_TILDE][1..] == "";
    assert Escape([COMBINING_TILDE]) == [COMBINING_TILDE];
    assert Escape(s) == "\\n" + [COMBINING_TILDE];
    var t := Text(Str(s));
    assert t == "\"\\n" + [COMBINING_TILDE] + "\"";
    assert t[2] == 'n' && t[3] == COMBINING_TILDE;
    assert !TildeFree(t);
    CanonicalRoundTrip(nfc, Str(s));
  }

  // ------------------------------------------------------------------ one record per line

  function EncodeJsonl(nfc: Nfc, vs: seq<Json>): Option<string> {
    if vs == [] then Some("")
    else
      var first, others := CanonicalText(nfc, vs[0]), EncodeJsonl(nfc, vs[1..]);
      if first.Some? && others.Some? then Some(first.value + "\n" + others.value) else None
  }

  /** Splitting at every line feed: always one piece more than there are line feeds. */
  function SplitLf(s: string): (r: seq<string>)
    ensures |r| >= 1
  {
    if s == "" then [""]
    else if s[0] == '\n' then [""] + SplitLf(s[1..])
    else
      var r := SplitLf(s[1..]);
      [[s[0]] + r[0]] + r[1..]
  }

  function ParseLines(nfc: Nfc, lines: seq<string>): Result<seq<Json>, CanonicalError> {
    if lines == [] then Ok([])
    else
      var first := ParseCanonical(nfc, lines[0]);
      if first.Err? then Err(first.error)
      else
        var others := ParseLines(nfc, lines[1..]);
        if others.Err? then others else Ok([first.value] + others.value)
  }

  function Init<T>(s: seq<T>): seq<T>
    requires s != []
  {
    s[..|s| - 1]
  }

  function ParseJsonl(nfc: Nfc, data: string): Result<seq<Json>, CanonicalError> {
    if data == "" then Ok([])
    else if data[0] == BOM || '\r' in data || data[|data| - 1] != '\n' then Err(BadFraming)
    else
      var lines := Init(SplitLf(data));
      if "" in lines then Err(BlankRecord) else ParseLines(nfc, lines)
  }

  /** A log is empty, or framed by line feeds without a byte order mark, a carriage return or a blank line. */
  lemma {:induction false} FramingRefusals(nfc: Nfc, data: string)
    ensures data == "" ==> ParseJsonl(nfc, data) == Ok([])
    ensures data != "" && (data[0] == '\U{FEFF}' || data[|data| - 1] != '\n' || exists i :: 0 <= i < |data| && data[i] == '\r') ==>
              ParseJsonl(nfc, data) == Err(BadFraming)
    ensures data != "" && data[0] == '\n' && '\r' !in data && data[|data| - 1] == '\n' ==> ParseJsonl(nfc, data) == Err(BlankRecord)
  {
    if data != "" && data[0] == '\n' { assert SplitLf(data)[0] == "" && |SplitLf(data)| >= 2; }
  }

  function Joined(lines: seq<string>): string {
    if lines == [] then "" else lines[0] + "\n" + Joined(lines[1..])
  }

  lemma {:induction false} SplitRecord(t: string, rest: string)
    requires '\n' !in t
    ensures SplitLf(t + "\n" + rest) == [t] + SplitLf(rest)
  {
    var s := t + "\n" + rest;
    if t == "" {
      assert s[0] == '\n' && s[1..] == rest;
    } else {
      SplitRecord(t[1..], rest);
      assert s[0] == t[0] && s[1..] == t[1..] + "\n" + rest;
      assert [t[0]] + t[1..] == t;
      assert t[0] in t;
    }
  }

  lemma {:induction false} SplitJoined(lines: seq<string>)
    requires forall l :: l in lines ==> '\n' !in l
    ensures SplitLf(Joined(lines)) == lines + [""]
  {
    if lines != [] {
      SplitJoined(lines[1..]);
      SplitRecord(lines[0], Joined(lines[1..]));
      assert [lines[0]] + (lines[1..] + [""]) == lines + [""];
    }
  }

  lemma {:induction false} JoinSplit(s: string)
    requires s == "" || s[|s| - 1] == '\n'
    ensures Joined(Init(SplitLf(s))) == s
    ensures SplitLf(s)[|SplitLf(s)| - 1] == ""
  {
    if s != "" {
      var tail := s[1..];
      var r := SplitLf(tail);
      assert tail != "" ==> tail[|tail| - 1] == s[|s| - 1];
      JoinSplit(tail);
      if s[0] == '\n' {
        assert Init([""] + r) == [""] + Init(r);
        assert ([""] + Init(r))[1..] == Init(r);
      } else {
        SplitGrows(s);
      }
    }
  }

  lemma {:induction false} JoinedHead(c: char, r: seq<string>)
    requires r != []
    ensures Joined([[c] + r[0]] + r[1..]) == [c] + Joined(r)
  {
    var lines := [[c] + r[0]] + r[1..];
    assert lines[1..] == r[1..];
    assert ([c] + r[0]) + "\n" + Joined(r[1..]) == [c] + (r[0] + "\n" + Joined(r[1..]));
  }

  lemma {:induction false} SplitGrows(s: string)
    requires s != "" && s[0] != '\n' && s[|s| - 1] == '\n'
    requires Joined(Init(SplitLf(s[1..]))) == s[1..] && SplitLf(s[1..])[|SplitLf(s[1..])| - 1] == ""
    ensures Joined(Init(SplitLf(s))) == s && SplitLf(s)[|SplitLf(s)| - 1] == ""
  {
    var r := SplitLf(s[1..]);
    var grown := [[s[0]] + r[0]] + r[1..];
    assert SplitLf(s) == grown;
    hide SplitLf;
    assert |s| > 1 && Joined([]) == "" && Init(r) != [];
    hide Joined;
    assert Init(grown) == [[s[0]] + Init(r)[0]] + Init(r)[1..];
    JoinedHead(s[0], Init(r));
  }

  function Texts(vs: seq<Json>): seq<string> {
    seq(|vs|, i requires 0 <= i < |vs| => Text(vs[i]))
  }

  lemma {:induction false} EncodesTexts(nfc: Nfc, vs: seq<Json>)
    requires forall v :: v in vs ==> Encodable(nfc, v)
    ensures EncodeJsonl(nfc, vs) == Some(Joined(Texts(vs)))
  {
    hide Text;
    if vs != [] {
      EncodesTexts(nfc, vs[1..]);
      assert Texts(vs)[1..] == Texts(vs[1..]);
      CanonicalRoundTrip(nfc, vs[0]);
    }
  }

  lemma {:induction false} ParsesTexts(nfc: Nfc, vs: seq<Json>)
    requires forall v :: v in vs ==> Encodable(nfc, v)
    ensures ParseLines(nfc, Texts(vs)) ==
            if forall v :: v in vs ==> nfc(Text(v)) then Ok(CanonItems(vs)) else Err(NotNormalized)
  {
    hide Text, ParseCanonical, Canon, Encodable;
    if vs != [] {
      ParsesTexts(nfc, vs[1..]);
      assert Texts(vs)[1..] == Texts(vs[1..]);
      CanonicalRoundTrip(nfc, vs[0]);
      assert vs == [vs[0]] + vs[1..];
      assert CanonItems(vs) == [Canon(vs[0])] + CanonItems(vs[1..]);
    }
  }

  lemma {:induction false} JoinedIsFramed(lines: seq<string>)
    requires lines != [] && forall i :: 0 <= i < |lines| ==> lines[i] != "" && Printable(lines[i])
    ensures Joined(lines) != "" && Joined(lines)[0] == lines[0][0]
    ensures Joined(lines)[|Joined(lines)| - 1] == '\n' && '\r' !in Joined(lines)
  {
    if lines[1..] != [] {
      JoinedIsFramed(lines[1..]);
    }
  }

  /** Framing is unambiguous: joined clean lines are read as those lines. */
  lemma {:induction false} FramesAreRead(nfc: Nfc, lines: seq<string>)
    requires forall i :: 0 <= i < |lines| ==> lines[i] != "" && Printable(lines[i]) && lines[i][0] != BOM
    ensures ParseJsonl(nfc, Joined(lines)) == ParseLines(nfc, lines)
  {
    forall l | l in lines
      ensures l != "" && '\n' !in l
    {
      var i :| 0 <= i < |lines| && lines[i] == l;
    }
    SplitJoined(lines);
    assert Init(lines + [""]) == lines;
    hide SplitLf, ParseCanonical;
    if lines != [] {
      JoinedIsFramed(lines);
    }
  }

  /** A log reads back record by record: exactly when every record's own text is NFC. */
  lemma {:induction false} JsonlRoundTrip(nfc: Nfc, vs: seq<Json>)
    requires forall v :: v in vs ==> Encodable(nfc, v)
    ensures EncodeJsonl(nfc, vs).Some?
    ensures ParseJsonl(nfc, EncodeJsonl(nfc, vs).value) ==
            if forall v :: v in vs ==> nfc(Text(v)) then Ok(CanonItems(vs)) else Err(NotNormalized)
  {
    hide Text, Encodable, ParseLines, ParseJsonl, Joined, Canon;
    EncodesTexts(nfc, vs);
    ParsesTexts(nfc, vs);
    forall i | 0 <= i < |vs|
      ensures Texts(vs)[i] != "" && Printable(Texts(vs)[i]) && Texts(vs)[i][0] != BOM
    {
      TextIsClean(vs[i]);
    }
    FramesAreRead(nfc, Texts(vs));
  }

  lemma {:induction false} ParsedLinesReencode(nfc: Nfc, lines: seq<string>)
    requires ParseLines(nfc, lines).Ok?
    ensures EncodeJsonl(nfc, ParseLines(nfc, lines).value) == Some(Joined(lines))
  {
    hide ParseCanonical, CanonicalText;
    if lines != [] {
      ParsedLinesReencode(nfc, lines[1..]);
      var vs := ParseLines(nfc, lines).value;
      assert vs[1..] == ParseLines(nfc, lines[1..]).value;
      ParsedTextReencodes(nfc, lines[0]);
    }
  }

  lemma {:induction false} ParsedTextReencodes(nfc: Nfc, t: string)
    requires ParseCanonical(nfc, t).Ok?
    ensures CanonicalText(nfc, ParseCanonical(nfc, t).value) == Some(t)
  {
  }

  /** Whatever log the reader accepts, writing the records back gives the same text. */
  lemma {:induction false} AcceptedJsonlReencodes(nfc: Nfc, data: string)
    requires ParseJsonl(nfc, data).Ok?
    ensures EncodeJsonl(nfc, ParseJsonl(nfc, data).value) == Some(data)
  {
    hide EncodeJsonl, ParseLines, Joined;
    if data != "" {
      JoinSplit(data);
      ParsedLinesReencode(nfc, Init(SplitLf(data)));
    } else {
      EncodesNothing(nfc);
    }
  }

  lemma {:induction false} EncodesNothing(nfc: Nfc)
    ensures EncodeJsonl(nfc, []) == Some("")
  {
  }
}
