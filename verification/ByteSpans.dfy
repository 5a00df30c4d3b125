/** Character positions to byte positions of the UTF-8 source (section 3 of RFC 3629), and the lines of
    the source as character spans. */
module ByteSpans {
  newtype Byte = b: int | 0 <= b < 256

  // ------------------------------------------------------------------ UTF-8

  function Utf8(c: char): (r: seq<Byte>)
    ensures 1 <= |r| <= 4
  {
    var n := c as int;
    if n < 0x80 then [n as Byte]
    else if n < 0x800 then [(0xC0 + n / 0x40) as Byte, (0x80 + n % 0x40) as Byte]
    else if n < 0x1_0000 then [(0xE0 + n / 0x1000) as Byte, (0x80 + n / 0x40 % 0x40) as Byte, (0x80 + n % 0x40) as Byte]
    else [(0xF0 + n / 0x4_0000) as Byte, (0x80 + n / 0x1000 % 0x40) as Byte, (0x80 + n / 0x40 % 0x40) as Byte,
          (0x80 + n % 0x40) as Byte]
  }

  function Encode(text: string): seq<Byte> {
    if text == "" then [] else Encode(text[..|text| - 1]) + Utf8(text[|text| - 1])
  }

  /** How many bytes the first byte of a character announces. */
  function Width(b: Byte): nat {
    if b < 0x80 then 1 else if b < 0xE0 then 2 else if b < 0xF0 then 3 else 4
  }

  predicate Continues(b: Byte) { 0x80 <= b < 0xC0 }

  /** The first byte tells the length, and only it is no continuation byte. */
  lemma {:induction false} Utf8Shape(c: char)
    ensures Width(Utf8(c)[0]) == |Utf8(c)| && !Continues(Utf8(c)[0])
    ensures forall i :: 0 < i < |Utf8(c)| ==> Continues(Utf8(c)[i])
  {
  }

  /** Different characters have different bytes. */
  lemma {:induction false} Utf8Injective(c: char, d: char)
    requires Utf8(c) == Utf8(d)
    ensures c == d
  {
    var m, n := c as int, d as int;
    Utf8Shape(c);
    Utf8Shape(d);
    assert forall i :: 0 <= i < |Utf8(c)| ==> Utf8(c)[i] as int == Utf8(d)[i] as int;
    SixBits(m);
    SixBits(n);
  }

  /** A code point is the number its groups of six bits spell. */
  lemma {:induction false} SixBits(n: nat)
    ensures n == (n / 0x40) * 0x40 + n % 0x40
    ensures n / 0x40 == (n / 0x1000) * 0x40 + n / 0x40 % 0x40
    ensures n / 0x1000 == (n / 0x4_0000) * 0x40 + n / 0x1000 % 0x40
  {
  }

  // ------------------------------------------------------------------ offsets

  method ByteOffsets(text: string) returns (offsets: seq<nat>)
    ensures |offsets| == |text| + 1
    ensures forall i :: 0 <= i <= |text| ==> offsets[i] == |Encode(text[..i])|
  {
    offsets := [0];
    var current := 0;
    for k := 0 to |text|
      invariant |offsets| == k + 1 && current == |Encode(text[..k])|
      invariant forall i :: 0 <= i <= k ==> offsets[i] == |Encode(text[..i])|
    {
      assert text[..k + 1][..k] == text[..k] && text[..k + 1][k] == text[k];
      current := current + |Utf8(text[k])|;
      offsets := offsets + [current];
    }
  }

  lemma {:induction false} EncodeAppend(a: string, b: string)
    ensures Encode(a + b) == Encode(a) + Encode(b)
  {
    if b == "" {
      assert a + b == a;
    } else {
      EncodeAppend(a, b[..|b| - 1]);
      assert (a + b)[..|a + b| - 1] == a + b[..|b| - 1] && (a + b)[|a + b| - 1] == b[|b| - 1];
    }
  }

  function Offset(text: string, i: nat): nat
    requires i <= |text|
  {
    |Encode(text[..i])|
  }

  /** Offsets strictly increase and end at the byte length. */
  lemma {:induction false} OffsetsIncrease(text: string, i: nat, j: nat)
    requires i < j <= |text|
    ensures Offset(text, i) < Offset(text, j) <= |Encode(text)|
    ensures Offset(text, 0) == 0 && Offset(text, |text|) == |Encode(text)|
  {
    assert text[..j] == text[..i] + text[i..j] && text == text[..j] + text[j..] && text[..|text|] == text;
    EncodeAppend(text[..i], text[i..j]);
    EncodeAppend(text[..j], text[j..]);
    var span := text[i..j];
    assert |Encode(span)| >= |Utf8(span[|span| - 1])|;
  }

  /** The bytes between two offsets are the encoding of the characters between the positions. */
  lemma {:induction false} SpanBytes(text: string, i: nat, j: nat)
    requires i <= j <= |text|
    ensures Offset(text, i) <= Offset(text, j) <= |Encode(text)|
    ensures Encode(text)[Offset(text, i)..Offset(text, j)] == Encode(text[i..j])
  {
    var a, b, c := text[..i], text[i..j], text[j..];
    assert text[..j] == a + b && text == a + b + c;
    EncodeAppend(a, b);
    EncodeAppend(a + b, c);
  }

  lemma {:induction false} EncodeHead(c: char, tail: string)
    ensures Encode([c] + tail) == Utf8(c) + Encode(tail)
  {
    EncodeAppend([c], tail);
    assert [c][..0] == "" && Encode([c]) == Encode("") + Utf8(c);
  }

  lemma {:induction false} EncodeNonEmpty(text: string)
    ensures Encode(text) == [] <==> text == ""
  {
  }

  /** Decoding is unambiguous, so equal bytes come from equal text. */
  lemma {:induction false} EncodeInjective(s: string, t: string)
    requires Encode(s) == Encode(t)
    ensures s == t
    decreases |s|
  {
    EncodeNonEmpty(s);
    EncodeNonEmpty(t);
    if s != "" {
      EncodeHead(s[0], s[1..]);
      EncodeHead(t[0], t[1..]);
      assert [s[0]] + s[1..] == s && [t[0]] + t[1..] == t;
      FirstCharacter(Utf8(s[0]), Encode(s[1..]), Utf8(t[0]), Encode(t[1..]), s[0], t[0]);
      EncodeInjective(s[1..], t[1..]);
    }
  }

  lemma {:induction false} FirstCharacter(a: seq<Byte>, b: seq<Byte>, a': seq<Byte>, b': seq<Byte>, c: char, c': char)
    requires a == Utf8(c) && a' == Utf8(c') && a + b == a' + b'
    ensures c == c' && b == b'
  {
    Utf8Shape(c);
    Utf8Shape(c');
    assert (a + b)[0] == a[0] && (a' + b')[0] == a'[0];
    assert a == (a + b)[..|a|] == (a' + b')[..|a'|] == a';
    assert b == (a + b)[|a|..] && b' == (a' + b')[|a'|..];
    Utf8Injective(c, c');
  }

  // ------------------------------------------------------------------ lines

  /** A line's content, without its line feed, and where it stands. */
  datatype LineSpan = LineSpan(text: string, start: nat, end: nat)

  /** The line boundaries a validated source can contain: it holds no control character but line feed
      and tab. */
  predicate IsBreak(c: char) { c == '\n' || c == '\U{2028}' || c == '\U{2029}' }

  /** Where the first piece ends, its boundary included. */
  function FirstPiece(text: string): (n: nat)
    requires text != ""
    ensures 1 <= n <= |text|
    ensures forall i :: 0 <= i < n - 1 ==> !IsBreak(text[i])
    ensures n < |text| ==> IsBreak(text[n - 1])
  {
    if IsBreak(text[0]) || |text| == 1 then 1
    else
      var n := 1 + FirstPiece(text[1..]);
      assert forall i :: 0 < i < n ==> text[i] == text[1..][i - 1];
      n
  }

  function Pieces(text: string): seq<string> {
    if text == "" then []
    else
      var n := FirstPiece(text);
      [text[..n]] + Pieces(text[n..])
  }

  function Content(piece: string): string {
    if piece != "" && piece[|piece| - 1] == '\n' then piece[..|piece| - 1] else piece
  }

  function Joined(pieces: seq<string>): string {
    if pieces == [] then "" else Joined(pieces[..|pieces| - 1]) + pieces[|pieces| - 1]
  }

  lemma {:induction false} JoinedStep(pieces: seq<string>, k: nat)
    requires k < |pieces|
    ensures Joined(pieces[..k + 1]) == Joined(pieces[..k]) + pieces[k]
  {
    assert pieces[..k + 1][..k] == pieces[..k] && pieces[..k + 1][k] == pieces[k];
  }

  lemma {:induction false} NothingJoined()
    ensures Joined([]) == ""
  {
  }

  lemma {:induction false} SomePiece(text: string)
    ensures Pieces(text) == [] <==> text == ""
  {
  }

  method Lines(text: string) returns (lines: seq<LineSpan>)
    ensures |lines| == |Pieces(text)|
    ensures forall k :: 0 <= k < |lines| ==>
      lines[k] == LineSpan(Content(Pieces(text)[k]), |Joined(Pieces(text)[..k])|,
                           |Joined(Pieces(text)[..k])| + |Content(Pieces(text)[k])|)
  {
    hide Pieces, Content, Joined;
    lines := [];
    var cursor := 0;
    assert Joined([]) == "" by { NothingJoined(); }
    var pieces := Pieces(text);
    for k := 0 to |pieces|
      invariant |lines| == k && cursor == |Joined(pieces[..k])|
      invariant forall i :: 0 <= i < k ==>
        lines[i] == LineSpan(Content(pieces[i]), |Joined(pieces[..i])|, |Joined(pieces[..i])| + |Content(pieces[i])|)
    {
      var content := Content(pieces[k]);
      lines := lines + [LineSpan(content, cursor, cursor + |content|)];
      JoinedStep(pieces, k);
      cursor := cursor + |pieces[k]|;
    }
    // Text that is not empty has a piece, so no line has to be made up for it.
    SomePiece(text);
    assert lines == [] ==> text == "";
  }

  lemma {:induction false} JoinedHead(p: string, rest: seq<string>)
    ensures Joined([p] + rest) == p + Joined(rest)
  {
    if rest == [] {
      assert [p] + rest == [p] && [p][..0] == [];
    } else {
      var init, last := rest[..|rest| - 1], rest[|rest| - 1];
      JoinedHead(p, init);
      assert ([p] + rest)[..|rest|] == [p] + init && ([p] + rest)[|rest|] == last;
    }
  }

  /** The pieces put together are the text. */
  lemma {:induction false} PiecesRebuild(text: string)
    ensures Joined(Pieces(text)) == text
    decreases |text|
  {
    hide Joined;
    if text == "" {
      NothingJoined();
    } else {
      var n := FirstPiece(text);
      PiecesRebuild(text[n..]);
      JoinedHead(text[..n], Pieces(text[n..]));
      assert text[..n] + text[n..] == text;
    }
  }

  /** A piece is not empty and ends at its only boundary, if any. */
  lemma {:induction false} PieceShape(text: string, p: string)
    requires p in Pieces(text)
    ensures p != "" && forall i :: 0 <= i < |p| - 1 ==> !IsBreak(p[i])
    decreases |text|
  {
    var n := FirstPiece(text);
    if p != text[..n] {
      PieceShape(text[n..], p);
    }
  }

  /** A piece holds no line feed, line or paragraph separator but at its end, and every piece but the last one
      ends with one. */
  lemma {:induction false} PiecesBreak(text: string, k: nat)
    requires k < |Pieces(text)|
    ensures var p := Pieces(text)[k];
            && p != ""
            && (forall i :: 0 <= i < |p| - 1 ==> p[i] != '\n' && p[i] != '\U{2028}' && p[i] != '\U{2029}')
            && (k + 1 < |Pieces(text)| ==>
                  p[|p| - 1] == '\n' || p[|p| - 1] == '\U{2028}' || p[|p| - 1] == '\U{2029}')
    decreases |text|
  {
    var n := FirstPiece(text);
    if k > 0 { PiecesBreak(text[n..], k - 1); }
  }

  lemma {:induction false} JoinedSplit(pieces: seq<string>, k: nat)
    requires k < |pieces|
    ensures |Joined(pieces[..k])| + |pieces[k]| == |Joined(pieces[..k + 1])| <= |Joined(pieces)|
    ensures Joined(pieces)[|Joined(pieces[..k])|..|Joined(pieces[..k + 1])|] == pieces[k]
    decreases |pieces|
  {
    assert pieces[..k + 1][..k] == pieces[..k] && pieces[..k + 1][k] == pieces[k];
    if k == |pieces| - 1 {
      assert pieces[..k + 1] == pieces;
    } else {
      var init := pieces[..|pieces| - 1];
      JoinedSplit(init, k);
      assert init[..k] == pieces[..k] && init[..k + 1] == pieces[..k + 1] && init[k] == pieces[k];
      var prefix, last := Joined(init), pieces[|pieces| - 1];
      assert (prefix + last)[|Joined(pieces[..k])|..|Joined(pieces[..k + 1])|]
          == prefix[|Joined(pieces[..k])|..|Joined(pieces[..k + 1])|];
    }
  }

  lemma {:induction false} StartsGrow(pieces: seq<string>, k: nat, m: nat)
    requires k <= m <= |pieces|
    ensures |Joined(pieces[..k])| <= |Joined(pieces[..m])|
  {
    if k < m {
      StartsGrow(pieces, k, m - 1);
      JoinedSplit(pieces, m - 1);
    }
  }

  lemma {:induction false} ContentShape(p: string)
    requires p != "" && forall i :: 0 <= i < |p| - 1 ==> !IsBreak(p[i])
    ensures |Content(p)| <= |p| && Content(p) == p[..|Content(p)|] && '\n' !in Content(p)
    ensures p[|Content(p)|..] == "" || p[|Content(p)|..] == "\n"
  {
  }

  /** Line spans are in order and disjoint, each span holds the line's content without a line feed, and
      between a span and the next one stands at most that line feed. */
  lemma {:induction false} LineSpansCover(text: string, k: nat)
    requires k < |Pieces(text)|
    ensures var pieces := Pieces(text);
            var start, next := |Joined(pieces[..k])|, |Joined(pieces[..k + 1])|;
            var end := start + |Content(pieces[k])|;
            && start <= end <= next <= |text| && text[start..end] == Content(pieces[k])
            && '\n' !in text[start..end] && (text[end..next] == "" || text[end..next] == "\n")
            && (k + 1 == |pieces| ==> next == |text|)
            && (forall m :: k < m < |pieces| ==> end <= |Joined(pieces[..m])|)
  {
    hide Pieces, Joined, Content;
    var pieces := Pieces(text);
    PiecesRebuild(text);
    JoinedSplit(pieces, k);
    var p := pieces[k];
    assert p in pieces;
    PieceShape(text, p);
    var start, next := |Joined(pieces[..k])|, |Joined(pieces[..k + 1])|;
    var end := start + |Content(p)|;
    assert text[start..next] == p;
    ContentShape(p);
    assert text[start..end] == p[..|Content(p)|] && text[end..next] == p[|Content(p)|..];
    if k + 1 == |pieces| { assert pieces[..k + 1] == pieces; }
    forall m | k < m < |pieces|
      ensures end <= |Joined(pieces[..m])|
    {
      StartsGrow(pieces, k + 1, m);
    }
  }
}
