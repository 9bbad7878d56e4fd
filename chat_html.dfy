/** The HTML the modal client builds for a chat bubble (assets/js/wland-chat-block-modal.js):
    `processLinks` escapes `&`, `<` and `>` with three global replacements and then wraps every
    `https?://` run in an anchor; a bot reply first has its markdown links `[caption](url)` turned
    into anchors. */
/** The anchor markup the modal client inserts, for URLs and for markdown links alike. */
module ChatMarkup {
  const TargetAttribute: string := " target=\"_blank\""
  const RelAttribute: string := " rel=\"noopener noreferrer\""
  const StyleColor: string := " style=\"color: #01B7AF;"
  const StyleDecoration: string := " text-decoration: underline;\""

  /** The attributes every inserted anchor carries after its `href`. */
  const AnchorAttributes: string := TargetAttribute + RelAttribute + StyleColor + StyleDecoration

  const HrefAttribute: string := "a href=\""
  const OpenTag: string := "<" + HrefAttribute
  const MidTag: string := "\"" + AnchorAttributes + ">"
  const CloseTag: string := "<" + "/a" + ">"

  /** `<a href="HREF" target="_blank" rel="noopener noreferrer" style="…">CAPTION</a>`. */
  function Anchor(href: string, caption: string): string {
    OpenTag + href + MidTag + caption + CloseTag
  }

  /** The number of times `c` occurs in `s`. */
  function Count(s: string, c: char): nat
    decreases |s|
  {
    if s == [] then 0 else (if s[0] == c then 1 else 0) + Count(s[1..], c)
  }

  lemma {:induction false} CountAppend(a: string, b: string, c: char)
    ensures Count(a + b, c) == Count(a, c) + Count(b, c)
    decreases |a|
  {
    if a == [] {
      assert a + b == b;
    } else {
      assert (a + b)[1..] == a[1..] + b;
      CountAppend(a[1..], b, c);
    }
  }

  lemma {:induction false} CountAbsent(s: string, c: char)
    requires c !in s
    ensures Count(s, c) == 0
    decreases |s|
  {
    if s != [] {
      assert s[0] in s;
      CountAbsent(s[1..], c);
    }
  }

  /** A string without angle brackets counts none of either. */
  lemma AngleFree(s: string)
    requires '<' !in s && '>' !in s
    ensures Count(s, '<') == 0 && Count(s, '>') == 0
  {
    CountAbsent(s, '<');
    CountAbsent(s, '>');
  }

  /** Both counts of two strings put together. */
  lemma AnglesAppend(a: string, b: string)
    ensures Count(a + b, '<') == Count(a, '<') + Count(b, '<')
    ensures Count(a + b, '>') == Count(a, '>') + Count(b, '>')
  {
    CountAppend(a, b, '<');
    CountAppend(a, b, '>');
  }

  lemma TargetAngleFree()
    ensures Count(TargetAttribute, '<') == 0 && Count(TargetAttribute, '>') == 0
  {
    assert '<' !in TargetAttribute && '>' !in TargetAttribute;
    AngleFree(TargetAttribute);
  }

  lemma RelAngleFree()
    ensures Count(RelAttribute, '<') == 0 && Count(RelAttribute, '>') == 0
  {
    assert '<' !in RelAttribute && '>' !in RelAttribute;
    AngleFree(RelAttribute);
  }

  lemma ColorAngleFree()
    ensures Count(StyleColor, '<') == 0 && Count(StyleColor, '>') == 0
  {
    assert '<' !in StyleColor && '>' !in StyleColor;
    AngleFree(StyleColor);
  }

  lemma DecorationAngleFree()
    ensures Count(StyleDecoration, '<') == 0 && Count(StyleDecoration, '>') == 0
  {
    assert '<' !in StyleDecoration && '>' !in StyleDecoration;
    AngleFree(StyleDecoration);
  }

  lemma AttributesAngleFree()
    ensures Count(AnchorAttributes, '<') == 0 && Count(AnchorAttributes, '>') == 0
  {
    TargetAngleFree();
    RelAngleFree();
    ColorAngleFree();
    DecorationAngleFree();
    FourAngleFree(TargetAttribute, RelAttribute, StyleColor, StyleDecoration);
  }

  lemma FourAngleFree(t: string, r: string, c: string, d: string)
    requires Count(t, '<') == 0 && Count(r, '<') == 0 && Count(c, '<') == 0 && Count(d, '<') == 0
    requires Count(t, '>') == 0 && Count(r, '>') == 0 && Count(c, '>') == 0 && Count(d, '>') == 0
    ensures Count(t + r + c + d, '<') == 0 && Count(t + r + c + d, '>') == 0
  {
    AnglesAppend(t, r);
    AnglesAppend(t + r, c);
    AnglesAppend(t + r + c, d);
  }

  lemma OpenTagAngles()
    ensures Count(OpenTag, '<') == 1 && Count(OpenTag, '>') == 0
  {
    AngleFree(HrefAttribute);
    AnglesAppend("<", HrefAttribute);
  }

  lemma MidTagAngles()
    ensures Count(MidTag, '<') == 0 && Count(MidTag, '>') == 1
  {
    AttributesAngleFree();
    var a := AnchorAttributes;
    AnglesAppend("\"", a);
    AnglesAppend("\"" + a, ">");
  }

  lemma CloseTagAngles()
    ensures Count(CloseTag, '<') == 1 && Count(CloseTag, '>') == 1
  {
    AngleFree("/a");
    AnglesAppend("<", "/a");
    AnglesAppend("<" + "/a", ">");
  }

  /** One anchor holds two `<` and two `>` when its URL holds none. */
  lemma AnchorAngles(u: string)
    requires '<' !in u && '>' !in u
    ensures Count(Anchor(u, u), '<') == 2 && Count(Anchor(u, u), '>') == 2
  {
    OpenTagAngles();
    MidTagAngles();
    CloseTagAngles();
    AngleFree(u);
    var o, m, k := OpenTag, MidTag, CloseTag;
    AnglesAppend(o, u);
    AnglesAppend(o + u, m);
    AnglesAppend(o + u + m, u);
    AnglesAppend(o + u + m + u, k);
  }
}

module ChatHtml {
  import opened Text
  import opened Wrappers
  import opened ChatMarkup

  // ---------------------------------------------------------------- escaping

  /** `s.replace(/c/g, r)` for a one-character pattern. */
  function ReplaceChar(s: string, c: char, r: string): string
    decreases |s|
  {
    if s == [] then [] else (if s[0] == c then r else [s[0]]) + ReplaceChar(s[1..], c, r)
  }

  function EscapeChar(c: char): string {
    if c == '&' then "&amp;" else if c == '<' then "&lt;" else if c == '>' then "&gt;" else [c]
  }

  /** Every character escaped on its own: the effect the three replacements are meant to have. */
  function Escape(s: string): string
    decreases |s|
  {
    if s == [] then [] else EscapeChar(s[0]) + Escape(s[1..])
  }

  /** The three replacements of `processLinks`, in the source's order. */
  function EscapeAll(text: string): string {
    ReplaceChar(ReplaceChar(ReplaceChar(text, '&', "&amp;"), '<', "&lt;"), '>', "&gt;")
  }

  lemma {:induction false} ReplaceCharAppend(a: string, b: string, c: char, r: string)
    ensures ReplaceChar(a + b, c, r) == ReplaceChar(a, c, r) + ReplaceChar(b, c, r)
    decreases |a|
  {
    if a == [] {
      assert a + b == b;
    } else {
      assert (a + b)[1..] == a[1..] + b;
      ReplaceCharAppend(a[1..], b, c, r);
    }
  }

  /** A replacement leaves text without its character alone. */
  lemma {:induction false} ReplaceCharAbsent(s: string, c: char, r: string)
    requires c !in s
    ensures ReplaceChar(s, c, r) == s
    decreases |s|
  {
    if s != [] {
      assert s == [s[0]] + s[1..];
      ReplaceCharAbsent(s[1..], c, r);
    }
  }

  lemma ReplaceCharSingle(c: char, d: char, r: string)
    ensures ReplaceChar([c], d, r) == if c == d then r else [c]
  {
    assert [c][1..] == [];
    assert ReplaceChar([c][1..], d, r) == [];
  }

  /** The three replacements applied to a single character. */
  lemma EscapeAllChar(c: char)
    ensures EscapeAll([c]) == EscapeChar(c)
  {
    if c == '&' {
      EscapeAllAmp();
    } else if c == '<' {
      EscapeAllLt();
    } else if c == '>' {
      EscapeAllGt();
    } else {
      ReplaceCharSingle(c, '&', "&amp;");
      ReplaceCharSingle(c, '<', "&lt;");
      ReplaceCharSingle(c, '>', "&gt;");
    }
  }

  lemma EscapeAllAmp()
    ensures EscapeAll("&") == "&amp;"
  {
    ReplaceCharSingle('&', '&', "&amp;");
    EscapeAmpStays();
  }

  lemma EscapeAllLt()
    ensures EscapeAll("<") == "&lt;"
  {
    ReplaceCharSingle('<', '&', "&amp;");
    ReplaceCharSingle('<', '<', "&lt;");
    EscapeLtStays();
  }

  lemma EscapeAllGt()
    ensures EscapeAll(">") == "&gt;"
  {
    ReplaceCharSingle('>', '&', "&amp;");
    ReplaceCharSingle('>', '<', "&lt;");
    ReplaceCharSingle('>', '>', "&gt;");
  }

  /** The later replacements leave an entity alone. */
  lemma EscapeAmpStays()
    ensures ReplaceChar(ReplaceChar("&amp;", '<', "&lt;"), '>', "&gt;") == "&amp;"
  {
    AmpKeepsLt();
    AmpKeepsGt();
  }

  lemma AmpKeepsLt()
    ensures ReplaceChar("&amp;", '<', "&lt;") == "&amp;"
  {
    ReplaceCharAbsent("&amp;", '<', "&lt;");
  }

  lemma AmpKeepsGt()
    ensures ReplaceChar("&amp;", '>', "&gt;") == "&amp;"
  {
    ReplaceCharAbsent("&amp;", '>', "&gt;");
  }

  lemma EscapeLtStays()
    ensures ReplaceChar("&lt;", '>', "&gt;") == "&lt;"
  {
    ReplaceCharAbsent("&lt;", '>', "&gt;");
  }

  lemma EscapeAllAppend(a: string, b: string)
    ensures EscapeAll(a + b) == EscapeAll(a) + EscapeAll(b)
  {
    ReplaceCharAppend(a, b, '&', "&amp;");
    var a1, b1 := ReplaceChar(a, '&', "&amp;"), ReplaceChar(b, '&', "&amp;");
    ReplaceCharAppend(a1, b1, '<', "&lt;");
    var a2, b2 := ReplaceChar(a1, '<', "&lt;"), ReplaceChar(b1, '<', "&lt;");
    ReplaceCharAppend(a2, b2, '>', "&gt;");
  }

  /** Because `&` is replaced first, the entities that the `<` and `>` replacements insert are
      not escaped a second time: the chain escapes each character exactly once. */
  lemma {:induction false} EscapeInOrder(text: string)
    ensures EscapeAll(text) == Escape(text)
    decreases |text|
  {
    if text != [] {
      assert text == [text[0]] + text[1..];
      EscapeAllAppend([text[0]], text[1..]);
      EscapeAllChar(text[0]);
      EscapeInOrder(text[1..]);
    }
  }

  /** Reads `&amp;`, `&lt;` and `&gt;` back as the characters they stand for. */
  function Unescape(t: string): string
    decreases |t|
  {
    if t == [] then []
    else if StartsWith(t, "&amp;") then "&" + Unescape(t[5..])
    else if StartsWith(t, "&lt;") then "<" + Unescape(t[4..])
    else if StartsWith(t, "&gt;") then ">" + Unescape(t[4..])
    else [t[0]] + Unescape(t[1..])
  }

  /** Escaping loses nothing: the browser's reading of the entities gives the text back. */
  lemma {:induction false} EscapeRoundTrip(s: string)
    ensures Unescape(Escape(s)) == s
    decreases |s|
  {
    if s != [] {
      var rest := Escape(s[1..]);
      assert Escape(s) == EscapeChar(s[0]) + rest;
      UnescapeFront(s[0], rest);
      EscapeRoundTrip(s[1..]);
      assert s == [s[0]] + s[1..];
    }
  }

  /** An escaped character in front reads back as that character. */
  lemma UnescapeFront(c: char, rest: string)
    ensures Unescape(EscapeChar(c) + rest) == [c] + Unescape(rest)
  {
    if c == '&' {
      UnescapeAmp(rest);
    } else if c == '<' {
      UnescapeLt(rest);
    } else if c == '>' {
      UnescapeGt(rest);
    } else {
      var t := [c] + rest;
      assert t[0] == c && t[1..] == rest;
    }
  }

  lemma UnescapeAmp(rest: string)
    ensures Unescape("&amp;" + rest) == "&" + Unescape(rest)
  {
    var t := "&amp;" + rest;
    assert t[..5] == "&amp;" && t[5..] == rest;
  }

  lemma UnescapeLt(rest: string)
    ensures Unescape("&lt;" + rest) == "<" + Unescape(rest)
  {
    var t := "&lt;" + rest;
    assert t[1] == 'l';
    assert !StartsWith(t, "&amp;") by {
      if |t| >= 5 { assert t[..5][1] == t[1]; }
    }
    assert t[..4] == "&lt;" && t[4..] == rest;
  }

  lemma UnescapeGt(rest: string)
    ensures Unescape("&gt;" + rest) == ">" + Unescape(rest)
  {
    var t := "&gt;" + rest;
    assert t[1] == 'g';
    assert !StartsWith(t, "&amp;") by {
      if |t| >= 5 { assert t[..5][1] == t[1]; }
    }
    assert !StartsWith(t, "&lt;") by { assert t[..4][1] == t[1]; }
    assert t[..4] == "&gt;" && t[4..] == rest;
  }

  /** Escaped text holds no `<` and no `>`. */
  lemma {:induction false} EscapeNoAngles(s: string)
    ensures '<' !in Escape(s) && '>' !in Escape(s)
    decreases |s|
  {
    if s != [] {
      EscapeNoAngles(s[1..]);
      var e := EscapeChar(s[0]);
      assert '<' !in e && '>' !in e;
    }
  }

  // ---------------------------------------------------------------- links

  /** Length of the longest prefix of `s` without whitespace: the `[^\s]+` part of the URL
      pattern. */
  function SpaceFreeRun(s: string): (n: nat)
    ensures n <= |s| && NoJsSpace(s[..n]) && (n < |s| ==> IsJsSpace(s[n]))
    decreases |s|
  {
    if s == [] || IsJsSpace(s[0]) then 0
    else
      var k := SpaceFreeRun(s[1..]);
      assert s[..k + 1] == [s[0]] + s[1..][..k];
      k + 1
  }

  /** Length of the match of `/https?:\/\/[^\s]+/` at the start of `s`, or 0 when none starts
      there. The `s?` makes `https://` the longer of the two schemes tried. */
  function UrlLength(s: string): nat {
    var p := if StartsWith(s, "https://") then 8 else if StartsWith(s, "http://") then 7 else 0;
    if p == 0 then 0
    else
      var k := SpaceFreeRun(s[p..]);
      if k == 0 then 0 else p + k
  }

  /** The escaped text cut into the URL matches and the characters between them. */
  datatype Piece = Text(c: char) | Url(u: string)

  function Pieces(e: string): seq<Piece>
    decreases |e|
  {
    if e == [] then []
    else
      var n := UrlLength(e);
      if 0 < n <= |e| then [Url(e[..n])] + Pieces(e[n..]) else [Text(e[0])] + Pieces(e[1..])
  }

  function PieceText(p: Piece): string {
    match p
    case Text(c) => [c]
    case Url(u) => u
  }

  /** The text the pieces came from. */
  function Flatten(ps: seq<Piece>): string
    decreases |ps|
  {
    if ps == [] then [] else PieceText(ps[0]) + Flatten(ps[1..])
  }

  /** `'<a href="$1" …>$1</a>'` for each URL match; other characters unchanged. */
  function Render(ps: seq<Piece>): string
    decreases |ps|
  {
    if ps == [] then [] else RenderPiece(ps[0]) + Render(ps[1..])
  }

  function RenderPiece(p: Piece): string {
    match p
    case Text(c) => [c]
    case Url(u) => Anchor(u, u)
  }

  /** `processLinks(text)`. */
  function ProcessLinks(text: string): string {
    Render(Pieces(EscapeAll(text)))
  }

  /** The matches of a global regex replacement, leftmost first: a character is left as text
      exactly when no match starts there, and a match is as long as the pattern allows. */
  predicate LeftmostLongest(ps: seq<Piece>) {
    forall k | 0 <= k < |ps| ::
      match ps[k]
      case Text(_) => UrlLength(Flatten(ps[k..])) == 0
      case Url(u) => UrlLength(Flatten(ps[k..])) == |u| > 0
  }

  lemma {:induction false} FlattenCons(ps: seq<Piece>)
    requires ps != []
    ensures Flatten(ps) == PieceText(ps[0]) + Flatten(ps[1..])
  {
  }

  lemma UrlLengthBound(s: string)
    ensures UrlLength(s) <= |s|
  {
    if StartsWith(s, "https://") || StartsWith(s, "http://") {
    }
  }

  /** A piece whose own match condition holds, in front of leftmost-longest pieces, keeps the
      property. */
  lemma LeftmostLongestCons(p: Piece, rest: seq<Piece>)
    requires LeftmostLongest(rest)
    requires match p
             case Text(_) => UrlLength(PieceText(p) + Flatten(rest)) == 0
             case Url(u) => UrlLength(PieceText(p) + Flatten(rest)) == |u| > 0
    ensures LeftmostLongest([p] + rest)
  {
    var ps := [p] + rest;
    assert ps[1..] == rest;
    forall k | 0 <= k < |ps|
      ensures match ps[k]
              case Text(_) => UrlLength(Flatten(ps[k..])) == 0
              case Url(u) => UrlLength(Flatten(ps[k..])) == |u| > 0
    {
      if k > 0 {
        assert ps[k..] == rest[k - 1..];
        assert ps[k] == rest[k - 1];
      } else {
        assert ps[0..] == ps;
      }
    }
  }

  /** One step of `Pieces`: the match or character in front, then the pieces of the rest. */
  lemma PiecesStep(e: string)
    requires e != []
    ensures var n := UrlLength(e);
            if n > 0 then n <= |e| && Pieces(e) == [Url(e[..n])] + Pieces(e[n..])
            else Pieces(e) == [Text(e[0])] + Pieces(e[1..])
  {
    var n := UrlLength(e);
    UrlLengthBound(e);
    assert 0 < n ==> 0 < n <= |e|;
  }

  /** Flattening a piece in front of others. */
  lemma FlattenFront(p: Piece, rest: seq<Piece>)
    ensures Flatten([p] + rest) == PieceText(p) + Flatten(rest)
  {
    assert ([p] + rest)[1..] == rest;
  }

  /** The pieces give back the escaped text and mark exactly the leftmost-longest matches. */
  lemma {:induction false} PiecesSound(e: string)
    ensures Flatten(Pieces(e)) == e
    ensures LeftmostLongest(Pieces(e))
    decreases |e|
  {
    if e != [] {
      PiecesStep(e);
      var n := UrlLength(e);
      if n > 0 {
        PiecesSound(e[n..]);
        assert e[..n] + e[n..] == e;
        SoundCons(Url(e[..n]), Pieces(e[n..]), e, e[n..]);
      } else {
        PiecesSound(e[1..]);
        assert [e[0]] + e[1..] == e;
        SoundCons(Text(e[0]), Pieces(e[1..]), e, e[1..]);
      }
    }
  }

  /** A piece that matches where the text starts, in front of sound pieces of the rest. */
  lemma SoundCons(p: Piece, rest: seq<Piece>, e: string, tail: string)
    requires Flatten(rest) == tail && LeftmostLongest(rest) && PieceText(p) + tail == e
    requires match p
             case Text(_) => UrlLength(e) == 0
             case Url(u) => UrlLength(e) == |u| > 0
    ensures Flatten([p] + rest) == e && LeftmostLongest([p] + rest)
  {
    FlattenFront(p, rest);
    LeftmostLongestCons(p, rest);
  }

  /** And they are the only such cutting: any pieces that flatten to the text and mark
      leftmost-longest matches are these. */
  lemma {:induction false} PiecesUnique(ps: seq<Piece>, e: string)
    requires Flatten(ps) == e && LeftmostLongest(ps)
    ensures ps == Pieces(e)
    decreases |ps|
  {
    if ps != [] {
      assert ps[0..] == ps;
      var t := PieceText(ps[0]);
      var rest := ps[1..];
      assert LeftmostLongest(rest) by {
        forall k | 0 <= k < |rest|
          ensures match rest[k]
                  case Text(_) => UrlLength(Flatten(rest[k..])) == 0
                  case Url(u) => UrlLength(Flatten(rest[k..])) == |u| > 0
        {
          assert rest[k..] == ps[k + 1..];
          assert rest[k] == ps[k + 1];
        }
      }
      assert e == t + Flatten(rest);
      PiecesUnique(rest, Flatten(rest));
      UrlLengthBound(e);
      match ps[0]
      case Text(c) => {
        assert e[0] == c && e[1..] == Flatten(rest);
      }
      case Url(u) => {
        assert e[..|u|] == u && e[|u|..] == Flatten(rest);
      }
    } else {
      assert e == [];
    }
  }

  /** A URL match starts with its scheme, holds no whitespace and is followed by whitespace
      or the end of the text. */
  lemma UrlShape(s: string)
    requires UrlLength(s) > 0
    ensures var n := UrlLength(s);
            n <= |s| && (StartsWith(s[..n], "http://") || StartsWith(s[..n], "https://")) &&
            NoJsSpace(s[..n]) && (n < |s| ==> IsJsSpace(s[n]))
  {
    var p := if StartsWith(s, "https://") then 8 else 7;
    var k := SpaceFreeRun(s[p..]);
    assert s[..p + k] == s[..p] + s[p..][..k];
    assert NoJsSpace(s[..p]) by {
      if p == 8 {
        assert s[..p] == "https://";
      } else {
        assert s[..p] == "http://";
      }
    }
    var w := s[..p + k];
    forall i | 0 <= i < |w| ensures !IsJsSpace(w[i]) {
      if i >= p {
        assert w[i] == s[p..][..k][i - p];
      } else {
        assert w[i] == s[..p][i];
      }
    }
  }

  // ---------------------------------------------------------------- angles

  function Links(ps: seq<Piece>): nat
    decreases |ps|
  {
    if ps == [] then 0 else (if ps[0].Url? then 1 else 0) + Links(ps[1..])
  }

  /** Rendering text without angle brackets, every `<` and `>` of the result belongs to an
      inserted anchor: two of each per URL match. */
  lemma {:induction false} RenderAngles(ps: seq<Piece>)
    requires '<' !in Flatten(ps) && '>' !in Flatten(ps)
    ensures Count(Render(ps), '<') == 2 * Links(ps) && Count(Render(ps), '>') == 2 * Links(ps)
    decreases |ps|
  {
    if ps != [] {
      RenderFront(ps);
      RenderAngles(ps[1..]);
    }
  }

  /** The counts of the first piece's rendering and of the rest's add up. */
  lemma RenderFront(ps: seq<Piece>)
    requires ps != [] && '<' !in Flatten(ps) && '>' !in Flatten(ps)
    ensures '<' !in Flatten(ps[1..]) && '>' !in Flatten(ps[1..])
    ensures Links(ps) == (if ps[0].Url? then 1 else 0) + Links(ps[1..])
    ensures Count(Render(ps), '<') == (if ps[0].Url? then 2 else 0) + Count(Render(ps[1..]), '<')
    ensures Count(Render(ps), '>') == (if ps[0].Url? then 2 else 0) + Count(Render(ps[1..]), '>')
  {
    assert Flatten(ps) == PieceText(ps[0]) + Flatten(ps[1..]);
    PieceAngles(ps[0]);
    assert Render(ps) == RenderPiece(ps[0]) + Render(ps[1..]);
    AnglesAppend(RenderPiece(ps[0]), Render(ps[1..]));
  }

  lemma PieceAngles(p: Piece)
    requires '<' !in PieceText(p) && '>' !in PieceText(p)
    ensures var n := if p.Url? then 2 else 0;
            Count(RenderPiece(p), '<') == n && Count(RenderPiece(p), '>') == n
  {
    match p
    case Url(u) => AnchorAngles(u);
    case Text(c) => AngleFree([c]);
  }

  /** `processLinks` is the rendering of the leftmost-longest URL matches of the escaped text;
      the text those pieces hold reads back as the input, and the only `<` and `>` in the result
      are the two of each inserted anchor. */
  lemma ProcessLinksShape(text: string)
    ensures var ps := Pieces(Escape(text));
            ProcessLinks(text) == Render(ps) && LeftmostLongest(ps) &&
            Unescape(Flatten(ps)) == text &&
            Count(ProcessLinks(text), '<') == 2 * Links(ps) &&
            Count(ProcessLinks(text), '>') == 2 * Links(ps)
  {
    EscapeInOrder(text);
    var ps := Pieces(Escape(text));
    PiecesSound(Escape(text));
    EscapeRoundTrip(text);
    EscapeNoAngles(text);
    RenderAngles(ps);
  }

  /** Text without a URL scheme is only escaped. */
  lemma {:induction false} NoUrlOnlyEscaped(e: string)
    requires forall i | 0 <= i < |e| :: UrlLength(e[i..]) == 0
    ensures Render(Pieces(e)) == e
    decreases |e|
  {
    if e != [] {
      assert e[0..] == e;
      forall i | 0 <= i < |e[1..]| ensures UrlLength(e[1..][i..]) == 0 {
        assert e[1..][i..] == e[i + 1..];
      }
      NoUrlOnlyEscaped(e[1..]);
    }
  }

  // ---------------------------------------------------------------- markdown links

  /** Length of the longest prefix of `s` without `c`. */
  function Upto(s: string, c: char): (n: nat)
    ensures n <= |s| && c !in s[..n] && (n < |s| ==> s[n] == c)
    decreases |s|
  {
    if s == [] || s[0] == c then 0
    else
      var k := Upto(s[1..], c);
      assert s[..k + 1] == [s[0]] + s[1..][..k];
      k + 1
  }

  /** A match of `/\[([^\]]+)\]\(([^)]+)\)/` at the start of `s`: its caption, its URL and its
      length. The negated classes leave no choice, so the caption runs to the first `]` and the
      URL to the first `)`. */
  datatype MarkdownLink = MarkdownLink(caption: string, url: string, length: nat)

  function MarkdownAt(s: string): (r: Option<MarkdownLink>)
    ensures r.Some? ==>
              var m := r.value;
              m.length <= |s| && s[..m.length] == "[" + m.caption + "](" + m.url + ")" &&
              m.caption != [] && ']' !in m.caption && m.url != [] && ')' !in m.url
  {
    if s == [] || s[0] != '[' then None
    else
      var l := Upto(s[1..], ']');
      if l == 0 || 2 + l >= |s| || s[2 + l] != '(' then None
      else
        var rest := s[3 + l..];
        var u := Upto(rest, ')');
        if u == 0 || u >= |rest| then None
        else
          var m := MarkdownLink(s[1..1 + l], rest[..u], 4 + l + u);
          assert s[..m.length] == "[" + m.caption + "](" + m.url + ")" by {
            assert s[1..][..l] == s[1..1 + l];
            assert s[1 + l] == ']';
            assert rest[u] == ')';
            assert s[..m.length] == [s[0]] + s[1..1 + l] + [s[1 + l], s[2 + l]] + rest[..u] + [rest[u]];
          }
          Some(m)
  }

  /** `MarkdownAt` once both scans have stopped where a match needs them to. */
  lemma MarkdownAtParts(s: string, l: nat, u: nat)
    requires s != [] && s[0] == '[' && Upto(s[1..], ']') == l && 0 < l && 2 + l < |s| && s[2 + l] == '('
    requires Upto(s[3 + l..], ')') == u && 0 < u < |s[3 + l..]|
    ensures MarkdownAt(s) == Some(MarkdownLink(s[1..1 + l], s[3 + l..][..u], 4 + l + u))
  {
  }

  /** The match is found whenever the text starts with a well-formed markdown link. */
  lemma MarkdownAtComplete(caption: string, url: string, tail: string)
    requires caption != [] && ']' !in caption && url != [] && ')' !in url
    ensures MarkdownAt("[" + caption + "](" + url + ")" + tail) ==
            Some(MarkdownLink(caption, url, |caption| + |url| + 4))
  {
    var s := "[" + caption + "](" + url + ")" + tail;
    var l := |caption|;
    var after := "](" + url + ")" + tail;
    assert s[1..] == caption + after;
    UptoStops(caption, ']', after);
    assert s[0] == '[' && s[2 + l] == '(' && 2 + l < |s|;
    var rest := s[3 + l..];
    assert rest == url + (")" + tail);
    UptoStops(url, ')', ")" + tail);
    assert s[1..1 + l] == caption;
    assert rest[..|url|] == url;
    MarkdownAtParts(s, l, |url|);
  }

  lemma {:induction false} UptoStops(a: string, c: char, b: string)
    requires c !in a && b != [] && b[0] == c
    ensures Upto(a + b, c) == |a|
    decreases |a|
  {
    if a == [] {
      assert a + b == b;
    } else {
      assert (a + b)[1..] == a[1..] + b;
      UptoStops(a[1..], c, b);
    }
  }

  /** `reply.replace(/\[([^\]]+)\]\(([^)]+)\)/g, '<a href="$2" …>$1</a>')`. */
  function MarkdownLinks(s: string): string
    decreases |s|
  {
    if s == [] then []
    else
      match MarkdownAt(s)
      case Some(m) => Anchor(m.url, m.caption) + MarkdownLinks(s[m.length..])
      case None => [s[0]] + MarkdownLinks(s[1..])
  }

  /** Text without `[` is left alone. */
  lemma {:induction false} MarkdownLinksNoBracket(s: string)
    requires '[' !in s
    ensures MarkdownLinks(s) == s
    decreases |s|
  {
    if s != [] {
      assert s == [s[0]] + s[1..];
      MarkdownLinksNoBracket(s[1..]);
    }
  }

  /** A markdown link becomes one anchor, and the text after it is converted in turn. */
  lemma MarkdownLinkBecomesAnchor(caption: string, url: string, tail: string)
    requires caption != [] && ']' !in caption && url != [] && ')' !in url
    ensures MarkdownLinks("[" + caption + "](" + url + ")" + tail) == Anchor(url, caption) + MarkdownLinks(tail)
  {
    var s := "[" + caption + "](" + url + ")" + tail;
    MarkdownAtComplete(caption, url, tail);
    var m := MarkdownLink(caption, url, |caption| + |url| + 4);
    assert s != [] && MarkdownAt(s) == Some(m);
    assert MarkdownLinks(s) == Anchor(m.url, m.caption) + MarkdownLinks(s[m.length..]);
    assert s[m.length..] == tail;
  }
}
