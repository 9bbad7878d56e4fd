/** The browser's cookie jar as the fingerprint store sees it through `document.cookie`
    (assets/js/wland_fingerprint.js:171-180, 407-416, 504-507).

    Reading `document.cookie` yields the `name=value` pairs of the jar joined by "; ", the
    Cookie header syntax of section 4.2.1 of RFC 6265. Assigning `name=value; attributes` to it
    stores or replaces the cookie `name`; an `expires` date in the past deletes it (section 4.1
    of RFC 6265). The attributes themselves (Expires, Path, SameSite, Secure) are not modelled. */
module CookieJar {
  import opened Text

  datatype Cookie = Cookie(name: string, value: string)

  /** A cookie name the browser keeps intact in the header: non-empty, free of whitespace and of
      the `;` and `=` delimiters. */
  predicate GoodName(n: string) {
    n != [] && NoJsSpace(n) && ';' !in n && '=' !in n
  }

  /** The jar as browsers build it: good names, values without `;`. */
  predicate WellFormed(jar: seq<Cookie>) {
    forall i :: 0 <= i < |jar| ==> GoodName(jar[i].name) && ';' !in jar[i].value
  }

  /** A value that `get_session_from_cookie` reads back unchanged: no delimiter, no whitespace. */
  predicate CleanValue(v: string) {
    NoJsSpace(v) && ';' !in v && '=' !in v
  }

  function Pair(c: Cookie): string {
    c.name + "=" + c.value
  }

  function Pairs(jar: seq<Cookie>): (ps: seq<string>)
    ensures |ps| == |jar|
    ensures forall i :: 0 <= i < |jar| ==> ps[i] == Pair(jar[i])
  {
    if jar == [] then [] else [Pair(jar[0])] + Pairs(jar[1..])
  }

  /** The text of `document.cookie`. */
  function Header(jar: seq<Cookie>): string {
    Join(Pairs(jar), "; ")
  }

  /** `document.cookie = name + '=' + value + '; …'`: the first cookie of that name takes the new
      value in place; a new name is appended. */
  function Put(jar: seq<Cookie>, name: string, value: string): (r: seq<Cookie>)
    ensures |r| == |jar| || |r| == |jar| + 1
  {
    if jar == [] then [Cookie(name, value)]
    else if jar[0].name == name then [Cookie(name, value)] + jar[1..]
    else [jar[0]] + Put(jar[1..], name, value)
  }

  /** Assigning the cookie with an expiry date in the past: every cookie of that name goes. */
  function Remove(jar: seq<Cookie>, name: string): (r: seq<Cookie>)
    ensures forall i :: 0 <= i < |r| ==> r[i].name != name
    ensures forall i :: 0 <= i < |r| ==> r[i] in jar
  {
    if jar == [] then []
    else if jar[0].name == name then Remove(jar[1..], name)
    else [jar[0]] + Remove(jar[1..], name)
  }

  lemma {:induction false} PutWellFormed(jar: seq<Cookie>, name: string, value: string)
    requires WellFormed(jar) && GoodName(name) && ';' !in value
    ensures WellFormed(Put(jar, name, value))
  {
    if jar != [] && jar[0].name != name {
      PutWellFormed(jar[1..], name, value);
    }
  }

  lemma RemoveWellFormed(jar: seq<Cookie>, name: string)
    requires WellFormed(jar)
    ensures WellFormed(Remove(jar, name))
  {
  }

  // ---------------------------------------------------------------- the JavaScript reader

  /** What `const [name, value] = cookie.trim().split('=')` leaves in `value` when the name
      matched: no `=` at all leaves it `undefined`, otherwise the text up to the second `=`. */
  datatype CookieRead = NotFound | NoValue | Value(v: string) {
    /** The result is a truthy JavaScript value: a non-empty string. */
    predicate Truthy() {
      Value? && v != ""
    }
  }

  function PairName(pair: string): string {
    Split(JsTrim(pair), '=')[0]
  }

  function PairValue(pair: string): CookieRead {
    var parts := Split(JsTrim(pair), '=');
    if |parts| >= 2 then Value(parts[1]) else NoValue
  }

  /** `get_session_from_cookie` over the `;`-separated pieces: the first whose trimmed name is
      `name` decides. */
  function ReadPairs(pairs: seq<string>, name: string): CookieRead {
    if pairs == [] then NotFound
    else if PairName(pairs[0]) == name then PairValue(pairs[0])
    else ReadPairs(pairs[1..], name)
  }

  function ReadCookie(doc: string, name: string): CookieRead {
    ReadPairs(Split(doc, ';'), name)
  }

  /** The reader finds a value exactly for the first piece with a matching name, and nothing
      when no piece matches; it never looks at the shape of the value. */
  lemma {:induction false} ReadPairsFirst(pairs: seq<string>, name: string)
    ensures ReadPairs(pairs, name) == NotFound <==>
              forall i :: 0 <= i < |pairs| ==> PairName(pairs[i]) != name
    ensures forall i :: 0 <= i < |pairs| && PairName(pairs[i]) == name &&
                        (forall j :: 0 <= j < i ==> PairName(pairs[j]) != name) ==>
                          ReadPairs(pairs, name) == PairValue(pairs[i])
  {
    if pairs != [] {
      ReadPairsFirst(pairs[1..], name);
      assert forall i :: 1 <= i < |pairs| ==> pairs[i] == pairs[1..][i - 1];
      forall i | 0 <= i < |pairs| && PairName(pairs[i]) == name &&
                 (forall j :: 0 <= j < i ==> PairName(pairs[j]) != name)
        ensures ReadPairs(pairs, name) == PairValue(pairs[i])
      {
        if i > 0 {
          assert PairName(pairs[0]) != name;
          assert forall j :: 0 <= j < i - 1 ==> PairName(pairs[1..][j]) != name by {
            forall j | 0 <= j < i - 1 ensures PairName(pairs[1..][j]) != name {
              assert pairs[1..][j] == pairs[j + 1];
            }
          }
        }
      }
    }
  }

  /** `get_session_from_cookie`: split `document.cookie` on `;` and scan the pieces in order,
      returning at the first match. */
  method GetCookie(doc: string, name: string) returns (r: CookieRead)
    ensures r == ReadCookie(doc, name)
  {
    var cookies := Split(doc, ';');
    var i := 0;
    while i < |cookies|
      invariant 0 <= i <= |cookies|
      invariant ReadPairs(cookies, name) == ReadPairs(cookies[i..], name)
    {
      var piece := cookies[i];
      assert cookies[i..] == [piece] + cookies[i + 1..];
      if PairName(piece) == name {
        return PairValue(piece);
      }
      i := i + 1;
    }
    return NotFound;
  }

  // ---------------------------------------------------------------- reading the jar back

  /** The value the reader takes from the first cookie called `name`. */
  function ReadJar(jar: seq<Cookie>, name: string): CookieRead {
    if jar == [] then NotFound
    else if jar[0].name == name then PairValue(Pair(jar[0]))
    else ReadJar(jar[1..], name)
  }

  /** The header pieces after splitting on `;`: every pair but the first keeps the space of
      the "; " separator in front. */
  function Spaced(ps: seq<string>): (r: seq<string>)
    ensures |r| == |ps|
  {
    if ps == [] then [] else [ps[0]] + seq(|ps| - 1, i requires 0 <= i < |ps| - 1 => " " + ps[i + 1])
  }

  lemma {:induction false} JoinSpaced(ps: seq<string>)
    requires ps != []
    ensures Join(ps, "; ") == Join(Spaced(ps), ";")
    decreases |ps|
  {
    if |ps| > 1 {
      var q := ps[1..];
      JoinSpaced(q);
      SpacedTail(ps);
      JoinLeadingSpace(Spaced(q));
      var x := Join(Spaced(q), ";");
      var sp := Spaced(ps);
      JoinFront(ps, "; ");
      JoinFront(sp, ";");
      assert ps[0] + "; " + x == ps[0] + ";" + (" " + x);
    }
  }

  lemma JoinFront(parts: seq<string>, sep: string)
    requires |parts| > 1
    ensures Join(parts, sep) == parts[0] + sep + Join(parts[1..], sep)
  {
  }

  /** Past its first pair, the spaced list is the spaced rest with a space added in front. */
  lemma SpacedTail(ps: seq<string>)
    requires |ps| > 1
    ensures Spaced(ps)[0] == ps[0] && Spaced(ps)[1..] == LeadSpace(Spaced(ps[1..]))
  {
    var q := ps[1..];
    var l := LeadSpace(Spaced(q));
    forall i | 0 <= i < |ps| - 1 ensures Spaced(ps)[1..][i] == l[i] {
      if i > 0 {
        assert l[i] == Spaced(q)[i] == " " + q[i];
      }
    }
  }

  function LeadSpace(ps: seq<string>): seq<string>
    requires ps != []
  {
    [" " + ps[0]] + ps[1..]
  }

  lemma JoinLeadingSpace(ps: seq<string>)
    requires ps != []
    ensures Join(LeadSpace(ps), ";") == " " + Join(ps, ";")
  {
    if |ps| > 1 {
      assert LeadSpace(ps)[1..] == ps[1..];
    }
  }

  /** A well-formed pair, with or without the leading space, is named by its cookie and read as
      the text of its value up to the next `=`. */
  lemma PairParts(c: Cookie)
    requires GoodName(c.name) && ';' !in c.value
    ensures PairName(Pair(c)) == c.name && PairName(" " + Pair(c)) == c.name
    ensures PairValue(" " + Pair(c)) == PairValue(Pair(c))
    ensures CleanValue(c.value) ==> PairValue(Pair(c)) == Value(c.value)
  {
    TrimLeadingSpace(Pair(c));
    var head := c.name + "=";
    assert Pair(c) == head + c.value;
    assert TrimStart(Pair(c)) == Pair(c);
    TrimEndKeeps(head, c.value);
    assert JsTrim(Pair(c)) == c.name + [ '=' ] + TrimEnd(c.value);
    SplitAtSeparator(c.name, TrimEnd(c.value), '=');
    if CleanValue(c.value) {
      TrimNoSpace(c.value);
      assert TrimEnd(c.value) == c.value by {
        if c.value != [] {
          assert !IsJsSpace(c.value[|c.value| - 1]);
        }
      }
      SplitNoSeparator(c.value, '=');
    }
  }

  lemma {:induction false} ReadSpaced(jar: seq<Cookie>, name: string)
    requires WellFormed(jar) && jar != []
    ensures ReadPairs(Spaced(Pairs(jar)), name) == ReadJar(jar, name)
  {
    PairParts(jar[0]);
    var ps := Pairs(jar);
    assert Spaced(ps)[0] == Pair(jar[0]);
    if jar[0].name != name {
      ReadTail(jar[1..], name);
      assert Spaced(ps)[1..] == seq(|jar| - 1, i requires 0 <= i < |jar| - 1 => " " + Pair(jar[1..][i]));
    }
  }

  lemma {:induction false} ReadTail(jar: seq<Cookie>, name: string)
    requires WellFormed(jar)
    ensures ReadPairs(seq(|jar|, i requires 0 <= i < |jar| => " " + Pair(jar[i])), name) == ReadJar(jar, name)
  {
    var s := seq(|jar|, i requires 0 <= i < |jar| => " " + Pair(jar[i]));
    if jar != [] {
      PairParts(jar[0]);
      assert s[0] == " " + Pair(jar[0]);
      if jar[0].name != name {
        ReadTail(jar[1..], name);
        assert s[1..] == seq(|jar| - 1, i requires 0 <= i < |jar| - 1 => " " + Pair(jar[1..][i]));
      }
    }
  }

  /** Reading `document.cookie` is reading the jar. */
  lemma ReadHeader(jar: seq<Cookie>, name: string)
    requires WellFormed(jar) && GoodName(name)
    ensures ReadCookie(Header(jar), name) == ReadJar(jar, name)
  {
    if jar == [] {
      assert Header(jar) == "";
      assert Split("", ';') == [""];
      assert JsTrim("") == "";
      assert PairName("") == "";
      assert [""][1..] == [];
      assert ReadPairs([""], name) == NotFound;
    } else {
      var ps := Pairs(jar);
      JoinSpaced(ps);
      forall i | 0 <= i < |ps| ensures ';' !in Spaced(ps)[i] {
        if i > 0 {
          assert Spaced(ps)[i] == " " + Pair(jar[i]);
        }
      }
      SplitJoin(Spaced(ps), ';');
      ReadSpaced(jar, name);
    }
  }

  /** Writing a cookie and reading it back through `document.cookie` gives the value written,
      whatever else the jar holds. */
  lemma {:induction false} PutThenRead(jar: seq<Cookie>, name: string, value: string)
    requires WellFormed(jar) && GoodName(name) && CleanValue(value)
    ensures ReadCookie(Header(Put(jar, name, value)), name) == Value(value)
  {
    PutWellFormed(jar, name, value);
    ReadHeader(Put(jar, name, value), name);
    PutReadJar(jar, name, value);
  }

  lemma {:induction false} PutReadJar(jar: seq<Cookie>, name: string, value: string)
    requires GoodName(name) && CleanValue(value)
    ensures ReadJar(Put(jar, name, value), name) == Value(value)
  {
    PairParts(Cookie(name, value));
    if jar != [] && jar[0].name != name {
      PutReadJar(jar[1..], name, value);
    }
  }

  /** Writing one cookie leaves what the reader finds under any other name unchanged. */
  lemma {:induction false} PutKeepsOthers(jar: seq<Cookie>, name: string, value: string, other: string)
    requires other != name
    ensures ReadJar(Put(jar, name, value), other) == ReadJar(jar, other)
  {
    if jar != [] && jar[0].name != name {
      PutKeepsOthers(jar[1..], name, value, other);
    }
  }

  /** After the expired assignment the reader finds nothing under that name. */
  lemma RemoveThenRead(jar: seq<Cookie>, name: string)
    requires WellFormed(jar) && GoodName(name)
    ensures ReadCookie(Header(Remove(jar, name)), name) == NotFound
  {
    RemoveWellFormed(jar, name);
    ReadHeader(Remove(jar, name), name);
    RemoveReadJar(jar, name);
  }

  lemma {:induction false} RemoveReadJar(jar: seq<Cookie>, name: string)
    ensures ReadJar(Remove(jar, name), name) == NotFound
  {
    if jar != [] {
      RemoveReadJar(jar[1..], name);
    }
  }
}
