/** `JSON.stringify` applied to a list of strings, which is how the validator
    writes group-name lists into its mismatch message, together with a reader
    that recovers the list from the text. */
module JsonText {
  import opened Wrappers
  import opened Strings

  const HexDigits: string := "0123456789abcdef"

  /** How `JSON.stringify` writes one character inside a string literal
      (QuoteJSONString in the ECMAScript 2019 specification): the quote and
      the backslash are escaped, the five control characters with a short
      escape use it, every other control character becomes `\u00xx` in
      lower-case hex, and everything else is copied. A Dafny `char` is a
      Unicode scalar value, so the lone-surrogate case cannot arise. */
  function Escape(c: char): string {
    var n := c as int;
    if c == '"' then ['\\', '"']
    else if c == '\\' then ['\\', '\\']
    else if n == 8 then ['\\', 'b']
    else if n == 9 then ['\\', 't']
    else if n == 10 then ['\\', 'n']
    else if n == 12 then ['\\', 'f']
    else if n == 13 then ['\\', 'r']
    else if n < 32 then ['\\', 'u', '0', '0', HexDigits[n / 16], HexDigits[n % 16]]
    else [c]
  }

  /** The characters between the quotes of a string literal. */
  function Body(s: string): string {
    if s == [] then [] else Escape(s[0]) + Body(s[1..])
  }

  /** `JSON.stringify(s)` for a string `s`. */
  function Quote(s: string): string {
    "\"" + Body(s) + "\""
  }

  /** The elements of a list, quoted and separated by commas. */
  function Items(xs: seq<string>): string {
    if xs == [] then ""
    else if |xs| == 1 then Quote(xs[0])
    else Quote(xs[0]) + "," + Items(xs[1..])
  }

  /** `JSON.stringify(xs)` for an array of strings: no spaces, no newlines. */
  function Stringify(xs: seq<string>): (r: string)
    ensures |r| >= 2 && r[0] == '[' && r[|r| - 1] == ']'
    ensures r == "[]" <==> xs == []
  {
    "[" + Items(xs) + "]"
  }

  // ---------------------------------------------------------------------
  // Reading the text back
  // ---------------------------------------------------------------------

  function HexValue(d: char): Option<nat> {
    if '0' <= d <= '9' then Some(d as int - '0' as int)
    else if 'a' <= d <= 'f' then Some(d as int - 'a' as int + 10)
    else if 'A' <= d <= 'F' then Some(d as int - 'A' as int + 10)
    else None
  }

  /** The number written by four hex digits. */
  function HexQuad(h: string): Option<nat>
    requires |h| == 4
  {
    match (HexValue(h[0]), HexValue(h[1]), HexValue(h[2]), HexValue(h[3]))
    case (Some(a), Some(b), Some(c), Some(d)) => Some(((a * 16 + b) * 16 + c) * 16 + d)
    case _ => None
  }

  /** The character a two-character escape `\e` stands for. */
  function ShortEscape(e: char): Option<char> {
    if e == '"' then Some('"')
    else if e == '\\' then Some('\\')
    else if e == '/' then Some('/')
    else if e == 'b' then Some(8 as char)
    else if e == 't' then Some(9 as char)
    else if e == 'n' then Some(10 as char)
    else if e == 'f' then Some(12 as char)
    else if e == 'r' then Some(13 as char)
    else None
  }

  function Prepend(c: char, r: Option<(string, string)>): (r': Option<(string, string)>)
    ensures r'.Some? <==> r.Some?
    ensures r.Some? ==> r'.value == ([c] + r.value.0, r.value.1)
  {
    match r
    case None => None
    case Some((b, rest)) => Some(([c] + b, rest))
  }

  /** Reads the inside of a string literal up to and including its closing
      quote, returning the decoded string and the text after the quote.
      Fails on a raw control character, an unknown escape, a `\u` escape
      naming a surrogate, or a missing closing quote. */
  function ReadBody(s: string): (r: Option<(string, string)>)
    ensures r.Some? ==> |r.value.1| < |s|
    decreases |s|
  {
    if s == [] then None
    else if s[0] == '"' then Some(([], s[1..]))
    else if s[0] == '\\' then
      if |s| < 2 then None
      else if ShortEscape(s[1]).Some? then Prepend(ShortEscape(s[1]).value, ReadBody(s[2..]))
      else if s[1] == 'u' && |s| >= 6 then
        match HexQuad(s[2..6])
        case None => None
        case Some(n) =>
          if n < 0xD800 || 0xE000 <= n then Prepend(n as char, ReadBody(s[6..])) else None
      else None
    else if (s[0] as int) < 32 then None
    else Prepend(s[0], ReadBody(s[1..]))
  }

  function PrependItem(x: string, r: Option<(seq<string>, string)>): (r': Option<(seq<string>, string)>)
    ensures r.Some? ==> r'.Some? && |r'.value.1| == |r.value.1|
  {
    match r
    case None => None
    case Some((xs, tail)) => Some(([x] + xs, tail))
  }

  /** Reads the items of a list after its opening bracket, up to and
      including the closing bracket; returns the items and the rest. */
  function ReadItems(s: string): (r: Option<(seq<string>, string)>)
    ensures r.Some? ==> |r.value.1| < |s|
    decreases |s|
  {
    if s == [] || s[0] != '"' then None
    else
      match ReadBody(s[1..])
      case None => None
      case Some((x, rest)) =>
        if rest != [] && rest[0] == ']' then Some(([x], rest[1..]))
        else if rest != [] && rest[0] == ',' then PrependItem(x, ReadItems(rest[1..]))
        else None
  }

  /** Reads a JSON array of strings written without white space from the
      front of `s`; returns the strings and the text after the array. */
  function ReadList(s: string): (r: Option<(seq<string>, string)>)
    ensures r.Some? ==> |r.value.1| < |s|
  {
    if |s| >= 2 && s[0] == '[' && s[1] == ']' then Some(([], s[2..]))
    else if s != [] && s[0] == '[' then ReadItems(s[1..])
    else None
  }

  // ---------------------------------------------------------------------
  // Round trip
  // ---------------------------------------------------------------------

  lemma HexDigitValue(k: nat)
    requires k < 16
    ensures HexValue(HexDigits[k]) == Some(k)
  {
  }

  /** Reading an escaped character yields the character back. */
  lemma ReadEscape(c: char, t: string)
    ensures ReadBody(Escape(c) + t) == Prepend(c, ReadBody(t))
  {
    var n := c as int;
    var s := Escape(c) + t;
    if c == '"' || c == '\\' || n == 8 || n == 9 || n == 10 || n == 12 || n == 13 {
      assert s[2..] == t;
    } else if n < 32 {
      HexDigitValue(n / 16);
      HexDigitValue(n % 16);
      assert s[2..6] == ['0', '0', HexDigits[n / 16], HexDigits[n % 16]];
      assert HexQuad(s[2..6]) == Some(n);
      assert (n as char) == c;
      assert s[6..] == t;
    } else {
      assert s[1..] == t;
    }
  }

  /** The body of a quoted string reads back as the string, leaving exactly
      the text after the closing quote. */
  lemma {:induction false} ReadQuoted(x: string, t: string)
    ensures ReadBody(Body(x) + "\"" + t) == Some((x, t))
    decreases |x|
  {
    if x == [] {
      assert Body(x) + "\"" + t == "\"" + t;
    } else {
      var t' := Body(x[1..]) + "\"" + t;
      assert Body(x) + "\"" + t == Escape(x[0]) + t';
      ReadEscape(x[0], t');
      ReadQuoted(x[1..], t);
      assert [x[0]] + x[1..] == x;
    }
  }

  /** One item of a list: a quoted string followed by `]` or `,`. */
  lemma ReadOneItem(x: string, rest: string)
    requires rest != [] && (rest[0] == ']' || rest[0] == ',')
    ensures rest[0] == ']' ==> ReadItems(Quote(x) + rest) == Some(([x], rest[1..]))
    ensures rest[0] == ',' ==> ReadItems(Quote(x) + rest) == PrependItem(x, ReadItems(rest[1..]))
  {
    var s := Quote(x) + rest;
    assert s[0] == '"';
    assert s[1..] == Body(x) + "\"" + rest;
    ReadQuoted(x, rest);
  }

  lemma ItemsUnfold(xs: seq<string>, t: string)
    requires |xs| > 1
    ensures Items(xs) + "]" + t == Quote(xs[0]) + ("," + (Items(xs[1..]) + "]" + t))
  {
    var q, r := Quote(xs[0]), Items(xs[1..]);
    assert Items(xs) == q + "," + r;
    Assoc(q + ",", r, "]");
    Assoc(q + ",", r + "]", t);
    Assoc(q, ",", r + "]" + t);
  }

  lemma {:induction false} ReadItemsOfStringify(xs: seq<string>, t: string)
    requires xs != []
    ensures ReadItems(Items(xs) + "]" + t) == Some((xs, t))
    decreases |xs|
  {
    if |xs| == 1 {
      assert Items(xs) == Quote(xs[0]);
      assert Items(xs) + "]" + t == Quote(xs[0]) + ("]" + t);
      ReadOneItem(xs[0], "]" + t);
      assert ("]" + t)[1..] == t;
      assert [xs[0]] == xs;
    } else {
      var more := Items(xs[1..]) + "]" + t;
      ItemsUnfold(xs, t);
      ReadOneItem(xs[0], "," + more);
      assert ("," + more)[1..] == more;
      ReadItemsOfStringify(xs[1..], t);
      assert [xs[0]] + xs[1..] == xs;
    }
  }

  /** `ReadList` inverts `Stringify`: the text of a string list, followed by
      anything, reads back as that list and leaves the rest untouched. */
  lemma StringifyRoundTrip(xs: seq<string>, t: string)
    ensures ReadList(Stringify(xs) + t) == Some((xs, t))
  {
    var s := Stringify(xs) + t;
    if xs == [] {
      assert s == "[]" + t;
      assert s[2..] == t;
    } else {
      assert Items(xs)[0] == '"';
      assert s[1..] == Items(xs) + "]" + t;
      ReadItemsOfStringify(xs, t);
    }
  }

  /** Different lists are written differently. */
  lemma StringifyInjective(xs: seq<string>, ys: seq<string>)
    ensures Stringify(xs) == Stringify(ys) ==> xs == ys
  {
    StringifyRoundTrip(xs, "");
    StringifyRoundTrip(ys, "");
    assert Stringify(xs) + "" == Stringify(xs);
    assert Stringify(ys) + "" == Stringify(ys);
  }
}
