/** How a value the browser interpolates into a URL after `name=` without encoding it
    (`/api/progress?email=${email}`) reads back on the server through
    `searchParams.get(name)`: the form decoding of the query string treats `&` as the
    start of the next pair, `#` as the start of the fragment, `+` as a space and `%`
    with two hex digits as an escaped character. */
module Query {
  import opened Common
  import Hex

  /** A `%` at position `i` followed by two hex digits: an escape the server decodes. */
  predicate EscapeAt(v: string, i: nat) {
    i + 2 < |v| && v[i] == '%' && Hex.IsHexDigit(v[i + 1]) && Hex.IsHexDigit(v[i + 2])
  }

  /** The part of the value that stays in its own pair: everything before the first
      `&` or `#`. */
  function Cut(v: string): (r: string)
    ensures |r| <= |v| && r == v[..|r|]
    ensures forall i :: 0 <= i < |r| ==> r[i] != '&' && r[i] != '#'
    ensures |r| < |v| ==> v[|r|] == '&' || v[|r|] == '#'
  {
    if |v| == 0 || v[0] == '&' || v[0] == '#' then []
    else [v[0]] + Cut(v[1..])
  }

  /** The character an escape `%hh` stands for. */
  function Escaped(hi: char, lo: char): (c: char)
    requires Hex.IsHexDigit(hi) && Hex.IsHexDigit(lo)
    ensures c as int == 16 * Hex.DigitValue(hi) + Hex.DigitValue(lo) < 256
  {
    (16 * Hex.DigitValue(hi) + Hex.DigitValue(lo)) as char
  }

  /** Form decoding of one value: `+` becomes a space, an escape becomes its
      character, everything else stays. Decoding never lengthens the text. */
  function Unescape(v: string): (r: string)
    ensures |r| <= |v|
  {
    if |v| == 0 then []
    else if v[0] == '+' then [' '] + Unescape(v[1..])
    else if EscapeAt(v, 0) then [Escaped(v[1], v[2])] + Unescape(v[3..])
    else [v[0]] + Unescape(v[1..])
  }

  /** What `searchParams.get(name)` returns for `?name=${v}`. */
  function QueryValue(v: string): (r: string)
    ensures |r| <= |v|
  {
    Unescape(Cut(v))
  }

  /** No character of `v` is changed or dropped on the way: no `&`, `#` or `+`, and
      no `%` that starts an escape. */
  predicate SurvivesQuery(v: string) {
    forall i :: 0 <= i < |v| ==> v[i] != '&' && v[i] != '#' && v[i] != '+' && !EscapeAt(v, i)
  }

  /** Decoding leaves a text alone exactly when it has no `+` and no escape. */
  lemma {:induction false} UnescapeIdentity(v: string)
    ensures Unescape(v) == v <==> forall i :: 0 <= i < |v| ==> v[i] != '+' && !EscapeAt(v, i)
  {
    if |v| == 0 {
    } else if v[0] == '+' {
      assert Unescape(v)[0] == ' ';
    } else if EscapeAt(v, 0) {
      assert |Unescape(v)| <= 1 + |v[3..]|;
    } else {
      var t := v[1..];
      UnescapeIdentity(t);
      assert v == [v[0]] + t;
      forall i | 0 <= i < |t|
        ensures EscapeAt(t, i) == EscapeAt(v, i + 1)
      {
      }
      if Unescape(v) == v {
        assert Unescape(t) == Unescape(v)[1..];
      }
    }
  }

  /** The server reads back exactly the value the client interpolated if and only if
      the value survives the query string. */
  lemma {:induction false} QueryValueIdentity(v: string)
    ensures QueryValue(v) == v <==> SurvivesQuery(v)
  {
    var c := Cut(v);
    if exists k :: 0 <= k < |v| && (v[k] == '&' || v[k] == '#') {
      var k :| 0 <= k < |v| && (v[k] == '&' || v[k] == '#');
      assert |QueryValue(v)| <= |c| <= k < |v|;
    } else {
      QueryCutWhole(v);
      UnescapeIdentity(v);
    }
  }

  /** The parameter a route reads with `searchParams.get` when the client sent
      `?name=${v}`: present, and equal to `v` exactly when `v` survives the query
      string. */
  function Param(v: string): (p: Option<string>)
    ensures p.Some?
    ensures p.value == v <==> SurvivesQuery(v)
  {
    QueryValueIdentity(v);
    Some(QueryValue(v))
  }

  /** An object id, or any other text of hex digits, reaches the server unchanged. */
  lemma HexSurvives(v: string)
    requires Hex.AllHex(v)
    ensures QueryValue(v) == v
  {
    QueryValueIdentity(v);
  }

  /** Text free of every character the query string treats specially. */
  predicate Plain(v: string) {
    forall i :: 0 <= i < |v| ==> v[i] != '&' && v[i] != '#' && v[i] != '+' && v[i] != '%'
  }

  /** An address with a `+` does not survive: the plus arrives as a space
      (`a+b@x.com` is read as `a b@x.com`). */
  lemma PlusBecomesSpace(before: string, after: string)
    requires Plain(before) && Plain(after)
    ensures QueryValue(before + "+" + after) == before + " " + after
  {
    var v := before + "+" + after;
    QueryCutWhole(v);
    UnescapeAppend(before, "+" + after);
    UnescapePlain(before);
    UnescapePlain(after);
    assert ("+" + after)[1..] == after;
    assert v == before + ("+" + after);
  }

  /** An address with an `&` or a `#` does not survive: everything from that
      character on is lost (`a&b@x.com` is read as `a`). */
  lemma SeparatorCutsShort(before: string, sep: char, after: string)
    requires Plain(before) && (sep == '&' || sep == '#')
    ensures QueryValue(before + [sep] + after) == before
  {
    CutAtSeparator(before, sep, after);
    UnescapePlain(before);
  }

  /** Decoding a text without `%` works piece by piece. */
  lemma {:induction false} UnescapeAppend(x: string, y: string)
    requires forall i :: 0 <= i < |x| ==> x[i] != '%'
    ensures Unescape(x + y) == Unescape(x) + Unescape(y)
  {
    if |x| > 0 {
      UnescapeAppend(x[1..], y);
      assert (x + y)[1..] == x[1..] + y;
    } else {
      assert x + y == y;
    }
  }

  /** The cut stops at the first separator. */
  lemma {:induction false} CutAtSeparator(before: string, sep: char, after: string)
    requires forall i :: 0 <= i < |before| ==> before[i] != '&' && before[i] != '#'
    requires sep == '&' || sep == '#'
    ensures Cut(before + [sep] + after) == before
  {
    if |before| > 0 {
      CutAtSeparator(before[1..], sep, after);
      assert (before + [sep] + after)[1..] == before[1..] + [sep] + after;
    }
  }

  /** A text without `&` and `#` is kept whole. */
  lemma {:induction false} QueryCutWhole(v: string)
    requires forall i :: 0 <= i < |v| ==> v[i] != '&' && v[i] != '#'
    ensures Cut(v) == v
  {
  }

  /** A text without `+` and `%` decodes to itself. */
  lemma UnescapePlain(v: string)
    requires forall i :: 0 <= i < |v| ==> v[i] != '+' && v[i] != '%'
    ensures Unescape(v) == v
  {
    UnescapeIdentity(v);
  }
}
