/** The few Ruby core-library string operations the shipments code relies on:
    `String#split` with a one-character literal separator, `String#strip`,
    `Array#join` and `Integer#to_s`. Strings are sequences of characters. */
module RubyString {

  // ---------------------------------------------------------------------------
  // String#split with a literal one-character separator
  // ---------------------------------------------------------------------------

  /** The pieces of `s` between occurrences of `sep`, empty ones included: the
      first stage of `s.split(sep)`. There is always at least one piece. */
  function Pieces(s: string, sep: char): (r: seq<string>)
    ensures |r| >= 1
    ensures forall i :: 0 <= i < |r| ==> sep !in r[i]
    decreases |s|
  {
    if |s| == 0 then [""]
    else
      var rest := Pieces(s[1..], sep);
      if s[0] == sep then [""] + rest
      else [[s[0]] + rest[0]] + rest[1..]
  }

  /** The second stage of `split` with no limit: empty pieces at the end are
      removed (and only those). */
  function DropTrailingEmpty(ps: seq<string>): (r: seq<string>)
    ensures r <= ps
    ensures r == [] || r[|r| - 1] != ""
    ensures forall i :: |r| <= i < |ps| ==> ps[i] == ""
    decreases |ps|
  {
    if |ps| > 0 && ps[|ps| - 1] == "" then DropTrailingEmpty(ps[..|ps| - 1]) else ps
  }

  /** `s.split(sep)` for a one-character literal separator other than a space
      (a single space selects awk-style splitting in Ruby, which is not used here). */
  function Split(s: string, sep: char): (r: seq<string>)
    requires sep != ' '
    ensures forall i :: 0 <= i < |r| ==> sep !in r[i]
    ensures r == [] || r[|r| - 1] != ""
  {
    DropTrailingEmpty(Pieces(s, sep))
  }

  /** `parts.join(sep)`: the parts in order with `sep` between neighbours, so
      it starts with the first part and ends with the last. */
  function Join(parts: seq<string>, sep: string): (r: string)
    ensures |parts| == 0 ==> r == ""
    ensures |parts| > 0 ==> parts[0] <= r
    decreases |parts|
  {
    if |parts| == 0 then ""
    else if |parts| == 1 then parts[0]
    else parts[0] + sep + Join(parts[1..], sep)
  }

  lemma {:induction false} JoinConsHead(x: char, p: string, tail: seq<string>, sep: string)
    ensures Join([[x] + p] + tail, sep) == [x] + Join([p] + tail, sep)
  {
    if tail != [] {
      assert ([[x] + p] + tail)[1..] == tail;
      assert ([p] + tail)[1..] == tail;
    }
  }

  /** Gluing the pieces back together with the separator gives the string back. */
  lemma {:induction false} JoinPieces(s: string, sep: char)
    ensures Join(Pieces(s, sep), [sep]) == s
    decreases |s|
  {
    if |s| > 0 {
      var rest := Pieces(s[1..], sep);
      JoinPieces(s[1..], sep);
      if s[0] == sep {
        assert ([""] + rest)[1..] == rest;
        assert s == [sep] + s[1..];
      } else {
        JoinConsHead(s[0], rest[0], rest[1..], [sep]);
        assert [rest[0]] + rest[1..] == rest;
        assert s == [s[0]] + s[1..];
      }
    }
  }

  /** When `s` does not end with the separator, its last piece is not empty. */
  lemma {:induction false} PiecesLastNonEmpty(s: string, sep: char)
    requires |s| > 0 && s[|s| - 1] != sep
    ensures var ps := Pieces(s, sep); ps[|ps| - 1] != ""
    decreases |s|
  {
    if |s| > 1 {
      PiecesLastNonEmpty(s[1..], sep);
    }
  }

  /** `"".split(sep)` is the empty array. */
  lemma SplitEmpty(sep: char)
    requires sep != ' '
    ensures Split("", sep) == []
  {
  }

  /** A string that does not end with the separator is recovered by joining
      its split with the separator: nothing but trailing empties is dropped. */
  lemma SplitJoin(s: string, sep: char)
    requires sep != ' '
    requires s == [] || s[|s| - 1] != sep
    ensures Join(Split(s, sep), [sep]) == s
  {
    JoinPieces(s, sep);
    if s != [] {
      PiecesLastNonEmpty(s, sep);
    }
  }

  /** The piece list of `a + sep + b` when `a` holds no separator. */
  lemma {:induction false} PiecesCons(a: string, b: string, sep: char)
    requires sep !in a
    ensures Pieces(a + [sep] + b, sep) == [a] + Pieces(b, sep)
    decreases |a|
  {
    var s := a + [sep] + b;
    if |a| == 0 {
      assert s[1..] == b;
    } else {
      assert s[1..] == a[1..] + [sep] + b;
      assert a == [a[0]] + a[1..];
      PiecesCons(a[1..], b, sep);
    }
  }

  /** The piece list of a string without the separator is that string alone. */
  lemma {:induction false} PiecesNoSeparator(a: string, sep: char)
    requires sep !in a
    ensures Pieces(a, sep) == [a]
    decreases |a|
  {
    if |a| > 0 {
      PiecesNoSeparator(a[1..], sep);
      assert a == [a[0]] + a[1..];
    }
  }

  /** Splitting a join of separator-free parts gives the parts back: the
      other half of the round trip of JoinPieces. */
  lemma {:induction false} PiecesOfJoin(parts: seq<string>, sep: char)
    requires |parts| > 0
    requires forall i :: 0 <= i < |parts| ==> sep !in parts[i]
    ensures Pieces(Join(parts, [sep]), sep) == parts
    decreases |parts|
  {
    if |parts| == 1 {
      PiecesNoSeparator(parts[0], sep);
    } else {
      PiecesOfJoin(parts[1..], sep);
      PiecesCons(parts[0], Join(parts[1..], [sep]), sep);
      assert [parts[0]] + parts[1..] == parts;
    }
  }

  /** `parts.join(sep).split(sep)` is `parts` less its trailing empty parts. */
  lemma SplitOfJoin(parts: seq<string>, sep: char)
    requires sep != ' '
    requires |parts| > 0
    requires forall i :: 0 <= i < |parts| ==> sep !in parts[i]
    ensures Split(Join(parts, [sep]), sep) == DropTrailingEmpty(parts)
  {
    PiecesOfJoin(parts, sep);
  }

  /** `Join` extended by one part on the right. */
  lemma {:induction false} JoinSnoc(parts: seq<string>, x: string, sep: string)
    requires |parts| > 0
    ensures Join(parts + [x], sep) == Join(parts, sep) + sep + x
    decreases |parts|
  {
    if |parts| > 1 {
      assert (parts + [x])[1..] == parts[1..] + [x];
      JoinSnoc(parts[1..], x, sep);
    }
  }

  /** Six parts joined, written out. */
  lemma JoinSix(a: string, b: string, c: string, d: string, e: string, f: string, sep: string)
    ensures Join([a, b, c, d, e, f], sep) == a + sep + b + sep + c + sep + d + sep + e + sep + f
  {
    assert [a, b, c, d, e, f][1..] == [b, c, d, e, f];
    assert [b, c, d, e, f][1..] == [c, d, e, f];
    assert [c, d, e, f][1..] == [d, e, f];
    assert [d, e, f][1..] == [e, f];
    assert [e, f][1..] == [f];
    var x4 := Join([e, f], sep);
    var x3 := Join([d, e, f], sep);
    var x2 := Join([c, d, e, f], sep);
    var x1 := Join([b, c, d, e, f], sep);
    assert Join([f], sep) == f;
    assert x4 == e + sep + f;
    assert x3 == d + sep + x4;
    AppendAssoc(d + sep, e + sep, f);
    AppendAssoc(d + sep, e, sep);
    assert x3 == d + sep + e + sep + f;
    assert x2 == c + sep + x3;
    AppendAssoc(c + sep, d + sep + e + sep, f);
    AppendAssoc(c + sep, d + sep + e, sep);
    AppendAssoc(c + sep, d + sep, e);
    AppendAssoc(c + sep, d, sep);
    assert x2 == c + sep + d + sep + e + sep + f;
  }

  lemma AppendAssoc(x: string, y: string, z: string)
    ensures x + (y + z) == x + y + z
  {
  }

  // ---------------------------------------------------------------------------
  // String#strip
  // ---------------------------------------------------------------------------

  /** The characters `strip` removes: NUL, tab, line feed, vertical tab,
      form feed, carriage return and space. */
  predicate IsWhitespace(c: char) {
    c == '\0' || c == '\t' || c == '\n' || c == '\U{B}' || c == '\U{C}' || c == '\r' || c == ' '
  }

  predicate AllWhitespace(s: string) {
    forall i :: 0 <= i < |s| ==> IsWhitespace(s[i])
  }

  /** Neither starts nor ends with whitespace. */
  predicate Unpadded(s: string) {
    s == [] || (!IsWhitespace(s[0]) && !IsWhitespace(s[|s| - 1]))
  }

  /** `s.lstrip`: a suffix of `s`, with only whitespace cut off, that does not start with whitespace. */
  function LStrip(s: string): (r: string)
    ensures |r| <= |s| && r == s[|s| - |r|..]
    ensures AllWhitespace(s[..|s| - |r|])
    ensures r == [] || !IsWhitespace(r[0])
    decreases |s|
  {
    if |s| > 0 && IsWhitespace(s[0]) then
      var r := LStrip(s[1..]);
      var n := |s| - |r|;
      assert s[1..][n - 1..] == s[n..];
      assert forall k :: 1 <= k < n ==> s[k] == s[1..][..n - 1][k - 1];
      r
    else s
  }

  /** `s.rstrip`: a prefix of `s`, with only whitespace cut off, that does not end with whitespace. */
  function RStrip(s: string): (r: string)
    ensures |r| <= |s| && r == s[..|r|]
    ensures AllWhitespace(s[|r|..])
    ensures r == [] || !IsWhitespace(r[|r| - 1])
    decreases |s|
  {
    if |s| > 0 && IsWhitespace(s[|s| - 1]) then
      var r := RStrip(s[..|s| - 1]);
      assert s[..|s| - 1][..|r|] == s[..|r|];
      assert s[|r|..] == s[..|s| - 1][|r|..] + [s[|s| - 1]];
      r
    else s
  }

  /** Cutting `s[i..]` at `m` cuts `s` at `i + m`. */
  lemma SliceOfSuffix(s: string, i: nat, m: nat)
    requires i + m <= |s|
    ensures s[i..][..m] == s[i..i + m] && s[i..][m..] == s[i + m..]
  {
  }

  /** `s.strip`: the middle of `s` left after cutting whitespace from both ends. */
  function Strip(s: string): (r: string)
    ensures exists i, j :: 0 <= i <= j <= |s| && r == s[i..j] && AllWhitespace(s[..i]) && AllWhitespace(s[j..])
    ensures r == [] || (!IsWhitespace(r[0]) && !IsWhitespace(r[|r| - 1]))
  {
    var t := LStrip(s);
    var r := RStrip(t);
    SliceOfSuffix(s, |s| - |t|, |r|);
    r
  }

  /** strip only removes characters: one absent from `s` is absent from `s.strip`. */
  lemma StripKeepsOut(s: string, c: char)
    requires c !in s
    ensures c !in Strip(s)
  {
    var t := LStrip(s);
    assert c !in t;
    assert Strip(s) == RStrip(t);
  }

  /** Stripping twice strips no more than stripping once. */
  lemma StripIdempotent(s: string)
    ensures Strip(Strip(s)) == Strip(s)
  {
    var r := Strip(s);
    assert LStrip(r) == r;
    assert RStrip(r) == r;
  }

  /** A string that neither starts nor ends with whitespace strips to itself. */
  lemma StripUnpadded(s: string)
    requires Unpadded(s)
    ensures Strip(s) == s
  {
  }

  /** Leading whitespace does not change what `lstrip` leaves. */
  lemma {:induction false} LStripIndented(w: string, t: string)
    requires AllWhitespace(w)
    ensures LStrip(w + t) == LStrip(t)
    decreases |w|
  {
    if |w| > 0 {
      assert (w + t)[0] == w[0];
      assert (w + t)[1..] == w[1..] + t;
      LStripIndented(w[1..], t);
    } else {
      assert w + t == t;
    }
  }

  /** An indented string without padding of its own strips to itself without
      the indentation. */
  lemma StripIndented(w: string, t: string)
    requires AllWhitespace(w) && Unpadded(t)
    ensures Strip(w + t) == t
  {
    LStripIndented(w, t);
    StripUnpadded(t);
  }

  /** A whitespace-only string strips to the empty string. */
  lemma StripAllWhitespace(s: string)
    requires AllWhitespace(s)
    ensures Strip(s) == ""
  {
  }

  // ---------------------------------------------------------------------------
  // Integer#to_s for the natural numbers
  // ---------------------------------------------------------------------------

  predicate IsDigit(c: char) {
    '0' <= c <= '9'
  }

  function DigitChar(d: nat): (c: char)
    requires d < 10
    ensures IsDigit(c) && c as int - '0' as int == d
  {
    ('0' as int + d) as char
  }

  /** `n.to_s`: decimal digits, none of them a leading zero. */
  function NatToDecimal(n: nat): (r: string)
    ensures |r| >= 1 && forall i :: 0 <= i < |r| ==> IsDigit(r[i])
    ensures n > 0 ==> r[0] != '0'
    ensures n == 0 ==> r == "0"
  {
    if n < 10 then [DigitChar(n)] else NatToDecimal(n / 10) + [DigitChar(n % 10)]
  }

  /** The number a string of decimal digits denotes. */
  function DecimalValue(s: string): nat
    requires forall i :: 0 <= i < |s| ==> IsDigit(s[i])
  {
    if |s| == 0 then 0
    else
      assert IsDigit(s[|s| - 1]);
      10 * DecimalValue(s[..|s| - 1]) + (s[|s| - 1] as int - '0' as int)
  }

  /** Reading the digits back gives the number. */
  lemma {:induction false} DecimalRoundTrip(n: nat)
    ensures DecimalValue(NatToDecimal(n)) == n
  {
    if n >= 10 {
      DecimalRoundTrip(n / 10);
      var r := NatToDecimal(n);
      assert r[..|r| - 1] == NatToDecimal(n / 10);
    }
  }
}
