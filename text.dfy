/** String operations the user interface and the inference script rely on:
    JavaScript's `toLowerCase`, `trim`, `includes`, `startsWith` and
    `split` on a one-character separator, Python's `str.strip`, and the
    decimal rendering of a count in a template literal. Strings are
    sequences of Unicode scalar values. */
module Text {

  /** `toLowerCase` on one character; only the ASCII letters are mapped. */
  function LowerChar(c: char): (r: char)
    ensures 'A' <= c <= 'Z' ==> 'a' <= r <= 'z' && r as int - c as int == 32
    ensures !('A' <= c <= 'Z') ==> r == c
  {
    if 'A' <= c <= 'Z' then (c as int + 32) as char else c
  }

  function Lower(s: string): (r: string)
    ensures |r| == |s|
    ensures forall i :: 0 <= i < |s| ==> r[i] == LowerChar(s[i])
  {
    seq(|s|, i requires 0 <= i < |s| => LowerChar(s[i]))
  }

  /** Lowercasing twice is lowercasing once. */
  lemma LowerIdempotent(s: string)
    ensures Lower(Lower(s)) == Lower(s)
  {
    assert forall i :: 0 <= i < |s| ==> LowerChar(LowerChar(s[i])) == LowerChar(s[i]);
  }

  /** The characters JavaScript's `String.prototype.trim` removes: the
      WhiteSpace and LineTerminator code points of ECMAScript. */
  predicate JsSpace(c: char)
  {
    ('\t' <= c <= '\r') || c == ' ' || c == '\U{00A0}' || c == '\U{1680}'
    || ('\U{2000}' <= c <= '\U{200A}') || c == '\U{2028}' || c == '\U{2029}'
    || c == '\U{202F}' || c == '\U{205F}' || c == '\U{3000}' || c == '\U{FEFF}'
  }

  /** The characters Python's `str.strip()` removes (`str.isspace`). It
      differs from JsSpace: U+001C..U+001F and U+0085 are included,
      U+FEFF is not. */
  predicate PySpace(c: char)
  {
    ('\t' <= c <= '\r') || ('\U{001C}' <= c <= ' ') || c == '\U{0085}' || c == '\U{00A0}'
    || c == '\U{1680}' || ('\U{2000}' <= c <= '\U{200A}') || c == '\U{2028}' || c == '\U{2029}'
    || c == '\U{202F}' || c == '\U{205F}' || c == '\U{3000}'
  }

  /** Number of leading characters of `s` that satisfy `ws`. */
  function LeadingCount(s: string, ws: char -> bool): (n: nat)
    ensures n <= |s|
  {
    if s != [] && ws(s[0]) then 1 + LeadingCount(s[1..], ws) else 0
  }

  /** LeadingCount stops at the first character outside `ws`. */
  lemma {:induction false} LeadingCountSpec(s: string, ws: char -> bool)
    ensures forall k :: 0 <= k < LeadingCount(s, ws) ==> ws(s[k])
    ensures LeadingCount(s, ws) < |s| ==> !ws(s[LeadingCount(s, ws)])
  {
    if s != [] && ws(s[0]) {
      LeadingCountSpec(s[1..], ws);
    }
  }

  /** Length of `s` once its trailing characters satisfying `ws` are cut. */
  function TrailingCut(s: string, ws: char -> bool): (m: nat)
    ensures m <= |s|
  {
    if s != [] && ws(s[|s| - 1]) then TrailingCut(s[..|s| - 1], ws) else |s|
  }

  /** TrailingCut keeps everything up to the last character outside `ws`. */
  lemma {:induction false} TrailingCutSpec(s: string, ws: char -> bool)
    ensures forall k :: TrailingCut(s, ws) <= k < |s| ==> ws(s[k])
    ensures TrailingCut(s, ws) > 0 ==> !ws(s[TrailingCut(s, ws) - 1])
  {
    if s != [] && ws(s[|s| - 1]) {
      TrailingCutSpec(s[..|s| - 1], ws);
    }
  }

  /** Removes the longest prefix and suffix made of `ws` characters. */
  function TrimWith(s: string, ws: char -> bool): (r: string)
    ensures |r| <= |s|
  {
    var t := s[LeadingCount(s, ws)..];
    t[..TrailingCut(t, ws)]
  }

  /** The result of TrimWith is the middle of `s` between a `ws` prefix and
      a `ws` suffix, and neither starts nor ends with a `ws` character; it is
      empty exactly when every character of `s` is in `ws`. */
  lemma TrimWithSpec(s: string, ws: char -> bool)
    ensures var r := TrimWith(s, ws); var a := LeadingCount(s, ws);
      && r <= s[a..]
      && (forall k :: 0 <= k < a ==> ws(s[k]))
      && (forall k :: a + |r| <= k < |s| ==> ws(s[k]))
      && (r != [] ==> !ws(r[0]) && !ws(r[|r| - 1]))
      && (r == [] <==> forall k :: 0 <= k < |s| ==> ws(s[k]))
  {
    var a := LeadingCount(s, ws);
    var t := s[a..];
    LeadingCountSpec(s, ws);
    TrailingCutSpec(t, ws);
    assert forall k :: a <= k < |s| ==> s[k] == t[k - a];
  }

  /** JavaScript's `trim`. */
  function Trim(s: string): (r: string)
    ensures |r| <= |s|
  {
    TrimWith(s, JsSpace)
  }

  /** Python's `strip()` with no argument. */
  function Strip(s: string): (r: string)
    ensures |r| <= |s|
  {
    TrimWith(s, PySpace)
  }

  /** The ends of a trimmed string are not JavaScript whitespace, and only
      all-whitespace strings trim to "". */
  lemma TrimEnds(s: string)
    ensures Trim(s) != [] ==> !JsSpace(Trim(s)[0]) && !JsSpace(Trim(s)[|Trim(s)| - 1])
    ensures Trim(s) == "" <==> forall k :: 0 <= k < |s| ==> JsSpace(s[k])
  {
    TrimWithSpec(s, JsSpace);
  }

  /** The same for Python's whitespace. */
  lemma StripEnds(s: string)
    ensures Strip(s) != [] ==> !PySpace(Strip(s)[0]) && !PySpace(Strip(s)[|Strip(s)| - 1])
    ensures Strip(s) == "" <==> forall k :: 0 <= k < |s| ==> PySpace(s[k])
  {
    TrimWithSpec(s, PySpace);
  }

  /** A string that neither starts nor ends with a `ws` character is its own trim. */
  lemma TrimWithFixed(s: string, ws: char -> bool)
    requires s != [] ==> !ws(s[0]) && !ws(s[|s| - 1])
    ensures TrimWith(s, ws) == s
  {
    assert LeadingCount(s, ws) == 0;
    assert s[0..] == s;
  }

  /** A string with no JavaScript whitespace at either end. */
  predicate Trimmed(s: string)
  {
    s != [] ==> !JsSpace(s[0]) && !JsSpace(s[|s| - 1])
  }

  /** Trimmed strings are exactly the fixed points of `trim`, and every
      result of `trim` is one. */
  lemma TrimmedIff(s: string)
    ensures Trimmed(s) <==> Trim(s) == s
    ensures Trimmed(Trim(s))
  {
    TrimEnds(s);
    if Trimmed(s) {
      TrimWithFixed(s, JsSpace);
    }
  }

  /** Trimming is idempotent. */
  lemma TrimIdempotent(s: string)
    ensures Trim(Trim(s)) == Trim(s)
  {
    TrimEnds(s);
    TrimWithFixed(Trim(s), JsSpace);
  }

  /** `String.prototype.includes`, by position: `t` occurs at the front of
      `s` or further on. */
  function Contains(s: string, t: string): bool
  {
    t <= s || (s != [] && Contains(s[1..], t))
  }

  /** Contains holds exactly when `t` occurs at some index of `s`. */
  lemma {:induction false} ContainsIff(s: string, t: string)
    ensures Contains(s, t) <==> exists i :: 0 <= i <= |s| && t <= s[i..]
  {
    if s != [] {
      ContainsIff(s[1..], t);
      if exists i :: 0 <= i <= |s| && t <= s[i..] {
        var i :| 0 <= i <= |s| && t <= s[i..];
        if i > 0 {
          assert s[1..][i - 1..] == s[i..];
        }
      }
      if Contains(s[1..], t) {
        var i :| 0 <= i <= |s| - 1 && t <= s[1..][i..];
        assert s[1..][i..] == s[i + 1..];
      }
    } else {
      assert forall i :: 0 <= i <= |s| ==> s[i..] == s;
    }
  }

  /** Every string includes the empty string. */
  lemma ContainsEmpty(s: string)
    ensures Contains(s, "")
  {
  }

  /** `String.prototype.startsWith`. */
  predicate StartsWith(s: string, p: string)
  {
    p <= s
  }

  /** Index of the first occurrence of `c` in `s`. */
  function IndexOf(s: string, c: char): (i: nat)
    requires c in s
    ensures i < |s| && s[i] == c && c !in s[..i]
  {
    if s[0] == c then 0 else 1 + IndexOf(s[1..], c)
  }

  /** `s.split(c)` for a one-character separator: the pieces between the
      occurrences of `c`. There is always at least one piece, no piece
      contains `c`, and joining the pieces with `c` gives back `s`. */
  function Split(s: string, c: char): (r: seq<string>)
    ensures |r| >= 1
    ensures forall k :: 0 <= k < |r| ==> c !in r[k]
    ensures Join(r, c) == s
    decreases |s|
  {
    if c !in s then [s]
    else
      var i := IndexOf(s, c);
      var rest := Split(s[i + 1..], c);
      assert s == s[..i] + [c] + s[i + 1..];
      [s[..i]] + rest
  }

  /** `pieces.join(c)`. */
  function Join(pieces: seq<string>, c: char): string
  {
    if pieces == [] then ""
    else if |pieces| == 1 then pieces[0]
    else pieces[0] + [c] + Join(pieces[1..], c)
  }

  /** The pieces Split returns are the only ones without the separator that
      join back to `s`. */
  lemma {:induction false} SplitUnique(s: string, c: char, r: seq<string>)
    requires |r| >= 1
    requires forall k :: 0 <= k < |r| ==> c !in r[k]
    requires Join(r, c) == s
    ensures Split(s, c) == r
    decreases |r|
  {
    if |r| > 1 {
      var rest := Join(r[1..], c);
      assert s == r[0] + [c] + rest;
      assert s[|r[0]|] == c;
      var i := IndexOf(s, c);
      assert s[..|r[0]|] == r[0];
      assert s[i + 1..] == rest;
      SplitUnique(rest, c, r[1..]);
      assert r == [r[0]] + r[1..];
    } else {
      assert s == r[0];
    }
  }

  function DigitChar(d: nat): (r: char)
    requires d < 10
    ensures '0' <= r <= '9'
  {
    ('0' as int + d) as char
  }

  /** The decimal numeral of `n`, as a template literal prints a number. */
  function Decimal(n: nat): (r: string)
    ensures |r| >= 1
    ensures forall k :: 0 <= k < |r| ==> '0' <= r[k] <= '9'
    ensures n >= 10 ==> r[0] != '0'
  {
    if n < 10 then [DigitChar(n)] else Decimal(n / 10) + [DigitChar(n % 10)]
  }

  /** The number a string of decimal digits denotes. */
  function DigitsValue(s: string): nat
    requires forall k :: 0 <= k < |s| ==> '0' <= s[k] <= '9'
  {
    if s == [] then 0 else DigitsValue(s[..|s| - 1]) * 10 + (s[|s| - 1] as int - '0' as int)
  }

  /** Decimal is faithful: its numeral reads back as `n`. */
  lemma {:induction false} DecimalValue(n: nat)
    ensures DigitsValue(Decimal(n)) == n
  {
    if n >= 10 {
      DecimalValue(n / 10);
      var r := Decimal(n);
      assert r[..|r| - 1] == Decimal(n / 10);
    }
  }
}
