/** The parts of JavaScript's string library that the Assessly code leans on:
    `String.prototype.trim`, the `\s` and `\d` regular-expression classes,
    `split('\n')`, `includes`, the decimal rendering of a non-negative
    integer (template literals such as `${index + 1}`) and
    `parseInt(text, 10)` as section 19.2.5 of ECMA-262 defines it. */
module JsText {
  import opened Js

  /** WhiteSpace and LineTerminator code points of ECMA-262 (sections 12.2
      and 12.3). `trim` removes exactly these, `\s` matches exactly these,
      and `parseInt` skips exactly these (StrWhiteSpaceChar). */
  predicate IsSpace(c: char)
  {
    || c == '\t' || c == '\n' || c == '\U{000B}' || c == '\U{000C}' || c == '\r'
    || c == ' ' || c == '\U{00A0}' || c == '\U{1680}'
    || ('\U{2000}' <= c <= '\U{200A}')
    || c == '\U{2028}' || c == '\U{2029}' || c == '\U{202F}' || c == '\U{205F}'
    || c == '\U{3000}' || c == '\U{FEFF}'
  }

  /** The `\d` class: ASCII decimal digits only. */
  predicate IsDigit(c: char)
  {
    '0' <= c <= '9'
  }

  predicate AllSpace(s: string)
  {
    forall i | 0 <= i < |s| :: IsSpace(s[i])
  }

  predicate AllDigits(s: string)
  {
    forall i | 0 <= i < |s| :: IsDigit(s[i])
  }

  // ---------------------------------------------------------------- trim

  /** Number of leading whitespace characters. */
  function LeadingSpaces(s: string): (n: nat)
    ensures n <= |s|
    ensures AllSpace(s[..n])
    ensures n < |s| ==> !IsSpace(s[n])
    decreases |s|
  {
    if |s| > 0 && IsSpace(s[0]) then
      var m := LeadingSpaces(s[1..]);
      assert s[..m + 1] == [s[0]] + s[1..][..m];
      m + 1
    else 0
  }

  /** Number of trailing whitespace characters. */
  function TrailingSpaces(s: string): (n: nat)
    ensures n <= |s|
    ensures AllSpace(s[|s| - n..])
    ensures n < |s| ==> !IsSpace(s[|s| - n - 1])
    decreases |s|
  {
    if |s| > 0 && IsSpace(s[|s| - 1]) then
      var p := s[..|s| - 1];
      var m := TrailingSpaces(p);
      assert s[|s| - (m + 1)..] == p[|p| - m..] + [s[|s| - 1]];
      m + 1
    else 0
  }

  /** `String.prototype.trimStart`. */
  function TrimStart(s: string): string
  {
    s[LeadingSpaces(s)..]
  }

  /** `String.prototype.trimEnd`. */
  function TrimEnd(s: string): string
  {
    s[..|s| - TrailingSpaces(s)]
  }

  /** `String.prototype.trim`. */
  function Trim(s: string): string
  {
    TrimEnd(TrimStart(s))
  }

  /** A string `trim` leaves alone: empty, or neither end is whitespace. */
  predicate IsTrimmed(s: string)
  {
    s == [] || (!IsSpace(s[0]) && !IsSpace(s[|s| - 1]))
  }

  /** What trim returns: a trimmed, contiguous piece of its input with only
      whitespace cut away on either side. */
  lemma TrimShape(s: string)
    ensures IsTrimmed(Trim(s))
    ensures |Trim(s)| <= |s|
    ensures var i := LeadingSpaces(s);
            && i + |Trim(s)| <= |s|
            && s[i..i + |Trim(s)|] == Trim(s)
            && AllSpace(s[..i])
            && AllSpace(s[i + |Trim(s)|..])
  {
    TrimEnds(s);
    TrimPlace(s);
    TrimTail(s);
  }

  lemma TrimEnds(s: string)
    ensures IsTrimmed(Trim(s))
  {
    var i := LeadingSpaces(s);
    var t := s[i..];
    var j := TrailingSpaces(t);
    var r := t[..|t| - j];
    assert Trim(s) == r;
    if r != [] {
      assert r[0] == s[i];
      assert r[|r| - 1] == t[|t| - j - 1];
    }
  }

  lemma TrimPlace(s: string)
    ensures var i := LeadingSpaces(s);
            && i + |Trim(s)| <= |s|
            && s[i..i + |Trim(s)|] == Trim(s)
  {
    var i := LeadingSpaces(s);
    var t := s[i..];
    var m := |t| - TrailingSpaces(t);
    assert Trim(s) == t[..m];
    SuffixSlices(s, i, m);
  }

  lemma TrimTail(s: string)
    ensures var i := LeadingSpaces(s);
            && i + |Trim(s)| <= |s|
            && AllSpace(s[i + |Trim(s)|..])
  {
    var i := LeadingSpaces(s);
    var t := s[i..];
    var n := TrailingSpaces(t);
    assert |Trim(s)| == |t| - n;
    SuffixAllSpace(s, i, |t| - n);
  }

  lemma SuffixAllSpace(s: string, i: nat, m: nat)
    requires i + m <= |s| && AllSpace(s[i..][m..])
    ensures AllSpace(s[i + m..])
  {
    SuffixSlices(s, i, m);
  }

  /** Cutting a suffix at `m` and then at `k` is cutting at `i + k`. */
  lemma SuffixSlices(s: string, i: nat, k: nat)
    requires i + k <= |s|
    ensures s[i..i + k] == s[i..][..k]
    ensures s[i + k..] == s[i..][k..]
  {
  }

  /** Trimming a string that has nothing to trim changes nothing. */
  lemma TrimTrimmed(s: string)
    requires IsTrimmed(s)
    ensures Trim(s) == s
  {
    assert LeadingSpaces(s) == 0;
    assert s[0..] == s;
    assert TrailingSpaces(s) == 0;
  }

  /** `trim` is idempotent. */
  lemma TrimIdempotent(s: string)
    ensures Trim(Trim(s)) == Trim(s)
  {
    TrimShape(s);
    TrimTrimmed(Trim(s));
  }

  /** A string trims to "" exactly when it is all whitespace. */
  lemma TrimEmptyIff(s: string)
    ensures Trim(s) == "" <==> AllSpace(s)
  {
    TrimShape(s);
    var i := LeadingSpaces(s);
    if Trim(s) == "" {
      assert i == |s|;
      assert s[..i] == s;
    } else {
      var k := i;
      assert s[k] == Trim(s)[0];
    }
  }

  // ---------------------------------------------------------------- split

  /** `s.split(sep)` for a one-character separator: the pieces between
      separators, in order; the empty string splits to `[""]`. */
  function Split(s: string, sep: char): (r: seq<string>)
    ensures |r| >= 1
    decreases |s|
  {
    if |s| == 0 then [""]
    else
      var rest := Split(s[1..], sep);
      if s[0] == sep then [""] + rest
      else [[s[0]] + rest[0]] + rest[1..]
  }

  /** `pieces.join(sep)`. */
  function Join(pieces: seq<string>, sep: char): string
    decreases |pieces|
  {
    if |pieces| == 0 then ""
    else if |pieces| == 1 then pieces[0]
    else pieces[0] + [sep] + Join(pieces[1..], sep)
  }

  /** Splitting loses nothing: joining the pieces with the separator gives
      the original text back, and no piece contains the separator. */
  lemma SplitJoin(s: string, sep: char)
    ensures Join(Split(s, sep), sep) == s
    ensures forall k | 0 <= k < |Split(s, sep)| :: sep !in Split(s, sep)[k]
  {
    JoinOfSplit(s, sep);
    SplitPiecesLackSeparator(s, sep);
  }

  lemma {:induction false} JoinOfSplit(s: string, sep: char)
    ensures Join(Split(s, sep), sep) == s
    decreases |s|
  {
    if |s| > 0 {
      var rest := Split(s[1..], sep);
      JoinOfSplit(s[1..], sep);
      assert s == [s[0]] + s[1..];
      if s[0] == sep {
        assert Split(s, sep) == [""] + rest;
        assert Join([""] + rest, sep) == "" + [sep] + Join(rest, sep);
      } else {
        var r := Split(s, sep);
        assert r == [[s[0]] + rest[0]] + rest[1..];
        if |rest| == 1 {
          assert Join(r, sep) == [s[0]] + rest[0];
        } else {
          assert Join(rest, sep) == rest[0] + [sep] + Join(rest[1..], sep);
          assert r[1..] == rest[1..];
          assert Join(r, sep) == ([s[0]] + rest[0]) + [sep] + Join(rest[1..], sep);
        }
      }
    }
  }

  lemma {:induction false} SplitPiecesLackSeparator(s: string, sep: char)
    ensures forall k | 0 <= k < |Split(s, sep)| :: sep !in Split(s, sep)[k]
    decreases |s|
  {
    if |s| > 0 {
      var rest := Split(s[1..], sep);
      SplitPiecesLackSeparator(s[1..], sep);
      if s[0] != sep {
        var r := Split(s, sep);
        assert r == [[s[0]] + rest[0]] + rest[1..];
        forall k | 0 <= k < |r| ensures sep !in r[k] {
          if k == 0 {
            assert sep !in rest[0];
          } else {
            assert r[k] == rest[k];
          }
        }
      }
    }
  }

  /** A text with no separator splits into itself alone. */
  lemma {:induction false} SplitWithoutSeparator(a: string, sep: char)
    requires sep !in a
    ensures Split(a, sep) == [a]
    decreases |a|
  {
    if |a| > 0 {
      SplitWithoutSeparator(a[1..], sep);
      assert [a[0]] + a[1..] == a;
    }
  }

  /** Text up to the first separator becomes the first piece. */
  lemma {:induction false} SplitAfterPiece(a: string, b: string, sep: char)
    requires sep !in a
    ensures Split(a + [sep] + b, sep) == [a] + Split(b, sep)
    decreases |a|
  {
    if |a| == 0 {
      assert a + [sep] + b == [sep] + b;
      assert ([sep] + b)[1..] == b;
    } else {
      SplitAfterPiece(a[1..], b, sep);
      assert (a + [sep] + b)[1..] == a[1..] + [sep] + b;
      assert [a[0]] + a[1..] == a;
    }
  }

  /** Joining is undone by splitting, as long as no piece contains the
      separator. */
  lemma {:induction false} JoinSplit(pieces: seq<string>, sep: char)
    requires |pieces| >= 1
    requires forall k | 0 <= k < |pieces| :: sep !in pieces[k]
    ensures Split(Join(pieces, sep), sep) == pieces
    decreases |pieces|
  {
    if |pieces| == 1 {
      SplitWithoutSeparator(pieces[0], sep);
    } else {
      JoinSplit(pieces[1..], sep);
      SplitAfterPiece(pieces[0], Join(pieces[1..], sep), sep);
      assert [pieces[0]] + pieces[1..] == pieces;
    }
  }

  /** Joined non-empty pieces start with the first piece's first character
      and end with the last piece's last character. */
  lemma {:induction false} JoinEnds(pieces: seq<string>, sep: char)
    requires |pieces| >= 1
    requires forall k | 0 <= k < |pieces| :: pieces[k] != []
    ensures var j := Join(pieces, sep);
            && |j| > 0
            && j[0] == pieces[0][0]
            && j[|j| - 1] == pieces[|pieces| - 1][|pieces[|pieces| - 1]| - 1]
    decreases |pieces|
  {
    if |pieces| > 1 {
      JoinEnds(pieces[1..], sep);
    }
  }

  // ---------------------------------------------------------------- includes

  /** `s.includes(t)`. */
  predicate Contains(s: string, t: string)
  {
    exists i {:trigger s[i..]} :: 0 <= i <= |s| - |t| && s[i..][..|t|] == t
  }

  /** A string includes its own prefix. */
  lemma ContainsPrefix(a: string, b: string)
    ensures Contains(a + b, a)
  {
    assert (a + b)[0..][..|a|] == a;
  }

  /** A string includes its own suffix. */
  lemma ContainsSuffix(a: string, b: string)
    ensures Contains(a + b, b)
  {
    assert (a + b)[|a|..][..|b|] == b;
  }

  /** Text around a string keeps what it includes. */
  lemma ContainsWithin(a: string, s: string, b: string, t: string)
    requires Contains(s, t)
    ensures Contains(a + s + b, t)
  {
    var i :| 0 <= i <= |s| - |t| && s[i..][..|t|] == t;
    assert (a + s + b)[|a| + i..][..|t|] == s[i..][..|t|];
  }

  /** Appending text keeps what a string includes. */
  lemma ContainsExtend(s: string, extra: string, t: string)
    requires Contains(s, t)
    ensures Contains(s + extra, t)
  {
    var i :| 0 <= i <= |s| - |t| && s[i..][..|t|] == t;
    assert (s + extra)[i..][..|t|] == s[i..][..|t|];
  }

  /** A string without the character `c` does not include any text that
      starts with `c`. */
  lemma LacksFirstChar(s: string, t: string)
    requires |t| > 0 && t[0] !in s
    ensures !Contains(s, t)
  {
  }

  /** A character neither part holds is not in their concatenation. */
  lemma LacksInJoin(c: char, a: string, b: string)
    requires c !in a && c !in b
    ensures c !in a + b
  {
  }

  // ---------------------------------------------------------------- numbers

  function DigitValue(c: char): nat
    requires IsDigit(c)
  {
    c as int - '0' as int
  }

  function DigitChar(d: nat): (c: char)
    requires d < 10
    ensures IsDigit(c) && DigitValue(c) == d
  {
    ('0' as int + d) as char
  }

  /** The value of a run of decimal digits, most significant first. */
  function DecimalValue(ds: string): nat
    requires AllDigits(ds)
    decreases |ds|
  {
    if |ds| == 0 then 0
    else DecimalValue(ds[..|ds| - 1]) * 10 + DigitValue(ds[|ds| - 1])
  }

  /** The decimal text of a non-negative integer, as `String(n)` and
      template literals render it. */
  function NatToString(n: nat): (r: string)
    ensures |r| >= 1 && AllDigits(r)
    ensures DecimalValue(r) == n
    ensures r[0] == '0' ==> n == 0
    decreases n
  {
    if n < 10 then [DigitChar(n)]
    else
      var p := NatToString(n / 10);
      var r := p + [DigitChar(n % 10)];
      assert r[..|r| - 1] == p;
      r
  }

  /** The decimal text of a number holds no character but digits. */
  lemma NatToStringOnlyDigits(n: nat, c: char)
    requires !IsDigit(c)
    ensures c !in NatToString(n)
  {
  }

  /** Length of the longest prefix of decimal digits. */
  function DigitRun(s: string): (n: nat)
    ensures n <= |s|
    ensures AllDigits(s[..n])
    ensures n < |s| ==> !IsDigit(s[n])
    decreases |s|
  {
    if |s| > 0 && IsDigit(s[0]) then
      var m := DigitRun(s[1..]);
      assert s[..m + 1] == [s[0]] + s[1..][..m];
      m + 1
    else 0
  }

  /** `parseInt(text, 10)` (ECMA-262 section 19.2.5): skip leading
      whitespace, take an optional sign, then the longest run of decimal
      digits; NaN (here `None`) when that run is empty. Anything after the
      digits is ignored. The result is a mathematical integer: the rounding
      of digit runs beyond 2^53 and the sign of a negative zero are not
      represented. */
  function ParseInt(text: string): Option<int>
  {
    var s := TrimStart(text);
    var negative := |s| > 0 && s[0] == '-';
    var body := if |s| > 0 && (s[0] == '+' || s[0] == '-') then s[1..] else s;
    var n := DigitRun(body);
    if n == 0 then None
    else Some(if negative then -(DecimalValue(body[..n]) as int) else DecimalValue(body[..n]))
  }

  /** The digit run of a digit string followed by a non-digit is that
      digit string. */
  lemma {:induction false} DigitRunOfDigits(digits: string, rest: string)
    requires AllDigits(digits)
    requires rest == [] || !IsDigit(rest[0])
    ensures DigitRun(digits + rest) == |digits|
    decreases |digits|
  {
    if |digits| > 0 {
      assert (digits + rest)[1..] == digits[1..] + rest;
      DigitRunOfDigits(digits[1..], rest);
    }
  }

  /** `parseInt` reads a leading digit run and ignores whatever follows it,
      so `"85/100"` yields 85. */
  lemma ParseIntDigitsThenJunk(digits: string, rest: string)
    requires |digits| >= 1 && AllDigits(digits)
    requires rest == [] || !IsDigit(rest[0])
    ensures ParseInt(digits + rest) == Some(DecimalValue(digits))
  {
    var s := digits + rest;
    assert s[0] == digits[0];
    assert LeadingSpaces(s) == 0;
    assert TrimStart(s) == s;
    DigitRunOfDigits(digits, rest);
    assert s[..|digits|] == digits;
  }

  /** Rendering a count and reading it back with `parseInt` is the identity,
      whatever text follows the number. */
  lemma ParseIntOfNatToString(n: nat, rest: string)
    requires rest == [] || !IsDigit(rest[0])
    ensures ParseInt(NatToString(n) + rest) == Some(n)
  {
    ParseIntDigitsThenJunk(NatToString(n), rest);
  }

  /** `parseInt` yields NaN exactly when, after leading whitespace and one
      optional sign, the text does not start with a digit. */
  lemma ParseIntNaN(text: string)
    ensures var s := TrimStart(text);
            var body := if |s| > 0 && (s[0] == '+' || s[0] == '-') then s[1..] else s;
            ParseInt(text) == None <==> (body == [] || !IsDigit(body[0]))
  {
  }
}
