/** Text helpers with the meaning Python gives them: `sep.join`, ASCII
    lower-casing, `str.isspace`, universal-newline reading and decimal
    rendering of a natural number. */
module Strings {

  /** `sep.join(xs)`. */
  function Join(sep: string, xs: seq<string>): string
    decreases |xs|
  {
    if |xs| == 0 then ""
    else if |xs| == 1 then xs[0]
    else xs[0] + sep + Join(sep, xs[1..])
  }

  /** Where item `k` starts inside `Join(sep, xs)`. */
  function Offset(sep: string, xs: seq<string>, k: nat): nat
    requires k <= |xs|
  {
    if k == 0 then 0 else Offset(sep, xs, k - 1) + |xs[k - 1]| + |sep|
  }

  lemma {:induction false} OffsetTail(sep: string, xs: seq<string>, k: nat)
    requires 0 < k <= |xs|
    ensures Offset(sep, xs, k) == |xs[0]| + |sep| + Offset(sep, xs[1..], k - 1)
  {
    if k > 1 {
      OffsetTail(sep, xs, k - 1);
      assert xs[1..][k - 2] == xs[k - 1];
    }
  }

  lemma SliceAfterPrefix(a: string, b: string, i: nat, j: nat)
    requires i <= j <= |b|
    ensures (a + b)[|a| + i..|a| + j] == b[i..j]
  {
  }

  lemma {:induction false} JoinLength(sep: string, xs: seq<string>)
    requires |xs| > 0
    ensures |Join(sep, xs)| == Offset(sep, xs, |xs|) - |sep|
    decreases |xs|
  {
    if |xs| > 1 {
      JoinLength(sep, xs[1..]);
      OffsetTail(sep, xs, |xs|);
    }
  }

  /** Item `k` of the joined string sits at its offset. */
  lemma {:induction false} JoinItem(sep: string, xs: seq<string>, k: nat)
    requires k < |xs|
    ensures Offset(sep, xs, k) + |xs[k]| <= |Join(sep, xs)|
    ensures Join(sep, xs)[Offset(sep, xs, k)..Offset(sep, xs, k) + |xs[k]|] == xs[k]
    decreases k
  {
    if |xs| > 1 {
      var head := xs[0] + sep;
      var rest := Join(sep, xs[1..]);
      assert Join(sep, xs) == head + rest;
      if k == 0 {
        assert (head + rest)[..|xs[0]|] == xs[0];
      } else {
        JoinItem(sep, xs[1..], k - 1);
        OffsetTail(sep, xs, k);
        assert xs[1..][k - 1] == xs[k];
        var at := Offset(sep, xs[1..], k - 1);
        SliceAfterPrefix(head, rest, at, at + |xs[k]|);
      }
    }
  }

  /** Between item `k` and item `k + 1` lies exactly one separator. */
  lemma {:induction false} JoinSeparator(sep: string, xs: seq<string>, k: nat)
    requires k + 1 < |xs|
    ensures Offset(sep, xs, k + 1) <= |Join(sep, xs)|
    ensures Join(sep, xs)[Offset(sep, xs, k) + |xs[k]|..Offset(sep, xs, k + 1)] == sep
    decreases k
  {
    var head := xs[0] + sep;
    var rest := Join(sep, xs[1..]);
    assert Join(sep, xs) == head + rest;
    if k > 0 {
      JoinSeparator(sep, xs[1..], k - 1);
      OffsetTail(sep, xs, k);
      OffsetTail(sep, xs, k + 1);
      assert xs[1..][k - 1] == xs[k];
      var at := Offset(sep, xs[1..], k - 1) + |xs[k]|;
      SliceAfterPrefix(head, rest, at, Offset(sep, xs[1..], k));
    } else {
      assert Offset(sep, xs, 1) == |xs[0]| + |sep|;
    }
  }

  /** ASCII lower-casing of one character; every other character is kept. */
  function LowerChar(c: char): char
  {
    if 'A' <= c <= 'Z' then (c as int + 32) as char else c
  }

  /** `s.lower()` restricted to ASCII letters. */
  function LowerAscii(s: string): string
  {
    seq(|s|, i requires 0 <= i < |s| => LowerChar(s[i]))
  }

  /** The characters for which Python's `str.isspace()` holds. */
  predicate IsSpace(c: char)
  {
    c == ' ' || '\t' <= c <= '\r' || '\U{1C}' <= c <= '\U{1F}'
    || c == '\U{85}' || c == '\U{A0}' || c == '\U{1680}'
    || '\U{2000}' <= c <= '\U{200A}' || c == '\U{2028}' || c == '\U{2029}'
    || c == '\U{202F}' || c == '\U{205F}' || c == '\U{3000}'
  }

  /** `not s.strip()`: the string is empty once surrounding whitespace goes. */
  predicate IsBlank(s: string)
  {
    forall i :: 0 <= i < |s| ==> IsSpace(s[i])
  }

  /** What reading a file in Python's text mode returns for stored text `s`:
      "\r\n" and a lone "\r" both become "\n", so no carriage return
      survives, and the text never grows. */
  function UniversalNewlines(s: string): (r: string)
    ensures '\r' !in r
    ensures |r| <= |s|
    decreases |s|
  {
    if |s| == 0 then ""
    else if s[0] == '\r' then
      "\n" + UniversalNewlines(if |s| > 1 && s[1] == '\n' then s[2..] else s[1..])
    else [s[0]] + UniversalNewlines(s[1..])
  }

  /** Text without carriage returns reads back unchanged. */
  lemma {:induction false} UniversalNewlinesKeepsPlainText(s: string)
    requires '\r' !in s
    ensures UniversalNewlines(s) == s
    decreases |s|
  {
    if |s| > 0 {
      assert s[0] != '\r';
      assert '\r' !in s[1..] by {
        forall i | 0 <= i < |s[1..]| ensures s[1..][i] != '\r' { assert s[1..][i] == s[i + 1]; }
      }
      UniversalNewlinesKeepsPlainText(s[1..]);
      assert s == [s[0]] + s[1..];
    }
  }

  /** A "\r\n" between two pieces without carriage returns reads as one "\n". */
  lemma {:induction false} UniversalNewlinesCrLf(x: string, y: string)
    requires '\r' !in x && '\r' !in y
    ensures UniversalNewlines(x + "\r\n" + y) == x + "\n" + y
    decreases |x|
  {
    var s := x + "\r\n" + y;
    if |x| == 0 {
      assert s == "\r\n" + y;
      assert s[0] == '\r' && s[1] == '\n' && s[2..] == y;
      UniversalNewlinesKeepsPlainText(y);
      assert UniversalNewlines(s) == "\n" + UniversalNewlines(s[2..]);
      assert x + "\n" + y == "\n" + y;
    } else {
      var rest := x[1..];
      assert x[0] in x;
      assert '\r' !in rest by {
        forall i | 0 <= i < |rest| ensures rest[i] != '\r' { assert rest[i] == x[i + 1]; }
      }
      UniversalNewlinesCrLf(rest, y);
      assert s[0] == x[0] && s[0] != '\r';
      assert s[1..] == rest + "\r\n" + y;
      assert UniversalNewlines(s) == [s[0]] + UniversalNewlines(s[1..]);
      assert x + "\n" + y == [x[0]] + (rest + "\n" + y);
    }
  }

  function HexDigit(d: nat): char
    requires d < 16
  {
    if d < 10 then ('0' as int + d) as char else ('a' as int + d - 10) as char
  }

  /** The characters below U+0100 that `str.isprintable()` rejects: the
      control characters, U+00A0 and U+00AD. */
  predicate LatinUnprintable(c: char)
  {
    c < ' ' || '\U{7F}' <= c <= '\U{A0}' || c == '\U{AD}'
  }

  /** How `repr` writes one character inside quotes `q`. */
  function ReprChar(c: char, q: char): string
  {
    if c == q || c == '\\' then ['\\', c]
    else if c == '\n' then "\\n"
    else if c == '\r' then "\\r"
    else if c == '\t' then "\\t"
    else if LatinUnprintable(c) then "\\x" + [HexDigit(c as int / 16), HexDigit(c as int % 16)]
    else [c]
  }

  function ReprBody(s: string, q: char): string
    decreases |s|
  {
    if |s| == 0 then "" else ReprChar(s[0], q) + ReprBody(s[1..], q)
  }

  /** `repr(s)`: single quotes, unless `s` holds a single quote and no double
      quote; inside them the quote in use, the backslash and the unprintable
      characters below U+0100 are escaped. */
  function Repr(s: string): string
  {
    var q := if '\'' in s && '"' !in s then '"' else '\'';
    [q] + ReprBody(s, q) + [q]
  }

  /** No character of `s` needs an escape inside quotes `q`. */
  predicate Unescaped(s: string, q: char)
  {
    forall i :: 0 <= i < |s| ==> s[i] != q && s[i] != '\\' && !LatinUnprintable(s[i])
  }

  /** Text that needs no escape is written as it is. */
  lemma {:induction false} ReprBodyOfPlainText(s: string, q: char)
    requires Unescaped(s, q)
    ensures ReprBody(s, q) == s
    decreases |s|
  {
    if |s| > 0 {
      assert Unescaped(s[1..], q) by {
        forall i | 0 <= i < |s[1..]| ensures s[1..][i] == s[i + 1] { }
      }
      ReprBodyOfPlainText(s[1..], q);
      assert s == [s[0]] + s[1..];
    }
  }

  /** Text without quotes, backslashes or unprintable characters is shown
      between single quotes as it is. */
  lemma ReprOfPlainText(s: string)
    requires Unescaped(s, '\'')
    ensures Repr(s) == "'" + s + "'"
  {
    assert '\'' !in s;
    ReprBodyOfPlainText(s, '\'');
  }

  lemma {:induction false} ReprBodyAppend(a: string, b: string, q: char)
    ensures ReprBody(a + b, q) == ReprBody(a, q) + ReprBody(b, q)
    decreases |a|
  {
    if |a| > 0 {
      ReprBodyAppend(a[1..], b, q);
      assert (a + b)[0] == a[0] && (a + b)[1..] == a[1..] + b;
    } else {
      assert a + b == b;
    }
  }

  /** A single quote in a text without double quotes switches `repr` to
      double quotes and is itself shown unescaped. */
  lemma ReprOfOneSingleQuote(x: string, y: string)
    requires Unescaped(x, '"') && Unescaped(y, '"')
    ensures Repr(x + "'" + y) == "\"" + x + "'" + y + "\""
  {
    var s := x + "'" + y;
    assert '"' !in x && '"' !in y;
    assert s[|x|] == '\'';
    assert '\'' in s && '"' !in s;
    ReprBodyAppend(x + "'", y, '"');
    ReprBodyAppend(x, "'", '"');
    ReprBodyOfPlainText(x, '"');
    ReprBodyOfPlainText(y, '"');
    assert ReprBody("'", '"') == "'" by {
      assert "'"[1..] == "";
    }
    assert Repr(s) == "\"" + ReprBody(s, '"') + "\"";
  }

  function DigitChar(d: nat): char
    requires d < 10
  {
    ('0' as int + d) as char
  }

  /** `str(n)` for a natural number. */
  function NatToString(n: nat): string
  {
    if n < 10 then [DigitChar(n)] else NatToString(n / 10) + [DigitChar(n % 10)]
  }

  /** The value of a string of decimal digits; the inverse of NatToString. */
  function DecimalValue(s: string): int
  {
    if |s| == 0 then 0 else DecimalValue(s[..|s| - 1]) * 10 + (s[|s| - 1] as int - '0' as int)
  }

  /** Rendering is a string of digits that reads back as the number, so
      distinct numbers render differently. */
  lemma {:induction false} NatToStringRoundTrip(n: nat)
    ensures |NatToString(n)| > 0
    ensures forall i :: 0 <= i < |NatToString(n)| ==> '0' <= NatToString(n)[i] <= '9'
    ensures DecimalValue(NatToString(n)) == n
  {
    if n >= 10 {
      NatToStringRoundTrip(n / 10);
      var s := NatToString(n);
      assert s[..|s| - 1] == NatToString(n / 10);
    }
  }
}
