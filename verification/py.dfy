/** The pieces of Python's built-in string and exception behaviour that the
    scripts rely on (str.isspace/strip/lower, str.join, str(int), and an
    exception value standing for "this expression raised"), plus two readers
    the scripts do not use, splitting at a character and parsing an integer,
    which the round-trip lemmas use to read their outputs back. */
module Py {
  import opened Wrappers

  /** The exception classes the modelled code can raise. `Exception` is the
      plain class the Crossref helper raises on a bad HTTP status. */
  datatype ExceptionKind = Exception | IndexError | KeyError | TypeError | AttributeError

  /** A raised exception: its class and `str(e)`. */
  datatype Raised = Raised(kind: ExceptionKind, message: string)

  /** `str(IndexError)` when a list index is out of range */
  const ListIndexOutOfRange: Raised := Raised(IndexError, "list index out of range")

  // ---------------------------------------------------------------------
  // Whitespace and strip()

  /** The characters CPython's str.isspace() accepts (Unicode White_Space
      plus the four ASCII information separators); str.strip() with no
      argument removes exactly these from both ends. */
  predicate IsSpace(c: char) {
    || c == ' '
    || ('\t' <= c <= '\r')
    || ('\U{1C}' <= c <= '\U{1F}')
    || c == '\U{85}'
    || c == '\U{A0}'
    || c == '\U{1680}'
    || ('\U{2000}' <= c <= '\U{200A}')
    || c == '\U{2028}'
    || c == '\U{2029}'
    || c == '\U{202F}'
    || c == '\U{205F}'
    || c == '\U{3000}'
  }

  /** Number of whitespace characters at the front of s */
  function LeadingSpace(s: string): (n: nat)
    ensures n <= |s|
    ensures forall k :: 0 <= k < n ==> IsSpace(s[k])
    ensures n < |s| ==> !IsSpace(s[n])
  {
    if |s| > 0 && IsSpace(s[0]) then 1 + LeadingSpace(s[1..]) else 0
  }

  /** Number of whitespace characters at the back of s */
  function TrailingSpace(s: string): (n: nat)
    ensures n <= |s|
    ensures forall k :: |s| - n <= k < |s| ==> IsSpace(s[k])
    ensures n < |s| ==> !IsSpace(s[|s| - n - 1])
  {
    if |s| > 0 && IsSpace(s[|s| - 1]) then 1 + TrailingSpace(s[..|s| - 1]) else 0
  }

  /** Python's s.strip(): the infix of s left after removing whitespace at
      both ends. */
  function Strip(s: string): (r: string)
    // r sits in s right after the leading whitespace ...
    ensures LeadingSpace(s) + |r| <= |s|
    ensures r == s[LeadingSpace(s)..LeadingSpace(s) + |r|]
    // ... everything outside it is whitespace ...
    ensures forall k :: 0 <= k < |s| && !(LeadingSpace(s) <= k < LeadingSpace(s) + |r|) ==> IsSpace(s[k])
    // ... and it neither starts nor ends with whitespace
    ensures |r| > 0 ==> !IsSpace(r[0]) && !IsSpace(r[|r| - 1])
  {
    var t := s[LeadingSpace(s)..];
    t[..|t| - TrailingSpace(t)]
  }

  /** A string without whitespace at either end */
  predicate IsStripped(s: string) {
    |s| > 0 ==> !IsSpace(s[0]) && !IsSpace(s[|s| - 1])
  }

  /** strip() leaves an already stripped string alone, hence is idempotent. */
  lemma StripStripped(s: string)
    requires IsStripped(s)
    ensures Strip(s) == s
  {
    assert LeadingSpace(s) == 0;
  }

  lemma StripIdempotent(s: string)
    ensures Strip(Strip(s)) == Strip(s)
  {
    StripStripped(Strip(s));
  }

  // ---------------------------------------------------------------------
  // lower()

  /** Case folding of one character. Only A-Z are folded: these are the only
      characters whose lowercase is a single one of 'e', 'x', 'i', 't', which
      is all the comparison with "exit" can observe. */
  function LowerChar(c: char): char {
    if 'A' <= c <= 'Z' then (c as int - 'A' as int + 'a' as int) as char else c
  }

  function Lower(s: string): (r: string)
    ensures |r| == |s|
    ensures forall k :: 0 <= k < |s| ==> r[k] == LowerChar(s[k])
  {
    if |s| == 0 then "" else [LowerChar(s[0])] + Lower(s[1..])
  }

  // ---------------------------------------------------------------------
  // join() and split()

  /** Python's sep.join(xs) */
  function Join(sep: string, xs: seq<string>): string
    decreases |xs|
  {
    if |xs| == 0 then ""
    else if |xs| == 1 then xs[0]
    else xs[0] + sep + Join(sep, xs[1..])
  }

  /** Joining one more piece appends the separator and that piece. */
  lemma {:induction false} JoinSnoc(sep: string, xs: seq<string>, x: string)
    requires |xs| > 0
    ensures Join(sep, xs + [x]) == Join(sep, xs) + sep + x
    decreases |xs|
  {
    var ys := xs + [x];
    assert ys[0] == xs[0] && ys[1..] == xs[1..] + [x];
    if |xs| > 1 {
      JoinSnoc(sep, xs[1..], x);
      assert Join(sep, ys) == xs[0] + sep + Join(sep, xs[1..] + [x]);
    } else {
      assert ys[1..] == [x];
    }
  }

  /** Position of the first occurrence of c in s */
  function IndexOf(s: string, c: char): (i: nat)
    requires c in s
    ensures i < |s| && s[i] == c
    ensures c !in s[..i]
  {
    if s[0] == c then 0 else 1 + IndexOf(s[1..], c)
  }

  /** Splitting at a one-character separator, as Python's s.split(c) does:
      always at least one piece, "" for the empty string. A reader for the
      round-trip lemmas; the scripts themselves never split. */
  function Split(s: string, c: char): (r: seq<string>)
    ensures |r| >= 1
    ensures forall k :: 0 <= k < |r| ==> c !in r[k]
    decreases |s|
  {
    if c !in s then [s]
    else
      var i := IndexOf(s, c);
      [s[..i]] + Split(s[i + 1..], c)
  }

  /** The first separator in a + [c] + b is the one after a, when a has none. */
  lemma {:induction false} IndexOfAfterPrefix(a: string, c: char, b: string)
    requires c !in a
    ensures IndexOf(a + [c] + b, c) == |a|
    decreases |a|
  {
    if |a| > 0 {
      assert (a + [c] + b)[1..] == a[1..] + [c] + b;
      IndexOfAfterPrefix(a[1..], c, b);
    }
  }

  /** split() undoes join() when no piece contains the separator. */
  lemma {:induction false} SplitJoin(xs: seq<string>, c: char)
    requires |xs| >= 1
    requires forall k :: 0 <= k < |xs| ==> c !in xs[k]
    ensures Split(Join([c], xs), c) == xs
    decreases |xs|
  {
    if |xs| > 1 {
      var rest := Join([c], xs[1..]);
      var j := xs[0] + [c] + rest;
      assert Join([c], xs) == j;
      assert c in j by { assert j[|xs[0]|] == c; }
      IndexOfAfterPrefix(xs[0], c, rest);
      assert Split(j, c) == [j[..|xs[0]|]] + Split(j[|xs[0]| + 1..], c);
      assert j[..|xs[0]|] == xs[0];
      assert j[|xs[0]| + 1..] == rest;
      forall k | 0 <= k < |xs[1..]| ensures c !in xs[1..][k] {
        assert xs[1..][k] == xs[k + 1];
      }
      SplitJoin(xs[1..], c);
      assert xs == [xs[0]] + xs[1..];
    }
  }

  // ---------------------------------------------------------------------
  // str(int) and its inverse

  function DigitChar(d: nat): (c: char)
    requires d < 10
    ensures '0' <= c <= '9'
  {
    ('0' as int + d) as char
  }

  predicate IsDigit(c: char) {
    '0' <= c <= '9'
  }

  /** Python's str(n) for n >= 0: decimal digits, no leading zero */
  function NatToString(n: nat): (r: string)
    ensures |r| >= 1
    ensures forall k :: 0 <= k < |r| ==> IsDigit(r[k])
    ensures |r| > 1 ==> r[0] != '0'
  {
    if n < 10 then [DigitChar(n)] else NatToString(n / 10) + [DigitChar(n % 10)]
  }

  /** Python's str(i) for any integer */
  function IntToString(i: int): (r: string)
    ensures |r| >= 1
    ensures i < 0 <==> r[0] == '-'
  {
    if i < 0 then "-" + NatToString(-i) else NatToString(i)
  }

  /** The value of a string of decimal digits */
  function DigitsValue(s: string): nat
    requires forall k :: 0 <= k < |s| ==> IsDigit(s[k])
  {
    if |s| == 0 then 0
    else
      assert IsDigit(s[|s| - 1]);
      10 * DigitsValue(s[..|s| - 1]) + (s[|s| - 1] as int - '0' as int)
  }

  /** Reading an optional '-' followed by digits as an integer, as Python's
      int(s) does on such text. A reader for the round-trip lemmas; the
      scripts themselves never parse integers. */
  function ParseInt(s: string): Option<int> {
    if |s| > 0 && s[0] == '-' then
      if |s| > 1 && forall k :: 1 <= k < |s| ==> IsDigit(s[k]) then Some(0 - DigitsValue(s[1..]) as int) else None
    else if |s| > 0 && forall k :: 0 <= k < |s| ==> IsDigit(s[k]) then Some(DigitsValue(s))
    else None
  }

  lemma {:induction false} DigitsOfNat(n: nat)
    ensures DigitsValue(NatToString(n)) == n
  {
    if n >= 10 {
      var r := NatToString(n);
      DigitsOfNat(n / 10);
      assert r[..|r| - 1] == NatToString(n / 10);
    }
  }

  /** int(str(i)) == i */
  lemma IntToStringRoundTrip(i: int)
    ensures ParseInt(IntToString(i)) == Some(i)
  {
    var s := IntToString(i);
    if i < 0 {
      var digits := NatToString(-i);
      DigitsOfNat(-i);
      assert s == "-" + digits;
      assert s[1..] == digits;
      assert forall k :: 1 <= k < |s| ==> IsDigit(s[k]) by {
        forall k | 1 <= k < |s| ensures IsDigit(s[k]) {
          assert s[k] == digits[k - 1];
        }
      }
      assert ParseInt(s) == Some(0 - DigitsValue(digits) as int);
    } else {
      DigitsOfNat(i);
      assert s == NatToString(i);
      assert IsDigit(s[0]);
      assert ParseInt(s) == Some(DigitsValue(s));
    }
  }
}
