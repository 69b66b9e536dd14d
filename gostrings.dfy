/**
 * The pieces of Go's `strings`, `unicode` and `fmt` packages that the
 * modelled code relies on: `strings.Split` with a one-character separator,
 * `strings.Fields`, `strings.TrimSpace`, `strings.EqualFold` and `%d`.
 */
module GoStrings {

  /** `unicode.IsSpace`: the Unicode White_Space characters. */
  predicate IsSpace(c: char) {
    || c == '\t' || c == '\n' || c == '\U{B}' || c == '\U{C}' || c == '\r' || c == ' '
    || c == '\U{85}' || c == '\U{A0}' || c == '\U{1680}'
    || ('\U{2000}' <= c <= '\U{200A}')
    || c == '\U{2028}' || c == '\U{2029}' || c == '\U{202F}' || c == '\U{205F}' || c == '\U{3000}'
  }

  ghost predicate NoSpace(s: string) {
    forall i :: 0 <= i < |s| ==> !IsSpace(s[i])
  }

  ghost predicate AllSpace(s: string) {
    forall i :: 0 <= i < |s| ==> IsSpace(s[i])
  }

  // ---------------------------------------------------------------- Split

  /** Number of occurrences of `c` in `s`. */
  function Count(s: string, c: char): nat {
    if s == [] then 0 else (if s[0] == c then 1 else 0) + Count(s[1..], c)
  }

  lemma {:induction false} CountAppend(a: string, b: string, c: char)
    ensures Count(a + b, c) == Count(a, c) + Count(b, c)
    decreases |a|
  {
    if a != [] {
      assert (a + b)[1..] == a[1..] + b;
      CountAppend(a[1..], b, c);
    } else {
      assert a + b == b;
    }
  }

  lemma {:induction false} CountPositive(a: string, c: char)
    requires c in a
    ensures Count(a, c) >= 1
    decreases |a|
  {
    if a[0] != c {
      assert c in a[1..];
      CountPositive(a[1..], c);
    }
  }

  lemma {:induction false} CountAbsent(s: string, c: char)
    requires c !in s
    ensures Count(s, c) == 0
    decreases |s|
  {
    if s != [] {
      assert c !in s[1..];
      CountAbsent(s[1..], c);
    }
  }

  /** `strings.Join(parts, string(sep))`. */
  function Join(parts: seq<string>, sep: char): string {
    if |parts| == 0 then []
    else if |parts| == 1 then parts[0]
    else parts[0] + [sep] + Join(parts[1..], sep)
  }

  /**
   * `strings.Split(s, string(sep))`: the pieces of `s` between occurrences
   * of `sep`. There is always one more piece than separators, so the empty
   * string gives one empty piece.
   */
  function Split(s: string, sep: char): (parts: seq<string>)
    ensures |parts| == Count(s, sep) + 1
    ensures forall i :: 0 <= i < |parts| ==> sep !in parts[i]
    ensures Join(parts, sep) == s
    decreases |s|
  {
    if s == [] then [[]]
    else
      var rest := Split(s[1..], sep);
      if s[0] == sep then
        assert s == [sep] + s[1..];
        [[]] + rest
      else
        assert s == [s[0]] + s[1..];
        [[s[0]] + rest[0]] + rest[1..]
  }

  lemma {:induction false} SplitWithout(b: string, sep: char)
    requires sep !in b
    ensures Split(b, sep) == [b]
    decreases |b|
  {
    if b != [] {
      assert sep !in b[1..];
      SplitWithout(b[1..], sep);
    }
  }

  /** Splitting `a + sep + b` where neither side holds `sep` gives back exactly `[a, b]`. */
  lemma {:induction false} SplitAround(a: string, b: string, sep: char)
    requires sep !in a && sep !in b
    ensures Split(a + [sep] + b, sep) == [a, b]
    decreases |a|
  {
    var s := a + [sep] + b;
    if a == [] {
      assert s[1..] == b;
      SplitWithout(b, sep);
    } else {
      assert s[1..] == a[1..] + [sep] + b;
      assert sep !in a[1..];
      SplitAround(a[1..], b, sep);
      assert [a[0]] + a[1..] == a;
    }
  }

  // ----------------------------------------------------------------- %d

  function DigitChar(d: nat): (c: char)
    requires d < 10
    ensures '0' <= c <= '9'
  {
    (d + '0' as int) as char
  }

  ghost predicate AllDigits(s: string) {
    forall i :: 0 <= i < |s| ==> '0' <= s[i] <= '9'
  }

  /** Decimal digits of `n`, most significant first, without leading zeros. */
  function NatDigits(n: nat): (s: string)
    ensures |s| >= 1 && AllDigits(s)
    ensures |s| > 1 ==> s[0] != '0'
    decreases n
  {
    if n < 10 then [DigitChar(n)] else NatDigits(n / 10) + [DigitChar(n % 10)]
  }

  /** The value of a string of decimal digits. */
  function DigitsValue(s: string): nat
    requires AllDigits(s)
    decreases |s|
  {
    if s == [] then 0
    else DigitsValue(s[..|s| - 1]) * 10 + (s[|s| - 1] as int - '0' as int)
  }

  /** `fmt.Sprintf("%d", n)`. */
  function FormatInt(n: int): (s: string)
    ensures s != [] && '_' !in s
    ensures n >= 0 ==> AllDigits(s)
    ensures n < 0 ==> s[0] == '-' && AllDigits(s[1..])
  {
    if n < 0 then "-" + NatDigits(-n) else NatDigits(n)
  }

  /** Reading the digits back gives the number: `%d` loses nothing. */
  lemma {:induction false} DigitsRoundTrip(n: nat)
    ensures DigitsValue(NatDigits(n)) == n
    decreases n
  {
    if n >= 10 {
      DigitsRoundTrip(n / 10);
      var s := NatDigits(n);
      assert s[..|s| - 1] == NatDigits(n / 10);
    }
  }

  // --------------------------------------------------------------- Fields

  /** Length of the run of non-space characters at the start of `s`. */
  function WordEnd(s: string): (n: nat)
    requires s != [] && !IsSpace(s[0])
    ensures 1 <= n <= |s| && NoSpace(s[..n])
    ensures n < |s| ==> IsSpace(s[n])
    decreases |s|
  {
    if |s| == 1 || IsSpace(s[1]) then 1 else 1 + WordEnd(s[1..])
  }

  /** `strings.Fields`: the maximal runs of non-space characters, in order. */
  function Fields(s: string): (fs: seq<string>)
    ensures forall i :: 0 <= i < |fs| ==> fs[i] != [] && NoSpace(fs[i])
    ensures AllSpace(s) <==> fs == []
    decreases |s|
  {
    if s == [] then []
    else if IsSpace(s[0]) then Fields(s[1..])
    else
      var n := WordEnd(s);
      [s[..n]] + Fields(s[n..])
  }

  lemma {:induction false} FieldsSkipsSpace(pad: string, s: string)
    requires AllSpace(pad)
    ensures Fields(pad + s) == Fields(s)
    decreases |pad|
  {
    if pad != [] {
      var x := pad + s;
      assert x[0] == pad[0] && IsSpace(x[0]);
      assert x[1..] == pad[1..] + s;
      assert AllSpace(pad[1..]);
      FieldsSkipsSpace(pad[1..], s);
      assert Fields(x) == Fields(x[1..]);
    } else {
      assert pad + s == s;
    }
  }

  /** A word followed by nothing or by a space is the first field. */
  lemma {:induction false} FieldsWord(w: string, rest: string)
    requires w != [] && NoSpace(w)
    requires rest == [] || IsSpace(rest[0])
    ensures Fields(w + rest) == [w] + Fields(rest)
    decreases |w|
  {
    var s := w + rest;
    if |w| > 1 {
      assert s[1..] == w[1..] + rest;
      FieldsWord(w[1..], rest);
      WordEndOf(w, rest);
    } else {
      WordEndOf(w, rest);
    }
    assert s[..|w|] == w && s[|w|..] == rest;
  }

  lemma {:induction false} WordEndOf(w: string, rest: string)
    requires w != [] && NoSpace(w)
    requires rest == [] || IsSpace(rest[0])
    ensures WordEnd(w + rest) == |w|
    decreases |w|
  {
    var s := w + rest;
    if |w| > 1 {
      assert s[1..] == w[1..] + rest;
      WordEndOf(w[1..], rest);
    }
  }

  // ------------------------------------------------------------ TrimSpace

  function TrimLeftSpace(s: string): (r: string)
    ensures |r| <= |s| && r == s[|s| - |r|..] && AllSpace(s[..|s| - |r|])
    ensures r == [] || !IsSpace(r[0])
    decreases |s|
  {
    if s != [] && IsSpace(s[0]) then TrimLeftSpace(s[1..]) else s
  }

  function TrimRightSpace(s: string): (r: string)
    ensures |r| <= |s| && r == s[..|r|] && AllSpace(s[|r|..])
    ensures r == [] || !IsSpace(r[|r| - 1])
    decreases |s|
  {
    if s != [] && IsSpace(s[|s| - 1]) then
      var r := TrimRightSpace(s[..|s| - 1]);
      assert s[|r|..] == s[..|s| - 1][|r|..] + [s[|s| - 1]];
      r
    else s
  }

  /** `strings.TrimSpace`: `s` without its leading and trailing white space. */
  function TrimSpace(s: string): (r: string)
    ensures r == [] || (!IsSpace(r[0]) && !IsSpace(r[|r| - 1]))
    ensures |r| <= |s|
  {
    TrimRightSpace(TrimLeftSpace(s))
  }

  /** Trimming undoes any white-space padding around a text without outer spaces. */
  lemma TrimSpacePadded(pre: string, t: string, post: string)
    requires AllSpace(pre) && AllSpace(post)
    requires t == [] || (!IsSpace(t[0]) && !IsSpace(t[|t| - 1]))
    ensures TrimSpace(pre + t + post) == t
  {
    if t == [] {
      assert pre + t + post == (pre + post) + [];
      TrimLeftPadded(pre + post, []);
    } else {
      assert pre + t + post == pre + (t + post);
      TrimLeftPadded(pre, t + post);
      TrimRightPadded(t, post);
    }
  }

  lemma {:induction false} TrimLeftPadded(pre: string, s: string)
    requires AllSpace(pre)
    requires s == [] || !IsSpace(s[0])
    ensures TrimLeftSpace(pre + s) == s
    decreases |pre|
  {
    if pre != [] {
      assert (pre + s)[1..] == pre[1..] + s;
      TrimLeftPadded(pre[1..], s);
    }
  }

  lemma {:induction false} TrimRightPadded(s: string, post: string)
    requires AllSpace(post)
    requires s == [] || !IsSpace(s[|s| - 1])
    ensures TrimRightSpace(s + post) == s
    decreases |post|
  {
    if post != [] {
      var x := s + post;
      assert x[..|x| - 1] == s + post[..|post| - 1];
      TrimRightPadded(s, post[..|post| - 1]);
    }
  }

  // ------------------------------------------------------------ EqualFold

  function LowerAscii(c: char): char {
    if 'A' <= c <= 'Z' then (c as int + 32) as char else c
  }

  /**
   * `strings.EqualFold`, restricted to ASCII case: equal length and equal
   * after lowering 'A'..'Z'. This is exactly Go's simple case folding when
   * one side is made of ASCII letters other than k and s (the only ASCII
   * letters whose folding orbit holds a non-ASCII character), as "Bearer" is.
   */
  function EqualFold(a: string, b: string): (r: bool)
    ensures a == b ==> r
    ensures r ==> |a| == |b|
  {
    |a| == |b| && forall i :: 0 <= i < |a| ==> LowerAscii(a[i]) == LowerAscii(b[i])
  }

  /** Upper-casing an ASCII word does not change what it folds to. */
  lemma {:induction false} EqualFoldIgnoresAsciiCase(w: string, v: string)
    requires |w| == |v|
    requires forall i :: 0 <= i < |w| ==> v[i] == w[i] || ('a' <= w[i] <= 'z' && v[i] == (w[i] as int - 32) as char)
    ensures EqualFold(w, v)
  {
    forall i | 0 <= i < |w| ensures LowerAscii(w[i]) == LowerAscii(v[i]) {
    }
  }
}
