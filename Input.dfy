/** The Rust standard-library text handling the game relies on for every line
    it reads: `str::trim`, `str::parse::<u32>` and `u32::to_string`. */
module Input {
  import opened Wrappers

  const U32_MAX: int := 0xFFFF_FFFF

  /** Rust's `u32`. */
  newtype u32 = x: int | 0 <= x <= 0xFFFF_FFFF

  // ---------------------------------------------------------------------------
  // str::trim
  // ---------------------------------------------------------------------------

  /** The characters with the Unicode White_Space property, which
      `char::is_whitespace` accepts. */
  const WhitespaceChars: set<char> := {
    '\t', '\n', '\U{000B}', '\U{000C}', '\r', ' ', '\U{0085}', '\U{00A0}', '\U{1680}',
    '\U{2000}', '\U{2001}', '\U{2002}', '\U{2003}', '\U{2004}', '\U{2005}', '\U{2006}', '\U{2007}', '\U{2008}', '\U{2009}', '\U{200A}',
    '\U{2028}', '\U{2029}', '\U{202F}', '\U{205F}', '\U{3000}'
  }

  predicate IsWhitespace(c: char) {
    c in WhitespaceChars
  }

  predicate AllWhitespace(t: string) {
    forall k :: 0 <= k < |t| ==> IsWhitespace(t[k])
  }

  /** No whitespace at either end: what `trim` returns. */
  predicate Trimmed(t: string) {
    t != [] ==> !IsWhitespace(t[0]) && !IsWhitespace(t[|t| - 1])
  }

  /** `str::trim`: whitespace removed from both ends. */
  function Trim(s: string): (r: string)
    ensures Trimmed(r) && |r| <= |s|
    decreases |s|
  {
    if s == [] then s
    else if IsWhitespace(s[0]) then Trim(s[1..])
    else if IsWhitespace(s[|s| - 1]) then Trim(s[..|s| - 1])
    else s
  }

  /** `r` is the slice of `s` at `i`, with only whitespace before and after it. */
  predicate IsSliceBetweenWhitespace(s: string, r: string, i: nat) {
    i + |r| <= |s| && r == s[i..i + |r|] && AllWhitespace(s[..i]) && AllWhitespace(s[i + |r|..])
  }

  /** What `trim` removes is whitespace, and only whitespace: the result is
      the slice of `s` between a whitespace prefix and a whitespace suffix,
      starting at `i`. */
  lemma {:induction false} TrimIsSlice(s: string) returns (i: nat)
    ensures IsSliceBetweenWhitespace(s, Trim(s), i)
    decreases |s|
  {
    var r := Trim(s);
    if s == [] {
      i := 0;
    } else if IsWhitespace(s[0]) {
      var t := s[1..];
      var j := TrimIsSlice(t);
      i := j + 1;
      SliceAfterFirst(s, j, |r|);
      WhitespaceConcat([s[0]], t[..j]);
    } else if IsWhitespace(s[|s| - 1]) {
      var t := s[..|s| - 1];
      i := TrimIsSlice(t);
      SliceBeforeLast(s, i, |r|);
      WhitespaceConcat(t[i + |r|..], [s[|s| - 1]]);
    } else {
      i := 0;
      assert r == s[0..|s|];
      assert s[..0] == [] && s[|s|..] == [];
    }
  }

  lemma WhitespaceConcat(a: string, b: string)
    requires AllWhitespace(a) && AllWhitespace(b)
    ensures AllWhitespace(a + b)
  {
    forall k | 0 <= k < |a + b| ensures IsWhitespace((a + b)[k]) {
      if k >= |a| { assert (a + b)[k] == b[k - |a|]; }
    }
  }

  lemma SliceAfterFirst(s: string, j: nat, n: nat)
    requires 0 < |s| && j + n <= |s| - 1
    ensures s[1..][j..j + n] == s[j + 1..j + 1 + n]
    ensures s[..j + 1] == [s[0]] + s[1..][..j]
    ensures s[j + 1 + n..] == s[1..][j + n..]
  {
  }

  lemma SliceBeforeLast(s: string, i: nat, n: nat)
    requires 0 < |s| && i + n <= |s| - 1
    ensures s[..|s| - 1][i..i + n] == s[i..i + n]
    ensures s[..i] == s[..|s| - 1][..i]
    ensures s[i + n..] == s[..|s| - 1][i + n..] + [s[|s| - 1]]
  {
  }

  /** Trimming a line that is some text between two runs of whitespace (the
      newline `read_line` keeps, say) gives back exactly that text. */
  lemma {:induction false} TrimPadded(pre: string, t: string, post: string)
    requires AllWhitespace(pre) && AllWhitespace(post) && Trimmed(t)
    ensures Trim(pre + t + post) == t
    decreases |pre| + |post|
  {
    var s := pre + t + post;
    if pre != [] {
      assert s[0] == pre[0];
      assert s[1..] == pre[1..] + t + post;
      TrimPadded(pre[1..], t, post);
    } else if post != [] && t == [] {
      assert s == post && s[1..] == [] + [] + post[1..];
      TrimPadded([], [], post[1..]);
    } else if post != [] {
      assert s[0] == t[0] && s[|s| - 1] == post[|post| - 1];
      assert s[..|s| - 1] == [] + t + post[..|post| - 1];
      TrimPadded([], t, post[..|post| - 1]);
    } else {
      assert s == t;
    }
  }

  // ---------------------------------------------------------------------------
  // Decimal numerals
  // ---------------------------------------------------------------------------

  predicate IsDigit(c: char) {
    '0' <= c <= '9'
  }

  predicate AllDigits(s: string) {
    forall k :: 0 <= k < |s| ==> IsDigit(s[k])
  }

  function DigitValue(c: char): (d: nat)
    requires IsDigit(c)
    ensures d < 10
  {
    (c as int) - ('0' as int)
  }

  function DigitChar(d: nat): (c: char)
    requires d < 10
    ensures IsDigit(c) && DigitValue(c) == d
  {
    ('0' as int + d) as char
  }

  /** The value of a numeral, most significant digit first. */
  function DigitsValue(s: string): nat
    requires AllDigits(s)
  {
    if s == [] then 0 else DigitsValue(s[..|s| - 1]) * 10 + DigitValue(s[|s| - 1])
  }

  /** `u32::to_string` (and `Display` for any unsigned integer): the shortest
      decimal numeral of `n`. */
  function Decimal(n: nat): (r: string)
    ensures r != [] && AllDigits(r)
    ensures |r| > 1 ==> r[0] != '0'
  {
    if n < 10 then [DigitChar(n)] else Decimal(n / 10) + [DigitChar(n % 10)]
  }

  lemma {:induction false} DecimalValue(n: nat)
    ensures DigitsValue(Decimal(n)) == n
  {
    if n >= 10 {
      var r := Decimal(n);
      assert r[..|r| - 1] == Decimal(n / 10);
      DecimalValue(n / 10);
    }
  }

  lemma {:induction false} DigitsValueGrows(p: string, e: string)
    requires AllDigits(p) && AllDigits(e)
    ensures AllDigits(p + e) && DigitsValue(p + e) >= DigitsValue(p)
    decreases |e|
  {
    if e != [] {
      var q := p + e;
      assert q[..|q| - 1] == p + e[..|e| - 1];
      DigitsValueGrows(p, e[..|e| - 1]);
      assert DigitsValue(q) == DigitsValue(q[..|q| - 1]) * 10 + DigitValue(q[|q| - 1]);
    } else {
      assert p + e == p;
    }
  }

  /** Leading zeros do not change a numeral's value. */
  lemma {:induction false} LeadingZero(s: string)
    requires AllDigits(s)
    ensures AllDigits("0" + s) && DigitsValue("0" + s) == DigitsValue(s)
    decreases |s|
  {
    if s != [] {
      var q := "0" + s;
      assert q[..|q| - 1] == "0" + s[..|s| - 1];
      LeadingZero(s[..|s| - 1]);
    }
  }

  // ---------------------------------------------------------------------------
  // str::parse::<u32>
  // ---------------------------------------------------------------------------

  /** The text after the optional '+' sign that `parse` accepts. */
  function Unsigned(s: string): (d: string)
    ensures |d| <= |s|
  {
    if s != [] && s[0] == '+' then s[1..] else s
  }

  /** The texts `parse::<u32>` accepts: an optional '+', then at least one
      ASCII digit, with a value that fits in 32 bits. */
  predicate IsU32Text(s: string) {
    var d := Unsigned(s);
    d != [] && AllDigits(d) && DigitsValue(d) <= U32_MAX
  }

  /** The digit loop of `u32::from_str_radix` with radix 10: left to right,
      refusing any non-digit and any step that would overflow. */
  function Accumulate(digits: string, acc: u32): Option<u32>
  {
    if digits == [] then Some(acc)
    else if !IsDigit(digits[0]) then None
    else if acc as int * 10 + DigitValue(digits[0]) > U32_MAX then None
    else Accumulate(digits[1..], (acc as int * 10 + DigitValue(digits[0])) as u32)
  }

  lemma {:induction false} AccumulateValue(p: string, d: string)
    requires AllDigits(p) && DigitsValue(p) <= U32_MAX
    ensures Accumulate(d, DigitsValue(p) as u32)
         == if AllDigits(p + d) && DigitsValue(p + d) <= U32_MAX
            then Some(DigitsValue(p + d) as u32) else None
    decreases |d|
  {
    if d == [] {
      assert p + d == p;
    } else if !IsDigit(d[0]) {
      assert (p + d)[|p|] == d[0];
    } else {
      var p' := p + [d[0]];
      assert p'[..|p'| - 1] == p;
      assert p' + d[1..] == p + d;
      if DigitsValue(p') > U32_MAX {
        if AllDigits(d[1..]) {
          DigitsValueGrows(p', d[1..]);
        } else {
          assert !AllDigits(p + d) by {
            var k :| 0 <= k < |d[1..]| && !IsDigit(d[1..][k]);
            assert (p + d)[|p| + 1 + k] == d[1..][k];
          }
        }
      } else {
        AccumulateValue(p', d[1..]);
      }
    }
  }

  /** `str::parse::<u32>`: `None` for the empty text, a lone sign, any
      non-digit (including a leading '-'), and any value above 4294967295. */
  function ParseU32(s: string): (r: Option<u32>)
    ensures r.Some? ==> s != []
  {
    if s == [] then None
    else if (s[0] == '+' || s[0] == '-') && |s| == 1 then None
    else if s[0] == '+' then Accumulate(s[1..], 0)
    else Accumulate(s, 0)
  }

  /** The digit loop accepts exactly the `u32` numerals and yields their value. */
  lemma ParseU32Meaning(s: string)
    ensures ParseU32(s).Some? <==> IsU32Text(s)
    ensures ParseU32(s).Some? ==> ParseU32(s).value as int == DigitsValue(Unsigned(s))
  {
    if s != [] && !((s[0] == '+' || s[0] == '-') && |s| == 1) {
      var d := Unsigned(s);
      AccumulateValue([], d);
      assert [] + d == d;
      if s[0] == '-' {
        assert !IsDigit(d[0]);
      }
    }
  }

  /** Parsing undoes `to_string`, with or without a '+' sign and leading zeros. */
  lemma ParseDecimal(n: u32)
    ensures ParseU32(Decimal(n as nat)) == Some(n)
    ensures ParseU32("+" + Decimal(n as nat)) == Some(n)
    ensures ParseU32("0" + Decimal(n as nat)) == Some(n)
  {
    var r := Decimal(n as nat);
    DecimalValue(n as nat);
    assert ("+" + r)[1..] == r;
    LeadingZero(r);
    ParseU32Meaning(r);
    ParseU32Meaning("+" + r);
    ParseU32Meaning("0" + r);
  }

  /** A numeral too large for 32 bits is refused, not wrapped. */
  lemma ParseRejectsOverflow(n: nat)
    requires n > U32_MAX
    ensures ParseU32(Decimal(n)) == None
  {
    DecimalValue(n);
    ParseU32Meaning(Decimal(n));
  }

  /** Texts that are not a `u32` for `parse`: empty, signs alone, negatives,
      and anything that is not all digits. */
  lemma ParseRejects()
    ensures ParseU32("") == None && ParseU32("+") == None && ParseU32("-") == None
    ensures ParseU32("-0") == None && ParseU32("abc") == None && ParseU32("1 2") == None
  {
    assert !IsDigit("-0"[0]) && !IsDigit("abc"[0]) && !IsDigit("1 2"[1]);
  }
}
