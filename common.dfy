/** Shared vocabulary of the model: which copy of the code is meant, the
    failure-carrying datatypes, the fixed-width integer conversions of C++,
    subsequences, and the decimal text that std::to_string produces. */
module Common {

  /** The repository holds two generations of the same files: the `Engine`
      tree (under src/Engine) and the older top-level `Draft` files directly
      under src. Operations whose behaviour differs take a Build. */
  datatype Build = Engine | Draft

  datatype Option<+T> = None | Some(value: T)

  datatype Result<+T, +E> = Ok(value: T) | Err(error: E)

  const TWO_32: int := 0x1_0000_0000
  const TWO_31: int := 0x8000_0000

  /** uint32_t */
  type U32 = x: int | 0 <= x < TWO_32

  /** int32_t */
  type I32 = x: int | -TWO_31 <= x < TWO_31

  /** Conversion of any integer to uint32_t (also uint32_t arithmetic):
      the value modulo 2^32. */
  function ToU32(x: int): (r: U32)
    ensures (x - r) % TWO_32 == 0
  {
    x % TWO_32
  }

  /** Conversion of any integer to int32_t (static_cast on a two's-complement
      target): the representative of x modulo 2^32 in [-2^31, 2^31). */
  function ToI32(x: int): (r: I32)
    ensures (x - r) % TWO_32 == 0
  {
    var m := x % TWO_32;
    if m < TWO_31 then m else m - TWO_32
  }

  /** Round trips: a value that already fits is unchanged by the other
      width's conversion and back. */
  lemma I32RoundTrip(i: I32)
    ensures ToI32(ToU32(i)) == i
  {
  }

  /** `sub` is `s` with some elements left out, the rest in their order. */
  predicate IsSubsequence<T(==)>(sub: seq<T>, s: seq<T>)
    decreases |s|
  {
    if sub == [] then true
    else if s == [] then false
    else if sub[|sub| - 1] == s[|s| - 1] then IsSubsequence(sub[..|sub| - 1], s[..|s| - 1])
    else IsSubsequence(sub, s[..|s| - 1])
  }

  lemma {:induction false} SubsequenceShorter<T>(sub: seq<T>, s: seq<T>)
    requires IsSubsequence(sub, s)
    ensures |sub| <= |s|
    ensures forall x :: x in sub ==> x in s
    decreases |s|
  {
    if sub != [] {
      assert s != [];
      var s' := s[..|s| - 1];
      if sub[|sub| - 1] == s[|s| - 1] {
        var sub' := sub[..|sub| - 1];
        SubsequenceShorter(sub', s');
        assert sub == sub' + [s[|s| - 1]];
        assert s == s' + [s[|s| - 1]];
      } else {
        SubsequenceShorter(sub, s');
        assert s == s' + [s[|s| - 1]];
      }
    }
  }

  lemma {:induction false} SubsequenceDropLast<T>(sub: seq<T>, s: seq<T>)
    requires sub != [] && IsSubsequence(sub, s)
    ensures IsSubsequence(sub[..|sub| - 1], s)
    decreases |s|
  {
    var s' := s[..|s| - 1];
    var sub' := sub[..|sub| - 1];
    if sub[|sub| - 1] != s[|s| - 1] {
      SubsequenceDropLast(sub, s');
    }
    // now IsSubsequence(sub', s') holds in both cases
    if sub' != [] && sub'[|sub'| - 1] == s[|s| - 1] {
      SubsequenceDropLast(sub', s');
      assert sub'[..|sub'| - 1] == sub[..|sub| - 2];
    }
  }

  /** A subsequence stays one when the longer sequence grows, and growing
      both by the same element keeps the relation. */
  lemma SubsequenceExtend<T>(sub: seq<T>, s: seq<T>, x: T)
    requires IsSubsequence(sub, s)
    ensures IsSubsequence(sub, s + [x])
    ensures IsSubsequence(sub + [x], s + [x])
  {
    assert (s + [x])[..|s + [x]| - 1] == s;
    assert (sub + [x])[..|sub + [x]| - 1] == sub;
    if sub != [] && sub[|sub| - 1] == x {
      SubsequenceDropLast(sub, s);
    }
  }

  // ---------------------------------------------------------------------
  // Decimal text, as std::to_string writes an int.

  predicate IsDigit(c: char) {
    '0' <= c <= '9'
  }

  predicate AllDigits(s: string) {
    forall k :: 0 <= k < |s| ==> IsDigit(s[k])
  }

  function DigitChar(d: nat): (c: char)
    requires d < 10
    ensures IsDigit(c) && c as int - '0' as int == d
  {
    ('0' as int + d) as char
  }

  /** Decimal digits of n, most significant first, with no leading zero. */
  function NatToString(n: nat): (s: string)
    ensures |s| > 0 && AllDigits(s)
    ensures s[0] == '0' ==> n == 0
    decreases n
  {
    if n < 10 then [DigitChar(n)] else NatToString(n / 10) + [DigitChar(n % 10)]
  }

  /** std::to_string of a signed integer: a minus sign for negative values. */
  function IntToString(i: int): (s: string)
    ensures |s| > 0
    ensures i < 0 <==> s[0] == '-'
    ensures i >= 0 ==> AllDigits(s)
    ensures i < 0 ==> AllDigits(s[1..])
  {
    if i < 0 then "-" + NatToString(-i) else NatToString(i)
  }

  /** The text always ends with a digit, signed or not. */
  lemma IntToStringEndsWithDigit(i: int)
    ensures IsDigit(IntToString(i)[|IntToString(i)| - 1])
  {
    var s := IntToString(i);
    if i < 0 {
      assert s[|s| - 1] == s[1..][|s| - 2];
    }
  }

  /** The value of a run of decimal digits. */
  function ParseDigits(s: string): nat
    requires AllDigits(s)
    decreases |s|
  {
    if s == [] then 0
    else ParseDigits(s[..|s| - 1]) * 10 + (s[|s| - 1] as int - '0' as int)
  }

  /** Length of the run of digits that starts `s`. */
  function DigitRun(s: string): (n: nat)
    ensures n <= |s| && AllDigits(s[..n])
    ensures n < |s| ==> !IsDigit(s[n])
    decreases |s|
  {
    if s != [] && IsDigit(s[0]) then 1 + DigitRun(s[1..]) else 0
  }

  /** Reads back the integer at the start of `s`: an optional minus sign and
      the longest run of digits after it. */
  function LeadingInt(s: string): int {
    if s != [] && s[0] == '-' then
      var t := s[1..];
      -(ParseDigits(t[..DigitRun(t)]) as int)
    else
      ParseDigits(s[..DigitRun(s)])
  }

  lemma {:induction false} NatToStringRoundTrip(n: nat)
    ensures ParseDigits(NatToString(n)) == n
    decreases n
  {
    if n >= 10 {
      NatToStringRoundTrip(n / 10);
      var s := NatToString(n);
      assert s[..|s| - 1] == NatToString(n / 10);
    }
  }

  lemma {:induction false} DigitRunOfDigits(d: string, rest: string)
    requires AllDigits(d)
    requires rest == [] || !IsDigit(rest[0])
    ensures DigitRun(d + rest) == |d|
    decreases |d|
  {
    if d != [] {
      assert (d + rest)[1..] == d[1..] + rest;
      DigitRunOfDigits(d[1..], rest);
    }
  }

  /** The integer written by IntToString is read back by LeadingInt, whatever
      non-digit text follows it. */
  lemma IntToStringRoundTrip(i: int, rest: string)
    requires rest == [] || !IsDigit(rest[0])
    ensures LeadingInt(IntToString(i) + rest) == i
  {
    var s := IntToString(i) + rest;
    if i < 0 {
      var d := NatToString(-i);
      assert s[1..] == d + rest;
      DigitRunOfDigits(d, rest);
      assert (d + rest)[..|d|] == d;
      NatToStringRoundTrip(-i);
    } else {
      var d := NatToString(i);
      assert s[0] != '-';
      DigitRunOfDigits(d, rest);
      assert (d + rest)[..|d|] == d;
      NatToStringRoundTrip(i);
    }
  }
}
