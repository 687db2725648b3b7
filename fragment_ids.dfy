/**
 * Fragment ids: newFragmentId returns a process-wide prefix (a random UUID string, fixed for the
 * lifetime of the process) followed by the decimal rendering of the int counter lastId, which it
 * increments first. Both FragmentLifecycle classes use this scheme, each with its own counter.
 */
module FragmentIds {
  import opened JavaInt

  predicate IsDigit(c: char)
  {
    '0' <= c <= '9'
  }

  function DigitChar(d: nat): (c: char)
    requires d < 10
    ensures IsDigit(c) && c as int - '0' as int == d
  {
    ('0' as int + d) as char
  }

  /** The decimal digits of n, most significant first, without leading zeros. */
  function Digits(n: nat): (s: string)
    ensures |s| >= 1 && forall i :: 0 <= i < |s| ==> IsDigit(s[i])
    ensures |s| > 1 ==> s[0] != '0'
    decreases n
  {
    if n < 10 then [DigitChar(n)] else Digits(n / 10) + [DigitChar(n % 10)]
  }

  /** The value of a string of decimal digits. */
  function ParseDigits(s: string): int
  {
    if s == [] then 0 else 10 * ParseDigits(s[..|s| - 1]) + (s[|s| - 1] as int - '0' as int)
  }

  /** Integer.toString(i), which string concatenation with an int uses: a minus sign for negative
      values, then the digits of the magnitude. */
  function DecimalString(i: int): (s: string)
    ensures |s| >= 1 && (s[0] == '-' <==> i < 0)
    ensures forall k :: 0 < k < |s| ==> IsDigit(s[k])
  {
    if i < 0 then "-" + Digits(-i) else Digits(i)
  }

  /** Integer.parseInt on the strings DecimalString produces. */
  function ParseDecimal(s: string): int
  {
    if s != [] && s[0] == '-' then -ParseDigits(s[1..]) else ParseDigits(s)
  }

  lemma {:induction false} ParseDigitsOfDigits(n: nat)
    ensures ParseDigits(Digits(n)) == n
    decreases n
  {
    if n >= 10 {
      var s := Digits(n);
      assert s[..|s| - 1] == Digits(n / 10);
      ParseDigitsOfDigits(n / 10);
    }
  }

  /** Parsing inverts rendering. */
  lemma DecimalRoundTrip(i: int)
    ensures ParseDecimal(DecimalString(i)) == i
  {
    if i < 0 {
      assert DecimalString(i)[1..] == Digits(-i);
      ParseDigitsOfDigits(-i);
    } else {
      ParseDigitsOfDigits(i);
    }
  }

  /** Different ints render differently. */
  lemma DecimalStringInjective(i: int, j: int)
    requires DecimalString(i) == DecimalString(j)
    ensures i == j
  {
    DecimalRoundTrip(i);
    DecimalRoundTrip(j);
  }

  /** processUniqueId + lastId */
  function FragmentId(processUniqueId: string, counter: int32): (id: string)
    ensures |id| > |processUniqueId| && id[..|processUniqueId|] == processUniqueId
    ensures id[|processUniqueId|..] == DecimalString(counter as int)
  {
    processUniqueId + DecimalString(counter as int)
  }

  /** Under one prefix, different counter values give different ids. */
  lemma FragmentIdInjective(processUniqueId: string, c: int32, d: int32)
    requires FragmentId(processUniqueId, c) == FragmentId(processUniqueId, d)
    ensures c == d
  {
    var p := |processUniqueId|;
    assert FragmentId(processUniqueId, c)[p..] == FragmentId(processUniqueId, d)[p..];
    DecimalStringInjective(c as int, d as int);
  }

  /** The n-th call of newFragmentId in a process (lastId starts at 0) returns this id. */
  function NthFragmentId(processUniqueId: string, n: nat): string
  {
    FragmentId(processUniqueId, Wrap32(n))
  }

  /** The first 2^32 ids a process issues are pairwise distinct. */
  lemma IssuedIdsDistinct(processUniqueId: string, n: nat, m: nat)
    requires 1 <= n < m <= TWO_32
    ensures NthFragmentId(processUniqueId, n) != NthFragmentId(processUniqueId, m)
  {
    Wrap32Distinct(n, m);
    if NthFragmentId(processUniqueId, n) == NthFragmentId(processUniqueId, m) {
      FragmentIdInjective(processUniqueId, Wrap32(n), Wrap32(m));
    }
  }

  /** After 2^32 calls the counter has wrapped around and ids repeat. */
  lemma IssuedIdsRepeatAfterWrap(processUniqueId: string, n: nat)
    ensures NthFragmentId(processUniqueId, n + TWO_32) == NthFragmentId(processUniqueId, n)
  {
    Wrap32Periodic(n);
  }
}
