/**
 * The string building blocks every trail uses: Python's `str()` of an
 * integer, character counting, joining with a separator, and the
 * "append a separator after every token, then drop the last two
 * characters" idiom (`s[:-2]`).
 */
module Strings {

  predicate IsDigit(c: char) {
    '0' <= c <= '9'
  }

  function DigitChar(d: nat): (c: char)
    requires d < 10
    ensures IsDigit(c)
  {
    "0123456789"[d]
  }

  /** `str(n)` for a non-negative integer: decimal digits, no leading zero. */
  function NatToString(n: nat): (s: string)
    ensures |s| >= 1
    decreases n
  {
    if n < 10 then [DigitChar(n)]
    else NatToString(n / 10) + [DigitChar(n % 10)]
  }

  /** `str(n)` holds only decimal digits and has no leading zero. */
  lemma {:induction false} NatToStringDigits(n: nat)
    ensures forall k :: 0 <= k < |NatToString(n)| ==> IsDigit(NatToString(n)[k])
    ensures |NatToString(n)| > 1 ==> NatToString(n)[0] != '0'
    decreases n
  {
    if n >= 10 {
      NatToStringDigits(n / 10);
    }
  }

  /** Reads a string of decimal digits back as a number. */
  function DigitsValue(s: string): nat
    requires forall k :: 0 <= k < |s| ==> IsDigit(s[k])
  {
    if s == [] then 0
    else 10 * DigitsValue(s[..|s| - 1]) + DigitValue(s[|s| - 1])
  }

  function DigitValue(c: char): (d: nat)
    requires IsDigit(c)
    ensures d < 10
  {
    (c as int) - ('0' as int)
  }

  /** `str(n)` loses nothing: reading the digits back gives `n`. */
  lemma {:induction false} NatToStringRoundTrip(n: nat)
    ensures (NatToStringDigits(n); DigitsValue(NatToString(n)) == n)
    decreases n
  {
    NatToStringDigits(n);
    if n >= 10 {
      var s := NatToString(n);
      NatToStringDigits(n / 10);
      NatToStringRoundTrip(n / 10);
      assert s[..|s| - 1] == NatToString(n / 10);
    }
  }

  /** `str(i)` for any integer: a minus sign before the digits of a negative. */
  function IntToString(i: int): (s: string)
    ensures |s| >= 1 && IsDigit(s[|s| - 1])
    ensures i >= 0 <==> IsDigit(s[0])
  {
    NatToStringDigits(if i < 0 then -i else i);
    if i < 0 then "-" + NatToString(-i) else NatToString(i)
  }

  /** After its first character, `str(i)` holds only digits. */
  lemma IntToStringDigits(i: int)
    ensures forall k :: 1 <= k < |IntToString(i)| ==> IsDigit(IntToString(i)[k])
  {
    NatToStringDigits(if i < 0 then -i else i);
  }

  /** Number of occurrences of `c` in `s`. */
  function Count(c: char, s: string): nat
  {
    if |s| == 0 then 0
    else Count(c, s[..|s| - 1]) + (if s[|s| - 1] == c then 1 else 0)
  }

  lemma {:induction false} CountAppend(c: char, a: string, b: string)
    ensures Count(c, a + b) == Count(c, a) + Count(c, b)
    decreases |b|
  {
    if b == [] {
      assert a + b == a;
    } else {
      assert (a + b)[..|a + b| - 1] == a + b[..|b| - 1];
      assert (a + b)[|a + b| - 1] == b[|b| - 1];
      CountAppend(c, a, b[..|b| - 1]);
    }
  }

  lemma {:induction false} CountDigits(c: char, s: string)
    requires !IsDigit(c)
    requires forall k :: 0 <= k < |s| ==> IsDigit(s[k])
    ensures Count(c, s) == 0
    decreases |s|
  {
    if s != [] {
      CountDigits(c, s[..|s| - 1]);
    }
  }

  /** A non-negative integer's rendering holds no character other than digits. */
  lemma CountNatToString(c: char, n: nat)
    requires !IsDigit(c)
    ensures Count(c, NatToString(n)) == 0
  {
    NatToStringDigits(n);
    CountDigits(c, NatToString(n));
  }

  /** A rendering holds no character other than digits and, for a negative, one '-'. */
  lemma CountIntToString(c: char, i: int)
    requires !IsDigit(c) && c != '-'
    ensures Count(c, IntToString(i)) == 0
  {
    var s := IntToString(i);
    if i < 0 {
      CountAppend(c, "-", NatToString(-i));
      assert Count(c, "-") == Count(c, "") + 0;
    }
    CountNatToString(c, if i < 0 then -i else i);
  }

  /** `sep.join(parts)`. */
  function Joined(parts: seq<string>, sep: string): string
    decreases |parts|
  {
    if |parts| == 0 then ""
    else if |parts| == 1 then parts[0]
    else Joined(parts[..|parts| - 1], sep) + sep + parts[|parts| - 1]
  }

  /** What a loop that appends `part + sep` for every part builds. */
  function Terminated(parts: seq<string>, sep: string): string
    decreases |parts|
  {
    if parts == [] then ""
    else Terminated(parts[..|parts| - 1], sep) + parts[|parts| - 1] + sep
  }

  /** Appending one more part and its separator extends the terminated list. */
  lemma TerminatedSnoc(parts: seq<string>, i: nat, sep: string)
    requires i < |parts|
    ensures Terminated(parts[..i + 1], sep) == Terminated(parts[..i], sep) + parts[i] + sep
  {
    assert parts[..i + 1][..i] == parts[..i];
  }

  /** The terminated list of `parts + [p]` extends that of `parts` by `p` and a separator. */
  lemma TerminatedAppend(parts: seq<string>, p: string, sep: string)
    ensures Terminated(parts + [p], sep) == Terminated(parts, sep) + p + sep
  {
    assert (parts + [p])[..|parts|] == parts;
  }

  /**
   * Python's `s[:-k]`: the string without its last `k` characters, "" when
   * it is shorter than `k`, and also "" for `k == 0` (`s[:-0]` is `s[:0]`).
   */
  function DropLast(s: string, k: nat): (r: string)
    ensures 0 < k <= |s| ==> |r| == |s| - k && r == s[..|s| - k]
    ensures k == 0 || |s| < k ==> r == ""
  {
    if 0 < k <= |s| then s[..|s| - k] else ""
  }

  /** Dropping the trailing separator of a terminated list gives exactly the joined list. */
  lemma {:induction false} DropSeparator(parts: seq<string>, sep: string)
    requires sep != ""
    ensures DropLast(Terminated(parts, sep), |sep|) == Joined(parts, sep)
    decreases |parts|
  {
    if parts != [] {
      TerminatedIsJoinedPlusSep(parts, sep);
    }
  }

  lemma {:induction false} TerminatedIsJoinedPlusSep(parts: seq<string>, sep: string)
    requires parts != []
    ensures Terminated(parts, sep) == Joined(parts, sep) + sep
    decreases |parts|
  {
    if |parts| > 1 {
      TerminatedIsJoinedPlusSep(parts[..|parts| - 1], sep);
    } else {
      assert parts[..0] == [];
    }
  }

  /** Number of set flags. */
  function TrueCount(flags: seq<bool>): nat
    decreases |flags|
  {
    if flags == [] then 0 else TrueCount(flags[..|flags| - 1]) + (if flags[|flags| - 1] then 1 else 0)
  }

  /** `"".join(parts)`: the parts one after the other. */
  function Concat(parts: seq<string>): string
    decreases |parts|
  {
    if parts == [] then "" else Concat(parts[..|parts| - 1]) + parts[|parts| - 1]
  }

  lemma ConcatSnoc(parts: seq<string>, p: string)
    ensures Concat(parts + [p]) == Concat(parts) + p
  {
    assert (parts + [p])[..|parts|] == parts;
  }

  /** A prefix of a prefix is a prefix. */
  lemma PrefixTrans<T>(a: seq<T>, b: seq<T>, c: seq<T>)
    requires a <= b && b <= c
    ensures a <= c
  {
    assert forall i :: 0 <= i < |a| ==> c[i] == b[i];
  }

  /** The joined text starts with the first part. */
  lemma {:induction false} ConcatStart(parts: seq<string>)
    requires |parts| > 0
    ensures parts[0] <= Concat(parts)
    decreases |parts|
  {
    var init := parts[..|parts| - 1];
    var last := parts[|parts| - 1];
    if |parts| == 1 {
      assert init == [];
      assert Concat(parts) == "" + last;
    } else {
      ConcatStart(init);
      assert forall i :: 0 <= i < |parts[0]| ==> (Concat(init) + last)[i] == Concat(init)[i];
    }
  }

  /** A sequence is a prefix of itself followed by one more element. */
  lemma SnocPrefix<T>(xs: seq<T>, x: T)
    ensures xs <= xs + [x]
  {
  }
}
