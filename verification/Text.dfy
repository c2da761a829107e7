/** Decimal numerals and string searching, as Python's `str(int)`, `int(str)` and
    `str.split` behave on the texts that the driver exchanges. */
module Text {

  datatype Option<+T> = None | Some(value: T)

  predicate IsDigit(c: char) {
    '0' <= c <= '9'
  }

  predicate AllDigits(s: string) {
    forall i :: 0 <= i < |s| ==> IsDigit(s[i])
  }

  /** `str(n)` of a natural number. */
  function Decimal(n: nat): (s: string)
    ensures |s| > 0 && AllDigits(s)
  {
    var last := ['0' + (n % 10) as char];
    if n < 10 then last else Decimal(n / 10) + last
  }

  /** `str(i)` of an integer. */
  function Show(i: int): string {
    if i < 0 then "-" + Decimal(-i) else Decimal(i)
  }

  function DigitsValue(s: string): nat
    requires AllDigits(s)
  {
    if s == "" then 0 else 10 * DigitsValue(s[..|s| - 1]) + (s[|s| - 1] - '0') as nat
  }

  /** `int(s)`: an optional minus sign and at least one digit. */
  function ParseInt(s: string): Option<int> {
    if s != "" && s[0] == '-' then
      if |s| > 1 && AllDigits(s[1..]) then Some(-(DigitsValue(s[1..]) as int)) else None
    else
      if s != "" && AllDigits(s) then Some(DigitsValue(s)) else None
  }

  lemma {:induction false} ValueOfDecimal(n: nat)
    ensures DigitsValue(Decimal(n)) == n
  {
    var s := Decimal(n);
    if n < 10 {
      assert s[..|s| - 1] == "";
    } else {
      assert s[..|s| - 1] == Decimal(n / 10);
      ValueOfDecimal(n / 10);
    }
  }

  /** Reading a printed integer gives it back; so printing is injective. */
  lemma ParseShow(i: int)
    ensures ParseInt(Show(i)) == Some(i)
  {
    if i < 0 {
      ValueOfDecimal(-i);
      assert Show(i)[1..] == Decimal(-i);
    } else {
      ValueOfDecimal(i);
    }
  }

  predicate Free(c: char, s: string) {
    forall i :: 0 <= i < |s| ==> s[i] != c
  }

  lemma ShowIsFree(i: int, c: char)
    requires c != '-' && !IsDigit(c)
    ensures Free(c, Show(i))
  {}

  /** Position of the first `c`, or the length when there is none. */
  function FirstAt(s: string, c: char): nat {
    if s == "" || s[0] == c then 0 else 1 + FirstAt(s[1..], c)
  }

  lemma {:induction false} FirstAfterFree(a: string, s: string, c: char)
    requires Free(c, a)
    requires s == "" || s[0] == c
    ensures FirstAt(a + s, c) == |a|
  {
    if a == "" {
      assert a + s == s;
    } else {
      assert (a + s)[1..] == a[1..] + s;
      FirstAfterFree(a[1..], s, c);
    }
  }

  /** A `c`-free text followed by a rest that is empty or starts with `c` is cut uniquely. */
  lemma CutUnique(a: string, s: string, a': string, s': string, c: char)
    requires Free(c, a) && Free(c, a')
    requires s == "" || s[0] == c
    requires s' == "" || s'[0] == c
    requires a + s == a' + s'
    ensures a == a' && s == s'
  {
    FirstAfterFree(a, s, c);
    FirstAfterFree(a', s', c);
    assert (a + s)[..|a|] == a && (a' + s')[..|a|] == a';
    assert (a + s)[|a|..] == s && (a' + s')[|a|..] == s';
  }

  /** `s.split(sep)[0]`: the text before the first occurrence of `sep`. */
  function SplitHead(s: string, sep: string): string
    requires sep != ""
  {
    if s == "" || sep <= s then "" else [s[0]] + SplitHead(s[1..], sep)
  }

  lemma {:induction false} SplitHeadOf(a: string, s: string, sep: string)
    requires sep != "" && Free(sep[0], a)
    requires s == "" || sep <= s
    ensures SplitHead(a + s, sep) == a
  {
    if a == "" {
      assert a + s == s;
    } else {
      assert (a + s)[0] == a[0] != sep[0];
      assert (a + s)[1..] == a[1..] + s;
      SplitHeadOf(a[1..], s, sep);
    }
  }
}
