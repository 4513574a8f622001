/** Characters, decimal numerals and the C string searches the daemon uses. */
module Text {

  predicate IsDigit(c: char) {
    '0' <= c <= '9'
  }

  predicate AllDigits(s: string) {
    forall k :: 0 <= k < |s| ==> IsDigit(s[k])
  }

  function DigitChar(n: nat): (c: char)
    requires n < 10
    ensures IsDigit(c)
  {
    '0' + n as char
  }

  /** The decimal numeral that an output stream prints for `n`. */
  function Decimal(n: nat): (s: string)
    ensures s != "" && AllDigits(s)
  {
    if n < 10 then [DigitChar(n)] else Decimal(n / 10) + [DigitChar(n % 10)]
  }

  /** The decimal numeral of a signed number. */
  function DecimalInt(i: int): (s: string)
  {
    if i < 0 then "-" + Decimal(-i) else Decimal(i)
  }

  /** The number a digit string denotes. */
  function Value(s: string): nat
    requires AllDigits(s)
  {
    if s == "" then 0 else 10 * Value(s[..|s| - 1]) + (s[|s| - 1] - '0') as nat
  }

  lemma {:induction false} ValueOfDecimal(n: nat)
    ensures Value(Decimal(n)) == n
  {
    if n >= 10 {
      ValueOfDecimal(n / 10);
      var s := Decimal(n);
      assert s[..|s| - 1] == Decimal(n / 10);
    } else {
      assert Value([]) == 0;
    }
  }

  lemma SignOfDecimalInt(i: int)
    ensures DecimalInt(i) != "" && (DecimalInt(i)[0] == '-' <==> i < 0)
    ensures i < 0 ==> DecimalInt(i)[1..] == Decimal(-i)
  {
  }

  lemma DecimalIntInjective(i: int, j: int)
    requires DecimalInt(i) == DecimalInt(j)
    ensures i == j
  {
    SignOfDecimalInt(i);
    SignOfDecimalInt(j);
    ValueOfDecimal(if i < 0 then -i else i);
    ValueOfDecimal(if j < 0 then -j else j);
  }

  lemma SuffixDigits(s: string, from: nat)
    requires from <= |s| && AllDigits(s[from..])
    ensures forall k :: from <= k < |s| ==> IsDigit(s[k])
  {
    forall k | from <= k < |s| ensures IsDigit(s[k]) {
      assert s[from..][k - from] == s[k];
    }
  }

  /** Position of the last `c` in `s`, or -1: what `strrchr` finds. */
  function LastIndex(s: string, c: char): (k: int)
    ensures -1 <= k < |s|
    ensures k >= 0 ==> s[k] == c
    ensures forall j :: k < j < |s| ==> s[j] != c
  {
    if s == "" then -1
    else if s[|s| - 1] == c then |s| - 1
    else LastIndex(s[..|s| - 1], c)
  }

  lemma LastIndexIs(s: string, c: char, k: nat)
    requires k < |s| && s[k] == c
    requires forall j :: k < j < |s| ==> s[j] != c
    ensures LastIndex(s, c) == k
  {
  }

  /** The part of a path behind its last slash, or the whole string. */
  function BaseName(s: string): string
  {
    s[LastIndex(s, '/') + 1..]
  }

  lemma {:induction false} BaseNameIs(directory: string, name: string)
    requires '/' !in name
    ensures BaseName(name) == name && BaseName(directory + "/" + name) == name
  {
    var path := directory + "/" + name;
    assert path[|directory|] == '/';
    LastIndexIs(path, '/', |directory|);
    assert path[|directory| + 1..] == name;
  }
}
