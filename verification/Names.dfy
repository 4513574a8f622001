/** Device link names and block device names. */
module Names {
  import opened Text
  import opened Option

  // ---- Links to partitions -------------------------------------------------

  /** `link` is the name of partition `digits` of the device link `root`. */
  predicate IsPartitionOf(link: string, root: string, digits: string) {
    digits != "" && AllDigits(digits) && link == root + "-part" + digits
  }

  /** The root link of a link to a partition; "" for any other link. */
  ghost function RootName(link: string): string {
    if exists r, d :: IsPartitionOf(link, r, d)
    then var r, d :| IsPartitionOf(link, r, d); r
    else ""
  }

  lemma PartitionHyphen(link: string, r: string, d: string)
    requires IsPartitionOf(link, r, d)
    ensures LastIndex(link, '-') == |r|
    ensures r == link[..|r|] && d == link[|r| + 5..]
  {
    LastIndexIs(link, '-', |r|);
  }

  /** Only links of the partition form have a non-empty root, and it is the
      one they were built from. */
  lemma RootNameIff(link: string, r: string)
    requires r != ""
    ensures RootName(link) == r <==> exists d :: IsPartitionOf(link, r, d)
  {
    if d :| IsPartitionOf(link, r, d) {
      var r', d' :| IsPartitionOf(link, r', d') && RootName(link) == r';
      PartitionHyphen(link, r, d);
      PartitionHyphen(link, r', d');
    }
  }

  /** Round trip: appending a printed partition number is undone, whatever the
      root looks like. */
  lemma RootOfPartitionLink(r: string, n: nat)
    ensures RootName(r + "-part" + Decimal(n)) == r
  {
    var link := r + "-part" + Decimal(n);
    assert IsPartitionOf(link, r, Decimal(n));
    var r', d' :| IsPartitionOf(link, r', d') && RootName(link) == r';
    PartitionHyphen(link, r, Decimal(n));
    PartitionHyphen(link, r', d');
  }

  lemma PartBehind(link: string, hyphen: nat)
    requires hyphen < |link| && link[hyphen] == '-' && "part" <= link[hyphen + 1..]
    ensures hyphen + 5 <= |link| && link == link[..hyphen] + "-part" + link[hyphen + 5..]
  {
    var behind := link[hyphen + 1..];
    assert behind == "part" + behind[4..] && behind[4..] == link[hyphen + 5..];
    assert link == link[..hyphen] + (['-'] + behind);
    assert ['-'] + ("part" + behind[4..]) == "-part" + behind[4..];
  }

  lemma PartIsBehind(link: string, hyphen: nat)
    requires hyphen < |link|
    ensures forall digits :: IsPartitionOf(link, link[..hyphen], digits) ==> "part" <= link[hyphen + 1..]
  {
    forall digits | IsPartitionOf(link, link[..hyphen], digits) ensures "part" <= link[hyphen + 1..] {
      assert link[hyphen + 1..] == "part" + digits;
    }
  }

  /** Whether the text behind the last hyphen is "part" and a number. */
  method IsLinkToPartition(link: string, hyphen: int) returns (yes: bool)
    requires -1 <= hyphen < |link|
    requires hyphen >= 0 ==> link[hyphen] == '-'
    ensures var digits := if hyphen + 5 <= |link| then link[hyphen + 5..] else "";
            yes <==> hyphen >= 0 && IsPartitionOf(link, link[..hyphen], digits)
  {
    if hyphen < 0 {
      return false;
    }
    PartIsBehind(link, hyphen);
    if !("part" <= link[hyphen + 1..]) {
      return false;
    }
    var temp := hyphen + 5;
    PartBehind(link, hyphen);
    if temp == |link| {
      return false;
    }
    var k := temp;
    while k < |link|
      invariant temp <= k <= |link|
      invariant AllDigits(link[temp..k])
    {
      if !IsDigit(link[k]) {
        assert link[temp..][k - temp] == link[k];
        return false;
      }
      assert link[temp..k + 1] == link[temp..k] + [link[k]];
      k := k + 1;
    }
    assert link[temp..k] == link[temp..];
    return true;
  }

  method MkRootDevlinkName(link: string) returns (root: string)
    requires link != ""
    ensures root == RootName(link)
  {
    var hyphen := LastIndex(link, '-');
    var isPartition := IsLinkToPartition(link, hyphen);
    if isPartition {
      root := link[..hyphen];
      ghost var r, d :| IsPartitionOf(link, r, d) && RootName(link) == r;
      PartitionHyphen(link, r, d);
    } else {
      root := "";
      if r, d :| IsPartitionOf(link, r, d) {
        PartitionHyphen(link, r, d);
        assert false;
      }
    }
  }

  // ---- Volume numbers --------------------------------------------------------

  const INT_MAX: int := 0x7FFF_FFFF
  const ULONG_MAX: nat := 0xFFFF_FFFF_FFFF_FFFF

  predicate IsSpace(c: char) {
    c == ' ' || ('\t' <= c <= '\r')
  }

  lemma SpacesAre(c: char)
    ensures IsSpace(c) <==> c as int in {9, 10, 11, 12, 13, 32}
  {
  }

  /** Conversion of an unsigned long to an int. */
  function ToInt(n: nat): (i: int)
    ensures -INT_MAX - 1 <= i <= INT_MAX && (n - i) % 0x1_0000_0000 == 0
  {
    var m := n % 0x1_0000_0000;
    if m <= INT_MAX then m else m - 0x1_0000_0000
  }

  /** What `strtoul` makes of digits, possibly behind one other character: the
      number, or None if the conversion stops before the end. */
  function Strtoul(s: string): (r: Option<nat>)
    requires s != "" && AllDigits(s[1..])
  {
    if IsDigit(s[0]) then Some(Saturated(Value(s)))
    else if |s| == 1 then None
    else if s[0] == '+' || IsSpace(s[0]) then Some(Saturated(Value(s[1..])))
    else if s[0] == '-' then Some(Negated(Value(s[1..])))
    else None
  }

  function Saturated(n: nat): nat {
    if n <= ULONG_MAX then n else ULONG_MAX
  }

  function Negated(n: nat): nat {
    if n == 0 then 0 else if n <= ULONG_MAX then ULONG_MAX + 1 - n else ULONG_MAX
  }

  /** Where the trailing number of `s` starts. The search never looks at the
      first character, so a number that would start at index 1 starts at 0. */
  ghost predicate IsTrailingStart(s: string, p: nat)
    requires s != ""
  {
    if p == 0 then AllDigits(s[1..])
    else 2 <= p <= |s| && !IsDigit(s[p - 1]) && AllDigits(s[p..])
  }

  function TrailingStart(s: string): (p: nat)
    requires s != ""
    ensures IsTrailingStart(s, p)
  {
    TrailingStartFrom(s, |s| - 1)
  }

  function TrailingStartFrom(s: string, p: nat): (q: nat)
    requires p < |s| && AllDigits(s[p + 1..])
    ensures IsTrailingStart(s, q)
  {
    if p == 0 then 0
    else if !IsDigit(s[p]) then p + 1
    else
      assert s[p..] == [s[p]] + s[p + 1..];
      TrailingStartFrom(s, p - 1)
  }

  lemma TrailingStartUnique(s: string, p: nat, q: nat)
    requires s != "" && IsTrailingStart(s, p) && IsTrailingStart(s, q)
    ensures p == q
  {
    SuffixDigits(s, if p == 0 then 1 else p);
    SuffixDigits(s, if q == 0 then 1 else q);
  }

  /** The volume number encoded in a block device name: 0 for a whole device,
      negative for a name that cannot be used. */
  function VolumeNumber(devname: string): (n: int)
    requires devname != ""
    ensures n <= INT_MAX
  {
    var p := TrailingStart(devname);
    if IsDigit(devname[0]) then -1
    else if p == |devname| then 0
    else
      match Strtoul(devname[p..])
      case Some(v) => ToInt(v)
      case None => -1
  }

  method FindTrailingNumber(devname: string) returns (p: nat)
    requires devname != ""
    ensures p == TrailingStart(devname)
  {
    p := |devname| - 1;
    while p > 0
      invariant p < |devname| && AllDigits(devname[p + 1..])
      invariant TrailingStartFrom(devname, p) == TrailingStart(devname)
    {
      if !IsDigit(devname[p]) {
        return p + 1;
      }
      assert devname[p..] == [devname[p]] + devname[p + 1..];
      p := p - 1;
    }
  }

  method DevnameGetVolumeNumber(devname: string) returns (n: int)
    requires devname != ""
    ensures n == VolumeNumber(devname)
  {
    if IsDigit(devname[0]) {
      return -1;
    }
    var start := FindTrailingNumber(devname);
    if start == |devname| {
      return 0;
    }
    var temp := Strtoul(devname[start..]);
    match temp
    case Some(v) => n := ToInt(v);
    case None => n := -1;
  }

  lemma {:induction false} VolumeNumberOfName(base: string, n: nat)
    requires |base| >= 2 && !IsDigit(base[0]) && !IsDigit(base[|base| - 1])
    ensures VolumeNumber(base + Decimal(n)) == ToInt(Saturated(n))
    ensures VolumeNumber(base) == 0
  {
    var s := base + Decimal(n);
    assert s[|base|..] == Decimal(n);
    assert base[|base|..] == "";
    TrailingStartUnique(s, TrailingStart(s), |base|);
    TrailingStartUnique(base, TrailingStart(base), |base|);
    ValueOfDecimal(n);
  }

  /** With a single character in front, what `strtoul` makes of it counts. */
  lemma VolumeNumberOfLetter(base: string, n: nat)
    requires |base| == 1 && !IsDigit(base[0])
    ensures VolumeNumber(base + Decimal(n)) ==
            if base == "+" || IsSpace(base[0]) then ToInt(Saturated(n))
            else if base == "-" then ToInt(Negated(n))
            else -1
    ensures VolumeNumber(base) == -1
  {
    var s := base + Decimal(n);
    assert s[1..] == Decimal(n) && s[0..] == s;
    assert base[1..] == "" && base[0..] == base;
    TrailingStartUnique(s, TrailingStart(s), 0);
    TrailingStartUnique(base, TrailingStart(base), 0);
    ValueOfDecimal(n);
  }

  lemma ToIntExact(n: nat)
    ensures ToInt(Saturated(n)) == n <==> n <= INT_MAX
    ensures ToInt(Negated(n)) == n <==> n == 0
  {
    if 0 < n <= INT_MAX {
      assert Negated(n) == ULONG_MAX + 1 - n;
      assert Negated(n) % 0x1_0000_0000 == 0x1_0000_0000 - n;
    }
  }

  /** The number behind a base name is read back exactly when it fits into an int
      and the base has two characters at least, or is one that `strtoul` passes
      over. The base alone is a whole device exactly if it is not too short. */
  lemma VolumeNumberRoundTrip(base: string, n: nat)
    requires base != "" && !IsDigit(base[0]) && !IsDigit(base[|base| - 1])
    ensures VolumeNumber(base + Decimal(n)) == n <==>
            n <= INT_MAX && (|base| >= 2 || base == "+" || IsSpace(base[0]) || (base == "-" && n == 0))
    ensures VolumeNumber(base) == 0 <==> |base| >= 2
  {
    hide VolumeNumber, ToInt, Saturated, Negated;
    ToIntExact(n);
    if |base| >= 2 {
      VolumeNumberOfName(base, n);
    } else {
      VolumeNumberOfLetter(base, n);
      assert base == "-" ==> base[0] == '-';
    }
  }

  /** A number is refused exactly if its lower 32 bits are negative as an int or it does
      not even fit into an unsigned long; a minus sign turns it around, and other single
      characters are never passed over. All other numbers are taken, whether they fit
      into an int or not. */
  lemma {:induction false} NumberRefusedIff(base: string, n: nat)
    requires base != "" && !IsDigit(base[0]) && !IsDigit(base[|base| - 1])
    ensures VolumeNumber(base + Decimal(n)) < 0 <==>
            if |base| >= 2 || base == "+" || IsSpace(base[0]) then n > ULONG_MAX || n % 0x1_0000_0000 > INT_MAX
            else if base == "-" then n > ULONG_MAX || 0 < n % 0x1_0000_0000 <= INT_MAX + 1
            else true
  {
    hide VolumeNumber;
    if |base| >= 2 {
      VolumeNumberOfName(base, n);
    } else {
      VolumeNumberOfLetter(base, n);
      assert base == "-" ==> base[0] == '-';
      NegatedLow(n);
    }
  }

  lemma NegatedLow(n: nat)
    ensures ToInt(Negated(n)) < 0 <==> n > ULONG_MAX || 0 < n % 0x1_0000_0000 <= INT_MAX + 1
  {
    var m := n % 0x1_0000_0000;
    if 0 < n <= ULONG_MAX {
      assert Negated(n) == 0x1_0000_0000 * (0xFFFF_FFFF - n / 0x1_0000_0000) + (0x1_0000_0000 - m);
      if m > 0 {
        assert Negated(n) % 0x1_0000_0000 == 0x1_0000_0000 - m;
      } else {
        assert Negated(n) == 0x1_0000_0000 * (0x1_0000_0000 - n / 0x1_0000_0000);
        assert Negated(n) % 0x1_0000_0000 == 0;
      }
    }
  }

  lemma DigitBehind(n: nat, d: nat, numeral: string)
    requires n > 0 && d < 10 && Decimal(n) == numeral
    ensures Decimal(10 * n + d) == numeral + [DigitChar(d)]
  {
  }

  lemma {:induction false} HugeNumerals()
    ensures Decimal(0x1_0000_0000) == "4294967296" && Decimal(0x1_0000_0001) == "4294967297"
  {
    assert Decimal(4) == "4";
    hide Decimal;
    DigitBehind(4, 2, "4");
    DigitBehind(42, 9, "42");
    DigitBehind(429, 4, "429");
    DigitBehind(4294, 9, "4294");
    DigitBehind(42949, 6, "42949");
    DigitBehind(429496, 7, "429496");
    DigitBehind(4294967, 2, "4294967");
    DigitBehind(42949672, 9, "42949672");
    DigitBehind(429496729, 6, "429496729");
    DigitBehind(429496729, 7, "429496729");
  }

  /** Too large a number may stand for a whole device, or for another partition: behind
      a proper base name, 4294967296 is read as 0 and 4294967297 as 1. */
  lemma {:induction false} HugeNumbersTaken(base: string)
    requires |base| >= 2 && !IsDigit(base[0]) && !IsDigit(base[|base| - 1])
    ensures VolumeNumber(base + "4294967296") == 0 && VolumeNumber(base + "4294967297") == 1
  {
    hide VolumeNumber, Decimal, IsDigit;
    HugeNumerals();
    VolumeNumberOfName(base, 0x1_0000_0000);
    VolumeNumberOfName(base, 0x1_0000_0001);
  }

  // ---- Filtering of link names -----------------------------------------------

  predicate HasAllowedPrefix(name: string) {
    "usb-" <= name || "ata-" <= name
  }

  /** `name` ends in ".tmp-b", a possibly empty number, a colon and a number. */
  ghost predicate IsTemporaryName(name: string, dot: nat, colon: nat) {
    && dot + 6 <= colon < |name| - 1
    && name[dot] == '.' && name[dot + 1..dot + 6] == "tmp-b"
    && AllDigits(name[dot + 6..colon]) && name[colon] == ':' && AllDigits(name[colon + 1..])
  }

  ghost predicate IsTemporary(name: string) {
    exists i, j :: IsTemporaryName(name, i, j)
  }

  ghost predicate Acceptable(name: string, checkForTempfiles: bool) {
    var n := if checkForTempfiles then BaseName(name) else name;
    HasAllowedPrefix(n) && (checkForTempfiles ==> !IsTemporary(n))
  }

  /** The name is a temporary one: it ends in ".tmp-b", a possibly empty number, a colon
      and a number. */
  ghost predicate EndsTemporarily(name: string) {
    exists front, x, y :: name == front + ".tmp-b" + x + ":" + y && AllDigits(x) && AllDigits(y) && y != ""
  }

  /** Which links are accepted, by the last part of their names. */
  lemma {:induction false} AcceptableIff(directory: string, name: string)
    requires '/' !in name
    ensures Acceptable(directory + "/" + name, true) <==>
            ("usb-" <= name || "ata-" <= name) && !EndsTemporarily(name)
    ensures Acceptable(name, false) <==> "usb-" <= name || "ata-" <= name
  {
    hide BaseName, EndsTemporarily, IsTemporary;
    BaseNameIs(directory, name);
    TemporaryIff(name);
  }

  lemma {:induction false} TemporaryIff(name: string)
    ensures IsTemporary(name) <==> EndsTemporarily(name)
  {
    hide IsTemporaryName, AllDigits;
    if i: nat, j: nat :| IsTemporaryName(name, i, j) {
      TemporaryParts(name, i, j);
      assert name == name[..i] + ".tmp-b" + name[i + 6..j] + ":" + name[j + 1..];
    }
    if front, x, y :| name == front + ".tmp-b" + x + ":" + y && AllDigits(x) && AllDigits(y) && y != "" {
      TemporaryFromParts(name, front, x, y);
    }
  }

  lemma {:induction false} TemporaryParts(name: string, i: nat, j: nat)
    requires IsTemporaryName(name, i, j)
    ensures i + 6 <= j < |name| - 1 && AllDigits(name[i + 6..j]) && AllDigits(name[j + 1..])
    ensures name == name[..i] + ".tmp-b" + name[i + 6..j] + ":" + name[j + 1..]
  {
    hide AllDigits;
    assert name[i..i + 6] == [name[i]] + name[i + 1..i + 6] == ".tmp-b";
    assert name[j..] == [name[j]] + name[j + 1..] == ":" + name[j + 1..];
    assert name == name[..i] + name[i..i + 6] + name[i + 6..j] + name[j..];
  }

  lemma {:induction false} TemporaryFromParts(name: string, front: string, x: string, y: string)
    requires name == front + ".tmp-b" + x + ":" + y && AllDigits(x) && AllDigits(y) && y != ""
    ensures IsTemporaryName(name, |front|, |front| + 6 + |x|)
  {
    hide AllDigits;
    var i, j := |front|, |front| + 6 + |x|;
    assert name[i..i + 6] == ".tmp-b" && name[i] == name[i..i + 6][0];
    assert name[i + 1..i + 6] == name[i..i + 6][1..];
    assert ".tmp-b"[1..] == "tmp-b";
    assert name[i + 6..j] == x && name[j] == ':' && name[j + 1..] == y;
  }

  lemma TemporaryNameDigits(n: string, i: nat, j: nat)
    requires IsTemporaryName(n, i, j)
    ensures forall k :: i + 6 <= k < j ==> IsDigit(n[k])
    ensures forall k :: j < k < |n| ==> IsDigit(n[k])
  {
    forall k | i + 6 <= k < j ensures IsDigit(n[k]) {
      assert n[i + 6..j][k - i - 6] == n[k];
    }
    SuffixDigits(n, j + 1);
  }

  lemma TemporaryNameIsLast(n: string, i: nat, j: nat)
    requires IsTemporaryName(n, i, j)
    ensures LastIndex(n, '.') == i && "tmp-b" <= n[i + 1..]
  {
    TemporaryNameDigits(n, i, j);
    assert n[i + 1..][..5] == n[i + 1..i + 6];
    forall k | i < k < |n| ensures n[k] != '.' {
      if k < i + 6 {
        assert n[i + 1..i + 6][k - i - 1] == n[k];
        assert "tmp-b"[k - i - 1] != '.';
      }
    }
    LastIndexIs(n, '.', i);
  }

  method SkipDigits(s: string, from: nat) returns (k: nat)
    requires from <= |s|
    ensures from <= k <= |s| && AllDigits(s[from..k])
    ensures forall j :: from <= j < k ==> IsDigit(s[j])
    ensures k < |s| ==> !IsDigit(s[k])
  {
    k := from;
    while k < |s| && IsDigit(s[k])
      invariant from <= k <= |s| && AllDigits(s[from..k])
      invariant forall j :: from <= j < k ==> IsDigit(s[j])
    {
      assert s[from..k + 1] == s[from..k] + [s[k]];
      k := k + 1;
    }
  }

  method IsDeviceNameAcceptable(deviceName: string, checkForTempfiles: bool) returns (ok: bool)
    ensures ok <==> Acceptable(deviceName, checkForTempfiles)
  {
    var name := deviceName;
    if checkForTempfiles {
      var temp := LastIndex(name, '/');
      if temp >= 0 {
        name := name[temp + 1..];
      }
      assert name == BaseName(deviceName);
    }
    if !HasAllowedPrefix(name) {
      return false;
    }
    if !checkForTempfiles {
      return true;
    }
    ok := IsNotTemporary(name);
  }

  method IsNotTemporary(name: string) returns (ok: bool)
    ensures ok <==> !IsTemporary(name)
  {
    var s := LastIndex(name, '.');
    forall i: nat, j: nat | IsTemporaryName(name, i, j)
      ensures i == s && "tmp-b" <= name[s + 1..]
    {
      TemporaryNameIsLast(name, i, j);
    }
    if s < 0 {
      return true;
    }
    if !("tmp-b" <= name[s + 1..]) {
      return true;
    }
    assert name[s + 1..][..5] == "tmp-b";
    assert name[s + 1..s + 6] == name[s + 1..][..5];
    var colon := SkipDigits(name, s + 6);
    forall i: nat, j: nat | IsTemporaryName(name, i, j) ensures j == colon {
      TemporaryNameIsLast(name, i, j);
      TemporaryNameDigits(name, i, j);
    }
    if colon == |name| || name[colon] != ':' {
      return true;
    }
    var end := SkipDigits(name, colon + 1);
    if i, j :| IsTemporaryName(name, i, j) {
      TemporaryNameIsLast(name, i, j);
      TemporaryNameDigits(name, i, j);
      assert end == |name|;
    }
    ok := end == colon + 1 || end != |name|;
    if !ok {
      assert name[colon + 1..end] == name[colon + 1..];
      assert IsTemporaryName(name, s, colon);
    }
  }
}
