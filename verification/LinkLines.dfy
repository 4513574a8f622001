/** From the device a file system is mounted from to the links of its device and of
    its volume: reading what `findmnt` and `udevadm --query symlink` print. */
module LinkLines {
  import opened Text
  import opened Names
  import opened Udev

  // ---- Links in a line ---------------------------------------------------------------

  const LINK_PREFIX: string := "/dev/disk/by-id/"

  predicate EndsToken(c: char) {
    c == ' ' || c == '\n'
  }

  /** End of the token which `k` is part of. */
  function TokenEnd(s: string, k: nat): (e: nat)
    requires k <= |s|
    ensures k <= e <= |s| && (e < |s| ==> EndsToken(s[e]))
    ensures forall j :: k <= j < e ==> !EndsToken(s[j])
    decreases |s| - k
  {
    if k == |s| || EndsToken(s[k]) then k else TokenEnd(s, k + 1)
  }

  /** A token of the rest of the line at `from` starts at `k` and is a link. */
  predicate IsLinkAt(s: string, from: nat, k: nat) {
    && from <= k < |s| && LINK_PREFIX <= s[k..TokenEnd(s, k)]
    && (k == from || s[k - 1] == ' ')
    && forall j :: from <= j < k ==> s[j] != '\n'
  }

  /** `link` is the first link in the rest of the line at `from`, "" if there is none. */
  ghost predicate IsFirstLink(s: string, from: nat, link: string) {
    if link == "" then forall k :: !IsLinkAt(s, from, k)
    else
      exists k: nat ::
        IsLinkAt(s, from, k) && link == s[k..TokenEnd(s, k)] && forall j :: 0 <= j < k ==> !IsLinkAt(s, from, j)
  }

  lemma FirstLinkIsUnique(s: string, from: nat, link: string)
    requires IsFirstLink(s, from, link)
    ensures forall x :: IsFirstLink(s, from, x) <==> x == link
  {
  }

  /** The first link of a line is found behind tokens that are none. */
  lemma {:induction false} LinkIsFound(name: string, rest: string)
    requires ' ' !in name && '\n' !in name
    ensures IsFirstLink("/dev/disk/by-id/" + name + " " + rest, 0, "/dev/disk/by-id/" + name)
  {
    var link := "/dev/disk/by-id/" + name;
    var s := link + " " + rest;
    assert forall k :: 0 <= k < |link| ==> s[k] == link[k];
    assert ' ' !in "/dev/disk/by-id/" && '\n' !in "/dev/disk/by-id/";
    TokenEndIs(s, 0, |link|);
    assert s[0..|link|] == link;
    assert IsLinkAt(s, 0, 0);
  }

  /** Skips the rest of a token and the newline behind it, if there is one. */
  method SkipToken(s: string, offset: nat) returns (offset': nat, endOfToken: nat, endOfLine: bool)
    requires offset <= |s|
    ensures endOfToken == TokenEnd(s, offset)
    ensures endOfLine <==> endOfToken == |s| || s[endOfToken] == '\n'
    ensures offset' == if endOfToken < |s| && s[endOfToken] == '\n' then endOfToken + 1 else endOfToken
  {
    offset' := offset;
    while offset' < |s| && s[offset'] != ' ' && s[offset'] != '\n'
      invariant offset <= offset' <= |s| && TokenEnd(s, offset) == TokenEnd(s, offset')
    {
      offset' := offset' + 1;
    }
    endOfToken := offset';
    if offset' >= |s| {
      return offset', endOfToken, true;
    }
    if s[offset'] == '\n' {
      offset' := offset' + 1;
      return offset', endOfToken, true;
    }
    endOfLine := false;
  }

  method SkipSpaces(s: string, offset: nat) returns (k: nat)
    requires offset <= |s|
    ensures offset <= k <= |s| && (k < |s| ==> s[k] != ' ')
    ensures forall j :: offset <= j < k ==> s[j] == ' '
  {
    k := offset;
    while k < |s| && s[k] == ' '
      invariant offset <= k <= |s| && forall j :: offset <= j < k ==> s[j] == ' '
    {
      k := k + 1;
    }
  }

  /** How much of the prefix the text at `k` agrees with. */
  method MatchPrefix(s: string, k: nat) returns (i: nat)
    requires k + |LINK_PREFIX| <= |s|
    ensures i <= |LINK_PREFIX| && s[k..k + i] == LINK_PREFIX[..i]
    ensures i < |LINK_PREFIX| ==> s[k + i] != LINK_PREFIX[i]
  {
    i := 0;
    assert s[k..k] == "";
    while i < |LINK_PREFIX| && LINK_PREFIX[i] == s[k + i]
      invariant i <= |LINK_PREFIX| && s[k..k + i] == LINK_PREFIX[..i]
    {
      assert s[k..k + i + 1] == s[k..k + i] + [s[k + i]];
      assert LINK_PREFIX[..i + 1] == LINK_PREFIX[..i] + [LINK_PREFIX[i]];
      i := i + 1;
    }
  }

  lemma {:induction false} TokenEndIs(s: string, k: nat, e: nat)
    requires k <= e <= |s| && (e < |s| ==> EndsToken(s[e])) && forall j :: k <= j < e ==> !EndsToken(s[j])
    ensures TokenEnd(s, k) == e
    decreases e - k
  {
    if k < e {
      TokenEndIs(s, k + 1, e);
    }
  }

  /** What agrees with the prefix is within one token. */
  lemma PrefixIsWithinToken(s: string, k: nat, i: nat)
    requires i <= |LINK_PREFIX| && k + i <= |s| && s[k..k + i] == LINK_PREFIX[..i]
    ensures TokenEnd(s, k) == TokenEnd(s, k + i)
    ensures forall j :: k <= j < k + i ==> !EndsToken(s[j])
  {
    forall j | k <= j < k + i ensures !EndsToken(s[j]) {
      assert s[k..k + i][j - k] == LINK_PREFIX[..i][j - k] == LINK_PREFIX[j - k];
    }
    TokenEndIs(s, k, TokenEnd(s, k + i));
  }

  /** No link starts where the prefix is not met, nor anywhere in such a token. */
  lemma NoLinkInToken(s: string, from: nat, k: nat, i: nat)
    requires from <= k && k + |LINK_PREFIX| <= |s| && i < |LINK_PREFIX|
    requires s[k..k + i] == LINK_PREFIX[..i] && s[k + i] != LINK_PREFIX[i]
    ensures forall j :: k <= j <= TokenEnd(s, k) ==> !IsLinkAt(s, from, j)
  {
    var e := TokenEnd(s, k);
    assert i < e - k ==> s[k..e][i] == s[k + i];
  }

  lemma NoLinkAtSpaces(s: string, from: nat, k: nat, k': nat)
    requires k <= k' <= |s| && forall j :: k <= j < k' ==> s[j] == ' '
    ensures forall j :: k <= j < k' ==> !IsLinkAt(s, from, j)
  {
  }

  /** Between `from` and `k` there are only tokens of one line, none of them a link. */
  ghost predicate Passed(s: string, from: nat, k: nat) {
    && from <= k <= |s|
    && (forall j :: from <= j < k ==> s[j] != '\n')
    && forall j :: 0 <= j < k ==> !IsLinkAt(s, from, j)
  }

  lemma NothingPassed(s: string, from: nat)
    requires from <= |s|
    ensures Passed(s, from, from)
  {
  }

  lemma NoLinkInShortRest(s: string, from: nat, k: nat)
    requires Passed(s, from, k) && |s| - k < |LINK_PREFIX|
    ensures IsFirstLink(s, from, "")
  {
  }

  lemma NoLinkBehindLine(s: string, from: nat, k: nat)
    requires Passed(s, from, k) && (k < |s| ==> s[k] == '\n')
    ensures IsFirstLink(s, from, "")
    ensures LineEnd(s, from) == if k < |s| then k + 1 else k
  {
    LineEndIs(s, from, k);
  }

  lemma SpacesPassed(s: string, from: nat, k: nat, k': nat)
    requires Passed(s, from, k) && k <= k' <= |s| && forall j :: k <= j < k' ==> s[j] == ' '
    ensures Passed(s, from, k')
  {
    NoLinkAtSpaces(s, from, k, k');
  }

  lemma TokenPassed(s: string, from: nat, k: nat, i: nat)
    requires Passed(s, from, k) && k + |LINK_PREFIX| <= |s| && i < |LINK_PREFIX|
    requires s[k..k + i] == LINK_PREFIX[..i] && s[k + i] != LINK_PREFIX[i]
    ensures Passed(s, from, TokenEnd(s, k + i))
  {
    PrefixIsWithinToken(s, k, i);
    NoLinkInToken(s, from, k, i);
  }

  /** Takes the first link from the line at `offset` and goes on to the next line,
      unless too little is left to contain a link. */
  method ParseDeviceLinkFromLine(s: string, offset: nat) returns (link: string, offset': nat)
    requires offset <= |s|
    ensures forall x :: IsFirstLink(s, offset, x) <==> x == link
    ensures offset' == LineEnd(s, offset) || (link == "" && |s| - |LINK_PREFIX| < offset' <= |s|)
  {
    hide IsLinkAt, IsFirstLink, TokenEnd, LineEnd, Passed;
    offset' := offset;
    NothingPassed(s, offset);
    while offset' < |s|
      invariant offset <= offset' <= |s| && Passed(s, offset, offset')
      invariant offset == offset' || (offset' < |s| && s[offset'] == ' ')
      decreases |s| - offset'
    {
      var start := SkipSpaces(s, offset');
      SpacesPassed(s, offset, offset', start);
      offset' := start;
      if |s| - start < |LINK_PREFIX| {
        NoLinkInShortRest(s, offset, start);
        FirstLinkIsUnique(s, offset, "");
        return "", offset';
      }
      var i := MatchPrefix(s, start);
      var endOfToken, endOfLine;
      offset', endOfToken, endOfLine := SkipToken(s, start + i);
      if i != |LINK_PREFIX| {
        TokenPassed(s, offset, start, i);
        if endOfLine {
          NoLinkBehindLine(s, offset, endOfToken);
          FirstLinkIsUnique(s, offset, "");
          return "", offset';
        }
        continue;
      }
      LinkFound(s, offset, start);
      FirstLinkIsUnique(s, offset, s[start..endOfToken]);
      if endOfLine {
        LineEndIs(s, offset, endOfToken);
      } else {
        offset' := SkipRestOfLine(s, offset, offset');
      }
      return s[start..endOfToken], offset';
    }
    link := "";
    NoLinkBehindLine(s, offset, |s|);
    FirstLinkIsUnique(s, offset, "");
  }

  lemma LinkFound(s: string, from: nat, k: nat)
    requires from <= k && k + |LINK_PREFIX| <= |s| && s[k..k + |LINK_PREFIX|] == LINK_PREFIX[..|LINK_PREFIX|]
    requires k == from || s[k - 1] == ' '
    requires Passed(s, from, k)
    ensures IsFirstLink(s, from, s[k..TokenEnd(s, k)])
    ensures TokenEnd(s, k) == TokenEnd(s, k + |LINK_PREFIX|)
    ensures forall j :: from <= j < TokenEnd(s, k) ==> s[j] != '\n'
  {
    PrefixIsWithinToken(s, k, |LINK_PREFIX|);
    assert LINK_PREFIX[..|LINK_PREFIX|] == LINK_PREFIX;
    assert s[k..TokenEnd(s, k)][..|LINK_PREFIX|] == s[k..k + |LINK_PREFIX|];
    assert IsLinkAt(s, from, k);
  }

  /** Skips all tokens up to the end of the line that contains `from`. */
  method SkipRestOfLine(s: string, from: nat, offset: nat) returns (offset': nat)
    requires from <= offset < |s| && s[offset] == ' '
    requires forall j :: from <= j < offset ==> s[j] != '\n'
    ensures offset' == LineEnd(s, from)
  {
    offset' := offset;
    var endOfLine := false;
    while !endOfLine
      invariant offset <= offset' <= |s|
      invariant endOfLine ==> offset' == LineEnd(s, from)
      invariant !endOfLine ==> offset' < |s| && s[offset'] == ' ' && forall j :: from <= j < offset' ==> s[j] != '\n'
      decreases |s| - offset', !endOfLine
    {
      hide TokenEnd, LineEnd;
      offset' := SkipSpaces(s, offset');
      var e;
      offset', e, endOfLine := SkipToken(s, offset');
      if endOfLine {
        LineEndIs(s, from, e);
      }
    }
  }

  lemma LineEndIs(s: string, from: nat, e: nat)
    requires from <= e <= |s| && (e < |s| ==> s[e] == '\n') && forall j :: from <= j < e ==> s[j] != '\n'
    ensures LineEnd(s, from) == if e < |s| then e + 1 else e
  {
    FindIs(s, '\n', from, e);
  }

  /** The links of the device and of the volume: the first ones of the first two
      lines; there are none unless both lines contain one. */
  method GetDeviceLinks(output: string) returns (ok: bool, first: string, second: string)
    ensures exists x, y :: IsFirstLink(output, 0, x) && IsFirstLink(output, LineEnd(output, 0), y)
              && (ok <==> x != "" && y != "")
              && (first, second) == if ok then (x, y) else ("", "")
  {
    var offset;
    first, offset := ParseDeviceLinkFromLine(output, 0);
    ghost var x := first;
    ghost var y: string := "";
    ghost var next := offset;
    second, offset := ParseDeviceLinkFromLine(output, offset);
    if next == LineEnd(output, 0) {
      y := second;
    } else {
      // Too little was left of the output; the first line had no link.
      y := FirstLinkExists(output, LineEnd(output, 0));
    }
    assert IsFirstLink(output, 0, x) && IsFirstLink(output, LineEnd(output, 0), y);
    if first == "" || second == "" {
      first, second := "", "";
    }
    ok := first != "";
  }

  lemma {:induction false} FirstLinkFrom(s: string, from: nat, k: nat) returns (link: string)
    requires from <= k <= |s| && forall j :: 0 <= j < k ==> !IsLinkAt(s, from, j)
    ensures IsFirstLink(s, from, link)
    decreases |s| - k
  {
    if k == |s| {
      link := "";
    } else if IsLinkAt(s, from, k) {
      link := s[k..TokenEnd(s, k)];
    } else {
      link := FirstLinkFrom(s, from, k + 1);
    }
  }

  lemma FirstLinkExists(s: string, from: nat) returns (link: string)
    requires from <= |s|
    ensures IsFirstLink(s, from, link)
  {
    link := FirstLinkFrom(s, from, from);
  }

  // ---- Device and volume names -------------------------------------------------------

  /** `output` is the name of a volume and newlines. */
  predicate IsVolumeName(output: string, volume: string) {
    && volume <= output
    && (forall k :: |volume| <= k < |output| ==> output[k] == '\n')
    && (volume != "" ==> volume[|volume| - 1] != '\n')
  }

  /** `volume` is the name of a device and digits. */
  predicate IsDeviceName(volume: string, device: string) {
    && device <= volume && AllDigits(volume[|device|..])
    && (device != "" ==> !IsDigit(device[|device| - 1]))
  }

  /** What is stripped from the volume name restores it, and nothing else would. */
  method GetDeviceAndVolumeDevnames(output: string) returns (ok: bool, device: string, volume: string)
    ensures IsVolumeName(output, volume) && IsDeviceName(volume, device)
    ensures device + volume[|device|..] == volume
    ensures ok <==> device != ""
  {
    device := output;
    while device != "" && device[|device| - 1] == '\n'
      invariant device <= output && forall k :: |device| <= k < |output| ==> output[k] == '\n'
      decreases |device|
    {
      device := device[..|device| - 1];
    }
    volume := device;
    while device != "" && IsDigit(device[|device| - 1])
      invariant device <= volume && AllDigits(volume[|device|..])
      decreases |device|
    {
      assert volume[|device| - 1..] == [device[|device| - 1]] + volume[|device|..];
      device := device[..|device| - 1];
    }
    ok := device != "";
  }

  lemma VolumeNameIsUnique(output: string, v: string, w: string)
    requires IsVolumeName(output, v) && IsVolumeName(output, w)
    ensures v == w
  {
    assert v != "" ==> output[|v| - 1] != '\n';
    assert w != "" ==> output[|w| - 1] != '\n';
  }

  lemma DeviceNameIsUnique(volume: string, d: string, e: string)
    requires IsDeviceName(volume, d) && IsDeviceName(volume, e)
    ensures d == e
  {
    SuffixDigits(volume, |d|);
    SuffixDigits(volume, |e|);
    assert d != "" ==> !IsDigit(volume[|d| - 1]);
    assert e != "" ==> !IsDigit(volume[|e| - 1]);
  }

  /** Round trip: printing a number behind a device name, and newlines behind that,
      is undone by the stripping; the device counts as a whole one, and the number of
      the volume is read back, if the number fits into an int and the name is proper. */
  lemma {:induction false} StrippingUndoesPrinting(base: string, n: nat, device: string, volume: string)
    requires base != "" && !IsDigit(base[|base| - 1]) && base[|base| - 1] != '\n'
    requires IsVolumeName(base + Decimal(n) + "\n", volume) && IsDeviceName(volume, device)
    ensures volume == base + Decimal(n) && device == base
    ensures |base| >= 2 && !IsDigit(base[0]) ==>
              VolumeNumber(device) == 0 && (VolumeNumber(volume) == n <==> n <= INT_MAX)
  {
    hide VolumeNumber, Decimal, Value;
    var v := base + Decimal(n);
    assert v[|v| - 1] == Decimal(n)[|Decimal(n)| - 1];
    assert IsVolumeName(v + "\n", v);
    VolumeNameIsUnique(v + "\n", volume, v);
    assert v[|base|..] == Decimal(n);
    DeviceNameIsUnique(v, device, base);
    if |base| >= 2 && !IsDigit(base[0]) {
      VolumeNumberRoundTrip(base, n);
    }
  }
}
