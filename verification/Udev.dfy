/** Reading what `udevadm` prints about block devices. */
module Udev {
  import opened Option
  import opened Text

  // ---- Lines and assignments -----------------------------------------------------

  /** Position of the first `c` in `s` at or behind `from`, or the end of `s`. */
  function Find(s: string, c: char, from: nat): (k: nat)
    requires from <= |s|
    ensures from <= k <= |s|
    ensures k < |s| ==> s[k] == c
    ensures forall j :: from <= j < k ==> s[j] != c
    decreases |s| - from
  {
    if from == |s| || s[from] == c then from else Find(s, c, from + 1)
  }

  lemma {:induction false} FindIs(s: string, c: char, from: nat, k: nat)
    requires from <= k <= |s| && (k < |s| ==> s[k] == c) && forall j :: from <= j < k ==> s[j] != c
    ensures Find(s, c, from) == k
    decreases k - from
  {
    if from < k {
      FindIs(s, c, from + 1, k);
    }
  }

  method SkipTo(s: string, c: char, from: nat) returns (k: nat)
    requires from <= |s|
    ensures k == Find(s, c, from)
  {
    k := from;
    while k < |s| && s[k] != c
      invariant from <= k <= |s| && forall j :: from <= j < k ==> s[j] != c
    {
      k := k + 1;
    }
    FindIs(s, c, from, k);
  }

  method SkipLine(s: string, from: nat) returns (k: nat)
    requires from <= |s|
    ensures k == LineEnd(s, from)
  {
    k := SkipTo(s, '\n', from);
    if k < |s| {
      k := k + 1;
    }
  }

  function LineEnd(s: string, from: nat): (k: nat)
    requires from <= |s|
    ensures from <= k <= |s| && (from < |s| ==> from < k)
  {
    var k := Find(s, '\n', from);
    if k < |s| then k + 1 else k
  }

  /** The lines of `s` from `from` on, each with its newline. */
  function LinesFrom(s: string, from: nat): seq<string>
    requires from <= |s|
    decreases |s| - from
  {
    if from == |s| then [] else [s[from..LineEnd(s, from)]] + LinesFrom(s, LineEnd(s, from))
  }

  predicate IsAssignment(a: string) {
    Find(a, '=', 0) < |a|
  }

  function KeyOf(a: string): string {
    a[..Find(a, '=', 0)]
  }

  /** The text between the equals sign and the end of the line. */
  function ValueOf(a: string): string
    requires IsAssignment(a)
  {
    var k := Find(a, '=', 0);
    a[k + 1..Find(a, '\n', k + 1)]
  }

  method CopyAssignedValue(a: string, beginningOfValue: nat) returns (v: string)
    requires beginningOfValue < |a| && a[beginningOfValue] == '='
    ensures v == a[beginningOfValue + 1..Find(a, '\n', beginningOfValue + 1)]
  {
    var beyondValue := SkipTo(a, '\n', beginningOfValue);
    FindIs(a, '\n', beginningOfValue + 1, beyondValue);
    v := a[beginningOfValue + 1..beyondValue];
  }

  /** Comparing `key` with `name` over the length of `key` only. */
  predicate KeyMatches(key: string, name: string) {
    key <= name
  }

  // ---- Choosing a UUID -----------------------------------------------------------

  /** From worst to best: none, partition table, partition entry, file system. */
  type Rank = r: nat | r <= 3

  function UuidRank(key: string): Rank {
    if KeyMatches(key, "ID_PART_TABLE_UUID") then 1
    else if KeyMatches(key, "ID_PART_ENTRY_UUID") then 2
    else if KeyMatches(key, "ID_FS_UUID") then 3
    else 0
  }

  /** The rank that the name of a UUID is meant to stand for. */
  function RankByName(key: string): Rank {
    if key == "ID_PART_TABLE_UUID" then 1
    else if key == "ID_PART_ENTRY_UUID" then 2
    else if key == "ID_FS_UUID" then 3
    else 0
  }

  const UUID_NAMES := {"ID_PART_TABLE_UUID", "ID_PART_ENTRY_UUID", "ID_FS_UUID"}

  datatype Choice = Choice(uuid: string, rank: Rank)

  datatype Candidate = Candidate(value: string, rank: Rank)

  /** The UUID, if any, that an assignment offers. */
  function Offer(a: string): seq<Candidate> {
    if IsAssignment(a) && UuidRank(KeyOf(a)) > 0 then [Candidate(ValueOf(a), UuidRank(KeyOf(a)))] else []
  }

  function Choose(c: Choice, x: Candidate): Choice {
    if x.rank <= c.rank then c else Choice(x.value, if x.value == "" then c.rank else x.rank)
  }

  datatype ParseUuidResult = BadInput | SkippedOtherKey | SkippedEmpty | SkippedWorseUuid | Success

  method TryParseUuid(a: string, choice: Choice) returns (r: ParseUuidResult, c: Choice)
    ensures r == BadInput <==> !IsAssignment(a)
    ensures r == SkippedOtherKey <==> IsAssignment(a) && Offer(a) == []
    ensures Offer(a) == [] ==> c == choice
    ensures Offer(a) != [] ==> c == Choose(choice, Offer(a)[0])
    ensures r == SkippedWorseUuid ==> c == choice
    ensures r == SkippedEmpty <==> Offer(a) != [] && choice.rank < Offer(a)[0].rank && Offer(a)[0].value == ""
    ensures r == Success <==> c.rank > choice.rank
  {
    c := choice;
    var beyondKey := SkipTo(a, '=', 0);
    if beyondKey >= |a| {
      return BadInput, c;
    }
    var key := a[..beyondKey];
    var rank: Rank := 0;
    if KeyMatches(key, "ID_PART_TABLE_UUID") {
      rank := 1;
    } else if KeyMatches(key, "ID_PART_ENTRY_UUID") {
      rank := 2;
    } else if KeyMatches(key, "ID_FS_UUID") {
      rank := 3;
    } else {
      return SkippedOtherKey, c;
    }
    if choice.rank >= rank {
      return SkippedWorseUuid, c;
    }
    var uuid := CopyAssignedValue(a, beyondKey);
    c := Choice(uuid, choice.rank);
    if uuid == "" {
      return SkippedEmpty, c;
    }
    c := Choice(uuid, rank);
    r := Success;
  }

  function ChooseAll(c: Choice, xs: seq<Candidate>): Choice {
    if xs == [] then c else Choose(ChooseAll(c, xs[..|xs| - 1]), xs[|xs| - 1])
  }

  /** Nothing chosen yet, whatever UUID an earlier attempt has left behind. */
  function NoChoice(left: string): Choice {
    Choice(left, 0)
  }

  /** `j` is where the best usable UUID is offered first. */
  predicate IsBest(xs: seq<Candidate>, j: nat) {
    && j < |xs| && xs[j].value != "" && xs[j].rank > 0
    && (forall k :: 0 <= k < |xs| && xs[k].value != "" ==> xs[k].rank <= xs[j].rank)
    && (forall k :: 0 <= k < j && xs[k].value != "" ==> xs[k].rank < xs[j].rank)
  }

  /** An empty value of higher rank follows the best UUID. */
  predicate Spoiled(xs: seq<Candidate>, j: nat)
    requires j < |xs|
  {
    exists k :: j < k < |xs| && xs[k].rank > xs[j].rank
  }

  /** The rank of the choice is the best rank offered with a value; the chosen UUID
      is the first of that rank exactly if no empty value of higher rank follows. */
  lemma {:induction false} BestIsChosen(left: string, xs: seq<Candidate>, j: nat)
    requires IsBest(xs, j)
    ensures var c := ChooseAll(NoChoice(left), xs);
            c.rank == xs[j].rank && c.uuid == (if Spoiled(xs, j) then "" else xs[j].value)
  {
    var n := |xs| - 1;
    var c := ChooseAll(NoChoice(left), xs[..n]);
    if j < n {
      assert xs[..n][j] == xs[j];
      assert IsBest(xs[..n], j);
      BestIsChosen(left, xs[..n], j);
      assert Spoiled(xs, j) <==> Spoiled(xs[..n], j) || xs[n].rank > xs[j].rank by {
        if k :| j < k < |xs| && xs[k].rank > xs[j].rank && k < n {
          assert xs[..n][k] == xs[k];
        }
        if k :| j < k < n && xs[..n][k].rank > xs[..n][j].rank {
          assert xs[k].rank > xs[j].rank;
        }
      }
    } else {
      WorseBefore(left, xs[..n], xs[j].rank);
    }
  }

  /** There is a best UUID unless nothing usable is offered at all. */
  lemma {:induction false} BestExists(xs: seq<Candidate>)
    ensures (exists j: nat :: IsBest(xs, j)) <==> exists k :: 0 <= k < |xs| && xs[k].rank > 0 && xs[k].value != ""
  {
    if xs != [] {
      var n := |xs| - 1;
      var before := xs[..n];
      BestExists(before);
      assert forall k :: 0 <= k < n ==> before[k] == xs[k];
      if j: nat :| IsBest(before, j) {
        var best: nat := if xs[n].value != "" && xs[n].rank > xs[j].rank then n else j;
        assert xs[j] == before[j] && IsBest(xs, best);
      } else if xs[n].rank > 0 && xs[n].value != "" {
        assert IsBest(xs, n);
      }
    }
  }

  lemma {:induction false} WorseBefore(left: string, xs: seq<Candidate>, rank: Rank)
    requires rank > 0 && forall k :: 0 <= k < |xs| && xs[k].value != "" ==> xs[k].rank < rank
    ensures ChooseAll(NoChoice(left), xs).rank < rank
  {
    if xs != [] {
      WorseBefore(left, xs[..|xs| - 1], rank);
    }
  }

  /** Nothing usable is offered exactly if nothing is chosen. */
  lemma {:induction false} NoneIsChosen(left: string, xs: seq<Candidate>)
    ensures ChooseAll(NoChoice(left), xs).rank == 0 <==>
            forall k :: 0 <= k < |xs| && xs[k].rank > 0 ==> xs[k].value == ""
  {
    if xs != [] {
      var n := |xs| - 1;
      NoneIsChosen(left, xs[..n]);
      assert forall k :: 0 <= k < n ==> xs[..n][k] == xs[k];
    }
  }

  function FirstOfRank(xs: seq<Candidate>, rank: Rank): Option<string> {
    if xs == [] then None
    else if xs[0].rank == rank then Some(xs[0].value)
    else FirstOfRank(xs[1..], rank)
  }

  lemma {:induction false} FirstOfRankIs(xs: seq<Candidate>, rank: Rank)
    ensures match FirstOfRank(xs, rank)
            case None => forall k :: 0 <= k < |xs| ==> xs[k].rank != rank
            case Some(v) =>
              exists k ::
                0 <= k < |xs| && xs[k] == Candidate(v, rank) && forall i :: 0 <= i < k ==> xs[i].rank != rank
  {
    if xs != [] {
      FirstOfRankIs(xs[1..], rank);
      if xs[0].rank != rank {
        assert forall k :: 0 < k < |xs| ==> xs[k] == xs[1..][k - 1];
        if FirstOfRank(xs, rank).Some? {
          var v := FirstOfRank(xs, rank).value;
          var k :| 0 <= k < |xs[1..]| && xs[1..][k] == Candidate(v, rank)
                   && forall i :: 0 <= i < k ==> xs[1..][i].rank != rank;
          assert xs[k + 1] == Candidate(v, rank);
          assert forall i :: 0 < i < k + 1 ==> xs[i] == xs[1..][i - 1];
        }
      } else {
        assert xs[0] == Candidate(xs[0].value, rank);
      }
    }
  }

  /** If no value is empty, the choice depends only on what comes first within each
      rank, not on the order of the ranks: the best rank wins. */
  lemma {:induction false} BestRankWins(left: string, xs: seq<Candidate>)
    requires forall k :: 0 <= k < |xs| ==> xs[k].value != "" && xs[k].rank > 0
    ensures ChooseAll(NoChoice(left), xs) ==
            if FirstOfRank(xs, 3).Some? then Choice(FirstOfRank(xs, 3).value, 3)
            else if FirstOfRank(xs, 2).Some? then Choice(FirstOfRank(xs, 2).value, 2)
            else if FirstOfRank(xs, 1).Some? then Choice(FirstOfRank(xs, 1).value, 1)
            else NoChoice(left)
  {
    FirstOfRankIs(xs, 1);
    FirstOfRankIs(xs, 2);
    FirstOfRankIs(xs, 3);
    var best: Rank := if FirstOfRank(xs, 3).Some? then 3 else if FirstOfRank(xs, 2).Some? then 2 else 1;
    assert xs != [] ==> FirstOfRank(xs, xs[0].rank).Some?;
    if FirstOfRank(xs, best).Some? {
      var v := FirstOfRank(xs, best).value;
      var j :| 0 <= j < |xs| && xs[j] == Candidate(v, best) && forall i :: 0 <= i < j ==> xs[i].rank != best;
      assert IsBest(xs, j);
      BestIsChosen(left, xs, j);
    }
  }

  // ---- Scanning the output line by line --------------------------------------------

  /** Lines with contents look like "X: contents". */
  predicate IsInfoLine(line: string) {
    |line| >= 4 && line[1] == ':' && line[2] == ' '
  }

  /** A line of kind `kind` with contents `a`. */
  lemma InfoLineIff(line: string, kind: char, a: string)
    requires a != ""
    ensures IsInfoLine(line) && line[0] == kind && line[3..] == a <==> line == [kind] + ": " + a
  {
    if IsInfoLine(line) {
      assert line == [line[0]] + [line[1], line[2]] + line[3..];
    }
  }

  /** The contents of the lines of kind `kind`, in order. */
  function Contents(lines: seq<string>, kind: char): seq<string> {
    if lines == [] then []
    else (if IsInfoLine(lines[0]) && lines[0][0] == kind then [lines[0][3..]] else []) + Contents(lines[1..], kind)
  }

  function Concat(lines: seq<string>): string {
    if lines == [] then "" else lines[0] + Concat(lines[1..])
  }

  /** No character is lost between the lines, and a newline ends its line. */
  lemma {:induction false} LinesPartition(s: string, from: nat)
    requires from <= |s|
    ensures Concat(LinesFrom(s, from)) == s[from..]
    ensures forall line :: line in LinesFrom(s, from) ==>
              line != "" && forall k :: 0 <= k < |line| - 1 ==> line[k] != '\n'
    decreases |s| - from
  {
    if from < |s| {
      hide Find, LineEnd;
      var next := LineEnd(s, from);
      LinesPartition(s, next);
      OneNewline(s, from);
      var lines := LinesFrom(s, from);
      assert lines == [s[from..next]] + LinesFrom(s, next);
      assert lines[1..] == LinesFrom(s, next);
      assert s[from..] == s[from..next] + s[next..];
    }
  }

  lemma OneNewline(s: string, from: nat)
    requires from < |s|
    ensures forall k :: 0 <= k < LineEnd(s, from) - from - 1 ==> s[from..LineEnd(s, from)][k] != '\n'
  {
  }

  /** All UUIDs offered, in order. */
  function Offers(assignments: seq<string>): seq<Candidate> {
    if assignments == [] then []
    else Offers(assignments[..|assignments| - 1]) + Offer(assignments[|assignments| - 1])
  }

  /** An assignment whose key passes for `name` but not for that of any UUID. */
  predicate Assigns(a: string, name: string) {
    IsAssignment(a) && Offer(a) == [] && KeyMatches(KeyOf(a), name)
  }

  /** The value assigned last to `name`, `default` if there is none. */
  function LastValue(assignments: seq<string>, name: string, default: string): string {
    if assignments == [] then default
    else
      var a := assignments[|assignments| - 1];
      if Assigns(a, name) then ValueOf(a) else LastValue(assignments[..|assignments| - 1], name, default)
  }

  /** What is assigned last counts: that is assignment `k`, or the default if `k` is -1. */
  lemma {:induction false} LastValueIs(assignments: seq<string>, name: string, default: string, k: int)
    requires -1 <= k < |assignments| && (k >= 0 ==> Assigns(assignments[k], name))
    requires forall j :: k < j < |assignments| ==> !Assigns(assignments[j], name)
    ensures LastValue(assignments, name, default) == if k >= 0 then ValueOf(assignments[k]) else default
  {
    hide Assigns, ValueOf;
    var n := |assignments| - 1;
    if k < n {
      assert !Assigns(assignments[n], name);
      LastValueIs(assignments[..n], name, default, k);
    }
  }

  // ---- Keys that are taken for others ------------------------------------------------

  const KEY_NAMES := UUID_NAMES + {"ID_FS_LABEL", "ID_FS_TYPE"}

  /** What an assignment to `key` is taken for is what its name says. */
  predicate TakenByName(a: string) {
    && (Offer(a) == if IsAssignment(a) && RankByName(KeyOf(a)) > 0
                    then [Candidate(ValueOf(a), RankByName(KeyOf(a)))] else [])
    && (Assigns(a, "ID_FS_LABEL") <==> IsAssignment(a) && KeyOf(a) == "ID_FS_LABEL")
    && (Assigns(a, "ID_FS_TYPE") <==> IsAssignment(a) && KeyOf(a) == "ID_FS_TYPE")
  }

  /** An assignment is taken for the right one exactly if its key is one of the five
      names, or not the beginning of any of them. */
  lemma {:induction false} TakenByNameIff(a: string)
    requires IsAssignment(a)
    ensures TakenByName(a) <==> KeyOf(a) in KEY_NAMES || forall name :: name in KEY_NAMES ==> !(KeyOf(a) <= name)
  {
    hide KeyOf, ValueOf, IsAssignment;
    var key := KeyOf(a);
    NamesPart(key);
    assert (forall name :: name in KEY_NAMES ==> !(key <= name)) <==>
      UuidRank(key) == 0 && !(key <= "ID_FS_LABEL") && !(key <= "ID_FS_TYPE") by {
      assert "ID_PART_TABLE_UUID" in KEY_NAMES && "ID_PART_ENTRY_UUID" in KEY_NAMES && "ID_FS_UUID" in KEY_NAMES;
      assert "ID_FS_LABEL" in KEY_NAMES && "ID_FS_TYPE" in KEY_NAMES;
    }
  }

  /** The label is what is assigned to a key from "ID_FS_L" to "ID_FS_LABEL", and the
      type correspondingly: shorter keys are taken for UUIDs. */
  lemma {:induction false} AssignsIff(a: string)
    requires IsAssignment(a)
    ensures Assigns(a, "ID_FS_LABEL") <==> "ID_FS_L" <= KeyOf(a) <= "ID_FS_LABEL"
    ensures Assigns(a, "ID_FS_TYPE") <==> "ID_FS_T" <= KeyOf(a) <= "ID_FS_TYPE"
  {
    hide KeyOf, ValueOf, IsAssignment;
    var key := KeyOf(a);
    NamesPart(key);
    Beginnings(key, "ID_FS_LABEL", "ID_FS_L");
    Beginnings(key, "ID_FS_TYPE", "ID_FS_T");
    Beginnings(key, "ID_FS_LABEL", "ID_FS_");
    Beginnings(key, "ID_FS_TYPE", "ID_FS_");
    Beginnings(key, "ID_FS_", "ID_");
  }

  /** Of two beginnings of the same name the longer one begins with the other one. */
  lemma Beginnings(x: string, name: string, y: string)
    requires y <= name
    ensures x <= name ==> if |x| <= |y| then x <= y else y <= x && !(x <= y)
    ensures x <= y ==> x <= name
  {
  }

  /** Two names have the beginnings of `common` in common, and no more. */
  lemma Parting(key: string, x: string, y: string, common: string)
    requires common <= x && common <= y
    requires |common| < |x| && |common| < |y| && x[|common|] != y[|common|]
    ensures key <= x && key <= y <==> key <= common
  {
    if |key| <= |common| {
      assert x[..|common|][..|key|] == x[..|key|] && common[..|key|] == x[..|key|];
    } else {
      assert key <= x ==> key[|common|] == x[|common|];
      assert key <= y ==> key[|common|] == y[|common|];
    }
  }

  lemma {:induction false} NamesPart(key: string)
    ensures key <= "ID_PART_TABLE_UUID" && key <= "ID_PART_ENTRY_UUID" <==> key <= "ID_PART_"
    ensures key <= "ID_FS_UUID" && key <= "ID_FS_LABEL" <==> key <= "ID_FS_"
    ensures key <= "ID_FS_UUID" && key <= "ID_FS_TYPE" <==> key <= "ID_FS_"
    ensures key <= "ID_FS_LABEL" && key <= "ID_FS_TYPE" <==> key <= "ID_FS_"
    ensures key <= "ID_PART_TABLE_UUID" && key <= "ID_FS_UUID" <==> key <= "ID_"
    ensures key <= "ID_PART_TABLE_UUID" && key <= "ID_FS_LABEL" <==> key <= "ID_"
    ensures key <= "ID_PART_TABLE_UUID" && key <= "ID_FS_TYPE" <==> key <= "ID_"
    ensures key <= "ID_PART_ENTRY_UUID" && key <= "ID_FS_UUID" <==> key <= "ID_"
    ensures key <= "ID_PART_ENTRY_UUID" && key <= "ID_FS_LABEL" <==> key <= "ID_"
    ensures key <= "ID_PART_ENTRY_UUID" && key <= "ID_FS_TYPE" <==> key <= "ID_"
  {
    Parting(key, "ID_PART_TABLE_UUID", "ID_PART_ENTRY_UUID", "ID_PART_");
    Parting(key, "ID_FS_UUID", "ID_FS_LABEL", "ID_FS_");
    Parting(key, "ID_FS_UUID", "ID_FS_TYPE", "ID_FS_");
    Parting(key, "ID_FS_LABEL", "ID_FS_TYPE", "ID_FS_");
    Parting(key, "ID_PART_TABLE_UUID", "ID_FS_UUID", "ID_");
    Parting(key, "ID_PART_TABLE_UUID", "ID_FS_LABEL", "ID_");
    Parting(key, "ID_PART_TABLE_UUID", "ID_FS_TYPE", "ID_");
    Parting(key, "ID_PART_ENTRY_UUID", "ID_FS_UUID", "ID_");
    Parting(key, "ID_PART_ENTRY_UUID", "ID_FS_LABEL", "ID_");
    Parting(key, "ID_PART_ENTRY_UUID", "ID_FS_TYPE", "ID_");
  }

  lemma OneLine(a: string)
    requires a != "" && '\n' !in a
    ensures Contents(LinesFrom("E: " + a, 0), 'E') == [a]
  {
    hide Find;
    var line := "E: " + a;
    assert '\n' !in line;
    FindIs(line, '\n', 0, |line|);
    assert line[0..|line|] == line;
    assert LinesFrom(line, |line|) == [];
    assert LinesFrom(line, 0) == [line];
    OneInfoLine(line, a);
  }

  lemma OneInfoLine(line: string, a: string)
    requires line == "E: " + a && a != ""
    ensures Contents([line], 'E') == [a]
  {
    assert line[3..] == a && [line][1..] == [];
    assert IsInfoLine(line) && line[0] == 'E';
    assert Contents([line][1..], 'E') == [];
  }

  lemma KeyAndValue(a: string, key: string, value: string, end: string)
    requires a == key + "=" + value + end && '=' !in key && '\n' !in value && (end == "" || end == "\n")
    ensures IsAssignment(a) && KeyOf(a) == key && ValueOf(a) == value
  {
    FindIs(a, '=', 0, |key|);
    assert forall k :: 0 <= k < |value| ==> a[|key| + 1 + k] == value[k];
    FindIs(a, '\n', |key| + 1, |key| + 1 + |value|);
    assert a[..|key|] == key && a[|key| + 1..|key| + 1 + |value|] == value;
  }

  lemma {:induction false} OneOffer(a: string, x: Candidate, devname: string)
    requires Offer(a) == [x] && x.rank > 0 && x.value != ""
    ensures VolumeUuid(ChooseAll(NoChoice(""), Offers([a])), -1, devname) == x.value
  {
    hide Offer, Underscored;
    assert [] + [a] == [a];
    OfferOneMore(NoChoice(""), [], a);
  }

  /** The assignment makes its value the UUID of a volume although its key is not the
      name of a UUID. */
  predicate PassesForUuid(a: string, devname: string) {
    var assignments := Contents(LinesFrom("E: " + a, 0), 'E');
    && assignments == [a] && IsAssignment(a) && !TakenByName(a)
    && VolumeUuid(Scanned(VolumeDetails(-1, "", "", ""), assignments).0, -1, devname) == ValueOf(a)
  }

  /** Every beginning of the name of the UUID of a partition table passes for it. */
  lemma {:induction false} ShortKeyPasses(key: string, value: string, devname: string)
    requires key <= "ID_PART_TABLE_UUID" && key !in UUID_NAMES && value != "" && '\n' !in value
    ensures PassesForUuid(key + "=" + value, devname)
  {
    hide Offers, Contents, LinesFrom, Underscored, KeyOf, ValueOf, IsAssignment, LastValue, VolumeUuid;
    var a := key + "=" + value;
    assert '=' !in "ID_PART_TABLE_UUID" && '\n' !in "ID_PART_TABLE_UUID";
    assert a == key + "=" + value + "";
    KeyAndValue(a, key, value, "");
    OneLine(a);
    OneOffer(a, Candidate(value, 1), devname);
  }

  /** The line "E: ID=5" sets the UUID of a volume although it assigns to something
      else, and so does "E: =5", which assigns to nothing. */
  lemma {:induction false} ShortKeysTaken(devname: string)
    ensures PassesForUuid("ID=5", devname) && PassesForUuid("=5", devname)
  {
    hide PassesForUuid;
    ShortKeyPasses("ID", "5", devname);
    assert "ID" + "=" + "5" == "ID=5";
    ShortKeyPasses("", "5", devname);
    assert "" + "=" + "5" == "=5";
  }

  lemma {:induction false} TwoLines(a: string, b: string)
    requires a != "" && '\n' !in a && b != "" && '\n' !in b
    ensures Contents(LinesFrom("E: " + a + "\n" + "E: " + b, 0), 'E') == [a + "\n", b]
  {
    hide Find, Contents;
    var first, second := "E: " + a + "\n", "E: " + b;
    var s := first + second;
    assert s == "E: " + a + "\n" + "E: " + b;
    assert forall k :: 0 <= k < |first| ==> s[k] == first[k];
    assert forall k :: |first| <= k < |s| ==> s[k] == second[k - |first|];
    FindIs(s, '\n', 0, |first| - 1);
    FindIs(s, '\n', |first|, |s|);
    assert s[0..|first|] == first && s[|first|..|s|] == second;
    assert LinesFrom(s, |s|) == [];
    assert LinesFrom(s, |first|) == [second];
    assert LinesFrom(s, 0) == [first] + [second];
    assert first == "E: " + (a + "\n");
    OneInfoLine(second, b);
    ContentsOfTwo(first, second, a + "\n");
  }

  lemma ContentsOfTwo(first: string, second: string, a: string)
    requires first == "E: " + a && a != ""
    ensures Contents([first] + [second], 'E') == [a] + Contents([second], 'E')
  {
    assert first[3..] == a && ([first] + [second])[1..] == [second];
    assert IsInfoLine(first) && first[0] == 'E';
  }

  /** An output that names no UUID of the file system, but mentions one, hides that of
      the partition: the volume ends up without any UUID. */
  lemma {:induction false} SpoiledExists(uuid: string, index: int, devname: string)
    requires uuid != "" && '\n' !in uuid
    ensures var output := "E: " + ("ID_PART_ENTRY_UUID=" + uuid) + "\n" + "E: " + "ID_FS_UUID=";
            var xs := Offers(Contents(LinesFrom(output, 0), 'E'));
            && xs == [Candidate(uuid, 2), Candidate("", 3)] && IsBest(xs, 0) && Spoiled(xs, 0)
            && VolumeUuid(ChooseAll(NoChoice(""), xs), index, devname) == ""
  {
    hide Contents, LinesFrom, Underscored, KeyOf, ValueOf, IsAssignment;
    var a, b := "ID_PART_ENTRY_UUID=" + uuid, "ID_FS_UUID=";
    TwoLines(a, b);
    SpoilingOffers(uuid, a + "\n", b);
    var xs := Offers([a + "\n", b]);
    BestIsChosen("", xs, 0);
  }

  lemma {:induction false} SpoilingOffers(uuid: string, a: string, b: string)
    requires uuid != "" && '\n' !in uuid && a == "ID_PART_ENTRY_UUID=" + uuid + "\n" && b == "ID_FS_UUID="
    ensures Offers([a, b]) == [Candidate(uuid, 2), Candidate("", 3)]
  {
    hide KeyOf, ValueOf, IsAssignment;
    NamesPart("ID_PART_ENTRY_UUID");
    NamesPart("ID_FS_UUID");
    assert a == "ID_PART_ENTRY_UUID" + "=" + uuid + "\n" && b == "ID_FS_UUID" + "=" + "" + "";
    KeyAndValue(a, "ID_PART_ENTRY_UUID", uuid, "\n");
    KeyAndValue(b, "ID_FS_UUID", "", "");
    assert [a, b][..1] == [a] && [a][..0] == [];
    assert Offers([a]) == [] + Offer(a);
  }

  function Underscored(s: string): (r: string)
    ensures |r| == |s| && forall k :: 0 <= k < |s| ==> r[k] == if s[k] == '/' then '_' else s[k]
  {
    if s == "" then "" else [if s[0] == '/' then '_' else s[0]] + Underscored(s[1..])
  }

  method ReplaceSlashes(s: string) returns (r: string)
    ensures r == Underscored(s)
  {
    r := "";
    for k := 0 to |s|
      invariant |r| == k && forall j :: 0 <= j < k ==> r[j] == if s[j] == '/' then '_' else s[j]
    {
      r := r + [if s[k] == '/' then '_' else s[k]];
    }
  }

  const PLACEHOLDER: string := "DO-NOT-STORE:"

  /** The UUID of a volume: a made up one if none was found, or if the only one
      found is that of the partition table and the volume is a partition. */
  function VolumeUuid(c: Choice, index: int, devname: string): string {
    if c.rank == 0 || (c.rank == 1 && index > 0) then PLACEHOLDER + Underscored(devname) else c.uuid
  }

  datatype VolumeDetails = VolumeDetails(index: int, uuid: string, labelText: string, fstype: string)

  /** What one assignment contributes to what is known about a volume. */
  method ScanAssignment(a: string, choice: Choice, info: VolumeDetails) returns (c: Choice, found: VolumeDetails)
    ensures c == if Offer(a) == [] then choice else Choose(choice, Offer(a)[0])
    ensures found == info.(labelText := if Assigns(a, "ID_FS_LABEL") then ValueOf(a) else info.labelText,
                           fstype := if Assigns(a, "ID_FS_TYPE") then ValueOf(a) else info.fstype)
  {
    found := info;
    var r;
    r, c := TryParseUuid(a, choice);
    if r != SkippedOtherKey {
      return;
    }
    var beyondKey := SkipTo(a, '=', 0);
    var key := a[..beyondKey];
    KeysDiffer(key);
    if KeyMatches(key, "ID_FS_LABEL") {
      var v := CopyAssignedValue(a, beyondKey);
      found := found.(labelText := v);
    } else if KeyMatches(key, "ID_FS_TYPE") {
      var v := CopyAssignedValue(a, beyondKey);
      found := found.(fstype := v);
    }
  }

  /** What is known about a volume after `assignments` have been scanned. */
  function Scanned(info: VolumeDetails, assignments: seq<string>): (Choice, VolumeDetails) {
    (ChooseAll(NoChoice(info.uuid), Offers(assignments)),
     info.(labelText := LastValue(assignments, "ID_FS_LABEL", info.labelText),
           fstype := LastValue(assignments, "ID_FS_TYPE", info.fstype)))
  }

  lemma ScannedOneMore(info: VolumeDetails, seen: seq<string>, a: string)
    ensures var (c, found) := Scanned(info, seen);
            Scanned(info, seen + [a]) ==
              (if Offer(a) == [] then c else Choose(c, Offer(a)[0]),
               found.(labelText := if Assigns(a, "ID_FS_LABEL") then ValueOf(a) else found.labelText,
                      fstype := if Assigns(a, "ID_FS_TYPE") then ValueOf(a) else found.fstype))
  {
    assert (seen + [a])[..|seen + [a]| - 1] == seen;
    OfferOneMore(NoChoice(info.uuid), seen, a);
  }

  method ParseVolumeInfo(output: string, devname: string, info: VolumeDetails)
    returns (ok: bool, found: VolumeDetails)
    ensures var (choice, scanned) := Scanned(info, Contents(LinesFrom(output, 0), 'E'));
            found == scanned.(uuid := VolumeUuid(choice, info.index, devname))
    ensures ok <==> found.uuid != "" && found.fstype != ""
  {
    var offset := 0;
    var choice := NoChoice(info.uuid);
    found := info;
    ghost var seen: seq<string> := [];
    assert (choice, found) == Scanned(info, seen);
    assert Contents(LinesFrom(output, |output|), 'E') == [];
    hide Scanned, Contents, LinesFrom, Offer, Choose, Assigns, ValueOf;
    while offset < |output|
      invariant offset <= |output|
      invariant seen + Contents(LinesFrom(output, offset), 'E') == Contents(LinesFrom(output, 0), 'E')
      invariant (choice, found) == Scanned(info, seen) && found.index == info.index
      decreases |output| - offset
    {
      var startOfLine := offset;
      offset := SkipLine(output, offset);
      var line := output[startOfLine..offset];
      ContentsStep(output, startOfLine, 'E', seen);
      if !IsInfoLine(line) || line[0] != 'E' {
        continue;
      }
      ScannedOneMore(info, seen, line[3..]);
      choice, found := ScanAssignment(line[3..], choice, found);
      seen := seen + [line[3..]];
    }
    assert seen == Contents(LinesFrom(output, 0), 'E');
    found := found.(uuid := choice.uuid);
    if choice.rank == 0 || (choice.rank == 1 && found.index > 0) {
      var name := ReplaceSlashes(devname);
      found := found.(uuid := PLACEHOLDER + name);
    }
    ok := found.uuid != "" && found.fstype != "";
  }

  lemma ContentsStep(output: string, from: nat, kind: char, seen: seq<string>)
    requires from < |output|
    ensures var next := LineEnd(output, from);
            var line := output[from..next];
            var now := if IsInfoLine(line) && line[0] == kind then seen + [line[3..]] else seen;
            now + Contents(LinesFrom(output, next), kind) == seen + Contents(LinesFrom(output, from), kind)
  {
    var next := LineEnd(output, from);
    assert LinesFrom(output, from)[1..] == LinesFrom(output, next);
  }

  lemma ChooseOne(c: Choice, xs: seq<Candidate>, ys: seq<Candidate>)
    requires |ys| <= 1
    ensures ChooseAll(c, xs + ys) == if ys == [] then ChooseAll(c, xs) else Choose(ChooseAll(c, xs), ys[0])
  {
    if ys == [] {
      assert xs + ys == xs;
    } else {
      assert (xs + ys)[..|xs + ys| - 1] == xs;
    }
  }

  /** A key that passes for the name of the label as well as of the type also
      passes for that of the UUID of the file system. */
  lemma KeysDiffer(key: string)
    ensures KeyMatches(key, "ID_FS_LABEL") && KeyMatches(key, "ID_FS_TYPE") ==> KeyMatches(key, "ID_FS_UUID")
  {
    assert "ID_FS_LABEL"[6] != "ID_FS_TYPE"[6];
  }

  /** Ranks that are worth nothing for a volume: the UUID of a partition table
      does not identify a partition. */
  function WorthlessRank(index: int): Rank {
    if index > 0 then 1 else 0
  }

  /** The UUID of a volume is the first of the best rank offered, but no partition
      ever gets the UUID of the partition table. */
  lemma {:induction false} UuidOfVolume(left: string, xs: seq<Candidate>, index: int, devname: string, j: nat)
    requires IsBest(xs, j) || forall k :: 0 <= k < |xs| && xs[k].rank > 0 ==> xs[k].value == ""
    ensures VolumeUuid(ChooseAll(NoChoice(left), xs), index, devname) ==
            if !IsBest(xs, j) || xs[j].rank <= WorthlessRank(index) then "DO-NOT-STORE:" + Underscored(devname)
            else if Spoiled(xs, j) then ""
            else xs[j].value
  {
    NoneIsChosen(left, xs);
    if IsBest(xs, j) {
      BestIsChosen(left, xs, j);
    }
  }

  // ---- USB ports -------------------------------------------------------------------

  /** At `k` starts a component "host<digit>..." of the path, not the last one. */
  predicate IsHostAt(path: string, k: nat) {
    && 1 <= k && k + 5 <= |path|
    && path[k - 1] == '/' && path[k..k + 4] == "host" && IsDigit(path[k + 4])
    && Find(path, '/', k) < |path|
  }

  /** The port is what precedes the first host component of an absolute path. */
  ghost predicate IsPortOf(path: string, port: string) {
    && path != "" && path[0] == '/'
    && exists k :: IsHostAt(path, k) && port == "/sys" + path[..k - 1] && forall j :: 0 <= j < k ==> !IsHostAt(path, j)
  }

  method ParseUsbDeviceId(path: string) returns (port: Option<string>)
    ensures forall p :: IsPortOf(path, p) <==> port == Some(p)
  {
    if path == "" || path[0] != '/' {
      return None;
    }
    var from := 1;
    while true
      invariant 1 <= from <= |path| && path[from - 1] == '/'
      invariant forall j :: 0 <= j < from ==> !IsHostAt(path, j)
      decreases |path| - from
    {
      var to := SkipTo(path, '/', from);
      if to >= |path| {
        NoHostBehind(path, from);
        return None;
      }
      if to - from >= 5 && path[from..from + 4] == "host" && IsDigit(path[from + 4]) {
        assert IsHostAt(path, from);
        port := Some("/sys" + path[..from - 1]);
        PortIsUnique(path, port.value);
        return;
      }
      NoHostWithin(path, from);
      from := to + 1;
    }
  }

  lemma NoHostBehind(path: string, from: nat)
    requires from <= |path| && Find(path, '/', from) == |path|
    ensures forall k :: from <= k ==> !IsHostAt(path, k)
  {
    forall k | from <= k ensures !IsHostAt(path, k) {
      if k <= |path| {
        FindIs(path, '/', k, |path|);
      }
    }
  }

  lemma NoHostWithin(path: string, from: nat)
    requires 1 <= from <= |path| && Find(path, '/', from) < |path|
    requires var to := Find(path, '/', from);
             !(to - from >= 5 && path[from..from + 4] == "host" && IsDigit(path[from + 4]))
    ensures forall k :: from <= k <= Find(path, '/', from) ==> !IsHostAt(path, k)
  {
    var to := Find(path, '/', from);
    assert path[to] == '/';
    if to < from + 4 <= |path| {
      assert path[from..from + 4][to - from] == '/';
    }
  }

  /** The port is found in front of the first component that begins with "host" and a
      digit, unless that is the last one. */
  lemma {:induction false} PortBeforeHost(front: string, digit: char, more: string, rest: string)
    requires front != "" && front[0] == '/' && IsDigit(digit) && '/' !in more
    requires forall k :: !IsHostAt(front + "/", k)
    ensures IsPortOf(front + "/host" + [digit] + more + "/" + rest, "/sys" + front)
  {
    var path := front + "/host" + [digit] + more + "/" + rest;
    var k := |front| + 1;
    var slash := k + 5 + |more|;
    assert path[k..k + 4] == "host" && path[k + 4] == digit && path[k - 1] == '/' && path[..k - 1] == front;
    assert path[slash] == '/' && forall j :: k <= j < slash ==> path[j] != '/' by {
      assert path[k + 5..slash] == more;
      forall j | k <= j < slash ensures path[j] != '/' {
        if j < k + 4 {
          assert path[j] == path[k..k + 4][j - k] == "host"[j - k];
        } else if j >= k + 5 {
          assert path[j] == more[j - k - 5];
        }
      }
    }
    FindIs(path, '/', k, slash);
    assert IsHostAt(path, k);
    forall j | 0 <= j < k ensures !IsHostAt(path, j) {
      NoEarlierHost(front, path, j);
    }
  }

  lemma {:induction false} NoEarlierHost(front: string, path: string, j: nat)
    requires front + "/" <= path && j <= |front| && !IsHostAt(front + "/", j)
    ensures !IsHostAt(path, j)
  {
    var s := front + "/";
    assert forall k :: 0 <= k < |s| ==> path[k] == s[k];
    var e := Find(s, '/', j);
    assert s[|front|] == '/';
    assert e < |s|;
    FindIs(path, '/', j, e);
    if j + 5 <= |path| {
      if j + 5 <= |s| {
        assert path[j..j + 4] == s[j..j + 4];
      } else {
        assert path[j..j + 4][|front| - j] == '/' || |front| == j + 4;
      }
    }
  }

  /** There is no other port of the path. */
  lemma PortIsUnique(path: string, port: string)
    requires IsPortOf(path, port)
    ensures forall p :: IsPortOf(path, p) ==> p == port
  {
  }

  ghost predicate HasPort(path: string) {
    exists port :: IsPortOf(path, port)
  }

  /** The UUID of a whole device; any will do. */
  function DeviceUuid(c: Choice, devlink: string): string {
    if c.rank == 0 then PLACEHOLDER + Underscored(devlink) else c.uuid
  }

  /** The UUID of a whole device is the best one offered, be it that of the partition
      table; it is made up from the name of the device exactly if there is none. */
  ghost predicate IsUuidOfDevice(xs: seq<Candidate>, devlink: string, uuid: string) {
    && (forall j: nat :: IsBest(xs, j) ==> uuid == if Spoiled(xs, j) then "" else xs[j].value)
    && ((forall k :: 0 <= k < |xs| && xs[k].rank > 0 ==> xs[k].value == "") ==>
          uuid == "DO-NOT-STORE:" + Underscored(devlink))
  }

  lemma {:induction false} UuidOfDevice(xs: seq<Candidate>, devlink: string)
    ensures IsUuidOfDevice(xs, devlink, DeviceUuid(ChooseAll(NoChoice(""), xs), devlink))
    ensures DeviceUuid(ChooseAll(NoChoice(""), xs), devlink) != "" <==>
            forall j: nat :: IsBest(xs, j) ==> !Spoiled(xs, j)
  {
    hide Spoiled;
    NoneIsChosen("", xs);
    forall j: nat | IsBest(xs, j)
      ensures ChooseAll(NoChoice(""), xs) == Choice(if Spoiled(xs, j) then "" else xs[j].value, xs[j].rank)
    {
      BestIsChosen("", xs, j);
    }
    BestExists(xs);
  }

  datatype DeviceDetails = DeviceDetails(isUsb: bool, uuid: string, port: string)

  /** The paths read so far lead to ports, the last one to the port of the device. */
  ghost predicate PathsRead(paths: seq<string>, found: DeviceDetails) {
    && (forall path :: path in paths ==> HasPort(path))
    && (found.isUsb <==> paths != [])
    && (paths != [] ==> IsPortOf(paths[|paths| - 1], found.port))
  }

  lemma OnePathMore(paths: seq<string>, found: DeviceDetails, path: string, port: string)
    requires PathsRead(paths, found) && IsPortOf(path, port)
    ensures PathsRead(paths + [path], found.(isUsb := true, port := port))
  {
  }

  /** A device is good if it has a UUID and if each of its device paths, of which
      there is at least one, leads to a port; the last port counts. */
  method ParseDeviceInfo(output: string, devlink: string) returns (ok: bool, found: DeviceDetails)
    ensures var lines := LinesFrom(output, 0);
            var paths := Contents(lines, 'P');
            var xs := Offers(Contents(lines, 'E'));
            && (ok <==> paths != [] && (forall path :: path in paths ==> HasPort(path))
                        && forall j: nat :: IsBest(xs, j) ==> !Spoiled(xs, j))
            && (ok ==> found.isUsb && IsPortOf(paths[|paths| - 1], found.port)
                       && IsUuidOfDevice(xs, devlink, found.uuid))
  {
    hide LinesFrom, Contents, Offers, Offer, Choose, ChooseAll, IsPortOf, HasPort, PathsRead, LineEnd, Underscored,
         IsBest, Spoiled, IsUuidOfDevice;
    found := DeviceDetails(false, "", "");
    var offset := 0;
    var choice := NoChoice("");
    ghost var paths: seq<string>, seen: seq<string> := [], [];
    NothingRead(output);
    while offset < |output|
      invariant offset <= |output|
      invariant seen + Contents(LinesFrom(output, offset), 'E') == Contents(LinesFrom(output, 0), 'E')
      invariant paths + Contents(LinesFrom(output, offset), 'P') == Contents(LinesFrom(output, 0), 'P')
      invariant choice == ChooseAll(NoChoice(""), Offers(seen))
      invariant PathsRead(paths, found)
      decreases |output| - offset
    {
      var startOfLine := offset;
      offset := SkipLine(output, offset);
      var line := output[startOfLine..offset];
      ContentsStep(output, startOfLine, 'E', seen);
      ContentsStep(output, startOfLine, 'P', paths);
      if !IsInfoLine(line) {
        continue;
      }
      if line[0] == 'P' {
        var port := ParseUsbDeviceId(line[3..]);
        PortTold(line[3..], port);
        if port == None {
          assert line[3..] in paths + [line[3..]];
          return false, found;
        }
        OnePathMore(paths, found, line[3..], port.value);
        paths := paths + [line[3..]];
        found := found.(isUsb := true, port := port.value);
      } else if line[0] == 'E' {
        var r;
        r, choice := TryParseUuid(line[3..], choice);
        OfferOneMore(NoChoice(""), seen, line[3..]);
        seen := seen + [line[3..]];
      }
    }
    assert seen == Contents(LinesFrom(output, 0), 'E');
    assert paths == Contents(LinesFrom(output, 0), 'P');
    AllRead(paths, found);
    UuidOfDevice(Offers(seen), devlink);
    found := found.(uuid := choice.uuid);
    if choice.rank == 0 {
      var name := ReplaceSlashes(devlink);
      found := found.(uuid := PLACEHOLDER + name);
    }
    ok := found.uuid != "" && found.isUsb;
  }

  lemma NothingRead(output: string)
    ensures Contents(LinesFrom(output, |output|), 'E') == [] && Contents(LinesFrom(output, |output|), 'P') == []
    ensures NoChoice("") == ChooseAll(NoChoice(""), Offers([])) && PathsRead([], DeviceDetails(false, "", ""))
  {
    assert LinesFrom(output, |output|) == [];
  }

  lemma AllRead(paths: seq<string>, found: DeviceDetails)
    requires PathsRead(paths, found)
    ensures forall path :: path in paths ==> HasPort(path)
    ensures found.isUsb <==> paths != []
    ensures paths != [] ==> IsPortOf(paths[|paths| - 1], found.port)
  {
  }

  lemma PortTold(path: string, port: Option<string>)
    requires forall p :: IsPortOf(path, p) <==> port == Some(p)
    ensures HasPort(path) <==> port.Some?
    ensures port.Some? ==> IsPortOf(path, port.value)
  {
  }

  lemma {:induction false} OfferOneMore(c: Choice, seen: seq<string>, a: string)
    ensures ChooseAll(c, Offers(seen + [a])) ==
            if Offer(a) == [] then ChooseAll(c, Offers(seen)) else Choose(ChooseAll(c, Offers(seen)), Offer(a)[0])
  {
    assert (seen + [a])[..|seen + [a]| - 1] == seen;
    ChooseOne(c, Offers(seen), Offer(a));
  }
}
