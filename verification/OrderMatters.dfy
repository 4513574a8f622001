/** Where the order in which links are reported does matter. */
module OrderMatters {
  import opened Option
  import opened Sets
  import opened Text
  import opened Names
  import opened Platform
  import opened Devices
  import opened DeviceManager
  import opened Automounter
  import opened RegistryInvariant
  import opened Resources
  import opened Duplicates
  import opened EnoughIds
  import opened OrderIndependence

  lemma OwnConflict(o: Oracle, l: NonEmpty)
    ensures !Conflict(o, l, l)
  {
  }

  lemma ConflictTurned(o: Oracle, l: NonEmpty, l': NonEmpty)
    ensures Conflict(o, l, l') <==> Conflict(o, l', l)
  {
    hide LinkNumber, InfoOf, VolumeIndex, RootOf;
  }

  lemma OnePartition(o: Oracle, l: NonEmpty, l': NonEmpty)
    requires Conflict(o, l, l')
    ensures LinkNumber(o, l) != 0 || LinkNumber(o, l') != 0
  {
    hide VolumeIndex, LinkNumber;
  }

  // ---- Links in conflict ----------------------------------------------------------------

  /** A stick with volumes on the device "/dev/sda", on "/dev/sda1", and on "/dev/sdb1"
      which a link to a partition of the stick leads to. */
  function ExampleOracle(): Oracle {
    Oracle(link => if link == "usb-A" then Some("/dev/sda")
                   else if link == "usb-A-part1" then Some("/dev/sda1")
                   else Some("/dev/sdb1"),
           _ => Some(VolumeInfo("5", "", "vfat")), _ => Some(DeviceInfo(true, "5", "/sys/x")),
           _ => true, (_, _) => true, (_, _) => true, _ => true, _ => true, _ => true, _ => true, _ => true,
           _ => ("", ""))
  }

  lemma PlainName(name: string)
    requires "usb-" <= name && '/' !in name && '.' !in name
    ensures Acceptable(name, true)
  {
    hide IsTemporaryName;
    assert BaseName(name) == name;
    forall i, j ensures !IsTemporaryName(name, i, j) {
      NoDot(name, i, j);
    }
  }

  lemma NoDot(name: string, i: nat, j: nat)
    requires '.' !in name
    ensures !IsTemporaryName(name, i, j)
  {
  }

  /** What makes two links to volumes conflict: the second one is a partition of the
      device that the first one is or belongs to. */
  lemma {:induction false} MakesConflict(o: Oracle, l: NonEmpty, l': NonEmpty)
    requires InfoOf(o, l).Some? && InfoOf(o, l').Some? && RootOf(o, l) == RootName(l') && LinkNumber(o, l') == 1
    requires LinkNumber(o, l) == 0 || (LinkNumber(o, l) == 1 && Devname(o, l) != Devname(o, l'))
    ensures Conflict(o, l, l')
  {
    hide VolumeNumber, RootName;
  }

  lemma {:induction false} ExampleNumbers()
    ensures VolumeNumber("/dev/sda") == 0 && VolumeNumber("/dev/sda1") == 1 && VolumeNumber("/dev/sdb1") == 1
  {
    hide VolumeNumber;
    assert Decimal(1) == "1";
    var a, b := "/dev/sda", "/dev/sdb";
    VolumeNumberOfName(a, 1);
    VolumeNumberOfName(b, 1);
    assert a + "1" == "/dev/sda1" && b + "1" == "/dev/sdb1";
  }

  lemma {:induction false} ExampleRoots(whole: string, part: string, part': string)
    requires whole == "usb-A" && part == whole + "-part1" && part' == whole + "-part01"
    ensures RootName(part) == whole && RootName(part') == whole
  {
    hide RootName;
    assert IsPartitionOf(part, whole, "1") && IsPartitionOf(part', whole, "01");
    RootNameIff(part, whole);
    RootNameIff(part', whole);
  }

  /** Both kinds of conflict exist: a device and its partition, and two partitions with
      the same number. */
  lemma {:induction false} ConflictsExist(cfg: Config)
    returns (o: Oracle, f: Fates, whole: NonEmpty, part: NonEmpty, part': NonEmpty)
    ensures IdBlind(cfg, o, f)
    ensures Acceptable(whole, true) && Acceptable(part, true) && Acceptable(part', true)
    ensures LinkNumber(o, whole) == 0 && Conflict(o, whole, part)
    ensures LinkNumber(o, part) > 0 && LinkNumber(o, part') > 0 && Conflict(o, part, part')
  {
    hide VolumeNumber, RootName, Acceptable, Conflict;
    o, f := ExampleOracle(), Fates(true, (_, _) => true);
    whole, part, part' := "usb-A", "usb-A" + "-part1", "usb-A" + "-part01";
    PlainName(whole);
    PlainName(part);
    PlainName(part');
    ExampleNumbers();
    ExampleRoots(whole, part, part');
    assert part == "usb-A-part1" && part' != whole && part' != part && part != whole;
    MakesConflict(o, whole, part);
    assert "/dev/sda1"[7] != "/dev/sdb1"[7];
    MakesConflict(o, part, part');
  }

  // ---- What a device shows -------------------------------------------------------------

  /** The device `r` has a volume with index `i`, which is on the block device `b`. */
  ghost predicate ShowsVolume(devs: Registry, r: string, i: int, b: string) {
    exists id :: id in devs && devs[id].devlink == r && i in devs[id].vols && devs[id].vols[i].devname == b
  }

  /** The device `r` is known, but has no volume of its own. */
  ghost predicate LacksOwn(devs: Registry, r: string) {
    exists id :: id in devs && devs[id].devlink == r && -1 !in devs[id].vols
  }

  lemma {:induction false} ShownFacts(devs: Registry, id: nat)
    requires RegOk(devs) && id in devs
    ensures devs[id].devlink in Observed(devs) && Observed(devs)[devs[id].devlink] == FactsOfDevice(devs[id])
  {
    hide FactsOfDevice, FindDev, DevOk;
    FindDevUnique(devs, devs[id].devlink, id);
  }

  lemma {:induction false} SeenApart(devs: Registry, devs': Registry, r: string, i: int, b: string)
    requires RegOk(devs) && RegOk(devs') && ShowsVolume(devs, r, i, b)
    requires (i == -1 && LacksOwn(devs', r)) || exists b' :: b' != b && ShowsVolume(devs', r, i, b')
    ensures Observed(devs) != Observed(devs')
  {
    hide Observed;
    var id :| id in devs && devs[id].devlink == r && i in devs[id].vols && devs[id].vols[i].devname == b;
    var id' :| id' in devs' && devs'[id'].devlink == r && (i in devs'[id'].vols ==> devs'[id'].vols[i].devname != b);
    var d, d' := devs[id], devs'[id'];
    ShownFacts(devs, id);
    ShownFacts(devs', id');
    assert DevOk(id, d) && DevOk(id', d');
    assert FactsOfVolume(d.vols[i]) in FactsOfDevice(d).vols;
    assert FactsOfVolume(d.vols[i]) !in FactsOfDevice(d').vols;
  }

  // ---- It stays that way until the device is removed ------------------------------------

  lemma {:induction false} StillShown(cfg: Config, s: State, ev: Event, r: string, i: int, b: string)
    requires RegOk(s.devs) && s.cursor <= MAX_ID && ShowsVolume(s.devs, r, i, b)
    requires ev.IsManaged() && (ev.DeviceGone? ==> ev.link != r)
    ensures ShowsVolume(Step(cfg, s, ev).devs, r, i, b)
  {
    hide HandleNewDevice, HandleRemovedDevice, Processed;
    var id :| id in s.devs && s.devs[id].devlink == r && i in s.devs[id].vols && s.devs[id].vols[i].devname == b;
    if ev.DeviceAdded? {
      NewDeviceRemembers(cfg, ev.o, s, ev.link);
      assert s.stuck || Remembers(s.devs[id], Step(cfg, s, ev).devs[id]);
    } else {
      RemovalForgetsOne(ev.o, s, ev.link);
      assert s.stuck || Remembers(s.devs[id], Step(cfg, s, ev).devs[id]);
    }
  }

  /** A known device is not searched for a volume of its own. */
  lemma {:induction false} NoOwnVolume(o: Oracle, devs: Registry, cursor: nat, link: NonEmpty, id: nat)
    requires RegOk(devs) && cursor <= MAX_ID && !Blocked(o, devs, link) && id in devs && -1 !in devs[id].vols
    ensures var e := NewEntry(o, devs, cursor, link);
            id in e.devs && -1 !in e.devs[id].vols && e.devs[id].devlink == devs[id].devlink
  {
    hide LinkNumber, InfoOf, FindVol, Examined, FreshId, Devname, FindDev, RootOf, RegOk;
    ExaminedSame(o, link, devs[id]);
    assert LinkNumber(o, link) > 0 ==> VolumeIndex(Devname(o, link)) > 0 by {
      IndexOfPartition(o, link);
    }
  }

  lemma IndexOfPartition(o: Oracle, link: NonEmpty)
    ensures VolumeIndex(Devname(o, link)) == if LinkNumber(o, link) > 0 then LinkNumber(o, link) else -1
  {
  }

  lemma {:induction false} StillLacking(cfg: Config, s: State, ev: Event, r: string)
    requires RegOk(s.devs) && s.cursor <= MAX_ID && LacksOwn(s.devs, r)
    requires ev.IsManaged() && (ev.DeviceGone? ==> ev.link != r)
    ensures LacksOwn(Step(cfg, s, ev).devs, r)
  {
    hide NewEntry, Engage, RemoveDev, Acceptable, Blocked, RegOk, FindDev;
    var id :| id in s.devs && s.devs[id].devlink == r && -1 !in s.devs[id].vols;
    var s' := Step(cfg, s, ev);
    if ev.DeviceGone? {
      RemovedRegistry(s, ev.o, ev.link);
      assert s'.devs[id] == s.devs[id];
    } else if !s.stuck && Acceptable(ev.link, true) && !Blocked(ev.o, s.devs, ev.link) {
      NoOwnVolume(ev.o, s.devs, s.cursor, ev.link, id);
      var e := NewEntry(ev.o, s.devs, s.cursor, ev.link);
      if e.dev == Some(id) {
        EngageSame(cfg, ev.o, e.devs[id], e.vol, e.probed, s.world);
      }
      assert s'.devs[id].vols.Keys == e.devs[id].vols.Keys;
    } else {
      assert s'.devs == s.devs;
    }
  }

  /** No event of the run removes the device `r`. */
  ghost predicate Keeps(events: seq<Event>, r: string) {
    ManagedRun(events) && forall k :: 0 <= k < |events| && events[k].DeviceGone? ==> events[k].link != r
  }

  lemma {:induction false} RunStillShows(cfg: Config, s: State, events: seq<Event>, r: string, i: int, b: string)
    requires RegOk(s.devs) && s.cursor <= MAX_ID && Keeps(events, r)
    ensures RegOk(Run(cfg, s, events).devs)
    ensures ShowsVolume(s.devs, r, i, b) ==> ShowsVolume(Run(cfg, s, events).devs, r, i, b)
    ensures LacksOwn(s.devs, r) ==> LacksOwn(Run(cfg, s, events).devs, r)
  {
    hide Step, RegOk, ShowsVolume, LacksOwn;
    if events != [] {
      var n := |events| - 1;
      assert events[n].IsManaged();
      RunStillShows(cfg, s, events[..n], r, i, b);
      var s1 := Run(cfg, s, events[..n]);
      StepOk(cfg, s1, events[n]);
      if ShowsVolume(s.devs, r, i, b) {
        StillShown(cfg, s1, events[n], r, i, b);
      }
      if LacksOwn(s.devs, r) {
        StillLacking(cfg, s1, events[n], r);
      }
    }
  }

  // ---- The first report of a device -------------------------------------------------------

  /** The link can be taken into account as the first one of its device. */
  ghost predicate Comes(o: Oracle, s: State, link: NonEmpty) {
    && RegOk(s.devs) && s.cursor <= MAX_ID && !s.stuck && FreeIds(s.devs.Keys) != {}
    && Acceptable(link, true) && HasVolume(o, link) && FindDev(s.devs, RootOf(o, link)) == None
  }

  lemma FirstEntry(o: Oracle, s: State, link: NonEmpty) returns (id: nat)
    requires Comes(o, s, link)
    ensures !Blocked(o, s.devs, link)
    ensures var e := NewEntry(o, s.devs, s.cursor, link);
            var i := VolumeIndex(Devname(o, link));
            && e.dev == Some(id) && e.devs[id].devlink == RootOf(o, link)
            && e.devs[id].vols.Keys == {i} && e.devs[id].vols[i].devname == Devname(o, link)
  {
    hide LinkNumber, InfoOf, Examined, FreshId, Devname, FindDev, RootOf, RegOk, Acceptable, VolumeIndex, FindVol;
    var e := NewEntry(o, s.devs, s.cursor, link);
    id := e.dev.value;
    ExaminedSame(o, link, NewDev(id, RootOf(o, link)));
  }

  lemma {:induction false} FirstVolume(cfg: Config, o: Oracle, s: State, link: NonEmpty)
    requires Comes(o, s, link)
    ensures var devs := Step(cfg, s, DeviceAdded(o, link)).devs;
            && RegOk(devs)
            && ShowsVolume(devs, RootOf(o, link), VolumeIndex(Devname(o, link)), Devname(o, link))
            && (LinkNumber(o, link) > 0 ==> LacksOwn(devs, RootOf(o, link)))
  {
    hide NewEntry, Engage, Blocked, RegOk, FindDev, LinkNumber, Devname, RootOf, Acceptable, VolumeIndex;
    StepOk(cfg, s, DeviceAdded(o, link));
    IndexOfPartition(o, link);
    var id := FirstEntry(o, s, link);
    var e := NewEntry(o, s.devs, s.cursor, link);
    EngageSame(cfg, o, e.devs[id], e.vol, e.probed, s.world);
    var d' := Step(cfg, s, DeviceAdded(o, link)).devs[id];
    assert SameDev(e.devs[id], d');
  }

  // ---- Main results -----------------------------------------------------------------------

  lemma {:induction false} RunFrom(cfg: Config, foreign: map<string, string>, before: seq<Event>, x: Event, y: Event,
                                   more: seq<Event>)
    ensures Run(cfg, Start(foreign), before + [x, y] + more)
            == Run(cfg, Step(cfg, Run(cfg, Start(foreign), before), x), [y] + more)
  {
    hide Step;
    assert before + [x, y] + more == (before + [x]) + ([y] + more);
    RunAppend(cfg, Start(foreign), before + [x], [y] + more);
    assert (before + [x])[..|before|] == before;
  }

  lemma {:induction false} ConflictShows(cfg: Config, o: Oracle, s: State, l: NonEmpty, l': NonEmpty, more: seq<Event>)
    requires Conflict(o, l, l') && Comes(o, s, l) && Comes(o, s, l') && Keeps(more, RootOf(o, l))
    requires LinkNumber(o, l') != 0
    ensures Observed(Run(cfg, Step(cfg, s, DeviceAdded(o, l)), [DeviceAdded(o, l')] + more).devs)
            != Observed(Run(cfg, Step(cfg, s, DeviceAdded(o, l')), [DeviceAdded(o, l)] + more).devs)
  {
    hide Run, Step, Observed, RegOk, ShowsVolume, LacksOwn, LinkNumber, Devname, RootOf, VolumeIndex, Acceptable,
         FindDev;
    var s1, s2 := Step(cfg, s, DeviceAdded(o, l)), Step(cfg, s, DeviceAdded(o, l'));
    FirstVolume(cfg, o, s, l);
    FirstVolume(cfg, o, s, l');
    IndexOfPartition(o, l);
    var r, b, b' := RootOf(o, l), Devname(o, l), Devname(o, l');
    RunStillShows(cfg, s1, [DeviceAdded(o, l')] + more, r, VolumeIndex(b), b);
    RunStillShows(cfg, s2, [DeviceAdded(o, l)] + more, r, VolumeIndex(b'), b');
    SeenApart(Run(cfg, s1, [DeviceAdded(o, l')] + more).devs, Run(cfg, s2, [DeviceAdded(o, l)] + more).devs,
              r, VolumeIndex(b), b);
  }

  lemma {:induction false} ConflictStaysVisible(cfg: Config, foreign: map<string, string>, o: Oracle, l: NonEmpty,
                                                l': NonEmpty, before: seq<Event>, more: seq<Event>)
    requires var s := Run(cfg, Start(foreign), before);
             !s.stuck && FreeIds(s.devs.Keys) != {} && FindDev(s.devs, RootOf(o, l)) == None
    requires Acceptable(l, true) && Acceptable(l', true) && Conflict(o, l, l') && Keeps(more, RootOf(o, l))
    ensures Observed(Run(cfg, Start(foreign), before + [DeviceAdded(o, l), DeviceAdded(o, l')] + more).devs)
            != Observed(Run(cfg, Start(foreign), before + [DeviceAdded(o, l'), DeviceAdded(o, l)] + more).devs)
  {
    hide Run, Step, Observed, RegOk, LinkNumber, RootOf, Acceptable, FindDev, Keeps;
    var s := Run(cfg, Start(foreign), before);
    RunOk(cfg, foreign, before);
    RunFrom(cfg, foreign, before, DeviceAdded(o, l), DeviceAdded(o, l'), more);
    RunFrom(cfg, foreign, before, DeviceAdded(o, l'), DeviceAdded(o, l), more);
    if LinkNumber(o, l') != 0 {
      ConflictShows(cfg, o, s, l, l', more);
    } else {
      OnePartition(o, l, l');
      ConflictShows(cfg, o, s, l', l, more);
    }
  }

  /** Once two links in conflict have been the first ones of their device, what is
      known shows their order until that device is removed, whatever was before and
      whatever comes then, with whatever answers. */
  lemma {:induction false} OrderStillMatters(cfg: Config, foreign: map<string, string>, o: Oracle, l: NonEmpty,
                                             l': NonEmpty, before: seq<Event>, more: seq<Event>, trace: seq<State>,
                                             trace': seq<State>)
    requires IsTrace(cfg, foreign, before + [DeviceAdded(o, l), DeviceAdded(o, l')] + more, trace)
    requires IsTrace(cfg, foreign, before + [DeviceAdded(o, l'), DeviceAdded(o, l)] + more, trace')
    requires var s := trace[|before|];
             !s.stuck && FreeIds(s.devs.Keys) != {} && FindDev(s.devs, RootOf(o, l)) == None
    requires Acceptable(l, true) && Acceptable(l', true) && Conflict(o, l, l') && Keeps(more, RootOf(o, l))
    ensures Observed(trace[|trace| - 1].devs) != Observed(trace'[|trace'| - 1].devs)
  {
    hide Run, Step, Observed, RootOf, Acceptable, FindDev, Keeps, Conflict;
    var a := before + [DeviceAdded(o, l), DeviceAdded(o, l')] + more;
    var b := before + [DeviceAdded(o, l'), DeviceAdded(o, l)] + more;
    TraceIsRun(cfg, foreign, a, trace, |before|);
    TraceIsRun(cfg, foreign, a, trace, |a|);
    TraceIsRun(cfg, foreign, b, trace', |b|);
    assert a[..|before|] == before && a[..|a|] == a && b[..|b|] == b;
    ConflictStaysVisible(cfg, foreign, o, l, l', before, more);
  }

  // ---- All orders of a set of links ---------------------------------------------------------

  function Reports(o: Oracle, links: seq<NonEmpty>): (events: seq<Event>)
    ensures |events| == |links| && forall k :: 0 <= k < |links| ==> events[k] == DeviceAdded(o, links[k])
  {
    seq(|links|, k requires 0 <= k < |links| => DeviceAdded(o, links[k]))
  }

  ghost function Elements(links: seq<NonEmpty>): set<NonEmpty> {
    set k | 0 <= k < |links| :: links[k]
  }

  /** `order` has all the links in some order, and no others. */
  ghost predicate Lists(order: seq<NonEmpty>, links: set<NonEmpty>) {
    Elements(order) == links
  }

  lemma {:induction false} ReportsDeliver(o: Oracle, links: seq<NonEmpty>, names: set<string>)
    requires forall l :: l in Elements(links) ==> Acceptable(l, true)
    requires Roots(o, Elements(links)) <= names
    ensures Delivered(o, Reports(o, links)) == Elements(links)
    ensures AccountOf(Reports(o, links)).names <= names
    ensures Introductions(Reports(o, links)) <= |AccountOf(Reports(o, links)).names|
  {
    hide Acceptable, RootOf, Counts;
    if links != [] {
      var n := |links| - 1;
      var before := links[..n];
      assert Reports(o, links)[..n] == Reports(o, before);
      assert Elements(links) == Elements(before) + {links[n]};
      ReportsDeliver(o, before, names);
      var a, a' := AccountOf(Reports(o, before)).names, AccountOf(Reports(o, links)).names;
      assert a' == a + NameOf(o, links[n]);
      assert links[n] in Elements(links);
      assert a' == a + (a' - a);
    }
  }

  lemma {:induction false} ReportsSteady(cfg: Config, o: Oracle, f: Fates, links: seq<NonEmpty>, names: set<string>)
    requires IdBlind(cfg, o, f) && NoConflict(o, Elements(links))
    requires forall l :: l in Elements(links) ==> Acceptable(l, true)
    requires Roots(o, Elements(links)) <= names && |names| <= MAX_ID
    ensures SteadyRun(cfg, o, f, Reports(o, links)) && Delivered(o, Reports(o, links)) == Elements(links)
  {
    hide Acceptable, RootOf, Counts, IdBlind, Conflict, Delivered, Introductions, AccountOf;
    var events := Reports(o, links);
    ReportsDeliver(o, links, names);
    SubsetSize(AccountOf(events).names, names);
    forall k: nat | k <= |events| ensures NoConflict(o, Delivered(o, events[..k])) {
      assert Elements(links[..k]) <= Elements(links);
      assert events[..k] == Reports(o, links[..k]);
      ReportsDeliver(o, links[..k], Roots(o, Elements(links)));
    }
  }

  lemma {:induction false} Ordered(links: set<NonEmpty>) returns (order: seq<NonEmpty>)
    ensures Lists(order, links)
  {
    if links == {} {
      order := [];
    } else {
      var l := Member(links);
      order := Ordered(links - {l});
      assert Elements([l] + order) == {l} + Elements(order) by {
        ElementsOf(l, order);
      }
      order := [l] + order;
    }
  }

  lemma ElementsOf(l: NonEmpty, order: seq<NonEmpty>)
    ensures Elements([l] + order) == {l} + Elements(order)
  {
    var all := [l] + order;
    assert all[0] == l;
    assert forall k :: 0 <= k < |order| ==> all[k + 1] == order[k];
    assert forall k :: 0 < k < |all| ==> all[k] == order[k - 1];
  }

  /** The registry after the links in `order` have been reported. */
  ghost function Reported(cfg: Config, foreign: map<string, string>, o: Oracle, order: seq<NonEmpty>): Registry {
    Run(cfg, Start(foreign), Reports(o, order)).devs
  }

  ghost predicate AllOrdersAgree(cfg: Config, foreign: map<string, string>, o: Oracle, links: set<NonEmpty>) {
    forall a, b :: Lists(a, links) && Lists(b, links) ==>
      Observed(Reported(cfg, foreign, o, a)) == Observed(Reported(cfg, foreign, o, b))
  }

  /** All orders of a set of links, with or without repeats, lead to the same devices
      and volumes exactly if no two of the links are in conflict. */
  lemma {:induction false} AllOrdersAgreeIff(cfg: Config, foreign: map<string, string>, o: Oracle, f: Fates,
                                             links: set<NonEmpty>, names: set<string>)
    requires IdBlind(cfg, o, f) && forall l :: l in links ==> Acceptable(l, true)
    requires Roots(o, links) <= names && |names| <= MAX_ID
    ensures AllOrdersAgree(cfg, foreign, o, links) <==> NoConflict(o, links)
  {
    hide Acceptable, IdBlind, Conflict, Observed, Roots, Reported, Expected;
    if NoConflict(o, links) {
      forall a | Lists(a, links) ensures Observed(Reported(cfg, foreign, o, a)) == Expected(o, f, links) {
        ReportedInSync(cfg, foreign, o, f, a, names);
      }
    } else {
      var l, l' :| l in links && l' in links && Conflict(o, l, l');
      OrdersDisagree(cfg, foreign, o, links, l, l');
    }
  }

  lemma {:induction false} ReportedInSync(cfg: Config, foreign: map<string, string>, o: Oracle, f: Fates,
                                          order: seq<NonEmpty>, names: set<string>)
    requires IdBlind(cfg, o, f) && NoConflict(o, Elements(order))
    requires forall l :: l in Elements(order) ==> Acceptable(l, true)
    requires Roots(o, Elements(order)) <= names && |names| <= MAX_ID
    ensures Observed(Reported(cfg, foreign, o, order)) == Expected(o, f, Elements(order))
  {
    hide Acceptable, IdBlind, Conflict, Observed, Roots, Expected, SteadyRun, InSync, Run, Delivered, RegOk, Elements;
    ReportsSteady(cfg, o, f, order, names);
    AlwaysInSync(cfg, foreign, o, f, Reports(o, order));
    RunOk(cfg, foreign, Reports(o, order));
    InSyncObserved(o, f, Elements(order), Reported(cfg, foreign, o, order));
  }

  lemma {:induction false} OrdersDisagree(cfg: Config, foreign: map<string, string>, o: Oracle, links: set<NonEmpty>,
                                          l: NonEmpty, l': NonEmpty)
    requires forall x :: x in links ==> Acceptable(x, true)
    requires l in links && l' in links && Conflict(o, l, l')
    ensures !AllOrdersAgree(cfg, foreign, o, links)
  {
    hide Acceptable, Conflict, Observed, Step, RootOf, Elements, FreeIds, FindDev, Run, Keeps;
    var rest := Ordered(links - {l, l'});
    var a, b := [l, l'] + rest, [l', l] + rest;
    assert a == [l] + ([l'] + rest) && b == [l'] + ([l] + rest);
    ElementsOf(l, [l'] + rest);
    ElementsOf(l', rest);
    ElementsOf(l', [l] + rest);
    ElementsOf(l, rest);
    assert Lists(a, links) && Lists(b, links);
    assert Reports(o, a) == [] + [DeviceAdded(o, l), DeviceAdded(o, l')] + Reports(o, rest);
    assert Reports(o, b) == [] + [DeviceAdded(o, l'), DeviceAdded(o, l)] + Reports(o, rest);
    NothingTaken(cfg, foreign, RootOf(o, l));
    ReportsKeep(o, rest, RootOf(o, l));
    ConflictStaysVisible(cfg, foreign, o, l, l', [], Reports(o, rest));
  }

  lemma ReportsKeep(o: Oracle, links: seq<NonEmpty>, r: string)
    ensures Keeps(Reports(o, links), r)
  {
  }

  lemma NothingTaken(cfg: Config, foreign: map<string, string>, r: string)
    ensures var s := Run(cfg, Start(foreign), []);
            !s.stuck && FreeIds(s.devs.Keys) != {} && FindDev(s.devs, r) == None
  {
    assert 1 in FreeIds(Start(foreign).devs.Keys);
  }

  /** The order of the first two reports makes a difference exactly if the links are in
      conflict. */
  lemma {:induction false} OrderMattersIff(cfg: Config, foreign: map<string, string>, o: Oracle, f: Fates,
                                           l: NonEmpty, l': NonEmpty, trace: seq<State>, trace': seq<State>)
    requires IdBlind(cfg, o, f) && Acceptable(l, true) && Acceptable(l', true)
    requires IsTrace(cfg, foreign, [DeviceAdded(o, l), DeviceAdded(o, l')], trace)
    requires IsTrace(cfg, foreign, [DeviceAdded(o, l'), DeviceAdded(o, l)], trace')
    ensures Observed(trace[2].devs) != Observed(trace'[2].devs) <==> Conflict(o, l, l')
  {
    hide Step, Acceptable, IdBlind, Conflict, Observed, RootOf, FreeIds, FindDev, Run, Keeps;
    var a, b := [DeviceAdded(o, l), DeviceAdded(o, l')], [DeviceAdded(o, l'), DeviceAdded(o, l)];
    TraceIsRun(cfg, foreign, a, trace, 2);
    TraceIsRun(cfg, foreign, b, trace', 2);
    assert a[..2] == a && b[..2] == b;
    if Conflict(o, l, l') {
      assert [] + a + [] == a && [] + b + [] == b;
      NothingTaken(cfg, foreign, RootOf(o, l));
      assert Reports(o, []) == [];
      ReportsKeep(o, [], RootOf(o, l));
      ConflictStaysVisible(cfg, foreign, o, l, l', [], []);
    } else {
      assert Reports(o, [l, l']) == a && Reports(o, [l', l]) == b;
      TwoAgree(cfg, foreign, o, f, l, l');
    }
  }

  lemma {:induction false} TwoAgree(cfg: Config, foreign: map<string, string>, o: Oracle, f: Fates, l: NonEmpty,
                                    l': NonEmpty)
    requires IdBlind(cfg, o, f) && Acceptable(l, true) && Acceptable(l', true) && !Conflict(o, l, l')
    ensures Observed(Reported(cfg, foreign, o, [l, l'])) == Observed(Reported(cfg, foreign, o, [l', l]))
  {
    hide Acceptable, IdBlind, Conflict, Observed, Expected, RootOf, Counts, Reported;
    ConflictTurned(o, l, l');
    OwnConflict(o, l);
    OwnConflict(o, l');
    ElementsOfTwo(l, l');
    ElementsOfTwo(l', l);
    assert {l, l'} == {l', l};
    var names := {RootOf(o, l), RootOf(o, l')};
    ReportedInSync(cfg, foreign, o, f, [l, l'], names);
    ReportedInSync(cfg, foreign, o, f, [l', l], names);
  }

  lemma ElementsOfTwo(l: NonEmpty, l': NonEmpty)
    ensures Elements([l, l']) == {l, l'}
  {
    assert [l, l'][0] == l && [l, l'][1] == l';
  }
}
