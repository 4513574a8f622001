/** When the search for a device ID always succeeds. */
module EnoughIds {
  import opened Option
  import opened Sets
  import opened Names
  import opened Platform
  import opened Devices
  import opened DeviceManager
  import opened Automounter
  import opened RegistryInvariant

  /** Links of whole devices, and links of partitions which contain a volume. */
  predicate Counts(o: Oracle, link: NonEmpty) {
    LinkNumber(o, link) == 0 || (LinkNumber(o, link) > 0 && InfoOf(o, link).Some?)
  }

  // ---- A registry without a free ID --------------------------------------------------

  function UpTo(n: nat): (s: set<nat>)
    ensures |s| == n
    ensures forall i :: i in s <==> 1 <= i <= n
  {
    if n == 0 then {} else UpTo(n - 1) + {n}
  }

  ghost function LinkNames(devs: Registry): set<string> {
    LinkNamesOf(devs, devs.Keys)
  }

  ghost function LinkNamesOf(devs: Registry, ids: set<nat>): set<string>
    requires ids <= devs.Keys
  {
    set id | id in ids :: devs[id].devlink
  }

  lemma {:induction false} LinkNamesSize(devs: Registry, ids: set<nat>)
    requires ids <= devs.Keys
    requires forall i, j :: i in devs && j in devs && devs[i].devlink == devs[j].devlink ==> i == j
    ensures |LinkNamesOf(devs, ids)| == |ids|
    decreases |ids|
  {
    if ids != {} {
      var id := Member(ids);
      LinkNamesSize(devs, ids - {id});
      assert LinkNamesOf(devs, ids) == LinkNamesOf(devs, ids - {id}) + {devs[id].devlink};
    } else {
      assert LinkNamesOf(devs, ids) == {};
    }
  }

  lemma NoFreeId(used: set<nat>)
    requires FreeIds(used) == {}
    ensures |used| >= MAX_ID
  {
    forall i: nat | 1 <= i <= MAX_ID ensures i in used {
      assert i !in FreeIds(used);
    }
    SubsetSize(UpTo(MAX_ID), used);
  }

  /** A registry that needs an ID in vain knows 999 other devices. */
  lemma BlockedIsFull(o: Oracle, devs: Registry, link: NonEmpty)
    requires RegOk(devs) && Blocked(o, devs, link)
    ensures |LinkNames(devs) + {RootOf(o, link)}| > MAX_ID && Counts(o, link)
  {
    hide LinkNumber, InfoOf, RootOf, FindDev, FreeIds;
    NoFreeId(devs.Keys);
    LinkNamesSize(devs, devs.Keys);
    FindDevNone(devs, RootOf(o, link));
    assert RootOf(o, link) !in LinkNames(devs);
  }

  // ---- Devices that may be known ---------------------------------------------------

  /** The device, if any, that a link is taken to belong to. */
  ghost function NameOf(o: Oracle, link: string): set<string> {
    if link != "" && Counts(o, link) then {RootOf(o, link)} else {}
  }

  /** Something is mounted on `path`, and there are links to it. */
  predicate Mapped(o: Oracle, path: string) {
    o.isDirectory(path) && o.isMountpoint(path) && o.linksOf(path).0 != "" && o.linksOf(path).1 != ""
  }

  /** Devices that have been told of and not been removed since, and the mountpoints
      that surely are being watched, with the devices to be removed with them. */
  datatype Account = Account(names: set<string>, watched: map<string, string>)

  ghost function Accounted(a: Account, ev: Event): Account {
    match ev
    case DeviceAdded(o, link) => if Acceptable(link, true) then a.(names := a.names + NameOf(o, link)) else a
    case DeviceGone(_, link) => a.(names := a.names - {link})
    case MountpointAdded(o, path) =>
      var (first, second) := o.linksOf(path);
      if !Mapped(o, path) then a
      else Account(a.names + NameOf(o, first) + NameOf(o, second),
                   if Counts(o, first) && Counts(o, second) then a.watched[path := first] else a.watched - {path})
    case MountpointGone(_, path) =>
      Account(if path in a.watched then a.names - {a.watched[path]} else a.names, a.watched - {path})
  }

  /** What there is to know from the events alone. */
  ghost function AccountOf(events: seq<Event>): Account {
    if events == [] then Account({}, map[])
    else Accounted(AccountOf(events[..|events| - 1]), events[|events| - 1])
  }

  // ---- Events ------------------------------------------------------------------------

  ghost predicate Named(names: set<string>, o: Oracle, link: string) {
    NameOf(o, link) <= names
  }

  ghost predicate KnowsOnly(names: set<string>, devs: Registry) {
    RegOk(devs) && LinkNames(devs) <= names
  }

  lemma {:induction false} NotBlocked(names: set<string>, o: Oracle, devs: Registry, link: NonEmpty)
    requires KnowsOnly(names, devs) && |names| <= MAX_ID && Named(names, o, link)
    ensures !Blocked(o, devs, link)
  {
    hide Blocked, RootOf, Counts, LinkNames;
    if Blocked(o, devs, link) {
      BlockedIsFull(o, devs, link);
      SubsetSize(LinkNames(devs) + {RootOf(o, link)}, names);
    }
  }

  lemma RegisterOnName(o: Oracle, link: NonEmpty, d: Dev, known: bool)
    ensures RegisterOn(o, link, d, known).0.devlink == d.devlink
  {
    hide AddVol, LinkNumber, Examined, FindVol, InfoOf, Devname;
    ExaminedSame(o, link, d);
  }

  lemma {:induction false} NewEntryNamed(names: set<string>, o: Oracle, devs: Registry, cursor: nat, link: NonEmpty)
    requires cursor <= MAX_ID && !Blocked(o, devs, link) && KnowsOnly(names, devs) && Named(names, o, link)
    ensures KnowsOnly(names, NewEntry(o, devs, cursor, link).devs)
  {
    hide RegisterOn, LinkNumber, InfoOf, RootOf, FreshId, RegOk;
    NewEntryOk(o, devs, cursor, link);
    var e := NewEntry(o, devs, cursor, link);
    if Counts(o, link) {
      var known := FindDev(devs, RootOf(o, link));
      RegisterOnName(o, link, Before(devs, e.dev.value, RootOf(o, link)), known.Some?);
    }
  }

  lemma UpdateNamed(names: set<string>, devs: Registry, id: nat, d: Dev)
    requires KnowsOnly(names, devs) && id in devs && DevOk(id, d) && d.devlink == devs[id].devlink
    ensures KnowsOnly(names, devs[id := d])
  {
    hide DevOk;
    assert devs[id].devlink in LinkNames(devs);
  }

  lemma {:induction false} NewDeviceNamed(names: set<string>, cfg: Config, o: Oracle, s: State, link: NonEmpty)
    requires s.cursor <= MAX_ID && KnowsOnly(names, s.devs) && |names| <= MAX_ID
    requires Acceptable(link, true) ==> Named(names, o, link)
    ensures var s' := HandleNewDevice(cfg, o, s, link); s'.stuck == s.stuck && KnowsOnly(names, s'.devs)
  {
    hide NewEntry, Engage, Blocked, Acceptable, LinkNames, RegOk, DevOk;
    if Acceptable(link, true) {
      NotBlocked(names, o, s.devs, link);
      NewEntryNamed(names, o, s.devs, s.cursor, link);
      var e := NewEntry(o, s.devs, s.cursor, link);
      if e.dev.Some? {
        var id := e.dev.value;
        EngageSame(cfg, o, e.devs[id], e.vol, e.probed, s.world);
        MemberOk(e.devs, id);
        DevOkSame(id, e.devs[id], Engage(cfg, o, e.devs[id], e.vol, e.probed, s.world).0);
        UpdateNamed(names, e.devs, id, Engage(cfg, o, e.devs[id], e.vol, e.probed, s.world).0);
      }
    }
  }

  lemma {:induction false} EntryNamed(names: set<string>, o: Oracle, s: State, path: NonEmpty)
    requires s.cursor <= MAX_ID && KnowsOnly(names, s.devs) && |names| <= MAX_ID
    requires Mapped(o, path) ==> Named(names, o, o.linksOf(path).0) && Named(names, o, o.linksOf(path).1)
    ensures var s' := EntryByMountpoint(o, s, path).0; s'.stuck == s.stuck && KnowsOnly(names, s'.devs)
  {
    hide NewEntry, Blocked, KnowsOnly, Named, ProbeMountpoint;
    var (first, second) := o.linksOf(path);
    ProbingLeavesNoTrace(o, s, path);
    if Mapped(o, path) {
      NotBlocked(names, o, s.devs, first);
      NewEntryNamed(names, o, s.devs, s.cursor, first);
      var e1 := NewEntry(o, s.devs, s.cursor, first);
      NotBlocked(names, o, e1.devs, second);
      NewEntryNamed(names, o, e1.devs, e1.cursor, second);
    }
  }

  lemma {:induction false} MountpointNamed(names: set<string>, cfg: Config, o: Oracle, s: State, path: NonEmpty)
    requires s.cursor <= MAX_ID && KnowsOnly(names, s.devs) && |names| <= MAX_ID
    requires Mapped(o, path) ==> Named(names, o, o.linksOf(path).0) && Named(names, o, o.linksOf(path).1)
    ensures var s' := HandleNewMountpoint(cfg, o, s, path); s'.stuck == s.stuck && KnowsOnly(names, s'.devs)
  {
    hide EntryByMountpoint, EngageWatched, LinkNames, Named, RegOk, DevOk;
    EntryNamed(names, o, s, path);
    var (s1, dev, vol) := EntryByMountpoint(o, s, path);
    if dev.Some? && vol.Some? {
      var id := dev.value;
      EngageWatchedSame(cfg, o, s1.devs[id], vol.value, path, s1.world);
      MemberOk(s1.devs, id);
      DevOkSame(id, s1.devs[id], EngageWatched(cfg, o, s1.devs[id], vol.value, path, s1.world).0);
      UpdateNamed(names, s1.devs, id, EngageWatched(cfg, o, s1.devs[id], vol.value, path, s1.world).0);
    }
  }

  lemma {:induction false} RemovalNamed(names: set<string>, o: Oracle, s: State, link: string)
    requires KnowsOnly(names, s.devs)
    ensures var s' := HandleRemovedDevice(o, s, link);
            && s'.stuck == s.stuck && s'.watched == s.watched && s'.cursor == s.cursor
            && KnowsOnly(names - {link}, s'.devs)
  {
    hide RemoveDev, FindDev, DevOk;
    var s' := HandleRemovedDevice(o, s, link);
    RemovedRegistry(s, o, link);
    forall id | id in s'.devs ensures s'.devs[id].devlink in LinkNames(s.devs) {
      assert s'.devs[id] == s.devs[id];
    }
  }

  lemma MoreNamed(names: set<string>, more: set<string>, devs: Registry)
    requires KnowsOnly(names, devs) && names <= more
    ensures KnowsOnly(more, devs)
  {
  }

  lemma Registered(o: Oracle, s: State, link: NonEmpty)
    requires s.cursor <= MAX_ID && !Blocked(o, s.devs, link) && Counts(o, link)
    ensures NewEntry(o, s.devs, s.cursor, link).dev.Some?
  {
    hide LinkNumber, InfoOf, RootOf, FreshId, RegisterOn, FindDev;
  }

  /** A mountpoint is watched for its first link if both links count. */
  lemma {:induction false} NowWatched(cfg: Config, o: Oracle, s: State, path: NonEmpty)
    requires s.cursor <= MAX_ID && !HandleNewMountpoint(cfg, o, s, path).stuck
    ensures var s' := HandleNewMountpoint(cfg, o, s, path);
            var (first, second) := o.linksOf(path);
            && (s'.watched == s.watched || s'.watched == s.watched[path := first])
            && (!Mapped(o, path) ==> s'.watched == s.watched)
            && (Mapped(o, path) && Counts(o, first) && Counts(o, second) ==> s'.watched == s.watched[path := first])
  {
    hide NewEntry, Blocked, Counts, EngageWatched, ProbeMountpoint;
    ProbingLeavesNoTrace(o, s, path);
    var (first, second) := o.linksOf(path);
    if Mapped(o, path) && !Blocked(o, s.devs, first) {
      if Counts(o, first) {
        Registered(o, s, first);
      }
      var e1 := NewEntry(o, s.devs, s.cursor, first);
      var s1 := s.(devs := e1.devs, cursor := e1.cursor);
      if !Blocked(o, s1.devs, second) && Counts(o, second) {
        Registered(o, s1, second);
      }
    }
  }

  /** The daemon goes on and knows no devices but those that may be known. */
  ghost predicate Covers(a: Account, s: State) {
    && !s.stuck && s.cursor <= MAX_ID && KnowsOnly(a.names, s.devs)
    && forall path :: path in a.watched ==>
         path in s.watched && s.watched[path] == a.watched[path] && a.watched[path] != ""
  }

  lemma {:induction false} DeviceAddedCovered(cfg: Config, a: Account, s: State, o: Oracle, link: NonEmpty)
    requires Covers(a, s) && |Accounted(a, DeviceAdded(o, link)).names| <= MAX_ID
    ensures Covers(Accounted(a, DeviceAdded(o, link)), HandleNewDevice(cfg, o, s, link))
  {
    hide HandleNewDevice, KnowsOnly, NameOf, Acceptable;
    var names := Accounted(a, DeviceAdded(o, link)).names;
    MoreNamed(a.names, names, s.devs);
    NewDeviceNamed(names, cfg, o, s, link);
    AddedKeepsWatched(cfg, o, s, link);
  }

  lemma {:induction false} MountpointAddedCovered(cfg: Config, a: Account, s: State, o: Oracle, path: NonEmpty)
    requires Covers(a, s) && |Accounted(a, MountpointAdded(o, path)).names| <= MAX_ID
    ensures Covers(Accounted(a, MountpointAdded(o, path)), HandleNewMountpoint(cfg, o, s, path))
  {
    hide HandleNewMountpoint, KnowsOnly, NameOf, Counts;
    var names := Accounted(a, MountpointAdded(o, path)).names;
    MoreNamed(a.names, names, s.devs);
    MountpointNamed(names, cfg, o, s, path);
    NowWatched(cfg, o, s, path);
  }

  lemma {:induction false} MountpointGoneCovered(cfg: Config, a: Account, s: State, o: Oracle, path: NonEmpty)
    requires Covers(a, s)
    ensures Covers(Accounted(a, MountpointGone(o, path)), HandleRemovedMountpoint(o, s, path))
  {
    hide HandleRemovedDevice, KnowsOnly;
    if path in s.watched {
      var s1 := s.(watched := s.watched - {path});
      RemovalNamed(a.names, o, s1, s.watched[path]);
      MoreNamed(a.names - {s.watched[path]}, a.names, HandleRemovedDevice(o, s1, s.watched[path]).devs);
    }
  }

  lemma {:induction false} DeviceGoneCovered(a: Account, s: State, o: Oracle, link: NonEmpty)
    requires Covers(a, s)
    ensures Covers(Accounted(a, DeviceGone(o, link)), HandleRemovedDevice(o, s, link))
  {
    hide HandleRemovedDevice, KnowsOnly;
    RemovalNamed(a.names, o, s, link);
  }

  lemma {:induction false} StepCovered(cfg: Config, a: Account, s: State, ev: Event)
    requires Covers(a, s) && |Accounted(a, ev).names| <= MAX_ID
    ensures Covers(Accounted(a, ev), Step(cfg, s, ev))
  {
    hide HandleNewDevice, HandleNewMountpoint, HandleRemovedDevice, HandleRemovedMountpoint, KnowsOnly, Accounted;
    match ev
    case DeviceAdded(o, link) => DeviceAddedCovered(cfg, a, s, o, link);
    case DeviceGone(o, link) => DeviceGoneCovered(a, s, o, link);
    case MountpointAdded(o, path) => MountpointAddedCovered(cfg, a, s, o, path);
    case MountpointGone(o, path) => MountpointGoneCovered(cfg, a, s, o, path);
  }

  lemma AddedKeepsWatched(cfg: Config, o: Oracle, s: State, link: NonEmpty)
    requires s.cursor <= MAX_ID
    ensures HandleNewDevice(cfg, o, s, link).watched == s.watched
  {
    hide NewEntry, Engage, Blocked, Acceptable;
  }

  /** At no instant up to `k` may more devices be known than there are IDs. */
  ghost predicate FewAtATime(events: seq<Event>, k: nat)
    requires k <= |events|
  {
    forall j: nat {:trigger Instant(j)} :: j <= k && Instant(j) ==> |AccountOf(events[..j]).names| <= MAX_ID
  }

  lemma {:induction false} RunCovered(cfg: Config, foreign: map<string, string>, events: seq<Event>, k: nat)
    requires k <= |events| && FewAtATime(events, k)
    ensures Covers(AccountOf(events[..k]), Run(cfg, Start(foreign), events[..k]))
  {
    hide Step, Accounted;
    if k > 0 {
      RunCovered(cfg, foreign, events, k - 1);
      assert events[..k][..k - 1] == events[..k - 1];
      assert Instant(k);
      StepCovered(cfg, AccountOf(events[..k - 1]), Run(cfg, Start(foreign), events[..k - 1]), events[k - 1]);
    }
  }

  // ---- Managed mode -------------------------------------------------------------------

  /** What handling a link does to the device it belongs to. */
  lemma CountedEntry(o: Oracle, s: State, link: NonEmpty)
    requires RegOk(s.devs) && s.cursor <= MAX_ID && !Blocked(o, s.devs, link) && Counts(o, link)
    ensures var e := NewEntry(o, s.devs, s.cursor, link);
            var known := FindDev(s.devs, RootOf(o, link));
            && e.dev.Some? && (known.Some? ==> known == e.dev) && (known == None ==> e.dev.value !in s.devs)
            && (e.devs[e.dev.value], e.vol) ==
                 RegisterOn(o, link, Before(s.devs, e.dev.value, RootOf(o, link)), known.Some?)
  {
    hide RegisterOn, LinkNumber, RootOf, InfoOf, FreshId, FindDev;
  }

  /** A link that does not count has no effect on the registry. */
  lemma UncountedEntry(o: Oracle, s: State, link: NonEmpty)
    requires s.cursor <= MAX_ID && !Blocked(o, s.devs, link) && !Counts(o, link)
    ensures var e := NewEntry(o, s.devs, s.cursor, link);
            e.devs == s.devs && e.cursor == s.cursor && e.vol == None && !e.probed
  {
    hide RegisterOn, LinkNumber, RootOf, InfoOf, FreshId, FindDev;
  }

  lemma {:induction false} EntryNames(o: Oracle, devs: Registry, cursor: nat, link: NonEmpty)
    requires RegOk(devs) && cursor <= MAX_ID && !Blocked(o, devs, link)
    ensures LinkNames(NewEntry(o, devs, cursor, link).devs) == LinkNames(devs) + NameOf(o, link)
  {
    hide RegisterOn, LinkNumber, InfoOf, RootOf, FreshId, RegOk, FindDev;
    var e := NewEntry(o, devs, cursor, link);
    NewEntryNamed(LinkNames(devs) + NameOf(o, link), o, devs, cursor, link);
    NewEntryOk(o, devs, cursor, link);
    forall id | id in devs ensures devs[id].devlink in LinkNames(e.devs) {
      assert e.devs[id].devlink == devs[id].devlink;
    }
    if Counts(o, link) {
      var id := e.dev.value;
      RegisterOnName(o, link, Before(devs, id, RootOf(o, link)), FindDev(devs, RootOf(o, link)).Some?);
      EntryName(o, devs, cursor, link);
      assert e.devs[id].devlink == RootOf(o, link);
    }
  }

  lemma {:induction false} EntryName(o: Oracle, devs: Registry, cursor: nat, link: NonEmpty)
    requires RegOk(devs) && cursor <= MAX_ID && !Blocked(o, devs, link) && Counts(o, link)
    ensures var e := NewEntry(o, devs, cursor, link);
            e.dev.Some? && e.devs[e.dev.value].devlink == RootOf(o, link)
  {
    hide RegisterOn, LinkNumber, InfoOf, RootOf, FreshId;
    var known := FindDev(devs, RootOf(o, link));
    var id := NewEntry(o, devs, cursor, link).dev.value;
    RegisterOnName(o, link, Before(devs, id, RootOf(o, link)), known.Some?);
  }

  /** A new link makes the device known that it belongs to, and no other. */
  lemma {:induction false} AddedNames(cfg: Config, o: Oracle, s: State, link: NonEmpty)
    requires RegOk(s.devs) && s.cursor <= MAX_ID && !HandleNewDevice(cfg, o, s, link).stuck
    ensures LinkNames(HandleNewDevice(cfg, o, s, link).devs) ==
            LinkNames(s.devs) + if Acceptable(link, true) then NameOf(o, link) else {}
  {
    hide NewEntry, Engage, Blocked, Acceptable, NameOf, RegOk;
    if Acceptable(link, true) && !Blocked(o, s.devs, link) {
      EntryNames(o, s.devs, s.cursor, link);
      var e := NewEntry(o, s.devs, s.cursor, link);
      if e.dev.Some? {
        EngageSame(cfg, o, e.devs[e.dev.value], e.vol, e.probed, s.world);
        SameNames(e.devs, e.dev.value, Engage(cfg, o, e.devs[e.dev.value], e.vol, e.probed, s.world).0);
      }
    }
  }

  lemma SameNames(devs: Registry, id: nat, d: Dev)
    requires id in devs && d.devlink == devs[id].devlink
    ensures LinkNames(devs[id := d]) == LinkNames(devs)
  {
    var devs' := devs[id := d];
    forall j | j in devs ensures devs[j].devlink in LinkNames(devs') && devs'[j].devlink in LinkNames(devs) {
      assert devs'[j].devlink == devs[j].devlink;
    }
  }

  lemma {:induction false} RemovedNames(o: Oracle, s: State, link: string)
    requires RegOk(s.devs)
    ensures LinkNames(HandleRemovedDevice(o, s, link).devs) == LinkNames(s.devs) - {link}
  {
    hide HandleRemovedDevice, RegOk;
    RemovedRegistry(s, o, link);
    var devs' := HandleRemovedDevice(o, s, link).devs;
    forall id | id in s.devs && s.devs[id].devlink != link ensures s.devs[id].devlink in LinkNames(devs') {
      assert devs'[id].devlink == s.devs[id].devlink;
    }
  }

  // ---- How often a device is new -----------------------------------------------------

  /** How often a device has become known that was not, or not any more. */
  ghost function Introductions(events: seq<Event>): nat {
    if events == [] then 0
    else
      var a := AccountOf(events[..|events| - 1]);
      Introductions(events[..|events| - 1]) + |Accounted(a, events[|events| - 1]).names - a.names|
  }

  lemma {:induction false} FewIntroductions(events: seq<Event>, k: nat)
    requires k <= |events|
    ensures |AccountOf(events[..k]).names| <= Introductions(events[..k]) <= Introductions(events)
    decreases |events|, |events| - k
  {
    hide Accounted, AccountOf;
    if k < |events| {
      var n := |events| - 1;
      FewIntroductions(events[..n], k);
      assert events[..n][..k] == events[..k];
    } else if k > 0 {
      var n := k - 1;
      FewIntroductions(events[..n], n);
      assert events[..k] == events && events[..n][..n] == events[..n];
      AccountStep(events);
      Enlarged(AccountOf(events[..n]).names, AccountOf(events).names);
    } else {
      assert events[..0] == [];
      NothingAccounted();
    }
  }

  lemma AccountStep(events: seq<Event>)
    requires events != []
    ensures AccountOf(events) == Accounted(AccountOf(events[..|events| - 1]), events[|events| - 1])
  {
  }

  lemma NothingAccounted()
    ensures AccountOf([]).names == {}
  {
  }

  lemma Enlarged(names: set<string>, names': set<string>)
    ensures |names'| <= |names| + |names' - names|
  {
    SubsetSize(names', names + (names' - names));
  }

  /** Devices introduced one by one, at most 999 in all, are few at any time. */
  lemma FewInAll(events: seq<Event>)
    requires Introductions(events) <= MAX_ID
    ensures FewAtATime(events, |events|)
  {
    forall k: nat | k <= |events| ensures |AccountOf(events[..k]).names| <= MAX_ID {
      FewIntroductions(events, k);
    }
  }

  // ---- Main result -------------------------------------------------------------------

  /** The daemon does not run out of IDs as long as there are never more than 999
      devices at a time that it has been told of, in whatever mode and with whatever
      answers, and that have not been removed since. */
  lemma {:induction false} NeverStuck(cfg: Config, foreign: map<string, string>, events: seq<Event>,
                                      trace: seq<State>, k: nat)
    requires IsTrace(cfg, foreign, events, trace) && k <= |events| && FewAtATime(events, k)
    ensures !trace[k].stuck
    ensures forall id :: id in trace[k].devs ==> trace[k].devs[id].devlink in AccountOf(events[..k]).names
  {
    hide AccountOf, FewAtATime, Step;
    TraceIsRun(cfg, foreign, events, trace, k);
    RunCovered(cfg, foreign, events, k);
    forall id | id in trace[k].devs ensures trace[k].devs[id].devlink in AccountOf(events[..k]).names {
      assert trace[k].devs[id].devlink in LinkNames(trace[k].devs);
    }
  }
}
