/** What every event keeps true of the registry, in either mode. */
module RegistryInvariant {
  import opened Option
  import opened Sets
  import opened Names
  import opened Platform
  import opened AutoDir
  import opened Devices
  import opened DeviceManager
  import opened Automounter

  predicate ValidIndex(i: int) {
    i == -1 || 0 < i <= INT_MAX
  }

  ghost predicate DevOk(id: nat, d: Dev) {
    && d.id == id && 1 <= id <= MAX_ID
    && d.refs == 1 + |d.vols|
    && (forall i :: i in d.vols ==> d.vols[i].index == i && ValidIndex(i))
    && (forall i, j :: i in d.vols && j in d.vols && d.vols[i].devname == d.vols[j].devname ==> i == j)
  }

  ghost predicate RegOk(devs: Registry) {
    && (forall id :: id in devs ==> DevOk(id, devs[id]))
    && (forall i, j :: i in devs && j in devs && devs[i].devlink == devs[j].devlink ==> i == j)
  }

  /** `v'` describes the same volume as `v`. */
  predicate SameVol(v: Vol, v': Vol) {
    v'.(state := v.state, mp := v.mp, symlink := v.symlink) == v
  }

  /** `d'` describes the same device with the same volumes as `d`. */
  ghost predicate SameDev(d: Dev, d': Dev) {
    && d'.(dir := d.dir, vols := d.vols, state := d.state) == d
    && d'.vols.Keys == d.vols.Keys
    && (forall i :: i in d.vols ==> SameVol(d.vols[i], d'.vols[i]))
  }

  lemma TryMountSame(cfg: Config, o: Oracle, d: Dev, i: int, w: World)
    requires i in d.vols
    ensures var d' := TryMount(cfg, o, d, i, w).0; SameDev(d, d') && d'.dir == d.dir && d'.state == d.state
  {
  }

  lemma {:induction false} MountPendingSame(cfg: Config, o: Oracle, d: Dev, todo: set<int>, w: World)
    requires todo <= d.vols.Keys
    ensures var d' := MountPending(cfg, o, d, todo, w).0; SameDev(d, d') && d'.dir == d.dir && d'.state == d.state
    decreases |todo|
  {
    if todo != {} {
      var i := Least(todo);
      var (d1, w1) := TryMount(cfg, o, d, i, w);
      TryMountSame(cfg, o, d, i, w);
      MountPendingSame(cfg, o, d1, todo - {i}, w1);
    }
  }

  lemma EngageSame(cfg: Config, o: Oracle, d: Dev, vol: Option<int>, probed: bool, w: World)
    requires vol.Some? ==> vol.value in d.vols
    ensures SameDev(d, Engage(cfg, o, d, vol, probed, w).0)
  {
    hide TryMount, MountPending;
    if d.state !in {Synthetic, Broken, Rejected} {
      var d1 := if d.state == Probed then FilterDev(d) else d;
      if d1.state == Ok && (probed || d1.dir.path == "") {
        var (d2, w2) := OpenContainer(cfg, o, d1, w);
        MountPendingSame(cfg, o, d2, d2.vols.Keys, w2);
      } else if d1.state == Ok && vol.Some? {
        TryMountSame(cfg, o, d1, vol.value, w);
      }
    }
  }

  lemma DevOkSame(id: nat, d: Dev, d': Dev)
    requires DevOk(id, d) && SameDev(d, d')
    ensures DevOk(id, d')
  {
    assert |d.vols| == |d.vols.Keys| == |d'.vols.Keys| == |d'.vols|;
  }

  lemma AddVolOk(id: nat, d: Dev, devname: NonEmpty, info: VolumeInfo)
    requires DevOk(id, d)
    ensures var d' := AddVol(d, devname, info).0; DevOk(id, d') && d'.devlink == d.devlink
  {
    if FindVol(d.vols, devname) == None {
      var i := VolumeIndex(devname);
      if i !in d.vols {
        assert d.vols[i := NewVol(devname, info)].Keys == d.vols.Keys + {i};
      }
    }
  }

  lemma FindDevUnique(devs: Registry, link: string, id: nat)
    requires RegOk(devs) && id in devs && devs[id].devlink == link
    ensures FindDev(devs, link) == Some(id)
  {
    hide DevOk;
    assert id in WithLink(devs, link);
  }

  lemma FindDevNone(devs: Registry, link: string)
    requires FindDev(devs, link) == None
    ensures forall id :: id in devs ==> devs[id].devlink != link
  {
    assert forall id :: id in devs && devs[id].devlink == link ==> id in WithLink(devs, link);
  }

  lemma MemberOk(devs: Registry, id: nat)
    requires RegOk(devs) && id in devs
    ensures DevOk(id, devs[id]) && devs[id].id == id && 1 <= id <= MAX_ID
  {
  }

  lemma RegOkUpdate(devs: Registry, id: nat, d: Dev)
    requires RegOk(devs) && DevOk(id, d)
    requires if id in devs then d.devlink == devs[id].devlink
             else forall j :: j in devs ==> devs[j].devlink != d.devlink
    ensures RegOk(devs[id := d])
  {
    hide DevOk;
  }

  /** The outcome of registering a link is that of registering it on the device
      it belongs to, unless there is nothing to register. */
  ghost predicate EntryOutcome(o: Oracle, devs: Registry, cursor: nat, link: NonEmpty, e: Entry) {
    || e == Entry(devs, cursor, e.dev, None, false)
    || (e.dev.Some? &&
        var id := e.dev.value;
        var known := FindDev(devs, RootOf(o, link));
        && (if known.Some? then known.value == id && e.cursor == cursor
            else cursor <= MAX_ID && FreeIds(devs.Keys) != {} && id == FreshId(devs.Keys, cursor) == e.cursor)
        && id in e.devs && e.devs == devs[id := e.devs[id]]
        && (e.devs[id], e.vol) == RegisterOn(o, link, Before(devs, id, RootOf(o, link)), known.Some?)
        && (e.probed ==> e.devs[id].state == Probed))
  }

  lemma NewEntryOutcome(o: Oracle, devs: Registry, cursor: nat, link: NonEmpty)
    requires cursor <= MAX_ID && !Blocked(o, devs, link)
    ensures EntryOutcome(o, devs, cursor, link, NewEntry(o, devs, cursor, link))
  {
    hide RegisterOn, FreshId, RootOf, LinkNumber, InfoOf, FindDev;
  }

  lemma ExaminedSame(o: Oracle, link: NonEmpty, d: Dev)
    ensures var p := Examined(o, link, d);
            && p == d.(name := p.name, state := p.state, port := p.port, uuid := p.uuid)
            && (p == d || (d.state == Synthetic && p.state in {Probed, Broken}))
  {
    hide LinkNumber;
  }

  lemma RegisterOnOk(o: Oracle, link: NonEmpty, id: nat, d: Dev, known: bool)
    requires DevOk(id, d)
    ensures var d' := RegisterOn(o, link, d, known).0; DevOk(id, d') && d'.devlink == d.devlink
  {
    hide AddVol, LinkNumber, Examined, FindVol, InfoOf, Devname;
    ExaminedSame(o, link, d);
    if InfoOf(o, link).Some? {
      AddVolOk(id, Examined(o, link, d), Devname(o, link), InfoOf(o, link).value);
    }
  }

  /** What registering a link does to the registry. */
  ghost predicate Registered(devs: Registry, cursor: nat, e: Entry) {
    && RegOk(e.devs)
    && (e.dev == None ==> e.devs == devs && e.cursor == cursor)
    && (e.dev.Some? ==>
          var id := e.dev.value;
          && id in e.devs && e.devs == devs[id := e.devs[id]]
          && (id in devs ==> e.cursor == cursor && e.devs[id].devlink == devs[id].devlink))
  }

  /** Registering a link touches at most one device, and gives new devices new
      IDs and new names. */
  lemma {:induction false} NewEntryOk(o: Oracle, devs: Registry, cursor: nat, link: NonEmpty)
    requires RegOk(devs) && cursor <= MAX_ID && !Blocked(o, devs, link)
    ensures Registered(devs, cursor, NewEntry(o, devs, cursor, link))
  {
    hide NewEntry, RegisterOn, RootOf;
    var e := NewEntry(o, devs, cursor, link);
    NewEntryOutcome(o, devs, cursor, link);
    if e != Entry(devs, cursor, e.dev, None, false) {
      var id := e.dev.value;
      var known := FindDev(devs, RootOf(o, link));
      if known == None {
        FindDevNone(devs, RootOf(o, link));
      }
      RegisterOnOk(o, link, id, Before(devs, id, RootOf(o, link)), known.Some?);
      RegOkUpdate(devs, id, e.devs[id]);
    }
  }

  lemma {:induction false} HandleNewDeviceOk(cfg: Config, o: Oracle, s: State, link: NonEmpty)
    requires RegOk(s.devs) && s.cursor <= MAX_ID
    ensures RegOk(HandleNewDevice(cfg, o, s, link).devs)
  {
    hide NewEntry, Engage, Blocked, Acceptable;
    if Acceptable(link, true) && !Blocked(o, s.devs, link) {
      var e := NewEntry(o, s.devs, s.cursor, link);
      NewEntryOk(o, s.devs, s.cursor, link);
      if e.dev.Some? {
        var d := e.devs[e.dev.value];
        EngageSame(cfg, o, d, e.vol, e.probed, s.world);
        var d' := Engage(cfg, o, d, e.vol, e.probed, s.world).0;
        DevOkSame(e.dev.value, d, d');
        RegOkUpdate(e.devs, e.dev.value, d');
      }
    }
  }

  lemma {:induction false} EntryByMountpointOk(o: Oracle, s: State, path: NonEmpty)
    requires RegOk(s.devs) && s.cursor <= MAX_ID
    ensures RegOk(EntryByMountpoint(o, s, path).0.devs)
  {
    hide NewEntry, Blocked, RegOk;
    var (first, second) := o.linksOf(path);
    if first != "" && !Blocked(o, s.devs, first) {
      NewEntryOk(o, s.devs, s.cursor, first);
      var e1 := NewEntry(o, s.devs, s.cursor, first);
      if second != "" && !Blocked(o, e1.devs, second) {
        NewEntryOk(o, e1.devs, e1.cursor, second);
      }
    }
  }

  lemma EngageWatchedSame(cfg: Config, o: Oracle, d: Dev, i: int, path: NonEmpty, w: World)
    requires i in d.vols
    ensures SameDev(d, EngageWatched(cfg, o, d, i, path, w).0)
  {
    hide TryMount;
    if d.state !in {Synthetic, Broken, Rejected} {
      var d1 := if d.state == Probed then FilterDev(d) else d;
      var d2 := d1.(dir := Dir(path, true, true));
      TryMountSame(cfg, o, d2, i, Announce(d2, w));
    }
  }

  lemma {:induction false} HandleNewMountpointOk(cfg: Config, o: Oracle, s: State, path: NonEmpty)
    requires RegOk(s.devs) && s.cursor <= MAX_ID
    ensures RegOk(HandleNewMountpoint(cfg, o, s, path).devs)
  {
    hide EntryByMountpoint, EngageWatched;
    EntryByMountpointOk(o, s, path);
    var (s1, dev, vol) := EntryByMountpoint(o, s, path);
    if dev.Some? && vol.Some? {
      var d := s1.devs[dev.value];
      EngageWatchedSame(cfg, o, d, vol.value, path, s1.world);
      var d' := EngageWatched(cfg, o, d, vol.value, path, s1.world).0;
      DevOkSame(dev.value, d, d');
      RegOkUpdate(s1.devs, dev.value, d');
    }
  }

  /** A removal deletes exactly the device of that name. */
  lemma {:induction false} RemovedRegistry(s: State, o: Oracle, r: string)
    requires RegOk(s.devs)
    ensures var devs' := HandleRemovedDevice(o, s, r).devs;
            forall id :: id in devs' <==> id in s.devs && s.devs[id].devlink != r
    ensures var devs' := HandleRemovedDevice(o, s, r).devs;
            forall id :: id in devs' ==> devs'[id] == s.devs[id]
  {
    hide RemoveDev, DevOk;
    forall id | id in s.devs && s.devs[id].devlink == r ensures FindDev(s.devs, r) == Some(id) {
      FindDevUnique(s.devs, r, id);
    }
  }

  lemma {:induction false} StepOk(cfg: Config, s: State, ev: Event)
    requires RegOk(s.devs) && s.cursor <= MAX_ID
    ensures RegOk(Step(cfg, s, ev).devs)
  {
    hide HandleNewDevice, HandleNewMountpoint, FindDev, RemoveDev, DevOk;
    match ev
    case DeviceAdded(o, link) => HandleNewDeviceOk(cfg, o, s, link);
    case DeviceGone(o, link) =>
    case MountpointAdded(o, path) => HandleNewMountpointOk(cfg, o, s, path);
    case MountpointGone(o, path) =>
  }

  lemma {:induction false} RunOk(cfg: Config, foreign: map<string, string>, events: seq<Event>)
    ensures RegOk(Run(cfg, Start(foreign), events).devs)
  {
    if events != [] {
      var before := events[..|events| - 1];
      RunOk(cfg, foreign, before);
      StepOk(cfg, Run(cfg, Start(foreign), before), events[|events| - 1]);
    }
  }

  /** At any time of any run, in any mix of modes: IDs are the keys and within
      1..999, links are unique, volumes sit at their own indices, block devices are
      unique within a device, and references are one plus the volumes. */
  lemma {:induction false} RegistryAlwaysOk(cfg: Config, foreign: map<string, string>, events: seq<Event>,
                                            trace: seq<State>, k: nat)
    requires IsTrace(cfg, foreign, events, trace) && k <= |events|
    ensures RegOk(trace[k].devs) && forall id :: id in trace[k].devs ==> 1 <= id <= 999
  {
    TraceIsRun(cfg, foreign, events, trace, k);
    RunOk(cfg, foreign, events[..k]);
  }

  /** The volumes of a device hold references to it, so that erasing it from the
      registry would not end its life; dropping the volumes first breaks the
      cycle, and the destructor cleans up at the erase. */
  lemma {:induction false} CycleIsBroken(cfg: Config, foreign: map<string, string>, events: seq<Event>,
                                         trace: seq<State>, k: nat, id: nat, o: Oracle)
    requires IsTrace(cfg, foreign, events, trace) && k <= |events| && id in trace[k].devs
    ensures var d, w := trace[k].devs[id], trace[k].world;
            var (dropped, fs) := DropVols(o, d, w.fs);
            && (d.vols != map[] ==> ReleaseDev(o, d, w.fs) == w.fs)
            && dropped.refs == 1 && dropped.vols == map[]
            && RemoveDev(o, d, w).fs == DestroyDev(o, dropped, fs)
  {
    hide DestroyDev;
    var d, w := trace[k].devs[id], trace[k].world;
    RegistryAlwaysOk(cfg, foreign, events, trace, k);
    assert DevOk(id, d);
    DropVolsKeeps(o, d, w.fs);
    if d.vols != map[] {
      var i := Member(d.vols.Keys);
      assert |d.vols.Keys| > 0;
    }
  }
}
