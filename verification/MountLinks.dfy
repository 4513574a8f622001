/** Where the links to mounted volumes lie, and what they are called. */
module MountLinks {
  import opened Option
  import opened Sets
  import opened Text
  import opened Names
  import opened Platform
  import opened Devices
  import opened DeviceManager
  import opened Automounter
  import opened RegistryInvariant
  import opened ManagedMode
  import opened Resources

  /** The names that are tried one after the other: the label, and behind it "-2", then
      "-3" behind that, and so on up to `k`. */
  function Candidate(base: string, k: nat): string {
    if k <= 1 then base else Candidate(base, k - 1) + "-" + Decimal(k)
  }

  /** The volume `v` has been linked to while `names` were in use: from the first
      candidate below the link directory that was not, if the operating system has
      agreed to it. */
  ghost predicate IsLinked(cfg: Config, o: Oracle, v: Vol, names: set<string>) {
    if cfg.linkdir == "" then v.symlink == ""
    else
      exists k: nat :: 1 <= k && FirstUnused(names, cfg.linkdir + "/" + v.labelText, k)
        && v.symlink ==
             if o.symlinkOk(Candidate(cfg.linkdir + "/" + v.labelText, k))
             then Candidate(cfg.linkdir + "/" + v.labelText, k) else ""
  }

  ghost predicate FirstUnused(names: set<string>, base: string, k: nat) {
    Candidate(base, k) !in names && forall j: nat :: 1 <= j < k ==> Candidate(base, j) in names
  }

  lemma {:induction false} SearchFindsFirst(names: set<string>, base: string, k: nat)
    requires 1 <= k && forall j: nat :: 1 <= j < k ==> Candidate(base, j) in names
    ensures exists n: nat :: 1 <= n && FirstUnused(names, base, n)
              && FreeLinkName(names, Candidate(base, k), k + 1) == Candidate(base, n)
    decreases |LongerThan(names, |Candidate(base, k)|)|
  {
    var c := Candidate(base, k);
    if c in names {
      assert Candidate(base, k + 1) == c + "-" + Decimal(k + 1);
      FewerLonger(names, c, Candidate(base, k + 1));
      SearchFindsFirst(names, base, k + 1);
    } else {
      assert FirstUnused(names, base, k);
    }
  }

  lemma RemovalKeepsLinks(o: Oracle, fs: Fs, p: string)
    ensures RmdirRetrying(o, fs, p).links == fs.links && Mkdir(o, fs, p).links == fs.links
  {
  }

  /** A pending volume on an open device, as far as its link is concerned. */
  lemma {:induction false} MountLinked(cfg: Config, o: Oracle, v: Vol, container: string, fs: Fs)
    requires v.state == Pending && Idle(v)
    ensures var (v', fs') := MountManaged(cfg, o, v, container, fs);
            && (v'.state == Mounted ==> IsLinked(cfg, o, v', fs.links.Keys))
            && (v'.state != Mounted ==> v'.symlink == "")
            && fs.links.Keys <= fs'.links.Keys && v'.labelText == v.labelText
  {
    hide RmdirRetrying, FreeLinkName;
    MountManagedOutcome(cfg, o, v, container, fs);
    var m := container + "/" + DecimalInt(v.index);
    RemovalKeepsLinks(o, fs, m);
    RemovalKeepsLinks(o, Mkdir(o, fs, m), m);
    SearchFindsFirst(fs.links.Keys, cfg.linkdir + "/" + v.labelText, 1);
    var base := cfg.linkdir + "/" + v.labelText;
    assert Candidate(base, 1) == base;
  }

  /** What mounting does about links: whatever gets mounted is linked to while names
      between `names` and `more` are in use. */
  ghost predicate NewlyLinked(cfg: Config, o: Oracle, d: Dev, d': Dev, names: set<string>, more: set<string>) {
    && names <= more
    && (forall i :: i in d.vols && d.vols[i].state == Mounted ==> i in d'.vols && d'.vols[i] == d.vols[i])
    && forall i :: i in d.vols && i in d'.vols && d.vols[i].state != Mounted && d'.vols[i].state == Mounted ==>
         exists used :: names <= used <= more && IsLinked(cfg, o, d'.vols[i], used)
  }

  lemma {:induction false} TryMountLinked(cfg: Config, o: Oracle, d: Dev, i: int, todo: set<int>, w: World)
    requires i in todo && todo <= d.vols.Keys && DevShape(cfg, d, todo)
    ensures var (d', w') := TryMount(cfg, o, d, i, w);
            NewlyLinked(cfg, o, d, d', w.fs.links.Keys, w'.fs.links.Keys)
            && forall j :: j in d.vols && j != i ==> d'.vols[j] == d.vols[j]
  {
    hide MountManaged, IsLinked;
    var v := d.vols[i];
    assert VolShape(cfg, d, i, todo);
    if v.state == Pending && d.dir.created {
      MountLinked(cfg, o, v, d.dir.path, w.fs);
    }
  }

  lemma {:induction false} MountPendingLinked(cfg: Config, foreign: map<string, string>, o: Oracle, d: Dev,
                                              todo: set<int>, w: World)
    requires DevOk(d.id, d) && todo <= d.vols.Keys && DevShape(cfg, d, todo) && DevFs(cfg, foreign, INEXACT, d, w.fs)
    ensures var (d', w') := MountPending(cfg, o, d, todo, w);
            NewlyLinked(cfg, o, d, d', w.fs.links.Keys, w'.fs.links.Keys)
    decreases |todo|
  {
    hide TryMount, DevShape, DevFs, DevOk, IsLinked, VolShape;
    if todo != {} {
      var i := Least(todo);
      var (d1, w1) := TryMount(cfg, o, d, i, w);
      TryMountLinked(cfg, o, d, i, todo, w);
      TryMountLocal(cfg, foreign, INEXACT, o, d, i, todo, w);
      TryMountSame(cfg, o, d, i, w);
      DevOkSame(d.id, d, d1);
      MountPendingLinked(cfg, foreign, o, d1, todo - {i}, w1);
      MountedStays(cfg, o, d1, todo - {i}, w1, i);
      NewlyLinkedOn(cfg, o, d, d1, MountPending(cfg, o, d1, todo - {i}, w1).0, i, w.fs.links.Keys, w1.fs.links.Keys,
                    MountPending(cfg, o, d1, todo - {i}, w1).1.fs.links.Keys);
    }
  }

  /** Mounting other volumes does not touch volume `i`. */
  lemma {:induction false} MountedStays(cfg: Config, o: Oracle, d: Dev, todo: set<int>, w: World, i: int)
    requires todo <= d.vols.Keys && i in d.vols && i !in todo
    ensures MountPending(cfg, o, d, todo, w).0.vols[i] == d.vols[i]
    decreases |todo|
  {
    hide TryMount;
    if todo != {} {
      var j := Least(todo);
      OthersStay(cfg, o, d, j, w, i);
      MountedStays(cfg, o, TryMount(cfg, o, d, j, w).0, todo - {j}, TryMount(cfg, o, d, j, w).1, i);
    }
  }

  lemma OthersStay(cfg: Config, o: Oracle, d: Dev, j: int, w: World, i: int)
    requires i in d.vols && j in d.vols && i != j
    ensures var d' := TryMount(cfg, o, d, j, w).0; d'.vols.Keys == d.vols.Keys && d'.vols[i] == d.vols[i]
  {
    hide MountManaged;
  }

  lemma NewlyLinkedOn(cfg: Config, o: Oracle, d: Dev, d1: Dev, d2: Dev, i: int, names: set<string>, some: set<string>,
                      more: set<string>)
    requires d1.vols.Keys == d.vols.Keys == d2.vols.Keys && i in d.vols
    requires NewlyLinked(cfg, o, d, d1, names, some) && NewlyLinked(cfg, o, d1, d2, some, more)
    requires forall j :: j in d.vols && j != i ==> d1.vols[j] == d.vols[j]
    requires d2.vols[i] == d1.vols[i]
    ensures NewlyLinked(cfg, o, d, d2, names, more)
  {
    hide IsLinked;
  }

  lemma SameLinked(cfg: Config, o: Oracle, d: Dev, names: set<string>)
    ensures NewlyLinked(cfg, o, d, d, names, names)
  {
    hide IsLinked;
  }

  lemma LinkedByVolumes(cfg: Config, o: Oracle, d: Dev, d': Dev, e: Dev, names: set<string>, more: set<string>)
    requires NewlyLinked(cfg, o, d, d', names, more) && e.vols == d.vols
    ensures NewlyLinked(cfg, o, e, d', names, more)
  {
    hide IsLinked;
  }

  lemma {:induction false} EngageLinked(cfg: Config, foreign: map<string, string>, o: Oracle, d: Dev,
                                        vol: Option<int>, probed: bool, w: World)
    requires DevOk(d.id, d) && (vol.Some? ==> vol.value in d.vols) && EntryShape(cfg, d, vol, probed)
    requires DevFs(cfg, foreign, INEXACT, d, w.fs)
    ensures var (d', w') := Engage(cfg, o, d, vol, probed, w);
            NewlyLinked(cfg, o, d, d', w.fs.links.Keys, w'.fs.links.Keys)
  {
    hide TryMount, MountPending, OpenContainer, DevFs, Acceptable, IsLinked, NewlyLinked;
    SameLinked(cfg, o, d, w.fs.links.Keys);
    if d.state == Probed {
      var d1 := FilterDev(d);
      SameLinked(cfg, o, d1, w.fs.links.Keys);
      SameFs(cfg, foreign, INEXACT, d, d1, w.fs);
      if d1.state == Ok {
        var (d2, w2) := OpenContainer(cfg, o, d1, w);
        OpenContainerLocal(cfg, foreign, INEXACT, o, d1, w);
        OpenContainerOutcome(cfg, o, d1, w);
        DevOkSame(d.id, d, d2);
        MountPendingLinked(cfg, foreign, o, d2, d2.vols.Keys, w2);
        var (d3, w3) := MountPending(cfg, o, d2, d2.vols.Keys, w2);
        assert w2.fs.links.Keys == w.fs.links.Keys;
        LinkedByVolumes(cfg, o, d2, d3, d, w.fs.links.Keys, w3.fs.links.Keys);
      } else {
        LinkedByVolumes(cfg, o, d1, d1, d, w.fs.links.Keys, w.fs.links.Keys);
      }
    } else if d.state == Ok && vol.Some? {
      TryMountLinked(cfg, o, d, vol.value, {vol.value}, w);
    }
  }

  predicate IsMounted(devs: Registry, id: nat, i: int) {
    id in devs && i in devs[id].vols && devs[id].vols[i].state == Mounted
  }

  /** Whatever is newly mounted in `devs'` has been linked to while names between
      `names` and `more` were in use; what has been mounted before stays as it was. */
  ghost predicate AllNewlyLinked(cfg: Config, o: Oracle, devs: Registry, devs': Registry, names: set<string>,
                                 more: set<string>) {
    forall id, i :: IsMounted(devs', id, i) ==>
      if IsMounted(devs, id, i) then devs'[id].vols[i] == devs[id].vols[i]
      else exists used :: names <= used <= more && IsLinked(cfg, o, devs'[id].vols[i], used)
  }

  lemma {:induction false} UpdatedLinked(cfg: Config, o: Oracle, devs: Registry, id: nat, d: Dev, d': Dev,
                                         names: set<string>, more: set<string>)
    requires Grown(Before(devs, id, d.devlink), d) && d'.vols.Keys == d.vols.Keys
    requires NewlyLinked(cfg, o, d, d', names, more)
    ensures AllNewlyLinked(cfg, o, devs, devs[id := d'], names, more)
  {
    hide IsLinked, Idle;
    forall i | i in d.vols && d.vols[i].state == Mounted
      ensures IsMounted(devs, id, i) && devs[id].vols[i] == d.vols[i]
    {
      assert i in Before(devs, id, d.devlink).vols;
    }
  }

  lemma NothingLinked(cfg: Config, o: Oracle, devs: Registry, names: set<string>)
    ensures AllNewlyLinked(cfg, o, devs, devs, names, names)
  {
    hide IsLinked;
  }

  lemma {:induction false} NewDeviceLinked(cfg: Config, foreign: map<string, string>, o: Oracle, s: State,
                                           link: NonEmpty)
    requires ManagedInv(cfg, foreign, INEXACT, s)
    ensures var s' := HandleNewDevice(cfg, o, s, link);
            AllNewlyLinked(cfg, o, s.devs, s'.devs, s.world.fs.links.Keys, s'.world.fs.links.Keys)
  {
    hide DevFs, DevShape, Engage, NewEntry, AllOwned, Blocked, Acceptable, RegOk, DevOk, ForeignKept, IsLinked, Settled,
         NewlyLinked, AllNewlyLinked, Grown;
    var names := s.world.fs.links.Keys;
    NothingLinked(cfg, o, s.devs, names);
    if Acceptable(link, true) && !Blocked(o, s.devs, link) {
      var e := NewEntry(o, s.devs, s.cursor, link);
      NewEntryOk(o, s.devs, s.cursor, link);
      SettledParts(cfg, foreign, s);
      NewEntryShape(cfg, o, s.devs, s.cursor, link);
      if e.dev.Some? {
        var id := e.dev.value;
        var d := e.devs[id];
        MemberOk(e.devs, id);
        BeforeFs(cfg, foreign, INEXACT, s, id, d.devlink);
        GrownFs(cfg, foreign, INEXACT, Before(s.devs, id, d.devlink), d, s.world.fs);
        if e.vol.Some? || d.vols != map[] {
          var (d', w') := Engage(cfg, o, d, e.vol, e.probed, s.world);
          EngageLinked(cfg, foreign, o, d, e.vol, e.probed, s.world);
          EngageSame(cfg, o, d, e.vol, e.probed, s.world);
          UpdatedLinked(cfg, o, s.devs, id, d, d', names, w'.fs.links.Keys);
          assert s.devs[id := d][id := d'] == s.devs[id := d'];
        } else {
          SameLinked(cfg, o, d, names);
          UpdatedLinked(cfg, o, s.devs, id, d, d, names, names);
        }
      }
    }
  }

  lemma SettledParts(cfg: Config, foreign: map<string, string>, s: State)
    requires ManagedInv(cfg, foreign, INEXACT, s)
    ensures RegOk(s.devs) && forall id :: id in s.devs ==> Settled(cfg, s.devs[id])
  {
  }

  /** When a volume gets mounted in managed mode, it is linked to from the first
      candidate that is unused then: names are used that were before the event, and
      perhaps those that it has given to other volumes. If there is no link directory,
      or the operating system refuses the link, there is no link. */
  lemma {:induction false} LinksAreNamed(cfg: Config, foreign: map<string, string>, events: seq<Event>,
                                         trace: seq<State>, k: nat, id: nat, i: int)
    requires IsTrace(cfg, foreign, events, trace) && k < |events| && ManagedRun(events)
    requires IsMounted(trace[k + 1].devs, id, i) && !IsMounted(trace[k].devs, id, i)
    ensures exists used :: trace[k].world.fs.links.Keys <= used <= trace[k + 1].world.fs.links.Keys
              && IsLinked(cfg, events[k].o, trace[k + 1].devs[id].vols[i], used)
  {
    hide HandleNewDevice, HandleRemovedDevice, IsLinked, ManagedInv;
    assert Instant(k) && events[k].IsManaged();
    ManagedState(cfg, foreign, INEXACT, events, trace, k);
    match events[k]
    case DeviceAdded(o, link) => NewDeviceLinked(cfg, foreign, o, trace[k], link);
    case DeviceGone(o, link) => RemovedDevicesAsBefore(o, trace[k], link);
  }

  /** The link to a mounted volume, if any, is one of the candidates for its label. */
  lemma {:induction false} LinksAreCandidates(cfg: Config, foreign: map<string, string>, events: seq<Event>,
                                              trace: seq<State>, k: nat, id: nat, i: int)
    requires IsTrace(cfg, foreign, events, trace) && k <= |events| && ManagedRun(events)
    requires IsMounted(trace[k].devs, id, i) && trace[k].devs[id].vols[i].symlink != ""
    ensures var v := trace[k].devs[id].vols[i];
            && cfg.linkdir != ""
            && exists n: nat :: 1 <= n && v.symlink == Candidate(cfg.linkdir + "/" + v.labelText, n)
  {
    hide Step, IsLinked, Candidate;
    assert k > 0;
    if IsMounted(trace[k - 1].devs, id, i) {
      MountedAsBefore(cfg, foreign, events, trace, k - 1, id, i);
      LinksAreCandidates(cfg, foreign, events, trace, k - 1, id, i);
    } else {
      LinksAreNamed(cfg, foreign, events, trace, k - 1, id, i);
      var used :| IsLinked(cfg, events[k - 1].o, trace[k].devs[id].vols[i], used);
      LinkedToCandidate(cfg, events[k - 1].o, trace[k].devs[id].vols[i], used);
    }
  }

  lemma LinkedToCandidate(cfg: Config, o: Oracle, v: Vol, used: set<string>)
    requires IsLinked(cfg, o, v, used) && v.symlink != ""
    ensures cfg.linkdir != "" && exists n: nat :: 1 <= n && v.symlink == Candidate(cfg.linkdir + "/" + v.labelText, n)
  {
    hide FirstUnused, Candidate;
  }

  /** A mounted volume stays as it is. */
  lemma {:induction false} MountedAsBefore(cfg: Config, foreign: map<string, string>, events: seq<Event>,
                                           trace: seq<State>, k: nat, id: nat, i: int)
    requires IsTrace(cfg, foreign, events, trace) && k < |events| && ManagedRun(events)
    requires IsMounted(trace[k].devs, id, i) && IsMounted(trace[k + 1].devs, id, i)
    ensures trace[k + 1].devs[id].vols[i] == trace[k].devs[id].vols[i]
  {
    hide HandleNewDevice, HandleRemovedDevice, IsLinked, ManagedInv;
    assert Instant(k) && events[k].IsManaged();
    ManagedState(cfg, foreign, INEXACT, events, trace, k);
    match events[k]
    case DeviceAdded(o, link) => NewDeviceLinked(cfg, foreign, o, trace[k], link);
    case DeviceGone(o, link) => RemovedDevicesAsBefore(o, trace[k], link);
  }

  lemma RemovedDevicesAsBefore(o: Oracle, s: State, link: string)
    ensures forall id :: id in HandleRemovedDevice(o, s, link).devs ==>
              id in s.devs && HandleRemovedDevice(o, s, link).devs[id] == s.devs[id]
  {
    hide RemoveDev;
  }
}
