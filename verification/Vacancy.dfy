/** No directory is in the way when a container or a mountpoint is about to be made. */
module Vacancy {
  import opened Option
  import opened Sets
  import opened Text
  import opened Names
  import opened Platform
  import opened AutoDir
  import opened Devices
  import opened DeviceManager
  import opened Automounter
  import opened RegistryInvariant
  import opened Paths
  import opened ManagedMode
  import opened Resources
  import opened EnoughIds

  /** The container of `d` is not there before it is opened, nor is the mountpoint of
      a volume that is waiting or not known. */
  ghost predicate Vacant(cfg: Config, d: Dev, fs: Fs) {
    && (d.dir.path == "" ==> ContainerPath(cfg.workdir, d.id) !in fs.dirs)
    && forall i :: (i in d.vols ==> d.vols[i].state == Pending) ==> MountPath(cfg.workdir, d.id, i) !in fs.dirs
  }

  /** That holds of the device that `link` belongs to, known or not. */
  ghost predicate Ready(cfg: Config, o: Oracle, s: State, link: NonEmpty) {
    s.cursor <= MAX_ID && !Blocked(o, s.devs, link) ==>
      var e := NewEntry(o, s.devs, s.cursor, link);
      e.dev.Some? ==> Vacant(cfg, Before(s.devs, e.dev.value, ""), s.world.fs)
  }

  /** That holds of all devices that are known, and of all to come as long as no ID
      is used again. */
  ghost predicate VacantAhead(cfg: Config, s: State) {
    && (forall id :: id in s.devs ==> id <= s.cursor)
    && forall id: nat :: id in s.devs || id > s.cursor ==> Vacant(cfg, Before(s.devs, id, ""), s.world.fs)
  }

  // ---- Mounting ------------------------------------------------------------------------

  lemma {:induction false} TryMountVacant(cfg: Config, o: Oracle, d: Dev, i: int, todo: set<int>, w: World)
    requires DevOk(d.id, d) && i in todo && todo <= d.vols.Keys && DevShape(cfg, d, todo) && Vacant(cfg, d, w.fs)
    ensures var (d', w') := TryMount(cfg, o, d, i, w); Vacant(cfg, d', w'.fs)
  {
    hide MountManaged, MountPath, ContainerPath;
    if d.vols[i].state == Pending && d.dir.created {
      var (d', w') := TryMount(cfg, o, d, i, w);
      MountManagedOutcome(cfg, o, d.vols[i], d.dir.path, w.fs);
      MountPathIs(cfg, d.id, i);
      forall j | j in d'.vols ==> d'.vols[j].state == Pending ensures MountPath(cfg.workdir, d.id, j) !in w'.fs.dirs {
        MountPathInjective(cfg.workdir, d.id, i, d.id, j);
        assert j in d.vols ==> d.vols[j].state == Pending;
      }
    }
  }

  lemma MountPathIs(cfg: Config, id: nat, i: int)
    ensures MountPath(cfg.workdir, id, i) == ContainerPath(cfg.workdir, id) + "/" + DecimalInt(i)
    ensures ContainerPath(cfg.workdir, id) != ""
  {
  }

  lemma {:induction false} MountPendingVacant(cfg: Config, foreign: map<string, string>, o: Oracle, d: Dev,
                                              todo: set<int>, w: World)
    requires DevOk(d.id, d) && todo <= d.vols.Keys && DevShape(cfg, d, todo)
    requires DevFs(cfg, foreign, INEXACT, d, w.fs) && Vacant(cfg, d, w.fs)
    ensures var (d', w') := MountPending(cfg, o, d, todo, w); Vacant(cfg, d', w'.fs)
    decreases |todo|
  {
    hide TryMount, DevFs, DevShape, Vacant;
    if todo != {} {
      var i := Least(todo);
      var (d1, w1) := TryMount(cfg, o, d, i, w);
      TryMountVacant(cfg, o, d, i, todo, w);
      TryMountLocal(cfg, foreign, INEXACT, o, d, i, todo, w);
      TryMountSame(cfg, o, d, i, w);
      DevOkSame(d.id, d, d1);
      MountPendingVacant(cfg, foreign, o, d1, todo - {i}, w1);
    }
  }

  lemma OpenContainerVacant(cfg: Config, o: Oracle, d: Dev, w: World)
    requires d.dir == NO_DIR && Vacant(cfg, d, w.fs)
    ensures var (d', w') := OpenContainer(cfg, o, d, w); Vacant(cfg, d', w'.fs)
  {
    hide OpenContainer, MountPath, ContainerPath;
    OpenContainerOutcome(cfg, o, d, w);
    MountPathIs(cfg, d.id, 0);
    forall i ensures MountPath(cfg.workdir, d.id, i) != ContainerPath(cfg.workdir, d.id) {
      MountPathIsOwn(cfg.workdir, d.id, i);
    }
  }

  lemma {:induction false} EngageVacant(cfg: Config, foreign: map<string, string>, o: Oracle, d: Dev,
                                        vol: Option<int>, probed: bool, w: World)
    requires DevOk(d.id, d) && (vol.Some? ==> vol.value in d.vols) && EntryShape(cfg, d, vol, probed)
    requires DevFs(cfg, foreign, INEXACT, d, w.fs) && Vacant(cfg, d, w.fs)
    ensures var (d', w') := Engage(cfg, o, d, vol, probed, w); Vacant(cfg, d', w'.fs)
  {
    hide TryMount, MountPending, OpenContainer, DevFs, Acceptable;
    if d.state == Probed {
      var d1 := FilterDev(d);
      SameFs(cfg, foreign, INEXACT, d, d1, w.fs);
      if d1.state == Ok {
        var (d2, w2) := OpenContainer(cfg, o, d1, w);
        OpenContainerVacant(cfg, o, d1, w);
        OpenContainerLocal(cfg, foreign, INEXACT, o, d1, w);
        OpenContainerOutcome(cfg, o, d1, w);
        DevOkSame(d.id, d, d2);
        MountPendingVacant(cfg, foreign, o, d2, d2.vols.Keys, w2);
      }
    } else if d.state == Ok && vol.Some? {
      TryMountVacant(cfg, o, d, vol.value, {vol.value}, w);
    }
  }

  // ---- Events --------------------------------------------------------------------------

  lemma GrownVacant(cfg: Config, d: Dev, d': Dev, fs: Fs)
    requires Vacant(cfg, d, fs) && Grown(d, d')
    ensures Vacant(cfg, d', fs)
  {
    hide MountPath, ContainerPath;
    forall i | i in d'.vols ==> d'.vols[i].state == Pending ensures MountPath(cfg.workdir, d.id, i) !in fs.dirs {
      assert i in d.vols ==> d.vols[i].state == Pending;
    }
  }

  /** What one device does puts nothing in the way of another. */
  lemma OthersVacant(cfg: Config, foreign: map<string, string>, id: nat, d: Dev, fs: Fs, fs': Fs)
    requires d.id != id && Vacant(cfg, d, fs) && Rest(cfg, foreign, id, fs) == Rest(cfg, foreign, id, fs')
    ensures Vacant(cfg, d, fs')
  {
    hide MountPath, ContainerPath;
    var r, r' := Rest(cfg, foreign, id, fs), Rest(cfg, foreign, id, fs');
    forall p | Own(cfg.workdir, d.id, p) ensures p in fs.dirs <==> p in fs'.dirs {
      if Own(cfg.workdir, id, p) {
        OwnDisjoint(cfg.workdir, id, d.id, p);
      }
      assert p in r.dirs <==> p in fs.dirs;
      assert p in r'.dirs <==> p in fs'.dirs;
    }
    forall i ensures Own(cfg.workdir, d.id, MountPath(cfg.workdir, d.id, i)) {
      MountPathIsOwn(cfg.workdir, d.id, i);
    }
  }

  lemma {:induction false} ReplacedVacant(cfg: Config, foreign: map<string, string>, s: State, id: nat, d: Dev,
                                          fs: Fs, s': State)
    requires VacantAhead(cfg, s) && RegOk(s.devs) && d.id == id && Vacant(cfg, d, fs)
    requires Rest(cfg, foreign, id, s.world.fs) == Rest(cfg, foreign, id, fs)
    requires s'.devs == s.devs[id := d] && s'.world.fs == fs && s.cursor <= s'.cursor && id <= s'.cursor
    ensures VacantAhead(cfg, s')
  {
    hide Vacant, Rest;
    forall j: nat | j in s'.devs || j > s'.cursor ensures Vacant(cfg, Before(s'.devs, j, ""), s'.world.fs) {
      if j != id {
        assert j in s.devs ==> DevOk(j, s.devs[j]);
        OthersVacant(cfg, foreign, id, Before(s.devs, j, ""), s.world.fs, fs);
      }
    }
  }

  lemma SameVacant(cfg: Config, devs: Registry, id: nat, name: string, fs: Fs)
    requires Vacant(cfg, Before(devs, id, ""), fs)
    ensures Vacant(cfg, Before(devs, id, name), fs)
  {
  }

  /** The device that a new link belongs to, before anything is done about it. */
  lemma {:induction false} EntryVacant(cfg: Config, foreign: map<string, string>, o: Oracle, s: State, link: NonEmpty)
    requires ManagedInv(cfg, foreign, INEXACT, s) && Ready(cfg, o, s, link) && !Blocked(o, s.devs, link)
    ensures var e := NewEntry(o, s.devs, s.cursor, link);
            e.dev.Some? ==>
              var d := e.devs[e.dev.value];
              && DevOk(d.id, d) && d.id == e.dev.value && EntryShape(cfg, d, e.vol, e.probed)
              && DevFs(cfg, foreign, INEXACT, d, s.world.fs) && Vacant(cfg, d, s.world.fs)
  {
    hide DevFs, Rest, DevShape, NewEntry, AllOwned, Blocked, RegOk, DevOk, ForeignKept, EntryShape, Vacant;
    var e := NewEntry(o, s.devs, s.cursor, link);
    NewEntryOk(o, s.devs, s.cursor, link);
    NewEntryShape(cfg, o, s.devs, s.cursor, link);
    if e.dev.Some? {
      var id := e.dev.value;
      var d := e.devs[id];
      MemberOk(e.devs, id);
      BeforeFs(cfg, foreign, INEXACT, s, id, d.devlink);
      GrownFs(cfg, foreign, INEXACT, Before(s.devs, id, d.devlink), d, s.world.fs);
      SameVacant(cfg, s.devs, id, d.devlink, s.world.fs);
      GrownVacant(cfg, Before(s.devs, id, d.devlink), d, s.world.fs);
    }
  }

  /** Which ID a new link is about. */
  lemma {:induction false} EntryId(o: Oracle, s: State, link: NonEmpty)
    requires RegOk(s.devs) && s.cursor <= MAX_ID && !Blocked(o, s.devs, link)
    requires forall id :: id in s.devs ==> id <= s.cursor
    requires NameOf(o, link) <= LinkNames(s.devs) || s.cursor < MAX_ID
    ensures var e := NewEntry(o, s.devs, s.cursor, link);
            && e.cursor == s.cursor + (if NameOf(o, link) <= LinkNames(s.devs) then 0 else 1)
            && (e.dev.Some? ==>
                  e.dev.value in s.devs || (!(NameOf(o, link) <= LinkNames(s.devs)) && e.dev.value == e.cursor))
  {
    hide RegisterOn, LinkNumber, InfoOf, RootOf, DevOk;
    var r := RootOf(o, link);
    if FindDev(s.devs, r) == None {
      FindDevNone(s.devs, r);
      assert r !in LinkNames(s.devs);
    } else {
      assert s.devs[FindDev(s.devs, r).value].devlink in LinkNames(s.devs);
    }
  }

  lemma {:induction false} AheadIsReady(cfg: Config, o: Oracle, s: State, link: NonEmpty)
    requires RegOk(s.devs) && s.cursor <= MAX_ID && VacantAhead(cfg, s)
    requires NameOf(o, link) <= LinkNames(s.devs) || s.cursor < MAX_ID
    ensures Ready(cfg, o, s, link)
  {
    hide Vacant, NewEntry, Blocked, NameOf, LinkNames, RegOk;
    if !Blocked(o, s.devs, link) {
      EntryId(o, s, link);
    }
  }

  lemma {:induction false} NewDeviceVacant(cfg: Config, foreign: map<string, string>, o: Oracle, s: State,
                                           link: NonEmpty)
    requires ManagedInv(cfg, foreign, INEXACT, s) && VacantAhead(cfg, s) && Acceptable(link, true)
    requires NameOf(o, link) <= LinkNames(s.devs) || s.cursor < MAX_ID
    requires !Blocked(o, s.devs, link)
    ensures var s' := HandleNewDevice(cfg, o, s, link);
            VacantAhead(cfg, s') && s'.cursor == s.cursor + if NameOf(o, link) <= LinkNames(s.devs) then 0 else 1
  {
    hide DevFs, Rest, DevShape, Engage, NewEntry, AllOwned, Blocked, Acceptable, RegOk, DevOk, ForeignKept, Vacant,
         EntryShape, Ready, NameOf, LinkNames;
    var e := NewEntry(o, s.devs, s.cursor, link);
    EntryId(o, s, link);
    AheadIsReady(cfg, o, s, link);
    NewEntryOk(o, s.devs, s.cursor, link);
    EntryVacant(cfg, foreign, o, s, link);
    if e.dev.Some? {
      var id := e.dev.value;
      var d := e.devs[id];
      if e.vol == None && d.vols == map[] {
        ReplacedVacant(cfg, foreign, s, id, d, s.world.fs, HandleNewDevice(cfg, o, s, link));
      } else {
        var (d', w) := Engage(cfg, o, d, e.vol, e.probed, s.world);
        EngageLocal(cfg, foreign, INEXACT, o, d, e.vol, e.probed, s.world);
        EngageVacant(cfg, foreign, o, d, e.vol, e.probed, s.world);
        EngageSame(cfg, o, d, e.vol, e.probed, s.world);
        assert s.devs[id := d][id := d'] == s.devs[id := d'];
        ReplacedVacant(cfg, foreign, s, id, d', w.fs, HandleNewDevice(cfg, o, s, link));
      }
    }
  }

  /** What a removed device leaves behind is in the way of no other. */
  lemma {:induction false} RemovedVacant(cfg: Config, foreign: map<string, string>, o: Oracle, s: State, link: string)
    requires ManagedInv(cfg, foreign, INEXACT, s) && VacantAhead(cfg, s)
    ensures var s' := HandleRemovedDevice(o, s, link); VacantAhead(cfg, s') && s'.cursor == s.cursor
  {
    hide RemoveDev, Rest, DevFs, DevShape, AllOwned, Vacant;
    if FindDev(s.devs, link).Some? {
      var id := FindDev(s.devs, link).value;
      assert DevOk(id, s.devs[id]) && Settled(cfg, s.devs[id]);
      var s' := HandleRemovedDevice(o, s, link);
      RemoveDevLocal(cfg, foreign, INEXACT, o, s.devs[id], s.world);
      forall j: nat | j in s'.devs || j > s'.cursor ensures Vacant(cfg, Before(s'.devs, j, ""), s'.world.fs) {
        assert j in s.devs ==> DevOk(j, s.devs[j]);
        OthersVacant(cfg, foreign, id, Before(s.devs, j, ""), s.world.fs, s'.world.fs);
      }
    }
  }

  /** Where exactly what is described exists, nothing is in the way. */
  lemma {:induction false} ExactIsReady(cfg: Config, foreign: map<string, string>, o: Oracle, s: State, link: NonEmpty)
    requires ManagedInv(cfg, foreign, Exact(true, false), s)
    ensures Ready(cfg, o, s, link)
  {
    hide Vacant, Rest, AllOwned, DevFs;
    forall id: nat ensures Vacant(cfg, Before(s.devs, id, ""), s.world.fs) {
      var d := Before(s.devs, id, "");
      BeforeFs(cfg, foreign, Exact(true, false), s, id, "");
      assert DevShape(cfg, d, {}) && d.id == id by {
        if id in s.devs {
          assert Settled(cfg, s.devs[id]) && DevOk(id, s.devs[id]);
        }
      }
      DescribedIsVacant(cfg, foreign, d, s.world.fs);
    }
  }

  lemma DescribedIsVacant(cfg: Config, foreign: map<string, string>, d: Dev, fs: Fs)
    requires DevShape(cfg, d, {}) && DevFs(cfg, foreign, Exact(true, false), d, fs)
    ensures Vacant(cfg, d, fs)
  {
    hide MountPath, ContainerPath;
    var c := ContainerPath(cfg.workdir, d.id);
    MountPathIs(cfg, d.id, 0);
    assert Own(cfg.workdir, d.id, c);
    forall j | j in d.vols && d.vols[j].mp.dir.created
      ensures d.vols[j].mp.dir.path == MountPath(cfg.workdir, d.id, j) != c && d.vols[j].state == Mounted
    {
      assert VolShape(cfg, d, j, {});
      MountPathIsOwn(cfg.workdir, d.id, j);
    }
    forall i | i in d.vols ==> d.vols[i].state == Pending ensures MountPath(cfg.workdir, d.id, i) !in fs.dirs {
      MountPathIsOwn(cfg.workdir, d.id, i);
      forall j | j in d.vols && d.vols[j].mp.dir.created
        ensures d.vols[j].mp.dir.path != MountPath(cfg.workdir, d.id, i)
      {
        MountPathInjective(cfg.workdir, d.id, i, d.id, j);
      }
    }
  }

  // ---- Runs ----------------------------------------------------------------------------

  /** In managed mode the devices that may be known are known, and the cursor counts
      how often one was new. */
  ghost predicate Counted(events: seq<Event>, s: State) {
    LinkNames(s.devs) == AccountOf(events).names && s.cursor == Introductions(events) && !s.stuck
  }

  lemma {:induction false} StepVacant(cfg: Config, foreign: map<string, string>, events: seq<Event>, s: State)
    requires events != [] && ManagedRun(events) && Introductions(events) <= MAX_ID
    requires var before := events[..|events| - 1];
             ManagedInv(cfg, foreign, INEXACT, s) && VacantAhead(cfg, s) && Counted(before, s)
    requires !Step(cfg, s, events[|events| - 1]).stuck
    ensures var s' := Step(cfg, s, events[|events| - 1]); VacantAhead(cfg, s') && Counted(events, s')
  {
    hide HandleNewDevice, HandleRemovedDevice, VacantAhead, ManagedInv, NameOf, LinkNames, Acceptable, Blocked;
    var ev := events[|events| - 1];
    var names := AccountOf(events[..|events| - 1]).names;
    assert ev.IsManaged();
    assert RegOk(s.devs) by {
      InvariantParts(cfg, foreign, s);
    }
    match ev
    case DeviceAdded(o, link) =>
      AddedNames(cfg, o, s, link);
      if Acceptable(link, true) {
        OneName(o, link, names);
        assert !Blocked(o, s.devs, link) by {
          BlockedIsStuck(cfg, o, s, link);
        }
        NewDeviceVacant(cfg, foreign, o, s, link);
      } else {
        assert HandleNewDevice(cfg, o, s, link) == s by {
          NotAcceptable(cfg, o, s, link);
        }
      }
    case DeviceGone(o, link) =>
      RemovedNames(o, s, link);
      RemovedVacant(cfg, foreign, o, s, link);
  }

  lemma InvariantParts(cfg: Config, foreign: map<string, string>, s: State)
    requires ManagedInv(cfg, foreign, INEXACT, s)
    ensures RegOk(s.devs) && s.cursor <= MAX_ID
  {
  }

  lemma OneName(o: Oracle, link: NonEmpty, names: set<string>)
    ensures |names + NameOf(o, link) - names| == if NameOf(o, link) <= names then 0 else 1
  {
    if NameOf(o, link) <= names {
      assert names + NameOf(o, link) - names == {};
    } else {
      assert names + NameOf(o, link) - names == {RootOf(o, link)};
    }
  }

  lemma BlockedIsStuck(cfg: Config, o: Oracle, s: State, link: NonEmpty)
    requires s.cursor <= MAX_ID && Acceptable(link, true) && !HandleNewDevice(cfg, o, s, link).stuck
    ensures !Blocked(o, s.devs, link)
  {
    hide Blocked, Acceptable;
  }

  lemma NotAcceptable(cfg: Config, o: Oracle, s: State, link: NonEmpty)
    requires s.cursor <= MAX_ID && !Acceptable(link, true)
    ensures HandleNewDevice(cfg, o, s, link) == s
  {
    hide Acceptable;
  }

  /** Whatever fails, and whatever is left behind when devices are removed: as long as
      no ID is used again, no directory is in the way of a container or a mountpoint
      that is still to be made, of known devices and of those to come. */
  lemma {:induction false} LeftoversStayBehind(cfg: Config, foreign: map<string, string>, events: seq<Event>)
    requires ManagedRun(events) && Introductions(events) <= MAX_ID
    ensures var s := Run(cfg, Start(foreign), events); VacantAhead(cfg, s) && Counted(events, s)
  {
    hide Step, ManagedInv, VacantAhead;
    if events != [] {
      var n := |events| - 1;
      FewIntroductions(events, n);
      LeftoversStayBehind(cfg, foreign, events[..n]);
      ManagedInvariant(cfg, foreign, INEXACT, events[..n]);
      FewInAll(events);
      RunCovered(cfg, foreign, events, |events|);
      assert events[..|events|] == events;
      StepVacant(cfg, foreign, events, Run(cfg, Start(foreign), events[..n]));
    } else {
      NothingInTheWay(cfg, foreign);
    }
  }

  lemma NothingInTheWay(cfg: Config, foreign: map<string, string>)
    ensures VacantAhead(cfg, Start(foreign)) && Counted([], Start(foreign))
  {
    assert LinkNames(map[]) == {};
  }
}
