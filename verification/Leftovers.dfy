/** What is left behind when something fails is in good order, and is swept up when the
    device is removed. */
module Leftovers {
  import opened Option
  import opened Sets
  import opened Names
  import opened Platform
  import opened Devices
  import opened DeviceManager
  import opened Automounter
  import opened RegistryInvariant
  import opened Paths
  import opened ManagedMode
  import opened Resources

  /** Nothing is mounted on a directory that is gone, and no directory has lost the
      container it is in. */
  ghost predicate Tidy(cfg: Config, fs: Fs) {
    && fs.mounts.Keys <= fs.dirs
    && forall id: nat, p :: p in fs.dirs && Own(cfg.workdir, id, p) ==> ContainerPath(cfg.workdir, id) in fs.dirs
  }

  lemma {:induction false} RmdirTidy(cfg: Config, o: Oracle, fs: Fs, p: string)
    requires Tidy(cfg, fs)
    ensures Tidy(cfg, RmdirRetrying(o, fs, p))
  {
    hide ContainerPath;
    var fs' := RmdirRetrying(o, fs, p);
    forall id: nat, q | q in fs'.dirs && Own(cfg.workdir, id, q) ensures ContainerPath(cfg.workdir, id) in fs'.dirs {
      assert q == ContainerPath(cfg.workdir, id) || Beneath(ContainerPath(cfg.workdir, id), q);
    }
  }

  lemma {:induction false} RmdirChildrenTidy(cfg: Config, o: Oracle, fs: Fs, id: nat)
    requires Tidy(cfg, fs)
    ensures Tidy(cfg, RmdirChildren(o, fs, ContainerPath(cfg.workdir, id)))
  {
    hide ContainerPath;
    var c := ContainerPath(cfg.workdir, id);
    forall j: nat ensures !IsChild(c, ContainerPath(cfg.workdir, j)) {
      var q := ContainerPath(cfg.workdir, j);
      if IsChild(c, q) {
        assert Own(cfg.workdir, id, q) && Own(cfg.workdir, j, q);
        OwnDisjoint(cfg.workdir, id, j, q);
      }
    }
  }

  lemma {:induction false} MountTidy(cfg: Config, o: Oracle, v: Vol, id: nat, i: int, fs: Fs, v': Vol, fs': Fs)
    requires Tidy(cfg, fs) && ContainerPath(cfg.workdir, id) in fs.dirs
    requires MountOutcome(cfg, o, v, MountPath(cfg.workdir, id, i), fs, v', fs')
    ensures Tidy(cfg, fs') && ContainerPath(cfg.workdir, id) in fs'.dirs
  {
    hide ContainerPath, MountPath, RmdirRetrying;
    var m := MountPath(cfg.workdir, id, i);
    MountPathIsOwn(cfg.workdir, id, i);
    MadeTidy(cfg, fs, id, m);
    RmdirTidy(cfg, o, Mkdir(o, fs, m), m);
    RmdirRemovesOne(o, Mkdir(o, fs, m), m);
  }

  lemma RmdirRemovesOne(o: Oracle, fs: Fs, p: string)
    ensures fs.dirs - {p} <= RmdirRetrying(o, fs, p).dirs
  {
  }

  lemma {:induction false} MadeTidy(cfg: Config, fs: Fs, id: nat, p: string)
    requires Tidy(cfg, fs) && Own(cfg.workdir, id, p)
    requires p == ContainerPath(cfg.workdir, id) || ContainerPath(cfg.workdir, id) in fs.dirs
    ensures Tidy(cfg, fs.(dirs := fs.dirs + {p}))
  {
    hide ContainerPath, Own;
    forall j: nat | Own(cfg.workdir, j, p) ensures j == id {
      OwnDisjoint(cfg.workdir, id, j, p);
    }
  }

  /** What a device operation needs to be tidy. */
  ghost predicate TidyFor(cfg: Config, d: Dev, fs: Fs) {
    Tidy(cfg, fs) && (d.dir.created ==> ContainerPath(cfg.workdir, d.id) in fs.dirs)
  }

  lemma {:induction false} TryMountTidy(cfg: Config, o: Oracle, d: Dev, i: int, todo: set<int>, w: World)
    requires DevOk(d.id, d) && i in todo && todo <= d.vols.Keys && DevShape(cfg, d, todo) && TidyFor(cfg, d, w.fs)
    ensures var (d', w') := TryMount(cfg, o, d, i, w); TidyFor(cfg, d', w'.fs)
  {
    hide MountManaged, MountOutcome, Tidy;
    if d.vols[i].state == Pending && d.dir.created {
      assert VolShape(cfg, d, i, todo);
      var (v', fs') := MountManaged(cfg, o, d.vols[i], d.dir.path, w.fs);
      MountManagedOutcome(cfg, o, d.vols[i], d.dir.path, w.fs);
      MountTidy(cfg, o, d.vols[i], d.id, i, w.fs, v', fs');
    }
  }

  lemma {:induction false} MountPendingTidy(cfg: Config, foreign: map<string, string>, o: Oracle, d: Dev,
                                            todo: set<int>, w: World)
    requires DevOk(d.id, d) && todo <= d.vols.Keys && DevShape(cfg, d, todo) && DevFs(cfg, foreign, INEXACT, d, w.fs)
    requires TidyFor(cfg, d, w.fs)
    ensures Tidy(cfg, MountPending(cfg, o, d, todo, w).1.fs)
    decreases |todo|
  {
    hide TryMount, DevShape, DevFs, DevOk, Tidy;
    if todo != {} {
      var i := Least(todo);
      var (d1, w1) := TryMount(cfg, o, d, i, w);
      TryMountTidy(cfg, o, d, i, todo, w);
      TryMountLocal(cfg, foreign, INEXACT, o, d, i, todo, w);
      TryMountSame(cfg, o, d, i, w);
      DevOkSame(d.id, d, d1);
      MountPendingTidy(cfg, foreign, o, d1, todo - {i}, w1);
    }
  }

  lemma {:induction false} EngageTidy(cfg: Config, foreign: map<string, string>, o: Oracle, d: Dev, vol: Option<int>,
                                      probed: bool, w: World)
    requires DevOk(d.id, d) && (vol.Some? ==> vol.value in d.vols) && EntryShape(cfg, d, vol, probed)
    requires DevFs(cfg, foreign, INEXACT, d, w.fs) && Tidy(cfg, w.fs)
    ensures Tidy(cfg, Engage(cfg, o, d, vol, probed, w).1.fs)
  {
    hide TryMount, MountPending, OpenContainer, Acceptable, Tidy;
    if d.state == Probed {
      var d1 := FilterDev(d);
      SameFs(cfg, foreign, INEXACT, d, d1, w.fs);
      if d1.state == Ok {
        var (d2, w2) := OpenContainer(cfg, o, d1, w);
        OpenContainerLocal(cfg, foreign, INEXACT, o, d1, w);
        OpenContainerOutcome(cfg, o, d1, w);
        DevOkSame(d.id, d, d2);
        MadeTidy(cfg, w.fs, d.id, ContainerPath(cfg.workdir, d.id));
        MountPendingTidy(cfg, foreign, o, d2, d2.vols.Keys, w2);
      }
    } else if d.state == Ok && vol.Some? {
      TryMountTidy(cfg, o, d, vol.value, {vol.value}, w);
    }
  }

  lemma {:induction false} EndVolTidy(cfg: Config, o: Oracle, v: Vol, fs: Fs)
    requires Tidy(cfg, fs)
    ensures Tidy(cfg, EndVol(o, v, Unusable, fs).1)
  {
    hide RmdirRetrying, Own;
    var fs1 := if v.mp.mounted then Umount(o, fs, v.mp.dir.path) else fs;
    RmdirTidy(cfg, o, fs1, v.mp.dir.path);
  }

  lemma {:induction false} DropVolsTidy(cfg: Config, o: Oracle, d: Dev, fs: Fs)
    requires Tidy(cfg, fs)
    ensures Tidy(cfg, DropVols(o, d, fs).1)
    decreases |d.vols|
  {
    hide EndVol, Tidy;
    if d.vols != map[] {
      var i := Least(d.vols.Keys);
      EndVolTidy(cfg, o, d.vols[i], fs);
      assert (d.vols - {i}).Keys == d.vols.Keys - {i};
      DropVolsTidy(cfg, o, d.(vols := d.vols - {i}, refs := d.refs - 1), EndVol(o, d.vols[i], Unusable, fs).1);
    }
  }

  lemma {:induction false} RemoveDevTidy(cfg: Config, o: Oracle, d: Dev, w: World)
    requires Tidy(cfg, w.fs) && DevShape(cfg, d, {})
    ensures Tidy(cfg, RemoveDev(o, d, w).fs)
  {
    hide DropVols, RmdirChildren, RmdirRetrying, Tidy;
    DropVolsTidy(cfg, o, d, w.fs);
    DropVolsKeeps(o, d, w.fs);
    var fs1 := DropVols(o, d, w.fs).1;
    if d.dir.created {
      RmdirChildrenTidy(cfg, o, fs1, d.id);
      RmdirTidy(cfg, o, RmdirChildren(o, fs1, d.dir.path), d.dir.path);
    }
  }

  lemma {:induction false} NewDeviceTidy(cfg: Config, foreign: map<string, string>, o: Oracle, s: State, link: NonEmpty)
    requires ManagedInv(cfg, foreign, INEXACT, s) && Tidy(cfg, s.world.fs)
    ensures Tidy(cfg, HandleNewDevice(cfg, o, s, link).world.fs)
  {
    hide DevFs, DevShape, Engage, NewEntry, AllOwned, Blocked, Acceptable, RegOk, DevOk, ForeignKept, Tidy;
    if Acceptable(link, true) && !Blocked(o, s.devs, link) {
      var e := NewEntry(o, s.devs, s.cursor, link);
      NewEntryOk(o, s.devs, s.cursor, link);
      NewEntryShape(cfg, o, s.devs, s.cursor, link);
      if e.dev.Some? {
        var id := e.dev.value;
        var d := e.devs[id];
        MemberOk(e.devs, id);
        BeforeFs(cfg, foreign, INEXACT, s, id, d.devlink);
        GrownFs(cfg, foreign, INEXACT, Before(s.devs, id, d.devlink), d, s.world.fs);
        if e.vol.Some? || d.vols != map[] {
          EngageTidy(cfg, foreign, o, d, e.vol, e.probed, s.world);
        }
      }
    }
  }

  /** At any time of a managed run, whatever fails: nothing is mounted on a directory
      that is gone, and every directory is in an existing container. */
  lemma {:induction false} AlwaysTidy(cfg: Config, foreign: map<string, string>, events: seq<Event>,
                                      trace: seq<State>, k: nat)
    requires IsTrace(cfg, foreign, events, trace) && k <= |events| && ManagedRun(events)
    ensures Tidy(cfg, trace[k].world.fs)
  {
    hide HandleNewDevice, RemoveDev, Tidy, DevFs, DevShape, AllOwned, ForeignKept;
    if k > 0 {
      AlwaysTidy(cfg, foreign, events, trace, k - 1);
      ManagedState(cfg, foreign, INEXACT, events, trace, k - 1);
      assert Instant(k - 1) && events[k - 1].IsManaged();
      var s := trace[k - 1];
      match events[k - 1]
      case DeviceAdded(o, link) => NewDeviceTidy(cfg, foreign, o, s, link);
      case DeviceGone(o, link) =>
        if FindDev(s.devs, link).Some? {
          assert Settled(cfg, s.devs[FindDev(s.devs, link).value]);
          RemoveDevTidy(cfg, o, s.devs[FindDev(s.devs, link).value], s.world);
        }
    } else {
      EmptyTidy(cfg, foreign);
    }
  }

  lemma EmptyTidy(cfg: Config, foreign: map<string, string>)
    ensures Tidy(cfg, Start(foreign).world.fs)
  {
  }

  /** What is left in a container after its device has been removed could not be
      removed: something is still mounted on it, there is something in it, or the
      operating system has refused. */
  lemma {:induction false} RemovalSweeps(cfg: Config, foreign: map<string, string>, events: seq<Event>,
                                         trace: seq<State>, k: nat, id: nat, q: string)
    requires IsTrace(cfg, foreign, events, trace) && k < |events| && ManagedRun(events)
    requires events[k].DeviceGone? && !trace[k].stuck && id in trace[k].devs
    requires trace[k].devs[id].devlink == events[k].link
    requires trace[k].devs[id].dir.created && q in trace[k + 1].world.fs.dirs
    requires IsChild(ContainerPath(cfg.workdir, id), q)
    ensures var fs' := trace[k + 1].world.fs;
            q in fs'.mounts || (exists p :: p in fs'.dirs && Beneath(q, p)) || !events[k].o.rmdirOk(q, 0)
  {
    hide RemoveDev, DevFs, AllOwned, ForeignKept, ContainerPath, FindDev;
    ManagedState(cfg, foreign, INEXACT, events, trace, k);
    assert Instant(k);
    var s := trace[k];
    FindDevUnique(s.devs, events[k].link, id);
    assert DevOk(id, s.devs[id]) && Settled(cfg, s.devs[id]);
    RemoveDevSweeps(cfg, events[k].o, s.devs[id], s.world, q);
  }

  lemma {:induction false} RemoveDevSweeps(cfg: Config, o: Oracle, d: Dev, w: World, q: string)
    requires DevOk(d.id, d) && DevShape(cfg, d, {}) && d.dir.created
    requires q in RemoveDev(o, d, w).fs.dirs && IsChild(ContainerPath(cfg.workdir, d.id), q)
    ensures var fs' := RemoveDev(o, d, w).fs;
            q in fs'.mounts || (exists p :: p in fs'.dirs && Beneath(q, p)) || !o.rmdirOk(q, 0)
  {
    hide DropVols, ContainerPath, RmdirRetrying;
    DropVolsKeeps(o, d, w.fs);
    var c := ContainerPath(cfg.workdir, d.id);
    var fs1 := DropVols(o, d, w.fs).1;
    var fs2 := RmdirChildren(o, fs1, c);
    var fs' := RmdirRetrying(o, fs2, c);
    RmdirRemovesOne(o, fs2, c);
    RmdirShrinks(o, fs2, c);
    if q !in fs1.mounts && o.rmdirOk(q, 0) {
      var p :| p in fs1.dirs && Beneath(q, p);
      DeeperIsNoChild(c, q, p);
    }
  }

  lemma RmdirShrinks(o: Oracle, fs: Fs, p: string)
    ensures RmdirRetrying(o, fs, p).dirs <= fs.dirs && RmdirRetrying(o, fs, p).mounts == fs.mounts
  {
  }

  lemma DeeperIsNoChild(c: string, q: string, p: string)
    requires IsChild(c, q) && Beneath(q, p)
    ensures !IsChild(c, p) && p != c
  {
    BeneathHasSlash(c, q);
    BeneathHasSlash(q, p);
  }
}
