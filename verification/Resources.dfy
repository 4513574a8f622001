/** Conservation of resources in managed mode: what exists in the file system
    is what the live objects describe. */
module Resources {
  import opened Option
  import opened Sets
  import opened Names
  import opened Platform
  import opened AutoDir
  import opened Devices
  import opened DeviceManager
  import opened Automounter
  import opened RegistryInvariant
  import opened Paths
  import opened ManagedMode

  /** The part of the file system that does not belong to device `id`. */
  ghost function Rest(cfg: Config, foreign: map<string, string>, id: nat, fs: Fs): Fs {
    Fs(set p | p in fs.dirs && !Own(cfg.workdir, id, p),
       map p | p in fs.mounts && !Own(cfg.workdir, id, p) :: fs.mounts[p],
       map n | n in fs.links && (n in foreign || !Own(cfg.workdir, id, fs.links[n])) :: fs.links[n])
  }

  predicate VolBacked(foreign: map<string, string>, v: Vol, fs: Fs) {
    var m := v.mp.dir.path;
    && m in fs.dirs && m in fs.mounts && fs.mounts[m] == v.devname
    && (v.symlink != "" ==> v.symlink in fs.links && fs.links[v.symlink] == m && v.symlink !in foreign)
  }

  /** Everything `d` describes exists. */
  ghost predicate Backed(foreign: map<string, string>, d: Dev, fs: Fs) {
    && (d.dir.created ==> d.dir.path in fs.dirs)
    && (forall i :: i in d.vols && d.vols[i].state == Mounted ==> VolBacked(foreign, d.vols[i], fs))
  }

  ghost predicate DescribesDir(d: Dev, p: string) {
    || (d.dir.created && p == d.dir.path)
    || (exists i :: i in d.vols && d.vols[i].mp.dir.created && p == d.vols[i].mp.dir.path)
  }

  ghost predicate DescribesMount(d: Dev, p: string) {
    exists i :: i in d.vols && d.vols[i].mp.mounted && p == d.vols[i].mp.dir.path
  }

  ghost predicate DescribesLink(d: Dev, n: string) {
    exists i :: i in d.vols && d.vols[i].symlink != "" && n == d.vols[i].symlink
  }

  /** What exists only if it is described. */
  datatype Exact = Exact(paths: bool, links: bool)

  const INEXACT := Exact(false, false)

  /** For that it has to be possible to give it back. */
  ghost predicate Affords(exact: Exact, o: Oracle) {
    (exact.paths ==> PathsGoBack(o)) && (exact.links ==> LinksGoBack(o))
  }

  /** Of what belongs to `d`, no directory or mount exists that it does not describe. */
  ghost predicate NoOtherPath(cfg: Config, d: Dev, fs: Fs) {
    && (forall p :: p in fs.dirs && Own(cfg.workdir, d.id, p) ==> DescribesDir(d, p))
    && (forall p :: p in fs.mounts && Own(cfg.workdir, d.id, p) ==> DescribesMount(d, p))
  }

  /** No link into what belongs to `d` exists that it does not describe. */
  ghost predicate NoOtherLink(cfg: Config, foreign: map<string, string>, d: Dev, fs: Fs) {
    forall n :: n in fs.links && n !in foreign && Own(cfg.workdir, d.id, fs.links[n]) ==> DescribesLink(d, n)
  }

  ghost predicate NothingElse(cfg: Config, foreign: map<string, string>, exact: Exact, d: Dev, fs: Fs) {
    && (exact.paths ==> NoOtherPath(cfg, d, fs))
    && (exact.links ==> NoOtherLink(cfg, foreign, d, fs))
  }

  ghost predicate ForeignKept(foreign: map<string, string>, fs: Fs) {
    forall n :: n in foreign ==> n in fs.links && fs.links[n] == foreign[n]
  }

  /** The file system as far as device `d` is concerned. */
  ghost predicate DevFs(cfg: Config, foreign: map<string, string>, exact: Exact, d: Dev, fs: Fs) {
    && ForeignKept(foreign, fs)
    && Backed(foreign, d, fs)
    && NothingElse(cfg, foreign, exact, d, fs)
  }

  /** A device operation turns (d, fs) into (d', fs') and leaves the rest alone. */
  ghost predicate Local(cfg: Config, foreign: map<string, string>, exact: Exact, d: Dev, fs: Fs, fs': Fs) {
    DevFs(cfg, foreign, exact, d, fs') && Rest(cfg, foreign, d.id, fs) == Rest(cfg, foreign, d.id, fs')
  }

  /** What one device does is of no concern to another. */
  lemma OtherDevice(cfg: Config, foreign: map<string, string>, exact: Exact, id: nat, d: Dev, fs: Fs, fs': Fs)
    requires d.id != id && DevShape(cfg, d, {}) && DevFs(cfg, foreign, exact, d, fs)
    requires Rest(cfg, foreign, id, fs) == Rest(cfg, foreign, id, fs') && ForeignKept(foreign, fs')
    ensures DevFs(cfg, foreign, exact, d, fs')
  {
    var r, r' := Rest(cfg, foreign, id, fs), Rest(cfg, foreign, id, fs');
    forall p | Own(cfg.workdir, d.id, p)
      ensures !Own(cfg.workdir, id, p)
      ensures p in fs.dirs <==> p in fs'.dirs
      ensures p in fs.mounts <==> p in fs'.mounts
      ensures p in fs.mounts ==> fs.mounts[p] == fs'.mounts[p]
    {
      if Own(cfg.workdir, id, p) {
        OwnDisjoint(cfg.workdir, id, d.id, p);
      }
      assert p in fs.dirs <==> p in r.dirs;
      assert p in fs'.dirs <==> p in r'.dirs;
      assert p in fs.mounts <==> p in r.mounts;
      assert p in fs'.mounts <==> p in r'.mounts;
    }
    forall i | i in d.vols && d.vols[i].state == Mounted ensures VolBacked(foreign, d.vols[i], fs') {
      MountPathIsOwn(cfg.workdir, d.id, i);
      var v := d.vols[i];
      assert VolBacked(foreign, v, fs);
      if v.symlink != "" {
        assert v.symlink in r.links;
      }
    }
    forall n | exact.links && n in fs'.links && n !in foreign && Own(cfg.workdir, d.id, fs'.links[n])
      ensures DescribesLink(d, n)
    {
      assert n in r'.links;
      assert n in r.links;
    }
  }

  // ---- Mounting ----------------------------------------------------------------

  lemma OwnDirAdded(cfg: Config, foreign: map<string, string>, id: nat, fs: Fs, p: string)
    requires Own(cfg.workdir, id, p)
    ensures Rest(cfg, foreign, id, fs.(dirs := fs.dirs + {p})) == Rest(cfg, foreign, id, fs)
    ensures Rest(cfg, foreign, id, fs.(dirs := fs.dirs - {p})) == Rest(cfg, foreign, id, fs)
  {
  }

  /** A directory made for a mount that then fails can be removed again. */
  lemma MountDirRemoved(cfg: Config, foreign: map<string, string>, exact: Exact, o: Oracle, d: Dev, i: int,
                        todo: set<int>, fs: Fs)
    requires i in d.vols && d.dir.created && DevShape(cfg, d, todo) && d.vols[i].state == Pending
    requires DevFs(cfg, foreign, exact, d, fs) && Affords(exact, o)
    ensures var m := MountPath(cfg.workdir, d.id, i);
            m !in fs.dirs ==>
              var fs' := RmdirRetrying(o, fs.(dirs := fs.dirs + {m}), m);
              (exact.paths ==> fs' == fs) && fs.dirs <= fs'.dirs <= fs.dirs + {m} && fs' == fs.(dirs := fs'.dirs)
  {
    var m := MountPath(cfg.workdir, d.id, i);
    MountPathIsOwn(cfg.workdir, d.id, i);
    if m !in fs.dirs && exact.paths {
      var fs1 := fs.(dirs := fs.dirs + {m});
      forall j | j in d.vols && d.vols[j].mp.mounted ensures m != d.vols[j].mp.dir.path {
        MountPathInjective(cfg.workdir, d.id, i, d.id, j);
      }
      NothingBelowMountPath(cfg, d, i, todo, fs1);
      assert Removable(fs1, m) && o.umountOk(m);
      assert fs1.dirs - {m} == fs.dirs;
    }
  }

  lemma NothingBelowMountPath(cfg: Config, d: Dev, i: int, todo: set<int>, fs: Fs)
    requires DevShape(cfg, d, todo)
    requires forall p :: p in fs.dirs && Own(cfg.workdir, d.id, p) ==>
             p == MountPath(cfg.workdir, d.id, i) || DescribesDir(d, p)
    ensures forall q :: q in fs.dirs ==> !Beneath(MountPath(cfg.workdir, d.id, i), q)
  {
    var m := MountPath(cfg.workdir, d.id, i);
    forall q | q in fs.dirs ensures !Beneath(m, q) {
      if Beneath(m, q) {
        BeneathMountPathIsOwn(cfg.workdir, d.id, i, q);
        ContainerNotBelowMountPath(cfg.workdir, d.id, i);
        MountPathsNotNested(cfg.workdir, d.id, i, i);
        if j :| j in d.vols && d.vols[j].mp.dir.created && q == d.vols[j].mp.dir.path {
          MountPathsNotNested(cfg.workdir, d.id, i, j);
        }
      }
    }
  }

  lemma BeneathMountPathIsOwn(workdir: string, id: nat, i: int, q: string)
    requires Beneath(MountPath(workdir, id, i), q)
    ensures Own(workdir, id, q)
  {
    var c := ContainerPath(workdir, id);
    assert c + "/" <= MountPath(workdir, id, i) <= q;
  }

  lemma DescriptionsKept(d: Dev, i: int, v: Vol)
    requires i in d.vols && Idle(d.vols[i])
    ensures var d' := d.(vols := d.vols[i := v]);
            && (forall p :: DescribesDir(d, p) ==> DescribesDir(d', p))
            && (forall p :: DescribesMount(d, p) ==> DescribesMount(d', p))
            && (forall n :: DescribesLink(d, n) ==> DescribesLink(d', n))
            && (v.mp.dir.created ==> DescribesDir(d', v.mp.dir.path))
            && (v.mp.mounted ==> DescribesMount(d', v.mp.dir.path))
            && (v.symlink != "" ==> DescribesLink(d', v.symlink))
  {
    var d' := d.(vols := d.vols[i := v]);
    assert d'.vols[i] == v;
    forall p | DescribesDir(d, p) ensures DescribesDir(d', p) {
      if j :| j in d.vols && d.vols[j].mp.dir.created && p == d.vols[j].mp.dir.path {
        assert d'.vols[j] == d.vols[j];
      }
    }
    forall p | DescribesMount(d, p) ensures DescribesMount(d', p) {
      var j :| j in d.vols && d.vols[j].mp.mounted && p == d.vols[j].mp.dir.path;
      assert d'.vols[j] == d.vols[j];
    }
    forall n | DescribesLink(d, n) ensures DescribesLink(d', n) {
      var j :| j in d.vols && d.vols[j].symlink != "" && n == d.vols[j].symlink;
      assert d'.vols[j] == d.vols[j];
    }
  }

  lemma MountedBacked(cfg: Config, foreign: map<string, string>, o: Oracle, d: Dev, i: int, todo: set<int>, fs: Fs,
                      v': Vol, fs': Fs)
    requires i in d.vols && d.dir.created && DevShape(cfg, d, todo) && Idle(d.vols[i]) && ForeignKept(foreign, fs)
    requires Backed(foreign, d, fs)
    requires MountOutcome(cfg, o, d.vols[i], MountPath(cfg.workdir, d.id, i), fs, v', fs') && v'.state == Mounted
    ensures Backed(foreign, d.(vols := d.vols[i := v']), fs')
  {
    hide MountPath, ContainerPath;
    var d' := d.(vols := d.vols[i := v']);
    forall j | j in d'.vols && d'.vols[j].state == Mounted ensures VolBacked(foreign, d'.vols[j], fs') {
      MountPathInjective(cfg.workdir, d.id, i, d.id, j);
      if j != i {
        assert VolBacked(foreign, d.vols[j], fs);
      }
    }
  }

  lemma MountedNothingElse(cfg: Config, foreign: map<string, string>, exact: Exact, o: Oracle, d: Dev, i: int, fs: Fs,
                           v': Vol, fs': Fs)
    requires i in d.vols && Idle(d.vols[i]) && NothingElse(cfg, foreign, exact, d, fs)
    requires MountOutcome(cfg, o, d.vols[i], MountPath(cfg.workdir, d.id, i), fs, v', fs') && v'.state == Mounted
    ensures NothingElse(cfg, foreign, exact, d.(vols := d.vols[i := v']), fs')
  {
    hide MountPath, Own, DescribesDir, DescribesMount, DescribesLink;
    DescriptionsKept(d, i, v');
  }

  lemma {:induction false} MountedLocal(cfg: Config, foreign: map<string, string>, exact: Exact, o: Oracle, d: Dev,
                                        i: int, todo: set<int>, fs: Fs, v': Vol, fs': Fs)
    requires DevOk(d.id, d) && i in todo && i in d.vols && d.dir.created && DevShape(cfg, d, todo)
    requires d.vols[i].state == Pending
    requires DevFs(cfg, foreign, exact, d, fs)
    requires MountOutcome(cfg, o, d.vols[i], MountPath(cfg.workdir, d.id, i), fs, v', fs') && v'.state == Mounted
    ensures var d' := d.(vols := d.vols[i := v']);
            DevShape(cfg, d', todo - {i}) && Local(cfg, foreign, exact, d', fs, fs')
  {
    hide MountPath, ContainerPath, Own, NothingElse, Backed, Rest;
    MountPathIsOwn(cfg.workdir, d.id, i);
    MountedBacked(cfg, foreign, o, d, i, todo, fs, v', fs');
    MountedNothingElse(cfg, foreign, exact, o, d, i, fs, v', fs');
    MountedRest(cfg, foreign, d.id, fs, MountPath(cfg.workdir, d.id, i), d.vols[i].devname, v'.symlink, fs');
  }

  lemma MountedRest(cfg: Config, foreign: map<string, string>, id: nat, fs: Fs, m: string, devname: string,
                    symlink: string, fs': Fs)
    requires Own(cfg.workdir, id, m) && ForeignKept(foreign, fs)
    requires fs'.dirs == fs.dirs + {m} && fs'.mounts == fs.mounts[m := devname]
    requires if symlink == "" then fs'.links == fs.links
             else symlink !in fs.links && fs'.links == fs.links[symlink := m]
    ensures Rest(cfg, foreign, id, fs) == Rest(cfg, foreign, id, fs')
  {
    hide Own, PathsGoBack, LinksGoBack;
    var r, r' := Rest(cfg, foreign, id, fs), Rest(cfg, foreign, id, fs');
    assert r.dirs == r'.dirs;
    assert r.mounts == r'.mounts;
    assert r.links == r'.links;
  }

  lemma {:induction false} FailedOutcome(cfg: Config, foreign: map<string, string>, exact: Exact, o: Oracle, d: Dev,
                                         i: int, todo: set<int>, fs: Fs, v': Vol, fs': Fs)
    requires i in d.vols && d.dir.created && DevShape(cfg, d, todo) && d.vols[i].state == Pending
    requires DevFs(cfg, foreign, exact, d, fs) && Affords(exact, o)
    requires MountOutcome(cfg, o, d.vols[i], MountPath(cfg.workdir, d.id, i), fs, v', fs') && v'.state == Unusable
    ensures fs' == fs.(dirs := fs'.dirs)
    ensures fs'.dirs == fs.dirs || fs'.dirs == fs.dirs + {MountPath(cfg.workdir, d.id, i)}
    ensures exact.paths ==> fs' == fs
  {
    hide DevFs, DevShape, PathsGoBack, LinksGoBack, MountPath, Removable;
    MountDirRemoved(cfg, foreign, exact, o, d, i, todo, fs);
    assert fs.dirs + {MountPath(cfg.workdir, d.id, i)} - {MountPath(cfg.workdir, d.id, i)} == fs.dirs
      || MountPath(cfg.workdir, d.id, i) in fs.dirs;
  }

  lemma UnusableLocal(cfg: Config, foreign: map<string, string>, exact: Exact, o: Oracle, d: Dev, i: int,
                      todo: set<int>, fs: Fs, v': Vol, fs': Fs)
    requires DevOk(d.id, d) && i in todo && i in d.vols && d.dir.created && DevShape(cfg, d, todo)
    requires d.vols[i].state == Pending
    requires DevFs(cfg, foreign, exact, d, fs) && Affords(exact, o)
    requires MountOutcome(cfg, o, d.vols[i], MountPath(cfg.workdir, d.id, i), fs, v', fs') && v'.state == Unusable
    ensures var d' := d.(vols := d.vols[i := v']);
            DevShape(cfg, d', todo - {i}) && Local(cfg, foreign, exact, d', fs, fs')
  {
    var d' := d.(vols := d.vols[i := v']);
    var m := MountPath(cfg.workdir, d.id, i);
    FailedOutcome(cfg, foreign, exact, o, d, i, todo, fs, v', fs');
    MountPathIsOwn(cfg.workdir, d.id, i);
    DescriptionsKept(d, i, v');
    OwnDirAdded(cfg, foreign, d.id, fs, m);
    forall j | j in d'.vols && d'.vols[j].state == Mounted ensures VolBacked(foreign, d'.vols[j], fs') {
      assert VolBacked(foreign, d.vols[j], fs);
    }
  }

  /** A mount attempt that fails leaves everything as it was, but for the mountpoint
      directory that was made for it, and that goes too if directories can be removed. */
  lemma {:induction false} FailedMountCleansUp(cfg: Config, foreign: map<string, string>, exact: Exact, o: Oracle,
                                               d: Dev, i: int, todo: set<int>, w: World)
    requires DevOk(d.id, d) && i in d.vols && DevShape(cfg, d, todo) && d.vols[i].state == Pending
    requires DevFs(cfg, foreign, exact, d, w.fs) && Affords(exact, o)
    requires TryMount(cfg, o, d, i, w).0.vols[i].state == Unusable
    ensures var w' := TryMount(cfg, o, d, i, w).1;
            && w' == w.(fs := w.fs.(dirs := w'.fs.dirs))
            && w.fs.dirs <= w'.fs.dirs <= w.fs.dirs + {MountPath(cfg.workdir, d.id, i)}
            && (exact.paths ==> w' == w)
  {
    hide MountManaged, DevFs, MountOutcome;
    assert VolShape(cfg, d, i, todo);
    MountManagedOutcome(cfg, o, d.vols[i], d.dir.path, w.fs);
    var (v', fs') := MountManaged(cfg, o, d.vols[i], d.dir.path, w.fs);
    FailedOutcome(cfg, foreign, exact, o, d, i, todo, w.fs, v', fs');
  }

  lemma {:induction false} TryMountLocal(cfg: Config, foreign: map<string, string>, exact: Exact, o: Oracle, d: Dev,
                                         i: int, todo: set<int>, w: World)
    requires DevOk(d.id, d) && i in todo && todo <= d.vols.Keys && DevShape(cfg, d, todo)
    requires DevFs(cfg, foreign, exact, d, w.fs) && Affords(exact, o)
    ensures var (d', w') := TryMount(cfg, o, d, i, w);
            DevShape(cfg, d', todo - {i}) && Local(cfg, foreign, exact, d', w.fs, w'.fs)
  {
    hide MountManaged, DevFs, Rest;
    if d.vols[i].state == Pending && d.dir.created {
      var (v', fs') := MountManaged(cfg, o, d.vols[i], d.dir.path, w.fs);
      MountManagedOutcome(cfg, o, d.vols[i], d.dir.path, w.fs);
      if v'.state == Mounted {
        MountedLocal(cfg, foreign, exact, o, d, i, todo, w.fs, v', fs');
      } else {
        UnusableLocal(cfg, foreign, exact, o, d, i, todo, w.fs, v', fs');
      }
    }
  }

  lemma {:induction false} MountPendingLocal(cfg: Config, foreign: map<string, string>, exact: Exact, o: Oracle,
                                             d: Dev, todo: set<int>, w: World)
    requires DevOk(d.id, d) && todo <= d.vols.Keys && DevShape(cfg, d, todo)
    requires DevFs(cfg, foreign, exact, d, w.fs) && Affords(exact, o)
    ensures var (d', w') := MountPending(cfg, o, d, todo, w);
            DevShape(cfg, d', {}) && Local(cfg, foreign, exact, d', w.fs, w'.fs)
    decreases |todo|
  {
    hide TryMount, DevFs, Rest, DevShape;
    if todo != {} {
      var i := Least(todo);
      var (d1, w1) := TryMount(cfg, o, d, i, w);
      TryMountLocal(cfg, foreign, exact, o, d, i, todo, w);
      TryMountSame(cfg, o, d, i, w);
      DevOkSame(d.id, d, d1);
      MountPendingLocal(cfg, foreign, exact, o, d1, todo - {i}, w1);
      MountPendingSame(cfg, o, d1, todo - {i}, w1);
    }
  }

  lemma OpenContainerLocal(cfg: Config, foreign: map<string, string>, exact: Exact, o: Oracle, d: Dev, w: World)
    requires DevOk(d.id, d) && d.state == Ok && d.dir == NO_DIR
    requires forall i :: i in d.vols ==> d.vols[i].state == Pending && Idle(d.vols[i])
    requires DevFs(cfg, foreign, exact, d, w.fs)
    ensures var (d', w') := OpenContainer(cfg, o, d, w);
            DevShape(cfg, d', d.vols.Keys) && Local(cfg, foreign, exact, d', w.fs, w'.fs)
  {
    OpenContainerOutcome(cfg, o, d, w);
    var (d', w') := OpenContainer(cfg, o, d, w);
    var c := ContainerPath(cfg.workdir, d.id);
    OwnDirAdded(cfg, foreign, d.id, w.fs, c);
    assert forall p :: DescribesDir(d, p) ==> DescribesDir(d', p);
    assert forall p :: DescribesMount(d, p) ==> DescribesMount(d', p);
    assert forall n :: DescribesLink(d, n) ==> DescribesLink(d', n);
  }

  lemma EngageLocal(cfg: Config, foreign: map<string, string>, exact: Exact, o: Oracle, d: Dev, vol: Option<int>,
                    probed: bool, w: World)
    requires DevOk(d.id, d) && (vol.Some? ==> vol.value in d.vols)
    requires EntryShape(cfg, d, vol, probed)
    requires DevFs(cfg, foreign, exact, d, w.fs) && Affords(exact, o)
    ensures var (d', w') := Engage(cfg, o, d, vol, probed, w);
            Local(cfg, foreign, exact, d', w.fs, w'.fs) && DevShape(cfg, d', {}) && d'.state != Probed
  {
    hide TryMount, MountPending, OpenContainer, DevFs, Rest, Acceptable;
    if d.state == Probed {
      var d1 := FilterDev(d);
      SameFs(cfg, foreign, exact, d, d1, w.fs);
      if d1.state == Ok {
        assert d1.dir == NO_DIR;
        var (d2, w2) := OpenContainer(cfg, o, d1, w);
        OpenContainerLocal(cfg, foreign, exact, o, d1, w);
        OpenContainerOutcome(cfg, o, d1, w);
        DevOkSame(d.id, d, d2);
        MountPendingLocal(cfg, foreign, exact, o, d2, d2.vols.Keys, w2);
        MountPendingSame(cfg, o, d2, d2.vols.Keys, w2);
      }
    } else if d.state == Ok && vol.Some? {
      assert d.dir.path != "";
      TryMountLocal(cfg, foreign, exact, o, d, vol.value, {vol.value}, w);
      TryMountSame(cfg, o, d, vol.value, w);
      assert {vol.value} - {vol.value} == {};
    }
  }

  lemma SameFs(cfg: Config, foreign: map<string, string>, exact: Exact, d: Dev, d': Dev, fs: Fs)
    requires DevFs(cfg, foreign, exact, d, fs) && d' == d.(state := d'.state)
    ensures DevFs(cfg, foreign, exact, d', fs)
  {
    assert forall p :: DescribesDir(d, p) ==> DescribesDir(d', p);
    assert forall p :: DescribesMount(d, p) ==> DescribesMount(d', p);
    assert forall n :: DescribesLink(d, n) ==> DescribesLink(d', n);
  }

  // ---- Registration ------------------------------------------------------------

  /** `d'` is `d` with some more waiting volumes. */
  ghost predicate Grown(d: Dev, d': Dev) {
    && d'.id == d.id && d'.dir == d.dir
    && (forall i :: i in d.vols ==> i in d'.vols && d'.vols[i] == d.vols[i])
    && (forall i :: i in d'.vols && i !in d.vols ==> d'.vols[i].state == Pending && Idle(d'.vols[i]))
  }

  lemma GrownFs(cfg: Config, foreign: map<string, string>, exact: Exact, d: Dev, d': Dev, fs: Fs)
    requires DevFs(cfg, foreign, exact, d, fs) && Grown(d, d')
    ensures DevFs(cfg, foreign, exact, d', fs)
  {
    assert forall p :: DescribesDir(d, p) ==> DescribesDir(d', p);
    assert forall p :: DescribesMount(d, p) ==> DescribesMount(d', p);
    assert forall n :: DescribesLink(d, n) ==> DescribesLink(d', n);
  }

  /** What registering a link makes of the device it belongs to. */
  ghost predicate EntryGrown(cfg: Config, devs: Registry, e: Entry)
    requires e.WellFormed()
  {
    e.dev.Some? ==>
      var d := e.devs[e.dev.value];
      EntryShape(cfg, d, e.vol, e.probed) && Grown(Before(devs, e.dev.value, d.devlink), d)
  }

  lemma {:induction false} NewEntryShape(cfg: Config, o: Oracle, devs: Registry, cursor: nat, link: NonEmpty)
    requires RegOk(devs) && cursor <= MAX_ID && !Blocked(o, devs, link)
    requires forall id :: id in devs ==> Settled(cfg, devs[id])
    ensures EntryGrown(cfg, devs, NewEntry(o, devs, cursor, link))
  {
    hide NewEntry, RegisterOn, RootOf;
    var e := NewEntry(o, devs, cursor, link);
    NewEntryOutcome(o, devs, cursor, link);
    if e.dev.Some? && e != Entry(devs, cursor, e.dev, None, false) {
      var d := Before(devs, e.dev.value, RootOf(o, link));
      assert Settled(cfg, d);
      RegisterOnShape(cfg, o, link, d, FindDev(devs, RootOf(o, link)).Some?);
    } else if e.dev.Some? {
      assert Settled(cfg, devs[e.dev.value]);
    }
  }

  lemma {:induction false} RegisterOnShape(cfg: Config, o: Oracle, link: NonEmpty, d: Dev, known: bool)
    requires DevShape(cfg, d, {})
    ensures var (d', vol) := RegisterOn(o, link, d, known);
            DevShape(cfg, d', if vol.Some? then {vol.value} else {}) && Grown(d, d') && d'.devlink == d.devlink
  {
    hide AddVol, LinkNumber, Examined, FindVol, InfoOf, Devname;
    ExaminedSame(o, link, d);
    var p := Examined(o, link, d);
    assert DevShape(cfg, p, {}) && Grown(d, p);
    if InfoOf(o, link).Some? {
      AddVolShape(cfg, p, Devname(o, link), InfoOf(o, link).value);
    }
  }

  lemma AddVolShape(cfg: Config, d: Dev, devname: NonEmpty, info: VolumeInfo)
    requires DevShape(cfg, d, {})
    ensures var (d', vol) := AddVol(d, devname, info);
            && DevShape(cfg, d', if vol.Some? then {vol.value} else {})
            && Grown(d, d') && d'.state == d.state && d'.devlink == d.devlink
  {
  }

  // ---- Removal -----------------------------------------------------------------

  /** What ending the volume mounted on `m` can do to the file system. */
  ghost predicate EndOutcome(o: Oracle, v: Vol, m: string, fs: Fs, fs': Fs) {
    && (fs'.dirs == fs.dirs || fs'.dirs == fs.dirs - {m})
    && (fs'.mounts == fs.mounts || fs'.mounts == fs.mounts - {m})
    && (fs'.links == fs.links || (v.symlink != "" && fs'.links == fs.links - {v.symlink}))
    && (PathsGoBack(o) && m in fs.dirs && (forall q :: q in fs.dirs ==> !Beneath(m, q)) ==>
          fs'.dirs == fs.dirs - {m} && fs'.mounts == fs.mounts - {m})
    && (LinksGoBack(o) && v.symlink != "" ==> fs'.links == fs.links - {v.symlink})
  }

  lemma EndVolOutcome(o: Oracle, v: Vol, m: string, fs: Fs)
    requires v.mp == Mp(Dir(m, true, false), true)
    ensures EndOutcome(o, v, m, fs, EndVol(o, v, Unusable, fs).1)
  {
    hide Beneath;
    assert PathsGoBack(o) ==> o.umountOk(m);
    assert LinksGoBack(o) ==> o.unlinkOk(v.symlink);
  }

  lemma {:induction false} EndVolLocal(cfg: Config, foreign: map<string, string>, exact: Exact, o: Oracle, d: Dev,
                                       i: int, fs: Fs)
    requires DevOk(d.id, d) && i in d.vols && DevShape(cfg, d, {})
    requires DevFs(cfg, foreign, exact, d, fs) && Affords(exact, o)
    ensures var d' := d.(vols := d.vols - {i}, refs := d.refs - 1);
            && DevOk(d.id, d') && DevShape(cfg, d', {})
            && Local(cfg, foreign, exact, d', fs, EndVol(o, d.vols[i], Unusable, fs).1)
  {
    var d' := d.(vols := d.vols - {i}, refs := d.refs - 1);
    assert d'.vols.Keys == d.vols.Keys - {i};
    DescriptionsDropped(d, i);
    if d.vols[i].state == Mounted {
      EndMountedLocal(cfg, foreign, exact, o, d, i, fs);
    } else {
      assert EndVol(o, d.vols[i], Unusable, fs).1 == fs;
    }
  }

  lemma DescriptionsDropped(d: Dev, i: int)
    requires i in d.vols
    ensures var d' := d.(vols := d.vols - {i}, refs := d.refs - 1);
            var v := d.vols[i];
            && (forall p :: DescribesDir(d, p) && (v.mp.dir.created ==> p != v.mp.dir.path) ==> DescribesDir(d', p))
            && (forall p :: DescribesMount(d, p) && (v.mp.mounted ==> p != v.mp.dir.path) ==> DescribesMount(d', p))
            && (forall n :: DescribesLink(d, n) && (v.symlink != "" ==> n != v.symlink) ==> DescribesLink(d', n))
  {
    var d' := d.(vols := d.vols - {i}, refs := d.refs - 1);
    var v := d.vols[i];
    forall p | DescribesDir(d, p) && (v.mp.dir.created ==> p != v.mp.dir.path) ensures DescribesDir(d', p) {
      if j :| j in d.vols && d.vols[j].mp.dir.created && p == d.vols[j].mp.dir.path {
        assert j in d'.vols;
      }
    }
    forall p | DescribesMount(d, p) && (v.mp.mounted ==> p != v.mp.dir.path) ensures DescribesMount(d', p) {
      var j :| j in d.vols && d.vols[j].mp.mounted && p == d.vols[j].mp.dir.path;
      assert j in d'.vols;
    }
    forall n | DescribesLink(d, n) && (v.symlink != "" ==> n != v.symlink) ensures DescribesLink(d', n) {
      var j :| j in d.vols && d.vols[j].symlink != "" && n == d.vols[j].symlink;
      assert j in d'.vols;
    }
  }

  lemma EndBacked(cfg: Config, foreign: map<string, string>, o: Oracle, d: Dev, i: int, fs: Fs, fs': Fs)
    requires i in d.vols && DevShape(cfg, d, {}) && d.vols[i].state == Mounted && Backed(foreign, d, fs)
    requires EndOutcome(o, d.vols[i], MountPath(cfg.workdir, d.id, i), fs, fs')
    ensures Backed(foreign, d.(vols := d.vols - {i}, refs := d.refs - 1), fs')
  {
    hide MountPath, ContainerPath, PathsGoBack, LinksGoBack, Removable;
    var d' := d.(vols := d.vols - {i}, refs := d.refs - 1);
    MountPathIsOwn(cfg.workdir, d.id, i);
    assert VolBacked(foreign, d.vols[i], fs);
    forall j | j in d'.vols && d'.vols[j].state == Mounted ensures VolBacked(foreign, d'.vols[j], fs') {
      MountPathInjective(cfg.workdir, d.id, i, d.id, j);
      assert VolBacked(foreign, d.vols[j], fs);
    }
  }

  lemma {:induction false} EndNothingElse(cfg: Config, foreign: map<string, string>, exact: Exact, o: Oracle, d: Dev,
                                          i: int, fs: Fs, fs': Fs)
    requires DevOk(d.id, d) && i in d.vols && DevShape(cfg, d, {}) && d.vols[i].state == Mounted
    requires Backed(foreign, d, fs) && NothingElse(cfg, foreign, exact, d, fs) && Affords(exact, o)
    requires EndOutcome(o, d.vols[i], MountPath(cfg.workdir, d.id, i), fs, fs')
    ensures NothingElse(cfg, foreign, exact, d.(vols := d.vols - {i}, refs := d.refs - 1), fs')
  {
    hide MountPath, ContainerPath, PathsGoBack, LinksGoBack, Own, DescribesDir, DescribesMount, DescribesLink;
    assert VolBacked(foreign, d.vols[i], fs);
    if exact.paths {
      NothingBelowMountPath(cfg, d, i, {}, fs);
    }
    DescriptionsDropped(d, i);
  }

  lemma {:induction false} EndMountedLocal(cfg: Config, foreign: map<string, string>, exact: Exact, o: Oracle, d: Dev,
                                           i: int, fs: Fs)
    requires DevOk(d.id, d) && i in d.vols && DevShape(cfg, d, {}) && d.vols[i].state == Mounted
    requires DevFs(cfg, foreign, exact, d, fs) && Affords(exact, o)
    ensures Local(cfg, foreign, exact, d.(vols := d.vols - {i}, refs := d.refs - 1), fs,
            EndVol(o, d.vols[i], Unusable, fs).1)
  {
    hide EndVol, MountPath, ContainerPath, PathsGoBack, LinksGoBack, Own, NothingElse, Rest;
    var v := d.vols[i];
    var fs' := EndVol(o, v, Unusable, fs).1;
    var m := MountPath(cfg.workdir, d.id, i);
    assert VolBacked(foreign, v, fs);
    EndVolOutcome(o, v, m, fs);
    MountPathIsOwn(cfg.workdir, d.id, i);
    EndVolRest(cfg, foreign, d.id, o, v, m, fs, fs');
    EndBacked(cfg, foreign, o, d, i, fs, fs');
    EndNothingElse(cfg, foreign, exact, o, d, i, fs, fs');
  }

  lemma EndVolRest(cfg: Config, foreign: map<string, string>, id: nat, o: Oracle, v: Vol, m: string, fs: Fs, fs': Fs)
    requires Own(cfg.workdir, id, m) && v.mp.dir.path == m && VolBacked(foreign, v, fs) && EndOutcome(o, v, m, fs, fs')
    ensures Rest(cfg, foreign, id, fs) == Rest(cfg, foreign, id, fs')
  {
    hide Own, PathsGoBack, LinksGoBack, Beneath;
    var r, r' := Rest(cfg, foreign, id, fs), Rest(cfg, foreign, id, fs');
    assert r.dirs == r'.dirs;
    assert r.mounts == r'.mounts;
    assert r.links == r'.links by {
      RestOfLinks(cfg, foreign, id, v.symlink, fs, fs');
    }
  }

  lemma RestOfLinks(cfg: Config, foreign: map<string, string>, id: nat, link: string, fs: Fs, fs': Fs)
    requires fs'.links == fs.links || fs'.links == fs.links - {link}
    requires link in fs.links && fs'.links != fs.links ==> link !in foreign && Own(cfg.workdir, id, fs.links[link])
    ensures Rest(cfg, foreign, id, fs).links == Rest(cfg, foreign, id, fs').links
  {
    hide Own;
  }

  lemma {:induction false} DropVolsLocal(cfg: Config, foreign: map<string, string>, exact: Exact, o: Oracle, d: Dev,
                                         fs: Fs)
    requires DevOk(d.id, d) && DevShape(cfg, d, {})
    requires DevFs(cfg, foreign, exact, d, fs) && Affords(exact, o)
    ensures var (d', fs') := DropVols(o, d, fs); Local(cfg, foreign, exact, d', fs, fs')
    decreases |d.vols|
  {
    hide DevFs, Rest, DevShape, EndVol;
    if d.vols != map[] {
      var i := Least(d.vols.Keys);
      EndVolLocal(cfg, foreign, exact, o, d, i, fs);
      assert (d.vols - {i}).Keys == d.vols.Keys - {i};
      DropVolsKeeps(o, d, fs);
      DropVolsLocal(cfg, foreign, exact, o, d.(vols := d.vols - {i}, refs := d.refs - 1),
        EndVol(o, d.vols[i], Unusable, fs).1);
    }
  }

  /** Nothing of device `id` exists. */
  ghost predicate Gone(cfg: Config, foreign: map<string, string>, exact: Exact, id: nat, fs: Fs) {
    && (exact.paths ==> forall p :: p in fs.dirs || p in fs.mounts ==> !Own(cfg.workdir, id, p))
    && (exact.links ==> forall n :: n in fs.links && n !in foreign ==> !Own(cfg.workdir, id, fs.links[n]))
  }

  lemma DestroyRest(cfg: Config, foreign: map<string, string>, o: Oracle, d: Dev, fs: Fs)
    requires d.dir.created ==> d.dir.path == ContainerPath(cfg.workdir, d.id)
    ensures var fs' := DestroyDev(o, d, fs);
            Rest(cfg, foreign, d.id, fs) == Rest(cfg, foreign, d.id, fs') && fs'.(dirs := fs.dirs) == fs
  {
    hide Removable, ContainerPath;
    var c := ContainerPath(cfg.workdir, d.id);
    var fs' := DestroyDev(o, d, fs);
    assert forall p :: IsChild(c, p) ==> Own(cfg.workdir, d.id, p);
    assert Rest(cfg, foreign, d.id, fs).dirs == Rest(cfg, foreign, d.id, fs').dirs;
  }

  lemma DestroyLeavesNothing(cfg: Config, foreign: map<string, string>, o: Oracle, d: Dev, fs: Fs)
    requires d.vols == map[] && DevShape(cfg, d, {}) && d.dir.created && NoOtherPath(cfg, d, fs)
    requires Backed(foreign, d, fs) && PathsGoBack(o)
    ensures var fs' := DestroyDev(o, d, fs); forall p :: p in fs'.dirs || p in fs'.mounts ==> !Own(cfg.workdir, d.id, p)
  {
    hide ContainerPath;
    var c := ContainerPath(cfg.workdir, d.id);
    var fs1 := RmdirChildren(o, fs, c);
    forall q | q in fs1.dirs ensures !Beneath(c, q) {
      assert Beneath(c, q) ==> Own(cfg.workdir, d.id, q);
    }
    assert o.umountOk(c);
    assert Own(cfg.workdir, d.id, c) && !IsChild(c, c);
    assert Removable(fs1, c);
  }

  lemma DestroyLocal(cfg: Config, foreign: map<string, string>, exact: Exact, o: Oracle, d: Dev, fs: Fs)
    requires d.vols == map[] && DevShape(cfg, d, {})
    requires DevFs(cfg, foreign, exact, d, fs) && Affords(exact, o)
    ensures var fs' := DestroyDev(o, d, fs);
            && Rest(cfg, foreign, d.id, fs) == Rest(cfg, foreign, d.id, fs') && ForeignKept(foreign, fs')
            && Gone(cfg, foreign, exact, d.id, fs')
  {
    hide Rest, RmdirChildren, RmdirRetrying, Own, ContainerPath;
    DestroyRest(cfg, foreign, o, d, fs);
    if exact.paths && d.dir.created {
      DestroyLeavesNothing(cfg, foreign, o, d, fs);
    }
  }

  /** Removing a device whose references come only from the registry and from its
      volumes runs its destructor, which leaves nothing of it behind. */
  lemma RemoveDevLocal(cfg: Config, foreign: map<string, string>, exact: Exact, o: Oracle, d: Dev, w: World)
    requires DevOk(d.id, d) && DevShape(cfg, d, {})
    requires DevFs(cfg, foreign, exact, d, w.fs) && Affords(exact, o)
    ensures var fs' := RemoveDev(o, d, w).fs;
            && Rest(cfg, foreign, d.id, w.fs) == Rest(cfg, foreign, d.id, fs') && ForeignKept(foreign, fs')
            && Gone(cfg, foreign, exact, d.id, fs')
  {
    hide DevFs, Rest, DestroyDev;
    DropVolsLocal(cfg, foreign, exact, o, d, w.fs);
    DropVolsKeeps(o, d, w.fs);
    var (d', fs1) := DropVols(o, d, w.fs);
    DestroyLocal(cfg, foreign, exact, o, d', fs1);
  }

  // ---- Events ------------------------------------------------------------------

  /** Every directory and every mount belongs to one of the devices in `ids`. */
  ghost predicate PathsOwned(cfg: Config, ids: set<nat>, fs: Fs) {
    forall p :: p in fs.dirs || p in fs.mounts ==> exists id :: id in ids && Own(cfg.workdir, id, p)
  }

  /** Every link that is not foreign leads to one of the devices in `ids`. */
  ghost predicate LinksOwned(cfg: Config, foreign: map<string, string>, ids: set<nat>, fs: Fs) {
    forall n :: n in fs.links && n !in foreign ==> exists id :: id in ids && Own(cfg.workdir, id, fs.links[n])
  }

  ghost predicate AllOwned(cfg: Config, foreign: map<string, string>, exact: Exact, ids: set<nat>, fs: Fs) {
    (exact.paths ==> PathsOwned(cfg, ids, fs)) && (exact.links ==> LinksOwned(cfg, foreign, ids, fs))
  }

  ghost predicate ManagedInv(cfg: Config, foreign: map<string, string>, exact: Exact, s: State) {
    && RegOk(s.devs) && s.cursor <= MAX_ID
    && ForeignKept(foreign, s.world.fs)
    && (forall id :: id in s.devs ==> Settled(cfg, s.devs[id]) && DevFs(cfg, foreign, exact, s.devs[id], s.world.fs))
    && AllOwned(cfg, foreign, exact, s.devs.Keys, s.world.fs)
  }

  /** Replacing one device, or adding it. */
  lemma {:induction false} ReplacedDevice(cfg: Config, foreign: map<string, string>, exact: Exact, s: State, id: nat,
                                          d: Dev, w: World, s': State)
    requires ManagedInv(cfg, foreign, exact, s)
    requires d.id == id && Settled(cfg, d) && Local(cfg, foreign, exact, d, s.world.fs, w.fs)
    requires s'.devs == s.devs[id := d] && RegOk(s'.devs) && s'.cursor <= MAX_ID && s'.world.fs == w.fs
    ensures ManagedInv(cfg, foreign, exact, s')
  {
    hide Rest, DevFs, DevShape, AllOwned, RegOk, DevOk;
    assert ForeignKept(foreign, w.fs) by {
      LocalKeepsForeign(cfg, foreign, exact, d, s.world.fs, w.fs);
    }
    forall j | j in s.devs && j != id ensures DevFs(cfg, foreign, exact, s.devs[j], w.fs) {
      MemberOk(s.devs, j);
      OtherDevice(cfg, foreign, exact, id, s.devs[j], s.world.fs, w.fs);
    }
    RestIsOwned(cfg, foreign, exact, s.devs.Keys, id, s.world.fs, w.fs);
    assert s.devs.Keys + {id} == s'.devs.Keys;
  }

  lemma LocalKeepsForeign(cfg: Config, foreign: map<string, string>, exact: Exact, d: Dev, fs: Fs, fs': Fs)
    requires Local(cfg, foreign, exact, d, fs, fs')
    ensures ForeignKept(foreign, fs')
  {
  }

  /** Whatever device `id` does, everything belongs to it or to those it belonged to. */
  lemma {:induction false} RestIsOwned(cfg: Config, foreign: map<string, string>, exact: Exact, ids: set<nat>,
                                       id: nat, fs: Fs, fs': Fs)
    requires AllOwned(cfg, foreign, exact, ids, fs) && Rest(cfg, foreign, id, fs) == Rest(cfg, foreign, id, fs')
    ensures AllOwned(cfg, foreign, exact, ids + {id}, fs')
  {
    var r, r' := Rest(cfg, foreign, id, fs), Rest(cfg, foreign, id, fs');
    assert id in ids + {id};
    forall p | exact.paths && (p in fs'.dirs || p in fs'.mounts)
      ensures exists j :: j in ids + {id} && Own(cfg.workdir, j, p)
    {
      if !Own(cfg.workdir, id, p) {
        assert p in r'.dirs || p in r'.mounts;
        var j :| j in ids && Own(cfg.workdir, j, p);
        assert j in ids + {id};
      }
    }
    forall n | exact.links && n in fs'.links && n !in foreign
      ensures exists j :: j in ids + {id} && Own(cfg.workdir, j, fs'.links[n])
    {
      if !Own(cfg.workdir, id, fs'.links[n]) {
        assert n in r'.links;
        assert n in r.links;
        var j :| j in ids && Own(cfg.workdir, j, fs.links[n]);
        assert j in ids + {id};
      }
    }
  }

  lemma {:induction false} BeforeFs(cfg: Config, foreign: map<string, string>, exact: Exact, s: State, id: nat,
                                    link: string)
    requires ManagedInv(cfg, foreign, exact, s)
    ensures DevFs(cfg, foreign, exact, Before(s.devs, id, link), s.world.fs)
  {
    if id !in s.devs {
      forall p, j | j in s.devs && Own(cfg.workdir, j, p) ensures !Own(cfg.workdir, id, p) {
        if Own(cfg.workdir, id, p) {
          OwnDisjoint(cfg.workdir, id, j, p);
        }
      }
    }
  }

  lemma {:induction false} NewDeviceKeeps(cfg: Config, foreign: map<string, string>, exact: Exact, o: Oracle,
                                          s: State, link: NonEmpty)
    requires ManagedInv(cfg, foreign, exact, s) && Affords(exact, o)
    ensures ManagedInv(cfg, foreign, exact, HandleNewDevice(cfg, o, s, link))
  {
    hide DevFs, Rest, DevShape, Engage, NewEntry, AllOwned, Blocked, Acceptable, RegOk, DevOk, ForeignKept;
    if Acceptable(link, true) && !Blocked(o, s.devs, link) {
      var e := NewEntry(o, s.devs, s.cursor, link);
      NewEntryOk(o, s.devs, s.cursor, link);
      NewEntryShape(cfg, o, s.devs, s.cursor, link);
      if e.dev.Some? {
        var id := e.dev.value;
        var d := e.devs[id];
        MemberOk(e.devs, id);
        BeforeFs(cfg, foreign, exact, s, id, d.devlink);
        GrownFs(cfg, foreign, exact, Before(s.devs, id, d.devlink), d, s.world.fs);
        if e.vol == None && d.vols == map[] {
          ReplacedDevice(cfg, foreign, exact, s, id, d, s.world, HandleNewDevice(cfg, o, s, link));
        } else {
          var (d', w) := Engage(cfg, o, d, e.vol, e.probed, s.world);
          EngageLocal(cfg, foreign, exact, o, d, e.vol, e.probed, s.world);
          HandleNewDeviceOk(cfg, o, s, link);
          EngageSame(cfg, o, d, e.vol, e.probed, s.world);
          assert s.devs[id := d][id := d'] == s.devs[id := d'];
          ReplacedDevice(cfg, foreign, exact, s, id, d', w, HandleNewDevice(cfg, o, s, link));
        }
      }
    }
  }

  lemma {:induction false} RemovedIsOwned(cfg: Config, foreign: map<string, string>, exact: Exact, devs: Registry,
                                          id: nat, fs: Fs, fs': Fs)
    requires AllOwned(cfg, foreign, exact, devs.Keys, fs) && Rest(cfg, foreign, id, fs) == Rest(cfg, foreign, id, fs')
    requires Gone(cfg, foreign, exact, id, fs')
    ensures AllOwned(cfg, foreign, exact, devs.Keys - {id}, fs')
  {
    hide Rest, Own;
    RestIsOwned(cfg, foreign, exact, devs.Keys, id, fs, fs');
    assert forall j :: j in devs.Keys + {id} && j != id ==> j in devs.Keys - {id};
  }

  lemma RemovedDeviceKeeps(cfg: Config, foreign: map<string, string>, exact: Exact, o: Oracle, s: State, link: string)
    requires ManagedInv(cfg, foreign, exact, s) && Affords(exact, o)
    ensures ManagedInv(cfg, foreign, exact, HandleRemovedDevice(o, s, link))
  {
    hide RemoveDev, Rest, DevFs, DevShape, AllOwned;
    if FindDev(s.devs, link).Some? {
      var id := FindDev(s.devs, link).value;
      assert DevOk(id, s.devs[id]) && Settled(cfg, s.devs[id]);
      var s' := HandleRemovedDevice(o, s, link);
      RemoveDevLocal(cfg, foreign, exact, o, s.devs[id], s.world);
      forall j | j in s'.devs ensures DevFs(cfg, foreign, exact, s'.devs[j], s'.world.fs) {
        assert DevOk(j, s.devs[j]) && Settled(cfg, s.devs[j]);
        OtherDevice(cfg, foreign, exact, id, s.devs[j], s.world.fs, s'.world.fs);
      }
      RemovedIsOwned(cfg, foreign, exact, s.devs, id, s.world.fs, s'.world.fs);
    }
  }

  ghost predicate ManagedRun(events: seq<Event>) {
    forall k :: 0 <= k < |events| ==> events[k].IsManaged()
  }

  ghost predicate RunAffords(exact: Exact, events: seq<Event>) {
    forall k :: 0 <= k < |events| ==> Affords(exact, events[k].o)
  }

  lemma {:induction false} ManagedInvariant(cfg: Config, foreign: map<string, string>, exact: Exact, events: seq<Event>)
    requires ManagedRun(events) && RunAffords(exact, events)
    ensures ManagedInv(cfg, foreign, exact, Run(cfg, Start(foreign), events))
  {
    if events != [] {
      var n := |events| - 1;
      ManagedInvariant(cfg, foreign, exact, events[..n]);
      var s := Run(cfg, Start(foreign), events[..n]);
      assert events[n].IsManaged() && Affords(exact, events[n].o);
      if !s.stuck {
        match events[n]
        case DeviceAdded(o, link) => NewDeviceKeeps(cfg, foreign, exact, o, s, link);
        case DeviceGone(o, link) => RemovedDeviceKeeps(cfg, foreign, exact, o, s, link);
      }
    }
  }

  // ---- Main results --------------------------------------------------------------

  ghost function DirsOf(devs: Registry): set<string> {
    (set id | id in devs && devs[id].dir.created :: devs[id].dir.path)
    + (set id, i | id in devs && i in devs[id].vols && devs[id].vols[i].mp.dir.created :: devs[id].vols[i].mp.dir.path)
  }

  ghost function MountsOf(devs: Registry): set<string> {
    set id, i | id in devs && i in devs[id].vols && devs[id].vols[i].mp.mounted :: devs[id].vols[i].mp.dir.path
  }

  ghost function LinksOf(devs: Registry): set<string> {
    set id, i | id in devs && i in devs[id].vols && devs[id].vols[i].symlink != "" :: devs[id].vols[i].symlink
  }

  /** Everything the live objects describe exists, with the described contents. */
  ghost predicate AllBacked(foreign: map<string, string>, devs: Registry, fs: Fs) {
    && DirsOf(devs) <= fs.dirs && MountsOf(devs) <= fs.mounts.Keys && LinksOf(devs) <= fs.links.Keys - foreign.Keys
    && (forall id, i :: id in devs && i in devs[id].vols ==>
          var v := devs[id].vols[i];
          && (v.mp.mounted ==> fs.mounts[v.mp.dir.path] == v.devname)
          && (v.symlink != "" ==> v.mp.mounted && v.symlink in fs.links && fs.links[v.symlink] == v.mp.dir.path))
    && ForeignKept(foreign, fs)
  }

  predicate VolumeExists(foreign: map<string, string>, v: Vol, fs: Fs) {
    if v.state == Mounted then v.mp.dir.created && v.mp.mounted && VolBacked(foreign, v, fs) else Idle(v)
  }

  ghost predicate DevExists(foreign: map<string, string>, d: Dev, fs: Fs) {
    && (d.dir.created ==> d.dir.path in fs.dirs)
    && (forall i :: i in d.vols ==> VolumeExists(foreign, d.vols[i], fs))
  }

  lemma DescribedDevExists(cfg: Config, foreign: map<string, string>, exact: Exact, d: Dev, fs: Fs)
    requires Settled(cfg, d) && DevFs(cfg, foreign, exact, d, fs)
    ensures DevExists(foreign, d, fs)
  {
    forall i | i in d.vols ensures VolumeExists(foreign, d.vols[i], fs) {
      assert VolShape(cfg, d, i, {});
    }
  }

  lemma DescribedExists(foreign: map<string, string>, devs: Registry, fs: Fs)
    requires ForeignKept(foreign, fs)
    requires forall id :: id in devs ==> DevExists(foreign, devs[id], fs)
    ensures AllBacked(foreign, devs, fs)
  {
    forall id, i | id in devs && i in devs[id].vols ensures VolumeExists(foreign, devs[id].vols[i], fs) {
      assert DevExists(foreign, devs[id], fs);
    }
    forall id | id in devs && devs[id].dir.created ensures devs[id].dir.path in fs.dirs {
      assert DevExists(foreign, devs[id], fs);
    }
  }

  lemma ManagedBacked(cfg: Config, foreign: map<string, string>, exact: Exact, s: State)
    requires ManagedInv(cfg, foreign, exact, s)
    ensures AllBacked(foreign, s.devs, s.world.fs)
  {
    hide AllBacked;
    forall id | id in s.devs ensures DevExists(foreign, s.devs[id], s.world.fs) {
      DescribedDevExists(cfg, foreign, exact, s.devs[id], s.world.fs);
    }
    DescribedExists(foreign, s.devs, s.world.fs);
  }

  lemma ExistingIsDescribed(cfg: Config, foreign: map<string, string>, exact: Exact, s: State)
    requires ManagedInv(cfg, foreign, exact, s)
    ensures exact.paths ==> s.world.fs.dirs <= DirsOf(s.devs) && s.world.fs.mounts.Keys <= MountsOf(s.devs)
    ensures exact.links ==> s.world.fs.links.Keys <= foreign.Keys + LinksOf(s.devs)
  {
    hide Own;
    var fs := s.world.fs;
    assert forall id :: id in s.devs ==> DevOk(id, s.devs[id]) && DevFs(cfg, foreign, exact, s.devs[id], fs);
    forall p | exact.paths && p in fs.dirs ensures p in DirsOf(s.devs) {
      var id :| id in s.devs.Keys && Own(cfg.workdir, id, p);
      assert DescribesDir(s.devs[id], p);
    }
    forall p | exact.paths && p in fs.mounts ensures p in MountsOf(s.devs) {
      var id :| id in s.devs.Keys && Own(cfg.workdir, id, p);
      assert DescribesMount(s.devs[id], p);
    }
    forall n | exact.links && n in fs.links && n !in foreign ensures n in LinksOf(s.devs) {
      var id :| id in s.devs.Keys && Own(cfg.workdir, id, fs.links[n]);
      assert DescribesLink(s.devs[id], n);
    }
  }

  lemma ManagedState(cfg: Config, foreign: map<string, string>, exact: Exact, events: seq<Event>, trace: seq<State>,
                     k: nat)
    requires IsTrace(cfg, foreign, events, trace) && k <= |events|
    requires ManagedRun(events) && RunAffords(exact, events)
    ensures ManagedInv(cfg, foreign, exact, trace[k])
  {
    TraceIsRun(cfg, foreign, events, trace, k);
    ManagedInvariant(cfg, foreign, exact, events[..k]);
  }

  /** Whatever fails, no live object describes something that does not exist. */
  lemma NothingMissing(cfg: Config, foreign: map<string, string>, events: seq<Event>, trace: seq<State>, k: nat)
    requires IsTrace(cfg, foreign, events, trace) && k <= |events| && ManagedRun(events)
    ensures AllBacked(foreign, trace[k].devs, trace[k].world.fs)
  {
    ManagedState(cfg, foreign, INEXACT, events, trace, k);
    ManagedBacked(cfg, foreign, INEXACT, trace[k]);
  }

  /** If directories and mounts can be given back, then after every event they are
      exactly the ones that the live objects describe, and likewise for links. */
  lemma {:induction false} Conservation(cfg: Config, foreign: map<string, string>, events: seq<Event>,
                                        trace: seq<State>, k: nat)
    requires IsTrace(cfg, foreign, events, trace) && k <= |events| && ManagedRun(events)
    ensures var s := trace[k];
            && (RunAffords(Exact(true, false), events) ==>
                  s.world.fs.dirs == DirsOf(s.devs) && s.world.fs.mounts.Keys == MountsOf(s.devs))
            && (RunAffords(Exact(false, true), events) ==>
                  s.world.fs.links.Keys == foreign.Keys + LinksOf(s.devs))
            && AllBacked(foreign, s.devs, s.world.fs)
  {
    var exact := Exact(RunAffords(Exact(true, false), events), RunAffords(Exact(false, true), events));
    assert RunAffords(exact, events);
    ManagedState(cfg, foreign, exact, events, trace, k);
    ManagedBacked(cfg, foreign, exact, trace[k]);
    ExistingIsDescribed(cfg, foreign, exact, trace[k]);
  }

  /** Handling a new link concerns one device only, which is in the registry then. */
  lemma {:induction false} NewDeviceRest(cfg: Config, foreign: map<string, string>, o: Oracle, s: State, link: NonEmpty)
    requires ManagedInv(cfg, foreign, INEXACT, s)
    ensures var s' := HandleNewDevice(cfg, o, s, link);
            || s'.world.fs == s.world.fs
            || exists id :: id in s'.devs && Rest(cfg, foreign, id, s.world.fs) == Rest(cfg, foreign, id, s'.world.fs)
  {
    hide DevFs, Rest, DevShape, Engage, NewEntry, AllOwned, Blocked, Acceptable, RegOk, DevOk, ForeignKept;
    if Acceptable(link, true) && !Blocked(o, s.devs, link) {
      var e := NewEntry(o, s.devs, s.cursor, link);
      NewEntryOk(o, s.devs, s.cursor, link);
      NewEntryShape(cfg, o, s.devs, s.cursor, link);
      if e.dev.Some? {
        var id := e.dev.value;
        var d := e.devs[id];
        MemberOk(e.devs, id);
        BeforeFs(cfg, foreign, INEXACT, s, id, d.devlink);
        GrownFs(cfg, foreign, INEXACT, Before(s.devs, id, d.devlink), d, s.world.fs);
        if e.vol.Some? || d.vols != map[] {
          EngageLocal(cfg, foreign, INEXACT, o, d, e.vol, e.probed, s.world);
          EngageSame(cfg, o, d, e.vol, e.probed, s.world);
          assert id in HandleNewDevice(cfg, o, s, link).devs;
        }
      }
    }
  }

  lemma {:induction false} StepRest(cfg: Config, foreign: map<string, string>, s: State, ev: Event)
    requires ManagedInv(cfg, foreign, INEXACT, s) && ev.IsManaged()
    ensures var s' := Step(cfg, s, ev);
            || s'.world.fs == s.world.fs
            || exists id :: id in s.devs.Keys + s'.devs.Keys
                 && Rest(cfg, foreign, id, s.world.fs) == Rest(cfg, foreign, id, s'.world.fs)
  {
    hide HandleNewDevice, RemoveDev, Rest, DevFs, DevShape, AllOwned;
    if !s.stuck {
      match ev
      case DeviceAdded(o, link) => NewDeviceRest(cfg, foreign, o, s, link);
      case DeviceGone(o, link) =>
        if FindDev(s.devs, link).Some? {
          var id := FindDev(s.devs, link).value;
          assert DevOk(id, s.devs[id]) && Settled(cfg, s.devs[id]);
          RemoveDevLocal(cfg, foreign, INEXACT, o, s.devs[id], s.world);
          assert id in s.devs.Keys + Step(cfg, s, ev).devs.Keys;
        }
    }
  }

  /** The IDs that have been in use up to instant `k`. */
  ghost function IdsUsed(trace: seq<State>, k: nat): set<nat>
    requires k < |trace|
  {
    set j, id | 0 <= j <= k && id in trace[j].devs :: id
  }

  /** Whatever fails, what exists without being described lies in the container of
      an ID that has been in use, or is a link into one. */
  lemma {:induction false} LeaksAreContained(cfg: Config, foreign: map<string, string>, events: seq<Event>,
                                             trace: seq<State>, k: nat)
    requires IsTrace(cfg, foreign, events, trace) && k <= |events| && ManagedRun(events)
    ensures PathsOwned(cfg, IdsUsed(trace, k), trace[k].world.fs)
    ensures LinksOwned(cfg, foreign, IdsUsed(trace, k), trace[k].world.fs)
  {
    hide Rest, Step, Own;
    if k > 0 {
      LeaksAreContained(cfg, foreign, events, trace, k - 1);
      ManagedState(cfg, foreign, INEXACT, events, trace, k - 1);
      assert Instant(k - 1) && events[k - 1].IsManaged();
      StepRest(cfg, foreign, trace[k - 1], events[k - 1]);
      var ids, fs, fs' := IdsUsed(trace, k - 1), trace[k - 1].world.fs, trace[k].world.fs;
      assert ids <= IdsUsed(trace, k) && trace[k - 1].devs.Keys + trace[k].devs.Keys <= IdsUsed(trace, k);
      if fs' == fs {
        MoreOwned(cfg, foreign, ids, IdsUsed(trace, k), fs);
      } else {
        var id :| id in trace[k - 1].devs.Keys + trace[k].devs.Keys
                  && Rest(cfg, foreign, id, fs) == Rest(cfg, foreign, id, fs');
        RestIsOwned(cfg, foreign, Exact(true, true), ids, id, fs, fs');
        MoreOwned(cfg, foreign, ids + {id}, IdsUsed(trace, k), fs');
      }
    }
  }

  lemma MoreOwned(cfg: Config, foreign: map<string, string>, ids: set<nat>, more: set<nat>, fs: Fs)
    requires AllOwned(cfg, foreign, Exact(true, true), ids, fs) && ids <= more
    ensures AllOwned(cfg, foreign, Exact(true, true), more, fs)
  {
    hide Own;
  }

  /** No two mounted volumes, on whatever devices, share a mountpoint or a link,
      and each is mounted inside the container of its own device. */
  lemma {:induction false} NoSharing(cfg: Config, foreign: map<string, string>, events: seq<Event>, trace: seq<State>,
                                     k: nat, id: nat, i: int, id': nat, i': int)
    requires IsTrace(cfg, foreign, events, trace) && k <= |events| && ManagedRun(events)
    requires var s := trace[k];
             && id in s.devs && i in s.devs[id].vols && s.devs[id].vols[i].state == Mounted
             && id' in s.devs && i' in s.devs[id'].vols && s.devs[id'].vols[i'].state == Mounted
    ensures var s := trace[k];
            var v, v' := s.devs[id].vols[i], s.devs[id'].vols[i'];
            && Beneath(s.devs[id].dir.path, v.mp.dir.path)
            && ((id, i) != (id', i') ==>
                 v.mp.dir.path != v'.mp.dir.path && (v.symlink == "" || v.symlink != v'.symlink))
  {
    ManagedState(cfg, foreign, INEXACT, events, trace, k);
    var s := trace[k];
    var d, d' := s.devs[id], s.devs[id'];
    assert Settled(cfg, d) && DevFs(cfg, foreign, INEXACT, d, s.world.fs) && DevOk(id, d);
    assert Settled(cfg, d') && DevFs(cfg, foreign, INEXACT, d', s.world.fs) && DevOk(id', d');
    assert VolShape(cfg, d, i, {}) && VolBacked(foreign, d.vols[i], s.world.fs);
    assert VolShape(cfg, d', i', {}) && VolBacked(foreign, d'.vols[i'], s.world.fs);
    MountPathInjective(cfg.workdir, id, i, id', i');
    MountPathIsOwn(cfg.workdir, id, i);
  }

  /** Deferred mounting drains: between events a volume is mounted only on an
      accepted device with an existing container, such a device has no waiting
      volume, and a device that is merely probed has no volumes at all. */
  lemma {:induction false} DeferredMountingDrains(cfg: Config, foreign: map<string, string>, events: seq<Event>,
                                                  trace: seq<State>, k: nat, id: nat)
    requires IsTrace(cfg, foreign, events, trace) && k <= |events| && ManagedRun(events) && id in trace[k].devs
    ensures var d, fs := trace[k].devs[id], trace[k].world.fs;
            && (d.dir.created ==> d.state == Ok && d.dir.path in fs.dirs)
            && (d.state == Probed ==> d.vols == map[])
            && (forall i :: i in d.vols ==>
                  if d.dir.created then d.vols[i].state in {Mounted, Unusable} else d.vols[i].state == Pending)
            && (forall i :: i in d.vols && d.vols[i].state == Mounted ==> d.vols[i].mp.dir.path in fs.mounts)
  {
    ManagedState(cfg, foreign, INEXACT, events, trace, k);
    var d, fs := trace[k].devs[id], trace[k].world.fs;
    assert Settled(cfg, d) && DevFs(cfg, foreign, INEXACT, d, fs);
    forall i | i in d.vols
      ensures VolShape(cfg, d, i, {}) && (d.vols[i].state == Mounted ==> VolBacked(foreign, d.vols[i], fs))
    {
    }
  }
}
