/** What happens, from the start, when a stick with one partition is plugged in and
    pulled out again: all of it, in both modes. */
module Scenarios {
  import opened Option
  import opened Sets
  import opened Text
  import opened Names
  import opened Platform
  import opened AutoDir
  import opened Devices
  import opened DeviceManager
  import opened Automounter
  import opened RegistryInvariant
  import opened Resources
  import opened ManagedMode
  import opened MountLinks
  import opened DeviceStates
  import opened WatchMode
  import opened OrderMatters

  /** A stick and what is told about it: `whole` is the link to it and `base` its block
      device; partition `n` has a volume, the stick itself has none. */
  datatype Stick = Stick(whole: NonEmpty, base: string, n: nat, uuid: string, port: string, info: VolumeInfo) {
    function Part(): NonEmpty {
      whole + "-part" + Decimal(n)
    }

    function Block(): NonEmpty {
      base + Decimal(n)
    }

    function Label(): string {
      if info.labelText != "" then info.labelText else info.fstype
    }
  }

  ghost predicate IsPresent(o: Oracle, t: Stick) {
    && |t.base| >= 2 && !IsDigit(t.base[0]) && !IsDigit(t.base[|t.base| - 1]) && 0 < t.n <= INT_MAX
    && o.resolve(t.whole) == Some(t.base) && o.resolve(t.Part()) == Some(t.Block())
    && o.deviceInfo(t.whole) == Some(DeviceInfo(isUsb := true, uuid := t.uuid, port := t.port))
    && o.volumeInfo(t.base) == None && o.volumeInfo(t.Block()) == Some(t.info)
    && (forall link {:trigger Reported(link)} :: Reported(link) && link in {t.whole, t.Part()} ==>
          Acceptable(link, true))
  }

  /** Names a link that is reported; what is said of these links is said for named ones. */
  predicate Reported(link: string) { true }

  lemma StickAccepted(o: Oracle, t: Stick)
    requires IsPresent(o, t)
    ensures Acceptable(t.whole, true) && Acceptable(t.Part(), true)
  {
    hide Acceptable;
    assert Reported(t.whole) && Reported(t.Part());
  }

  /** The operating system does what it is asked for, and the stick `t` is plugged in. */
  function Obliging(t: Stick): Oracle
    requires t.base != ""
  {
    var base: NonEmpty := t.base;
    Oracle(link => Some(if link == t.whole then base else t.Block()),
           block => if block == base then None else Some(t.info),
           _ => Some(DeviceInfo(isUsb := true, uuid := t.uuid, port := t.port)),
           _ => true, (_, _) => true, (_, _) => true, _ => true, _ => true, _ => true, _ => true, _ => true,
           _ => (t.whole, t.Part()))
  }

  /** There are such sticks. */
  lemma {:induction false} SticksExist(cfg: Config) returns (o: Oracle, t: Stick)
    ensures IsPresent(o, t) && (cfg.linkdir != "" ==> IsGranted(cfg, map[], o, t)) && PathsGoBack(o) && LinksGoBack(o)
    ensures forall path :: o.isDirectory(path) && o.isMountpoint(path) && o.linksOf(path) == (t.whole, t.Part())
  {
    hide Acceptable, PathsGoBack, LinksGoBack;
    t := Stick("usb-A", "/dev/sda", 1, "5", "/sys/x", VolumeInfo("7", "MUSIC", "vfat"));
    o := Obliging(t);
    assert Decimal(1) == "1";
    assert t.Part() == "usb-A" + "-part" + "1" && t.Block() == "/dev/sda" + "1";
    assert t.whole != t.Part() && t.base != t.Block();
    assert '.' !in t.Part() && '/' !in t.Part();
    PlainName(t.whole);
    PlainName(t.Part());
    ObligingGivesBack(t);
  }

  lemma ObligingGivesBack(t: Stick)
    requires t.base != ""
    ensures PathsGoBack(Obliging(t)) && LinksGoBack(Obliging(t))
  {
    var o := Obliging(t);
    assert forall p :: o.rmdirOk(p, 0) && o.umountOk(p) && o.unlinkOk(p);
  }

  lemma {:induction false} StickLinks(o: Oracle, t: Stick)
    requires IsPresent(o, t)
    ensures Devname(o, t.whole) == t.base && Devname(o, t.Part()) == t.Block()
    ensures LinkNumber(o, t.whole) == 0 && LinkNumber(o, t.Part()) == t.n && VolumeIndex(t.Block()) == t.n
    ensures RootOf(o, t.whole) == t.whole && RootOf(o, t.Part()) == t.whole
    ensures InfoOf(o, t.whole) == None && InfoOf(o, t.Part()) == Some(t.info)
  {
    hide VolumeNumber, RootName, Acceptable;
    VolumeNumberOfName(t.base, t.n);
    VolumeNumberRoundTrip(t.base, t.n);
    RootOfPartitionLink(t.whole, t.n);
  }

  // ---- The stick itself ------------------------------------------------------------------

  function Examinee(t: Stick): Dev {
    Dev(id := 1, devlink := t.whole, name := BaseName(t.whole), dir := NO_DIR, vols := map[], state := Probed,
        port := t.port, uuid := t.uuid, refs := 1)
  }

  lemma FirstId()
    ensures FreeIds({}) != {} && FreshId({}, 0) == 1
  {
    assert 1 in FreeIds({});
  }

  lemma {:induction false} WholeRegistered(o: Oracle, t: Stick)
    requires IsPresent(o, t)
    ensures !Blocked(o, map[], t.whole)
    ensures NewEntry(o, map[], 0, t.whole) == Entry(map[1 := Examinee(t)], 1, Some(1), None, true)
  {
    hide LinkNumber, InfoOf, Devname, RootOf, Acceptable, BaseName, FreshId, FreeIds;
    StickAccepted(o, t);
    StickLinks(o, t);
    FirstId();
    NameGiven(t.whole);
    var devs: Registry := map[];
    assert devs.Keys == {} && WithLink(devs, t.whole) == {};
  }

  lemma NameGiven(link: string)
    ensures Acceptable(link, true) ==> BaseName(link) != ""
  {
  }

  // ---- Its partition ---------------------------------------------------------------------

  function WaitingVolume(t: Stick): Vol {
    Vol(index := t.n, state := Pending, labelText := t.Label(), fstype := t.info.fstype, devname := t.Block(),
        uuid := t.info.uuid, mp := NO_MOUNTPOINT, symlink := "")
  }

  function Carrier(t: Stick): Dev {
    Examinee(t).(vols := map[t.n := WaitingVolume(t)], refs := 2)
  }

  lemma {:induction false} PartRegistered(o: Oracle, t: Stick)
    requires IsPresent(o, t)
    ensures !Blocked(o, map[1 := Examinee(t)], t.Part())
    ensures NewEntry(o, map[1 := Examinee(t)], 1, t.Part()) == Entry(map[1 := Carrier(t)], 1, Some(1), Some(t.n), false)
  {
    hide LinkNumber, InfoOf, Devname, RootOf, Acceptable, BaseName, FreshId, FreeIds, VolumeIndex;
    StickAccepted(o, t);
    StickLinks(o, t);
    var devs: Registry := map[1 := Examinee(t)];
    assert WithLink(devs, t.whole) == {1};
    assert FindVol(map[], t.Block()) == None;
    assert devs[1 := Carrier(t)] == map[1 := Carrier(t)];
  }

  // ---- Managed mode ------------------------------------------------------------------------

  function Container(cfg: Config): string {
    cfg.workdir + "/" + "1"
  }

  function Place(cfg: Config, t: Stick): string {
    Container(cfg) + "/" + Decimal(t.n)
  }

  function LinkTo(cfg: Config, t: Stick): string {
    cfg.linkdir + "/" + t.Label()
  }

  /** The operating system does not refuse anything, and the name of the link is free. */
  ghost predicate IsGranted(cfg: Config, foreign: map<string, string>, o: Oracle, t: Stick) {
    && o.mkdirOk(Container(cfg)) && o.mkdirOk(Place(cfg, t)) && o.mountOk(t.Block(), Place(cfg, t))
    && cfg.linkdir != "" && LinkTo(cfg, t) !in foreign && o.symlinkOk(LinkTo(cfg, t))
  }

  function MountedStick(cfg: Config, t: Stick): Dev {
    Dev(id := 1, devlink := t.whole, name := BaseName(t.whole),
        dir := Dir(path := Container(cfg), created := true, external := false),
        vols := map[t.n := WaitingVolume(t).(
          state := Mounted, mp := Mp(Dir(path := Place(cfg, t), created := true, external := false), mounted := true),
          symlink := LinkTo(cfg, t))],
        state := Ok, port := t.port, uuid := t.uuid, refs := 2)
  }

  function MountedWorld(cfg: Config, foreign: map<string, string>, t: Stick): World {
    World(fs := Fs(dirs := {Container(cfg), Place(cfg, t)}, mounts := map[Place(cfg, t) := t.Block()],
                   links := foreign[LinkTo(cfg, t) := Place(cfg, t)]),
          log := [NewDevice(id := 1, name := BaseName(t.whole), uuid := t.uuid, path := Container(cfg), port := t.port),
                  NewVolume(index := t.n, labelText := t.Label(), path := Place(cfg, t), id := 1, uuid := t.info.uuid)])
  }

  lemma PathsAre(cfg: Config, t: Stick)
    ensures ContainerPath(cfg.workdir, 1) == Container(cfg) && MountPath(cfg.workdir, 1, t.n) == Place(cfg, t)
    ensures Container(cfg) != "" && Place(cfg, t) != Container(cfg)
  {
    assert Decimal(1) == "1";
  }

  lemma {:induction false} StickMounted(cfg: Config, foreign: map<string, string>, o: Oracle, t: Stick, w: World)
    requires IsGranted(cfg, foreign, o, t) && w == World(Fs({Container(cfg)}, map[], foreign), w.log)
    ensures var d := MountedStick(cfg, t);
            var (v', fs') := MountManaged(cfg, o, WaitingVolume(t), Container(cfg), w.fs);
            v' == d.vols[t.n] && fs' == MountedWorld(cfg, foreign, t).fs
  {
    hide FreeLinkName, RmdirRetrying, Candidate;
    PathsAre(cfg, t);
    var (v', fs') := MountManaged(cfg, o, WaitingVolume(t), Container(cfg), w.fs);
    MountManagedOutcome(cfg, o, WaitingVolume(t), Container(cfg), w.fs);
    MountLinked(cfg, o, WaitingVolume(t), Container(cfg), w.fs);
    FirstCandidate(LinkTo(cfg, t));
    assert v'.symlink == LinkTo(cfg, t);
    assert fs'.dirs == {Container(cfg), Place(cfg, t)};
  }

  lemma FirstCandidate(base: string)
    ensures Candidate(base, 1) == base
  {
  }

  lemma {:induction false} OneVolume(cfg: Config, o: Oracle, d: Dev, i: int, w: World)
    requires d.vols.Keys == {i}
    ensures MountPending(cfg, o, d, d.vols.Keys, w) == TryMount(cfg, o, d, i, w)
  {
    hide TryMount;
    var (d1, w1) := TryMount(cfg, o, d, i, w);
    TryMountSame(cfg, o, d, i, w);
    assert IsLeast({i}, i);
    assert Least({i}) == i && {i} - {i} == {};
    assert MountPending(cfg, o, d1, {}, w1) == (d1, w1);
  }

  lemma {:induction false} StickEngaged(cfg: Config, foreign: map<string, string>, o: Oracle, t: Stick)
    requires IsPresent(o, t) && IsGranted(cfg, foreign, o, t)
    ensures Engage(cfg, o, Carrier(t), Some(t.n), false, World(Fs({}, map[], foreign), []))
            == (MountedStick(cfg, t), MountedWorld(cfg, foreign, t))
  {
    hide MountPending, MountManaged, LinkNumber, InfoOf, Devname, RootOf, BaseName;
    StickAccepted(o, t);
    var w := World(Fs({}, map[], foreign), []);
    PathsAre(cfg, t);
    AllowedName(t.whole);
    var d1 := Carrier(t).(state := Ok);
    assert FilterDev(Carrier(t)) == d1;
    OpenContainerOutcome(cfg, o, d1, w);
    var (d2, w2) := OpenContainer(cfg, o, d1, w);
    assert d2 == d1.(dir := Dir(Container(cfg), true, false));
    assert w2.fs == Fs({Container(cfg)}, map[], foreign);
    OneVolume(cfg, o, d2, t.n, w2);
    StickMounted(cfg, foreign, o, t, w2);
    var (d3, w3) := TryMount(cfg, o, d2, t.n, w2);
    assert d2.vols[t.n := MountedStick(cfg, t).vols[t.n]] == MountedStick(cfg, t).vols;
    assert d3 == MountedStick(cfg, t);
    assert w3 == MountedWorld(cfg, foreign, t);
  }

  lemma {:induction false} StickPlugged(cfg: Config, foreign: map<string, string>, o: Oracle, t: Stick)
    requires IsPresent(o, t) && IsGranted(cfg, foreign, o, t)
    ensures var s := Step(cfg, Start(foreign), DeviceAdded(o, t.whole));
            && s == State(devs := map[1 := Examinee(t)], cursor := 1, watched := map[],
                          world := World(Fs({}, map[], foreign), []), stuck := false)
            && Step(cfg, s, DeviceAdded(o, t.Part()))
               == State(devs := map[1 := MountedStick(cfg, t)], cursor := 1, watched := map[],
                        world := MountedWorld(cfg, foreign, t), stuck := false)
  {
    hide NewEntry, Engage, Blocked, LinkNumber, InfoOf, Devname, RootOf, BaseName, Acceptable;
    StickAccepted(o, t);
    WholeRegistered(o, t);
    PartRegistered(o, t);
    StickEngaged(cfg, foreign, o, t);
    assert map[1 := Carrier(t)][1 := MountedStick(cfg, t)] == map[1 := MountedStick(cfg, t)];
  }

  lemma {:induction false} StickUnplugged(cfg: Config, foreign: map<string, string>, o: Oracle, t: Stick)
    ensures var s := State(devs := map[1 := MountedStick(cfg, t)], cursor := 1, watched := map[],
                           world := MountedWorld(cfg, foreign, t), stuck := false);
            var s' := Step(cfg, s, DeviceGone(o, t.whole));
            && s' == State(map[], 1, map[], s'.world, false)
            && s'.world.log == s.world.log + [
                 DeviceWillBeRemoved(id := 1, uuid := t.uuid, path := Container(cfg)),
                 DeviceRemoved(id := 1, uuid := t.uuid, path := Container(cfg))]
  {
    hide DropVols, ReleaseDev;
    var d := MountedStick(cfg, t);
    var devs: Registry := map[1 := d];
    assert WithLink(devs, t.whole) == {1};
    assert IsLeast({1}, 1);
    assert devs - {1} == map[];
    DropVolsKeeps(o, d, MountedWorld(cfg, foreign, t).fs);
  }

  /** A stick with one partition in managed mode: first it is examined, then its
      directory is made, it is announced, its partition mounted, linked to and announced;
      and when it is pulled out that is announced, and nothing is left of it. */
  lemma {:induction false} StickInManagedMode(cfg: Config, foreign: map<string, string>, o: Oracle, t: Stick,
                                              o': Oracle, trace: seq<State>)
    requires IsPresent(o, t) && IsGranted(cfg, foreign, o, t) && PathsGoBack(o) && LinksGoBack(o)
    requires PathsGoBack(o') && LinksGoBack(o')
    requires IsTrace(cfg, foreign, [DeviceAdded(o, t.whole), DeviceAdded(o, t.Part()), DeviceGone(o', t.whole)], trace)
    ensures trace[1].devs == map[1 := Examinee(t)] && trace[1].world == World(Fs({}, map[], foreign), [])
    ensures trace[2].devs == map[1 := MountedStick(cfg, t)] && trace[2].world == MountedWorld(cfg, foreign, t)
    ensures trace[3].devs == map[] && trace[3].world.fs == Fs({}, map[], foreign)
    ensures trace[3].world.log == trace[2].world.log + [
              DeviceWillBeRemoved(id := 1, uuid := t.uuid, path := Container(cfg)),
              DeviceRemoved(id := 1, uuid := t.uuid, path := Container(cfg))]
  {
    hide Step, PathsGoBack, LinksGoBack, IsPresent, IsGranted, Examinee, MountedStick, MountedWorld, Container, IsTrace,
         Stick.Part;
    var events := [DeviceAdded(o, t.whole), DeviceAdded(o, t.Part()), DeviceGone(o', t.whole)];
    TraceStep(cfg, foreign, events, trace, 0);
    TraceStep(cfg, foreign, events, trace, 1);
    TraceStep(cfg, foreign, events, trace, 2);
    StickPlugged(cfg, foreign, o, t);
    StickUnplugged(cfg, foreign, o', t);
    NothingIsLeft(cfg, foreign, events, trace);
  }

  lemma TraceStep(cfg: Config, foreign: map<string, string>, events: seq<Event>, trace: seq<State>, k: nat)
    requires IsTrace(cfg, foreign, events, trace) && k < |events|
    ensures |trace| == |events| + 1 && trace[0] == Start(foreign) && trace[k].cursor <= MAX_ID
    ensures trace[k + 1] == Step(cfg, trace[k], events[k])
  {
    hide Step;
    assert Instant(k);
  }

  lemma {:induction false} NothingIsLeft(cfg: Config, foreign: map<string, string>, events: seq<Event>,
                                         trace: seq<State>)
    requires IsTrace(cfg, foreign, events, trace) && ManagedRun(events) && trace[|events|].devs == map[]
    requires forall k :: 0 <= k < |events| ==> PathsGoBack(events[k].o) && LinksGoBack(events[k].o)
    ensures trace[|events|].world.fs == Fs({}, map[], foreign)
  {
    hide PathsGoBack, LinksGoBack, Step;
    Conservation(cfg, foreign, events, trace, |events|);
    var fs := trace[|events|].world.fs;
    assert DirsOf(map[]) == {} && MountsOf(map[]) == {} && LinksOf(map[]) == {};
    assert fs.mounts == map[] && fs.links == foreign;
  }

  // ---- Watch mode --------------------------------------------------------------------------

  function WatchedStick(t: Stick, path: string): Dev {
    Dev(id := 1, devlink := t.whole, name := BaseName(t.whole),
        dir := Dir(path := path, created := true, external := true),
        vols := map[t.n := WaitingVolume(t).(
          state := Mounted, mp := Mp(Dir(path := path, created := false, external := false), mounted := false))],
        state := Ok, port := t.port, uuid := t.uuid, refs := 2)
  }

  function WatchedLog(t: Stick, path: string): seq<Signal> {
    [NewDevice(id := 1, name := BaseName(t.whole), uuid := t.uuid, path := path, port := t.port),
     NewVolume(index := t.n, labelText := t.Label(), path := path, id := 1, uuid := t.info.uuid)]
  }

  lemma {:induction false} StickFound(o: Oracle, foreign: map<string, string>, t: Stick, path: NonEmpty)
    requires IsPresent(o, t) && o.isDirectory(path) && o.isMountpoint(path) && o.linksOf(path) == (t.whole, t.Part())
    ensures EntryByMountpoint(o, Start(foreign), path)
            == (Start(foreign).(devs := map[1 := Carrier(t)], cursor := 1, watched := map[path := t.whole]),
                Some(1), Some(t.n))
  {
    hide NewEntry, Blocked, IsPresent, ProbeMountpoint, BaseName;
    ProbingLeavesNoTrace(o, Start(foreign), path);
    WholeRegistered(o, t);
    PartRegistered(o, t);
    assert map[][path := t.whole] == map[path := t.whole];
  }

  lemma {:induction false} StickWatched(cfg: Config, foreign: map<string, string>, o: Oracle, t: Stick, path: NonEmpty)
    requires IsPresent(o, t)
    ensures EngageWatched(cfg, o, Carrier(t), t.n, path, World(Fs({}, map[], foreign), []))
            == (WatchedStick(t, path), World(Fs({}, map[], foreign), WatchedLog(t, path)))
  {
    hide LinkNumber, InfoOf, Devname, RootOf, BaseName, MountManaged;
    StickAccepted(o, t);
    AllowedName(t.whole);
    var d := Carrier(t).(state := Ok, dir := Dir(path, true, true));
    assert FilterDev(Carrier(t)) == Carrier(t).(state := Ok);
    assert d.vols[t.n := WatchedStick(t, path).vols[t.n]] == WatchedStick(t, path).vols;
    assert EngageWatched(cfg, o, Carrier(t), t.n, path, World(Fs({}, map[], foreign), [])).1.log == WatchedLog(t, path);
  }

  lemma {:induction false} StickUnwatched(cfg: Config, foreign: map<string, string>, o: Oracle, t: Stick,
                                          path: NonEmpty)
    ensures var s := State(devs := map[1 := WatchedStick(t, path)], cursor := 1, watched := map[path := t.whole],
                           world := World(Fs({}, map[], foreign), WatchedLog(t, path)), stuck := false);
            Step(cfg, s, MountpointGone(o, path))
            == State(map[], 1, map[],
                     World(Fs({}, map[], foreign), WatchedLog(t, path) + [
                       DeviceWillBeRemoved(id := 1, uuid := t.uuid, path := path),
                       DeviceRemoved(id := 1, uuid := t.uuid, path := path)]), false)
  {
    hide DropVols;
    var d := WatchedStick(t, path);
    var devs: Registry := map[1 := d];
    assert WithLink(devs, t.whole) == {1};
    assert IsLeast({1}, 1);
    assert devs - {1} == map[];
    assert map[path := t.whole] - {path} == map[];
    DropVolsKeeps(o, d, Fs({}, map[], foreign));
    assert HandsOff(d);
    DropVolsHandsOff(o, d, Fs({}, map[], foreign));
  }

  /** The same stick in watch mode: its mountpoint is announced as the directory of the
      device and as the place of the volume, nothing is touched, and when it vanishes
      the removal is announced. */
  lemma {:induction false} StickInWatchMode(cfg: Config, foreign: map<string, string>, o: Oracle, t: Stick,
                                            path: NonEmpty, o': Oracle, trace: seq<State>)
    requires IsPresent(o, t) && o.isDirectory(path) && o.isMountpoint(path) && o.linksOf(path) == (t.whole, t.Part())
    requires IsTrace(cfg, foreign, [MountpointAdded(o, path), MountpointGone(o', path)], trace)
    ensures trace[1].devs == map[1 := WatchedStick(t, path)] && trace[1].watched == map[path := t.whole]
    ensures trace[1].world == World(Fs({}, map[], foreign), WatchedLog(t, path))
    ensures trace[2].devs == map[] && trace[2].watched == map[]
    ensures trace[2].world == World(Fs({}, map[], foreign), WatchedLog(t, path) + [
              DeviceWillBeRemoved(id := 1, uuid := t.uuid, path := path),
              DeviceRemoved(id := 1, uuid := t.uuid, path := path)])
  {
    hide Step, IsPresent, WatchedLog, WatchedStick, IsTrace, Stick.Part;
    var events := [MountpointAdded(o, path), MountpointGone(o', path)];
    TraceStep(cfg, foreign, events, trace, 0);
    TraceStep(cfg, foreign, events, trace, 1);
    StickShown(cfg, foreign, o, t, path);
    StickUnwatched(cfg, foreign, o', t, path);
  }

  lemma {:induction false} StickShown(cfg: Config, foreign: map<string, string>, o: Oracle, t: Stick, path: NonEmpty)
    requires IsPresent(o, t) && o.isDirectory(path) && o.isMountpoint(path) && o.linksOf(path) == (t.whole, t.Part())
    ensures Step(cfg, Start(foreign), MountpointAdded(o, path))
            == State(devs := map[1 := WatchedStick(t, path)], cursor := 1, watched := map[path := t.whole],
                     world := World(Fs({}, map[], foreign), WatchedLog(t, path)), stuck := false)
  {
    hide EntryByMountpoint, EngageWatched, IsPresent, WatchedLog, WatchedStick, Examinee, WaitingVolume, Stick.Part;
    StickFound(o, foreign, t, path);
    StickWatched(cfg, foreign, o, t, path);
    assert map[1 := Carrier(t)][1 := WatchedStick(t, path)] == map[1 := WatchedStick(t, path)];
  }
}
