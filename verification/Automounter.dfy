/** The event handlers. */
module Automounter {
  import opened Option
  import opened Sets
  import opened Names
  import opened Platform
  import opened AutoDir
  import opened Devices
  import opened DeviceManager

  /** All state of the daemon and of what it works on. A daemon that is `stuck`
      searches for a free device ID forever. */
  datatype State = State(devs: Registry, cursor: nat, watched: map<string, string>, world: World, stuck: bool)

  // ---- Announcements ---------------------------------------------------------------

  const UINT_MAX: int := 0xFFFF_FFFF

  function BusIndex(index: int): int {
    if index >= 0 then index else UINT_MAX
  }

  function VolumeSignal(id: nat, v: Vol): Signal {
    NewVolume(BusIndex(v.index), v.labelText, v.mp.dir.path, id, v.uuid)
  }

  function DeviceSignal(d: Dev): Signal {
    NewDevice(d.id, d.name, d.uuid, d.dir.path, d.port)
  }

  function Announce(d: Dev, w: World): World {
    if d.dir.created then w.(log := w.log + [DeviceSignal(d)]) else w
  }

  // ---- Mounting --------------------------------------------------------------------

  ghost function FilterDev(d: Dev): Dev {
    d.(state := if Acceptable(d.name, false) then Ok else Rejected)
  }

  /** Mounting in managed mode: the volume ends up mounted or unusable. */
  ghost function MountManaged(cfg: Config, o: Oracle, v: Vol, container: string, fs: Fs): (Vol, Fs) {
    var (v1, fs1, made) := MakeMountpoint(o, v, container, fs);
    var (v2, fs2, mounted) := if made then MountVol(cfg, o, v1, fs1) else (v1, fs1, false);
    if mounted then (v2.(state := Mounted), fs2)
    else EndVol(o, v2, Unusable, fs2)
  }

  ghost function TryMount(cfg: Config, o: Oracle, d: Dev, i: int, w: World): (Dev, World)
    requires i in d.vols
  {
    var v := d.vols[i];
    if v.state != Pending || !d.dir.created then (d, w)
    else if d.dir.external then
      var (m, fs1) := SetMp(o, v.mp, d.dir.path, w.fs);
      var v' := v.(mp := m, state := Mounted);
      (d.(vols := d.vols[i := v']), World(fs1, w.log + [VolumeSignal(d.id, v')]))
    else
      var (v', fs1) := MountManaged(cfg, o, v, d.dir.path, w.fs);
      (d.(vols := d.vols[i := v']),
       World(fs1, if v'.state == Mounted then w.log + [VolumeSignal(d.id, v')] else w.log))
  }

  /** Mounting the volumes in `todo` in ascending order of their indices. */
  ghost function MountPending(cfg: Config, o: Oracle, d: Dev, todo: set<int>, w: World): (r: (Dev, World))
    requires todo <= d.vols.Keys
    ensures r.0.vols.Keys == d.vols.Keys
    decreases |todo|
  {
    if todo == {} then (d, w)
    else
      var i := Least(todo);
      var (d1, w1) := TryMount(cfg, o, d, i, w);
      MountPending(cfg, o, d1, todo - {i}, w1)
  }

  ghost function OpenContainer(cfg: Config, o: Oracle, d: Dev, w: World): (r: (Dev, World))
    ensures r.0.vols == d.vols
  {
    var path := ContainerPath(cfg.workdir, d.id);
    if path == d.dir.path then (d, Announce(d, w))
    else
      var (dir, fs, ok) := CreateDir(o, Dir(path, false, false), w.fs);
      var d' := d.(dir := dir);
      (d', if ok then Announce(d', w.(fs := fs)) else w.(fs := fs))
  }

  /** A device whose directory is known is announced, and none is made. */
  lemma OpenContainerAgain(cfg: Config, o: Oracle, d: Dev, w: World)
    requires d.dir.created && d.dir.path == ContainerPath(cfg.workdir, d.id)
    ensures OpenContainer(cfg, o, d, w) ==
            (d, w.(log := w.log + [NewDevice(id := d.id, name := d.name, uuid := d.uuid, path := d.dir.path,
                                             port := d.port)]))
  {
  }

  /** What follows the registration of `vol` on the device `d`. */
  ghost function Engage(cfg: Config, o: Oracle, d: Dev, vol: Option<int>, probed: bool, w: World): (Dev, World)
    requires vol.Some? ==> vol.value in d.vols
  {
    if d.state in {Synthetic, Broken, Rejected} then (d, w)
    else
      var d1 := if d.state == Probed then FilterDev(d) else d;
      if d1.state != Ok then (d1, w)
      else if probed || d1.dir.path == "" then
        var (d2, w2) := OpenContainer(cfg, o, d1, w);
        MountPending(cfg, o, d2, d2.vols.Keys, w2)
      else if vol.Some? then TryMount(cfg, o, d1, vol.value, w)
      else (d1, w)
  }

  // ---- Managed mode ----------------------------------------------------------------

  ghost function HandleNewDevice(cfg: Config, o: Oracle, s: State, link: NonEmpty): (s': State)
    requires s.cursor <= MAX_ID
    ensures s'.cursor <= MAX_ID
  {
    if !Acceptable(link, true) then s
    else if Blocked(o, s.devs, link) then s.(stuck := true)
    else
      var e := NewEntry(o, s.devs, s.cursor, link);
      var s1 := s.(devs := e.devs, cursor := e.cursor);
      if e.dev == None then s1
      else
        var id := e.dev.value;
        if e.vol == None && e.devs[id].vols == map[] then s1
        else
          var (d, w) := Engage(cfg, o, e.devs[id], e.vol, e.probed, s.world);
          s1.(devs := e.devs[id := d], world := w)
  }

  ghost function HandleRemovedDevice(o: Oracle, s: State, link: string): State
  {
    match FindDev(s.devs, link)
    case None => s
    case Some(id) =>
      s.(devs := s.devs - {id}, world := RemoveDev(o, s.devs[id], s.world))
  }

  // ---- Watch mode ------------------------------------------------------------------

  /** Looking at a mountpoint through an object that is destroyed at once. */
  ghost function ProbeMountpoint(o: Oracle, s: State, path: NonEmpty): (State, bool) {
    var (m, found) := ProbeMp(o, Mp(Dir(path, false, false), false), false);
    (s.(world := s.world.(fs := CleanMp(o, m, s.world.fs).1)), found)
  }

  /** Nothing is stored in the object that looks at the mountpoint, so that its
      destructors leave the mountpoint alone. */
  lemma ProbingLeavesNoTrace(o: Oracle, s: State, path: NonEmpty)
    ensures ProbeMountpoint(o, s, path) == (s, o.isDirectory(path) && o.isMountpoint(path))
  {
  }

  ghost function EntryByMountpoint(o: Oracle, s: State, path: NonEmpty): (r: (State, Option<nat>, Option<int>))
    requires s.cursor <= MAX_ID
    ensures r.0.cursor <= MAX_ID
    ensures r.1.Some? ==> r.1.value in r.0.devs && (r.2.Some? ==> r.2.value in r.0.devs[r.1.value].vols)
  {
    var (s0, found) := ProbeMountpoint(o, s, path);
    var (first, second) := o.linksOf(path);
    if !found || first == "" || second == "" then (s0, None, None)
    else if Blocked(o, s0.devs, first) then (s0.(stuck := true), None, None)
    else
      var e1 := NewEntry(o, s0.devs, s0.cursor, first);
      var s1 := s0.(devs := e1.devs, cursor := e1.cursor);
      if e1.dev == None then (s1, None, None)
      else if Blocked(o, s1.devs, second) then (s1.(stuck := true), None, None)
      else
        var e2 := NewEntry(o, s1.devs, s1.cursor, second);
        var s2 := s1.(devs := e2.devs, cursor := e2.cursor);
        if e2.dev == None then (s2, None, None)
        else (s2.(watched := s2.watched[path := first]), e2.dev, e2.vol)
  }

  ghost function HandleNewMountpoint(cfg: Config, o: Oracle, s: State, path: NonEmpty): (s': State)
    requires s.cursor <= MAX_ID
    ensures s'.cursor <= MAX_ID
  {
    var (s1, dev, vol) := EntryByMountpoint(o, s, path);
    if dev == None || vol == None then s1
    else
      var d := s1.devs[dev.value];
      var (d', w) := EngageWatched(cfg, o, d, vol.value, path, s1.world);
      s1.(devs := s1.devs[dev.value := d'], world := w)
  }

  ghost function EngageWatched(cfg: Config, o: Oracle, d: Dev, i: int, path: NonEmpty, w: World): (Dev, World)
    requires i in d.vols
  {
    if d.state in {Synthetic, Broken, Rejected} then (d, w)
    else
      var d1 := if d.state == Probed then FilterDev(d) else d;
      if d1.state != Ok then (d1, w)
      else
        var d2 := d1.(dir := Dir(path, true, true));
        TryMount(cfg, o, d2, i, Announce(d2, w))
  }

  ghost function HandleRemovedMountpoint(o: Oracle, s: State, path: string): State
  {
    if path in s.watched && s.watched[path] != ""
    then HandleRemovedDevice(o, s.(watched := s.watched - {path}), s.watched[path])
    else s.(watched := s.watched - {path})
  }

  // ---- Runs ------------------------------------------------------------------------

  datatype Event =
    | DeviceAdded(o: Oracle, link: NonEmpty)
    | DeviceGone(o: Oracle, link: NonEmpty)
    | MountpointAdded(o: Oracle, path: NonEmpty)
    | MountpointGone(o: Oracle, path: NonEmpty)
  {
    predicate IsManaged() { DeviceAdded? || DeviceGone? }
  }

  /** The daemon as it starts; only foreign files are in the symlink directory. */
  function Start(foreign: map<string, string>): State {
    State(map[], 0, map[], World(Fs({}, map[], foreign), []), false)
  }

  ghost function Step(cfg: Config, s: State, ev: Event): (s': State)
    requires s.cursor <= MAX_ID
    ensures s'.cursor <= MAX_ID
  {
    if s.stuck then s
    else match ev
      case DeviceAdded(o, link) =>
        HandleNewDevice(cfg, o, s, link)
      case DeviceGone(o, link) => HandleRemovedDevice(o, s, link)
      case MountpointAdded(o, path) => HandleNewMountpoint(cfg, o, s, path)
      case MountpointGone(o, path) => HandleRemovedMountpoint(o, s, path)
  }

  ghost function Run(cfg: Config, s: State, events: seq<Event>): (s': State)
    requires s.cursor <= MAX_ID
    ensures s'.cursor <= MAX_ID
  {
    if events == [] then s
    else Step(cfg, Run(cfg, s, events[..|events| - 1]), events[|events| - 1])
  }

  /** Names an instant of a run; what `IsTrace` says is said for named instants. */
  predicate Instant(k: nat) { true }

  /** All states of a run, from the start to the one after the last event. */
  ghost predicate IsTrace(cfg: Config, foreign: map<string, string>, events: seq<Event>, trace: seq<State>) {
    && |trace| == |events| + 1 && trace[0] == Start(foreign)
    && forall k: nat {:trigger Instant(k)} :: k < |events| && Instant(k) ==>
         trace[k].cursor <= MAX_ID && trace[k + 1] == Step(cfg, trace[k], events[k])
  }

  lemma {:induction false} TraceIsRun(cfg: Config, foreign: map<string, string>, events: seq<Event>,
                                      trace: seq<State>, k: nat)
    requires IsTrace(cfg, foreign, events, trace) && k <= |events|
    ensures trace[k] == Run(cfg, Start(foreign), events[..k])
  {
    hide Step;
    if k > 0 {
      TraceIsRun(cfg, foreign, events, trace, k - 1);
      assert events[..k][..k - 1] == events[..k - 1];
      assert Instant(k - 1);
    }
  }

  /** Every sequence of events makes a run. */
  lemma RunHasTrace(cfg: Config, foreign: map<string, string>, events: seq<Event>)
    ensures exists trace :: IsTrace(cfg, foreign, events, trace)
  {
    hide Step;
    var trace := seq(|events| + 1, k requires 0 <= k <= |events| => Run(cfg, Start(foreign), events[..k]));
    forall k: nat | k < |events| ensures trace[k + 1] == Step(cfg, trace[k], events[k]) {
      assert events[..k + 1][..k] == events[..k];
    }
    assert IsTrace(cfg, foreign, events, trace);
  }
}
