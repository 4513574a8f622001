/** What a listener on the bus learns from the signals. */
module Signals {
  import opened Option
  import opened Sets
  import opened Names
  import opened Platform
  import opened AutoDir
  import opened Devices
  import opened DeviceManager
  import opened Automounter
  import opened RegistryInvariant
  import opened Resources

  /** What a listener knows about one device: the last announcement of the device
      and of each volume, whether the removal has been announced, and whether all
      signals have come in proper order so far, and all removals have told the UUID
      and the path that the device was announced with. */
  datatype Knowledge = Knowledge(dev: Option<Signal>, vols: map<int, Signal>, leaving: bool, orderly: bool,
                                 honest: bool)

  const NOTHING := Knowledge(None, map[], false, true, true)

  predicate WasAnnounced(k: Knowledge, uuid: string, path: string) {
    k.dev.Some? && k.dev.value.NewDevice? && k.dev.value.uuid == uuid && k.dev.value.path == path
  }

  /** In proper order are: the device, its volumes, each of them once, then the
      announcement of the removal, and the removal; and then the same again. */
  function Hear(k: Knowledge, s: Signal): Knowledge {
    match s
    case NewDevice(_, _, _, _, _) =>
      k.(dev := Some(s), orderly := k.orderly && k.dev == None)
    case NewVolume(index, _, _, _, _) =>
      k.(vols := k.vols[index := s], orderly := k.orderly && k.dev.Some? && !k.leaving && index !in k.vols)
    case DeviceWillBeRemoved(_, uuid, path) =>
      k.(leaving := true, orderly := k.orderly && k.dev.Some? && !k.leaving,
         honest := k.honest && WasAnnounced(k, uuid, path))
    case DeviceRemoved(_, uuid, path) =>
      Knowledge(None, map[], false, k.orderly && k.leaving, k.honest && WasAnnounced(k, uuid, path))
  }

  /** What is known about device `id` after all the signals in `log`. */
  function Heard(log: seq<Signal>, id: nat): Knowledge {
    if log == [] then NOTHING
    else
      var before := Heard(log[..|log| - 1], id);
      if log[|log| - 1].id == id then Hear(before, log[|log| - 1]) else before
  }

  lemma HeardOneMore(log: seq<Signal>, s: Signal, id: nat)
    ensures Heard(log + [s], id) == if s.id == id then Hear(Heard(log, id), s) else Heard(log, id)
  {
    assert (log + [s])[..|log|] == log;
  }

  /** The volumes of `d` in the answer to GetAll. */
  function ShownVolumes(d: Dev): map<int, Signal> {
    map b | b in (set i | i in d.vols && d.vols[i].state == Mounted :: BusIndex(i)) && FromBus(b) in d.vols ::
      VolumeSignal(d.id, d.vols[FromBus(b)])
  }

  function FromBus(b: int): int {
    if b == UINT_MAX then -1 else b
  }

  /** A listener knows exactly what is true of `d`. */
  predicate Told(managed: bool, log: seq<Signal>, d: Dev) {
    var k := Heard(log, d.id);
    && k.dev == (if d.dir.created then Some(DeviceSignal(d)) else None)
    && k.vols == ShownVolumes(d)
    && !k.leaving && k.honest && (managed ==> k.orderly)
  }

  /** Only accepted devices have containers; only those have mounted volumes. */
  predicate Presentable(d: Dev) {
    && (d.dir.created ==> d.state == Ok && d.dir.path != "")
    && (forall i :: i in d.vols && d.vols[i].state == Mounted ==> d.dir.created)
  }

  ghost predicate OthersKept(id: nat, log: seq<Signal>, log': seq<Signal>) {
    forall j: nat :: j != id ==> Heard(log', j) == Heard(log, j)
  }

  lemma {:induction false} NewVolumeHeard(managed: bool, log: seq<Signal>, d: Dev, i: int, v: Vol)
    requires DevOk(d.id, d) && Told(managed, log, d) && d.dir.created
    requires i in d.vols && d.vols[i].state != Mounted && v.state == Mounted && SameVol(d.vols[i], v)
    ensures var log' := log + [VolumeSignal(d.id, v)];
            Told(managed, log', d.(vols := d.vols[i := v])) && OthersKept(d.id, log, log')
  {
    var d' := d.(vols := d.vols[i := v]);
    forall j: nat ensures Heard(log + [VolumeSignal(d.id, v)], j) ==
                          if j == d.id then Hear(Heard(log, j), VolumeSignal(d.id, v)) else Heard(log, j) {
      HeardOneMore(log, VolumeSignal(d.id, v), j);
    }
    assert ValidIndex(i) && FromBus(BusIndex(i)) == i;
    ShownMore(d, i, v);
  }

  lemma ShownMore(d: Dev, i: int, v: Vol)
    requires DevOk(d.id, d) && i in d.vols && d.vols[i].state != Mounted && v.state == Mounted && v.index == i
    ensures ShownVolumes(d.(vols := d.vols[i := v])) == ShownVolumes(d)[BusIndex(i) := VolumeSignal(d.id, v)]
    ensures BusIndex(i) !in ShownVolumes(d)
  {
    hide BusIndex, FromBus, VolumeSignal, DevOk;
    var d' := d.(vols := d.vols[i := v]);
    IndicesReturn(d);
    var b := BusIndex(i);
    assert d'.vols[i].state == Mounted && FromBus(b) == i;
    assert forall j :: j in d.vols && j != i ==> d'.vols[j] == d.vols[j];
    assert ShownVolumes(d').Keys == ShownVolumes(d).Keys + {b};
  }

  /** Indices survive the way over the bus. */
  lemma IndicesReturn(d: Dev)
    requires DevOk(d.id, d)
    ensures forall i :: i in d.vols ==> FromBus(BusIndex(i)) == i
  {
    assert forall i :: i in d.vols ==> ValidIndex(i);
  }

  lemma ShownSame(d: Dev, d': Dev)
    requires DevOk(d.id, d) && DevOk(d.id, d')
    requires forall i :: i in d.vols && d.vols[i].state == Mounted ==> i in d'.vols && d'.vols[i] == d.vols[i]
    requires forall i :: i in d'.vols && d'.vols[i].state == Mounted ==> i in d.vols && d.vols[i] == d'.vols[i]
    ensures ShownVolumes(d) == ShownVolumes(d')
  {
    hide BusIndex, FromBus, VolumeSignal;
    IndicesReturn(d);
    IndicesReturn(d');
    assert ShownVolumes(d).Keys == ShownVolumes(d').Keys;
  }

  // ---- Device operations -----------------------------------------------------------

  lemma {:induction false} TryMountTold(managed: bool, cfg: Config, o: Oracle, d: Dev, i: int, w: World)
    requires DevOk(d.id, d) && i in d.vols && Presentable(d) && Told(managed, w.log, d)
    ensures var (d', w') := TryMount(cfg, o, d, i, w);
            Presentable(d') && Told(managed, w'.log, d') && OthersKept(d.id, w.log, w'.log)
  {
    var (d', w') := TryMount(cfg, o, d, i, w);
    TryMountSame(cfg, o, d, i, w);
    DevOkSame(d.id, d, d');
    if d.vols[i].state == Pending && d.dir.created {
      var v' := d'.vols[i];
      assert d' == d.(vols := d.vols[i := v']);
      if v'.state == Mounted {
        NewVolumeHeard(managed, w.log, d, i, v');
      } else {
        ShownSame(d, d');
      }
    }
  }

  lemma {:induction false} MountPendingTold(managed: bool, cfg: Config, o: Oracle, d: Dev, todo: set<int>, w: World)
    requires DevOk(d.id, d) && todo <= d.vols.Keys && Presentable(d) && Told(managed, w.log, d)
    ensures var (d', w') := MountPending(cfg, o, d, todo, w);
            Presentable(d') && Told(managed, w'.log, d') && OthersKept(d.id, w.log, w'.log)
    decreases |todo|
  {
    hide TryMount, Told;
    if todo != {} {
      var i := Least(todo);
      var (d1, w1) := TryMount(cfg, o, d, i, w);
      TryMountTold(managed, cfg, o, d, i, w);
      TryMountSame(cfg, o, d, i, w);
      DevOkSame(d.id, d, d1);
      MountPendingTold(managed, cfg, o, d1, todo - {i}, w1);
    }
  }

  lemma AnnounceTold(managed: bool, d: Dev, d': Dev, w: World)
    requires DevOk(d.id, d) && Told(managed, w.log, d) && d' == d.(dir := d'.dir, state := d'.state)
    requires d'.dir.created && (managed ==> !d.dir.created)
    ensures Told(managed, Announce(d', w).log, d') && OthersKept(d.id, w.log, Announce(d', w).log)
  {
    forall j: nat ensures Heard(w.log + [DeviceSignal(d')], j) ==
                          if j == d.id then Hear(Heard(w.log, j), DeviceSignal(d')) else Heard(w.log, j) {
      HeardOneMore(w.log, DeviceSignal(d'), j);
    }
    ShownSame(d, d');
  }

  lemma {:induction false} EngageTold(managed: bool, cfg: Config, o: Oracle, d: Dev, vol: Option<int>, probed: bool,
                                      w: World)
    requires DevOk(d.id, d) && (vol.Some? ==> vol.value in d.vols) && (probed ==> d.state == Probed)
    requires Presentable(d) && Told(managed, w.log, d)
    ensures var (d', w') := Engage(cfg, o, d, vol, probed, w);
            Presentable(d') && Told(managed, w'.log, d') && OthersKept(d.id, w.log, w'.log)
  {
    hide TryMount, MountPending;
    if d.state !in {Synthetic, Broken, Rejected} {
      var d1 := if d.state == Probed then FilterDev(d) else d;
      ShownSame(d, d1);
      if d1.state == Ok && (probed || d1.dir.path == "") {
        OpenContainerTold(managed, cfg, o, d1, w);
        var (d2, w2) := OpenContainer(cfg, o, d1, w);
        DevOkSame(d.id, d, d2);
        MountPendingTold(managed, cfg, o, d2, d2.vols.Keys, w2);
      } else if d1.state == Ok && vol.Some? {
        TryMountTold(managed, cfg, o, d1, vol.value, w);
      }
    }
  }

  lemma OpenContainerTold(managed: bool, cfg: Config, o: Oracle, d: Dev, w: World)
    requires DevOk(d.id, d) && d.state == Ok && !d.dir.created && Presentable(d) && Told(managed, w.log, d)
    ensures var (d', w') := OpenContainer(cfg, o, d, w);
            Presentable(d') && Told(managed, w'.log, d') && OthersKept(d.id, w.log, w'.log) && SameDev(d, d')
  {
    hide OpenContainer, ShownVolumes, Heard, Announce, DeviceSignal;
    var (d', w') := OpenContainer(cfg, o, d, w);
    OpenContainerAnnounces(cfg, o, d, w);
    ShownSame(d, d');
    if d'.dir.created {
      AnnounceTold(managed, d, d', w);
    }
  }

  lemma OpenContainerAnnounces(cfg: Config, o: Oracle, d: Dev, w: World)
    requires !d.dir.created
    ensures var (d', w') := OpenContainer(cfg, o, d, w);
            && d' == d.(dir := d'.dir) && (d'.dir.created ==> d'.dir.path != "")
            && w'.log == if d'.dir.created then Announce(d', w).log else w.log
  {
  }

  lemma {:induction false} EngageWatchedTold(cfg: Config, o: Oracle, d: Dev, i: int, path: NonEmpty, w: World)
    requires DevOk(d.id, d) && i in d.vols && Presentable(d) && Told(false, w.log, d)
    ensures var (d', w') := EngageWatched(cfg, o, d, i, path, w);
            Presentable(d') && Told(false, w'.log, d') && OthersKept(d.id, w.log, w'.log)
  {
    hide TryMount;
    if d.state !in {Synthetic, Broken, Rejected} {
      var d1 := if d.state == Probed then FilterDev(d) else d;
      ShownSame(d, d1);
      if d1.state == Ok {
        var d2 := d1.(dir := Dir(path, true, true));
        AnnounceTold(false, d1, d2, w);
        TryMountTold(false, cfg, o, d2, i, Announce(d2, w));
      }
    }
  }

  /** A removal is announced exactly if the device had been; afterwards nothing is
      known about the device. */
  lemma RemoveDevTold(managed: bool, o: Oracle, d: Dev, w: World)
    requires DevOk(d.id, d) && Presentable(d) && Told(managed, w.log, d)
    ensures var log' := RemoveDev(o, d, w).log;
            && OthersKept(d.id, w.log, log')
            && Heard(log', d.id).(orderly := true) == NOTHING && (managed ==> Heard(log', d.id).orderly)
  {
    DropVolsKeeps(o, d, w.fs);
    var d' := DropVols(o, d, w.fs).0;
    if d.dir.created {
      var s1, s2 := DeviceWillBeRemoved(d.id, d.uuid, d.dir.path), DeviceRemoved(d.id, d.uuid, d.dir.path);
      forall j: nat ensures Heard(w.log + [s1] + [s2], j) ==
                            if j == d.id then Hear(Hear(Heard(w.log, j), s1), s2) else Heard(w.log, j) {
        HeardOneMore(w.log, s1, j);
        HeardOneMore(w.log + [s1], s2, j);
      }
    } else {
      assert w.log + [] + [] == w.log;
      assert ShownVolumes(d) == map[];
    }
  }

  // ---- Events --------------------------------------------------------------------

  /** What listeners know about all devices is true. */
  ghost predicate AllTold(managed: bool, s: State) {
    && RegOk(s.devs) && s.cursor <= MAX_ID
    && (forall id :: id in s.devs ==> Presentable(s.devs[id]) && Told(managed, s.world.log, s.devs[id]))
    && (forall id: nat :: id !in s.devs ==>
          Heard(s.world.log, id).(orderly := true) == NOTHING && (managed ==> Heard(s.world.log, id).orderly))
  }

  /** Registering a link does not change what is shown of any device. */
  lemma {:induction false} NewEntryTold(managed: bool, o: Oracle, s: State, link: NonEmpty)
    requires AllTold(managed, s) && !Blocked(o, s.devs, link)
    ensures var e := NewEntry(o, s.devs, s.cursor, link);
            && AllTold(managed, s.(devs := e.devs, cursor := e.cursor))
            && (e.probed ==> e.dev.Some? && e.devs[e.dev.value].state == Probed)
  {
    hide NewEntry, RegisterOn, RootOf, Before, Told, Heard, Presentable, RegOk, DevOk;
    var e := NewEntry(o, s.devs, s.cursor, link);
    NewEntryOk(o, s.devs, s.cursor, link);
    NewEntryOutcome(o, s.devs, s.cursor, link);
    if e != Entry(s.devs, s.cursor, e.dev, None, false) {
      BeforeTold(managed, s, e.dev.value, RootOf(o, link));
      RegisterOnTold(managed, o, s.world.log, link, Before(s.devs, e.dev.value, RootOf(o, link)),
                     FindDev(s.devs, RootOf(o, link)).Some?);
    }
  }

  lemma {:induction false} RegisterOnTold(managed: bool, o: Oracle, log: seq<Signal>, link: NonEmpty, d: Dev,
                                          known: bool)
    requires DevOk(d.id, d) && Presentable(d) && Told(managed, log, d)
    ensures var d' := RegisterOn(o, link, d, known).0; Presentable(d') && Told(managed, log, d')
  {
    hide AddVol, LinkNumber;
    ExaminedTold(managed, o, log, link, d);
    if InfoOf(o, link).Some? {
      AddVolTold(managed, log, Examined(o, link, d), Devname(o, link), InfoOf(o, link).value);
    }
  }

  lemma BeforeTold(managed: bool, s: State, id: nat, link: string)
    requires AllTold(managed, s) && (id in s.devs || 1 <= id <= MAX_ID)
    ensures var d := Before(s.devs, id, link);
            d.id == id && DevOk(id, d) && Presentable(d) && Told(managed, s.world.log, d)
  {
    if id !in s.devs {
      assert ShownVolumes(NewDev(id, link)) == map[];
    }
  }

  lemma ExaminedTold(managed: bool, o: Oracle, log: seq<Signal>, link: NonEmpty, d: Dev)
    requires DevOk(d.id, d) && Presentable(d) && Told(managed, log, d)
    ensures var p := Examined(o, link, d); DevOk(d.id, p) && Presentable(p) && Told(managed, log, p)
  {
    hide Examined, Heard, ShownVolumes;
    ExaminedSame(o, link, d);
    ShownSame(d, Examined(o, link, d));
  }

  lemma {:induction false} AddVolTold(managed: bool, log: seq<Signal>, d: Dev, devname: NonEmpty, info: VolumeInfo)
    requires DevOk(d.id, d) && Presentable(d) && Told(managed, log, d)
    ensures var d' := AddVol(d, devname, info).0; Presentable(d') && Told(managed, log, d') && d'.state == d.state
  {
    AddVolOk(d.id, d, devname, info);
    ShownSame(d, AddVol(d, devname, info).0);
  }

  lemma OtherTold(managed: bool, log: seq<Signal>, log': seq<Signal>, id: nat, d: Dev)
    requires OthersKept(id, log, log') && d.id != id && Told(managed, log, d)
    ensures Told(managed, log', d)
  {
  }

  lemma {:induction false} ReplacedTold(managed: bool, s: State, id: nat, d: Dev, w: World, s': State)
    requires AllTold(managed, s) && id in s.devs
    requires d.id == id && Presentable(d) && Told(managed, w.log, d) && OthersKept(id, s.world.log, w.log)
    requires s'.devs == s.devs[id := d] && RegOk(s'.devs) && s'.cursor <= MAX_ID && s'.world == w
    ensures AllTold(managed, s')
  {
    hide Told, Heard;
    forall j | j in s.devs && j != id ensures Told(managed, w.log, s.devs[j]) {
      assert DevOk(j, s.devs[j]);
      OtherTold(managed, s.world.log, w.log, id, s.devs[j]);
    }
  }

  lemma {:induction false} NewDeviceTold(managed: bool, cfg: Config, o: Oracle, s: State, link: NonEmpty)
    requires AllTold(managed, s)
    ensures AllTold(managed, HandleNewDevice(cfg, o, s, link))
  {
    hide NewEntry, Engage, Blocked, Acceptable, Told;
    if Acceptable(link, true) && !Blocked(o, s.devs, link) {
      var e := NewEntry(o, s.devs, s.cursor, link);
      NewEntryTold(managed, o, s, link);
      if e.dev.Some? {
        var d := e.devs[e.dev.value];
        assert DevOk(e.dev.value, d);
        EngageTold(managed, cfg, o, d, e.vol, e.probed, s.world);
        EngageSame(cfg, o, d, e.vol, e.probed, s.world);
        HandleNewDeviceOk(cfg, o, s, link);
        if e.vol.Some? || d.vols != map[] {
          var (d', w) := Engage(cfg, o, d, e.vol, e.probed, s.world);
          ReplacedTold(managed, s.(devs := e.devs, cursor := e.cursor), e.dev.value, d', w,
            HandleNewDevice(cfg, o, s, link));
        }
      }
    }
  }

  lemma RegOkRemoved(devs: Registry, id: nat)
    requires RegOk(devs) && id in devs
    ensures RegOk(devs - {id}) && DevOk(id, devs[id]) && forall j :: j in devs ==> devs[j].id == j
  {
    assert forall j :: j in devs ==> DevOk(j, devs[j]);
  }

  lemma RemovedTold(managed: bool, s: State, id: nat, w: World, s': State)
    requires AllTold(managed, s) && id in s.devs && OthersKept(id, s.world.log, w.log)
    requires Heard(w.log, id).(orderly := true) == NOTHING && (managed ==> Heard(w.log, id).orderly)
    requires s'.devs == s.devs - {id} && s'.world == w && s'.cursor == s.cursor
    ensures AllTold(managed, s')
  {
    hide RegOk, DevOk, Told, Heard, Presentable;
    RegOkRemoved(s.devs, id);
    forall j | j in s'.devs ensures Told(managed, w.log, s'.devs[j]) {
      OtherTold(managed, s.world.log, w.log, id, s.devs[j]);
    }
  }

  lemma RemovedDeviceTold(managed: bool, o: Oracle, s: State, link: string)
    requires AllTold(managed, s)
    ensures AllTold(managed, HandleRemovedDevice(o, s, link))
  {
    hide RemoveDev, RegOk, DevOk, Told, Heard, Presentable;
    if FindDev(s.devs, link).Some? {
      var id := FindDev(s.devs, link).value;
      RegOkRemoved(s.devs, id);
      RemoveDevTold(managed, o, s.devs[id], s.world);
      RemovedTold(managed, s, id, RemoveDev(o, s.devs[id], s.world), HandleRemovedDevice(o, s, link));
    }
  }

  lemma {:induction false} EntryByMountpointTold(o: Oracle, s: State, path: NonEmpty)
    requires AllTold(false, s)
    ensures AllTold(false, EntryByMountpoint(o, s, path).0)
  {
    hide NewEntry, Blocked, Told, Heard, RegOk, Presentable;
    var (first, second) := o.linksOf(path);
    if first != "" && second != "" && !Blocked(o, s.devs, first) {
      NewEntryTold(false, o, s, first);
      var e1 := NewEntry(o, s.devs, s.cursor, first);
      if !Blocked(o, e1.devs, second) {
        NewEntryTold(false, o, s.(devs := e1.devs, cursor := e1.cursor), second);
      }
    }
  }

  lemma {:induction false} NewMountpointTold(cfg: Config, o: Oracle, s: State, path: NonEmpty)
    requires AllTold(false, s)
    ensures AllTold(false, HandleNewMountpoint(cfg, o, s, path))
  {
    hide EntryByMountpoint, EngageWatched, Told, Heard;
    EntryByMountpointTold(o, s, path);
    var (s1, dev, vol) := EntryByMountpoint(o, s, path);
    if dev.Some? && vol.Some? {
      var d := s1.devs[dev.value];
      assert DevOk(dev.value, d);
      EngageWatchedTold(cfg, o, d, vol.value, path, s1.world);
      EngageWatchedSame(cfg, o, d, vol.value, path, s1.world);
      HandleNewMountpointOk(cfg, o, s, path);
      var (d', w) := EngageWatched(cfg, o, d, vol.value, path, s1.world);
      ReplacedTold(false, s1, dev.value, d', w, HandleNewMountpoint(cfg, o, s, path));
    }
  }

  lemma {:induction false} EveryoneTold(managed: bool, cfg: Config, foreign: map<string, string>, events: seq<Event>)
    requires managed ==> ManagedRun(events)
    ensures AllTold(managed, Run(cfg, Start(foreign), events))
  {
    hide HandleNewDevice, HandleRemovedDevice, HandleNewMountpoint, Presentable, Told, ShownVolumes;
    if events != [] {
      var n := |events| - 1;
      EveryoneTold(managed, cfg, foreign, events[..n]);
      var s := Run(cfg, Start(foreign), events[..n]);
      assert managed ==> events[n].IsManaged();
      if !s.stuck {
        match events[n]
        case DeviceAdded(o, link) => NewDeviceTold(managed, cfg, o, s, link);
        case DeviceGone(o, link) => RemovedDeviceTold(managed, o, s, link);
        case MountpointAdded(o, path) => NewMountpointTold(cfg, o, s, path);
        case MountpointGone(o, path) =>
          var s1 := s.(watched := s.watched - {path});
          if path in s.watched && s.watched[path] != "" {
            RemovedDeviceTold(managed, o, s1, s.watched[path]);
          }
      }
    }
  }

  // ---- Main results ------------------------------------------------------------------

  /** What there is to be told about the device `id`. */
  function DeviceEntry(id: nat, d: Dev): Signal {
    NewDevice(id := id, name := d.name, uuid := d.uuid, path := d.dir.path, port := d.port)
  }

  /** What there is to be told about the volume with index `i`; on the bus there are
      no negative indices. */
  function VolumeEntry(id: nat, i: int, v: Vol): Signal {
    NewVolume(index := if i == -1 then 4294967295 else i, labelText := v.labelText, path := v.mp.dir.path,
              id := id, uuid := v.uuid)
  }

  lemma DeviceSignalIs(d: Dev)
    ensures DeviceSignal(d) == DeviceEntry(d.id, d)
  {
  }

  lemma VolumeSignalIs(d: Dev, i: int)
    requires DevOk(d.id, d) && i in d.vols
    ensures VolumeSignal(d.id, d.vols[i]) == VolumeEntry(d.id, i, d.vols[i])
  {
    assert ValidIndex(i);
  }

  /** What the two lists in the answer to GetAll contain. */
  ghost function SnapshotDevices(devs: Registry): set<Signal> {
    set id | id in devs && devs[id].state == Ok :: DeviceEntry(id, devs[id])
  }

  ghost function SnapshotVolumes(devs: Registry): set<Signal> {
    set id, i | id in devs && devs[id].state == Ok && i in devs[id].vols && devs[id].vols[i].state == Mounted ::
      VolumeEntry(id, i, devs[id].vols[i])
  }

  /** The devices in the answer whose working directory exists. */
  ghost function ExistingDevices(devs: Registry): (r: set<Signal>) {
    set id | id in devs && devs[id].state == Ok && devs[id].dir.created :: DeviceEntry(id, devs[id])
  }

  ghost function HeardDevices(log: seq<Signal>): set<Signal> {
    set id: nat | 1 <= id <= MAX_ID && Heard(log, id).dev.Some? :: Heard(log, id).dev.value
  }

  ghost function HeardVolumes(log: seq<Signal>): set<Signal> {
    set id: nat, b | 1 <= id <= MAX_ID && b in Heard(log, id).vols :: Heard(log, id).vols[b]
  }

  lemma DevicesAreExact(s: State)
    requires AllTold(false, s)
    ensures HeardDevices(s.world.log) == ExistingDevices(s.devs)
  {
    hide Heard;
    assert forall id :: id in s.devs ==>
      DevOk(id, s.devs[id]) && Told(false, s.world.log, s.devs[id]) && Presentable(s.devs[id]);
    forall x | x in ExistingDevices(s.devs) ensures x in HeardDevices(s.world.log) {
      var id :| id in s.devs && s.devs[id].state == Ok && s.devs[id].dir.created && x == DeviceEntry(id, s.devs[id]);
      assert Heard(s.world.log, id).dev == Some(x);
    }
    forall x | x in HeardDevices(s.world.log) ensures x in ExistingDevices(s.devs) {
      var id: nat :| 1 <= id <= MAX_ID && Heard(s.world.log, id).dev == Some(x);
      assert Heard(s.world.log, id).dev.Some?;
      assert id in s.devs;
    }
  }

  /** Each mounted volume is shown once, under its own index. */
  lemma ShownVolume(d: Dev, i: int)
    requires DevOk(d.id, d) && i in d.vols && d.vols[i].state == Mounted
    ensures BusIndex(i) in ShownVolumes(d) && ShownVolumes(d)[BusIndex(i)] == VolumeSignal(d.id, d.vols[i])
  {
    assert ValidIndex(i) && FromBus(BusIndex(i)) == i;
  }

  lemma ShownIndex(d: Dev, b: int) returns (i: int)
    requires DevOk(d.id, d) && b in ShownVolumes(d)
    ensures i in d.vols && d.vols[i].state == Mounted && ShownVolumes(d)[b] == VolumeSignal(d.id, d.vols[i])
  {
    i :| i in d.vols && d.vols[i].state == Mounted && BusIndex(i) == b;
    assert ValidIndex(i) && FromBus(b) == i;
  }

  lemma VolumesHeard(s: State, id: nat)
    requires AllTold(false, s)
    ensures Heard(s.world.log, id).vols == if id in s.devs then ShownVolumes(s.devs[id]) else map[]
    ensures id in s.devs ==>
            1 <= id <= MAX_ID && DevOk(id, s.devs[id]) && s.devs[id].id == id && Presentable(s.devs[id])
  {
    hide Heard, ShownVolumes, BusIndex, ValidIndex;
    assert id in s.devs ==> DevOk(id, s.devs[id]) && Told(false, s.world.log, s.devs[id]);
  }

  lemma VolumesAreExact(s: State)
    requires AllTold(false, s)
    ensures HeardVolumes(s.world.log) == SnapshotVolumes(s.devs)
  {
    hide Heard, AllTold, DevOk, ShownVolumes, VolumeSignal, VolumeEntry, BusIndex;
    var log := s.world.log;
    forall x | x in SnapshotVolumes(s.devs) ensures x in HeardVolumes(log) {
      var id, i :| id in s.devs && s.devs[id].state == Ok && i in s.devs[id].vols
                   && s.devs[id].vols[i].state == Mounted && x == VolumeEntry(id, i, s.devs[id].vols[i]);
      VolumesHeard(s, id);
      VolumeSignalIs(s.devs[id], i);
      ShownVolume(s.devs[id], i);
      assert BusIndex(i) in Heard(log, id).vols && Heard(log, id).vols[BusIndex(i)] == x;
    }
    forall x | x in HeardVolumes(log) ensures x in SnapshotVolumes(s.devs) {
      var id: nat, b :| 1 <= id <= MAX_ID && b in Heard(log, id).vols && x == Heard(log, id).vols[b];
      VolumesHeard(s, id);
      var i := ShownIndex(s.devs[id], b);
      VolumeSignalIs(s.devs[id], i);
    }
  }

  lemma TraceTold(managed: bool, cfg: Config, foreign: map<string, string>, events: seq<Event>, trace: seq<State>,
                  k: nat)
    requires IsTrace(cfg, foreign, events, trace) && k <= |events| && (managed ==> ManagedRun(events))
    ensures AllTold(managed, trace[k])
  {
    TraceIsRun(cfg, foreign, events, trace, k);
    EveryoneTold(managed, cfg, foreign, events[..k]);
  }

  lemma ExistingAreListed(devs: Registry)
    ensures ExistingDevices(devs) <= SnapshotDevices(devs)
  {
  }

  /** The signals are exact deltas of the answer to GetAll, in any mix of modes:
      replaying them yields exactly the volumes in the answer, and exactly those
      devices in it whose working directory exists; and the signals about a removal
      carry what the device was announced with. */
  lemma {:induction false} SignalsAreExact(cfg: Config, foreign: map<string, string>, events: seq<Event>,
                                           trace: seq<State>, k: nat)
    requires IsTrace(cfg, foreign, events, trace) && k <= |events|
    ensures var s := trace[k];
            && HeardVolumes(s.world.log) == SnapshotVolumes(s.devs)
            && HeardDevices(s.world.log) == ExistingDevices(s.devs) <= SnapshotDevices(s.devs)
            && (forall id: nat :: !(1 <= id <= MAX_ID) ==> Heard(s.world.log, id).(orderly := true) == NOTHING)
            && (forall id: nat :: Heard(s.world.log, id).honest)
  {
    hide Heard, HeardVolumes, HeardDevices, SnapshotVolumes, SnapshotDevices, ExistingDevices;
    TraceTold(false, cfg, foreign, events, trace, k);
    DevicesAreExact(trace[k]);
    VolumesAreExact(trace[k]);
    ExistingAreListed(trace[k].devs);
    assert forall id :: id in trace[k].devs ==>
      DevOk(id, trace[k].devs[id]) && Told(false, trace[k].world.log, trace[k].devs[id]);
  }

  /** In managed mode the signals about each device come in proper order: the
      device, its volumes, then the removal, which is announced exactly if the
      device was; and between events no removal is half announced. */
  lemma SignalsAreOrderly(cfg: Config, foreign: map<string, string>, events: seq<Event>, trace: seq<State>, k: nat,
                          id: nat)
    requires IsTrace(cfg, foreign, events, trace) && k <= |events| && ManagedRun(events)
    ensures var s := trace[k];
            var known := Heard(s.world.log, id);
            && known.orderly && !known.leaving
            && (known.dev.Some? <==> id in s.devs && s.devs[id].dir.created)
  {
    TraceTold(true, cfg, foreign, events, trace, k);
    if id in trace[k].devs {
      assert DevOk(id, trace[k].devs[id]) && Told(true, trace[k].world.log, trace[k].devs[id]);
    }
  }

  // ---- The order of announcements ------------------------------------------------------

  /** Volumes of device `id` in ascending order of their indices, those in `indices`. */
  predicate VolumesInOrder(told: seq<Signal>, id: nat, indices: set<int>) {
    && (forall k :: 0 <= k < |told| ==> told[k].NewVolume? && told[k].id == id && FromBus(told[k].index) in indices)
    && (forall j, k :: 0 <= j < k < |told| ==>
          told[j].NewVolume? && told[k].NewVolume? && FromBus(told[j].index) < FromBus(told[k].index))
  }

  lemma {:induction false} TryMountTells(cfg: Config, o: Oracle, d: Dev, i: int, w: World) returns (told: seq<Signal>)
    requires DevOk(d.id, d) && i in d.vols
    ensures TryMount(cfg, o, d, i, w).1.log == w.log + told && VolumesInOrder(told, d.id, {i}) && |told| <= 1
  {
    hide MountManaged;
    TryMountSame(cfg, o, d, i, w);
    assert ValidIndex(i) && FromBus(BusIndex(i)) == i;
    var log := TryMount(cfg, o, d, i, w).1.log;
    told := log[|w.log|..];
  }

  lemma {:induction false} MountPendingTells(cfg: Config, o: Oracle, d: Dev, todo: set<int>, w: World)
    returns (told: seq<Signal>)
    requires DevOk(d.id, d) && todo <= d.vols.Keys
    ensures MountPending(cfg, o, d, todo, w).1.log == w.log + told && VolumesInOrder(told, d.id, todo)
    decreases |todo|
  {
    hide TryMount, DevOk, FromBus, VolumesInOrder, IsLeast, SameVol;
    if todo == {} {
      told := [];
      assert w.log + told == w.log;
      NothingInOrder(d.id, todo);
    } else {
      var i := Least(todo);
      LeastIn(todo);
      var first := TryMountTells(cfg, o, d, i, w);
      var (d1, w1) := TryMount(cfg, o, d, i, w);
      TryMountSame(cfg, o, d, i, w);
      DevOkSame(d.id, d, d1);
      var rest := MountPendingTells(cfg, o, d1, todo - {i}, w1);
      told := first + rest;
      assert w.log + told == w.log + first + rest;
      LeastFirst(first, rest, d.id, i, todo);
    }
  }

  lemma NothingInOrder(id: nat, indices: set<int>)
    ensures VolumesInOrder([], id, indices)
  {
  }

  lemma LeastFirst(first: seq<Signal>, rest: seq<Signal>, id: nat, i: int, todo: set<int>)
    requires |first| <= 1 && VolumesInOrder(first, id, {i}) && VolumesInOrder(rest, id, todo - {i}) && IsLeast(todo, i)
    ensures VolumesInOrder(first + rest, id, todo)
  {
    hide FromBus;
    var told := first + rest;
    assert forall k :: |first| <= k < |told| ==> told[k] == rest[k - |first|];
    assert forall k :: 0 <= k < |first| ==> told[k] == first[k];
  }

  /** At most one device is told, and then volumes of it in ascending order. */
  predicate DeviceThenVolumes(told: seq<Signal>, id: nat, indices: set<int>) {
    || VolumesInOrder(told, id, indices)
    || (told != [] && told[0].NewDevice? && told[0].id == id && VolumesInOrder(told[1..], id, indices))
  }

  lemma OneInOrder(told: seq<Signal>, id: nat, i: int, indices: set<int>)
    requires VolumesInOrder(told, id, {i}) && i in indices
    ensures VolumesInOrder(told, id, indices)
  {
    hide FromBus;
  }

  lemma OpenContainerTells(cfg: Config, o: Oracle, d: Dev, w: World) returns (device: seq<Signal>)
    ensures var (d', w') := OpenContainer(cfg, o, d, w);
            w'.log == w.log + device && d' == d.(dir := d'.dir)
    ensures device == [] || (|device| == 1 && device[0].NewDevice? && device[0].id == d.id)
  {
    device := OpenContainer(cfg, o, d, w).1.log[|w.log|..];
  }

  lemma {:induction false} EngageTells(cfg: Config, o: Oracle, d: Dev, vol: Option<int>, probed: bool, w: World)
    returns (told: seq<Signal>)
    requires DevOk(d.id, d) && (vol.Some? ==> vol.value in d.vols)
    ensures Engage(cfg, o, d, vol, probed, w).1.log == w.log + told && DeviceThenVolumes(told, d.id, d.vols.Keys)
  {
    hide TryMount, MountPending, OpenContainer, DevOk, FromBus, Acceptable, VolumesInOrder;
    told := [];
    assert w.log + told == w.log;
    NothingInOrder(d.id, d.vols.Keys);
    if d.state !in {Synthetic, Broken, Rejected} {
      var d1 := if d.state == Probed then FilterDev(d) else d;
      DevOkSame(d.id, d, d1);
      if d1.state == Ok && (probed || d1.dir.path == "") {
        var (d2, w2) := OpenContainer(cfg, o, d1, w);
        var device := OpenContainerTells(cfg, o, d1, w);
        DevOkSame(d.id, d, d2);
        var volumes := MountPendingTells(cfg, o, d2, d2.vols.Keys, w2);
        told := device + volumes;
        assert w.log + told == w.log + device + volumes;
        assert device != [] ==> told[1..] == volumes;
        assert device == [] ==> told == volumes;
      } else if d1.state == Ok && vol.Some? {
        told := TryMountTells(cfg, o, d1, vol.value, w);
        OneInOrder(told, d.id, vol.value, d.vols.Keys);
      }
    }
  }

  /** A report of a link announces at most the device it belongs to, and then volumes of
      that device in ascending order. */
  lemma {:induction false} ReportsTellInOrder(cfg: Config, foreign: map<string, string>, events: seq<Event>,
                                              trace: seq<State>, k: nat) returns (told: seq<Signal>, id: nat)
    requires IsTrace(cfg, foreign, events, trace) && k < |events| && events[k].DeviceAdded?
    ensures trace[k + 1].world.log == trace[k].world.log + told
    ensures told != [] ==> id in trace[k + 1].devs && DeviceThenVolumes(told, id, trace[k + 1].devs[id].vols.Keys)
  {
    hide NewEntry, Engage, Blocked, Acceptable, RegOk, DevOk, DeviceThenVolumes;
    told, id := [], 0;
    var s, o := trace[k], events[k].o;
    var link := events[k].link;
    assert Instant(k) && s.world.log + [] == s.world.log;
    RegistryAlwaysOk(cfg, foreign, events, trace, k);
    if !s.stuck && Acceptable(link, true) && !Blocked(o, s.devs, link) {
      var e := NewEntry(o, s.devs, s.cursor, link);
      NewEntryOk(o, s.devs, s.cursor, link);
      if e.dev.Some? && (e.vol.Some? || e.devs[e.dev.value].vols != map[]) {
        id := e.dev.value;
        MemberOk(e.devs, id);
        told := EngageTells(cfg, o, e.devs[id], e.vol, e.probed, s.world);
        EngageSame(cfg, o, e.devs[id], e.vol, e.probed, s.world);
      }
    }
  }
}
