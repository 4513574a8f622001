/** The answer to GetAll. */
module DbusHandlers {
  import opened Sets
  import opened Text
  import opened Platform
  import opened Devices
  import opened DeviceObjects
  import opened DeviceManager
  import opened RegistryObjects
  import opened RegistryInvariant
  import opened Automounter
  import opened CoreObjects
  import opened Signals
  import opened ManagedMode
  import opened Resources

  /** The mounted volumes among `keys`, in that order. */
  function VolumesAt(d: Dev, keys: seq<int>): seq<Signal>
    requires forall i :: i in keys ==> i in d.vols
  {
    if keys == [] then []
    else
      var i := keys[|keys| - 1];
      VolumesAt(d, keys[..|keys| - 1]) + if d.vols[i].state == Mounted then [VolumeSignal(d.id, d.vols[i])] else []
  }

  ghost function VolumesOf(d: Dev): seq<Signal> {
    SortedKeysAre(d.vols.Keys);
    VolumesAt(d, SortedKeys(d.vols.Keys))
  }

  /** Both lists for the devices `ids`, in that order. */
  ghost function Answer(devs: Registry, ids: seq<nat>): (seq<Signal>, seq<Signal>)
    requires forall id :: id in ids ==> id in devs
  {
    if ids == [] then ([], [])
    else
      var (devices, volumes) := Answer(devs, ids[..|ids| - 1]);
      var (device, shown) := EntryOf(devs[ids[|ids| - 1]]);
      (devices + device, volumes + shown)
  }

  /** Only accepted devices are shown. */
  ghost function EntryOf(d: Dev): (seq<Signal>, seq<Signal>) {
    if d.state == Ok then ([DeviceSignal(d)], VolumesOf(d)) else ([], [])
  }

  method ListVolumes(device: Device) returns (volumes: seq<Signal>)
    requires device.Valid()
    ensures volumes == VolumesOf(device.Value())
  {
    hide Device.Valid, Device.Value, VolumeSignal, VolumesAt;
    VolumeKeys(device);
    var keys := Ascending(device.volumes.Keys);
    DeviceKept(device);
    SortedKeysUnique(device.volumes.Keys, keys);
    volumes := ListVolumesAt(device, keys);
  }

  method ListVolumesAt(device: Device, keys: seq<int>) returns (volumes: seq<Signal>)
    requires device.Valid() && forall i :: i in keys ==> i in device.volumes && i in device.Value().vols
    ensures volumes == VolumesAt(device.Value(), keys)
  {
    hide Device.Valid, Device.Value;
    ghost var d := device.Value();
    volumes := [];
    for k := 0 to |keys|
      invariant device.Valid() && device.Value() == d
      invariant volumes == VolumesAt(d, keys[..k])
    {
      assert keys[..k + 1][..k] == keys[..k];
      VolumeShown(device, keys[k]);
      var volume := device.volumes[keys[k]];
      if volume.state != Mounted {
        continue;
      }
      volumes := volumes + [NewVolume(if volume.index >= 0 then volume.index else UINT_MAX, volume.labelText,
                                      volume.mountpoint.directory.absolutePath, volume.device.id, volume.uuid)];
    }
    assert keys[..|keys|] == keys;
  }

  lemma VolumeShown(device: Device, i: int)
    requires device.Valid() && i in device.volumes
    ensures i in device.Value().vols && device.Value().vols[i] == device.volumes[i].Value()
    ensures device.volumes[i].device == device && device.Value().id == device.id
  {
  }

  ghost function IdsOf(devs: Registry): (ids: seq<nat>)
    ensures Sorted(ids) && forall id :: id in ids <==> id in devs
  {
    var keys := SortedKeys(devs.Keys);
    SortedKeysAre(devs.Keys);
    KeysAreNats(devs.Keys, keys);
    keys
  }

  lemma KeysAreNats(s: set<nat>, keys: seq<int>)
    requires forall k :: k in keys <==> k in s
    ensures forall i :: 0 <= i < |keys| ==> keys[i] >= 0
  {
    forall i | 0 <= i < |keys| ensures keys[i] >= 0 {
      assert keys[i] in keys;
    }
  }

  /** Lists the accepted devices and their mounted volumes. */
  method GetAll(am: Core) returns (devices: seq<Signal>, volumes: seq<Signal>)
    requires am.Valid()
    ensures (devices, volumes) == Answer(am.Value().devs, IdsOf(am.Value().devs))
  {
    hide Answer, Device.Valid, Device.Value, AllDevices.Valid, AllDevices.Value;
    ghost var devs := am.devman.Value();
    var ids := AscendingNats(am.devman.devices.Keys);
    SortedKeysUnique(devs.Keys, ids);
    devices, volumes := ListDevices(am.devman, ids);
  }

  method ListDevices(devman: AllDevices, ids: seq<nat>) returns (devices: seq<Signal>, volumes: seq<Signal>)
    requires devman.Valid() && forall id :: id in ids ==> id in devman.Value()
    ensures (devices, volumes) == Answer(devman.Value(), ids)
  {
    hide EntryOf, Device.Valid, Device.Value, Device.Footprint, AllDevices.Valid, AllDevices.Value;
    ghost var devs := devman.Value();
    devices, volumes := [], [];
    for k := 0 to |ids|
      invariant (devices, volumes) == Answer(devs, ids[..k])
    {
      assert ids[..k + 1][..k] == ids[..k];
      assert ids[k] in devs;
      KeyHeld(devman, ids[k]);
      HeldOk(devman, devman.devices[ids[k]]);
      var device, shown := ListDevice(devman.devices[ids[k]]);
      devices, volumes := devices + device, volumes + shown;
    }
    assert ids[..|ids|] == ids;
  }

  method ListDevice(device: Device) returns (devices: seq<Signal>, volumes: seq<Signal>)
    requires device.Valid()
    ensures (devices, volumes) == EntryOf(device.Value())
  {
    hide VolumesOf;
    if device.state != Ok {
      return [], [];
    }
    devices := [NewDevice(device.id, device.deviceName, device.uuid, device.container.absolutePath, device.usbPort)];
    volumes := ListVolumes(device);
  }

  // ---- What the answer contains ----------------------------------------------------------

  lemma {:induction false} VolumesAtContents(d: Dev, keys: seq<int>)
    requires forall i :: i in keys ==> i in d.vols
    ensures forall x :: x in VolumesAt(d, keys) <==>
              exists i :: i in keys && d.vols[i].state == Mounted && x == VolumeSignal(d.id, d.vols[i])
  {
    if keys != [] {
      var n := |keys| - 1;
      VolumesAtContents(d, keys[..n]);
      assert keys == keys[..n] + [keys[n]];
      assert forall i :: i in keys <==> i in keys[..n] || i == keys[n];
    }
  }

  lemma VolumesOfContents(d: Dev)
    ensures forall x :: x in VolumesOf(d) <==>
              exists i :: i in d.vols && d.vols[i].state == Mounted && x == VolumeSignal(d.id, d.vols[i])
  {
    SortedKeysAre(d.vols.Keys);
    VolumesAtContents(d, SortedKeys(d.vols.Keys));
  }

  lemma {:induction false} AnswerContents(devs: Registry, ids: seq<nat>)
    requires forall id :: id in ids ==> id in devs && devs[id].id == id
    ensures forall x :: x in Answer(devs, ids).0 <==>
              exists id :: id in ids && devs[id].state == Ok && x == DeviceSignal(devs[id])
    ensures forall x :: x in Answer(devs, ids).1 <==>
              exists id, i :: id in ids && devs[id].state == Ok && i in devs[id].vols
                && devs[id].vols[i].state == Mounted && x == VolumeSignal(id, devs[id].vols[i])
  {
    if ids != [] {
      hide DeviceSignal, VolumeSignal, VolumesOf;
      var n := |ids| - 1;
      AnswerContents(devs, ids[..n]);
      VolumesOfContents(devs[ids[n]]);
      assert forall id :: id in ids <==> id in ids[..n] || id == ids[n];
      assert Answer(devs, ids).1 == Answer(devs, ids[..n]).1 + EntryOf(devs[ids[n]]).1;
    }
  }

  predicate VolumeBefore(x: Signal, y: Signal) {
    x.NewVolume? && y.NewVolume? && (x.id < y.id || (x.id == y.id && FromBus(x.index) < FromBus(y.index)))
  }

  predicate VolumesOrdered(volumes: seq<Signal>) {
    forall i, j :: 0 <= i < j < |volumes| ==> VolumeBefore(volumes[i], volumes[j])
  }

  predicate DevicesOrdered(devices: seq<Signal>) {
    forall i, j :: 0 <= i < j < |devices| ==> devices[i].id < devices[j].id
  }

  lemma {:induction false} VolumesAtOrdered(d: Dev, keys: seq<int>)
    requires DevOk(d.id, d) && Sorted(keys) && forall i :: i in keys ==> i in d.vols
    ensures VolumesOrdered(VolumesAt(d, keys))
  {
    if keys != [] {
      var n := |keys| - 1;
      VolumesAtOrdered(d, keys[..n]);
      VolumesAtContents(d, keys[..n]);
      var shown := VolumesAt(d, keys[..n]);
      forall k | 0 <= k < |shown| ensures VolumeBefore(shown[k], VolumeSignal(d.id, d.vols[keys[n]])) {
        assert shown[k] in shown;
        var i :| i in keys[..n] && shown[k] == VolumeSignal(d.id, d.vols[i]);
        assert ValidIndex(i) && ValidIndex(keys[n]) && i < keys[n];
      }
    }
  }

  lemma {:induction false} AnswerBelow(devs: Registry, ids: seq<nat>, bound: nat)
    requires RegOk(devs) && forall id :: id in ids ==> id in devs && id < bound
    ensures forall x :: x in Answer(devs, ids).0 ==> x.id < bound
    ensures forall x :: x in Answer(devs, ids).1 ==> x.NewVolume? && x.id < bound
  {
    hide EntryOf, RegOk, DevOk;
    if ids != [] {
      var n := |ids| - 1;
      assert forall id :: id in ids[..n] ==> id in ids;
      AnswerBelow(devs, ids[..n], bound);
      MemberOk(devs, ids[n]);
      EntryOrdered(devs[ids[n]]);
    }
  }

  lemma {:induction false} AnswerOrdered(devs: Registry, ids: seq<nat>)
    requires RegOk(devs) && Sorted(ids) && forall id :: id in ids ==> id in devs
    ensures DevicesOrdered(Answer(devs, ids).0) && VolumesOrdered(Answer(devs, ids).1)
  {
    hide EntryOf, RegOk, DevOk, DevicesOrdered, VolumesOrdered;
    if ids == [] {
      NothingOrdered();
    } else {
      var n := |ids| - 1;
      AnswerOrdered(devs, ids[..n]);
      assert forall k :: 0 <= k < n ==> ids[..n][k] < ids[n];
      AnswerBelow(devs, ids[..n], ids[n]);
      MemberOk(devs, ids[n]);
      EntryOrdered(devs[ids[n]]);
      var (devices, volumes) := Answer(devs, ids[..n]);
      var (device, shown) := EntryOf(devs[ids[n]]);
      DevicesAppended(devices, device, ids[n]);
      VolumesAppended(volumes, shown, ids[n]);
    }
  }

  lemma NothingOrdered()
    ensures DevicesOrdered([]) && VolumesOrdered([])
  {
  }

  lemma DevicesAppended(devices: seq<Signal>, device: seq<Signal>, id: nat)
    requires DevicesOrdered(devices) && |device| <= 1
    requires forall x :: x in devices ==> x.id < id
    requires forall x :: x in device ==> x.id == id
    ensures DevicesOrdered(devices + device)
  {
    assert forall k :: 0 <= k < |devices| ==> devices[k] in devices;
  }

  lemma VolumesAppended(volumes: seq<Signal>, shown: seq<Signal>, id: nat)
    requires VolumesOrdered(volumes) && VolumesOrdered(shown)
    requires forall x :: x in volumes ==> x.NewVolume? && x.id < id
    requires forall x :: x in shown ==> x.NewVolume? && x.id == id
    ensures VolumesOrdered(volumes + shown)
  {
    var all := volumes + shown;
    forall i, j | 0 <= i < j < |all| ensures VolumeBefore(all[i], all[j]) {
      assert i < |volumes| ==> all[i] in volumes;
      assert j >= |volumes| ==> all[j] in shown;
    }
  }

  lemma EntryOrdered(d: Dev)
    requires DevOk(d.id, d)
    ensures VolumesOrdered(EntryOf(d).1) && forall x :: x in EntryOf(d).1 ==> x.NewVolume? && x.id == d.id
    ensures |EntryOf(d).0| <= 1 && forall x :: x in EntryOf(d).0 ==> x.id == d.id
  {
    SortedKeysAre(d.vols.Keys);
    VolumesAtOrdered(d, SortedKeys(d.vols.Keys));
    VolumesOfContents(d);
  }

  /** The answer lists exactly what it is to contain, ordered by device and by
      index, and so nothing twice. */
  lemma AnswerIsSnapshot(devs: Registry)
    requires RegOk(devs)
    ensures var (devices, volumes) := Answer(devs, IdsOf(devs));
            && (forall x :: x in devices <==> x in SnapshotDevices(devs)) && DevicesOrdered(devices)
            && (forall x :: x in volumes <==> x in SnapshotVolumes(devs)) && VolumesOrdered(volumes)
  {
    forall id | id in devs
      ensures devs[id].id == id && DeviceSignal(devs[id]) == DeviceEntry(id, devs[id])
      ensures forall i :: i in devs[id].vols ==>
                VolumeSignal(id, devs[id].vols[i]) == VolumeEntry(id, i, devs[id].vols[i])
    {
      MemberOk(devs, id);
      DeviceSignalIs(devs[id]);
      forall i | i in devs[id].vols ensures VolumeSignal(id, devs[id].vols[i]) == VolumeEntry(id, i, devs[id].vols[i]) {
        VolumeSignalIs(devs[id], i);
      }
    }
    AnswerContents(devs, IdsOf(devs));
    AnswerOrdered(devs, IdsOf(devs));
  }

  /** After any run a listener has learnt from the signals exactly what GetAll
      answers, except for devices without a working directory. */
  lemma {:induction false} AnswerIsHeard(cfg: Config, foreign: map<string, string>, events: seq<Event>,
                                         trace: seq<State>, k: nat)
    requires IsTrace(cfg, foreign, events, trace) && k <= |events|
    ensures var s := trace[k];
            var (devices, volumes) := Answer(s.devs, IdsOf(s.devs));
            && (forall x :: x in volumes <==> x in HeardVolumes(s.world.log))
            && (forall x :: x in HeardDevices(s.world.log) <==>
                  x in devices && x.id in s.devs && s.devs[x.id].dir.created)
  {
    hide HeardVolumes, HeardDevices, Answer;
    var s := trace[k];
    RegistryAlwaysOk(cfg, foreign, events, trace, k);
    AnswerIsSnapshot(s.devs);
    SignalsAreExact(cfg, foreign, events, trace, k);
    forall id | id in s.devs ensures s.devs[id].id == id {
      MemberOk(s.devs, id);
    }
  }

  /** `x` tells the label, the UUID and the place of the volume `v` of device `id`. */
  predicate TellsVolume(x: Signal, id: nat, v: Vol) {
    && x.NewVolume? && x.id == id && x.labelText == v.labelText && x.uuid == v.uuid && x.path == v.mp.dir.path
    && (if v.index == -1 then x.index == 4294967295 else x.index == v.index)
  }

  /** `x` tells name, UUID, place and USB port of the device `d`. */
  predicate TellsDevice(x: Signal, id: nat, d: Dev) {
    x.NewDevice? && x.id == id && x.name == d.name && x.uuid == d.uuid && x.path == d.dir.path && x.port == d.port
  }

  /** `x` tells of the volume `i` of device `id`, which is mounted. */
  predicate ListsVolume(devs: Registry, x: Signal, id: nat, i: int) {
    && id in devs && devs[id].state == Ok && i in devs[id].vols
    && devs[id].vols[i].state == Mounted && TellsVolume(x, id, devs[id].vols[i])
  }

  /** `x` tells of the device `id`, which is accepted. */
  predicate ListsDevice(devs: Registry, x: Signal, id: nat) {
    id in devs && devs[id].state == Ok && TellsDevice(x, id, devs[id])
  }

  lemma {:induction false} SnapshotsTell(devs: Registry, x: Signal)
    requires RegOk(devs)
    ensures x in SnapshotVolumes(devs) <==> exists id, i :: ListsVolume(devs, x, id, i)
    ensures x in SnapshotDevices(devs) <==> exists id :: ListsDevice(devs, x, id)
    ensures x in ExistingDevices(devs) <==> exists id :: ListsDevice(devs, x, id) && devs[id].dir.created
  {
    hide VolumeEntry, DeviceEntry, TellsVolume, TellsDevice, DevOk;
    forall id | id in devs
      ensures TellsDevice(x, id, devs[id]) <==> x == DeviceEntry(id, devs[id])
      ensures forall i :: i in devs[id].vols ==>
                (TellsVolume(x, id, devs[id].vols[i]) <==> x == VolumeEntry(id, i, devs[id].vols[i]))
    {
      EntryTells(id, devs[id]);
    }
    if id, i :| ListsVolume(devs, x, id, i) {
      assert x == VolumeEntry(id, i, devs[id].vols[i]);
    }
    if x in SnapshotVolumes(devs) {
      var id, i :| id in devs && devs[id].state == Ok && i in devs[id].vols && devs[id].vols[i].state == Mounted
                   && x == VolumeEntry(id, i, devs[id].vols[i]);
      assert ListsVolume(devs, x, id, i);
    }
    if x in SnapshotDevices(devs) {
      var id :| id in devs && devs[id].state == Ok && x == DeviceEntry(id, devs[id]);
      assert ListsDevice(devs, x, id);
    }
    if x in ExistingDevices(devs) {
      var id :| id in devs && devs[id].state == Ok && devs[id].dir.created && x == DeviceEntry(id, devs[id]);
      assert ListsDevice(devs, x, id);
    }
  }

  lemma EntryTells(id: nat, d: Dev)
    requires DevOk(id, d)
    ensures forall x :: TellsDevice(x, id, d) <==> x == DeviceEntry(id, d)
    ensures forall i, x :: i in d.vols ==> (TellsVolume(x, id, d.vols[i]) <==> x == VolumeEntry(id, i, d.vols[i]))
  {
  }

  /** What GetAll lists, and what listeners have been told, field by field: exactly the
      mounted volumes of accepted devices, and the accepted devices, if they have a
      directory as far as listeners are concerned. */
  lemma {:induction false} AnswerTellsTheTruth(cfg: Config, foreign: map<string, string>, events: seq<Event>,
                                               trace: seq<State>, k: nat, x: Signal)
    requires IsTrace(cfg, foreign, events, trace) && k <= |events|
    ensures var s := trace[k];
            var (devices, volumes) := Answer(s.devs, IdsOf(s.devs));
            && (x in volumes <==> exists id, i :: ListsVolume(s.devs, x, id, i))
            && (x in HeardVolumes(s.world.log) <==> exists id, i :: ListsVolume(s.devs, x, id, i))
            && (x in devices <==> exists id :: ListsDevice(s.devs, x, id))
            && (x in HeardDevices(s.world.log) <==>
                  exists id :: ListsDevice(s.devs, x, id) && s.devs[id].dir.created)
  {
    hide HeardVolumes, HeardDevices, SnapshotVolumes, SnapshotDevices, ExistingDevices, Answer, ListsVolume,
         ListsDevice;
    var s := trace[k];
    RegistryAlwaysOk(cfg, foreign, events, trace, k);
    AnswerIsSnapshot(s.devs);
    SignalsAreExact(cfg, foreign, events, trace, k);
    SnapshotsTell(s.devs, x);
  }

  /** In managed mode what is told is true of the file system: on the mountpoint told of
      a volume, the block device of that volume is mounted, and the directory told of a
      device is there. */
  lemma {:induction false} AnswerIsThere(cfg: Config, foreign: map<string, string>, events: seq<Event>,
                                         trace: seq<State>, k: nat, x: Signal, id: nat, i: int)
    requires IsTrace(cfg, foreign, events, trace) && k <= |events| && ManagedRun(events)
    ensures var s := trace[k];
            && (ListsVolume(s.devs, x, id, i) ==>
                  && x.path == cfg.workdir + "/" + Decimal(id) + "/" + DecimalInt(i)
                  && x.path in s.world.fs.dirs && x.path in s.world.fs.mounts
                  && s.world.fs.mounts[x.path] == s.devs[id].vols[i].devname)
            && (ListsDevice(s.devs, x, id) && s.devs[id].dir.created ==>
                  x.path == cfg.workdir + "/" + Decimal(id) && x.path in s.world.fs.dirs)
  {
    hide TellsVolume, TellsDevice, Decimal, DecimalInt, ManagedInv;
    ManagedState(cfg, foreign, INEXACT, events, trace, k);
    if ListsVolume(trace[k].devs, x, id, i) {
      VolumeIsThere(cfg, foreign, trace[k], id, i, x);
    }
    if ListsDevice(trace[k].devs, x, id) && trace[k].devs[id].dir.created {
      DeviceIsThere(cfg, foreign, trace[k], id, x);
    }
  }

  lemma VolumeIsThere(cfg: Config, foreign: map<string, string>, s: State, id: nat, i: int, x: Signal)
    requires ManagedInv(cfg, foreign, INEXACT, s) && id in s.devs && i in s.devs[id].vols
    requires s.devs[id].vols[i].state == Mounted && TellsVolume(x, id, s.devs[id].vols[i])
    ensures x.path == cfg.workdir + "/" + Decimal(id) + "/" + DecimalInt(i)
    ensures x.path in s.world.fs.dirs && x.path in s.world.fs.mounts
    ensures s.world.fs.mounts[x.path] == s.devs[id].vols[i].devname
  {
    hide Decimal, DecimalInt, AllOwned, ForeignKept;
    var d := s.devs[id];
    assert Settled(cfg, d) && DevFs(cfg, foreign, INEXACT, d, s.world.fs) && DevOk(id, d);
    assert VolShape(cfg, d, i, {}) && VolBacked(foreign, d.vols[i], s.world.fs);
  }

  lemma DeviceIsThere(cfg: Config, foreign: map<string, string>, s: State, id: nat, x: Signal)
    requires ManagedInv(cfg, foreign, INEXACT, s) && id in s.devs && s.devs[id].dir.created
    requires TellsDevice(x, id, s.devs[id])
    ensures x.path == cfg.workdir + "/" + Decimal(id) && x.path in s.world.fs.dirs
    ensures x.NewDevice? && x.id == id
  {
    hide Decimal, DecimalInt, AllOwned, ForeignKept;
    var d := s.devs[id];
    assert Settled(cfg, d) && DevFs(cfg, foreign, INEXACT, d, s.world.fs) && DevOk(id, d);
  }
}
