/** The daemon as an object whose methods handle the events. */
module CoreObjects {
  import opened Option
  import opened Sets
  import opened Names
  import opened Platform
  import opened SystemCalls
  import opened AutoDir
  import opened Devices
  import opened DeviceObjects
  import opened DeviceManager
  import opened RegistryObjects
  import opened Automounter

  // ---- Announcements and filters -------------------------------------------------------

  method AnnounceNewVolume(sys: System, vol: Volume)
    modifies sys`log
    ensures sys.log == old(sys.log) + [VolumeSignal(vol.device.id, vol.Value())]
  {
    sys.Emit(NewVolume(if vol.index >= 0 then vol.index else UINT_MAX, vol.labelText,
                       vol.mountpoint.directory.absolutePath, vol.device.id, vol.uuid));
  }

  method AnnounceNewDevice(sys: System, device: Device)
    modifies sys`log
    ensures sys.Value() == Announce(device.Value(), old(sys.Value()))
  {
    if device.container.isCreated {
      sys.Emit(NewDevice(device.id, device.deviceName, device.uuid, device.container.absolutePath, device.usbPort));
    }
  }

  method ApplyDeviceFilter(device: Device)
    requires device.Valid() && device.state == Probed
    modifies device`state
    ensures device.Valid() && device.Value() == FilterDev(old(device.Value()))
  {
    var ok := IsDeviceNameAcceptable(device.deviceName, false);
    device.state := if ok then Ok else Rejected;
    PartsKept(device);
  }

  // ---- Mounting ------------------------------------------------------------------------

  /** Mounts a pending volume below the container of its device, or takes note of
      where it is mounted already. */
  method TryMountVolume(cfg: Config, sys: System, o: Oracle, device: Device, vol: Volume)
    requires device.Valid() && device.linkdir == cfg.linkdir && device.IsVolume(vol, Some(vol.index))
    modifies device.Footprint(), sys
    ensures device.Valid() && device.volumes == old(device.volumes)
    ensures (device.Value(), sys.Value()) == TryMount(cfg, o, old(device.Value()), vol.index, old(sys.Value()))
  {
    hide TryMount, Device.Footprint, Volume.Valid;
    TryMountCases(cfg, o, device.Value(), vol.index, sys.Value());
    PendingVolume(device, vol);
    VolumesApart(device, vol.index);
    if vol.state != Pending {
      return;
    }
    if !device.container.isCreated {
      return;
    }
    if device.container.isExternallyManaged {
      TakeNoteOfVolume(sys, o, vol);
    } else {
      MountVolume(cfg, sys, o, vol);
    }
    VolumeChanged(device, vol.index);
  }

  /** Watch mode: the volume is mounted where the mountpoint appeared. */
  method TakeNoteOfVolume(sys: System, o: Oracle, vol: Volume)
    requires vol.Valid() && vol.state == Pending
    modifies vol.Footprint(), sys
    ensures vol.Valid()
    ensures var (m, fs) := SetMp(o, old(vol.Value()).mp, old(vol.device.container.absolutePath), old(sys.fs));
            var v := old(vol.Value()).(mp := m, state := Mounted);
            vol.Value() == v && sys.Value() == World(fs, old(sys.log) + [VolumeSignal(vol.device.id, v)])
  {
    hide SetMp;
    vol.SetUnmanagedMountpointDirectory(sys, o);
    vol.SetMounted();
    AnnounceNewVolume(sys, vol);
  }

  method MountVolume(cfg: Config, sys: System, o: Oracle, vol: Volume)
    requires vol.Valid() && vol.symlinkDirectory == cfg.linkdir && vol.state == Pending
    modifies vol.Footprint(), sys
    ensures vol.Valid()
    ensures var (v, fs) := MountManaged(cfg, o, old(vol.Value()), old(vol.device.container.absolutePath), old(sys.fs));
            && vol.Value() == v && sys.fs == fs
            && sys.log == if v.state == Mounted then old(sys.log) + [VolumeSignal(vol.device.id, v)] else old(sys.log)
  {
    hide MakeMountpoint, MountVol, EndVol;
    StatesKept(cfg, o);
    var ok := vol.MkMountpointDirectory(sys, o);
    if ok {
      ok := vol.Mount(cfg, sys, o);
    }
    if ok {
      vol.SetMounted();
      AnnounceNewVolume(sys, vol);
    } else {
      vol.SetUnusable(sys, o);
    }
  }

  method MountAllPendingVolumes(cfg: Config, sys: System, o: Oracle, device: Device)
    requires device.Valid() && device.linkdir == cfg.linkdir
    modifies device.Footprint(), sys
    ensures device.Valid() && device.volumes == old(device.volumes)
    ensures (device.Value(), sys.Value()) ==
            MountPending(cfg, o, old(device.Value()), old(device.Value()).vols.Keys, old(sys.Value()))
  {
    hide MountPending, TryMount, Device.Valid, Device.Value;
    VolumeKeys(device);
    var keys := Ascending(device.volumes.Keys);
    MountInOrder(cfg, sys, o, device, keys);
  }

  method MountInOrder(cfg: Config, sys: System, o: Oracle, device: Device, keys: seq<int>)
    requires device.Valid() && device.linkdir == cfg.linkdir
    requires Sorted(keys) && forall i :: i in device.volumes.Keys <==> i in keys
    modifies device.Footprint(), sys
    ensures device.Valid() && device.volumes == old(device.volumes)
    ensures (device.Value(), sys.Value()) ==
            MountPending(cfg, o, old(device.Value()), old(device.volumes.Keys), old(sys.Value()))
  {
    hide MountPending, TryMount, Device.Valid, Device.Value, Device.Footprint;
    VolumeKeys(device);
    ghost var d, w, todo := device.Value(), sys.Value(), device.volumes.Keys;
    var k := 0;
    while k < |keys|
      invariant k <= |keys| && device.Valid() && device.volumes == old(device.volumes) && todo <= device.volumes.Keys
      invariant forall i :: i in todo <==> i in keys[k..]
      invariant device.Value().vols.Keys == device.volumes.Keys
      invariant MountPending(cfg, o, device.Value(), todo, sys.Value()) ==
        MountPending(cfg, o, d, device.volumes.Keys, w)
    {
      NextIsLeast(keys, k, todo);
      MountFirst(cfg, sys, o, device, keys[k], todo);
      todo := todo - {keys[k]};
      k := k + 1;
    }
    NoneLeft(keys, todo);
    NothingPending(cfg, o, device.Value(), sys.Value());
  }

  method MountFirst(cfg: Config, sys: System, o: Oracle, device: Device, i: int, ghost todo: set<int>)
    requires device.Valid() && device.linkdir == cfg.linkdir
    requires i in todo && todo <= device.volumes.Keys && i == Least(todo)
    modifies device.Footprint(), sys
    ensures device.Valid() && device.volumes == old(device.volumes) && device.Footprint() == old(device.Footprint())
    ensures device.Value().vols.Keys == device.volumes.Keys == old(device.Value()).vols.Keys
    ensures MountPending(cfg, o, device.Value(), todo - {i}, sys.Value())
            == MountPending(cfg, o, old(device.Value()), todo, old(sys.Value()))
  {
    hide MountPending, TryMount, Device.Valid, Device.Value;
    VolumeKeys(device);
    VolumeAt(device, i);
    FirstPending(cfg, o, device.Value(), todo, sys.Value());
    ghost var d, w := device.Value(), sys.Value();
    if device.volumes[i].state == Pending {
      TryMountVolume(cfg, sys, o, device, device.volumes[i]);
    }
    assert (device.Value(), sys.Value()) == TryMount(cfg, o, d, i, w);
    VolumeKeys(device);
  }

  lemma VolumeKeys(device: Device)
    requires device.Valid()
    ensures device.Value().vols.Keys == device.volumes.Keys
  {
  }

  lemma VolumeAt(device: Device, i: int)
    requires device.Valid() && i in device.volumes
    ensures device.volumes[i].index == i && device.IsVolume(device.volumes[i], Some(i))
    ensures i in device.Value().vols && device.Value().vols[i].state == device.volumes[i].state
  {
  }

  lemma FirstPending(cfg: Config, o: Oracle, d: Dev, todo: set<int>, w: World)
    requires todo != {} && todo <= d.vols.Keys
    ensures var i := Least(todo);
            var (d', w') := TryMount(cfg, o, d, i, w);
            MountPending(cfg, o, d, todo, w) == MountPending(cfg, o, d', todo - {i}, w')
    ensures d.vols[Least(todo)].state != Pending ==> TryMount(cfg, o, d, Least(todo), w) == (d, w)
  {
  }

  lemma NothingPending(cfg: Config, o: Oracle, d: Dev, w: World)
    ensures MountPending(cfg, o, d, {}, w) == (d, w)
  {
  }

  /** What follows the registration of a volume: the device is filtered, its working
      directory is created, and what is pending is mounted. */
  method EngageDevice(cfg: Config, sys: System, o: Oracle, device: Device, vol: Volume?, probed: bool,
                      ghost r: Option<int>)
    requires device.Valid() && device.linkdir == cfg.linkdir && device.IsVolume(vol, r)
    requires r.Some? ==> r.value in device.Value().vols
    modifies device.Footprint(), sys
    ensures device.Valid() && device.volumes == old(device.volumes)
    ensures (device.Value(), sys.Value()) == Engage(cfg, o, old(device.Value()), r, probed, old(sys.Value()))
  {
    hide MountPending, TryMount, OpenContainer, Acceptable, Device.Valid, Device.Footprint;
    InOwnFootprint(device);
    IndexIs(device, vol, r);
    if device.state in {Synthetic, Broken, Rejected} {
      return;
    }
    if device.state == Probed {
      ApplyDeviceFilter(device);
      if device.state != Ok {
        return;
      }
    }
    var haveProbed := probed;
    if !haveProbed {
      haveProbed := device.container.absolutePath == "";
    }
    if haveProbed {
      OpenWorkingDirectory(cfg, sys, o, device);
      MountAllPendingVolumes(cfg, sys, o, device);
    } else if vol != null {
      TryMountVolume(cfg, sys, o, device, vol);
    }
  }

  /** Watch mode: the device is where the mountpoint appeared. */
  method EngageWatchedDevice(cfg: Config, sys: System, o: Oracle, device: Device, vol: Volume, path: NonEmpty)
    requires device.Valid() && device.linkdir == cfg.linkdir && device.IsVolume(vol, Some(vol.index))
    requires vol.index in device.Value().vols
    modifies device.Footprint(), sys
    ensures device.Valid() && device.volumes == old(device.volumes)
    ensures (device.Value(), sys.Value()) ==
            EngageWatched(cfg, o, old(device.Value()), vol.index, path, old(sys.Value()))
  {
    hide TryMount, Acceptable, Device.Valid, Device.Footprint;
    InOwnFootprint(device);
    if device.state in {Synthetic, Broken, Rejected} {
      return;
    }
    if device.state == Probed {
      ApplyDeviceFilter(device);
      if device.state != Ok {
        return;
      }
    }
    SetDirectory(sys, device, path);
    TryMountVolume(cfg, sys, o, device, vol);
  }

  method SetDirectory(sys: System, device: Device, path: NonEmpty)
    requires device.Valid() && device.state == Ok
    modifies device.Footprint(), sys
    ensures device.Valid() && device.volumes == old(device.volumes)
    ensures var d := old(device.Value()).(dir := Dir(path, true, true));
            device.Value() == d && sys.Value() == Announce(d, old(sys.Value()))
  {
    hide Device.Valid, Device.Value, Announce;
    InOwnFootprint(device);
    device.SetMountpointDirectory(path);
    label before:
    AnnounceNewDevice(sys, device);
    DeviceKept@before(device);
  }

  method OpenWorkingDirectory(cfg: Config, sys: System, o: Oracle, device: Device)
    requires device.Valid() && device.state == Ok
    modifies device.Footprint(), sys
    ensures device.Valid() && device.volumes == old(device.volumes)
    ensures (device.Value(), sys.Value()) == OpenContainer(cfg, o, old(device.Value()), old(sys.Value()))
  {
    hide CreateDir, Device.Valid, Device.Value, Announce;
    InOwnFootprint(device);
    FieldsOf(device);
    var ok := device.MkWorkingDirectory(sys, o, ContainerPath(cfg.workdir, device.id));
    label before:
    if ok {
      AnnounceNewDevice(sys, device);
      DeviceKept@before(device);
    }
  }

  lemma IndexIs(device: Device, vol: Volume?, r: Option<int>)
    requires device.Valid() && device.IsVolume(vol, r)
    ensures vol == null <==> r == None
    ensures vol != null ==> r == Some(vol.index) && vol.index in device.volumes
  {
    if r.Some? {
      assert device.volumes[r.value].index == r.value;
    }
  }

  lemma StatesKept(cfg: Config, o: Oracle)
    ensures forall v, container, fs :: MakeMountpoint(o, v, container, fs).0.state == v.state
    ensures forall v, fs :: MountVol(cfg, o, v, fs).0.state == v.state
    ensures forall v, st, fs :: EndVol(o, v, st, fs).0.state == st
  {
  }

  lemma PendingVolume(device: Device, vol: Volume)
    requires device.Valid() && device.IsVolume(vol, Some(vol.index))
    ensures vol.device == device && vol.Valid() && vol.symlinkDirectory == device.linkdir
    ensures vol.index in device.Value().vols && device.Value().vols[vol.index] == vol.Value()
    ensures vol.Footprint() <= device.Footprint()
  {
  }

  lemma TryMountCases(cfg: Config, o: Oracle, d: Dev, i: int, w: World)
    requires i in d.vols
    ensures var v := d.vols[i];
            var r := TryMount(cfg, o, d, i, w);
            if v.state != Pending || !d.dir.created then r == (d, w)
            else if d.dir.external then
              var (m, fs) := SetMp(o, v.mp, d.dir.path, w.fs);
              var v' := v.(mp := m, state := Mounted);
              r == (d.(vols := d.vols[i := v']), World(fs, w.log + [VolumeSignal(d.id, v')]))
            else
              var (v', fs) := MountManaged(cfg, o, v, d.dir.path, w.fs);
              r == (d.(vols := d.vols[i := v']),
                    World(fs, if v'.state == Mounted then w.log + [VolumeSignal(d.id, v')] else w.log))
  {
  }

  // ---- The daemon ------------------------------------------------------------------------

  class Core {
    const cfg: Config
    const sys: System
    const devman: AllDevices

    ghost predicate Valid()
      reads devman, devman.parts
    {
      devman.Valid() && sys !in devman.parts && devman.symlinkDirectory == cfg.linkdir
    }

    ghost function Value(): State
      requires Valid()
      reads devman, devman.parts, sys
    {
      devman.StateWith(sys.Value())
    }

    constructor (cfg: Config, foreign: map<string, string>)
      ensures Valid() && this.cfg == cfg && Value() == Start(foreign)
    {
      this.cfg := cfg;
      sys := new System(foreign);
      devman := new AllDevices(cfg.linkdir);
    }

    method HandleNewDevice(o: Oracle, devicePath: NonEmpty)
      requires Valid() && Value().cursor <= MAX_ID && !Automounter.HandleNewDevice(cfg, o, Value(), devicePath).stuck
      modifies devman, devman.parts, sys
      ensures Valid() && Value() == Automounter.HandleNewDevice(cfg, o, old(Value()), devicePath)
    {
      hide DeviceManager.NewEntry, Automounter.Engage, Blocked, Acceptable, AllDevices.Valid, AllDevices.Value,
           Device.Valid, Device.Value, Device.Footprint;
      var ok := IsDeviceNameAcceptable(devicePath, true);
      if !ok {
        return;
      }
      KeyRange(devman);
      ghost var e := DeviceManager.NewEntry(o, devman.Value(), devman.nextFreeId, devicePath);
      var dev, vol, haveProbedDev := devman.NewEntry(o, devicePath);
      if dev != null {
        HeldOk(devman, dev);
        VolumeKeys(dev);
      }
      if dev == null || vol == null {
        if dev == null || dev.volumes == map[] {
          return;
        }
      }
      EngageRegistered(o, dev, vol, haveProbedDev, e.vol);
    }

    method EngageRegistered(o: Oracle, dev: Device, vol: Volume?, probed: bool, ghost r: Option<int>)
      requires Valid() && devman.Holds(dev) && dev.IsVolume(vol, r)
      modifies devman.parts, sys
      ensures Valid()
      ensures var s := old(Value());
              && (r.Some? ==> r.value in s.devs[dev.id].vols)
              && var (d, w) := Automounter.Engage(cfg, o, s.devs[dev.id], r, probed, s.world);
                 Value() == s.(devs := s.devs[dev.id := d], world := w)
    {
      hide Automounter.Engage, AllDevices.Valid, AllDevices.Value, AllDevices.Alone, Device.Valid, Device.Value,
           Device.Footprint;
      HeldOk(devman, dev);
      DevicesApart(devman, dev.id);
      IndexIs(dev, vol, r);
      VolumeKeys(dev);
      EngageDevice(cfg, sys, o, dev, vol, probed, r);
      DeviceChanged(devman, dev.id);
    }

    method HandleRemovedDevice(o: Oracle, devicePath: string)
      requires Valid()
      modifies devman, devman.parts, sys
      ensures Valid() && Value() == Automounter.HandleRemovedDevice(o, old(Value()), devicePath)
    {
      hide FindDev, RemoveDev, AllDevices.Valid, AllDevices.Value;
      KeyRange(devman);
      var removed := devman.RemoveEntry(sys, o, devicePath);
    }

    method HandleNewUnmanagedMountpoint(o: Oracle, mountpointPath: NonEmpty)
      requires Valid() && Value().cursor <= MAX_ID && !HandleNewMountpoint(cfg, o, Value(), mountpointPath).stuck
      modifies devman, devman.parts, sys
      ensures Valid() && Value() == HandleNewMountpoint(cfg, o, old(Value()), mountpointPath)
    {
      hide EntryByMountpoint, EngageWatched, AllDevices.Valid, AllDevices.Value, Device.Valid, Device.Value,
           Device.Footprint;
      KeyRange(devman);
      ghost var e := EntryByMountpoint(o, Value(), mountpointPath);
      var dev, vol := devman.NewEntryByMountpoint(sys, o, mountpointPath);
      if dev != null {
        HeldOk(devman, dev);
        IndexIs(dev, vol, e.2);
      }
      if dev == null || dev.volumes == map[] || vol == null {
        return;
      }
      EngageMountpoint(o, dev, vol, mountpointPath);
    }

    method EngageMountpoint(o: Oracle, dev: Device, vol: Volume, mountpointPath: NonEmpty)
      requires Valid() && devman.Holds(dev) && dev.IsVolume(vol, Some(vol.index))
      modifies devman.parts, sys
      ensures Valid()
      ensures var s := old(Value());
              && vol.index in s.devs[dev.id].vols
              && var (d, w) := EngageWatched(cfg, o, s.devs[dev.id], vol.index, mountpointPath, s.world);
                 Value() == s.(devs := s.devs[dev.id := d], world := w)
    {
      hide EngageWatched, AllDevices.Valid, AllDevices.Value, AllDevices.Alone, Device.Valid, Device.Value,
           Device.Footprint;
      HeldOk(devman, dev);
      DevicesApart(devman, dev.id);
      VolumeAt(dev, vol.index);
      EngageWatchedDevice(cfg, sys, o, dev, vol, mountpointPath);
      DeviceChanged(devman, dev.id);
    }

    method HandleRemovedUnmanagedMountpoint(o: Oracle, mountpointPath: string)
      requires Valid()
      modifies devman, devman.parts, sys
      ensures Valid() && Value() == HandleRemovedMountpoint(o, old(Value()), mountpointPath)
    {
      hide Automounter.HandleRemovedDevice, AllDevices.Valid, AllDevices.Value;
      KeyRange(devman);
      var dev := devman.TakeVolumeDeviceForMountpoint(mountpointPath);
      if dev != "" {
        HandleRemovedDevice(o, dev);
      }
    }

    /** Whatever happens, the daemon does one step. */
    method Handle(ev: Event)
      requires Valid() && Value().cursor <= MAX_ID && !Step(cfg, Value(), ev).stuck
      modifies devman, devman.parts, sys
      ensures Valid() && Value() == Step(cfg, old(Value()), ev)
    {
      hide Automounter.HandleNewDevice, Automounter.HandleRemovedDevice, HandleNewMountpoint, HandleRemovedMountpoint;
      match ev
      case DeviceAdded(o, link) => HandleNewDevice(o, link);
      case DeviceGone(o, link) => HandleRemovedDevice(o, link);
      case MountpointAdded(o, path) => HandleNewUnmanagedMountpoint(o, path);
      case MountpointGone(o, path) => HandleRemovedUnmanagedMountpoint(o, path);
    }
  }
}
