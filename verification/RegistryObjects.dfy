/** The registry of devices as an object that is updated in place. */
module RegistryObjects {
  import opened Option
  import opened Sets
  import opened Names
  import opened Platform
  import opened SystemCalls
  import opened DirectoryObjects
  import opened Devices
  import opened DeviceObjects
  import opened DeviceManager
  import Automounter

  class AllDevices {
    var devices: map<nat, Device>
    var nextFreeId: nat
    var volumeDeviceForMountpoint: map<string, string>
    const symlinkDirectory: string
    /** The objects that make up the devices. */
    ghost var parts: set<object>

    /** Devices sit at their IDs. They share nothing because each part has one owner. */
    ghost predicate Valid()
      reads this, parts
    {
      && nextFreeId <= MAX_ID
      && this !in parts
      && (forall id :: id in devices ==> devices[id] in parts && devices[id].Footprint() <= parts)
      && (forall id :: id in devices ==>
            devices[id].id == id && devices[id].linkdir == symlinkDirectory && devices[id].Valid())
    }

    /** What belongs to device `id` belongs to no other. */
    ghost predicate Alone(id: nat)
      requires Valid() && id in devices
      reads this, parts
    {
      forall j :: j in devices && j != id ==> devices[j].Footprint() !! devices[id].Footprint()
    }

    ghost function Value(): (devs: Registry)
      requires Valid()
      reads this, parts
      ensures devs.Keys == devices.Keys
    {
      map id | id in devices :: devices[id].Value()
    }

    ghost predicate Holds(device: Device)
      reads `devices
    {
      device.id in devices && devices[device.id] == device
    }

    /** `device` is the device with ID `r`, null if there is none. */
    ghost predicate IsDevice(device: Device?, r: Option<nat>)
      reads `devices
    {
      if r == None then device == null else device != null && Holds(device) && r == Some(device.id)
    }

    constructor (symlinkDirectory: string)
      ensures Valid() && Value() == map[] && nextFreeId == 0 && volumeDeviceForMountpoint == map[]
      ensures this.symlinkDirectory == symlinkDirectory && parts == {}
    {
      devices, nextFreeId, volumeDeviceForMountpoint, parts := map[], 0, map[], {};
      this.symlinkDirectory := symlinkDirectory;
    }

    method GetNextId() returns (id: nat)
      requires nextFreeId <= MAX_ID
      modifies `nextFreeId
      ensures id == nextFreeId == NextId(old(nextFreeId))
    {
      nextFreeId := nextFreeId + 1;
      if nextFreeId > MAX_ID {
        nextFreeId := 1;
      }
      id := nextFreeId;
    }

    /** Searches for an unused ID; ends because there is one. */
    method AllocateId() returns (id: nat)
      requires nextFreeId <= MAX_ID && FreeIds(devices.Keys) != {}
      modifies `nextFreeId
      ensures id == nextFreeId == FreshId(devices.Keys, old(nextFreeId))
    {
      ghost var used := devices.Keys;
      ghost var free := Least(FreeIds(used));
      assert free in FreeIds(used);
      id := GetNextId();
      while id in devices
        invariant id == nextFreeId <= MAX_ID && devices == old(devices)
        invariant if id in devices then FreshId(used, id) == FreshId(used, old(nextFreeId))
                  else id == FreshId(used, old(nextFreeId))
        decreases if id in devices then Gap(id, free) else 0
      {
        id := GetNextId();
      }
    }

    method MkDevice(o: Oracle, devlink: string, isReal: bool) returns (device: Device)
      requires Valid() && FreeIds(devices.Keys) != {}
      modifies `devices, `nextFreeId, `parts
      ensures Valid() && Holds(device) && device.volumes == map[]
      ensures fresh(device) && fresh(parts - old(parts))
      ensures device.id == nextFreeId == FreshId(old(devices.Keys), old(nextFreeId)) && device.id !in old(devices)
      ensures Value() == old(Value())[device.id := if isReal then ProbeDev(o, NewDev(device.id, devlink))
                                                    else NewDev(device.id, devlink)]
    {
      hide FreshId, ProbeDev, AllDevices.Valid, AllDevices.Value, Device.Valid, Device.Value, Device.Footprint;
      device := AllocDevice(o, devlink, isReal);
      InsertDevice(device);
    }

    method AllocDevice(o: Oracle, devlink: string, isReal: bool) returns (device: Device)
      requires Valid() && FreeIds(devices.Keys) != {}
      modifies `nextFreeId
      ensures Valid() && Value() == old(Value())
      ensures device.Valid() && fresh(device.Footprint()) && device in device.Footprint() && device.volumes == map[]
      ensures device.id == nextFreeId == FreshId(devices.Keys, old(nextFreeId)) && device.id !in devices
      ensures device.linkdir == symlinkDirectory && this !in device.Footprint()
      ensures device.Value() == if isReal then ProbeDev(o, NewDev(device.id, devlink)) else NewDev(device.id, devlink)
    {
      hide FreshId, ProbeDev, AllDevices.Valid, AllDevices.Value;
      KeyRange(this);
      var id := AllocateId();
      device := new Device(o, id, devlink, isReal, symlinkDirectory);
      RegistryKept(this);
    }

    /** Inserting a device under its own ID cannot fail if the ID is unused. */
    method InsertDevice(device: Device)
      requires Valid() && device.Valid() && device.id !in devices && device.linkdir == symlinkDirectory
      requires this !in device.Footprint()
      modifies `devices, `parts
      ensures Valid() && devices == old(devices)[device.id := device] && parts == old(parts) + device.Footprint()
      ensures Value() == old(Value())[device.id := old(device.Value())]
    {
      devices := devices[device.id := device];
      parts := parts + device.Footprint();
      DeviceKept(device);
      DeviceInserted(this, device);
    }

    method GetDeviceByDevlink(devlink: string) returns (device: Device?)
      requires Valid()
      ensures IsDevice(device, FindDev(Value(), devlink))
    {
      var keys := AscendingNats(devices.Keys);
      var k := 0;
      while k < |keys|
        invariant k <= |keys|
        invariant forall j :: 0 <= j < k ==> devices[keys[j]].devlinkName != devlink
      {
        if devices[keys[k]].devlinkName == devlink {
          FoundDev(Value(), devlink, keys, k);
          return devices[keys[k]];
        }
        k := k + 1;
      }
      assert WithLink(Value(), devlink) == {};
      device := null;
    }

    method FindRootDevice(devlink: NonEmpty) returns (device: Device?)
      requires Valid()
      ensures IsDevice(device, FindDev(Value(), RootName(devlink)))
    {
      var root := MkRootDevlinkName(devlink);
      device := GetDeviceByDevlink(root);
    }

    method AddOrGetDevice(o: Oracle, devlink: NonEmpty, devname: NonEmpty)
      returns (device: Device, haveInfo: bool, probed: bool)
      requires Valid() && (FindDev(Value(), devlink) == None ==> FreeIds(devices.Keys) != {})
      modifies `devices, `nextFreeId, `parts
      ensures Valid() && Holds(device) && fresh(parts - old(parts))
      ensures match FindDev(old(Value()), devlink)
              case Some(id) =>
                device.id == id && devices == old(devices) && Value() == old(Value()) && nextFreeId == old(nextFreeId)
                && !haveInfo && !probed
              case None =>
                var d := ProbeDev(o, NewDev(nextFreeId, devlink));
                && device.id == nextFreeId == FreshId(old(devices.Keys), old(nextFreeId)) && device.id !in old(devices)
                && Value() == old(Value())[nextFreeId := d]
                && haveInfo == o.volumeInfo(devname).Some? && probed == (d.state == Probed)
    {
      hide FindDev, FreshId, ProbeDev, Device.Valid, Device.Footprint;
      haveInfo, probed := false, false;
      var known := GetDeviceByDevlink(devlink);
      if known != null {
        return known, haveInfo, probed;
      }
      haveInfo := o.volumeInfo(devname).Some?;
      device := MkDevice(o, devlink, true);
      probed := device.state == Probed;
    }

    method AddOrGetVolume(o: Oracle, known: Device?, devlink: NonEmpty, devname: NonEmpty, info: VolumeInfo)
      returns (device: Device, vol: Volume?)
      requires Valid() && (if known == null then FreeIds(devices.Keys) != {} else Holds(known))
      modifies `devices, `nextFreeId, `parts, parts
      ensures Valid() && Holds(device) && (known != null ==> device == known) && fresh(parts - old(parts))
      ensures device.id == if known == null then FreshId(old(devices.Keys), old(nextFreeId)) else known.id
      ensures nextFreeId == if known == null then device.id else old(nextFreeId)
      ensures var d := Before(old(Value()), device.id, RootName(devlink));
              Value() == old(Value())[device.id := AddVol(d, devname, info).0]
                && device.IsVolume(vol, AddVol(d, devname, info).1)
    {
      hide FreshId, AddVol, AllDevices.Valid, AllDevices.Value, Device.Value, Device.Valid, Device.Footprint,
           Device.IsVolume;
      if known == null {
        device, vol := AddVolumeToNew(o, devlink, devname, info);
      } else {
        HeldOk(this, known);
        device := known;
        vol := AddVolumeTo(device, devname, info);
      }
    }

    method AddVolumeToNew(o: Oracle, devlink: NonEmpty, devname: NonEmpty, info: VolumeInfo)
      returns (device: Device, vol: Volume?)
      requires Valid() && FreeIds(devices.Keys) != {}
      modifies `devices, `nextFreeId, `parts
      ensures Valid() && Holds(device) && fresh(parts - old(parts))
      ensures device.id == nextFreeId == FreshId(old(devices.Keys), old(nextFreeId)) && device.id !in old(devices)
      ensures Value() == old(Value())[device.id := AddVol(NewDev(device.id, RootName(devlink)), devname, info).0]
      ensures device.IsVolume(vol, AddVol(NewDev(device.id, RootName(devlink)), devname, info).1)
    {
      hide FreshId, AddVol, AllDevices.Valid, AllDevices.Value, Device.Value, Device.Valid, Device.Footprint,
           Device.IsVolume;
      var root := MkRootDevlinkName(devlink);
      device := MkDevice(o, root, false);
      assert Value()[device.id] == NewDev(device.id, root);
      vol := AddVolumeTo(device, devname, info);
    }

    method AddVolumeTo(device: Device, devname: NonEmpty, info: VolumeInfo) returns (vol: Volume?)
      requires Valid() && Holds(device)
      modifies device`volumes, device`references, `parts
      ensures Valid() && Holds(device) && fresh(parts - old(parts))
      ensures Value() == old(Value())[device.id := AddVol(old(Value())[device.id], devname, info).0]
      ensures device.IsVolume(vol, AddVol(old(Value())[device.id], devname, info).1)
    {
      hide AddVol, AllDevices.Value, AllDevices.Valid, AllDevices.Alone, Device.Value, Device.Valid, Device.Footprint,
           Device.IsVolume;
      HeldOk(this, device);
      DevicesApart(this, device.id);
      ghost var d, before := device.Value(), device.Footprint();
      vol := device.AddOrGetVolume(devname, info, symlinkDirectory);
      parts := parts + (device.Footprint() - before);
      DeviceChanged(this, device.id);
      assert old(Value())[device.id] == d && device.Value() == AddVol(d, devname, info).0;
    }

    /** Registers a link, and tells which device and volume it stands for. */
    method NewEntry(o: Oracle, devlink: NonEmpty) returns (device: Device?, vol: Volume?, probed: bool)
      requires Valid() && !Blocked(o, Value(), devlink)
      modifies `devices, `nextFreeId, `parts, parts
      ensures Valid() && fresh(parts - old(parts))
      ensures var e := DeviceManager.NewEntry(o, old(Value()), old(nextFreeId), devlink);
              && Value() == e.devs && nextFreeId == e.cursor && probed == e.probed
              && IsDevice(device, e.dev) && (if device == null then vol == null else device.IsVolume(vol, e.vol))
    {
      hide AddVol, FindVol, FindDev, FreshId, ProbeDev, DeviceManager.NewEntry, AllDevices.Valid, AllDevices.Value,
           Device.Value, Device.Valid, Device.Footprint, VolumeNumber, Blocked;
      KeyRange(this);
      NewEntryCases(o, Value(), nextFreeId, devlink);
      ProbedOnce(o, devlink);
      device, vol, probed := null, null, false;
      var devname := Devname(o, devlink);
      var number := DevnameGetVolumeNumber(devname);
      if number < 0 {
        return;
      }
      var haveInfo := false;
      if number == 0 {
        device, haveInfo, probed := AddOrGetDevice(o, devlink, devname);
      } else {
        device := FindRootDevice(devlink);
      }
      if number > 0 || haveInfo {
        haveInfo := o.volumeInfo(devname).Some?;
        if haveInfo {
          device, vol := AddOrGetVolume(o, device, devlink, devname, o.volumeInfo(devname).value);
        }
      } else {
        var nowProbed;
        nowProbed, vol := ProbeAndLookup(o, device, devname);
        probed := probed || nowProbed;
      }
    }

    method ProbeAndLookup(o: Oracle, device: Device, devname: NonEmpty) returns (probed: bool, vol: Volume?)
      requires Valid() && Holds(device)
      modifies parts
      ensures Valid() && Holds(device)
      ensures var d := old(Value())[device.id];
              var p := if d.state == Synthetic then ProbeDev(o, d) else d;
              && Value() == old(Value())[device.id := p]
              && probed == (d.state == Synthetic && p.state == Probed) && device.IsVolume(vol, FindVol(p.vols, devname))
    {
      hide ProbeDev, FindVol, AllDevices.Value, AllDevices.Valid, AllDevices.Alone, Device.Value, Device.Valid,
           Device.Footprint;
      HeldOk(this, device);
      DevicesApart(this, device.id);
      probed := device.Probe(o);
      DeviceChanged(this, device.id);
      vol := device.LookupVolumeByDevname(devname);
    }

    /** Removes a whole device; links to partitions are not known here. */
    method RemoveEntry(sys: System, o: Oracle, devlink: string) returns (ok: bool)
      requires Valid() && sys !in parts
      modifies `devices, `parts, parts, sys
      ensures Valid() && parts <= old(parts)
      ensures ok <==> FindDev(old(Value()), devlink).Some?
      ensures match FindDev(old(Value()), devlink)
              case None => Value() == old(Value()) && sys.Value() == old(sys.Value())
              case Some(id) =>
                Value() == old(Value()) - {id} && sys.Value() == RemoveDev(o, old(Value())[id], old(sys.Value()))
    {
      hide FindDev, RemoveDev, AllDevices.Valid, AllDevices.Value, Device.Value, Device.Valid, Device.Footprint;
      var device := GetDeviceByDevlink(devlink);
      if device == null {
        return false;
      }
      RemoveDevice(sys, o, device);
      ok := true;
    }

    method RemoveDevice(sys: System, o: Oracle, device: Device)
      requires Valid() && sys !in parts && Holds(device)
      modifies `devices, `parts, parts, sys
      ensures Valid() && parts <= old(parts)
      ensures device.id in old(Value()) && Value() == old(Value()) - {device.id}
      ensures sys.Value() == RemoveDev(o, old(Value())[device.id], old(sys.Value()))
    {
      hide DropVols, ReleaseDev, AllDevices.Valid, AllDevices.Value, AllDevices.Alone, Device.Value, Device.Valid,
           Device.Footprint, WillBeRemovedSignals, RemovedSignals;
      HeldOk(this, device);
      DevicesApart(this, device.id);
      ghost var devs := Value();
      EmptyDevice(sys, o, device);
      DeviceChanged(this, device.id);
      DropUpdated(devs, device.id, device.Value());
      EraseDevice(device);
      ReleaseDevice(sys, o, device);
    }

    /** Drops the volumes, with announcements before and after. */
    static method EmptyDevice(sys: System, o: Oracle, device: Device)
      requires device.Valid() && sys !in device.Footprint()
      modifies device.Footprint(), sys
      ensures device.Valid() && device.volumes == map[] && device.Footprint() <= old(device.Footprint())
      ensures var d, w := old(device.Value()), old(sys.Value());
              var (d', fs) := DropVols(o, d, w.fs);
              device.Value() == d' && sys.Value() == World(fs, w.log + WillBeRemovedSignals(d) + RemovedSignals(d'))
    {
      hide DropVols, Device.Valid, Device.Value;
      FieldsOf(device);
      label before:
      if device.container.isCreated {
        sys.Emit(DeviceWillBeRemoved(device.id, device.uuid, device.container.absolutePath));
      }
      DeviceKept@before(device);
      device.DropVolumes(sys, o);
      FieldsOf(device);
      label dropped:
      if device.container.isCreated {
        sys.Emit(DeviceRemoved(device.id, device.uuid, device.container.absolutePath));
      }
      DeviceKept@dropped(device);
    }

    method EraseDevice(device: Device)
      requires Valid() && Holds(device)
      modifies `devices, `parts
      ensures Valid() && parts == old(parts) - device.Footprint() && Value() == old(Value()) - {device.id}
    {
      forall id | id in devices && id != device.id ensures devices[id].Footprint() !! device.Footprint() {
        FootprintsApart(devices[id], device);
      }
      devices := devices - {device.id};
      parts := parts - device.Footprint();
      DeviceErased(this, device.id);
    }

    /** Gives up the reference of the registry; the last one destroys the device. */
    static method ReleaseDevice(sys: System, o: Oracle, device: Device)
      requires device.Valid() && device.volumes == map[] && sys !in device.Footprint()
      modifies device.Footprint(), sys`fs
      ensures sys.fs == ReleaseDev(o, old(device.Value()), old(sys.fs))
    {
      device.references := device.references - 1;
      if device.references == 0 {
        device.Destroy(sys, o);
      }
    }

    /** The registry as part of the state of the daemon. */
    ghost function StateWith(w: World): Automounter.State
      requires Valid()
      reads this, parts
    {
      Automounter.State(Value(), nextFreeId, volumeDeviceForMountpoint, w, false)
    }

    /** Looks at a mountpoint through an object that is destroyed at once. */
    static method ProbeMountpoint(sys: System, o: Oracle, path: NonEmpty, ghost s: Automounter.State)
      returns (found: bool)
      requires s.world == sys.Value()
      modifies sys`fs
      ensures (s.(world := sys.Value()), found) == Automounter.ProbeMountpoint(o, s, path)
    {
      var mp := new Mountpoint(path);
      found := mp.Probe(o, false);
      mp.Destroy(sys, o);
    }

    /** Registers the device and the volume that are mounted somewhere, and
        remembers the device. */
    method NewEntryByMountpoint(sys: System, o: Oracle, mountpointPath: NonEmpty)
      returns (device: Device?, vol: Volume?)
      requires Valid() && sys !in parts && nextFreeId <= MAX_ID
      requires !Automounter.EntryByMountpoint(o, StateWith(sys.Value()), mountpointPath).0.stuck
      modifies this, parts, sys`fs
      ensures Valid() && fresh(parts - old(parts))
      ensures var (s, dev, r) := Automounter.EntryByMountpoint(o, old(StateWith(sys.Value())), mountpointPath);
              && StateWith(sys.Value()) == s && IsDevice(device, dev) && (device != null ==> device.IsVolume(vol, r))
    {
      hide DeviceManager.NewEntry, AllDevices.Valid, AllDevices.Value, Blocked, Automounter.ProbeMountpoint;
      KeyRange(this);
      device, vol := null, null;
      Automounter.ProbingLeavesNoTrace(o, StateWith(sys.Value()), mountpointPath);
      label before:
      var mounted := ProbeMountpoint(sys, o, mountpointPath, StateWith(sys.Value()));
      RegistryKept@before(this);
      if !mounted {
        return;
      }
      var (first, second) := o.linksOf(mountpointPath);
      if first == "" || second == "" {
        return;
      }
      var dummy;
      device, vol, dummy := NewEntry(o, first);
      if device == null {
        return;
      }
      device, vol, dummy := NewEntry(o, second);
      if device != null {
        KeyRange(this);
        NoteMountpoint(mountpointPath, first);
      }
    }

    method NoteMountpoint(mountpointPath: string, devlink: string)
      requires Valid()
      modifies `volumeDeviceForMountpoint
      ensures Valid() && Value() == old(Value())
      ensures volumeDeviceForMountpoint == old(volumeDeviceForMountpoint)[mountpointPath := devlink]
    {
      hide AllDevices.Valid, AllDevices.Value;
      KeyRange(this);
      volumeDeviceForMountpoint := volumeDeviceForMountpoint[mountpointPath := devlink];
      RegistryKept(this);
    }

    method TakeVolumeDeviceForMountpoint(mountpointPath: string) returns (devlink: string)
      requires Valid()
      modifies `volumeDeviceForMountpoint
      ensures Valid() && Value() == old(Value())
      ensures var watched := old(volumeDeviceForMountpoint);
              devlink == if mountpointPath in watched then watched[mountpointPath] else ""
      ensures volumeDeviceForMountpoint == old(volumeDeviceForMountpoint) - {mountpointPath}
    {
      hide AllDevices.Valid, AllDevices.Value;
      KeyRange(this);
      devlink := "";
      if mountpointPath in volumeDeviceForMountpoint {
        devlink := volumeDeviceForMountpoint[mountpointPath];
        volumeDeviceForMountpoint := volumeDeviceForMountpoint - {mountpointPath};
        RegistryKept(this);
      }
    }
  }

  // ---- Frames ----------------------------------------------------------------------------

  lemma InOwnFootprint(d: Device)
    ensures d in d.Footprint()
  {
  }

  /** As long as its parts stay the same, so does the registry. */
  twostate lemma RegistryKept(r: AllDevices)
    requires old(r.Valid()) && r.devices == old(r.devices) && r.parts == old(r.parts) && r.nextFreeId <= MAX_ID
    requires unchanged(old(r.parts))
    ensures r.Valid() && r.Value() == old(r.Value())
  {
    hide Device.Value, Device.Valid, Device.Footprint;
    forall id | id in r.devices
      ensures r.devices[id].Valid() && r.devices[id].Value() == old(r.devices[id].Value())
      ensures r.devices[id].Footprint() == old(r.devices[id].Footprint())
    {
      DeviceKept(r.devices[id]);
    }
  }

  twostate lemma DeviceInserted(r: AllDevices, new device: Device)
    requires old(r.Valid()) && device.id !in old(r.devices) && r.devices == old(r.devices)[device.id := device]
    requires device.Valid() && device.linkdir == r.symlinkDirectory && r.nextFreeId <= MAX_ID
    requires r.parts == old(r.parts) + device.Footprint() && r !in r.parts && unchanged(old(r.parts))
    ensures r.Valid() && r.Value() == old(r.Value())[device.id := device.Value()]
  {
    hide Device.Value, Device.Valid, Device.Footprint;
    InOwnFootprint(device);
    forall id | id in old(r.devices)
      ensures r.devices[id].Valid() && r.devices[id].Value() == old(r.devices[id].Value())
      ensures r.devices[id].Footprint() == old(r.devices[id].Footprint())
    {
      assert r.devices[id] == old(r.devices)[id];
      DeviceKept(r.devices[id]);
    }
  }

  twostate lemma DeviceErased(r: AllDevices, new id: nat)
    requires old(r.Valid()) && id in old(r.devices) && r.devices == old(r.devices) - {id} && r.nextFreeId <= MAX_ID
    requires forall j :: j in r.devices ==> old(r.devices[j].Footprint()) <= r.parts
    requires r !in r.parts && unchanged(old(r.parts))
    ensures r.Valid() && r.Value() == old(r.Value()) - {id}
  {
    hide Device.Value, Device.Valid, Device.Footprint;
    forall j | j in r.devices
      ensures r.devices[j].Valid() && r.devices[j].Value() == old(r.devices[j].Value())
      ensures r.devices[j].Footprint() == old(r.devices[j].Footprint()) && r.devices[j] in r.devices[j].Footprint()
    {
      DeviceKept(r.devices[j]);
      InOwnFootprint(r.devices[j]);
    }
  }

  lemma KeyRange(r: AllDevices)
    requires r.Valid()
    ensures r.nextFreeId <= MAX_ID && r !in r.parts
  {
  }

  lemma KeyHeld(r: AllDevices, id: nat)
    requires r.Valid() && id in r.devices
    ensures r.devices[id].id == id && r.Holds(r.devices[id])
  {
  }

  lemma HeldOk(r: AllDevices, device: Device)
    requires r.Valid() && r.Holds(device)
    ensures device.Valid() && device.linkdir == r.symlinkDirectory && r.Value()[device.id] == device.Value()
    ensures r !in r.parts && r.nextFreeId <= MAX_ID && device in device.Footprint() && device.Footprint() <= r.parts
  {
  }

  lemma DevicesApart(r: AllDevices, id: nat)
    requires r.Valid() && id in r.devices
    ensures r.Alone(id)
  {
    forall j | j in r.devices && j != id ensures r.devices[j].Footprint() !! r.devices[id].Footprint() {
      FootprintsApart(r.devices[j], r.devices[id]);
    }
  }

  lemma FootprintsApart(d: Device, e: Device)
    requires d.Valid() && e.Valid() && d != e
    ensures d.Footprint() !! e.Footprint()
  {
    forall x | x in d.Footprint() ensures x !in e.Footprint() {
      if x is Volume {
        assert (x as Volume).device == d;
      } else if x is Mountpoint {
        assert exists v: Volume :: (x as Mountpoint).owner == v && v.device == d;
      }
    }
  }

  /** The device `id` changes, and nothing else. */
  twostate lemma DeviceChanged(r: AllDevices, new id: nat)
    requires old(r.Valid()) && r.devices == old(r.devices) && id in r.devices && r.nextFreeId <= MAX_ID
    requires old(r.parts) + r.devices[id].Footprint() <= r.parts && r !in r.parts && r.devices[id].Valid()
    requires old(r.Alone(id)) && unchanged(old(r.parts) - old(r.devices[id].Footprint()))
    ensures r.Valid() && r.Value() == old(r.Value())[id := r.devices[id].Value()]
  {
    hide Device.Value, Device.Valid, Device.Footprint;
    InOwnFootprint(r.devices[id]);
    forall j | j in r.devices && j != id
      ensures r.devices[j].Valid() && r.devices[j].Value() == old(r.devices[j].Value())
      ensures r.devices[j].Footprint() == old(r.devices[j].Footprint())
    {
      DeviceKept(r.devices[j]);
    }
  }

  lemma ProbedOnce(o: Oracle, link: NonEmpty)
    ensures forall id: nat :: ProbeDev(o, NewDev(id, link)).state != Synthetic
    ensures forall id: nat, devname :: FindVol(ProbeDev(o, NewDev(id, link)).vols, devname) == None
  {
  }

  /** All ways in which a link can be registered. */
  lemma NewEntryCases(o: Oracle, devs: Registry, cursor: nat, link: NonEmpty)
    requires cursor <= MAX_ID && !Blocked(o, devs, link)
    ensures var e := DeviceManager.NewEntry(o, devs, cursor, link);
            var devname, number := Devname(o, link), LinkNumber(o, link);
            var info := o.volumeInfo(devname);
            && (number < 0 ==> e == Entry(devs, cursor, None, None, false))
            && (number > 0 ==>
                  var known := FindDev(devs, RootName(link));
                  if info == None then e == Entry(devs, cursor, known, None, false)
                  else
                    && (known == None ==> FreeIds(devs.Keys) != {})
                    && var id := if known == None then FreshId(devs.Keys, cursor) else known.value;
                       var (d, r) := AddVol(Before(devs, id, RootName(link)), devname, info.value);
                       e == Entry(devs[id := d], if known == None then id else cursor, Some(id), r, false))
            && (number == 0 ==>
                  var known := FindDev(devs, link);
                  if known.Some? then
                    var d := devs[known.value];
                    var p := if d.state == Synthetic then ProbeDev(o, d) else d;
                    e == Entry(devs[known.value := p], cursor, known, FindVol(p.vols, devname),
                               d.state == Synthetic && p.state == Probed)
                  else
                    && FreeIds(devs.Keys) != {}
                    && var id := FreshId(devs.Keys, cursor);
                       var p := ProbeDev(o, NewDev(id, link));
                       if info == None then e == Entry(devs[id := p], id, Some(id), None, p.state == Probed)
                       else
                         var (d, r) := AddVol(p, devname, info.value);
                         e == Entry(devs[id := d], id, Some(id), r, p.state == Probed))
  {
    hide FreshId, ProbeDev, AddVol, FindVol;
  }

  lemma FoundDev(devs: Registry, link: string, keys: seq<nat>, k: nat)
    requires Sorted(keys) && k < |keys| && forall id :: id in keys <==> id in devs
    requires devs[keys[k]].devlink == link && forall j :: 0 <= j < k ==> devs[keys[j]].devlink != link
    ensures FindDev(devs, link) == Some(keys[k])
  {
    var s := WithLink(devs, link);
    forall id | id in s ensures keys[k] <= id {
      assert id in keys;
    }
    assert keys[k] in s;
    assert IsLeast(s, keys[k]);
  }
}
