/** Devices and volumes as objects that are updated in place. */
module DeviceObjects {
  import opened Option
  import opened Sets
  import opened Text
  import opened Platform
  import opened SystemCalls
  import opened AutoDir
  import opened DirectoryObjects
  import opened Devices

  class Volume {
    const device: Device
    const index: int
    var state: VolumeState
    const labelText: string
    const fstype: string
    const devname: NonEmpty
    const uuid: string
    const mountpoint: Mountpoint
    const symlinkDirectory: string
    var symlink: string

    /** The objects that make up the volume. */
    ghost function Footprint(): set<object> {
      {this, mountpoint, mountpoint.directory}
    }

    ghost predicate Valid()
      reads Footprint()
    {
      mountpoint.owner == this && mountpoint.directory.owner == mountpoint
    }

    ghost function Value(): Vol
      reads Footprint()
    {
      Vol(index, state, labelText, fstype, devname, uuid, mountpoint.Value(), symlink)
    }

    /** The new volume holds a reference to its device. */
    constructor (device: Device, index: int, labelText: string, uuid: string, fstype: string, devname: NonEmpty,
                 symlinkDirectory: string)
      modifies device`references
      ensures device.references == old(device.references) + 1
      ensures Valid() && fresh(Footprint())
      ensures this.device == device && this.index == index && this.symlinkDirectory == symlinkDirectory
      ensures Value() == Vol(index, Pending, labelText, fstype, devname, uuid, NO_MOUNTPOINT, "")
    {
      this.device, this.index, this.labelText, this.uuid := device, index, labelText, uuid;
      this.fstype, this.devname, this.symlinkDirectory := fstype, devname, symlinkDirectory;
      mountpoint := new Mountpoint("");
      state, symlink := Pending, "";
      new;
      mountpoint.owner := this;
      device.references := device.references + 1;
    }

    method MkMountpointDirectory(sys: System, o: Oracle) returns (ok: bool)
      requires Valid()
      modifies Footprint(), sys`fs
      ensures Valid()
      ensures (Value(), sys.fs, ok) == MakeMountpoint(o, old(Value()), old(device.container.absolutePath), old(sys.fs))
    {
      mountpoint.Set(sys, o, device.container.absolutePath + "/" + DecimalInt(index));
      ok := mountpoint.Create(sys, o);
    }

    method SetUnmanagedMountpointDirectory(sys: System, o: Oracle)
      requires Valid()
      modifies Footprint(), sys`fs
      ensures Valid()
      ensures var (m, fs) := SetMp(o, old(Value()).mp, old(device.container.absolutePath), old(sys.fs));
              Value() == old(Value()).(mp := m) && sys.fs == fs
    {
      mountpoint.Set(sys, o, device.container.absolutePath);
    }

    /** Mounts the volume and links to it from the first unused name. */
    method Mount(ghost cfg: Config, sys: System, o: Oracle) returns (ok: bool)
      requires Valid() && cfg.linkdir == symlinkDirectory
      modifies Footprint(), sys`fs
      ensures Valid()
      ensures (Value(), sys.fs, ok) == MountVol(cfg, o, old(Value()), old(sys.fs))
    {
      ok := mountpoint.Mount(sys, o, devname);
      if !ok {
        return;
      }
      if symlinkDirectory != "" {
        var linkabspath := symlinkDirectory + "/" + labelText;
        ghost var names := sys.fs.links.Keys;
        ghost var first := linkabspath;
        ghost var mounted := Value();
        ghost var fs := sys.fs;
        var i := 2;
        while linkabspath in sys.fs.links
          invariant Valid() && Value() == mounted && sys.fs == fs
          invariant FreeLinkName(names, linkabspath, i) == FreeLinkName(names, first, 2)
          decreases |LongerThan(names, |linkabspath|)|
        {
          FewerLonger(names, linkabspath, linkabspath + "-" + Decimal(i));
          linkabspath := linkabspath + "-" + Decimal(i);
          i := i + 1;
        }
        var linked := sys.Symlink(o, linkabspath, mountpoint.directory.absolutePath);
        if linked {
          symlink := linkabspath;
        }
      }
    }

    method SetMounted()
      requires Valid() && state == Pending
      modifies `state
      ensures Valid() && Value() == old(Value()).(state := Mounted)
    {
      state := Mounted;
    }

    method SetUnusable(sys: System, o: Oracle)
      requires Valid() && state == Pending
      modifies Footprint(), sys`fs
      ensures Valid() && (Value(), sys.fs) == EndVol(o, old(Value()), Unusable, old(sys.fs))
    {
      SetEolStateAndCleanup(sys, o, Unusable);
    }

    method SetEolStateAndCleanup(sys: System, o: Oracle, eol: VolumeState)
      requires Valid()
      modifies Footprint(), sys`fs
      ensures Valid() && (Value(), sys.fs) == EndVol(o, old(Value()), eol, old(sys.fs))
    {
      state := eol;
      mountpoint.Cleanup(sys, o);
      if symlink != "" {
        var ok := sys.FileDelete(o, symlink);
        if ok {
          symlink := "";
        }
      }
    }
  }

  class Device {
    const id: nat
    const devlinkName: string
    var deviceName: string
    const container: Directory
    var volumes: map<int, Volume>
    var state: DeviceState
    var usbPort: string
    var uuid: string
    /** How many shared pointers to the device there are. */
    var references: int
    /** Where the links to all the volumes are. */
    ghost const linkdir: string

    /** The objects that make up the volumes. */
    ghost function Parts(): (parts: set<object>)
      reads `volumes
      ensures this !in parts && forall x :: x in parts ==> x is Volume || x is Mountpoint || x is Directory
    {
      set i, x | i in volumes && x in volumes[i].Footprint() :: x
    }

    ghost function Footprint(): set<object>
      reads `volumes
    {
      {this, container} + Parts()
    }

    ghost function Vols(): map<int, Vol>
      reads `volumes, Parts()
    {
      map i | i in volumes :: volumes[i].Value()
    }

    /** `vol` is the volume with index `r`, null if there is none. */
    ghost predicate IsVolume(vol: Volume?, r: Option<int>)
      reads `volumes
    {
      if r == None then vol == null else r.value in volumes && vol == volumes[r.value]
    }

    /** The parts of the device belong to it and to no other. */
    ghost predicate Valid()
      reads Footprint()
    {
      && container.owner == this
      && forall i :: i in volumes ==>
           && volumes[i].device == this && volumes[i].index == i && volumes[i].symlinkDirectory == linkdir
           && volumes[i].Valid()
    }

    ghost function Value(): Dev
      reads Footprint()
    {
      Dev(id, devlinkName, deviceName, container.Value(), Vols(), state, usbPort, uuid, references)
    }

    constructor (o: Oracle, id: nat, devlink: string, isReal: bool, ghost linkdir: string)
      ensures Valid() && fresh(container) && volumes == map[] && this.id == id && this.linkdir == linkdir
      ensures Value() == if isReal then ProbeDev(o, NewDev(id, devlink)) else NewDev(id, devlink)
    {
      this.id, devlinkName, deviceName, this.linkdir := id, devlink, "", linkdir;
      container := new Directory("");
      volumes, state, usbPort, uuid, references := map[], Synthetic, "", "", 1;
      new;
      hide ProbeDev;
      container.owner := this;
      assert Vols() == map[];
      if isReal {
        var ok := DoProbe(o);
      }
    }

    method Probe(o: Oracle) returns (ok: bool)
      requires Valid()
      modifies `deviceName, `state, `usbPort, `uuid
      ensures Valid()
      ensures Value() == if old(Value()).state == Synthetic then ProbeDev(o, old(Value())) else old(Value())
      ensures ok <==> old(Value()).state == Synthetic && Value().state == Probed
    {
      if state == Synthetic {
        ok := DoProbe(o);
      } else {
        ok := false;
      }
    }

    method DoProbe(o: Oracle) returns (ok: bool)
      requires Valid() && state == Synthetic
      modifies `deviceName, `state, `usbPort, `uuid
      ensures Valid() && Value() == ProbeDev(o, old(Value()))
      ensures ok <==> state == Probed
    {
      deviceName := BaseName(devlinkName);
      if deviceName == "" || o.deviceInfo(devlinkName) == None {
        state := Broken;
        PartsKept(this);
        return false;
      }
      var info := o.deviceInfo(devlinkName).value;
      if !info.isUsb {
        state := Broken;
        PartsKept(this);
        return false;
      }
      usbPort := info.port;
      uuid := info.uuid;
      state := Probed;
      ok := true;
      PartsKept(this);
    }

    method LookupVolumeByDevname(devname: string) returns (vol: Volume?)
      requires Valid()
      ensures IsVolume(vol, FindVol(Value().vols, devname))
    {
      var todo := volumes.Keys;
      while todo != {}
        invariant todo <= volumes.Keys
        invariant forall i, j :: i in volumes && i !in todo && j in todo ==> i < j
        invariant forall i :: i in volumes && i !in todo ==> volumes[i].devname != devname
        decreases todo
      {
        var i := LeastOf(todo);
        if volumes[i].devname == devname {
          assert Vols()[i].devname == devname;
          assert IsLeast((set k | k in Vols() && Vols()[k].devname == devname), i);
          return volumes[i];
        }
        todo := todo - {i};
      }
      vol := null;
    }

    /** A volume whose index is taken is destroyed and gives up its reference. */
    method AddVolume(vol: Volume) returns (ok: bool)
      requires Valid() && vol.Valid() && vol.device == this && vol.symlinkDirectory == linkdir
      modifies `volumes, `references
      ensures Valid() && ok == (vol.index !in old(volumes)) && Footprint() <= old(Footprint()) + vol.Footprint()
      ensures volumes == if ok then old(volumes)[vol.index := vol] else old(volumes)
      ensures Value() == if ok then old(Value()).(vols := old(Vols())[vol.index := vol.Value()])
                         else old(Value()).(refs := old(references) - 1)
    {
      hide Device.Valid, Device.Vols;
      VolumesFit(this);
      ok := vol.index !in volumes;
      if ok {
        volumes := volumes[vol.index := vol];
        VolumeAdded(this, vol);
      } else {
        references := references - 1;
        PartsKept(this);
      }
    }

    /** Creates a volume unless its block device or its index is known already. */
    method AddOrGetVolume(devname: NonEmpty, info: VolumeInfo, symlinkDirectory: string) returns (vol: Volume?)
      requires Valid() && symlinkDirectory == linkdir
      modifies `volumes, `references
      ensures Valid() && fresh(Footprint() - old(Footprint()))
      ensures Value() == AddVol(old(Value()), devname, info).0
      ensures IsVolume(vol, AddVol(old(Value()), devname, info).1)
    {
      hide FindVol, VolumeIndex, Device.Valid, Device.Value;
      label before:
      vol := LookupVolumeByDevname(devname);
      DeviceKept@before(this);
      if vol == null {
        vol := AddNewVolume(devname, info, symlinkDirectory);
      }
    }

    method AddNewVolume(devname: NonEmpty, info: VolumeInfo, symlinkDirectory: string) returns (vol: Volume?)
      requires Valid() && symlinkDirectory == linkdir
      modifies `volumes, `references
      ensures Valid() && fresh(Footprint() - old(Footprint()))
      ensures var d := old(Value());
              var i := VolumeIndex(devname);
              if i in d.vols then Value() == d && vol == null
              else Value() == d.(vols := d.vols[i := NewVol(devname, info)], refs := d.refs + 1)
                   && i in volumes && volumes[i] == vol
    {
      hide VolumeIndex, Device.Valid, Device.Vols;
      VolumesFit(this);
      var labelText := if info.labelText != "" then info.labelText else info.fstype;
      var v := new Volume(this, VolumeIndex(devname), labelText, info.uuid, info.fstype, devname, symlinkDirectory);
      PartsKept(this);
      var ok := AddVolume(v);
      vol := if ok then v else null;
    }

    /** Destroys the volumes; each of them gives up its reference to the device. */
    method DropVolumes(sys: System, o: Oracle)
      requires Valid()
      modifies Footprint(), sys`fs
      ensures Valid() && (Value(), sys.fs) == DropVols(o, old(Value()), old(sys.fs)) && volumes == map[]
    {
      hide DropVols, Least, EndVol;
      var keys := Ascending(volumes.Keys);
      DropInOrder(sys, o, keys);
    }

    method DropInOrder(sys: System, o: Oracle, keys: seq<int>)
      requires Valid() && Sorted(keys) && forall i :: i in volumes.Keys <==> i in keys
      modifies Footprint(), sys`fs
      ensures Valid() && (Value(), sys.fs) == DropVols(o, old(Value()), old(sys.fs)) && volumes == map[]
    {
      hide DropVols, Least, EndVol;
      var k := 0;
      while k < |keys|
        invariant k <= |keys| && Valid() && Footprint() <= old(Footprint())
        invariant DropVols(o, Value(), sys.fs) == DropVols(o, old(Value()), old(sys.fs))
        invariant forall i :: i in volumes.Keys <==> i in keys[k..]
      {
        NextIsLeast(keys, k, volumes.Keys);
        DropFirst(sys, o, keys[k]);
        k := k + 1;
      }
      NoneLeft(keys, volumes.Keys);
      DropNothing(o, Value(), sys.fs);
    }

    /** Erases the first volume, after which the others are still to be erased. */
    method DropFirst(sys: System, o: Oracle, i: int)
      requires Valid() && i in volumes && i == Least(volumes.Keys)
      modifies Footprint(), sys`fs
      ensures Valid() && volumes.Keys == old(volumes.Keys) - {i} && Footprint() <= old(Footprint())
      ensures DropVols(o, Value(), sys.fs) == DropVols(o, old(Value()), old(sys.fs))
    {
      hide DropVols, Least, EndVol;
      ghost var d, fs := Value(), sys.fs;
      assert d.vols.Keys == volumes.Keys;
      DropVolsStep(o, d, fs, i);
      DropVolume(sys, o, i);
      assert Value() == d.(vols := d.vols - {i}, refs := d.refs - 1);
      assert sys.fs == EndVol(o, d.vols[i], Unusable, fs).1;
    }

    /** Erases a volume from the map, which ends its life. */
    method DropVolume(sys: System, o: Oracle, i: int)
      requires Valid() && i in volumes
      modifies Footprint(), sys`fs
      ensures Valid() && volumes.Keys == old(volumes.Keys) - {i} && Footprint() <= old(Footprint())
      ensures var d := old(Value());
              Value() == d.(vols := d.vols - {i}, refs := d.refs - 1)
                && sys.fs == EndVol(o, d.vols[i], Unusable, old(sys.fs)).1
    {
      hide EndVol;
      ghost var d := Value();
      EndVolume(sys, o, i);
      DropUpdated(d.vols, i, Vols()[i]);
      EraseVolume(i);
    }

    method EndVolume(sys: System, o: Oracle, i: int)
      requires Valid() && i in volumes
      modifies volumes[i].Footprint(), sys`fs
      ensures Valid() && volumes == old(volumes)
      ensures var (v, fs) := EndVol(o, old(Vols())[i], Unusable, old(sys.fs));
              Value() == old(Value()).(vols := old(Vols())[i := v]) && sys.fs == fs
    {
      hide EndVol;
      VolumesApart(this, i);
      volumes[i].SetEolStateAndCleanup(sys, o, Unusable);
      VolumeChanged(this, i);
    }

    method EraseVolume(i: int)
      requires Valid() && i in volumes
      modifies `volumes, `references
      ensures Valid() && volumes.Keys == old(volumes.Keys) - {i} && Footprint() <= old(Footprint())
      ensures Value() == old(Value()).(vols := old(Vols()) - {i}, refs := old(references) - 1)
    {
      assert forall j :: j in volumes ==> this !in volumes[j].Footprint();
      volumes := volumes - {i};
      references := references - 1;
      assert Vols() == old(Vols()) - {i};
    }

    method MkWorkingDirectory(sys: System, o: Oracle, path: string) returns (ok: bool)
      requires Valid() && path != "" && state == Ok
      modifies container, sys`fs
      ensures Valid()
      ensures if path == old(container.absolutePath) then Value() == old(Value()) && sys.fs == old(sys.fs) && ok
              else var (dir, fs, made) := CreateDir(o, Dir(path, false, false), old(sys.fs));
                   Value() == old(Value()).(dir := dir) && sys.fs == fs && ok == made
    {
      hide CreateDir;
      if path == container.absolutePath {
        return true;
      }
      ContainerApart(this);
      container.Assign(path);
      ok := container.Create(sys, o);
      PartsKept(this);
    }

    method SetMountpointDirectory(path: string)
      requires Valid() && path != "" && state == Ok
      modifies container
      ensures Valid() && Value() == old(Value()).(dir := Dir(path, true, true))
    {
      ContainerApart(this);
      container.Assign(path);
      container.SetExternallyManaged();
      PartsKept(this);
    }

    /** The destructor. */
    method Destroy(sys: System, o: Oracle)
      requires Valid() && volumes == map[]
      modifies Footprint(), sys`fs
      ensures sys.fs == DestroyDev(o, old(Value()), old(sys.fs))
    {
      if container.isCreated && !container.isExternallyManaged {
        sys.RemoveResidualDirectories(o, container.absolutePath);
      }
      container.Cleanup(sys, o);
    }
  }

  /** What belongs to one volume belongs to nothing else. */
  lemma VolumesApart(d: Device, i: int)
    requires d.Valid() && i in d.volumes
    ensures d !in d.volumes[i].Footprint() && d.container !in d.volumes[i].Footprint()
    ensures forall j :: j in d.volumes && j != i ==> d.volumes[j].Footprint() !! d.volumes[i].Footprint()
  {
    assert d.volumes[i].Valid();
    forall j | j in d.volumes && j != i ensures d.volumes[j].Footprint() !! d.volumes[i].Footprint() {
      assert d.volumes[j].Valid();
      assert d.volumes[j].index == j && d.volumes[i].index == i;
    }
  }

  lemma DropNothing(o: Oracle, d: Dev, fs: Fs)
    requires d.vols.Keys == {}
    ensures DropVols(o, d, fs) == (d, fs)
  {
  }

  lemma DropVolsStep(o: Oracle, d: Dev, fs: Fs, i: int)
    requires i in d.vols && i == Least(d.vols.Keys)
    ensures DropVols(o, d, fs) ==
            DropVols(o, d.(vols := d.vols - {i}, refs := d.refs - 1), EndVol(o, d.vols[i], Unusable, fs).1)
  {
    hide EndVol;
  }

  lemma FieldsOf(d: Device)
    requires d.Valid()
    ensures var v := d.Value();
            && v.id == d.id && v.dir == d.container.Value()
            && v.uuid == d.uuid && v.state == d.state && v.refs == d.references
  {
  }

  lemma ContainerApart(d: Device)
    requires d.Valid()
    ensures forall i :: i in d.volumes ==> d.container !in d.volumes[i].Footprint()
  {
    assert forall i :: i in d.volumes ==> d.volumes[i].Valid();
  }

  lemma VolumesFit(d: Device)
    requires d.Valid()
    ensures d.container.owner == d && d.Vols().Keys == d.volumes.Keys
    ensures forall i :: i in d.volumes ==> d !in d.volumes[i].Footprint()
  {
  }

  /** A new volume, and nothing else. */
  twostate lemma VolumeAdded(d: Device, new vol: Volume)
    requires old(d.Valid()) && d.volumes == old(d.volumes)[vol.index := vol] && d.container.owner == d
    requires vol.index !in old(d.volumes) && vol.device == d && vol.symlinkDirectory == d.linkdir && vol.Valid()
    requires forall i :: i in old(d.volumes) ==> unchanged(d.volumes[i].Footprint())
    ensures d.Valid() && d.Vols() == old(d.Vols())[vol.index := vol.Value()]
  {
    assert forall i :: i in old(d.volumes) ==> d.volumes[i].Value() == old(d.volumes[i].Value());
  }

  /** Volume `i` changes, and nothing else. */
  twostate lemma VolumeChanged(d: Device, new i: int)
    requires old(d.Valid()) && i in d.volumes && d.volumes == old(d.volumes)
    requires d.volumes[i].Valid() && d.container.owner == d
    requires forall j :: j in d.volumes && j != i ==> unchanged(d.volumes[j].Footprint())
    ensures d.Valid() && d.Vols() == old(d.Vols())[i := d.volumes[i].Value()]
  {
    assert forall j :: j in d.volumes && j != i ==> d.volumes[j].Value() == old(d.volumes[j].Value());
  }

  /** A device none of whose objects changes stays the same. */
  twostate lemma DeviceKept(d: Device)
    requires old(d.Valid()) && unchanged(old(d.Footprint()))
    ensures d.Valid() && d.Value() == old(d.Value()) && d.Footprint() == old(d.Footprint())
  {
  }

  /** As long as its parts stay the same, the volumes do. */
  twostate lemma PartsKept(d: Device)
    requires old(d.Valid()) && d.volumes == old(d.volumes) && d.container.owner == d
    requires forall i :: i in d.volumes ==> unchanged(d.volumes[i].Footprint())
    ensures d.Valid() && d.Vols() == old(d.Vols())
  {
    assert forall i :: i in d.volumes ==> d.volumes[i].Value() == old(d.volumes[i].Value());
  }
}
