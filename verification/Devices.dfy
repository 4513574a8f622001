/** Block devices and the volumes they contain. */
module Devices {
  import opened Option
  import opened Sets
  import opened Text
  import opened Names
  import opened Platform
  import opened AutoDir

  datatype DeviceState = Synthetic | Probed | Ok | Rejected | Broken

  datatype VolumeState = Pending | Mounted | Unusable | Refused | Removed

  /** Value of a `Volume`. */
  datatype Vol = Vol(index: int, state: VolumeState, labelText: string, fstype: string,
                     devname: string, uuid: string, mp: Mp, symlink: string)

  /** Value of a `Device`; `refs` counts the strong references to it. */
  datatype Dev = Dev(id: nat, devlink: string, name: string, dir: Dir, vols: map<int, Vol>,
                     state: DeviceState, port: string, uuid: string, refs: int)

  // ---- Volumes ---------------------------------------------------------------

  function VolumeIndex(devname: string): int
    requires devname != ""
  {
    if VolumeNumber(devname) > 0 then VolumeNumber(devname) else -1
  }

  function NewVol(devname: string, info: VolumeInfo): Vol
    requires devname != ""
  {
    Vol(VolumeIndex(devname), Pending, if info.labelText != "" then info.labelText else info.fstype,
        info.fstype, devname, info.uuid, NO_MOUNTPOINT, "")
  }

  /** End of life of a volume: its mount, its mountpoint and its symlink go. */
  ghost function EndVol(o: Oracle, v: Vol, st: VolumeState, fs: Fs): (Vol, Fs) {
    var (m, fs1) := CleanMp(o, v.mp, fs);
    if v.symlink != "" then
      (v.(state := st, mp := m, symlink := if o.unlinkOk(v.symlink) then "" else v.symlink), Unlink(o, fs1, v.symlink))
    else
      (v.(state := st, mp := m), fs1)
  }

  ghost function MakeMountpoint(o: Oracle, v: Vol, container: string, fs: Fs): (Vol, Fs, bool) {
    var (m, fs1) := SetMp(o, v.mp, container + "/" + DecimalInt(v.index), fs);
    var (d, fs2, ok) := CreateDir(o, m.dir, fs1);
    (v.(mp := m.(dir := d)), fs2, ok)
  }

  ghost function LongerThan(names: set<string>, n: nat): set<string> {
    set s | s in names && |s| >= n
  }

  /** At the end of its life a volume has no mountpoint any more. */
  lemma EndsUnmounted(o: Oracle, v: Vol, st: VolumeState, fs: Fs)
    ensures var v' := EndVol(o, v, st, fs).0;
            v'.state == st && !v'.mp.mounted && !v'.mp.dir.created && v'.mp.dir.path == ""
  {
  }

  /** At the end of its life a volume forgets its link exactly if the link is gone. */
  lemma LinkForgottenIffGone(o: Oracle, v: Vol, st: VolumeState, fs: Fs)
    requires v.symlink in fs.links
    ensures var (v', fs') := EndVol(o, v, st, fs);
            && (v.symlink != "" ==> (v'.symlink == "" <==> v.symlink !in fs'.links))
            && (v'.symlink == "" || v'.symlink == v.symlink) && v'.state == st
  {
  }

  /** The first unused name in the sequence of candidates, each of which is its
      predecessor with another number appended. */
  ghost function FreeLinkName(names: set<string>, candidate: string, i: nat): (name: string)
    ensures name !in names && candidate <= name
    decreases |LongerThan(names, |candidate|)|
  {
    if candidate !in names then candidate
    else
      var next := candidate + "-" + Decimal(i);
      FewerLonger(names, candidate, next);
      FreeLinkName(names, next, i + 1)
  }

  lemma FewerLonger(names: set<string>, candidate: string, next: string)
    requires candidate in names && |next| > |candidate|
    ensures |LongerThan(names, |next|)| < |LongerThan(names, |candidate|)|
  {
    assert candidate in LongerThan(names, |candidate|);
    SubsetSize(LongerThan(names, |next|), LongerThan(names, |candidate|) - {candidate});
  }

  ghost function MountVol(cfg: Config, o: Oracle, v: Vol, fs: Fs): (Vol, Fs, bool) {
    var (m, fs1, ok) := MountMp(o, v.mp, v.devname, fs);
    if !ok then (v, fs1, false)
    else if cfg.linkdir == "" then (v.(mp := m), fs1, true)
    else
      var name := FreeLinkName(fs1.links.Keys, cfg.linkdir + "/" + v.labelText, 2);
      if o.symlinkOk(name)
      then (v.(mp := m, symlink := name), fs1.(links := fs1.links[name := m.dir.path]), true)
      else (v.(mp := m), fs1, true)
  }

  // ---- Devices ---------------------------------------------------------------

  function NewDev(id: nat, devlink: string): Dev {
    Dev(id, devlink, "", NO_DIR, map[], Synthetic, "", "", 1)
  }

  function ProbeDev(o: Oracle, d: Dev): Dev {
    var name := BaseName(d.devlink);
    if name == "" || o.deviceInfo(d.devlink) == None || !o.deviceInfo(d.devlink).value.isUsb
    then d.(name := name, state := Broken)
    else d.(name := name, state := Probed, port := o.deviceInfo(d.devlink).value.port,
            uuid := o.deviceInfo(d.devlink).value.uuid)
  }

  ghost function FindVol(vols: map<int, Vol>, devname: string): (r: Option<int>)
    ensures r.Some? ==> r.value in vols && vols[r.value].devname == devname
    ensures r == None ==> forall i :: i in vols ==> vols[i].devname != devname
  {
    var s := set i | i in vols && vols[i].devname == devname;
    assert forall i :: i in vols && vols[i].devname == devname ==> i in s;
    if s == {} then None else Some(Least(s))
  }

  /** Dropping volumes in ascending order of their indices. */
  ghost function DropVols(o: Oracle, d: Dev, fs: Fs): (Dev, Fs)
    decreases |d.vols|
  {
    if d.vols == map[] then (d, fs)
    else
      var i := Least(d.vols.Keys);
      var fs1 := EndVol(o, d.vols[i], Unusable, fs).1;
      assert |d.vols - {i}| < |d.vols| by { assert (d.vols - {i}).Keys == d.vols.Keys - {i}; }
      DropVols(o, d.(vols := d.vols - {i}, refs := d.refs - 1), fs1)
  }

  /** What the destructor of a device without volumes does. */
  ghost function DestroyDev(o: Oracle, d: Dev, fs: Fs): Fs {
    var fs1 := if d.dir.created && !d.dir.external then RmdirChildren(o, fs, d.dir.path) else fs;
    CleanDir(o, d.dir, fs1).1
  }

  /** Adding a volume unless its block device or its index is known already. */
  ghost function AddVol(d: Dev, devname: string, info: VolumeInfo): (r: (Dev, Option<int>))
    requires devname != ""
    ensures r.1.Some? ==> r.1.value in r.0.vols
    ensures r.0 == d.(vols := r.0.vols, refs := r.0.refs)
  {
    if FindVol(d.vols, devname).Some? then (d, FindVol(d.vols, devname))
    else if VolumeIndex(devname) in d.vols then (d, None)
    else (d.(vols := d.vols[VolumeIndex(devname) := NewVol(devname, info)], refs := d.refs + 1),
          Some(VolumeIndex(devname)))
  }
}
