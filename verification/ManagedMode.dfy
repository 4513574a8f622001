/** The shape of devices in managed mode, and what single operations do to
    devices of that shape. */
module ManagedMode {
  import opened Option
  import opened Text
  import opened Platform
  import opened AutoDir
  import opened Devices
  import opened Automounter

  /** Nothing in the file system belongs to the volume. */
  predicate Idle(v: Vol) {
    v.mp == NO_MOUNTPOINT && v.symlink == ""
  }

  /** Volume `i` of `d` is waiting, or it has been mounted below the container, or
      that has failed. It may wait on an open device only while it is in `todo`. */
  predicate VolShape(cfg: Config, d: Dev, i: int, todo: set<int>)
    requires i in d.vols
  {
    var v := d.vols[i];
    if !d.dir.created then v.state == Pending && Idle(v)
    else
      || (v.state == Pending && Idle(v) && i in todo)
      || (v.state == Mounted && v.mp == Mp(Dir(MountPath(cfg.workdir, d.id, i), true, false), true))
      || (v.state == Unusable && Idle(v))
  }

  ghost predicate DevShape(cfg: Config, d: Dev, todo: set<int>) {
    && !d.dir.external
    && (d.dir.created ==> d.state == Ok)
    && (if d.state == Ok then d.dir.path == ContainerPath(cfg.workdir, d.id) else d.dir.path == "")
    && (forall i :: i in d.vols ==> VolShape(cfg, d, i, todo))
  }

  /** The shape of every device between two events. */
  ghost predicate Settled(cfg: Config, d: Dev) {
    DevShape(cfg, d, {}) && (d.state == Probed ==> d.vols == map[])
  }

  /** All ways in which mounting a waiting volume can end. */
  ghost predicate MountOutcome(cfg: Config, o: Oracle, v: Vol, m: string, fs: Fs, v': Vol, fs': Fs) {
    if CanMkdir(o, fs, m) && o.mountOk(v.devname, m) then
      && v' == v.(state := Mounted, mp := Mp(Dir(m, true, false), true), symlink := v'.symlink)
      && fs'.dirs == fs.dirs + {m} && fs'.mounts == fs.mounts[m := v.devname]
      && (if v'.symlink == "" then fs'.links == fs.links
          else v'.symlink !in fs.links && fs'.links == fs.links[v'.symlink := m])
    else
      && v' == v.(state := Unusable)
      && fs' == if CanMkdir(o, fs, m) then RmdirRetrying(o, Mkdir(o, fs, m), m) else fs
  }

  lemma MountManagedOutcome(cfg: Config, o: Oracle, v: Vol, container: string, fs: Fs)
    requires v.state == Pending && Idle(v)
    ensures var (v', fs') := MountManaged(cfg, o, v, container, fs);
            MountOutcome(cfg, o, v, container + "/" + DecimalInt(v.index), fs, v', fs')
  {
    hide RmdirRetrying;
  }

  lemma OpenContainerOutcome(cfg: Config, o: Oracle, d: Dev, w: World)
    requires d.dir == NO_DIR
    ensures var c := ContainerPath(cfg.workdir, d.id);
            var (d', w') := OpenContainer(cfg, o, d, w);
            && d' == d.(dir := Dir(c, CanMkdir(o, w.fs, c), false))
            && w'.fs == Mkdir(o, w.fs, c)
            && w'.log == w.log + if CanMkdir(o, w.fs, c) then [DeviceSignal(d')] else []
  {
  }

  /** The shape of the device that a managed event has registered `vol` on. */
  ghost predicate EntryShape(cfg: Config, d: Dev, vol: Option<int>, probed: bool) {
    && DevShape(cfg, d, if vol.Some? then {vol.value} else {})
    && (probed ==> d.state == Probed)
  }
}
