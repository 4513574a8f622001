/** What lies outside the daemon: the answers of the operating system and of the
    tools the daemon runs, the part of the file system it works on, and the
    signals it has sent. */
module Platform {
  import opened Option
  import opened Text

  type NonEmpty = s: string | s != "" witness "x"

  /** What `udevadm` tells about a volume; without a file system there is none. */
  datatype VolumeInfo = VolumeInfo(uuid: string, labelText: string, fstype: string)

  /** What `udevadm` tells about a whole device. */
  datatype DeviceInfo = DeviceInfo(isUsb: bool, uuid: string, port: string)

  /** All answers the daemon may get while it handles one event. */
  datatype Oracle = Oracle(
    resolve: string -> Option<NonEmpty>,           // os_resolve_symlink()
    volumeInfo: string -> Option<VolumeInfo>,      // get_volume_information()
    deviceInfo: string -> Option<DeviceInfo>,      // get_device_information()
    mkdirOk: string -> bool,
    rmdirOk: (string, nat) -> bool,                // by path and attempt
    mountOk: (string, string) -> bool,             // by block device and path
    umountOk: string -> bool,
    symlinkOk: string -> bool,
    unlinkOk: string -> bool,
    isDirectory: string -> bool,
    isMountpoint: string -> bool,
    linksOf: string -> (string, string))           // map_mountpoint_path_to_device_links()

  /** Directories and mounts below the working directory, and the names in use
      in the symlink directory together with the targets of the links. */
  datatype Fs = Fs(dirs: set<string>, mounts: map<string, string>, links: map<string, string>)

  datatype Signal =
    | NewDevice(id: int, name: string, uuid: string, path: string, port: string)
    | NewVolume(index: int, labelText: string, path: string, id: int, uuid: string)
    | DeviceWillBeRemoved(id: int, uuid: string, path: string)
    | DeviceRemoved(id: int, uuid: string, path: string)

  datatype World = World(fs: Fs, log: seq<Signal>)

  datatype Config = Config(workdir: string, linkdir: string)

  /** `q` is a path below the directory `p`. */
  predicate Beneath(p: string, q: string) {
    p + "/" <= q
  }

  /** A directory can be removed if it is empty and nothing is mounted on it. */
  predicate Removable(fs: Fs, p: string) {
    p in fs.dirs && p !in fs.mounts && forall q :: q in fs.dirs ==> !Beneath(p, q)
  }

  predicate CanMkdir(o: Oracle, fs: Fs, p: string) {
    o.mkdirOk(p) && p !in fs.dirs
  }

  function Mkdir(o: Oracle, fs: Fs, p: string): Fs {
    if CanMkdir(o, fs, p) then fs.(dirs := fs.dirs + {p}) else fs
  }

  const RMDIR_ATTEMPTS: nat := 21

  /** Removing a directory, trying up to 21 times. */
  ghost function RmdirRetrying(o: Oracle, fs: Fs, p: string): Fs {
    if Removable(fs, p) && exists k: nat :: k < RMDIR_ATTEMPTS && o.rmdirOk(p, k)
    then fs.(dirs := fs.dirs - {p}) else fs
  }

  /** Removing all directories directly inside `p`, trying once each. */
  ghost function RmdirChildren(o: Oracle, fs: Fs, p: string): Fs {
    fs.(dirs := set q | q in fs.dirs && !(IsChild(p, q) && Removable(fs, q) && o.rmdirOk(q, 0)))
  }

  predicate IsChild(p: string, q: string) {
    Beneath(p, q) && forall k :: |p| < k < |q| ==> q[k] != '/'
  }

  function Umount(o: Oracle, fs: Fs, p: string): Fs {
    if o.umountOk(p) then fs.(mounts := fs.mounts - {p}) else fs
  }

  function Unlink(o: Oracle, fs: Fs, n: string): Fs {
    if o.unlinkOk(n) then fs.(links := fs.links - {n}) else fs
  }

  /** Directories and mounts can be given back: that succeeds eventually. */
  ghost predicate PathsGoBack(o: Oracle) {
    forall p: string :: o.umountOk(p) && exists k: nat :: k < RMDIR_ATTEMPTS && o.rmdirOk(p, k)
  }

  /** Links can be given back. */
  ghost predicate LinksGoBack(o: Oracle) {
    forall n: string :: o.unlinkOk(n)
  }

  function ContainerPath(workdir: string, id: nat): string {
    workdir + "/" + Decimal(id)
  }

  function MountPath(workdir: string, id: nat, index: int): string {
    ContainerPath(workdir, id) + "/" + DecimalInt(index)
  }
}
