/** Directories and mountpoints which clean up behind themselves. */
module AutoDir {
  import opened Platform

  /** Value of a `Directory`. */
  datatype Dir = Dir(path: string, created: bool, external: bool)

  /** Value of a `Mountpoint`. */
  datatype Mp = Mp(dir: Dir, mounted: bool)

  const NO_DIR := Dir("", false, false)
  const NO_MOUNTPOINT := Mp(NO_DIR, false)

  function CreateDir(o: Oracle, d: Dir, fs: Fs): (Dir, Fs, bool) {
    if d.created || d.path == "" then (d, fs, false)
    else (d.(created := CanMkdir(o, fs, d.path)), Mkdir(o, fs, d.path), CanMkdir(o, fs, d.path))
  }

  /** Whether the directory exists; what is found may be stored. */
  function ProbeDir(o: Oracle, d: Dir, store: bool): (Dir, bool) {
    if d.path == "" then (d, false)
    else (if store && o.isDirectory(d.path) then d.(created := true) else d, d.created || o.isDirectory(d.path))
  }

  ghost function CleanDir(o: Oracle, d: Dir, fs: Fs): (Dir, Fs) {
    (Dir("", false, d.external), if d.created && !d.external then RmdirRetrying(o, fs, d.path) else fs)
  }

  /** Whether something is mounted; what is found may be stored. */
  function ProbeMp(o: Oracle, m: Mp, store: bool): (Mp, bool) {
    var (d, there) := ProbeDir(o, m.dir, store);
    var found := there && o.isMountpoint(m.dir.path);
    (Mp(d, if store && there then found else m.mounted), found)
  }

  /** Cleaning up is also what the destructor does. */
  ghost function CleanMp(o: Oracle, m: Mp, fs: Fs): (Mp, Fs) {
    var fs1 := if m.mounted then Umount(o, fs, m.dir.path) else fs;
    var (d, fs2) := CleanDir(o, m.dir, fs1);
    (Mp(d, false), fs2)
  }

  /** A cleanup forgets everything but who looks after the directory, and destructors
      that run after it have nothing left to do. */
  lemma CleanedOnce(o: Oracle, m: Mp, fs: Fs, o': Oracle, fs': Fs)
    ensures var m' := CleanMp(o, m, fs).0;
            && m' == Mp(dir := Dir(path := "", created := false, external := m.dir.external), mounted := false)
            && CleanMp(o', m', fs') == (m', fs') && CleanDir(o', m'.dir, fs') == (m'.dir, fs')
  {
  }

  /** A cleanup removes an own directory if one of 21 attempts succeeds, and it is never
      removed while there is something in it or mounted on it. */
  lemma CleanedInTime(o: Oracle, d: Dir, fs: Fs)
    ensures var fs' := CleanDir(o, d, fs).1;
            && fs' == fs.(dirs := fs'.dirs) && fs.dirs - {d.path} <= fs'.dirs <= fs.dirs
            && (d.path in fs.dirs && d.path !in fs'.dirs ==>
                  d.created && !d.external && d.path !in fs.mounts && forall q :: q in fs.dirs ==> !Beneath(d.path, q))
            && (d.path in fs.dirs && d.path !in fs.mounts && d.created && !d.external
                && (forall q :: q in fs.dirs ==> !Beneath(d.path, q)) ==>
                  (d.path !in fs'.dirs <==> exists k: nat :: k < 21 && o.rmdirOk(d.path, k)))
  {
  }

  /** A directory is made once, and a mount made once on a directory that was made. */
  lemma MadeOnce(o: Oracle, d: Dir, m: Mp, devname: string, fs: Fs)
    ensures var (d', fs', made) := CreateDir(o, d, fs);
            && (made <==> d'.created && !d.created) && (made ==> d.path != "" && d.path !in fs.dirs)
            && (d.created ==> d' == d && fs' == fs)
    ensures var (m', fs', mounted) := MountMp(o, m, devname, fs);
            && (mounted <==> m'.mounted && !m.mounted) && (mounted ==> m.dir.created && m.dir.path != "")
            && (!mounted ==> m' == m && fs' == fs)
  {
  }

  /** Probing tells what is there, and makes a note of it exactly if that is wanted. */
  lemma ProbedAsIs(o: Oracle, m: Mp, store: bool)
    ensures var (d', there) := ProbeDir(o, m.dir, store);
            && (there ==> m.dir.path != "")
            && (m.dir.path != "" ==> (there <==> m.dir.created || o.isDirectory(m.dir.path)))
            && d' == m.dir.(created := d'.created)
            && (d'.created <==> m.dir.created || (store && there))
    ensures var (m', found) := ProbeMp(o, m, store);
            && m'.dir == ProbeDir(o, m.dir, store).0
            && (found <==> ProbeDir(o, m.dir, store).1 && o.isMountpoint(m.dir.path))
            && (m'.mounted <==> if store && ProbeDir(o, m.dir, store).1 then found else m.mounted)
  {
  }

  ghost function SetMp(o: Oracle, m: Mp, path: string, fs: Fs): (Mp, Fs) {
    var (m1, fs1) := CleanMp(o, m, fs);
    (m1.(dir := Dir(path, false, false)), fs1)
  }

  function MountMp(o: Oracle, m: Mp, devname: string, fs: Fs): (Mp, Fs, bool) {
    if m.dir.path == "" || !m.dir.created || m.mounted || !o.mountOk(devname, m.dir.path)
    then (m, fs, false)
    else (m.(mounted := true), fs.(mounts := fs.mounts[m.dir.path := devname]), true)
  }
}
