/** The registry of devices: lookup, creation, removal and device IDs. */
module DeviceManager {
  import opened Option
  import opened Sets
  import opened Names
  import opened Platform
  import opened Devices

  // ---- Device IDs --------------------------------------------------------------

  const MAX_ID: nat := 999

  function NextId(cursor: nat): nat {
    if cursor + 1 > MAX_ID then 1 else cursor + 1
  }

  ghost function FreeIds(used: set<nat>): set<nat> {
    set i: nat | 1 <= i <= MAX_ID && i !in used
  }

  /** How many times the cursor must be advanced to reach `id`. */
  function Gap(cursor: nat, id: nat): nat
    requires cursor <= MAX_ID && 1 <= id <= MAX_ID
  {
    if id > cursor then id - cursor else MAX_ID - cursor + id
  }

  /** The first ID behind the cursor, cyclically, that is not in use. */
  ghost function FreshId(used: set<nat>, cursor: nat): (id: nat)
    requires cursor <= MAX_ID && FreeIds(used) != {}
    ensures id in FreeIds(used)
    decreases Gap(cursor, Least(FreeIds(used)))
  {
    if NextId(cursor) !in used then NextId(cursor) else FreshId(used, NextId(cursor))
  }

  // ---- Registry ------------------------------------------------------------------

  type Registry = map<nat, Dev>

  /** Outcome of the registration of a link: the registry and the ID cursor, the
      device and the volume it belongs to, and whether the device was probed. */
  datatype Entry = Entry(devs: Registry, cursor: nat, dev: Option<nat>, vol: Option<int>, probed: bool) {
    predicate WellFormed() {
      && cursor <= MAX_ID
      && (dev.Some? ==> dev.value in devs)
      && (vol.Some? ==> dev.Some? && vol.value in devs[dev.value].vols)
    }
  }

  ghost function WithLink(devs: Registry, link: string): set<nat> {
    set id | id in devs && devs[id].devlink == link
  }

  ghost function FindDev(devs: Registry, link: string): Option<nat> {
    if WithLink(devs, link) == {} then None else Some(Least(WithLink(devs, link)))
  }

  function Devname(o: Oracle, link: NonEmpty): NonEmpty {
    match o.resolve(link)
    case Some(n) => n
    case None => link
  }

  function LinkNumber(o: Oracle, link: NonEmpty): int {
    VolumeNumber(Devname(o, link))
  }

  function InfoOf(o: Oracle, link: NonEmpty): Option<VolumeInfo> {
    o.volumeInfo(Devname(o, link))
  }

  /** Whether handling `link` takes a new device while all IDs are in use; the
      search for an ID does not end then. */
  ghost predicate Blocked(o: Oracle, devs: Registry, link: NonEmpty) {
    && FreeIds(devs.Keys) == {}
    && var n := LinkNumber(o, link);
       (n == 0 || (n > 0 && InfoOf(o, link).Some?)) && FindDev(devs, RootOf(o, link)) == None
  }

  /** The name of the device a link belongs to: the link itself if it stands for
      a whole device. */
  ghost function RootOf(o: Oracle, link: NonEmpty): string {
    if LinkNumber(o, link) == 0 then link else RootName(link)
  }

  /** The device a link belongs to, as it is before the link is registered. */
  function Before(devs: Registry, id: nat, name: string): Dev {
    if id in devs then devs[id] else NewDev(id, name)
  }

  /** The link of a whole device makes it known for real. */
  function Examined(o: Oracle, link: NonEmpty, d: Dev): Dev {
    if LinkNumber(o, link) == 0 && d.state == Synthetic then ProbeDev(o, d) else d
  }

  /** What registering a link does to the device it belongs to. A whole device is
      searched for a volume of its own only if it has not been registered before. */
  ghost function RegisterOn(o: Oracle, link: NonEmpty, d: Dev, known: bool): (r: (Dev, Option<int>))
    ensures r.1.Some? ==> r.1.value in r.0.vols
  {
    var p := Examined(o, link, d);
    if LinkNumber(o, link) == 0 && known then (p, FindVol(p.vols, Devname(o, link)))
    else if InfoOf(o, link) == None then (p, None)
    else AddVol(p, Devname(o, link), InfoOf(o, link).value)
  }

  /** Registering a link, without touching the file system. */
  ghost function NewEntry(o: Oracle, devs: Registry, cursor: nat, link: NonEmpty): (e: Entry)
    requires cursor <= MAX_ID && !Blocked(o, devs, link)
    ensures e.WellFormed()
  {
    var n := LinkNumber(o, link);
    var known := FindDev(devs, RootOf(o, link));
    if n < 0 then Entry(devs, cursor, None, None, false)
    else if n > 0 && InfoOf(o, link) == None then Entry(devs, cursor, known, None, false)
    else
      var id := if known.Some? then known.value else FreshId(devs.Keys, cursor);
      var d := Before(devs, id, RootOf(o, link));
      var (d', vol) := RegisterOn(o, link, d, known.Some?);
      Entry(devs[id := d'], if known.Some? then cursor else id, Some(id), vol,
            n == 0 && d.state == Synthetic && d'.state == Probed)
  }

  function WillBeRemovedSignals(d: Dev): seq<Signal> {
    if d.dir.created then [DeviceWillBeRemoved(d.id, d.uuid, d.dir.path)] else []
  }

  function RemovedSignals(d: Dev): seq<Signal> {
    if d.dir.created then [DeviceRemoved(d.id, d.uuid, d.dir.path)] else []
  }

  /** Erasing a device from the registry gives up one reference; the destructor
      runs when it was the last. */
  ghost function ReleaseDev(o: Oracle, d: Dev, fs: Fs): Fs
  {
    if d.refs == 1 then DestroyDev(o, d, fs) else fs
  }

  ghost function RemoveDev(o: Oracle, d: Dev, w: World): World
  {
    var log1 := w.log + WillBeRemovedSignals(d);
    var (d', fs1) := DropVols(o, d, w.fs);
    World(ReleaseDev(o, d', fs1), log1 + RemovedSignals(d'))
  }

  lemma DropVolsKeeps(o: Oracle, d: Dev, fs: Fs)
    ensures DropVols(o, d, fs).0 == d.(vols := map[], refs := d.refs - |d.vols|)
    decreases |d.vols|
  {
    if d.vols != map[] {
      var i := Least(d.vols.Keys);
      assert (d.vols - {i}).Keys == d.vols.Keys - {i};
      DropVolsKeeps(o, d.(vols := d.vols - {i}, refs := d.refs - 1), EndVol(o, d.vols[i], Unusable, fs).1);
    }
  }
}
