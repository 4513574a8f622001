/** What watch mode makes of a new mountpoint. */
module WatchedMountpoints {
  import opened Option
  import opened Names
  import opened Platform
  import opened AutoDir
  import opened Devices
  import opened DeviceManager
  import opened Automounter
  import opened RegistryInvariant
  import opened EnoughIds
  import opened DeviceStates

  // ---- Registering a link ---------------------------------------------------------------

  function IdentityNow(d: Dev): Identity {
    Identity(d.state, d.name, d.uuid, d.port)
  }

  /** What is known of the device `r`. */
  ghost function Look(devs: Registry, r: string): Identity {
    if FindDev(devs, r).Some? then IdentityNow(devs[FindDev(devs, r).value]) else UNKNOWN
  }

  /** Its own link makes a device known. */
  ghost function Relook(o: Oracle, link: NonEmpty, r: string, b: Identity): Identity {
    if b.state == Synthetic && link == r && LinkNumber(o, link) == 0 then IdentityBy(o, r) else b
  }

  lemma {:induction false} RegisterOnLook(o: Oracle, link: NonEmpty, d: Dev, known: bool)
    requires LinkNumber(o, link) == 0 ==> d.devlink == link
    requires d.state == Synthetic ==> IdentityNow(d) == UNKNOWN
    ensures IdentityNow(RegisterOn(o, link, d, known).0) == Relook(o, link, d.devlink, IdentityNow(d))
  {
    hide LinkNumber, FindVol, VolumeIndex, Devname, InfoOf;
  }

  /** Before a device is examined, nothing is known of it. */
  ghost predicate PlainUnknown(devs: Registry) {
    forall id :: id in devs && devs[id].state == Synthetic ==> IdentityNow(devs[id]) == UNKNOWN
  }

  lemma {:induction false} EntryLook(o: Oracle, s: State, link: NonEmpty, r: string)
    requires RegOk(s.devs) && s.cursor <= MAX_ID && !Blocked(o, s.devs, link) && PlainUnknown(s.devs)
    ensures var devs' := NewEntry(o, s.devs, s.cursor, link).devs;
            Look(devs', r) == Relook(o, link, r, Look(s.devs, r)) && PlainUnknown(devs')
  {
    hide NewEntry, RegisterOn, LinkNumber, InfoOf, FreshId, Blocked, RegOk, FindDev, RootOf, Counts, IdentityBy;
    var e := NewEntry(o, s.devs, s.cursor, link);
    var x := RootOf(o, link);
    NewEntryOk(o, s.devs, s.cursor, link);
    RootFound(s.devs, r);
    RootFound(e.devs, r);
    NameOfUncounted(o, link);
    LaterForRoot(None, o, link, link);
    if Counts(o, link) {
      CountedEntry(o, s, link);
      RootFound(s.devs, x);
      var id := e.dev.value;
      var known := FindDev(s.devs, x).Some?;
      RegisterOnLook(o, link, Before(s.devs, id, x), known);
      RegisterOnName(o, link, Before(s.devs, id, x), known);
      Synthetics(o, link, x, IdentityNow(Before(s.devs, id, x)));
    } else {
      UncountedEntry(o, s, link);
    }
  }

  lemma Synthetics(o: Oracle, link: NonEmpty, r: string, b: Identity)
    ensures Relook(o, link, r, b).state == Synthetic ==> Relook(o, link, r, b) == b
  {
  }

  /** The link is taken for one to a device. */
  ghost predicate Registrable(o: Oracle, devs: Registry, link: NonEmpty) {
    Counts(o, link) || (LinkNumber(o, link) > 0 && RootOf(o, link) in LinkNames(devs))
  }

  lemma {:induction false} EntryDevice(o: Oracle, s: State, link: NonEmpty)
    requires RegOk(s.devs) && s.cursor <= MAX_ID && !Blocked(o, s.devs, link)
    ensures var e := NewEntry(o, s.devs, s.cursor, link);
            && (e.dev.Some? <==> Registrable(o, s.devs, link))
            && (e.dev.Some? ==> e.devs[e.dev.value].devlink == RootOf(o, link))
            && (e.vol.Some? ==> Counts(o, link))
  {
    hide RegisterOn, LinkNumber, InfoOf, FreshId, RegOk, FindDev, RootOf;
    RootFound(s.devs, RootOf(o, link));
    if Counts(o, link) {
      EntryName(o, s.devs, s.cursor, link);
    }
  }

  /** Which volume a link that counts stands for. */
  lemma {:induction false} EntryVolume(o: Oracle, s: State, link: NonEmpty)
    requires RegOk(s.devs) && s.cursor <= MAX_ID && !Blocked(o, s.devs, link) && Counts(o, link)
    ensures var e := NewEntry(o, s.devs, s.cursor, link);
            e.dev.Some? &&
            forall i :: e.vol == Some(i) <==>
              i in e.devs[e.dev.value].vols && e.devs[e.dev.value].vols[i].devname == Devname(o, link)
  {
    hide NewEntry, RegisterOn, LinkNumber, InfoOf, FreshId, FindDev, RootOf, Devname;
    CountedEntry(o, s, link);
    NewEntryOk(o, s.devs, s.cursor, link);
    var e := NewEntry(o, s.devs, s.cursor, link);
    var id := e.dev.value;
    MemberOk(e.devs, id);
    var d := Before(s.devs, id, RootOf(o, link));
    RegisterOnVolume(o, link, d, FindDev(s.devs, RootOf(o, link)).Some?);
  }

  lemma {:induction false} RegisterOnVolume(o: Oracle, link: NonEmpty, d: Dev, known: bool)
    requires Counts(o, link) && (!known ==> d.vols == map[])
    requires forall i, j :: i in d.vols && j in d.vols && d.vols[i].devname == d.vols[j].devname ==> i == j
    ensures var (d', vol) := RegisterOn(o, link, d, known);
            forall i :: vol == Some(i) <==> i in d'.vols && d'.vols[i].devname == Devname(o, link)
  {
    hide LinkNumber, Examined, VolumeIndex, Devname, FindVol, InfoOf, AddVol;
    ExaminedSame(o, link, d);
    var p := Examined(o, link, d);
    FindVolIs(p, Devname(o, link));
    if InfoOf(o, link).Some? {
      AddVolVolume(p, Devname(o, link), InfoOf(o, link).value);
    }
  }

  lemma FindVolIs(d: Dev, devname: NonEmpty)
    requires forall i, j :: i in d.vols && j in d.vols && d.vols[i].devname == d.vols[j].devname ==> i == j
    ensures forall i :: FindVol(d.vols, devname) == Some(i) <==> i in d.vols && d.vols[i].devname == devname
  {
  }

  lemma AddVolVolume(d: Dev, devname: NonEmpty, info: VolumeInfo)
    requires forall i, j :: i in d.vols && j in d.vols && d.vols[i].devname == d.vols[j].devname ==> i == j
    ensures var (d', vol) := AddVol(d, devname, info);
            forall i :: vol == Some(i) <==> i in d'.vols && d'.vols[i].devname == devname
  {
    hide VolumeIndex;
    var (d', vol) := AddVol(d, devname, info);
    if FindVol(d.vols, devname) == None && VolumeIndex(devname) !in d.vols {
      assert d'.vols[VolumeIndex(devname)].devname == devname;
      assert forall i :: i in d'.vols && i != VolumeIndex(devname) ==> i in d.vols && d'.vols[i] == d.vols[i];
    }
  }

  // ---- Volumes that wait -----------------------------------------------------------------

  /** The volume is not known yet, or is still waiting. */
  predicate Waits(devs: Registry, id: nat, i: int) {
    id in devs && i in devs[id].vols ==> devs[id].vols[i].state == Pending
  }

  /** Registering links does not touch known volumes, and new ones are waiting. */
  ghost predicate WaitsAlike(devs: Registry, devs': Registry) {
    && (forall id, i :: id in devs' && i in devs'[id].vols ==> (Waits(devs', id, i) <==> Waits(devs, id, i)))
    && (forall id, i :: id in devs && i in devs[id].vols ==> id in devs' && i in devs'[id].vols)
  }

  lemma {:induction false} EntryWaits(o: Oracle, s: State, link: NonEmpty)
    requires RegOk(s.devs) && s.cursor <= MAX_ID && !Blocked(o, s.devs, link)
    ensures WaitsAlike(s.devs, NewEntry(o, s.devs, s.cursor, link).devs)
  {
    hide NewEntry, RegisterOn, LinkNumber, InfoOf, FreshId, Blocked, RegOk, FindDev, RootOf, Counts;
    var e := NewEntry(o, s.devs, s.cursor, link);
    if Counts(o, link) {
      CountedEntry(o, s, link);
      NewEntryOk(o, s.devs, s.cursor, link);
      var id := e.dev.value;
      var d := Before(s.devs, id, RootOf(o, link));
      RegisterOnWaits(o, link, d, FindDev(s.devs, RootOf(o, link)).Some?);
    } else {
      UncountedEntry(o, s, link);
    }
  }

  lemma {:induction false} RegisterOnWaits(o: Oracle, link: NonEmpty, d: Dev, known: bool)
    ensures var d' := RegisterOn(o, link, d, known).0;
            && (forall i :: i in d.vols ==> i in d'.vols && d'.vols[i] == d.vols[i])
            && (forall i :: i in d'.vols && i !in d.vols ==> d'.vols[i].state == Pending)
  {
    hide LinkNumber, Examined, FindVol, VolumeIndex, Devname, InfoOf;
    ExaminedSame(o, link, d);
  }

  // ---- A new mountpoint ------------------------------------------------------------------

  /** The device is, or will be, accepted. */
  predicate IsAccepted(b: Identity) {
    b.state == Ok || (b.state == Probed && Wanted(b.name))
  }

  /** What the two links of a mountpoint make known of the device of the second one. */
  ghost function LookBehind(o: Oracle, devs: Registry, first: NonEmpty, second: NonEmpty): Identity {
    var r := RootOf(o, second);
    Relook(o, second, r, Relook(o, first, r, Look(devs, r)))
  }

  /** The mountpoint is there, its links lead to a device and to its volume `i`, and the
      device is accepted. */
  ghost predicate IsWanted(o: Oracle, devs: Registry, devs': Registry, path: string, id: nat, i: int) {
    && Mapped(o, path)
    && var (first, second) := o.linksOf(path);
       && Registrable(o, devs, first) && Counts(o, second) && IsAccepted(LookBehind(o, devs, first, second))
       && id in devs' && devs'[id].devlink == RootOf(o, second)
       && i in devs'[id].vols && devs'[id].vols[i].devname == Devname(o, second)
  }

  /** The device of the mountpoint is accepted, has the mountpoint for a directory that it
      does not look after, and is announced with it; and so is the volume if it has been
      waiting, which is mounted now. */
  ghost predicate IsShown(o: Oracle, s: State, s': State, path: string, b: Identity, id: nat, i: int)
    requires id in s'.devs && i in s'.devs[id].vols
  {
    var d := s'.devs[id];
    var v := d.vols[i];
    && d.state == Ok && d.name == b.name && d.uuid == b.uuid && d.port == b.port
    && d.dir == Dir(path := path, created := true, external := true)
    && v.state != Pending
    && (Waits(s.devs, id, i) ==>
          v.state == Mounted && v.mp.dir == Dir(path := path, created := false, external := false) && !v.mp.mounted)
    && s'.world.log == s.world.log
         + [NewDevice(id := id, name := b.name, uuid := b.uuid, path := path, port := b.port)]
         + if Waits(s.devs, id, i)
           then [NewVolume(index := if i == -1 then 4294967295 else i, labelText := v.labelText, path := path,
                           id := id, uuid := v.uuid)]
           else []
  }

  lemma {:induction false} EngageWatchedShows(cfg: Config, o: Oracle, d: Dev, i: int, path: NonEmpty, w: World)
    requires DevOk(d.id, d) && i in d.vols
    ensures var (d', w') := EngageWatched(cfg, o, d, i, path, w);
            var v, v' := d.vols[i], d'.vols[i];
            if IsAccepted(IdentityNow(d)) then
              && IdentityNow(d') == IdentityNow(d).(state := Ok)
              && d'.dir == Dir(path := path, created := true, external := true)
              && (if v.state == Pending
                  then v' == v.(state := Mounted, mp := v'.mp)
                       && v'.mp.dir == Dir(path := path, created := false, external := false) && !v'.mp.mounted
                  else v' == v)
              && w'.log == w.log
                   + [NewDevice(id := d.id, name := d.name, uuid := d.uuid, path := path, port := d.port)]
                   + if v.state == Pending
                     then [NewVolume(index := if i == -1 then 4294967295 else i, labelText := v.labelText,
                                     path := path, id := d.id, uuid := v.uuid)]
                     else []
            else w' == w
  {
    hide CleanMp, MountManaged;
    assert ValidIndex(i) && d.vols[i].index == i;
    CleanedIsUnmounted(o, d.vols[i].mp, w.fs);
  }

  lemma CleanedIsUnmounted(o: Oracle, m: Mp, fs: Fs)
    ensures !CleanMp(o, m, fs).0.mounted
  {
  }

  lemma {:induction false} TwoWaits(devs: Registry, devs1: Registry, devs2: Registry)
    requires WaitsAlike(devs, devs1) && WaitsAlike(devs1, devs2)
    ensures WaitsAlike(devs, devs2)
  {
    forall id, i | id in devs2 && i in devs2[id].vols ensures Waits(devs2, id, i) <==> Waits(devs, id, i) {
      assert Waits(devs2, id, i) <==> Waits(devs1, id, i);
      if id in devs1 && i in devs1[id].vols {
        assert Waits(devs1, id, i) <==> Waits(devs, id, i);
      }
    }
  }

  /** What registering a mountpoint comes to. */
  ghost predicate EntryFacts(o: Oracle, s: State, path: NonEmpty, s1: State, dev: Option<nat>, vol: Option<int>)
    requires dev.Some? ==> dev.value in s1.devs
  {
    var (first, second) := o.linksOf(path);
    && s1.world == s.world && RegOk(s1.devs) && PlainUnknown(s1.devs) && WaitsAlike(s.devs, s1.devs)
    && (if Mapped(o, path) && Registrable(o, s.devs, first) && Counts(o, second)
        then && dev.Some? && s1.devs[dev.value].devlink == RootOf(o, second)
             && Look(s1.devs, RootOf(o, second)) == LookBehind(o, s.devs, first, second)
             && forall i :: vol == Some(i) <==>
                  i in s1.devs[dev.value].vols && s1.devs[dev.value].vols[i].devname == Devname(o, second)
        else dev == None || vol == None)
  }

  lemma {:induction false} MountpointEntry(o: Oracle, s: State, path: NonEmpty)
    requires RegOk(s.devs) && s.cursor <= MAX_ID && PlainUnknown(s.devs) && !EntryByMountpoint(o, s, path).0.stuck
    ensures var (s1, dev, vol) := EntryByMountpoint(o, s, path); EntryFacts(o, s, path, s1, dev, vol)
  {
    hide NewEntry, Blocked, Counts, Registrable, RootOf, RegOk, PlainUnknown, WaitsAlike, Look, Relook, ProbeMountpoint,
         Devname;
    ProbingLeavesNoTrace(o, s, path);
    var (first, second) := o.linksOf(path);
    NothingWaits(s.devs);
    if Mapped(o, path) {
      MountpointLink(o, s, first, RootOf(o, second));
      var e1 := NewEntry(o, s.devs, s.cursor, first);
      var s1 := s.(devs := e1.devs, cursor := e1.cursor);
      if e1.dev.Some? {
        MountpointLink(o, s1, second, RootOf(o, second));
        var e2 := NewEntry(o, s1.devs, s1.cursor, second);
        TwoWaits(s.devs, s1.devs, e2.devs);
        CountedRegistrable(o, s1.devs, second);
        if Counts(o, second) {
          EntryVolume(o, s1, second);
        }
      }
    }
  }

  lemma CountedRegistrable(o: Oracle, devs: Registry, link: NonEmpty)
    ensures Counts(o, link) ==> Registrable(o, devs, link)
  {
    hide Counts, RootOf;
  }

  lemma NothingWaits(devs: Registry)
    ensures WaitsAlike(devs, devs)
  {
  }

  /** What registering one of the two links comes to. */
  lemma {:induction false} MountpointLink(o: Oracle, s: State, link: NonEmpty, r: string)
    requires RegOk(s.devs) && s.cursor <= MAX_ID && PlainUnknown(s.devs) && !Blocked(o, s.devs, link)
    ensures var e := NewEntry(o, s.devs, s.cursor, link);
            && RegOk(e.devs) && PlainUnknown(e.devs) && WaitsAlike(s.devs, e.devs)
            && Look(e.devs, r) == Relook(o, link, r, Look(s.devs, r))
            && (e.dev.Some? <==> Registrable(o, s.devs, link))
            && (e.dev.Some? ==> e.devs[e.dev.value].devlink == RootOf(o, link))
            && (e.vol.Some? ==> Counts(o, link))
  {
    hide NewEntry, Blocked, Counts, Registrable, RootOf, RegOk, PlainUnknown, WaitsAlike, Look, Relook;
    NewEntryOk(o, s.devs, s.cursor, link);
    EntryLook(o, s, link, r);
    EntryDevice(o, s, link);
    EntryWaits(o, s, link);
  }

  /** What a new mountpoint makes of the device and of the volume behind it: if it is
      wanted, they are shown, and otherwise nothing is announced. */
  lemma {:induction false} MountpointShown(cfg: Config, o: Oracle, s: State, path: NonEmpty)
    requires RegOk(s.devs) && s.cursor <= MAX_ID && PlainUnknown(s.devs)
    requires !HandleNewMountpoint(cfg, o, s, path).stuck
    ensures var s' := HandleNewMountpoint(cfg, o, s, path);
            var (first, second) := o.linksOf(path);
            && (forall id, i :: IsWanted(o, s.devs, s'.devs, path, id, i) ==>
                  IsShown(o, s, s', path, LookBehind(o, s.devs, first, second), id, i))
            && ((forall id, i :: !IsWanted(o, s.devs, s'.devs, path, id, i)) ==> s'.world == s.world)
  {
    hide EntryByMountpoint, EngageWatched, Counts, Registrable, RootOf, DevOk, PlainUnknown, LookBehind, Look, Devname,
         IsAccepted;
    MountpointEntry(o, s, path);
    var (s1, dev, vol) := EntryByMountpoint(o, s, path);
    var s' := HandleNewMountpoint(cfg, o, s, path);
    if dev.Some? && vol.Some? {
      var id, i := dev.value, vol.value;
      var d := s1.devs[id];
      MemberOk(s1.devs, id);
      LookIs(s1.devs, id);
      EngageWatchedShows(cfg, o, d, i, path, s1.world);
      EngageWatchedSame(cfg, o, d, i, path, s1.world);
      forall id', i' | IsWanted(o, s.devs, s'.devs, path, id', i') ensures id' == id && i' == i {
        OneDevice(s1.devs, s'.devs, id, id');
        assert s1.devs[id].vols[i'].devname == s'.devs[id'].vols[i'].devname;
      }
      assert IsAccepted(IdentityNow(d)) ==> IsWanted(o, s.devs, s'.devs, path, id, i);
      assert Waits(s1.devs, id, i) <==> Waits(s.devs, id, i);
    } else {
      forall id, i ensures !IsWanted(o, s.devs, s'.devs, path, id, i) {
        if IsWanted(o, s.devs, s'.devs, path, id, i) {
          OneDevice(s1.devs, s'.devs, dev.value, id);
        }
      }
    }
  }

  lemma LookIs(devs: Registry, id: nat)
    requires RegOk(devs) && id in devs
    ensures Look(devs, devs[id].devlink) == IdentityNow(devs[id])
  {
    hide DevOk;
    FindDevUnique(devs, devs[id].devlink, id);
  }

  /** The devices are the same, by their names. */
  lemma OneDevice(devs: Registry, devs': Registry, id: nat, id': nat)
    requires RegOk(devs) && id in devs && devs'.Keys == devs.Keys && id' in devs'
    requires forall j :: j in devs ==> devs'[j].devlink == devs[j].devlink
    ensures devs'[id'].devlink == devs[id].devlink ==> id' == id
  {
    hide DevOk;
  }

  // ---- Runs --------------------------------------------------------------------------------

  lemma {:induction false} NewDevicePlain(cfg: Config, o: Oracle, s: State, link: NonEmpty)
    requires RegOk(s.devs) && s.cursor <= MAX_ID && PlainUnknown(s.devs)
    ensures PlainUnknown(HandleNewDevice(cfg, o, s, link).devs)
  {
    hide NewEntry, Engage, Blocked, Acceptable, RegOk, FilterDev;
    if Acceptable(link, true) && !Blocked(o, s.devs, link) {
      EntryLook(o, s, link, "");
      var e := NewEntry(o, s.devs, s.cursor, link);
      if e.dev.Some? {
        EngageState(cfg, o, e.devs[e.dev.value], e.vol, e.probed, s.world);
        FilterIsExact(e.devs[e.dev.value]);
      }
    }
  }

  lemma {:induction false} NewMountpointPlain(cfg: Config, o: Oracle, s: State, path: NonEmpty)
    requires RegOk(s.devs) && s.cursor <= MAX_ID && PlainUnknown(s.devs)
    ensures PlainUnknown(HandleNewMountpoint(cfg, o, s, path).devs)
  {
    hide NewEntry, EngageWatched, Blocked, RegOk, ProbeMountpoint;
    ProbingLeavesNoTrace(o, s, path);
    var (first, second) := o.linksOf(path);
    if first != "" && second != "" && !Blocked(o, s.devs, first) {
      EntryLook(o, s, first, "");
      NewEntryOk(o, s.devs, s.cursor, first);
      var e1 := NewEntry(o, s.devs, s.cursor, first);
      var s1 := s.(devs := e1.devs, cursor := e1.cursor);
      if !Blocked(o, s1.devs, second) {
        EntryLook(o, s1, second, "");
        var e2 := NewEntry(o, s1.devs, s1.cursor, second);
        if e2.vol.Some? {
          EngageWatchedPlain(cfg, o, e2.devs[e2.dev.value], e2.vol.value, path, s.world);
        }
      }
    }
  }

  lemma EngageWatchedPlain(cfg: Config, o: Oracle, d: Dev, i: int, path: NonEmpty, w: World)
    requires i in d.vols && (d.state == Synthetic ==> IdentityNow(d) == UNKNOWN)
    ensures var d' := EngageWatched(cfg, o, d, i, path, w).0;
            d'.state == Synthetic ==> IdentityNow(d') == UNKNOWN
  {
    hide TryMount, FilterDev;
    FilterIsExact(d);
    if d.state !in {Synthetic, Broken, Rejected} {
      var d1 := if d.state == Probed then FilterDev(d) else d;
      var d2 := d1.(dir := Dir(path, true, true));
      TryMountSame(cfg, o, d2, i, Announce(d2, w));
    }
  }

  lemma {:induction false} AlwaysPlain(cfg: Config, foreign: map<string, string>, events: seq<Event>,
                                       trace: seq<State>, k: nat)
    requires IsTrace(cfg, foreign, events, trace) && k <= |events|
    ensures PlainUnknown(trace[k].devs) && RegOk(trace[k].devs) && trace[k].cursor <= MAX_ID
  {
    hide HandleNewDevice, HandleNewMountpoint, RemoveDev, FindDev, RegOk;
    RegistryAlwaysOk(cfg, foreign, events, trace, k);
    if k > 0 {
      AlwaysPlain(cfg, foreign, events, trace, k - 1);
      assert Instant(k - 1);
      match events[k - 1]
      case DeviceAdded(o, link) => NewDevicePlain(cfg, o, trace[k - 1], link);
      case MountpointAdded(o, path) => NewMountpointPlain(cfg, o, trace[k - 1], path);
      case _ =>
    }
  }

  /** At any time of any run: if a new mountpoint is there, both of its links are given
      and lead to a device and a volume on it, and the device is a USB device with an
      allowed name, then the device is accepted and announced with the mountpoint for a
      directory, and the volume, if it has been waiting, is announced as mounted there.
      Otherwise nothing is announced. */
  lemma {:induction false} MountpointsAreShown(cfg: Config, foreign: map<string, string>, events: seq<Event>,
                                               trace: seq<State>, k: nat)
    requires IsTrace(cfg, foreign, events, trace) && k < |events| && events[k].MountpointAdded? && !trace[k + 1].stuck
    ensures var (o, path) := (events[k].o, events[k].path);
            var (s, s') := (trace[k], trace[k + 1]);
            var (first, second) := o.linksOf(path);
            && (forall id, i :: IsWanted(o, s.devs, s'.devs, path, id, i) ==>
                  IsShown(o, s, s', path, LookBehind(o, s.devs, first, second), id, i))
            && ((forall id, i :: !IsWanted(o, s.devs, s'.devs, path, id, i)) ==> s'.world == s.world)
  {
    hide HandleNewMountpoint, PlainUnknown, RegOk, IsWanted, LookBehind, IsShown;
    AlwaysPlain(cfg, foreign, events, trace, k);
    assert Instant(k);
    MountpointShown(cfg, events[k].o, trace[k], events[k].path);
  }
}
