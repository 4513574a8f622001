/** What state a device is in, said by what has happened. */
module DeviceStates {
  import opened Option
  import opened Text
  import opened Names
  import opened Platform
  import opened AutoDir
  import opened Devices
  import opened DeviceManager
  import opened Automounter
  import opened RegistryInvariant
  import opened Resources
  import opened EnoughIds

  /** What is known about a device regardless of its volumes. */
  datatype Identity = Identity(state: DeviceState, name: string, uuid: string, port: string)

  const UNKNOWN := Identity(Synthetic, "", "", "")

  /** A device that is examined is good if it is on USB. */
  function IdentityBy(o: Oracle, r: string): Identity {
    match o.deviceInfo(r)
    case Some(info) =>
      if info.isUsb && BaseName(r) != "" then Identity(Probed, BaseName(r), info.uuid, info.port)
      else Identity(Broken, BaseName(r), "", "")
    case None => Identity(Broken, BaseName(r), "", "")
  }

  /** Devices are accepted by their names. */
  predicate Wanted(name: string) {
    "usb-" <= name || "ata-" <= name
  }

  // ---- In any mode: filtered by name --------------------------------------------------

  /** An accepted device has an allowed name, a rejected one has not. */
  predicate Filtered(d: Dev) {
    && (d.state == Ok ==> "usb-" <= d.name || "ata-" <= d.name)
    && (d.state == Rejected ==> !("usb-" <= d.name) && !("ata-" <= d.name))
  }

  ghost predicate AllFiltered(devs: Registry) {
    forall id :: id in devs ==> Filtered(devs[id])
  }

  lemma FilterIsExact(d: Dev)
    ensures Filtered(FilterDev(d)) && FilterDev(d).state in {Ok, Rejected}
    ensures FilterDev(d) == d.(state := FilterDev(d).state)
  {
  }

  lemma {:induction false} RegisterOnFiltered(o: Oracle, link: NonEmpty, d: Dev, known: bool)
    requires Filtered(d)
    ensures Filtered(RegisterOn(o, link, d, known).0)
  {
    hide LinkNumber, Examined, FindVol, Devname, InfoOf, VolumeIndex;
    ExaminedSame(o, link, d);
  }

  lemma {:induction false} NewEntryFiltered(o: Oracle, devs: Registry, cursor: nat, link: NonEmpty)
    requires AllFiltered(devs) && cursor <= MAX_ID && !Blocked(o, devs, link)
    ensures AllFiltered(NewEntry(o, devs, cursor, link).devs)
  {
    hide NewEntry, RegisterOn, RootOf, Filtered;
    var e := NewEntry(o, devs, cursor, link);
    NewEntryOutcome(o, devs, cursor, link);
    if e.dev.Some? && e != Entry(devs, cursor, e.dev, None, false) {
      var d := Before(devs, e.dev.value, RootOf(o, link));
      NewDevFiltered(e.dev.value, RootOf(o, link));
      RegisterOnFiltered(o, link, d, FindDev(devs, RootOf(o, link)).Some?);
    }
  }

  lemma NewDevFiltered(id: nat, name: string)
    ensures Filtered(NewDev(id, name))
  {
  }

  lemma EngageFiltered(cfg: Config, o: Oracle, d: Dev, vol: Option<int>, probed: bool, w: World)
    requires Filtered(d) && (vol.Some? ==> vol.value in d.vols)
    ensures Filtered(Engage(cfg, o, d, vol, probed, w).0)
  {
    hide Filtered;
    EngageState(cfg, o, d, vol, probed, w);
    FilterIsExact(d);
    FilteredSame(d, Engage(cfg, o, d, vol, probed, w).0);
    FilteredSame(FilterDev(d), Engage(cfg, o, d, vol, probed, w).0);
  }

  lemma FilteredSame(d: Dev, d': Dev)
    ensures d'.state == d.state && d'.name == d.name ==> (Filtered(d') <==> Filtered(d))
  {
  }

  /** Engaging a device filters it if it has been probed, and leaves its state alone
      otherwise. */
  lemma {:induction false} EngageState(cfg: Config, o: Oracle, d: Dev, vol: Option<int>, probed: bool, w: World)
    requires vol.Some? ==> vol.value in d.vols
    ensures var d' := Engage(cfg, o, d, vol, probed, w).0;
            && SameDev(d, d')
            && d'.state == if d.state == Probed then FilterDev(d).state else d.state
  {
    hide TryMount, MountPending, FilterDev;
    EngageSame(cfg, o, d, vol, probed, w);
    FilterIsExact(d);
    if d.state !in {Synthetic, Broken, Rejected} {
      var d1 := if d.state == Probed then FilterDev(d) else d;
      if d1.state == Ok && (probed || d1.dir.path == "") {
        var (d2, w2) := OpenContainer(cfg, o, d1, w);
        MountPendingSame(cfg, o, d2, d2.vols.Keys, w2);
      } else if d1.state == Ok && vol.Some? {
        TryMountSame(cfg, o, d1, vol.value, w);
      }
    }
  }

  lemma {:induction false} EngageWatchedFiltered(cfg: Config, o: Oracle, d: Dev, i: int, path: NonEmpty, w: World)
    requires Filtered(d) && i in d.vols
    ensures Filtered(EngageWatched(cfg, o, d, i, path, w).0)
  {
    hide TryMount;
    FilterIsExact(d);
    if d.state !in {Synthetic, Broken, Rejected} {
      var d1 := if d.state == Probed then FilterDev(d) else d;
      var d2 := d1.(dir := Dir(path, true, true));
      TryMountSame(cfg, o, d2, i, Announce(d2, w));
    }
  }

  lemma {:induction false} StepFiltered(cfg: Config, s: State, ev: Event)
    requires AllFiltered(s.devs) && s.cursor <= MAX_ID
    ensures AllFiltered(Step(cfg, s, ev).devs)
  {
    hide NewEntry, Engage, EngageWatched, RemoveDev, FindDev, Blocked, Acceptable, Filtered, ProbeMountpoint;
    if !s.stuck {
      match ev
      case DeviceAdded(o, link) =>
        if Acceptable(link, true) && !Blocked(o, s.devs, link) {
          NewEntryFiltered(o, s.devs, s.cursor, link);
          var e := NewEntry(o, s.devs, s.cursor, link);
          if e.dev.Some? {
            EngageFiltered(cfg, o, e.devs[e.dev.value], e.vol, e.probed, s.world);
          }
        }
      case MountpointAdded(o, path) =>
        EntryFiltered(o, s, path);
        var (s1, dev, vol) := EntryByMountpoint(o, s, path);
        if dev.Some? && vol.Some? {
          EngageWatchedFiltered(cfg, o, s1.devs[dev.value], vol.value, path, s1.world);
        }
      case _ =>
    }
  }

  lemma {:induction false} EntryFiltered(o: Oracle, s: State, path: NonEmpty)
    requires AllFiltered(s.devs) && s.cursor <= MAX_ID
    ensures AllFiltered(EntryByMountpoint(o, s, path).0.devs)
  {
    hide NewEntry, Blocked, Filtered, ProbeMountpoint;
    ProbingLeavesNoTrace(o, s, path);
    var (first, second) := o.linksOf(path);
    if first != "" && second != "" && !Blocked(o, s.devs, first) {
      NewEntryFiltered(o, s.devs, s.cursor, first);
      var e1 := NewEntry(o, s.devs, s.cursor, first);
      if !Blocked(o, e1.devs, second) {
        NewEntryFiltered(o, e1.devs, e1.cursor, second);
      }
    }
  }

  /** In any mode a device that has been filtered is accepted exactly if its name
      begins with "usb-" or "ata-". */
  lemma {:induction false} AcceptedByName(cfg: Config, foreign: map<string, string>, events: seq<Event>,
                                          trace: seq<State>, k: nat, id: nat)
    requires IsTrace(cfg, foreign, events, trace) && k <= |events| && id in trace[k].devs
    requires trace[k].devs[id].state in {Ok, Rejected}
    ensures trace[k].devs[id].state == Ok <==> "usb-" <= trace[k].devs[id].name || "ata-" <= trace[k].devs[id].name
  {
    TracesFiltered(cfg, foreign, events, trace, k);
    assert Filtered(trace[k].devs[id]);
  }

  lemma {:induction false} TracesFiltered(cfg: Config, foreign: map<string, string>, events: seq<Event>,
                                          trace: seq<State>, k: nat)
    requires IsTrace(cfg, foreign, events, trace) && k <= |events|
    ensures AllFiltered(trace[k].devs)
  {
    hide Step, Filtered;
    if k > 0 {
      TracesFiltered(cfg, foreign, events, trace, k - 1);
      assert Instant(k - 1);
      StepFiltered(cfg, trace[k - 1], events[k - 1]);
    }
  }

  // ---- Managed mode: by what has been reported ----------------------------------------

  /** The answers with which the device `r` itself was reported first, since it was
      last removed. */
  ghost function Examiner(events: seq<Event>, r: string): Option<Oracle> {
    if events == [] then None
    else
      var before := Examiner(events[..|events| - 1], r);
      match events[|events| - 1]
      case DeviceAdded(o, link) =>
        if before == None && link == r && Acceptable(link, true) && LinkNumber(o, link) == 0 then Some(o) else before
      case DeviceGone(_, link) => if link == r then None else before
      case _ => before
  }

  /** What one more report means for the device `r`. */
  ghost function Later(ex: Option<Oracle>, o: Oracle, link: NonEmpty, r: string): Option<Oracle> {
    if ex == None && link == r && LinkNumber(o, link) == 0 then Some(o) else ex
  }

  lemma ExaminerLater(events: seq<Event>, o: Oracle, link: NonEmpty)
    requires Acceptable(link, true)
    ensures forall r :: Examiner(events + [DeviceAdded(o, link)], r) == Later(Examiner(events, r), o, link, r)
  {
    hide Acceptable, LinkNumber;
    assert (events + [DeviceAdded(o, link)])[..|events|] == events;
  }

  lemma LaterForRoot(ex: Option<Oracle>, o: Oracle, link: NonEmpty, r: string)
    ensures r != RootOf(o, link) || !Counts(o, link) ==> Later(ex, o, link, r) == ex
    ensures LinkNumber(o, link) == 0 ==> RootOf(o, link) == link
  {
    hide LinkNumber;
  }

  /** What is known of the device `r`, from the answers with which it was reported. */
  function IdentityOf(ex: Option<Oracle>, r: string): Identity {
    if ex.Some? then IdentityBy(ex.value, r) else UNKNOWN
  }

  /** A good device is accepted once it has a volume. */
  predicate IsKnownAs(ex: Option<Oracle>, d: Dev) {
    var b := IdentityOf(ex, d.devlink);
    && d.name == b.name && d.uuid == b.uuid && d.port == b.port
    && d.state == if b.state == Probed && d.vols != map[] then Ok else b.state
  }

  /** The same, except that a device with volumes may still have to be filtered. */
  predicate IsAlmostKnownAs(ex: Option<Oracle>, d: Dev) {
    var b := IdentityOf(ex, d.devlink);
    && d.name == b.name && d.uuid == b.uuid && d.port == b.port
    && (d.state == b.state || (b.state == Probed && d.state == Ok && d.vols != map[]))
    && (ex.Some? ==> BaseName(d.devlink) != "" && Wanted(BaseName(d.devlink)))
  }

  ghost predicate AllKnown(events: seq<Event>, devs: Registry) {
    && (forall id :: id in devs ==>
          && IsKnownAs(Examiner(events, devs[id].devlink), devs[id])
          && IsAlmostKnownAs(Examiner(events, devs[id].devlink), devs[id]))
    && (forall r: string :: Examiner(events, r).Some? ==> r in LinkNames(devs))
  }

  lemma AllowedName(link: string)
    requires Acceptable(link, true)
    ensures BaseName(link) != "" && Wanted(BaseName(link))
  {
  }

  lemma {:induction false} ExaminedKnown(o: Oracle, link: NonEmpty, ex: Option<Oracle>, d: Dev)
    requires IsAlmostKnownAs(ex, d) && Acceptable(link, true) && (LinkNumber(o, link) == 0 ==> d.devlink == link)
    ensures IsAlmostKnownAs(Later(ex, o, link, d.devlink), Examined(o, link, d))
  {
    hide LinkNumber, Acceptable, BaseName;
    AllowedName(link);
  }

  lemma {:induction false} RegisterOnKnown(o: Oracle, link: NonEmpty, ex: Option<Oracle>, d: Dev, known: bool)
    requires IsAlmostKnownAs(ex, d) && Acceptable(link, true) && (LinkNumber(o, link) == 0 ==> d.devlink == link)
    ensures IsAlmostKnownAs(Later(ex, o, link, d.devlink), RegisterOn(o, link, d, known).0)
  {
    hide LinkNumber, Acceptable, Examined, FindVol, VolumeIndex, Devname, InfoOf, BaseName;
    ExaminedKnown(o, link, ex, d);
    ExaminedSame(o, link, d);
  }

  lemma {:induction false} EngageKnown(cfg: Config, o: Oracle, ex: Option<Oracle>, d: Dev, vol: Option<int>,
                                       probed: bool, w: World)
    requires IsAlmostKnownAs(ex, d) && (vol.Some? ==> vol.value in d.vols) && d.vols != map[]
    ensures var d' := Engage(cfg, o, d, vol, probed, w).0; IsKnownAs(ex, d') && IsAlmostKnownAs(ex, d')
  {
    hide Engage, BaseName;
    EngageState(cfg, o, d, vol, probed, w);
    FilterIsExact(d);
    var d' := Engage(cfg, o, d, vol, probed, w).0;
    assert d'.vols.Keys == d.vols.Keys;
  }

  /** A device that is not known has not been reported. */
  lemma BeforeKnown(events: seq<Event>, devs: Registry, id: nat, r: string)
    requires AllKnown(events, devs)
    requires if id in devs then devs[id].devlink == r else FindDev(devs, r) == None
    ensures IsAlmostKnownAs(Examiner(events, r), Before(devs, id, r)) && Before(devs, id, r).devlink == r
  {
    hide Examiner, IsKnownAs, BaseName;
    if id !in devs {
      FindDevNone(devs, r);
    }
  }

  ghost predicate Almost(events: seq<Event>, devs: Registry, dev: Option<nat>) {
    && (forall id :: id in devs ==>
          var ex := Examiner(events, devs[id].devlink);
          IsAlmostKnownAs(ex, devs[id]) && (dev == Some(id) || IsKnownAs(ex, devs[id])))
    && (forall r: string :: Examiner(events, r).Some? ==> r in LinkNames(devs))
  }

  lemma {:induction false} EntryKnown(events: seq<Event>, o: Oracle, s: State, link: NonEmpty)
    requires RegOk(s.devs) && AllKnown(events, s.devs) && s.cursor <= MAX_ID && !Blocked(o, s.devs, link)
    requires Acceptable(link, true)
    ensures var e := NewEntry(o, s.devs, s.cursor, link); Almost(events + [DeviceAdded(o, link)], e.devs, e.dev)
  {
    hide NewEntry, RegisterOn, LinkNumber, InfoOf, FreshId, IsKnownAs, IsAlmostKnownAs, Acceptable, Blocked, RegOk,
         Examiner, FindDev, RootOf, NameOf, LinkNames, Counts;
    var e := NewEntry(o, s.devs, s.cursor, link);
    var r := RootOf(o, link);
    EntryNames(o, s.devs, s.cursor, link);
    ExaminerLater(events, o, link);
    forall x, ex ensures x != r || !Counts(o, link) ==> Later(ex, o, link, x) == ex {
      LaterForRoot(ex, o, link, x);
    }
    NameOfUncounted(o, link);
    if Counts(o, link) {
      CountedEntry(o, s, link);
      NewEntryOk(o, s.devs, s.cursor, link);
      var id := e.dev.value;
      var known := FindDev(s.devs, r);
      RootFound(s.devs, r);
      LaterForRoot(None, o, link, link);
      BeforeKnown(events, s.devs, id, r);
      RegisterOnKnown(o, link, Examiner(events, r), Before(s.devs, id, r), known.Some?);
      RegisterOnName(o, link, Before(s.devs, id, r), known.Some?);
    } else {
      UncountedEntry(o, s, link);
    }
  }

  lemma RootFound(devs: Registry, r: string)
    requires RegOk(devs)
    ensures FindDev(devs, r).Some? ==> FindDev(devs, r).value in devs && devs[FindDev(devs, r).value].devlink == r
    ensures FindDev(devs, r) == None ==> forall id :: id in devs ==> devs[id].devlink != r
    ensures forall id :: id in devs && devs[id].devlink == r ==> FindDev(devs, r) == Some(id)
  {
    hide DevOk;
    if FindDev(devs, r) == None {
      FindDevNone(devs, r);
    } else {
      forall id | id in devs && devs[id].devlink == r ensures FindDev(devs, r) == Some(id) {
        FindDevUnique(devs, r, id);
      }
    }
  }

  lemma NameOfUncounted(o: Oracle, link: NonEmpty)
    ensures NameOf(o, link) == if Counts(o, link) then {RootOf(o, link)} else {}
    ensures LinkNumber(o, link) == 0 ==> Counts(o, link)
  {
    hide LinkNumber, InfoOf, RootOf;
  }

  lemma {:induction false} NewDeviceKnown(cfg: Config, events: seq<Event>, o: Oracle, s: State, link: NonEmpty)
    requires RegOk(s.devs) && AllKnown(events, s.devs) && s.cursor <= MAX_ID && !HandleNewDevice(cfg, o, s, link).stuck
    ensures AllKnown(events + [DeviceAdded(o, link)], HandleNewDevice(cfg, o, s, link).devs)
  {
    hide NewEntry, Engage, Blocked, Acceptable, RegOk, IsKnownAs, IsAlmostKnownAs, Examiner, LinkNames;
    var events' := events + [DeviceAdded(o, link)];
    if Acceptable(link, true) {
      EntryKnown(events, o, s, link);
      var e := NewEntry(o, s.devs, s.cursor, link);
      if e.dev.Some? {
        var id := e.dev.value;
        var d := e.devs[id];
        var ex := Examiner(events', d.devlink);
        if e.vol.Some? || d.vols != map[] {
          EngageKnown(cfg, o, ex, d, e.vol, e.probed, s.world);
          EngageSame(cfg, o, d, e.vol, e.probed, s.world);
          SameNames(e.devs, id, Engage(cfg, o, d, e.vol, e.probed, s.world).0);
        } else {
          EmptyKnown(ex, d);
        }
      }
    } else {
      NotReported(events, o, link);
    }
  }

  lemma EmptyKnown(ex: Option<Oracle>, d: Dev)
    requires IsAlmostKnownAs(ex, d) && d.vols == map[]
    ensures IsKnownAs(ex, d)
  {
    hide BaseName;
  }

  lemma NotReported(events: seq<Event>, o: Oracle, link: NonEmpty)
    requires !Acceptable(link, true)
    ensures forall r :: Examiner(events + [DeviceAdded(o, link)], r) == Examiner(events, r)
  {
    hide Acceptable, LinkNumber;
    assert (events + [DeviceAdded(o, link)])[..|events|] == events;
  }

  lemma RemovedExaminer(events: seq<Event>, o: Oracle, link: NonEmpty)
    ensures forall r :: Examiner(events + [DeviceGone(o, link)], r) == if r == link then None else Examiner(events, r)
  {
    hide Acceptable, LinkNumber;
    assert (events + [DeviceGone(o, link)])[..|events|] == events;
  }

  lemma {:induction false} RemovedDeviceKnown(events: seq<Event>, o: Oracle, s: State, link: NonEmpty)
    requires RegOk(s.devs) && AllKnown(events, s.devs)
    ensures AllKnown(events + [DeviceGone(o, link)], HandleRemovedDevice(o, s, link).devs)
  {
    hide HandleRemovedDevice, RegOk, IsKnownAs, IsAlmostKnownAs, Examiner, LinkNames;
    RemovedExaminer(events, o, link);
    RemovedRegistry(s, o, link);
    RemovedNames(o, s, link);
  }

  lemma {:induction false} RunKnown(cfg: Config, foreign: map<string, string>, events: seq<Event>)
    requires ManagedRun(events) && !Run(cfg, Start(foreign), events).stuck
    ensures AllKnown(events, Run(cfg, Start(foreign), events).devs)
  {
    hide HandleNewDevice, HandleRemovedDevice, AllKnown;
    if events == [] {
      NothingKnown();
    } else {
      var n := |events| - 1;
      var s := Run(cfg, Start(foreign), events[..n]);
      assert events[n].IsManaged() && events == events[..n] + [events[n]];
      RunKnown(cfg, foreign, events[..n]);
      RunOk(cfg, foreign, events[..n]);
      match events[n]
      case DeviceAdded(o, link) => NewDeviceKnown(cfg, events[..n], o, s, link);
      case DeviceGone(o, link) => RemovedDeviceKnown(events[..n], o, s, link);
    }
  }

  lemma NothingKnown()
    ensures AllKnown([], map[])
  {
  }

  /** What the answers say about the device `r`: whether it is a USB device. */
  predicate FoundOnUsb(ex: Option<Oracle>, r: string) {
    ex.Some? && ex.value.deviceInfo(r).Some? && ex.value.deviceInfo(r).value.isUsb
  }

  predicate FollowsReport(ex: Option<Oracle>, d: Dev) {
    && (d.state == Synthetic <==> ex == None)
    && (d.state == Broken <==> ex.Some? && !FoundOnUsb(ex, d.devlink))
    && (d.state == Probed <==> FoundOnUsb(ex, d.devlink) && d.vols == map[])
    && (d.state == Ok <==> FoundOnUsb(ex, d.devlink) && d.vols != map[])
    && d.state != Rejected
    && (ex.Some? ==> d.name == BaseName(d.devlink))
    && (FoundOnUsb(ex, d.devlink) ==>
          d.uuid == ex.value.deviceInfo(d.devlink).value.uuid && d.port == ex.value.deviceInfo(d.devlink).value.port)
  }

  /** In managed mode the state of every device follows from what has been reported:
      it is unexamined exactly as long as its own link has not been reported, broken
      exactly if it was no USB device then, waiting for volumes exactly if it was one and
      has none, and accepted exactly if it was one and has a volume. No device is ever
      rejected. The name of an examined device is the last part of its link, and UUID and
      port of a USB device are those found when it was examined. */
  lemma {:induction false} StatesFollowReports(cfg: Config, foreign: map<string, string>, events: seq<Event>,
                                               trace: seq<State>, k: nat, id: nat)
    requires IsTrace(cfg, foreign, events, trace) && k <= |events| && ManagedRun(events)
    requires !trace[k].stuck && id in trace[k].devs
    ensures FollowsReport(Examiner(events[..k], trace[k].devs[id].devlink), trace[k].devs[id])
  {
    hide Examiner, Step, FollowsReport, IsKnownAs, IsAlmostKnownAs;
    TraceIsRun(cfg, foreign, events, trace, k);
    RunKnown(cfg, foreign, events[..k]);
    KnownFollows(Examiner(events[..k], trace[k].devs[id].devlink), trace[k].devs[id]);
  }

  lemma KnownFollows(ex: Option<Oracle>, d: Dev)
    requires IsKnownAs(ex, d) && IsAlmostKnownAs(ex, d)
    ensures FollowsReport(ex, d)
  {
    hide BaseName;
  }
}
