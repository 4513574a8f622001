/** Links may be reported more than once. */
module Duplicates {
  import opened Option
  import opened Names
  import opened Platform
  import opened Devices
  import opened DeviceManager
  import opened Automounter
  import opened RegistryInvariant
  import opened ManagedMode
  import opened Resources

  ghost predicate KnowsVolume(d: Dev, devname: NonEmpty) {
    VolumeIndex(devname) in d.vols || exists i :: i in d.vols && d.vols[i].devname == devname
  }

  ghost predicate Knows(o: Oracle, d: Dev, link: NonEmpty) {
    if LinkNumber(o, link) == 0 then d.state != Synthetic else KnowsVolume(d, Devname(o, link))
  }

  /** All there is to know about `link` has been taken into account. */
  ghost predicate Processed(o: Oracle, devs: Registry, link: NonEmpty) {
    || !Acceptable(link, true)
    || LinkNumber(o, link) < 0
    || (LinkNumber(o, link) > 0 && InfoOf(o, link) == None)
    || (exists id :: id in devs && devs[id].devlink == RootOf(o, link) && Knows(o, devs[id], link))
  }

  lemma RegisterOnKnown(o: Oracle, link: NonEmpty, d: Dev)
    requires Knows(o, d, link) && LinkNumber(o, link) >= 0
    requires LinkNumber(o, link) > 0 ==> InfoOf(o, link).Some?
    ensures RegisterOn(o, link, d, true).0 == d
  {
    hide LinkNumber, VolumeIndex, FindVol;
  }

  lemma EngageKnown(cfg: Config, o: Oracle, d: Dev, vol: Option<int>, w: World)
    requires Settled(cfg, d) && (vol.Some? ==> vol.value in d.vols)
    requires vol.Some? || d.vols != map[]
    ensures Engage(cfg, o, d, vol, false, w) == (d, w)
  {
    if d.state == Ok && vol.Some? {
      assert VolShape(cfg, d, vol.value, {});
    }
  }

  lemma {:induction false} ProcessedLinkChangesNothing(cfg: Config, foreign: map<string, string>, o: Oracle, s: State,
                                                       link: NonEmpty)
    requires ManagedInv(cfg, foreign, INEXACT, s) && Processed(o, s.devs, link)
    ensures HandleNewDevice(cfg, o, s, link) == s
  {
    hide NewEntry, Engage, RegisterOn, Acceptable, LinkNumber, RootOf, InfoOf, Knows;
    if Acceptable(link, true) && LinkNumber(o, link) >= 0 {
      if id :| id in s.devs && s.devs[id].devlink == RootOf(o, link) && Knows(o, s.devs[id], link) {
        FindDevUnique(s.devs, RootOf(o, link), id);
      }
      assert !Blocked(o, s.devs, link);
      ProcessedEntry(o, s, link);
      var e := NewEntry(o, s.devs, s.cursor, link);
      if e.dev.Some? {
        assert Settled(cfg, s.devs[e.dev.value]);
        if e.vol.Some? || s.devs[e.dev.value].vols != map[] {
          EngageKnown(cfg, o, s.devs[e.dev.value], e.vol, s.world);
        }
        assert s.devs[e.dev.value := s.devs[e.dev.value]] == s.devs;
      }
    } else if Acceptable(link, true) {
      NegativeEntry(o, s, link);
    }
  }

  lemma NegativeEntry(o: Oracle, s: State, link: NonEmpty)
    requires s.cursor <= MAX_ID && LinkNumber(o, link) < 0
    ensures !Blocked(o, s.devs, link)
            && NewEntry(o, s.devs, s.cursor, link) == Entry(s.devs, s.cursor, None, None, false)
  {
  }

  lemma {:induction false} ProcessedEntry(o: Oracle, s: State, link: NonEmpty)
    requires RegOk(s.devs) && s.cursor <= MAX_ID && !Blocked(o, s.devs, link)
    requires Acceptable(link, true) && Processed(o, s.devs, link) && LinkNumber(o, link) >= 0
    ensures var e := NewEntry(o, s.devs, s.cursor, link); e.devs == s.devs && e.cursor == s.cursor && !e.probed
  {
    hide RegisterOn, Acceptable, LinkNumber, RootOf, InfoOf, Knows, FreshId, FindDev;
    if LinkNumber(o, link) == 0 || InfoOf(o, link).Some? {
      var id :| id in s.devs && s.devs[id].devlink == RootOf(o, link) && Knows(o, s.devs[id], link);
      FindDevUnique(s.devs, RootOf(o, link), id);
      RegisterOnKnown(o, link, s.devs[id]);
      assert s.devs[id := s.devs[id]] == s.devs;
      KnownNotSynthetic(o, s.devs[id], link);
    }
  }

  lemma KnownNotSynthetic(o: Oracle, d: Dev, link: NonEmpty)
    requires Knows(o, d, link)
    ensures LinkNumber(o, link) == 0 ==> d.state != Synthetic
  {
  }

  // ---- What is known stays known ---------------------------------------------------

  /** Nothing is forgotten from `d` to `d'`. */
  ghost predicate Remembers(d: Dev, d': Dev) {
    && d'.devlink == d.devlink
    && (d.state != Synthetic ==> d'.state != Synthetic)
    && (forall i :: i in d.vols ==> i in d'.vols && d'.vols[i].devname == d.vols[i].devname)
  }

  lemma EngageRemembers(cfg: Config, o: Oracle, d: Dev, vol: Option<int>, probed: bool, w: World)
    requires vol.Some? ==> vol.value in d.vols
    ensures Remembers(d, Engage(cfg, o, d, vol, probed, w).0)
  {
    hide TryMount, MountPending;
    EngageSame(cfg, o, d, vol, probed, w);
    if d.state !in {Synthetic, Broken, Rejected} {
      var d1 := if d.state == Probed then FilterDev(d) else d;
      if d1.state == Ok && (probed || d1.dir.path == "") {
        var (d2, w2) := OpenContainer(cfg, o, d1, w);
        MountPendingSame(cfg, o, d2, d2.vols.Keys, w2);
      } else if d1.state == Ok && vol.Some? {
        TryMountSame(cfg, o, d1, vol.value, w);
      }
    }
  }

  lemma {:induction false} RegisterOnRemembers(o: Oracle, link: NonEmpty, d: Dev, known: bool)
    ensures var d' := RegisterOn(o, link, d, known).0;
            && Remembers(d, d')
            && (LinkNumber(o, link) == 0 ==> d'.state != Synthetic)
            && (!(LinkNumber(o, link) == 0 && known) && InfoOf(o, link).Some? ==> KnowsVolume(d', Devname(o, link)))
  {
    hide LinkNumber, VolumeIndex, Examined;
    ExaminedSame(o, link, d);
    ExaminedReal(o, link, d);
  }

  lemma ExaminedReal(o: Oracle, link: NonEmpty, d: Dev)
    ensures LinkNumber(o, link) == 0 ==> Examined(o, link, d).state != Synthetic
  {
    hide LinkNumber;
  }

  /** Registering a link makes it processed and forgets nothing else. */
  lemma {:induction false} NewEntryRemembers(o: Oracle, s: State, link: NonEmpty)
    requires RegOk(s.devs) && s.cursor <= MAX_ID && !Blocked(o, s.devs, link)
    ensures var e := NewEntry(o, s.devs, s.cursor, link);
            && Processed(o, e.devs, link)
            && (forall id :: id in s.devs ==> id in e.devs && Remembers(s.devs[id], e.devs[id]))
  {
    hide RegisterOn, LinkNumber, RootOf, InfoOf, FreshId, Acceptable, KnowsVolume, DevOk;
    NewEntryOk(o, s.devs, s.cursor, link);
    var e := NewEntry(o, s.devs, s.cursor, link);
    if LinkNumber(o, link) == 0 || (LinkNumber(o, link) > 0 && InfoOf(o, link).Some?) {
      var id := e.dev.value;
      var known := FindDev(s.devs, RootOf(o, link));
      var d := Before(s.devs, id, RootOf(o, link));
      RegisterOnRemembers(o, link, d, known.Some?);
      assert e.devs[id].devlink == RootOf(o, link);
      assert Knows(o, e.devs[id], link);
    }
  }

  lemma StillKnown(o: Oracle, d: Dev, d': Dev, link: NonEmpty)
    requires Knows(o, d, link) && Remembers(d, d')
    ensures Knows(o, d', link)
  {
    hide LinkNumber, VolumeIndex;
    if LinkNumber(o, link) != 0 && VolumeIndex(Devname(o, link)) !in d.vols {
      var i :| i in d.vols && d.vols[i].devname == Devname(o, link);
      assert i in d'.vols && d'.vols[i].devname == Devname(o, link);
    }
  }

  lemma StillProcessed(o: Oracle, devs: Registry, devs': Registry, link: NonEmpty)
    requires Processed(o, devs, link)
    requires forall id :: id in devs && devs[id].devlink == RootOf(o, link) ==>
             id in devs' && Remembers(devs[id], devs'[id])
    ensures Processed(o, devs', link)
  {
    hide Acceptable, LinkNumber, RootOf, InfoOf, Knows;
    if id :| id in devs && devs[id].devlink == RootOf(o, link) && Knows(o, devs[id], link) {
      StillKnown(o, devs[id], devs'[id], link);
    }
  }

  lemma {:induction false} NewDeviceRemembers(cfg: Config, o: Oracle, s: State, link: NonEmpty)
    requires RegOk(s.devs) && s.cursor <= MAX_ID
    ensures var s' := HandleNewDevice(cfg, o, s, link);
            && (forall id :: id in s.devs ==> id in s'.devs && Remembers(s.devs[id], s'.devs[id]))
            && (!s'.stuck ==> Processed(o, s'.devs, link))
  {
    hide NewEntry, Engage, Acceptable, LinkNumber, RootOf, InfoOf, Knows, Blocked, RegOk;
    if Acceptable(link, true) && !Blocked(o, s.devs, link) {
      var e := NewEntry(o, s.devs, s.cursor, link);
      NewEntryRemembers(o, s, link);
      if e.dev.Some? {
        var d := e.devs[e.dev.value];
        EngageRemembers(cfg, o, d, e.vol, e.probed, s.world);
        StillProcessed(o, e.devs, HandleNewDevice(cfg, o, s, link).devs, link);
      }
    }
  }

  lemma RemovalForgetsOne(o: Oracle, s: State, link: string)
    ensures var s' := HandleRemovedDevice(o, s, link);
            forall id :: id in s.devs && s.devs[id].devlink != link ==>
              id in s'.devs && Remembers(s.devs[id], s'.devs[id])
  {
    hide RemoveDev;
  }

  lemma {:induction false} StepRemembers(cfg: Config, s: State, ev: Event, o: Oracle, link: NonEmpty)
    requires RegOk(s.devs) && s.cursor <= MAX_ID && ev.IsManaged() && Processed(o, s.devs, link)
    requires ev.DeviceGone? ==> ev.link != RootOf(o, link)
    ensures Processed(o, Step(cfg, s, ev).devs, link)
  {
    hide HandleNewDevice, RemoveDev, FindDev, Processed, RootOf, RegOk;
    if ev.DeviceAdded? {
      hide Remembers;
      NewDeviceRemembers(cfg, ev.o, s, ev.link);
    } else {
      RemovalForgetsOne(ev.o, s, ev.link);
    }
    StillProcessed(o, s.devs, Step(cfg, s, ev).devs, link);
  }

  // ---- Main result -------------------------------------------------------------------

  /** A second oracle that says the same about what `link` stands for. */
  ghost predicate AgreeOn(o: Oracle, o': Oracle, link: NonEmpty) {
    o'.resolve(link) == o.resolve(link) && o'.volumeInfo(Devname(o, link)) == o.volumeInfo(Devname(o, link))
  }

  lemma {:induction false} ProcessedAfter(cfg: Config, s: State, o: Oracle, link: NonEmpty, between: seq<Event>)
    requires RegOk(s.devs) && s.cursor <= MAX_ID && (!s.stuck ==> Processed(o, s.devs, link))
    requires ManagedRun(between)
    requires forall k :: 0 <= k < |between| && between[k].DeviceGone? ==> between[k].link != RootOf(o, link)
    ensures var s' := Run(cfg, s, between); RegOk(s'.devs) && (!s'.stuck ==> Processed(o, s'.devs, link))
  {
    if between != [] {
      var n := |between| - 1;
      ProcessedAfter(cfg, s, o, link, between[..n]);
      var s1 := Run(cfg, s, between[..n]);
      assert between[n].IsManaged();
      StepOk(cfg, s1, between[n]);
      if !s1.stuck {
        StepRemembers(cfg, s1, between[n], o, link);
      }
    }
  }

  lemma {:induction false} RunAppend(cfg: Config, s: State, a: seq<Event>, b: seq<Event>)
    requires s.cursor <= MAX_ID
    ensures Run(cfg, s, a + b) == Run(cfg, Run(cfg, s, a), b)
  {
    if b == [] {
      assert a + b == a;
    } else {
      var n := |b| - 1;
      assert (a + b)[..|a + b| - 1] == a + b[..n];
      RunAppend(cfg, s, a, b[..n]);
    }
  }

  lemma RepeatedReport(cfg: Config, foreign: map<string, string>, before: seq<Event>, o: Oracle, link: NonEmpty,
                       between: seq<Event>, o': Oracle)
    requires ManagedRun(before) && ManagedRun(between) && AgreeOn(o, o', link)
    requires forall k :: 0 <= k < |between| && between[k].DeviceGone? ==> between[k].link != RootOf(o, link)
    ensures var s := Run(cfg, Start(foreign), before + [DeviceAdded(o, link)] + between);
            Step(cfg, s, DeviceAdded(o', link)) == s
  {
    hide Processed, Step, RootOf;
    var first := before + [DeviceAdded(o, link)];
    var events := first + between;
    assert ManagedRun(events);
    var s0, s1 := Run(cfg, Start(foreign), before), Run(cfg, Start(foreign), first);
    ManagedInvariant(cfg, foreign, INEXACT, before);
    assert first[..|first| - 1] == before;
    FirstReport(cfg, s0, o, link);
    RunAppend(cfg, Start(foreign), first, between);
    ProcessedAfter(cfg, s1, o, link, between);
    ManagedInvariant(cfg, foreign, INEXACT, events);
    SecondReport(cfg, foreign, Run(cfg, s1, between), o, o', link);
  }

  lemma {:induction false} FirstReport(cfg: Config, s: State, o: Oracle, link: NonEmpty)
    requires RegOk(s.devs) && s.cursor <= MAX_ID
    ensures var s' := Step(cfg, s, DeviceAdded(o, link));
            RegOk(s'.devs) && (!s'.stuck ==> Processed(o, s'.devs, link))
  {
    hide Processed, HandleNewDevice;
    NewDeviceRemembers(cfg, o, s, link);
    StepOk(cfg, s, DeviceAdded(o, link));
  }

  lemma {:induction false} SecondReport(cfg: Config, foreign: map<string, string>, s: State, o: Oracle, o': Oracle,
                                        link: NonEmpty)
    requires ManagedInv(cfg, foreign, INEXACT, s) && AgreeOn(o, o', link)
    requires !s.stuck ==> Processed(o, s.devs, link)
    ensures Step(cfg, s, DeviceAdded(o', link)) == s
  {
    hide Processed, HandleNewDevice, AgreeOn, ManagedInv;
    if !s.stuck {
      ProcessedAgreed(o, o', s.devs, link);
      ProcessedLinkChangesNothing(cfg, foreign, o', s, link);
    }
  }

  lemma {:induction false} ProcessedAgreed(o: Oracle, o': Oracle, devs: Registry, link: NonEmpty)
    requires AgreeOn(o, o', link) && Processed(o, devs, link)
    ensures Processed(o', devs, link)
  {
    hide VolumeNumber, RootName, KnowsVolume, Acceptable;
    assert LinkNumber(o', link) == LinkNumber(o, link) && InfoOf(o', link) == InfoOf(o, link);
    assert RootOf(o', link) == RootOf(o, link);
    forall d: Dev ensures Knows(o', d, link) <==> Knows(o, d, link) {
    }
  }

  /** Event `j` reports the link again that event `i` has reported, and in between
      its device has not been removed. */
  ghost predicate ReportedAgain(events: seq<Event>, i: nat, j: nat) {
    && i < j < |events| && events[i].DeviceAdded? && events[j].DeviceAdded? && events[i].link == events[j].link
    && AgreeOn(events[i].o, events[j].o, events[i].link)
    && forall k :: i < k < j && events[k].DeviceGone? ==> events[k].link != RootOf(events[i].o, events[i].link)
  }

  /** Duplicates are harmless in managed mode: a link that has been handled, and
      whose device has not been removed since, may be reported again at any time
      without any effect on the registry, the ID cursor, the file system or the
      signals, whatever has happened in between. */
  lemma {:induction false} DuplicatesAreHarmless(cfg: Config, foreign: map<string, string>, events: seq<Event>,
                                                 trace: seq<State>, i: nat, j: nat)
    requires IsTrace(cfg, foreign, events, trace) && ManagedRun(events) && ReportedAgain(events, i, j)
    ensures trace[j + 1] == trace[j]
  {
    hide Step, RootOf, AgreeOn;
    var before, between := events[..i], events[i + 1..j];
    assert events[..j] == before + [events[i]] + between;
    assert Instant(j);
    TraceIsRun(cfg, foreign, events, trace, j);
    RepeatedReport(cfg, foreign, before, events[i].o, events[i].link, between, events[j].o);
  }
}
