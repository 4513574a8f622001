/** A working directory that cannot be created is not tried again. */
module FailedContainers {
  import opened Option
  import opened Names
  import opened Platform
  import opened Devices
  import opened DeviceManager
  import opened Automounter
  import opened RegistryInvariant
  import opened ManagedMode
  import opened Resources

  /** An accepted device whose working directory could not be created. */
  predicate Closed(d: Dev) {
    d.state == Ok && d.dir.path != "" && !d.dir.created
  }

  lemma RegisterOnClosed(o: Oracle, link: NonEmpty, d: Dev, known: bool)
    requires Closed(d)
    ensures var d' := RegisterOn(o, link, d, known).0; Closed(d') && d'.devlink == d.devlink
  {
    hide AddVol, LinkNumber, InfoOf;
  }

  lemma NewDeviceClosed(cfg: Config, o: Oracle, s: State, link: NonEmpty, id: nat)
    requires RegOk(s.devs) && s.cursor <= MAX_ID && id in s.devs && Closed(s.devs[id])
    ensures var devs := HandleNewDevice(cfg, o, s, link).devs;
            id in devs && Closed(devs[id]) && devs[id].devlink == s.devs[id].devlink
  {
    hide NewEntry, RegisterOn, RootOf, LinkNumber, Blocked, Acceptable, RegOk, TryMount, MountPending;
    if Acceptable(link, true) && !Blocked(o, s.devs, link) {
      var e := NewEntry(o, s.devs, s.cursor, link);
      NewEntryOutcome(o, s.devs, s.cursor, link);
      RegisterOnClosed(o, link, s.devs[id], true);
      if e.dev == Some(id) && e.vol.Some? {
        TryMountSame(cfg, o, e.devs[id], e.vol.value, s.world);
      }
    }
  }

  lemma RemovedDeviceClosed(o: Oracle, s: State, link: string, id: nat)
    requires id in s.devs && s.devs[id].devlink != link
    ensures var devs := HandleRemovedDevice(o, s, link).devs; id in devs && devs[id] == s.devs[id]
  {
    hide RemoveDev;
  }

  /** In managed mode such a device stays closed until it is removed, and none of its
      volumes is ever mounted, whatever the operating system would allow later on. */
  lemma {:induction false} FailedContainerIsFinal(cfg: Config, foreign: map<string, string>, events: seq<Event>,
                                                  trace: seq<State>, i: nat, j: nat, id: nat)
    requires IsTrace(cfg, foreign, events, trace) && ManagedRun(events) && i <= j <= |events|
    requires id in trace[i].devs && trace[i].devs[id].state == Ok && !trace[i].devs[id].dir.created
    requires forall k :: i <= k < j && events[k].DeviceGone? ==> events[k].link != trace[i].devs[id].devlink
    ensures id in trace[j].devs && Closed(trace[j].devs[id]) && trace[j].devs[id].devlink == trace[i].devs[id].devlink
    ensures forall v :: v in trace[j].devs[id].vols ==> trace[j].devs[id].vols[v].state == Pending
    decreases j
  {
    hide HandleNewDevice, HandleRemovedDevice, RegOk;
    if i == j {
      ManagedState(cfg, foreign, INEXACT, events, trace, i);
      assert Settled(cfg, trace[i].devs[id]);
    } else {
      FailedContainerIsFinal(cfg, foreign, events, trace, i, j - 1, id);
      RegistryAlwaysOk(cfg, foreign, events, trace, j - 1);
      assert Instant(j - 1) && events[j - 1].IsManaged();
      var s, ev := trace[j - 1], events[j - 1];
      if ev.DeviceAdded? {
        NewDeviceClosed(cfg, ev.o, s, ev.link, id);
      } else {
        RemovedDeviceClosed(ev.o, s, ev.link, id);
      }
    }
    DeferredMountingDrains(cfg, foreign, events, trace, j, id);
  }
}
