/** Device IDs are handed out in turn. */
module RoundRobin {
  import opened Names
  import opened Platform
  import opened DeviceManager
  import opened Automounter
  import opened RegistryInvariant

  // ---- Searching for an ID -----------------------------------------------------------

  /** The cursor after `n` steps. */
  function Advanced(cursor: nat, n: nat): nat
  {
    if n == 0 then cursor else NextId(Advanced(cursor, n - 1))
  }

  lemma {:induction false} GapReaches(cursor: nat, id: nat)
    requires cursor <= MAX_ID && 1 <= id <= MAX_ID
    ensures Gap(cursor, id) > 0 && Advanced(cursor, Gap(cursor, id)) == id
    decreases Gap(cursor, id)
  {
    if NextId(cursor) != id {
      GapReaches(NextId(cursor), id);
      AdvancedFirst(cursor, Gap(NextId(cursor), id));
    } else {
      assert Advanced(cursor, 0) == cursor;
    }
  }

  lemma {:induction false} AdvancedFirst(cursor: nat, n: nat)
    ensures Advanced(cursor, n + 1) == Advanced(NextId(cursor), n)
  {
    if n > 0 {
      AdvancedFirst(cursor, n - 1);
    }
  }

  /** IDs are the numbers from 1 to 999. */
  lemma IdsAre(used: set<nat>)
    ensures forall id: nat :: id in FreeIds(used) <==> 1 <= id <= 999 && id !in used
  {
  }

  /** The search comes to an unused ID exactly if there is one; it has no other
      way to end. */
  lemma SearchEndsIff(used: set<nat>, cursor: nat)
    requires cursor <= MAX_ID
    ensures (exists n: nat :: n > 0 && Advanced(cursor, n) !in used) <==> FreeIds(used) != {}
  {
    if FreeIds(used) != {} {
      GapReaches(cursor, FreshId(used, cursor));
    } else {
      forall n: nat | n > 0 ensures Advanced(cursor, n) in used {
        AdvancedInRange(cursor, n);
        assert Advanced(cursor, n) !in FreeIds(used);
      }
    }
  }

  lemma {:induction false} AdvancedInRange(cursor: nat, n: nat)
    requires cursor <= MAX_ID && n > 0
    ensures 1 <= Advanced(cursor, n) <= MAX_ID
  {
    if n > 1 {
      AdvancedInRange(cursor, n - 1);
    }
  }

  /** The IDs the search passes over are in use. */
  lemma {:induction false} PassedIdsAreInUse(used: set<nat>, cursor: nat, y: nat)
    requires cursor <= MAX_ID && FreeIds(used) != {} && 1 <= y <= MAX_ID
    requires Gap(cursor, y) < Gap(cursor, FreshId(used, cursor))
    ensures y in used
    decreases Gap(cursor, y)
  {
    if y != NextId(cursor) {
      PassedIdsAreInUse(used, NextId(cursor), y);
    }
  }

  /** Handing out an ID brings the cursor closer to every unused ID. */
  lemma CursorApproaches(used: set<nat>, cursor: nat, y: nat)
    requires cursor <= MAX_ID && FreeIds(used) != {} && 1 <= y <= MAX_ID
    requires y !in used && y != FreshId(used, cursor)
    ensures Gap(FreshId(used, cursor), y) < Gap(cursor, y)
  {
    if Gap(cursor, y) < Gap(cursor, FreshId(used, cursor)) {
      PassedIdsAreInUse(used, cursor, y);
    }
  }

  /** An event hands out no ID, or the first free one behind the cursor. */
  ghost predicate HandsOut(s: State, s': State) {
    || (s'.cursor == s.cursor && s'.devs.Keys <= s.devs.Keys)
    || (s.cursor <= MAX_ID && FreeIds(s.devs.Keys) != {} && s'.cursor == FreshId(s.devs.Keys, s.cursor)
        && s'.devs.Keys == s.devs.Keys + {s'.cursor})
  }

  lemma NewEntryHandsOut(o: Oracle, s: State, link: NonEmpty)
    requires s.cursor <= MAX_ID && !Blocked(o, s.devs, link)
    ensures var e := NewEntry(o, s.devs, s.cursor, link); HandsOut(s, s.(devs := e.devs, cursor := e.cursor))
  {
    hide NewEntry, RegisterOn, RootOf, FreshId;
    NewEntryOutcome(o, s.devs, s.cursor, link);
    var e := NewEntry(o, s.devs, s.cursor, link);
    if e.dev.Some? && e.devs != s.devs {
      assert e.devs.Keys == s.devs.Keys + {e.dev.value};
    }
  }

  lemma NewDeviceKeys(cfg: Config, o: Oracle, s: State, link: NonEmpty)
    requires s.cursor <= MAX_ID && Acceptable(link, true) && !Blocked(o, s.devs, link)
    ensures var e := NewEntry(o, s.devs, s.cursor, link);
            var s' := HandleNewDevice(cfg, o, s, link);
            s'.devs.Keys == e.devs.Keys && s'.cursor == e.cursor
  {
    hide NewEntry, Engage, Blocked, Acceptable;
  }

  lemma {:induction false} NewDeviceHandsOut(cfg: Config, o: Oracle, s: State, link: NonEmpty)
    requires s.cursor <= MAX_ID
    ensures HandsOut(s, HandleNewDevice(cfg, o, s, link))
  {
    if Acceptable(link, true) && !Blocked(o, s.devs, link) {
      hide NewEntry, HandleNewDevice, FreshId, FreeIds, Blocked, Acceptable;
      NewEntryHandsOut(o, s, link);
      NewDeviceKeys(cfg, o, s, link);
    }
  }

  /** Handling an event is handing out an ID at most twice, without removing a
      device in between. */
  ghost predicate HandsOutTwice(s: State, m: State, s': State) {
    && HandsOut(s, m) && HandsOut(m, s')
    && (m.devs.Keys == s'.devs.Keys || s.devs.Keys <= m.devs.Keys <= s'.devs.Keys)
  }

  lemma {:induction false} EntryHandsOut(o: Oracle, s: State, path: NonEmpty) returns (m: State)
    requires s.cursor <= MAX_ID
    ensures m.cursor <= MAX_ID && HandsOutTwice(s, m, EntryByMountpoint(o, s, path).0)
  {
    hide NewEntry, Blocked, FreshId, FreeIds;
    var (first, second) := o.linksOf(path);
    var s2 := EntryByMountpoint(o, s, path).0;
    m := s2;
    if o.isDirectory(path) && o.isMountpoint(path) && first != "" && second != "" && !Blocked(o, s.devs, first) {
      NewEntryHandsOut(o, s, first);
      var e1 := NewEntry(o, s.devs, s.cursor, first);
      if e1.dev.Some? && !Blocked(o, e1.devs, second) {
        m := s.(devs := e1.devs, cursor := e1.cursor);
        NewEntryHandsOut(o, m, second);
        KeepsKeys(o, s, first);
        KeepsKeys(o, m, second);
      }
    }
  }

  lemma KeepsKeys(o: Oracle, s: State, link: NonEmpty)
    requires s.cursor <= MAX_ID && !Blocked(o, s.devs, link)
    ensures s.devs.Keys <= NewEntry(o, s.devs, s.cursor, link).devs.Keys
  {
    hide NewEntry, RegisterOn, RootOf;
    NewEntryOutcome(o, s.devs, s.cursor, link);
  }

  lemma {:induction false} StepHandsOut(cfg: Config, s: State, ev: Event) returns (m: State)
    requires s.cursor <= MAX_ID
    ensures m.cursor <= MAX_ID && HandsOutTwice(s, m, Step(cfg, s, ev))
  {
    hide HandleNewDevice, EntryByMountpoint, EngageWatched, RemoveDev, FindDev, FreshId, FreeIds;
    m := Step(cfg, s, ev);
    if !s.stuck {
      match ev
      case DeviceAdded(o, link) => NewDeviceHandsOut(cfg, o, s, link);
      case MountpointAdded(o, path) =>
        m := EntryHandsOut(o, s, path);
        MountpointKeys(cfg, o, s, path);
      case _ =>
    }
  }

  lemma MountpointKeys(cfg: Config, o: Oracle, s: State, path: NonEmpty)
    requires s.cursor <= MAX_ID
    ensures var (s1, s') := (EntryByMountpoint(o, s, path).0, HandleNewMountpoint(cfg, o, s, path));
            s'.devs.Keys == s1.devs.Keys && s'.cursor == s1.cursor
  {
    hide EntryByMountpoint, EngageWatched;
  }

  /** Handing out an ID never moves the cursor away from an unused one. */
  lemma {:induction false} UnusedIdStaysAhead(s: State, s': State, y: nat)
    requires s.cursor <= MAX_ID && s'.cursor <= MAX_ID && HandsOut(s, s')
    requires 1 <= y <= MAX_ID && y !in s.devs && y !in s'.devs
    ensures Gap(s'.cursor, y) <= Gap(s.cursor, y)
  {
    hide Gap, FreshId, FreeIds;
    if s'.cursor != s.cursor {
      CursorApproaches(s.devs.Keys, s.cursor, y);
    }
  }

  /** Handing out `x` brings the cursor closer to an unused ID. */
  lemma {:induction false} HandedOutBefore(s: State, s': State, x: nat, y: nat)
    requires s.cursor <= MAX_ID && HandsOut(s, s') && x !in s.devs && x in s'.devs
    requires 1 <= y <= MAX_ID && y !in s'.devs
    ensures s'.cursor == x && x <= MAX_ID && y !in s.devs && Gap(x, y) < Gap(s.cursor, y)
  {
    hide Gap, FreshId;
    assert y !in s.devs;
    CursorApproaches(s.devs.Keys, s.cursor, y);
  }

  /** An event does not move the cursor away from an ID that stays unused. */
  lemma {:induction false} StepStaysBehind(cfg: Config, s: State, ev: Event, y: nat)
    requires s.cursor <= MAX_ID && 1 <= y <= MAX_ID && y !in s.devs && y !in Step(cfg, s, ev).devs
    ensures Gap(Step(cfg, s, ev).cursor, y) <= Gap(s.cursor, y)
  {
    hide Step, Gap, FreshId, FreeIds, HandsOut;
    var m := StepHandsOut(cfg, s, ev);
    UnusedIdStaysAhead(s, m, y);
    UnusedIdStaysAhead(m, Step(cfg, s, ev), y);
  }

  /** An event that hands out `x` moves the cursor towards every ID that it leaves
      unused, past `x`. */
  lemma {:induction false} IssueApproaches(cfg: Config, s: State, ev: Event, x: nat, y: nat)
    requires s.cursor <= MAX_ID && 1 <= y <= MAX_ID && y !in Step(cfg, s, ev).devs
    requires x !in s.devs && x in Step(cfg, s, ev).devs
    ensures x <= MAX_ID && Gap(Step(cfg, s, ev).cursor, y) <= Gap(x, y) < Gap(s.cursor, y)
  {
    hide Step, Gap, FreshId, FreeIds, HandsOut;
    var s' := Step(cfg, s, ev);
    var m := StepHandsOut(cfg, s, ev);
    if x in m.devs {
      HandedOutBefore(s, m, x, y);
      UnusedIdStaysAhead(m, s', y);
    } else {
      HandedOutBefore(m, s', x, y);
      UnusedIdStaysAhead(s, m, y);
    }
  }

  /** As long as `y` is unused, the cursor does not pass it. */
  lemma {:induction false} UnusedIdApproached(cfg: Config, foreign: map<string, string>, events: seq<Event>,
                                              trace: seq<State>, i: nat, k: nat, y: nat)
    requires IsTrace(cfg, foreign, events, trace) && i <= k <= |events| && 1 <= y <= MAX_ID
    requires forall t :: i <= t <= k ==> y !in trace[t].devs
    ensures trace[i].cursor <= MAX_ID && trace[k].cursor <= MAX_ID
    ensures Gap(trace[k].cursor, y) <= Gap(trace[i].cursor, y)
  {
    hide Step, Gap;
    if i < k {
      UnusedIdApproached(cfg, foreign, events, trace, i, k - 1, y);
      assert Instant(k - 1);
      StepStaysBehind(cfg, trace[k - 1], events[k - 1], y);
    } else {
      TraceIsRun(cfg, foreign, events, trace, k);
    }
  }

  /** Event `k` hands out the ID `x`. */
  ghost predicate Issues(trace: seq<State>, k: nat, x: nat)
    requires k + 1 < |trace|
  {
    x !in trace[k].devs && x in trace[k + 1].devs
  }

  /** Between two events that hand out the same ID, every other ID is in use at
      some time, in any mix of modes. */
  lemma {:induction false} IdsAreReusedInTurn(cfg: Config, foreign: map<string, string>, events: seq<Event>,
                                              trace: seq<State>, i: nat, j: nat, x: nat, y: nat)
    requires IsTrace(cfg, foreign, events, trace)
    requires i < j < |events| && 1 <= y <= MAX_ID && y != x && Issues(trace, i, x) && Issues(trace, j, x)
    ensures exists t :: i < t <= j + 1 && y in trace[t].devs
  {
    hide Step, Gap;
    if forall t :: i < t <= j + 1 ==> y !in trace[t].devs {
      assert Instant(i) && Instant(j);
      IssueApproaches(cfg, trace[i], events[i], x, y);
      IssueApproaches(cfg, trace[j], events[j], x, y);
      UnusedIdApproached(cfg, foreign, events, trace, i + 1, j, y);
    }
  }
}
