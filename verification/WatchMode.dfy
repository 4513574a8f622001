/** In watch mode the daemon only looks. */
module WatchMode {
  import opened Option
  import opened Sets
  import opened Platform
  import opened Devices
  import opened DeviceManager
  import opened Automounter
  import opened RegistryInvariant

  // ---- Nothing is the daemon's own -------------------------------------------------

  /** Nothing in the file system is the daemon's own. */
  predicate HandsOff(d: Dev) {
    && (d.dir.created ==> d.dir.external)
    && (forall i :: i in d.vols ==> var v := d.vols[i]; !v.mp.dir.created && !v.mp.mounted && v.symlink == "")
  }

  ghost predicate AllHandsOff(fs: Fs, s: State) {
    s.world.fs == fs && forall id :: id in s.devs ==> HandsOff(s.devs[id])
  }

  lemma {:induction false} RegisterOnHandsOff(o: Oracle, link: NonEmpty, d: Dev, known: bool)
    requires HandsOff(d)
    ensures HandsOff(RegisterOn(o, link, d, known).0)
  {
    hide LinkNumber, Examined, FindVol, Devname;
    ExaminedSame(o, link, d);
  }

  lemma NewEntryHandsOff(fs: Fs, o: Oracle, s: State, link: NonEmpty)
    requires AllHandsOff(fs, s) && s.cursor <= MAX_ID && !Blocked(o, s.devs, link)
    ensures AllHandsOff(fs, s.(devs := NewEntry(o, s.devs, s.cursor, link).devs))
  {
    hide NewEntry, RegisterOn, RootOf;
    var e := NewEntry(o, s.devs, s.cursor, link);
    NewEntryOutcome(o, s.devs, s.cursor, link);
    if e != Entry(s.devs, s.cursor, e.dev, None, false) {
      RegisterOnHandsOff(o, link, Before(s.devs, e.dev.value, RootOf(o, link)), FindDev(s.devs, RootOf(o, link)).Some?);
    }
  }

  lemma EngageWatchedHandsOff(cfg: Config, o: Oracle, d: Dev, i: int, path: NonEmpty, w: World)
    requires i in d.vols && HandsOff(d)
    ensures var (d', w') := EngageWatched(cfg, o, d, i, path, w); HandsOff(d') && w'.fs == w.fs
  {
    hide MountManaged;
  }

  lemma {:induction false} DropVolsHandsOff(o: Oracle, d: Dev, fs: Fs)
    requires HandsOff(d)
    ensures var (d', fs') := DropVols(o, d, fs); fs' == fs && d'.dir == d.dir
    decreases |d.vols|
  {
    if d.vols != map[] {
      var i := Least(d.vols.Keys);
      assert EndVol(o, d.vols[i], Unusable, fs).1 == fs;
      assert (d.vols - {i}).Keys == d.vols.Keys - {i};
      DropVolsHandsOff(o, d.(vols := d.vols - {i}, refs := d.refs - 1), fs);
    }
  }

  // ---- Answers to calls that would change something --------------------------------

  /** The oracle that refuses every change to the file system, and otherwise
      answers as `o` does. */
  function Refusing(o: Oracle): Oracle {
    o.(mkdirOk := _ => false, rmdirOk := (_, _) => false, mountOk := (_, _) => false, umountOk := _ => false,
       symlinkOk := _ => false, unlinkOk := _ => false)
  }

  function Refused(ev: Event): Event {
    ev.(o := Refusing(ev.o))
  }

  lemma {:induction false} NewEntryBlind(o: Oracle, devs: Registry, cursor: nat, link: NonEmpty)
    requires cursor <= MAX_ID
    ensures Blocked(Refusing(o), devs, link) == Blocked(o, devs, link)
    ensures !Blocked(o, devs, link) ==> NewEntry(Refusing(o), devs, cursor, link) == NewEntry(o, devs, cursor, link)
  {
    hide AddVol, FindVol, FreshId, FreeIds, FindDev;
    var o' := Refusing(o);
    assert LinkNumber(o', link) == LinkNumber(o, link) && InfoOf(o', link) == InfoOf(o, link);
    assert RootOf(o', link) == RootOf(o, link);
    forall d: Dev ensures Examined(o', link, d) == Examined(o, link, d) {
    }
    forall d: Dev, known: bool ensures RegisterOn(o', link, d, known) == RegisterOn(o, link, d, known) {
      hide Examined;
    }
  }

  lemma {:induction false} EntryBlind(fs: Fs, o: Oracle, s: State, path: NonEmpty)
    requires AllHandsOff(fs, s) && s.cursor <= MAX_ID
    ensures EntryByMountpoint(Refusing(o), s, path) == EntryByMountpoint(o, s, path)
    ensures AllHandsOff(fs, EntryByMountpoint(o, s, path).0)
  {
    hide NewEntry, Blocked, ProbeMountpoint;
    ProbingLeavesNoTrace(o, s, path);
    ProbingLeavesNoTrace(Refusing(o), s, path);
    var (first, second) := o.linksOf(path);
    if first != "" && second != "" {
      NewEntryBlind(o, s.devs, s.cursor, first);
      if !Blocked(o, s.devs, first) {
        NewEntryHandsOff(fs, o, s, first);
        var e1 := NewEntry(o, s.devs, s.cursor, first);
        NewEntryBlind(o, e1.devs, e1.cursor, second);
        if !Blocked(o, e1.devs, second) {
          NewEntryHandsOff(fs, o, s.(devs := e1.devs, cursor := e1.cursor), second);
        }
      }
    }
  }

  lemma EngageWatchedBlind(cfg: Config, o: Oracle, d: Dev, i: int, path: NonEmpty, w: World)
    requires i in d.vols && HandsOff(d)
    ensures EngageWatched(cfg, Refusing(o), d, i, path, w) == EngageWatched(cfg, o, d, i, path, w)
  {
    hide MountManaged;
  }

  lemma {:induction false} RemoveDevBlind(o: Oracle, d: Dev, w: World)
    requires HandsOff(d)
    ensures RemoveDev(Refusing(o), d, w) == RemoveDev(o, d, w)
  {
    hide DropVols;
    DropVolsHandsOff(o, d, w.fs);
    DropVolsHandsOff(Refusing(o), d, w.fs);
    DropVolsKeeps(o, d, w.fs);
    DropVolsKeeps(Refusing(o), d, w.fs);
  }

  // ---- Events ----------------------------------------------------------------------

  lemma {:induction false} WatchStep(cfg: Config, fs: Fs, s: State, ev: Event)
    requires AllHandsOff(fs, s) && s.cursor <= MAX_ID && !ev.IsManaged()
    ensures AllHandsOff(fs, Step(cfg, s, ev))
  {
    hide NewEntry, EngageWatched, Blocked;
    if !s.stuck {
      match ev
      case MountpointAdded(o, path) =>
        EntryBlind(fs, o, s, path);
        var (s1, dev, vol) := EntryByMountpoint(o, s, path);
        if dev.Some? && vol.Some? {
          EngageWatchedHandsOff(cfg, o, s1.devs[dev.value], vol.value, path, s1.world);
        }
      case MountpointGone(o, path) =>
        if path in s.watched && FindDev(s.devs, s.watched[path]).Some? {
          DropVolsHandsOff(o, s.devs[FindDev(s.devs, s.watched[path]).value], s.world.fs);
        }
    }
  }

  /** What the operating system would say to a change is never asked for. */
  lemma {:induction false} WatchStepBlind(cfg: Config, fs: Fs, s: State, ev: Event)
    requires AllHandsOff(fs, s) && s.cursor <= MAX_ID && !ev.IsManaged()
    ensures Step(cfg, s, Refused(ev)) == Step(cfg, s, ev)
  {
    hide NewEntry, EngageWatched, Blocked, Refusing, RemoveDev;
    if !s.stuck {
      match ev
      case MountpointAdded(o, path) =>
        EntryBlind(fs, o, s, path);
        var (s1, dev, vol) := EntryByMountpoint(o, s, path);
        if dev.Some? && vol.Some? {
          EngageWatchedBlind(cfg, o, s1.devs[dev.value], vol.value, path, s1.world);
        }
      case MountpointGone(o, path) =>
        if path in s.watched && FindDev(s.devs, s.watched[path]).Some? {
          RemoveDevBlind(o, s.devs[FindDev(s.devs, s.watched[path]).value], s.world);
        }
    }
  }

  // ---- Main result -------------------------------------------------------------------

  /** Somebody else has changed the file system. */
  function Meanwhile(s: State, fs: Fs): State {
    s.(world := s.world.(fs := fs))
  }

  /** All states of a run in watch mode, from a daemon that knows nothing. Before
      every event others may do to the file system whatever they like: the event
      finds it as `found` says. There are directories, mounts and links in it that
      are not the daemon's, and the watched mountpoints are among them. */
  ghost predicate IsWatch(cfg: Config, events: seq<Event>, found: seq<Fs>, trace: seq<State>) {
    && |found| == |events| && |trace| == |events| + 1
    && trace[0] == Start(map[]).(world := trace[0].world)
    && (forall k :: 0 <= k < |events| ==> !events[k].IsManaged())
    && forall k: nat {:trigger Instant(k)} :: k < |events| && Instant(k) ==>
         trace[k].cursor <= MAX_ID && trace[k + 1] == Step(cfg, Meanwhile(trace[k], found[k]), events[k])
  }

  lemma {:induction false} WatchedHandsOff(cfg: Config, events: seq<Event>, found: seq<Fs>, trace: seq<State>, k: nat)
    requires IsWatch(cfg, events, found, trace) && k <= |events|
    ensures trace[k].cursor <= MAX_ID && AllHandsOff(trace[k].world.fs, trace[k])
    ensures k > 0 ==> trace[k].world.fs == found[k - 1]
  {
    hide Step, HandsOff;
    if k > 0 {
      WatchedHandsOff(cfg, events, found, trace, k - 1);
      assert Instant(k - 1);
      WatchStep(cfg, found[k - 1], Meanwhile(trace[k - 1], found[k - 1]), events[k - 1]);
    }
  }

  /** No mountpoint event ever mounts or unmounts anything, or creates or removes a
      directory or a link, destructors included: whatever is in the file system, it
      is left as it was found, and everything would have gone the same way if the
      operating system had refused all changes. So nothing is undone within an
      event either. */
  lemma {:induction false} WatchingNeverInterferes(cfg: Config, events: seq<Event>, found: seq<Fs>, trace: seq<State>,
                                                   k: nat)
    requires IsWatch(cfg, events, found, trace) && k < |events|
    ensures trace[k + 1].world.fs == found[k]
    ensures trace[k].cursor <= MAX_ID && trace[k + 1] == Step(cfg, Meanwhile(trace[k], found[k]), Refused(events[k]))
  {
    hide Step, HandsOff;
    assert Instant(k);
    WatchedHandsOff(cfg, events, found, trace, k);
    WatchedHandsOff(cfg, events, found, trace, k + 1);
    WatchStepBlind(cfg, found[k], Meanwhile(trace[k], found[k]), events[k]);
  }
}
