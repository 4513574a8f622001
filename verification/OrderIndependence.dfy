/** The order in which links are reported does not matter. */
module OrderIndependence {
  import opened Option
  import opened Sets
  import opened Text
  import opened Names
  import opened Platform
  import opened AutoDir
  import opened Devices
  import opened DeviceManager
  import opened Automounter
  import opened RegistryInvariant
  import opened ManagedMode
  import opened Resources
  import opened Duplicates
  import opened EnoughIds
  import opened DeviceStates
  import opened Vacancy

  // ---- What a set of links stands for ------------------------------------------------

  /** How mounting ends: whether the container of a device can be made, and, by
      block device and index, whether a volume can be mounted inside. */
  datatype Fates = Fates(container: bool, volume: (string, int) -> bool)

  /** The oracle does not care about device IDs. */
  ghost predicate IdBlind(cfg: Config, o: Oracle, f: Fates) {
    forall id: nat ::
      && o.mkdirOk(ContainerPath(cfg.workdir, id)) == f.container
      && forall i, devname: string ::
           (o.mkdirOk(MountPath(cfg.workdir, id, i)) && o.mountOk(devname, MountPath(cfg.workdir, id, i)))
           == f.volume(devname, i)
  }

  /** What is known about a volume and about a device, IDs and paths aside. */
  datatype VolFacts = VolFacts(index: int, devname: string, labelText: string, fstype: string, uuid: string,
                               state: VolumeState)

  datatype DevFacts = DevFacts(state: DeviceState, name: string, uuid: string, port: string, open: bool,
                               vols: set<VolFacts>)

  ghost function Roots(o: Oracle, links: set<NonEmpty>): set<string> {
    set l | l in links && Counts(o, l) :: RootOf(o, l)
  }

  ghost function Wholes(o: Oracle, links: set<NonEmpty>): set<string> {
    set l | l in links && LinkNumber(o, l) == 0 :: l
  }

  /** The block devices of the volumes on the device `r`. */
  ghost function Blocks(o: Oracle, links: set<NonEmpty>, r: string): set<NonEmpty> {
    set l | l in links && Counts(o, l) && RootOf(o, l) == r && InfoOf(o, l).Some? :: Devname(o, l)
  }

  /** A device is examined once its own link is reported. */
  ghost function Bare(o: Oracle, links: set<NonEmpty>, r: string): Identity {
    if r in Wholes(o, links) then IdentityBy(o, r) else UNKNOWN
  }

  /** A good device is accepted or rejected when it has a volume. */
  ghost function StateFor(o: Oracle, links: set<NonEmpty>, r: string): DeviceState {
    var b := Bare(o, links, r);
    if b.state == Probed && Blocks(o, links, r) != {} then (if Wanted(b.name) then Ok else Rejected) else b.state
  }

  lemma FilteredByName(d: Dev)
    ensures FilterDev(d) == d.(state := if Wanted(d.name) then Ok else Rejected)
  {
  }

  ghost predicate OpenFor(o: Oracle, f: Fates, links: set<NonEmpty>, r: string) {
    StateFor(o, links, r) == Ok && f.container
  }

  function VolumeFor(o: Oracle, f: Fates, open: bool, devname: NonEmpty): VolFacts
    requires o.volumeInfo(devname).Some?
  {
    var info := o.volumeInfo(devname).value;
    var index := if VolumeNumber(devname) > 0 then VolumeNumber(devname) else -1;
    VolFacts(index, devname, if info.labelText != "" then info.labelText else info.fstype, info.fstype, info.uuid,
             if !open then Pending else if f.volume(devname, index) then Mounted else Unusable)
  }

  ghost function DeviceFor(o: Oracle, f: Fates, links: set<NonEmpty>, r: string): DevFacts {
    var b := Bare(o, links, r);
    DevFacts(StateFor(o, links, r), b.name, b.uuid, b.port, OpenFor(o, f, links, r),
             set b | b in Blocks(o, links, r) :: VolumeFor(o, f, OpenFor(o, f, links, r), b))
  }

  /** The devices and volumes that a set of links stands for, defined without any
      regard to order. */
  ghost function Expected(o: Oracle, f: Fates, links: set<NonEmpty>): map<string, DevFacts> {
    map r | r in Roots(o, links) :: DeviceFor(o, f, links, r)
  }

  function FactsOfVolume(v: Vol): VolFacts {
    VolFacts(v.index, v.devname, v.labelText, v.fstype, v.uuid, v.state)
  }

  function FactsOfDevice(d: Dev): DevFacts {
    DevFacts(d.state, d.name, d.uuid, d.port, d.dir.created, set i | i in d.vols :: FactsOfVolume(d.vols[i]))
  }

  /** The devices and volumes in the registry. */
  ghost function Observed(devs: Registry): map<string, DevFacts> {
    map r | r in (set id | id in devs :: devs[id].devlink) && FindDev(devs, r).Some? ::
      FactsOfDevice(devs[FindDev(devs, r).value])
  }

  // ---- A device matches its links ----------------------------------------------------

  predicate VolMatches(o: Oracle, f: Fates, open: bool, v: Vol) {
    v.devname != "" && o.volumeInfo(v.devname).Some? && FactsOfVolume(v) == VolumeFor(o, f, open, v.devname)
  }

  lemma IndexFor(o: Oracle, f: Fates, open: bool, devname: NonEmpty)
    requires o.volumeInfo(devname).Some?
    ensures VolumeFor(o, f, open, devname).index == VolumeIndex(devname)
  {
  }

  lemma NewVolMatches(o: Oracle, f: Fates, devname: NonEmpty)
    requires o.volumeInfo(devname).Some?
    ensures VolMatches(o, f, false, NewVol(devname, o.volumeInfo(devname).value))
  {
    hide VolumeNumber;
  }

  function BlocksOf(d: Dev): set<string> {
    set i | i in d.vols :: d.vols[i].devname
  }

  /** Up to its own state and the states of its volumes, `d` is what the links say. */
  ghost predicate Carries(o: Oracle, links: set<NonEmpty>, d: Dev) {
    var b := Bare(o, links, d.devlink);
    && d.name == b.name && d.uuid == b.uuid && d.port == b.port
    && BlocksOf(d) == Blocks(o, links, d.devlink)
  }

  ghost predicate Matches(o: Oracle, f: Fates, links: set<NonEmpty>, d: Dev) {
    && Carries(o, links, d)
    && d.state == StateFor(o, links, d.devlink)
    && d.dir.created == OpenFor(o, f, links, d.devlink)
    && (forall i :: i in d.vols ==> VolMatches(o, f, d.dir.created, d.vols[i]))
  }

  lemma MatchingFacts(o: Oracle, f: Fates, links: set<NonEmpty>, d: Dev)
    requires Matches(o, f, links, d)
    ensures FactsOfDevice(d) == DeviceFor(o, f, links, d.devlink)
  {
    var x, y := FactsOfDevice(d), DeviceFor(o, f, links, d.devlink);
    forall v | v in x.vols ensures v in y.vols {
      var i :| i in d.vols && v == FactsOfVolume(d.vols[i]);
      assert VolMatches(o, f, d.dir.created, d.vols[i]);
      assert d.vols[i].devname in BlocksOf(d);
    }
    forall v | v in y.vols ensures v in x.vols {
      var b :| b in Blocks(o, links, d.devlink) && v == VolumeFor(o, f, OpenFor(o, f, links, d.devlink), b);
      assert b in BlocksOf(d);
      var i :| i in d.vols && d.vols[i].devname == b;
      assert VolMatches(o, f, d.dir.created, d.vols[i]);
    }
    assert x.vols == y.vols;
  }

  // ---- Mounting decides fates ----------------------------------------------------------

  /** Volumes that are still waiting although the device is open. */
  ghost predicate VolumesMatch(o: Oracle, f: Fates, d: Dev, todo: set<int>) {
    forall i :: i in d.vols ==>
      VolMatches(o, f, d.dir.created && (i in todo ==> d.vols[i].state != Pending), d.vols[i])
  }

  lemma {:induction false} TryMountFate(cfg: Config, o: Oracle, f: Fates, d: Dev, i: int, todo: set<int>, w: World)
    requires DevOk(d.id, d) && i in todo && todo <= d.vols.Keys && DevShape(cfg, d, todo)
    requires Vacant(cfg, d, w.fs) && IdBlind(cfg, o, f)
    requires VolumesMatch(o, f, d, todo)
    ensures VolumesMatch(o, f, TryMount(cfg, o, d, i, w).0, todo - {i})
  {
    hide MountManaged, MountOutcome, Vacant, IdBlind, VolMatches;
    var d' := TryMount(cfg, o, d, i, w).0;
    var v := d.vols[i];
    assert VolShape(cfg, d, i, todo);
    if v.state == Pending && d.dir.created {
      assert d' == d.(vols := d.vols[i := d'.vols[i]]);
      MountedFate(cfg, o, f, d, i, todo, w);
      TryMountSame(cfg, o, d, i, w);
      VolumeFate(o, f, v, d'.vols[i]);
    }
  }

  lemma VolumeFate(o: Oracle, f: Fates, v: Vol, v': Vol)
    requires VolMatches(o, f, false, v) && SameVol(v, v')
    requires v'.state == if f.volume(v.devname, v.index) then Mounted else Unusable
    ensures VolMatches(o, f, true, v')
  {
    hide VolumeIndex;
  }

  lemma MountedFate(cfg: Config, o: Oracle, f: Fates, d: Dev, i: int, todo: set<int>, w: World)
    requires DevOk(d.id, d) && i in d.vols && DevShape(cfg, d, todo) && d.vols[i].state == Pending && d.dir.created
    requires Vacant(cfg, d, w.fs) && IdBlind(cfg, o, f)
    ensures TryMount(cfg, o, d, i, w).0.vols[i].state == if f.volume(d.vols[i].devname, i) then Mounted else Unusable
  {
    hide MountManaged;
    var m := MountPath(cfg.workdir, d.id, i);
    MountManagedOutcome(cfg, o, d.vols[i], d.dir.path, w.fs);
    assert VolShape(cfg, d, i, todo);
    assert CanMkdir(o, w.fs, m) == o.mkdirOk(m);
  }

  lemma {:induction false} MountPendingFate(cfg: Config, foreign: map<string, string>, o: Oracle, f: Fates, d: Dev,
                                            todo: set<int>, w: World)
    requires DevOk(d.id, d) && todo <= d.vols.Keys && DevShape(cfg, d, todo)
    requires DevFs(cfg, foreign, INEXACT, d, w.fs) && Vacant(cfg, d, w.fs) && IdBlind(cfg, o, f)
    requires VolumesMatch(o, f, d, todo)
    ensures VolumesMatch(o, f, MountPending(cfg, o, d, todo, w).0, {})
    decreases |todo|
  {
    hide TryMount, DevFs, DevShape, IdBlind, VolumesMatch, Vacant;
    if todo != {} {
      var i := Least(todo);
      var (d1, w1) := TryMount(cfg, o, d, i, w);
      TryMountFate(cfg, o, f, d, i, todo, w);
      TryMountLocal(cfg, foreign, INEXACT, o, d, i, todo, w);
      TryMountVacant(cfg, o, d, i, todo, w);
      TryMountSame(cfg, o, d, i, w);
      DevOkSame(d.id, d, d1);
      MountPendingFate(cfg, foreign, o, f, d1, todo - {i}, w1);
    }
  }

  // ---- Registering and engaging ----------------------------------------------------------

  /** The state of `d` is the one the links say, or it has just been probed. */
  ghost predicate StateFits(o: Oracle, f: Fates, links: set<NonEmpty>, d: Dev) {
    var b := Bare(o, links, d.devlink);
    && (if b.state != Probed then d.state == b.state
        else
          || d.state == Probed
          || (Blocks(o, links, d.devlink) != {} && d.state == if Wanted(b.name) then Ok else Rejected))
    && d.dir.created == (d.state == Ok && f.container)
  }

  function Todo(vol: Option<int>): set<int> {
    if vol.Some? then {vol.value} else {}
  }

  lemma CarriesSame(o: Oracle, links: set<NonEmpty>, d: Dev, d': Dev)
    requires Carries(o, links, d) && SameDev(d, d')
    ensures Carries(o, links, d')
  {
    assert BlocksOf(d) == BlocksOf(d') by {
      forall b ensures b in BlocksOf(d) <==> b in BlocksOf(d') {
        assert forall i :: i in d.vols ==> SameVol(d.vols[i], d'.vols[i]);
      }
    }
  }

  lemma HasBlocks(o: Oracle, links: set<NonEmpty>, d: Dev)
    requires Carries(o, links, d)
    ensures d.vols == map[] <==> Blocks(o, links, d.devlink) == {}
  {
    if d.vols != map[] {
      var i := Member(d.vols.Keys);
      assert d.vols[i].devname in BlocksOf(d);
    }
  }

  lemma {:induction false} OpenedMatches(cfg: Config, foreign: map<string, string>, o: Oracle, f: Fates, d: Dev,
                                         w: World)
    requires DevOk(d.id, d) && d.state == Ok && d.dir == NO_DIR
    requires DevFs(cfg, foreign, INEXACT, d, w.fs) && Vacant(cfg, d, w.fs)
    requires forall i :: i in d.vols ==> d.vols[i].state == Pending && Idle(d.vols[i])
    requires IdBlind(cfg, o, f) && VolumesMatch(o, f, d, {})
    ensures var (d2, w2) := OpenContainer(cfg, o, d, w);
            var d' := MountPending(cfg, o, d2, d2.vols.Keys, w2).0;
            SameDev(d, d') && d'.state == Ok && d'.dir.created == f.container && VolumesMatch(o, f, d', {})
  {
    hide TryMount, MountPending, OpenContainer;
    var (d2, w2) := OpenContainer(cfg, o, d, w);
    OpenContainerOutcome(cfg, o, d, w);
    assert d2.dir.created == f.container;
    OpenContainerLocal(cfg, foreign, INEXACT, o, d, w);
    OpenContainerVacant(cfg, o, d, w);
    DevOkSame(d.id, d, d2);
    assert VolumesMatch(o, f, d2, d2.vols.Keys);
    MountPendingFate(cfg, foreign, o, f, d2, d2.vols.Keys, w2);
    MountPendingSame(cfg, o, d2, d2.vols.Keys, w2);
  }

  /** The device has just been probed, and there are volumes to be mounted. */
  lemma {:induction false} ProbedMatches(cfg: Config, foreign: map<string, string>, o: Oracle, f: Fates, d: Dev,
                                         vol: Option<int>, probed: bool, w: World)
    requires DevOk(d.id, d) && (vol.Some? ==> vol.value in d.vols) && EntryShape(cfg, d, vol, probed)
    requires DevFs(cfg, foreign, INEXACT, d, w.fs) && Vacant(cfg, d, w.fs) && IdBlind(cfg, o, f)
    requires VolumesMatch(o, f, d, Todo(vol)) && d.state == Probed
    ensures var d' := Engage(cfg, o, d, vol, probed, w).0;
            && d'.state == (if Wanted(d.name) then Ok else Rejected)
            && d'.dir.created == (d'.state == Ok && f.container)
            && VolumesMatch(o, f, d', {})
  {
    hide TryMount, MountPending, OpenContainer, DevFs, IdBlind, Acceptable, VolMatches;
    FilteredByName(d);
    var d1 := FilterDev(d);
    if d1.state == Ok {
      SameFs(cfg, foreign, INEXACT, d, d1, w.fs);
      OpenedMatches(cfg, foreign, o, f, d1, w);
    }
  }

  lemma {:induction false} EngageMatches(cfg: Config, foreign: map<string, string>, o: Oracle, f: Fates,
                                         links: set<NonEmpty>, d: Dev, vol: Option<int>, probed: bool, w: World)
    requires DevOk(d.id, d) && (vol.Some? ==> vol.value in d.vols) && EntryShape(cfg, d, vol, probed)
    requires DevFs(cfg, foreign, INEXACT, d, w.fs) && Vacant(cfg, d, w.fs) && IdBlind(cfg, o, f)
    requires Carries(o, links, d) && StateFits(o, f, links, d) && VolumesMatch(o, f, d, Todo(vol))
    requires d.vols != map[]
    ensures Matches(o, f, links, Engage(cfg, o, d, vol, probed, w).0)
  {
    hide TryMount, MountPending, OpenContainer, DevFs, IdBlind, Carries, Blocks, Acceptable, VolMatches, IdentityBy,
         Vacant, DevOk;
    HasBlocks(o, links, d);
    var d' := Engage(cfg, o, d, vol, probed, w).0;
    EngageSame(cfg, o, d, vol, probed, w);
    CarriesSame(o, links, d, d');
    CarriesName(o, links, d);
    if d.state == Probed {
      ProbedMatches(cfg, foreign, o, f, d, vol, probed, w);
    } else if d.state == Ok && vol.Some? {
      TryMountFate(cfg, o, f, d, vol.value, {vol.value}, w);
      TryMountSame(cfg, o, d, vol.value, w);
      assert {vol.value} - {vol.value} == {};
    }
  }

  lemma CarriesName(o: Oracle, links: set<NonEmpty>, d: Dev)
    requires Carries(o, links, d)
    ensures d.name == Bare(o, links, d.devlink).name
  {
  }

  /** The link contributes a volume. */
  predicate HasVolume(o: Oracle, link: NonEmpty) {
    Counts(o, link) && InfoOf(o, link).Some?
  }

  /** Two links to volumes on the same device of which the second one to be reported
      is not taken into account as it would have been as the first: a device and one
      of its partitions, or two block devices with the same index. */
  ghost predicate Conflict(o: Oracle, l: NonEmpty, l': NonEmpty) {
    && HasVolume(o, l) && HasVolume(o, l') && RootOf(o, l) == RootOf(o, l')
    && ((LinkNumber(o, l) == 0) != (LinkNumber(o, l') == 0)
        || (VolumeIndex(Devname(o, l)) == VolumeIndex(Devname(o, l')) && Devname(o, l) != Devname(o, l')))
  }

  ghost predicate NoConflict(o: Oracle, links: set<NonEmpty>) {
    forall l, l' {:trigger Conflict(o, l, l')} :: l in links && l' in links ==> !Conflict(o, l, l')
  }

  lemma BlocksGrow(o: Oracle, links: set<NonEmpty>, link: NonEmpty, r: string)
    ensures Blocks(o, links + {link}, r) ==
            Blocks(o, links, r) +
            if Counts(o, link) && RootOf(o, link) == r && InfoOf(o, link).Some? then {Devname(o, link)} else {}
    ensures Wholes(o, links + {link}) == Wholes(o, links) + if LinkNumber(o, link) == 0 then {link} else {}
    ensures Roots(o, links + {link}) == Roots(o, links) + if Counts(o, link) then {RootOf(o, link)} else {}
  {
    hide LinkNumber, RootOf, InfoOf, Devname;
    assert link in links + {link};
    assert forall l :: l in links ==> l in links + {link};
  }

  /** What a new link says about a device that it does not belong to. */
  lemma OtherRoot(o: Oracle, f: Fates, links: set<NonEmpty>, link: NonEmpty, d: Dev)
    requires Matches(o, f, links, d) && (!Counts(o, link) || RootOf(o, link) != d.devlink)
    ensures Matches(o, f, links + {link}, d)
  {
    hide LinkNumber, RootName, InfoOf, Devname, Blocks, Wholes, VolMatches, BlocksOf, Roots, IdentityBy, Wanted,
         Counts;
    CountedRoot(o, link);
    BlocksGrow(o, links, link, d.devlink);
  }

  lemma CountedRoot(o: Oracle, link: NonEmpty)
    ensures LinkNumber(o, link) == 0 ==> Counts(o, link) && RootOf(o, link) == link
  {
    hide LinkNumber;
  }

  lemma UnknownRoot(o: Oracle, f: Fates, links: set<NonEmpty>, id: nat, r: string)
    requires r !in Roots(o, links)
    ensures Matches(o, f, links, NewDev(id, r))
  {
    hide LinkNumber, InfoOf, Devname;
    assert forall l :: l in links && LinkNumber(o, l) == 0 ==> Counts(o, l) && RootOf(o, l) == l;
    assert forall l :: l in links && Counts(o, l) ==> RootOf(o, l) in Roots(o, links);
    assert Blocks(o, links, r) == {};
  }

  /** A whole device is only ever known with its own volume, or without one. */
  lemma WholeDeviceAgain(o: Oracle, links: set<NonEmpty>, link: NonEmpty)
    requires NoConflict(o, links + {link}) && LinkNumber(o, link) == 0 && link in Roots(o, links)
    requires InfoOf(o, link).Some?
    ensures link in links
  {
    hide LinkNumber, RootName, InfoOf, Devname;
    var l :| l in links && Counts(o, l) && RootOf(o, l) == link;
    assert !Conflict(o, l, link);
  }

  lemma ExaminedBare(o: Oracle, f: Fates, links: set<NonEmpty>, link: NonEmpty, d: Dev)
    requires Matches(o, f, links, d) && Counts(o, link) && RootOf(o, link) == d.devlink
    ensures var p := Examined(o, link, d);
            var b := Bare(o, links + {link}, d.devlink);
            && p.name == b.name && p.uuid == b.uuid && p.port == b.port
            && StateFits(o, f, links + {link}, p)
  {
    hide LinkNumber, RootName, InfoOf, Devname, Blocks, Wholes, Acceptable, VolMatches, BlocksOf, Roots, BaseName;
    BlocksGrow(o, links, link, d.devlink);
    assert LinkNumber(o, link) != 0 ==> Bare(o, links + {link}, d.devlink) == Bare(o, links, d.devlink);
  }

  lemma AddedVolMatches(o: Oracle, f: Fates, links: set<NonEmpty>, link: NonEmpty, d: Dev)
    requires DevOk(d.id, d) && NoConflict(o, links + {link}) && RootOf(o, link) == d.devlink && Counts(o, link)
    requires InfoOf(o, link).Some?
    requires BlocksOf(d) == Blocks(o, links, d.devlink) && VolumesMatch(o, f, d, {})
    ensures var (d', vol) := AddVol(d, Devname(o, link), InfoOf(o, link).value);
            && BlocksOf(d') == Blocks(o, links + {link}, d.devlink)
            && VolumesMatch(o, f, d', Todo(vol))
            && d' == d.(vols := d'.vols, refs := d'.refs) && d'.vols != map[]
  {
    hide LinkNumber, RootName, VolumeIndex, Blocks, FindVol, Wholes, VolMatches, Conflict;
    var b := Devname(o, link);
    var (d', vol) := AddVol(d, b, InfoOf(o, link).value);
    BlocksGrow(o, links, link, d.devlink);
    if FindVol(d.vols, b) == None {
      if VolumeIndex(b) in d.vols {
        ClashingBlock(o, f, links, link, d, VolumeIndex(b));
      }
      NewVolMatches(o, f, b);
      BlockAdded(d, VolumeIndex(b), NewVol(b, InfoOf(o, link).value), d');
    } else {
      var i := FindVol(d.vols, b).value;
      assert d.vols[i].devname == b;
      assert b in BlocksOf(d);
      StillMatching(o, f, d, Todo(vol));
    }
  }

  lemma BlockAdded(d: Dev, i: int, v: Vol, d': Dev)
    requires i !in d.vols && d'.vols == d.vols[i := v]
    ensures BlocksOf(d') == BlocksOf(d) + {v.devname}
  {
    assert d'.vols[i].devname == v.devname;
    assert forall j :: j in d.vols ==> d'.vols[j] == d.vols[j];
  }

  lemma StillMatching(o: Oracle, f: Fates, d: Dev, todo: set<int>)
    requires VolumesMatch(o, f, d, {})
    ensures VolumesMatch(o, f, d, todo)
  {
  }

  lemma ClashingBlock(o: Oracle, f: Fates, links: set<NonEmpty>, link: NonEmpty, d: Dev, i: int)
    requires DevOk(d.id, d) && NoConflict(o, links + {link}) && RootOf(o, link) == d.devlink && Counts(o, link)
    requires InfoOf(o, link).Some?
    requires BlocksOf(d) == Blocks(o, links, d.devlink) && VolumesMatch(o, f, d, {})
    requires i in d.vols && i == VolumeIndex(Devname(o, link))
    ensures d.vols[i].devname == Devname(o, link)
  {
    hide LinkNumber, RootOf, VolumeIndex;
    assert d.vols[i].devname in BlocksOf(d);
    var l :| l in links && Counts(o, l) && RootOf(o, l) == d.devlink && InfoOf(o, l).Some?
      && Devname(o, l) == d.vols[i].devname;
    assert VolMatches(o, f, d.dir.created, d.vols[i]);
    IndexFor(o, f, d.dir.created, Devname(o, l));
    assert VolumeIndex(Devname(o, l)) == i;
    assert !Conflict(o, l, link);
  }

  /** Registering a link makes its device carry one more link. */
  lemma RegisterOnMatches(o: Oracle, f: Fates, links: set<NonEmpty>, link: NonEmpty, d: Dev, known: bool)
    requires DevOk(d.id, d) && Matches(o, f, links, d) && Counts(o, link) && RootOf(o, link) == d.devlink
    requires NoConflict(o, links + {link})
    requires known <==> d.devlink in Roots(o, links)
    ensures var (d', vol) := RegisterOn(o, link, d, known);
            && Carries(o, links + {link}, d') && StateFits(o, f, links + {link}, d')
            && VolumesMatch(o, f, d', Todo(vol))
            && d'.devlink == d.devlink
  {
    hide LinkNumber, RootName, InfoOf, Devname, VolumeIndex, Blocks, FindVol, AddVol, Examined, Roots, StateFits,
         VolumesMatch, NoConflict, Bare, BlocksOf;
    var p := Examined(o, link, d);
    var (d', vol) := RegisterOn(o, link, d, known);
    ExaminedSame(o, link, d);
    ExaminedBare(o, f, links, link, d);
    AllMatch(o, f, links, d, p);
    ExaminedTwice(o, link, d);
    SameFits(o, f, links + {link}, p, d');
    RegisteredVolumes(o, f, links, link, p, known);
  }

  lemma ExaminedTwice(o: Oracle, link: NonEmpty, d: Dev)
    ensures var p := Examined(o, link, d); Examined(o, link, p) == p
  {
    hide LinkNumber;
  }

  lemma SameFits(o: Oracle, f: Fates, links: set<NonEmpty>, p: Dev, d: Dev)
    requires StateFits(o, f, links, p) && d == p.(vols := d.vols, refs := d.refs)
    ensures StateFits(o, f, links, d)
  {
    hide Blocks, Bare, Acceptable;
  }

  lemma {:induction false} RegisteredVolumes(o: Oracle, f: Fates, links: set<NonEmpty>, link: NonEmpty, p: Dev,
                                             known: bool)
    requires DevOk(p.id, p) && VolumesMatch(o, f, p, {}) && BlocksOf(p) == Blocks(o, links, p.devlink)
    requires Counts(o, link) && RootOf(o, link) == p.devlink && Examined(o, link, p) == p
    requires NoConflict(o, links + {link})
    requires known <==> p.devlink in Roots(o, links)
    ensures var (d', vol) := RegisterOn(o, link, p, known);
            BlocksOf(d') == Blocks(o, links + {link}, p.devlink) && VolumesMatch(o, f, d', Todo(vol))
  {
    hide LinkNumber, InfoOf, Devname, VolumeIndex, Blocks, FindVol, AddVol, Examined, Roots, VolumesMatch, NoConflict;
    BlocksGrow(o, links, link, p.devlink);
    if LinkNumber(o, link) == 0 && known {
      StillMatching(o, f, p, Todo(FindVol(p.vols, Devname(o, link))));
      if InfoOf(o, link).Some? {
        WholeDeviceAgain(o, links, link);
        assert links + {link} == links;
      }
    } else if InfoOf(o, link).Some? {
      AddedVolMatches(o, f, links, link, p);
    } else {
      StillMatching(o, f, p, {});
    }
  }

  lemma AllMatch(o: Oracle, f: Fates, links: set<NonEmpty>, d: Dev, p: Dev)
    requires Matches(o, f, links, d) && p == d.(name := p.name, state := p.state, port := p.port, uuid := p.uuid)
    ensures VolumesMatch(o, f, p, {}) && BlocksOf(p) == Blocks(o, links, p.devlink)
  {
    hide Blocks;
  }

  // ---- Runs --------------------------------------------------------------------------

  /** The registry is what the links stand for. */
  ghost predicate InSync(o: Oracle, f: Fates, links: set<NonEmpty>, devs: Registry) {
    && (forall id :: id in devs ==> Matches(o, f, links, devs[id]) && devs[id].devlink in Roots(o, links))
    && (forall r :: r in Roots(o, links) ==> exists id :: id in devs && devs[id].devlink == r)
  }

  lemma {:induction false} InSyncObserved(o: Oracle, f: Fates, links: set<NonEmpty>, devs: Registry)
    requires RegOk(devs) && InSync(o, f, links, devs)
    ensures Observed(devs) == Expected(o, f, links)
  {
    hide DeviceFor, Matches, Roots, FactsOfDevice, FindDev;
    forall id | id in devs
      ensures FactsOfDevice(devs[id]) == DeviceFor(o, f, links, devs[id].devlink)
      ensures FindDev(devs, devs[id].devlink) == Some(id)
    {
      MatchingFacts(o, f, links, devs[id]);
      FindDevUnique(devs, devs[id].devlink, id);
    }
    assert Observed(devs).Keys == Expected(o, f, links).Keys;
  }

  lemma NewDeviceInSync(cfg: Config, foreign: map<string, string>, o: Oracle, f: Fates, links: set<NonEmpty>,
                        s: State, link: NonEmpty)
    requires ManagedInv(cfg, foreign, INEXACT, s) && Ready(cfg, o, s, link) && InSync(o, f, links, s.devs)
    requires IdBlind(cfg, o, f) && NoConflict(o, links + {link})
    requires Acceptable(link, true) && !Blocked(o, s.devs, link)
    ensures InSync(o, f, links + {link}, HandleNewDevice(cfg, o, s, link).devs)
  {
    hide NewEntry, Engage, RegisterOn, LinkNumber, RootOf, InfoOf, Acceptable, Blocked, Roots, Matches, IdBlind,
         NoConflict;
    BlocksGrow(o, links, link, "");
    if !Counts(o, link) {
      UncountedLink(cfg, foreign, o, s, link);
      forall id | id in s.devs ensures Matches(o, f, links + {link}, s.devs[id]) {
        OtherRoot(o, f, links, link, s.devs[id]);
      }
    } else {
      CountedLink(cfg, foreign, o, f, links, s, link);
    }
  }

  lemma UncountedLink(cfg: Config, foreign: map<string, string>, o: Oracle, s: State, link: NonEmpty)
    requires ManagedInv(cfg, foreign, INEXACT, s) && !Counts(o, link)
    ensures HandleNewDevice(cfg, o, s, link) == s
  {
    ProcessedLinkChangesNothing(cfg, foreign, o, s, link);
  }

  lemma CountedLink(cfg: Config, foreign: map<string, string>, o: Oracle, f: Fates, links: set<NonEmpty>, s: State,
                    link: NonEmpty)
    requires ManagedInv(cfg, foreign, INEXACT, s) && Ready(cfg, o, s, link) && InSync(o, f, links, s.devs)
    requires IdBlind(cfg, o, f) && NoConflict(o, links + {link})
    requires Acceptable(link, true) && !Blocked(o, s.devs, link) && Counts(o, link)
    ensures InSync(o, f, links + {link}, HandleNewDevice(cfg, o, s, link).devs)
  {
    hide RegisterOn, LinkNumber, RootOf, InfoOf, Acceptable, Blocked, Roots, Matches, Engage, NewEntry;
    CountedDevice(cfg, foreign, o, f, links, s, link);
    HandleNewDeviceOk(cfg, o, s, link);
    CountedEntry(o, s, link);
    var id := NewEntry(o, s.devs, s.cursor, link).dev.value;
    if id in s.devs {
      FindDevUnique(s.devs, s.devs[id].devlink, id);
    }
    CountedRegistry(o, f, links, s.devs, id, HandleNewDevice(cfg, o, s, link).devs[id], link);
  }

  lemma CountedDevice(cfg: Config, foreign: map<string, string>, o: Oracle, f: Fates, links: set<NonEmpty>, s: State,
                      link: NonEmpty)
    requires ManagedInv(cfg, foreign, INEXACT, s) && Ready(cfg, o, s, link) && InSync(o, f, links, s.devs)
    requires IdBlind(cfg, o, f) && NoConflict(o, links + {link})
    requires Acceptable(link, true) && !Blocked(o, s.devs, link) && Counts(o, link)
    ensures var e := NewEntry(o, s.devs, s.cursor, link);
            var s' := HandleNewDevice(cfg, o, s, link);
            && e.dev.Some? && e.dev.value in s'.devs && s'.devs == s.devs[e.dev.value := s'.devs[e.dev.value]]
            && s'.devs[e.dev.value].devlink == RootOf(o, link)
            && Matches(o, f, links + {link}, s'.devs[e.dev.value])
  {
    hide RegisterOn, LinkNumber, RootOf, InfoOf, Acceptable, Blocked, Roots, Matches, Engage, NewEntry, DevFs,
         AllOwned, IdBlind, NoConflict, EntryShape, Vacant, Ready, StateFits, Carries, VolumesMatch, RegOk,
         DevOk, Settled, InSync;
    var e := NewEntry(o, s.devs, s.cursor, link);
    CountedEntry(o, s, link);
    NewEntryOk(o, s.devs, s.cursor, link);
    var id := e.dev.value;
    MemberOk(e.devs, id);
    var d0, d := Before(s.devs, id, RootOf(o, link)), e.devs[id];
    DeviceBefore(o, f, links, s, id, RootOf(o, link));
    RegisterOnMatches(o, f, links, link, d0, FindDev(s.devs, RootOf(o, link)).Some?);
    EntryVacant(cfg, foreign, o, s, link);
    if d.vols == map[] {
      EmptyDevice(o, f, links + {link}, d, e.vol);
    } else {
      EngageMatches(cfg, foreign, o, f, links + {link}, d, e.vol, e.probed, s.world);
      EngageSame(cfg, o, d, e.vol, e.probed, s.world);
    }
  }

  lemma DeviceBefore(o: Oracle, f: Fates, links: set<NonEmpty>, s: State, id: nat, r: string)
    requires RegOk(s.devs) && InSync(o, f, links, s.devs) && (id in s.devs || 1 <= id <= MAX_ID)
    requires if FindDev(s.devs, r).Some? then FindDev(s.devs, r).value == id else id !in s.devs
    ensures var d := Before(s.devs, id, r);
            && DevOk(id, d) && d.id == id && d.devlink == r && Matches(o, f, links, d)
            && (FindDev(s.devs, r).Some? <==> r in Roots(o, links))
  {
    hide Matches, Roots;
    if FindDev(s.devs, r) == None {
      FindDevNone(s.devs, r);
      UnknownRoot(o, f, links, id, r);
    }
  }

  lemma EmptyDevice(o: Oracle, f: Fates, links: set<NonEmpty>, d: Dev, vol: Option<int>)
    requires Carries(o, links, d) && StateFits(o, f, links, d) && VolumesMatch(o, f, d, Todo(vol)) && d.vols == map[]
    ensures Matches(o, f, links, d)
  {
    hide Blocks, Bare, Acceptable;
    HasBlocks(o, links, d);
  }

  lemma {:induction false} CountedRegistry(o: Oracle, f: Fates, links: set<NonEmpty>, devs: Registry, id: nat, d: Dev,
                                           link: NonEmpty)
    requires RegOk(devs) && RegOk(devs[id := d]) && InSync(o, f, links, devs)
    requires d.devlink == RootOf(o, link) && Counts(o, link) && Matches(o, f, links + {link}, d)
    requires id in devs ==> devs[id].devlink == d.devlink
    ensures InSync(o, f, links + {link}, devs[id := d])
  {
    hide LinkNumber, RootOf, InfoOf, Roots, Matches, DevOk, Counts;
    BlocksGrow(o, links, link, "");
    var devs' := devs[id := d];
    forall j | j in devs'
      ensures Matches(o, f, links + {link}, devs'[j]) && devs'[j].devlink in Roots(o, links + {link})
    {
      if j != id {
        assert devs'[j] == devs[j];
        assert devs'[id].devlink != devs'[j].devlink;
        OtherRoot(o, f, links, link, devs[j]);
      }
    }
    forall r | r in Roots(o, links + {link}) ensures exists j :: j in devs' && devs'[j].devlink == r {
      if r == d.devlink {
        assert devs'[id].devlink == r;
      } else {
        var j :| j in devs && devs[j].devlink == r;
        assert devs'[j].devlink == r;
      }
    }
  }

  /** The links that remain when the device named `r` is removed. */
  ghost function Without(o: Oracle, links: set<NonEmpty>, r: string): set<NonEmpty> {
    set l | l in links && RootOf(o, l) != r
  }

  lemma WithoutKeeps(o: Oracle, f: Fates, links: set<NonEmpty>, r: string, d: Dev)
    requires Matches(o, f, links, d) && d.devlink != r
    ensures Matches(o, f, Without(o, links, r), d)
  {
    hide LinkNumber, RootName, InfoOf, Devname, FilterDev;
    assert Blocks(o, Without(o, links, r), d.devlink) == Blocks(o, links, d.devlink);
    assert d.devlink in Wholes(o, Without(o, links, r)) <==> d.devlink in Wholes(o, links) by {
      assert forall l :: l in links && LinkNumber(o, l) == 0 ==> RootOf(o, l) == l;
    }
  }

  lemma {:induction false} RemovedInSync(o: Oracle, f: Fates, links: set<NonEmpty>, s: State, r: string)
    requires RegOk(s.devs) && InSync(o, f, links, s.devs)
    ensures InSync(o, f, Without(o, links, r), HandleRemovedDevice(o, s, r).devs)
  {
    hide LinkNumber, RootOf, InfoOf, HandleRemovedDevice, Matches, RegOk, Counts;
    var devs' := HandleRemovedDevice(o, s, r).devs;
    RemovedRegistry(s, o, r);
    assert Roots(o, Without(o, links, r)) == Roots(o, links) - {r};
    forall id | id in devs' ensures Matches(o, f, Without(o, links, r), devs'[id]) {
      WithoutKeeps(o, f, links, r, s.devs[id]);
    }
    forall x | x in Roots(o, links) - {r} ensures exists id :: id in devs' && devs'[id].devlink == x {
      var id :| id in s.devs && s.devs[id].devlink == x;
      assert id in devs';
    }
  }

  /** The links reported since the last removal of their device. */
  ghost function Delivered(o: Oracle, events: seq<Event>): set<NonEmpty> {
    if events == [] then {}
    else
      var before := Delivered(o, events[..|events| - 1]);
      match events[|events| - 1]
      case DeviceAdded(_, link) => if Acceptable(link, true) then before + {link} else before
      case DeviceGone(_, link) => Without(o, before, link)
      case _ => before
  }

  /** A run in managed mode during which the operating system does not change its
      mind and does not care about IDs, and no links are in conflict that are reported
      at the same time. There are at most 999 devices at a time, and if that many have
      been introduced already, so that IDs are used again, then directories and mounts
      can be given back. */
  ghost predicate SteadyRun(cfg: Config, o: Oracle, f: Fates, events: seq<Event>) {
    && ManagedRun(events) && IdBlind(cfg, o, f)
    && (Introductions(events) <= MAX_ID || (PathsGoBack(o) && FewAtATime(events, |events|)))
    && (forall k :: 0 <= k < |events| ==> events[k].o == o)
    && (forall k: nat {:trigger Instant(k)} :: k <= |events| && Instant(k) ==> NoConflict(o, Delivered(o, events[..k])))
  }

  lemma {:induction false} SteadyPrefix(cfg: Config, o: Oracle, f: Fates, events: seq<Event>, k: nat)
    requires SteadyRun(cfg, o, f, events) && k <= |events|
    ensures SteadyRun(cfg, o, f, events[..k]) && NoConflict(o, Delivered(o, events))
  {
    hide IdBlind, PathsGoBack, NoConflict, Delivered, Introductions, AccountOf;
    var before := events[..k];
    forall j: nat | j <= k ensures before[..j] == events[..j] {
    }
    FewIntroductions(events, k);
    assert Instant(|events|) && events[..|events|] == events;
  }

  lemma {:induction false} SteadyGoesOn(cfg: Config, foreign: map<string, string>, o: Oracle, f: Fates,
                                        events: seq<Event>)
    requires SteadyRun(cfg, o, f, events)
    ensures !Run(cfg, Start(foreign), events).stuck
  {
    hide IdBlind, PathsGoBack, NoConflict, Delivered, Introductions, FewAtATime, AccountOf, Run;
    if Introductions(events) <= MAX_ID {
      FewInAll(events);
    }
    RunCovered(cfg, foreign, events, |events|);
    assert events[..|events|] == events;
  }

  lemma {:induction false} SteadyReady(cfg: Config, foreign: map<string, string>, o: Oracle, f: Fates,
                                       events: seq<Event>)
    requires SteadyRun(cfg, o, f, events) && events != [] && events[|events| - 1].DeviceAdded?
    requires Acceptable(events[|events| - 1].link, true)
    ensures Ready(cfg, o, Run(cfg, Start(foreign), events[..|events| - 1]), events[|events| - 1].link)
  {
    hide IdBlind, NoConflict, Delivered, FewAtATime, Ready, VacantAhead, ManagedInv, Run, NameOf, LinkNames, Acceptable;
    var n := |events| - 1;
    var link := events[n].link;
    var s := Run(cfg, Start(foreign), events[..n]);
    assert events[n].o == o && events[..n] != events;
    if Introductions(events) <= MAX_ID {
      FewIntroductions(events, n);
      LeftoversStayBehind(cfg, foreign, events[..n]);
      ManagedInvariant(cfg, foreign, INEXACT, events[..n]);
      InvariantParts(cfg, foreign, s);
      OneName(o, link, LinkNames(s.devs));
      AheadIsReady(cfg, o, s, link);
    } else {
      assert RunAffords(Exact(true, false), events[..n]);
      ManagedInvariant(cfg, foreign, Exact(true, false), events[..n]);
      ExactIsReady(cfg, foreign, o, s, link);
    }
  }

  lemma {:induction false} AlwaysInSync(cfg: Config, foreign: map<string, string>, o: Oracle, f: Fates,
                                        events: seq<Event>)
    requires SteadyRun(cfg, o, f, events)
    ensures InSync(o, f, Delivered(o, events), Run(cfg, Start(foreign), events).devs)
  {
    hide IdBlind, SteadyRun, NoConflict, HandleNewDevice, HandleRemovedDevice, InSync, Acceptable, Ready, Without;
    if events == [] {
      NothingInSync(o, f);
    } else {
      var n := |events| - 1;
      SteadyPrefix(cfg, o, f, events, n);
      SteadyParts(cfg, o, f, events);
      var s := Run(cfg, Start(foreign), events[..n]);
      AlwaysInSync(cfg, foreign, o, f, events[..n]);
      ManagedInvariant(cfg, foreign, INEXACT, events[..n]);
      SteadyGoesOn(cfg, foreign, o, f, events[..n]);
      SteadyGoesOn(cfg, foreign, o, f, events);
      var links := Delivered(o, events[..n]);
      match events[n]
      case DeviceAdded(_, link) =>
        if Acceptable(link, true) {
          SteadyReady(cfg, foreign, o, f, events);
        }
        AddedInSync(cfg, foreign, o, f, links, s, link);
      case DeviceGone(_, link) =>
        RemovedInSync(o, f, links, s, link);
    }
  }

  lemma SteadyParts(cfg: Config, o: Oracle, f: Fates, events: seq<Event>)
    requires SteadyRun(cfg, o, f, events)
    ensures IdBlind(cfg, o, f) && ManagedRun(events) && forall k :: 0 <= k < |events| ==> events[k].o == o
  {
  }

  lemma NothingInSync(o: Oracle, f: Fates)
    ensures InSync(o, f, {}, map[])
  {
    assert Roots(o, {}) == {};
  }

  lemma AddedInSync(cfg: Config, foreign: map<string, string>, o: Oracle, f: Fates, links: set<NonEmpty>, s: State,
                    link: NonEmpty)
    requires ManagedInv(cfg, foreign, INEXACT, s) && InSync(o, f, links, s.devs)
    requires Acceptable(link, true) ==> Ready(cfg, o, s, link)
    requires IdBlind(cfg, o, f) && (Acceptable(link, true) ==> NoConflict(o, links + {link}))
    requires !HandleNewDevice(cfg, o, s, link).stuck
    ensures var links' := if Acceptable(link, true) then links + {link} else links;
            InSync(o, f, links', HandleNewDevice(cfg, o, s, link).devs)
  {
    hide IdBlind, NoConflict, InSync, ManagedInv, Ready, NewEntry, Engage, Blocked, Acceptable;
    if Acceptable(link, true) && !Blocked(o, s.devs, link) {
      NewDeviceInSync(cfg, foreign, o, f, links, s, link);
    }
  }

  // ---- Main results --------------------------------------------------------------------

  /** Incremental handling refines the definition by sets: whatever the order of the
      events and however often links are reported, at any time the registry holds
      exactly the devices and volumes that the links reported so far stand for. */
  lemma {:induction false} RunsRefineSets(cfg: Config, foreign: map<string, string>, o: Oracle, f: Fates,
                                          events: seq<Event>, trace: seq<State>, k: nat)
    requires IsTrace(cfg, foreign, events, trace) && k <= |events| && SteadyRun(cfg, o, f, events)
    ensures Observed(trace[k].devs) == Expected(o, f, Delivered(o, events[..k]))
  {
    hide Observed, Expected, Delivered, Step, RegOk, InSync, SteadyRun;
    TraceIsRun(cfg, foreign, events, trace, k);
    SteadyPrefix(cfg, o, f, events, k);
    AlwaysInSync(cfg, foreign, o, f, events[..k]);
    RunOk(cfg, foreign, events[..k]);
    InSyncObserved(o, f, Delivered(o, events[..k]), Run(cfg, Start(foreign), events[..k]).devs);
  }

  /** Whenever two runs have left the same links reported, they have the same devices
      and volumes in the same states. */
  lemma {:induction false} OrderDoesNotMatter(cfg: Config, foreign: map<string, string>, o: Oracle, f: Fates,
                                              a: seq<Event>, b: seq<Event>, traceA: seq<State>, traceB: seq<State>,
                                              i: nat, j: nat)
    requires IsTrace(cfg, foreign, a, traceA) && SteadyRun(cfg, o, f, a) && i <= |a|
    requires IsTrace(cfg, foreign, b, traceB) && SteadyRun(cfg, o, f, b) && j <= |b|
    requires Delivered(o, a[..i]) == Delivered(o, b[..j])
    ensures Observed(traceA[i].devs) == Observed(traceB[j].devs)
  {
    hide Observed, Expected, Delivered, Step, SteadyRun;
    RunsRefineSets(cfg, foreign, o, f, a, traceA, i);
    RunsRefineSets(cfg, foreign, o, f, b, traceB, j);
  }
}
