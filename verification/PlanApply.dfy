/** Carrying out a plan: what this device's role wants of it, additions first, each
    action tried whatever became of the others, and every one accounted for. */
module PlanApply {
  import opened Wrappers
  import opened Versions
  import opened Names
  import opened Planning
  import opened PlanOrder
  import opened Roles
  import opened Engine
  import opened Ignore
  import HeldFiles
  import TreePlan
  import Sharing
  import Paths
  import D = Downloads

  // ----- one action

  predicate RestoredElsewhere(s: State, v: FileVersion) {
    v.content.File? && Paths.IsSafe(v.path) && !Live(s.own, v.path)
    && (v.path, v.content.hash) in s.buried
    && TreePlan.Causal(v.vector, s.buried[(v.path, v.content.hash)]) == After
  }

  /** A deletion of this device's own taken back elsewhere: out of Recently deleted
      when its bytes are there, and otherwise known and left with that device. */
  function TakenBack(c: Config, s: State, v: FileVersion): Took {
    if c.role.Replica? || !RestoredElsewhere(s, v) then Took(s, None)
    else
      var key, entry := OnDisk(c, v.path), (v.path, v.content.hash);
      var back := s.(buried := s.buried - {entry});
      if entry !in s.trash then Took(back.(own := s.own[v.path := RowOf(v, false)]), None)
      else if key in s.disk || v.path in c.broken then Took(s, Some(Io))
      else Took(back.(own := s.own[v.path := RowOf(v, true)], disk := s.disk[key := v.content.hash],
                      trash := s.trash - {entry}), None)
  }

  /** Another device's file kept for it, or dropped on its tombstone. */
  function TakenHold(c: Config, src: Source, s: State, owner: DeviceId, v: FileVersion): Took {
    if !Paths.IsSafe(v.path) then Took(s, Some(UnsafePath))
    else if v.content.Deleted? then Took(s.(kept := HeldFiles.KeepEffect(s.kept, HoldFor(owner, v), true)), None)
    else
      var got := BringIn(c, src, s, v.content.hash);
      if got.error.Some? then got
      else
        Took(got.s.(kept := HeldFiles.KeepEffect(s.kept, HoldFor(owner, v), true),
                    chunks := s.chunks + {v.content.hash},
                    told := s.told + [v.content.hash]), None)
  }

  /** The recorded history of a shared row, content left as it is. */
  function MergedRow(s: State, v: FileVersion): State {
    if v.path in s.shared
      then s.(shared := s.shared[v.path := s.shared[v.path].(vector := v.vector, author := v.author, at := v.at)])
    else s
  }

  function Did(c: Config, src: Source, s: State, a: Action): Took {
    match a
    case Offer(_) => Took(s, None)
    case Merge(v) => Took(MergedRow(s, v), None)
    case Adopt(v) => Taken(c, src, s, v)
    case Resurrect(v) => Taken(c, src, s, v)
    case HoldFor(owner, v) => TakenHold(c, src, s, owner, v)
    case Restored(v) => TakenBack(c, s, v)
    case Conflict(keeps, renamed) =>
      // the losing version first, so that stopping between leaves both
      var first := Taken(c, src, s, renamed);
      if first.error.Some? then first else Taken(c, src, first.s, keeps)
  }

  // ----- the whole plan

  datatype PlanStats = PlanStats(
    adopted: nat, merged: nat, conflicts: nat, resurrected: nat, held: nat, offered: nat, left: nat,
    failures: seq<string>)

  const NOTHING := PlanStats(0, 0, 0, 0, 0, 0, 0, [])

  function Counted(p: PlanStats, a: Action): PlanStats {
    match a
    case Offer(_) => p.(offered := p.offered + 1)
    case Merge(_) => p.(merged := p.merged + 1)
    case Adopt(_) => p.(adopted := p.adopted + 1)
    case Resurrect(_) => p.(resurrected := p.resurrected + 1)
    case HoldFor(_, _) => p.(held := p.held + 1)
    case Restored(_) => p.(adopted := p.adopted + 1)
    case Conflict(_, _) => p.(conflicts := p.conflicts + 1)
  }

  /** How far a plan has got; `halted` if the program stopped at one of its actions, and so
      came to none after it. */
  datatype Run = Run(s: State, stats: PlanStats, halted: bool)

  /** After the first actions of an ordered plan, the source having gone or not by the
      time each came up. */
  function Ran(c: Config, src: Source, s: State, ordered: seq<Action>, gone: nat -> bool): Run {
    if ordered == [] then Run(s, NOTHING, false)
    else
      var n := |ordered| - 1;
      var before, a := Ran(c, src, s, ordered[..n], gone), ordered[n];
      if before.halted then before
      else if AsksSource(a) && gone(n) then before.(stats := before.stats.(left := before.stats.left + 1))
      else
        var took, counted := Did(c, src, before.s, a), Counted(before.stats, a);
        if took.error == Some(Halted) then Run(took.s, before.stats, true)
        else
          Run(took.s,
              if took.error.Some? then counted.(failures := counted.failures + [a.Path()]) else counted, false)
  }

  /** A delivery that stops the program: let in, and no second name to be made of its own,
      where one is wanted -- always, for Downloads. */
  predicate HaltsAt(c: Config, s: State, a: Action) { a.Adopt? && HaltsOn(c, s, a.remote) }

  predicate HaltsOn(c: Config, s: State, v: FileVersion) {
    && v.area == Sent && v.content.File? && !Refused(c.rules, v.path)
    && !CanDecorate(v.path) && (c.downloads || LiveAnywhere(s, v.path))
  }

  /** Deliveries are adopted, and no more than that: so it is in every plan. */
  predicate OnlyAdoptsSends(a: Action) {
    match a
    case Resurrect(v) => v.area == Shared
    case Conflict(k, r) => k.area == Shared && r.area == Shared
    case _ => true
  }

  /** How many under a heading are done: all but what would ask a source that has gone by
      then. */
  function Done(ordered: seq<Action>, gone: nat -> bool, h: Heading): nat {
    if ordered == [] then 0
    else
      var n := |ordered| - 1;
      Done(ordered[..n], gone, h)
      + if HeadingOf(ordered[n]) == h && !(AsksSource(ordered[n]) && gone(n)) then 1 else 0
  }

  function Left(ordered: seq<Action>, gone: nat -> bool): nat {
    if ordered == [] then 0
    else
      var n := |ordered| - 1;
      Left(ordered[..n], gone) + if AsksSource(ordered[n]) && gone(n) then 1 else 0
  }

  /** Everything counted, failures apart: a failure counts under its heading too. */
  function Counts(p: PlanStats): nat {
    p.offered + p.merged + p.adopted + p.conflicts + p.resurrected + p.held + p.left
  }

  /** Whatever fails and whenever the source goes, every action is accounted for once:
      only what would ask a source that has gone is left, and every other is done, under
      its own heading. */
  lemma {:induction false} EveryActionIsAccountedFor(c: Config, src: Source, s: State, ordered: seq<Action>,
      gone: nat -> bool)
    ensures var r := Ran(c, src, s, ordered, gone);
            !r.halted ==>
              && Counts(r.stats) == |ordered|
              && r.stats.left == Left(ordered, gone)
              && |r.stats.failures| + r.stats.left <= |ordered|
  {
    hide Did, AsksSource, Counted, Counts;
    if ordered != [] {
      var n := |ordered| - 1;
      EveryActionIsAccountedFor(c, src, s, ordered[..n], gone);
      CountedOnce(Ran(c, src, s, ordered[..n], gone).stats, ordered[n]);
    } else {
      CountsNothing();
    }
  }

  lemma CountedOnce(p: PlanStats, a: Action)
    ensures var q := Counted(p, a); Counts(q) == Counts(p) + 1 && q.left == p.left && q.failures == p.failures
    ensures Counts(p.(left := p.left + 1)) == Counts(p) + 1
    ensures forall failures :: Counts(Counted(p, a).(failures := failures)) == Counts(p) + 1
  {}

  lemma CountsNothing()
    ensures Counts(NOTHING) == 0
  {}

  lemma WantedAreAccountedFor(c: Config, src: Source, s: State, actions: seq<Action>, gone: nat -> bool)
    ensures var r := Ran(c, src, s, Ordered(c.role, actions), gone);
            !r.halted ==>
              Counts(r.stats) == |Wanted(c.role, actions)| && r.stats.left == Left(Ordered(c.role, actions), gone)
  {
    var ordered, wanted := Ordered(c.role, actions), Wanted(c.role, actions);
    OrderedIsPermutation(c.role, actions);
    EveryActionIsAccountedFor(c, src, s, ordered, gone);
    assert |ordered| == |multiset(ordered)| && |wanted| == |multiset(wanted)|;
  }

  lemma {:induction false} HaltedForGood(
    c: Config, src: Source, s: State, ordered: seq<Action>, i: nat, gone: nat -> bool)
    requires i <= |ordered| && Ran(c, src, s, ordered[..i], gone).halted
    ensures Ran(c, src, s, ordered, gone) == Ran(c, src, s, ordered[..i], gone)
    decreases |ordered| - i
  {
    hide Did;
    if i < |ordered| {
      assert ordered[..i + 1][..i] == ordered[..i];
      HaltedForGood(c, src, s, ordered, i + 1, gone);
    } else {
      assert ordered[..i] == ordered;
    }
  }

  /** The program stops exactly if it comes to such a delivery, and does nothing to the device
      there: what was done before stands, and that is all. */
  lemma HaltsExactly(c: Config, src: Source, s: State, ordered: seq<Action>, gone: nat -> bool)
    requires forall i | 0 <= i < |ordered| :: OnlyAdoptsSends(ordered[i])
    ensures Ran(c, src, s, ordered, gone).halted <==>
      exists i | 0 <= i < |ordered| :: Reaches(c, src, s, ordered, gone, i)
    ensures forall i | 0 <= i < |ordered| && Reaches(c, src, s, ordered, gone, i) ::
      Ran(c, src, s, ordered, gone) == Ran(c, src, s, ordered[..i], gone).(halted := true)
  {
    hide Ran, Reaches;
    if Ran(c, src, s, ordered, gone).halted { var i := HaltedWhere(c, src, s, ordered, gone); }
    forall i | 0 <= i < |ordered| && Reaches(c, src, s, ordered, gone, i)
      ensures Ran(c, src, s, ordered, gone) == Ran(c, src, s, ordered[..i], gone).(halted := true)
    {
      ReachedHalts(c, src, s, ordered, gone, i);
    }
  }

  lemma ReachedHalts(c: Config, src: Source, s: State, ordered: seq<Action>, gone: nat -> bool, i: nat)
    requires i < |ordered| && OnlyAdoptsSends(ordered[i]) && Reaches(c, src, s, ordered, gone, i)
    ensures Ran(c, src, s, ordered, gone) == Ran(c, src, s, ordered[..i], gone).(halted := true)
  {
    hide Did, HaltsAt, AsksSource;
    assert ordered[..i + 1][..i] == ordered[..i];
    DoingHalts(c, src, Ran(c, src, s, ordered[..i], gone).s, ordered[i]);
    HaltedForGood(c, src, s, ordered, i + 1, gone);
  }

  lemma {:induction false} HaltedWhere(c: Config, src: Source, s: State, ordered: seq<Action>, gone: nat -> bool)
    returns (i: nat)
    requires Ran(c, src, s, ordered, gone).halted
    requires forall i | 0 <= i < |ordered| :: OnlyAdoptsSends(ordered[i])
    ensures i < |ordered| && Reaches(c, src, s, ordered, gone, i)
  {
    hide Did, HaltsAt, AsksSource;
    var n := |ordered| - 1;
    if Ran(c, src, s, ordered[..n], gone).halted {
      i := HaltedWhere(c, src, s, ordered[..n], gone);
      assert ordered[..n][..i] == ordered[..i];
    } else {
      DoingHalts(c, src, Ran(c, src, s, ordered[..n], gone).s, ordered[n]);
      i := n;
    }
  }

  /** It comes to the action, which stops it. */
  predicate Reaches(c: Config, src: Source, s: State, ordered: seq<Action>, gone: nat -> bool, i: nat)
    requires i < |ordered|
  {
    var before := Ran(c, src, s, ordered[..i], gone);
    !before.halted && !(AsksSource(ordered[i]) && gone(i)) && HaltsAt(c, before.s, ordered[i])
  }

  lemma DoingHalts(c: Config, src: Source, s: State, a: Action)
    requires OnlyAdoptsSends(a)
    ensures Did(c, src, s, a).error == Some(Halted) <==> HaltsAt(c, s, a)
    ensures HaltsAt(c, s, a) ==> Did(c, src, s, a).s == s
  {
    hide Taken, HaltsOn, TakenHold, TakenBack;
    match a
    case Adopt(v) => TakingHalts(c, src, s, v);
    case Resurrect(v) =>
      TakingHalts(c, src, s, v);
      SharedNeverHalts(c, s, v);
    case Conflict(k, r) =>
      TakingHalts(c, src, s, r);
      TakingHalts(c, src, Taken(c, src, s, r).s, k);
      SharedNeverHalts(c, s, r);
      SharedNeverHalts(c, Taken(c, src, s, r).s, k);
    case HoldFor(owner, v) => HoldingNeverHalts(c, src, s, owner, v);
    case Restored(v) => HoldingNeverHalts(c, src, s, c.me, v);
    case _ =>
  }

  lemma SharedNeverHalts(c: Config, s: State, v: FileVersion)
    requires v.area == Shared
    ensures !HaltsOn(c, s, v)
  {}

  lemma HoldingNeverHalts(c: Config, src: Source, s: State, owner: DeviceId, v: FileVersion)
    ensures TakenHold(c, src, s, owner, v).error != Some(Halted) && TakenBack(c, s, v).error != Some(Halted)
  {
    hide Readable, RestoredElsewhere, Paths.IsSafe, HeldFiles.KeepEffect, OnDisk;
  }

  lemma TakingHalts(c: Config, src: Source, s: State, v: FileVersion)
    ensures Taken(c, src, s, v).error == Some(Halted) <==> HaltsOn(c, s, v)
    ensures HaltsOn(c, s, v) ==> Taken(c, src, s, v).s == s
  {
    if v.content.File? {
      TakenIs(c, src, s, v);
      FileNeverHalts(c, src, s, FiledAs(s, v), v);
      DeliveryHalts(c, src, s, v);
      hide Taken, TakenFile, TakenDelivery, FiledAs, LiveAnywhere, Refused, CanDecorate;
    } else {
      hide OnDisk, PrivateHere, Refused;
    }
  }

  lemma DeliveryHalts(c: Config, src: Source, s: State, v: FileVersion)
    requires v.content.File?
    ensures TakenDelivery(c, src, s, v).error == Some(Halted) <==> !CanDecorate(v.path)
    ensures !CanDecorate(v.path) ==> TakenDelivery(c, src, s, v).s == s
  {
    D.StoppedIs(s.desk.files, c.blocked, v);
    hide CanDecorate, BringIn, D.Choose, Delivered;
    BringInNeverHalts(c, src, s, v.content.hash);
  }

  lemma BringInNeverHalts(c: Config, src: Source, s: State, h: Hash)
    ensures BringIn(c, src, s, h).error != Some(Halted)
  {
    hide Readable;
  }

  lemma FileNeverHalts(c: Config, src: Source, s: State, f: FileVersion, sent: FileVersion)
    requires f.content.File?
    ensures TakenFile(c, src, s, f, sent).error != Some(Halted)
  {
    hide Evidence, Readable, Placed, KnowElsewhere, PrivateHere, Materialised, KeptRemotely, Clashes;
  }

  lemma PlansOnlyAdoptSends(view: View, list: seq<FileVersion>, peer: Option<DeviceId>, a: Action)
    requires TreePlan.Filed(view.tree) && a in PlanWith(view, list, peer)
    ensures OnlyAdoptsSends(a)
  {
    WhereFrom(view, list, peer, a);
    var taken := if OtherPerson(view, peer) then InArea(list, Sent) else SharedWith(view, list, peer);
    FilterIs(taken, (v: FileVersion) => v.area == Shared);
    ByPathIs(Reconciled(view, list, peer));
    hide PlanWith, TreePlan.ByPath, TreePlan.Causal, ConflictPath;
  }

  /** The heading an action counts under. */
  datatype Heading = Offered | Merged | Adopted | Conflicted | Resurrected | Kept

  function HeadingOf(a: Action): Heading {
    match a
    case Offer(_) => Offered
    case Merge(_) => Merged
    case Adopt(_) => Adopted
    case Restored(_) => Adopted
    case Resurrect(_) => Resurrected
    case HoldFor(_, _) => Kept
    case Conflict(_, _) => Conflicted
  }

  function Under(p: PlanStats, h: Heading): nat {
    match h
    case Offered => p.offered
    case Merged => p.merged
    case Adopted => p.adopted
    case Resurrected => p.resurrected
    case Kept => p.held
    case Conflicted => p.conflicts
  }

  lemma {:induction false} EveryHeadingIsRight(
    c: Config, src: Source, s: State, ordered: seq<Action>, gone: nat -> bool, h: Heading)
    ensures var r := Ran(c, src, s, ordered, gone); !r.halted ==> Under(r.stats, h) == Done(ordered, gone, h)
  {
    hide Did;
    if ordered != [] { EveryHeadingIsRight(c, src, s, ordered[..|ordered| - 1], gone, h); }
  }

  // ----- renames are free

  /** Something on this device has the bytes: the chunk store, or the file at `x`. */
  predicate Supplies(c: Config, s: State, x: string, h: Hash) {
    h in s.chunks || FileSupplies(c, s, s.shared, x, h) || FileSupplies(c, s, s.own, x, h)
  }

  predicate Apart(c: Config, x: string, p: string) { x != p && OnDisk(c, x) != OnDisk(c, p) }

  /** An action writes neither `x` nor a name the disk takes for it. */
  predicate Spares(c: Config, x: string, a: Action) {
    match a
    case Adopt(v) => Apart(c, x, v.path) && Apart(c, x, ReceivedPath(v))
    case Resurrect(v) => Apart(c, x, v.path) && Apart(c, x, ReceivedPath(v))
    case Conflict(k, r) =>
      Apart(c, x, k.path) && Apart(c, x, ReceivedPath(k)) && Apart(c, x, r.path) && Apart(c, x, ReceivedPath(r))
    case Restored(v) => Apart(c, x, v.path)
    case _ => true
  }

  /** Between two states nothing was asked for `h`. */
  ghost predicate NotAsked(s: State, t: State, h: Hash) {
    s.asked <= t.asked && forall i | |s.asked| <= i < |t.asked| :: t.asked[i] != h
  }

  lemma TakingSpares(c: Config, src: Source, s: State, v: FileVersion, x: string, h: Hash)
    requires Supplies(c, s, x, h) && Apart(c, x, v.path) && Apart(c, x, ReceivedPath(v))
    ensures var t := Taken(c, src, s, v).s;
            Supplies(c, t, x, h) && NotAsked(s, t, h)
  {
    TakingIsProper(c, src, s, v);
    assert Readable(c, s, h);
    var f := FiledAs(s, v);
    assert Apart(c, x, f.path);
    hide Taken, Readable, OnDisk, ReceivedPath, Tells, Remembers, IsHere, FiledAs;
    assert SameRow(s.shared, Taken(c, src, s, v).s.shared, x) && SameRow(s.own, Taken(c, src, s, v).s.own, x);
    assert SameFile(s.disk, Taken(c, src, s, v).s.disk, OnDisk(c, x));
  }

  lemma NotAskedTwice(s: State, t: State, u: State, h: Hash)
    requires NotAsked(s, t, h) && NotAsked(t, u, h)
    ensures NotAsked(s, u, h)
  {
    forall i | |s.asked| <= i < |u.asked| ensures u.asked[i] != h {
      if i < |t.asked| { assert u.asked[i] == t.asked[i]; }
    }
  }

  lemma DoingSpares(c: Config, src: Source, s: State, a: Action, x: string, h: Hash)
    requires Supplies(c, s, x, h) && Spares(c, x, a)
    ensures var t := Did(c, src, s, a).s;
            Supplies(c, t, x, h) && NotAsked(s, t, h)
  {
    hide Taken, TakenHold, TakenBack, MergedRow, Supplies, NotAsked, Apart;
    match a
    case Adopt(v) => TakingSpares(c, src, s, v, x, h);
    case Resurrect(v) => TakingSpares(c, src, s, v, x, h);
    case Conflict(k, r) =>
      TakingSpares(c, src, s, r, x, h);
      var first := Taken(c, src, s, r);
      if first.error.None? {
        TakingSpares(c, src, first.s, k, x, h);
        NotAskedTwice(s, first.s, Taken(c, src, first.s, k).s, h);
      }
    case HoldFor(owner, v) => HoldingSpares(c, src, s, owner, v, x, h);
    case Restored(v) => RestoringSpares(c, s, v, x, h);
    case Merge(v) => MergingSpares(c, s, v, x, h);
    case Offer(v) => NothingAsked(s, h);
  }

  lemma NothingAsked(s: State, h: Hash)
    ensures NotAsked(s, s, h)
  {}

  lemma HoldingSpares(c: Config, src: Source, s: State, owner: DeviceId, v: FileVersion, x: string, h: Hash)
    requires Supplies(c, s, x, h)
    ensures var t := TakenHold(c, src, s, owner, v).s;
            Supplies(c, t, x, h) && NotAsked(s, t, h)
  {
    assert Readable(c, s, h);
    hide Readable, BringIn, OnDisk, Paths.IsSafe, HeldFiles.KeepEffect, Live;
    if v.content.File? { BringInIs(c, src, s, v.content.hash); }
  }

  lemma RestoringSpares(c: Config, s: State, v: FileVersion, x: string, h: Hash)
    requires Supplies(c, s, x, h) && Apart(c, x, v.path)
    ensures var t := TakenBack(c, s, v).s;
            Supplies(c, t, x, h) && NotAsked(s, t, h)
  {
    hide OnDisk, RestoredElsewhere;
  }

  lemma MergingSpares(c: Config, s: State, v: FileVersion, x: string, h: Hash)
    requires Supplies(c, s, x, h)
    ensures Supplies(c, MergedRow(s, v), x, h) && NotAsked(s, MergedRow(s, v), h)
  {
    hide OnDisk;
  }

  lemma DeletingAsksNothing(c: Config, src: Source, s: State, a: Action)
    requires Deletes(a)
    ensures Did(c, src, s, a).s.asked == s.asked
  {
    if a.Adopt? { TakingIsProper(c, src, s, a.remote); }
    hide Taken, Confined, OnDisk;
  }

  /** Content this device has when the plan begins -- in the chunk store, or in a file
      at a path no addition of the plan writes -- is never asked of the source, however
      the plan goes: a rename, whose old path only its deletion names, costs no
      transfer. */
  lemma RenamesAreFree(
    c: Config, src: Source, s: State, actions: seq<Action>, gone: nat -> bool, x: string, h: Hash)
    requires Supplies(c, s, x, h)
    requires forall i | 0 <= i < |actions| :: !Deletes(actions[i]) ==> Spares(c, x, actions[i])
    ensures NotAsked(s, Ran(c, src, s, Ordered(c.role, actions), gone).s, h)
  {
    var first, last := Pick(c.role, actions, false), Pick(c.role, actions, true);
    PickedAre(c.role, actions, false);
    PickedAre(c.role, actions, true);
    forall i | 0 <= i < |first| ensures Spares(c, x, first[i]) {
      assert first[i] in actions;
    }
    AdditionsSpare(c, src, s, first, gone, x, h);
    DeletionsSpare(c, src, s, first, last, gone, x, h);
  }

  lemma {:induction false} AdditionsSpare(
    c: Config, src: Source, s: State, ordered: seq<Action>, gone: nat -> bool, x: string, h: Hash)
    requires Supplies(c, s, x, h) && forall i | 0 <= i < |ordered| :: Spares(c, x, ordered[i])
    ensures var t := Ran(c, src, s, ordered, gone).s;
            Supplies(c, t, x, h) && NotAsked(s, t, h)
  {
    hide Did, Spares, Supplies;
    if ordered != [] {
      var n := |ordered| - 1;
      AdditionsSpare(c, src, s, ordered[..n], gone, x, h);
      var t := Ran(c, src, s, ordered[..n], gone).s;
      DoingSpares(c, src, t, ordered[n], x, h);
      if !(AsksSource(ordered[n]) && gone(n)) { NotAskedTwice(s, t, Did(c, src, t, ordered[n]).s, h); }
    }
  }

  lemma {:induction false} DeletionsSpare(
    c: Config, src: Source, s: State, first: seq<Action>, last: seq<Action>, gone: nat -> bool, x: string, h: Hash)
    requires NotAsked(s, Ran(c, src, s, first, gone).s, h) && forall i | 0 <= i < |last| :: Deletes(last[i])
    ensures NotAsked(s, Ran(c, src, s, first + last, gone).s, h)
  {
    hide Did, Deletes;
    if last == [] {
      assert first + last == first;
    } else {
      var n := |last| - 1;
      DeletionsSpare(c, src, s, first, last[..n], gone, x, h);
      assert (first + last)[..|first + last| - 1] == first + last[..n];
      DeletingAsksNothing(c, src, Ran(c, src, s, first + last[..n], gone).s, last[n]);
    }
  }

  // ----- the device

  class Device {
    const c: Config
    var disk: map<string, Hash>
    var shared: map<string, Row>
    var own: map<string, Row>
    var kept: Kept
    var chunks: set<Hash>
    var holders: set<(Hash, DeviceId)>
    var senders: set<(Hash, DeviceId)>
    var wanted: set<string>
    var trash: set<(string, Hash)>
    var buried: map<(string, Hash), Vector>
    var taken: set<Send>
    var desk: D.Desk
    var asked: seq<Hash>
    var told: seq<Hash>
    var denied: seq<Hash>

    /** The device as a value: what the index and the disk are asked of. */
    function Now(): State reads this {
      State(disk, shared, own, kept, chunks, holders, senders, wanted, trash, buried, taken, desk, asked, told, denied)
    }

    constructor (c: Config)
      ensures this.c == c
      ensures Now() == State(map[], map[], map[], map[], {}, {}, {}, {}, {}, map[], {},
        D.Desk(map[], map[], {}, map[]), [], [], [])
    {
      this.c := c;
      disk, shared, own, kept, chunks, holders, senders := map[], map[], map[], map[], {}, {}, {};
      wanted, trash, buried, taken, desk := {}, {}, map[], {}, D.Desk(map[], map[], {}, map[]);
      asked, told, denied := [], [], [];
    }

    /** Put content where it is to be staged: from here, or from the source. */
    method BringInto(src: Source, h: Hash) returns (error: Option<TakeError>)
      modifies this`asked
      ensures Took(Now(), error) == BringIn(c, src, old(Now()), h)
      ensures Asks(c, old(Now()), Now(), h)
    {
      hide Readable;
      if Readable(c, Now(), h) {
        return None;
      }
      asked := asked + [h];
      if h !in src || src[h].Unavailable? {
        return Some(ContentUnavailable);
      }
      if src[h].Failed? {
        return Some(SourceFailed);
      }
      return None;
    }

    method TakeDeletion(v: FileVersion) returns (error: Option<TakeError>)
      modifies this`disk, this`trash, this`shared
      ensures Took(Now(), error) == TakenTombstone(c, old(Now()), v)
    {
      hide OnDisk, Sharing.IsRulePath;
      var key := OnDisk(c, v.path);
      var removes := !c.role.Replica? && !PrivateHere(Now(), v);
      if removes && key in disk {
        if v.path in c.broken {
          return Some(Io);
        }
        if !Sharing.IsRulePath(v.path) {
          trash := trash + {(v.path, disk[key])};
        }
        disk := disk - {key};
      }
      shared := shared[v.path := RowOf(v, false)];
      return None;
    }

    method Know(v: FileVersion)
      requires v.content.File?
      modifies this`shared, this`holders
      ensures Now() == KnowElsewhere(old(Now()), v)
    {
      shared := shared[v.path := RowOf(v, false)];
      holders := holders + {(v.content.hash, v.author)};
    }

    method Remember(v: FileVersion)
      requires v.content.File?
      modifies this`senders, this`holders
      ensures Now() == Evidence(c, old(Now()), v)
    {
      if v.author != c.me {
        if v.area == Sent {
          senders := senders + {(v.content.hash, v.author)};
        } else {
          holders := holders + {(v.content.hash, v.author)};
        }
      }
    }

    /** Bring content in beside its place, move it there, and only then record it and
        say so. */
    method TakeIntoFolder(src: Source, f: FileVersion, sent: FileVersion) returns (error: Option<TakeError>)
      requires f.content.File?
      modifies this
      ensures Took(Now(), error) == TakenIntoFolder(c, src, old(Now()), f, sent)
    {
      hide BringIn, Readable, Placed, KnowElsewhere;
      var p, h := f.path, f.content.hash;
      error := BringInto(src, h);
      if error == Some(ContentUnavailable) && LetGo(Now(), f) {
        Know(f);
        denied := denied + [h];
        return None;
      }
      if error.Some? {
        return;
      }
      if p in c.broken {
        return Some(Io);
      }
      Place(f, sent);
    }

    /** Move what is staged into place, record it, and say so. */
    method Place(f: FileVersion, sent: FileVersion)
      requires f.content.File?
      modifies this`disk, this`wanted, this`own, this`taken, this`shared, this`told
      ensures Now() == Placed(c, old(Now()), f, sent)
    {
      hide OnDisk, PrivateRow, RowOf;
      var p, h := f.path, f.content.hash;
      disk := disk[OnDisk(c, p) := h];
      wanted := wanted - {p};
      told := told + [h];
      if f.area == Sent || f.area == Held {
        own := own[p := PrivateRow(own, f)];
        taken := taken + {D.SendOf(f), D.SendOf(sent)};
      } else {
        shared := shared[p := RowOf(f, true)];
      }
    }

    /** The same without a folder. */
    method TakeAsReplica(src: Source, f: FileVersion) returns (error: Option<TakeError>)
      requires f.content.File?
      modifies this
      ensures Took(Now(), error) == TakenByReplica(c, src, old(Now()), f)
    {
      hide BringIn, Readable;
      var h := f.content.hash;
      error := BringInto(src, h);
      if error.None? {
        shared := shared[f.path := RowOf(f, true)];
        chunks := chunks + {h};
        told := told + [h];
      }
    }

    /** A delivery put in Downloads and recorded as taken. */
    method Deliver(src: Source, v: FileVersion) returns (error: Option<TakeError>)
      requires v.content.File?
      modifies this
      ensures Took(Now(), error) == TakenDelivery(c, src, old(Now()), v)
    {
      hide BringIn, Readable, D.Choose, D.Attempt;
      var place := D.Choose(desk.files, c.blocked, v);
      if place.Neither? {
        return Some(Io);
      }
      if place.Stopped? {
        return Some(Halted);
      }
      error := None;
      if place.Free? {
        error := BringInto(src, v.content.hash);
      }
      if error.None? {
        desk := D.Attempt(desk, c.blocked, v, D.Told);
        taken := taken + {D.SendOf(v)};
        told := told + [v.content.hash];
      }
    }

    /** Any version at all, whichever way this device takes it. */
    method Take(src: Source, v: FileVersion) returns (error: Option<TakeError>)
      modifies this
      ensures Took(Now(), error) == Taken(c, src, old(Now()), v)
      ensures WellTaken(c, old(Now()), Took(Now(), error), v)
    {
      TakingIsProper(c, src, Now(), v);
      hide WellTaken, Refused, CanDecorate;
      hide BringIn, Readable, OnDisk, Clashes, KeptRemotely, LiveAnywhere, TakenTombstone, TakenDelivery,
        TakenByReplica, TakenIntoFolder, Evidence, KnowElsewhere, ReceivedPath, Materialised, PrivateHere;
      if Refused(c.rules, v.path) {
        return Some(UnsafePath);
      }
      if v.area == Sent && v.content.File? && c.downloads {
        error := Deliver(src, v);
        return;
      }
      if v.content.Deleted? {
        error := TakeDeletion(v);
        return;
      }
      if HasNoName(Now(), v) {
        return Some(Halted);
      }
      var f := FiledAs(Now(), v);
      Remember(f);
      if PrivateHere(Now(), f) {
        return Some(TakenPrivately);
      }
      if c.foldCase && exists q | q in shared :: Clashes(Now(), f.path, q) {
        return Some(CaseCollision);
      }
      if c.role.Replica? {
        error := TakeAsReplica(src, f);
        return;
      }
      if f.area == Shared && Materialised(Now(), f.path) != Some(true) && KeptRemotely(c, f.path) && f.path !in wanted {
        Know(f);
        return None;
      }
      error := TakeIntoFolder(src, f, v);
    }

    /** One entry of what is kept for another device, made or taken away. */
    method TakeHold(src: Source, owner: DeviceId, v: FileVersion) returns (error: Option<TakeError>)
      modifies this
      ensures Took(Now(), error) == TakenHold(c, src, old(Now()), owner, v)
    {
      hide BringIn, Readable, HeldFiles.KeepEffect;
      if !Paths.IsSafe(v.path) {
        return Some(UnsafePath);
      }
      if v.content.Deleted? {
        kept := HeldFiles.KeepEffect(kept, HoldFor(owner, v), true);
        return None;
      }
      error := BringInto(src, v.content.hash);
      if error.None? {
        kept := HeldFiles.KeepEffect(kept, HoldFor(owner, v), true);
        chunks := chunks + {v.content.hash};
        told := told + [v.content.hash];
      }
    }

    method TakeBackRestored(v: FileVersion) returns (error: Option<TakeError>)
      modifies this
      ensures Took(Now(), error) == TakenBack(c, old(Now()), v)
    {
      hide OnDisk, TreePlan.Causal, Paths.IsSafe;
      if c.role.Replica? || !RestoredElsewhere(Now(), v) {
        return None;
      }
      var key, entry := OnDisk(c, v.path), (v.path, v.content.hash);
      if entry in trash {
        if key in disk || v.path in c.broken {
          return Some(Io);
        }
        disk, trash := disk[key := v.content.hash], trash - {entry};
        own := own[v.path := RowOf(v, true)];
      } else {
        own := own[v.path := RowOf(v, false)];
      }
      buried := buried - {entry};
      return None;
    }

    method Do(src: Source, a: Action) returns (error: Option<TakeError>)
      modifies this
      ensures Took(Now(), error) == Did(c, src, old(Now()), a)
    {
      hide Taken, TakenHold, TakenBack;
      error := None;
      match a {
        case Offer(_) =>
        case Merge(v) =>
          if v.path in shared {
            shared := shared[v.path := shared[v.path].(vector := v.vector, author := v.author, at := v.at)];
          }
        case Adopt(v) => error := Take(src, v);
        case Resurrect(v) => error := Take(src, v);
        case HoldFor(owner, v) => error := TakeHold(src, owner, v);
        case Restored(v) => error := TakeBackRestored(v);
        case Conflict(keeps, renamed) =>
          error := Take(src, renamed);
          if error.None? {
            error := Take(src, keeps);
          }
      }
    }

    /** What the role wants of a plan, one action after the other, each counted once;
        nothing is reported if the program stops. */
    method ApplyPlan(actions: seq<Action>, src: Source, gone: nat -> bool) returns (stats: Option<PlanStats>)
      modifies this
      ensures var r := Ran(c, src, old(Now()), Ordered(c.role, actions), gone);
              Now() == r.s && stats == if r.halted then None else Some(r.stats)
      ensures stats.Some? ==> Counts(stats.value) == |Wanted(c.role, actions)|
      ensures stats.Some? ==> stats.value.left == Left(Ordered(c.role, actions), gone)
    {
      hide Did;
      WantedAreAccountedFor(c, src, Now(), actions, gone);
      hide Ordered, Wanted, Left, Counted, Counts, AsksSource;
      var ordered := Ordered(c.role, actions);
      var p := NOTHING;
      for i := 0 to |ordered|
        invariant Run(Now(), p, false) == Ran(c, src, old(Now()), ordered[..i], gone)
      {
        assert ordered[..i + 1][..i] == ordered[..i];
        var a := ordered[i];
        if AsksSource(a) && gone(i) {
          p := p.(left := p.left + 1);
          continue;
        }
        var error := Do(src, a);
        if error == Some(Halted) {
          HaltedForGood(c, src, old(Now()), ordered, i + 1, gone);
          return None;
        }
        p := Counted(p, a);
        if error.Some? {
          p := p.(failures := p.failures + [a.Path()]);
        }
      }
      assert ordered[..|ordered|] == ordered;
      return Some(p);
    }
  }
}
