/** What syncing with another device can do to the shared area here: plans made from its
    lists, carried out as this device carries plans out, action by action, with the
    source answering as it will and the process stopping where it will. */
module PeerRuns {
  import opened Wrappers
  import opened Versions
  import opened TreePlan
  import opened Sharing
  import opened Names
  import opened Planning
  import opened Roles
  import opened Engine
  import opened PlanApply
  import opened Ignore
  import Paths

  /** The shared rows as the planner is given them. */
  function TreeOf(rows: map<string, Row>): Tree {
    map p | p in rows :: FileVersion(p, rows[p].content, rows[p].vector, rows[p].author, rows[p].at, Shared)
  }

  /** The live rows of this device's own vault. */
  function VaultOf(rows: map<string, Row>): map<string, Hash> {
    map p | p in rows && rows[p].content.File? :: rows[p].content.hash
  }

  /** How far an action got: a conflict can stop between its two files. */
  datatype How = Not | Half | Full

  datatype Step = Step(action: Action, how: How, src: Source)

  type Steps = seq<Step>

  function After(c: Config, s: State, step: Step): State {
    match step.how
    case Not => s
    case Half => if step.action.Conflict? then Taken(c, step.src, s, step.action.renamed).s else s
    case Full => Did(c, step.src, s, step.action).s
  }

  function AfterAll(c: Config, s: State, steps: Steps): State {
    if steps == [] then s else After(c, AfterAll(c, s, steps[..|steps| - 1]), steps[|steps| - 1])
  }

  // ----- one action

  /** No delivery is made everybody's here, and no file fetched back for this device. */
  predicate KeepsApart(c: Config, a: Action) {
    a.Adopt? && a.remote.area != Shared ==>
      a.remote.content.File? && (c.role.Syncing? || (a.remote.area == Sent && c.downloads))
      && (a.remote.area == Sent || a.remote.area == Held)
  }

  lemma ApartChangesNothing(c: Config, src: Source, s: State, v: FileVersion)
    requires v.area != Shared && KeepsApart(c, Adopt(v))
    ensures Taken(c, src, s, v).s.shared == s.shared
  {
    hide Taken;
    if v.area == Sent { DeliveryStaysPrivate(c, src, s, v); } else { PrivateAreasAreOwn(c, src, s, v); }
  }

  lemma RowIs(rows: map<string, Row>, v: FileVersion, here: bool)
    requires v.area == Shared && v.path in rows && rows[v.path] == RowOf(v, here)
    ensures Lookup(TreeOf(rows), v.path) == Some(v)
  {}

  lemma HoldingKeepsShared(c: Config, src: Source, s: State, owner: DeviceId, v: FileVersion)
    ensures TakenHold(c, src, s, owner, v).s.shared == s.shared && TakenHold(c, src, s, owner, v).s.own == s.own
  {
    hide Readable, Paths.IsSafe;
  }

  lemma RestoringKeepsShared(c: Config, s: State, v: FileVersion)
    ensures TakenBack(c, s, v).s.shared == s.shared && (c.role.Replica? ==> TakenBack(c, s, v).s.own == s.own)
  {
    hide OnDisk, RestoredElsewhere;
  }

  /** Protected rows are as they were when the plan was made, and every row says which
      device made it. */
  ghost predicate Unharmed(tree: Tree, folder: string, s: State) {
    Sound(TreeOf(s.shared)) && forall x | Protected(folder, x) :: Lookup(TreeOf(s.shared), x) == Lookup(tree, x)
  }

  /** A shared version that writes nothing protected, unless it puts back the row there. */
  predicate Harmless(tree: Tree, folder: string, v: FileVersion) {
    Fine(v) && (Protected(folder, v.path) ==> Lookup(tree, v.path) == Some(v))
  }

  lemma TakingHarmless(c: Config, src: Source, tree: Tree, folder: string, v: FileVersion, s: State)
    requires Unharmed(tree, folder, s) && Harmless(tree, folder, v)
    ensures Unharmed(tree, folder, Taken(c, src, s, v).s)
  {
    var t := Taken(c, src, s, v).s;
    hide Taken, IsDevice, Protected, RowOf, Sound;
    forall x ensures Lookup(TreeOf(t.shared), x) == Lookup(TreeOf(s.shared), x)
                     || (x == v.path && Lookup(TreeOf(t.shared), x) == Some(v)) {
      SharedRowsAfter(c, src, s, v, x);
      if !SameRow(s.shared, t.shared, x) {
        var here: bool :| t.shared[x] == RowOf(v, here);
        RowIs(t.shared, v, here);
      }
    }
    SoundAfter(TreeOf(s.shared), TreeOf(t.shared), v);
  }

  lemma SoundAfter(a: Tree, b: Tree, v: FileVersion)
    requires Sound(a) && Fine(v)
    requires forall x :: Lookup(b, x) == Lookup(a, x) || (x == v.path && Lookup(b, x) == Some(v))
    ensures Sound(b)
  {
    hide IsDevice;
    forall p | p in b ensures b[p].path == p && b[p].area == Shared && IsDevice(b[p].author) {
      assert Lookup(b, p) == Some(b[p]);
    }
  }

  lemma MergingHarmless(tree: Tree, folder: string, v: FileVersion, s: State)
    requires Unharmed(tree, folder, s) && Fine(v) && !Protected(folder, v.path)
    ensures Unharmed(tree, folder, MergedRow(s, v))
  {
    hide IsDevice, Protected;
    var t := MergedRow(s, v);
    forall x | x != v.path ensures Lookup(TreeOf(t.shared), x) == Lookup(TreeOf(s.shared), x) {}
    forall p | p in TreeOf(t.shared) ensures IsDevice(TreeOf(t.shared)[p].author) {
      if p != v.path { assert Lookup(TreeOf(t.shared), p) == Lookup(TreeOf(s.shared), p); }
    }
  }

  /** An action that spares a folder leaves it unharmed, however far it gets. */
  lemma SparingStep(c: Config, tree: Tree, folder: string, step: Step, s: State)
    requires Unharmed(tree, folder, s) && Planning.Spares(tree, folder, step.action) && KeepsApart(c, step.action)
    ensures Unharmed(tree, folder, After(c, s, step))
  {
    hide Unharmed, Taken, TakenHold, TakenBack, MergedRow, IsDevice, Protected;
    var a, src := step.action, step.src;
    match a
    case Adopt(v) =>
      if v.area == Shared {
        TakingHarmless(c, src, tree, folder, v, s);
      } else {
        ApartChangesNothing(c, src, s, v);
        SameShared(tree, folder, s, Taken(c, src, s, v).s);
      }
    case Resurrect(v) => TakingHarmless(c, src, tree, folder, v, s);
    case Conflict(k, r) =>
      TakingHarmless(c, src, tree, folder, r, s);
      TakingHarmless(c, src, tree, folder, k, Taken(c, src, s, r).s);
    case Merge(v) => MergingHarmless(tree, folder, v, s);
    case HoldFor(owner, v) =>
      HoldingKeepsShared(c, src, s, owner, v);
      SameShared(tree, folder, s, TakenHold(c, src, s, owner, v).s);
    case Restored(v) =>
      RestoringKeepsShared(c, s, v);
      SameShared(tree, folder, s, TakenBack(c, s, v).s);
    case Offer(v) =>
  }

  lemma SameShared(tree: Tree, folder: string, s: State, t: State)
    requires Unharmed(tree, folder, s) && t.shared == s.shared
    ensures Unharmed(tree, folder, t)
  {}

  lemma {:induction false} StepsSpare(c: Config, tree: Tree, folder: string, steps: Steps, s: State)
    requires Unharmed(tree, folder, s)
    requires forall i | 0 <= i < |steps| ::
               Planning.Spares(tree, folder, steps[i].action) && KeepsApart(c, steps[i].action)
    ensures Unharmed(tree, folder, AfterAll(c, s, steps))
  {
    hide Unharmed, After, Planning.Spares, KeepsApart;
    if steps != [] {
      var n := |steps| - 1;
      StepsSpare(c, tree, folder, steps[..n], s);
      SparingStep(c, tree, folder, steps[n], AfterAll(c, s, steps[..n]));
    }
  }

  // ----- a replica's own vault

  /** A replica never files anything in a vault of its own. */
  lemma ReplicaHasNoVault(c: Config, s: State, step: Step)
    requires c.role.Replica?
    ensures After(c, s, step).own == s.own
  {
    hide Taken, TakenHold, TakenBack;
    var a, src := step.action, step.src;
    match a
    case Adopt(v) => ReplicaTakesNoVault(c, src, s, v);
    case Resurrect(v) => ReplicaTakesNoVault(c, src, s, v);
    case Conflict(k, r) =>
      ReplicaTakesNoVault(c, src, s, r);
      ReplicaTakesNoVault(c, src, Taken(c, src, s, r).s, k);
    case HoldFor(owner, v) => HoldingKeepsShared(c, src, s, owner, v);
    case Restored(v) => RestoringKeepsShared(c, s, v);
    case _ =>
  }

  lemma ReplicaTakesNoVault(c: Config, src: Source, s: State, v: FileVersion)
    requires c.role.Replica?
    ensures Taken(c, src, s, v).s.own == s.own
  {
    if v.content.Deleted? {
      TombstoneIs(c, s, v);
      hide TakenTombstone, Refused;
    } else {
      var f := FiledAs(s, v);
      FiledIs(s, v);
      EvidenceIs(c, s, f);
      TakenIs(c, src, s, v);
      DeliveryIs(c, src, s, v, v.path);
      hide FiledAs, Taken, TakenFile, TakenDelivery, Evidence, TakenByReplica, TakenIntoFolder, KnowElsewhere,
        Refused, NameIsFree, PrivateHere;
      FileBranches(c, src, s, f, v);
      ReplicaKeepsVault(c, src, Evidence(c, s, f), f);
    }
  }

  lemma ReplicaKeepsVault(c: Config, src: Source, s: State, f: FileVersion)
    requires f.content.File?
    ensures TakenByReplica(c, src, s, f).s.own == s.own
  {
    hide Readable;
  }

  lemma {:induction false} ReplicaNeverHasVault(c: Config, s: State, steps: Steps)
    requires c.role.Replica?
    ensures AfterAll(c, s, steps).own == s.own
  {
    hide After;
    if steps != [] {
      ReplicaNeverHasVault(c, s, steps[..|steps| - 1]);
      ReplicaHasNoVault(c, AfterAll(c, s, steps[..|steps| - 1]), steps[|steps| - 1]);
    }
  }

  // ----- runs of syncs with one device

  /** A plan made with a peer's list, and what of it was carried out: any of its actions
      the role wants, any number of times and in any order. */
  datatype Sync = Sync(view: View, list: seq<FileVersion>, steps: Steps)

  ghost predicate IsPlan(c: Config, sync: Sync, s: State, p: DeviceId) {
    && sync.view.tree == TreeOf(s.shared) && sync.view.own == VaultOf(s.own)
    && (forall i | 0 <= i < |sync.list| :: IsDevice(sync.list[i].author))
    && (forall i | 0 <= i < |sync.steps| ::
          sync.steps[i].action in PlanWith(sync.view, sync.list, Some(p)) && Wants(c.role, sync.steps[i].action.Path()))
  }

  ghost predicate IsSync(c: Config, sync: Sync, s: State, known: map<Hash, set<DeviceId>>, p: DeviceId) {
    IsPlan(c, sync, s, p) && sync.view.rules == RulesOf(TreeOf(s.shared), known)
  }

  ghost predicate IsRun(c: Config, syncs: seq<Sync>, s: State, known: map<Hash, set<DeviceId>>, p: DeviceId, end: State)
    decreases |syncs|
  {
    if syncs == [] then end == s
    else IsSync(c, syncs[0], s, known, p) && IsRun(c, syncs[1..], AfterAll(c, s, syncs[0].steps), known, p, end)
  }

  /** `p` is left out of a folder at the top of the shared area. */
  ghost predicate LeftOutOf(s: State, known: map<Hash, set<DeviceId>>, p: DeviceId, folder: string) {
    && Sound(TreeOf(s.shared)) && TopFolder(folder)
    && folder in RulesOf(TreeOf(s.shared), known) && p !in RulesOf(TreeOf(s.shared), known)[folder]
  }

  ghost predicate SameFolder(s: State, t: State, folder: string) {
    forall x | Protected(folder, x) :: Lookup(TreeOf(t.shared), x) == Lookup(TreeOf(s.shared), x)
  }

  lemma PlanKeepsApart(c: Config, sync: Sync, s: State, p: DeviceId, a: Action)
    requires Sound(TreeOf(s.shared)) && IsPlan(c, sync, s, p) && a in PlanWith(sync.view, sync.list, Some(p))
    requires !Publishes(c) && (c.role.Replica? ==> s.own == map[])
    ensures KeepsApart(c, a)
  {
    if a.Adopt? && a.remote.area != Shared {
      hide PlanWith, IsDevice;
      PrivateAdopts(sync.view, sync.list, Some(p), a);
    }
  }

  /** On a device that keeps what is sent to it to itself, a device left out of a folder at
      the top of the shared area changes, over any run of syncs with it and whatever lists
      it sends, no row of the folder and not the folder's rule either. */
  lemma {:induction false} LeftOutChangesNothing(
    c: Config, syncs: seq<Sync>, s: State, known: map<Hash, set<DeviceId>>, p: DeviceId, end: State, folder: string)
    requires IsRun(c, syncs, s, known, p, end) && LeftOutOf(s, known, p, folder)
    requires !Publishes(c) && (c.role.Replica? ==> s.own == map[])
    ensures SameFolder(s, end, folder)
    ensures LeftOutOf(end, known, p, folder)
    ensures RulesOf(TreeOf(end.shared), known)[folder] == RulesOf(TreeOf(s.shared), known)[folder]
    decreases |syncs|
  {
    hide PlanWith, TopFolder, Planning.Spares, AfterAll, RulesOf, Sound, RuleFolder, KeepsApart, TreeOf, IsDevice,
      VaultOf;
    if syncs != [] {
      var sync, tree := syncs[0], TreeOf(s.shared);
      var next := AfterAll(c, s, sync.steps);
      forall i | 0 <= i < |sync.steps|
        ensures Planning.Spares(tree, folder, sync.steps[i].action) && KeepsApart(c, sync.steps[i].action)
      {
        PlanSpares(sync.view, sync.list, p, folder, sync.steps[i].action);
        PlanKeepsApart(c, sync, s, p, sync.steps[i].action);
      }
      StepsSpare(c, tree, folder, sync.steps, s);
      if c.role.Replica? { ReplicaNeverHasVault(c, s, sync.steps); }
      SameRule(s, next, known, folder);
      hide *;
      LeftOutChangesNothing(c, syncs[1..], next, known, p, end, folder);
    }
  }

  lemma SameRule(s: State, t: State, known: map<Hash, set<DeviceId>>, folder: string)
    requires SameFolder(s, t, folder) && folder in RulesOf(TreeOf(s.shared), known)
    ensures folder in RulesOf(TreeOf(t.shared), known)
    ensures RulesOf(TreeOf(t.shared), known)[folder] == RulesOf(TreeOf(s.shared), known)[folder]
  {
    hide TreeOf, RulesOf, RuleFolder;
    forall x | RuleFolder(x) == Some(folder) ensures Lookup(TreeOf(s.shared), x) == Lookup(TreeOf(t.shared), x) {
      assert Protected(folder, x);
    }
    RuleStands(TreeOf(s.shared), TreeOf(t.shared), known, folder);
  }

  // ----- and on a device that does not

  /** A device's identity, no matter whose. */
  function SomeDevice(): (d: DeviceId)
    ensures IsDevice(d)
  {
    seq(64, i => '0')
  }

  /** A name this device would take, and nothing here has. */
  predicate IsOpen(c: Config, s: State, x: string) {
    !Refused(c.rules, x) && Wants(c.role, x) && !LiveAnywhere(s, x) && x !in s.shared && NameIsFree(c, s, x)
  }

  function EmptyView(c: Config, s: State, rules: Sharing.Rules, relations: map<DeviceId, Relation>): View {
    View(c.me, true, TreeOf(s.shared), rules, relations, map[], {}, map[], {}, VaultOf(s.own), {}, {})
  }

  /** A send under `x`, of content `h`. */
  function SendAs(x: string, h: Hash): FileVersion { FileVersion(x, File(h, 0), map[], SomeDevice(), 0, Sent) }

  /** One sync with any device at all, its list one send, puts a row in the shared area of a
      device that makes sends everybody's. */
  lemma SendIsPublished(c: Config, s: State, p: DeviceId, view: View, x: string) returns (sync: Sync)
    requires Publishes(c) && IsOpen(c, s, x)
    requires view == EmptyView(c, s, view.rules, view.relations)
    ensures sync.view == view && IsPlan(c, sync, s, p) && |sync.list| == 1
    ensures var t := AfterAll(c, s, sync.steps); x in t.shared && x !in s.shared
  {
    var v := SendAs(x, 0);
    var step := Step(Adopt(v), Full, map[0 := Supplied]);
    sync := Sync(view, [v], [step]);
    SendIsPlanned(view, v, p);
    assert Wants(c.role, step.action.Path()) && IsDevice(v.author) && view.tree == TreeOf(s.shared)
      && view.own == VaultOf(s.own);
    hide *;
    PlanOfOne(c, sync, s, p, v, step);
    SendAddsARow(c, s, x);
  }

  lemma PlanOfOne(c: Config, sync: Sync, s: State, p: DeviceId, v: FileVersion, step: Step)
    requires sync.list == [v] && sync.steps == [step] && IsDevice(v.author)
    requires sync.view.tree == TreeOf(s.shared) && sync.view.own == VaultOf(s.own)
    requires step.action in PlanWith(sync.view, sync.list, Some(p)) && Wants(c.role, step.action.Path())
    ensures IsPlan(c, sync, s, p)
  {
    hide TreeOf, VaultOf, PlanWith, Wants, IsDevice;
  }

  lemma SendAddsARow(c: Config, s: State, x: string)
    requires Publishes(c) && IsOpen(c, s, x)
    ensures var t := After(c, s, Step(Adopt(SendAs(x, 0)), Full, map[0 := Supplied])); x in t.shared && x !in s.shared
  {
    var v := SendAs(x, 0);
    assert FiledAs(s, v) == v;
    hide FiledAs, Taken, Refused, NameIsFree, LiveAnywhere, Publishes, SomeDevice;
    assert Obtained(c, map[0 := Supplied], s, 0);
    hide Obtained;
    PublishedRow(c, map[0 := Supplied], s, v);
  }

  lemma PublishedRow(c: Config, src: Source, s: State, v: FileVersion)
    requires Publishes(c) && v.area == Sent && v.content.File? && !Refused(c.rules, v.path)
    requires NameIsFree(c, s, FiledAs(s, v).path) && Obtained(c, src, s, v.content.hash)
    ensures var t := Taken(c, src, s, v).s.shared;
            if HasNoName(s, v) then t == s.shared
            else FiledAs(s, v).path in t && t[FiledAs(s, v).path] == RowOf(FiledAs(s, v), true)
  {
    var f := FiledAs(s, v);
    var e := Evidence(c, s, f);
    FiledIs(s, v);
    EvidenceIs(c, s, f);
    SameNames(c, s, e, f);
    TakenIs(c, src, s, v);
    assert !PrivateHere(e, f);
    assert Obtained(c, src, e, f.content.hash);
    hide FiledAs, Evidence, Taken, TakenFile, TakenByReplica, TakenDelivery, TakenIntoFolder, KnowElsewhere, Refused,
      NameIsFree, PrivateHere, RowOf, Obtained, HasNoName, Remembers, KeptRemotely, Materialised;
    FileBranches(c, src, s, f, v);
    ReplicaRow(c, src, e, f);
  }

  lemma SendIsPlanned(view: View, v: FileVersion, p: DeviceId)
    requires v.area == Sent && v.content.File? && view.taken == {}
    ensures Adopt(v) in PlanWith(view, [v], Some(p))
  {
    SharedWithLeavesOut(view, [v], Some(p));
    FilterOne(v, w => !LeftOut(view, w, Some(p)));
    FilterOne(v, (w: FileVersion) => w.area == Sent);
    FilterOne(v, (w: FileVersion) => w.area == Shared);
    assert InArea([v], Sent) == [v] && SharedWith(view, [v], Some(p)) == [v] && InArea([v], Shared) == [];
    assert [v][..0] == [];
    assert Deliveries(view, [v]) == [Adopt(v)];
    assert IsPlanned(view, [v], Some(p)) by { NothingToReconcile(view, [v], Some(p)); }
    hide IsPlanned, Reconciled;
    hide Filter, SharedWith, LeftOut, WantedActions, OwnWanted, OwnRestored, Deliveries, Holding, Plan;
  }

  lemma NothingToReconcile(view: View, list: seq<FileVersion>, peer: Option<DeviceId>)
    requires Reconciled(view, list, peer) == []
    ensures IsPlanned(view, list, peer)
  {
    assert ByPath([]) == map[];
  }

  /** So, for a folder with a name in it that this device would take: the rows of a folder
      at the top of the shared area are safe from a device left out of it, over all runs
      of syncs, exactly where sends are kept private. */
  lemma SafeWhereSendsArePrivate(c: Config, s: State, known: map<Hash, set<DeviceId>>, p: DeviceId, folder: string,
      x: string)
    requires LeftOutOf(s, known, p, folder) && (c.role.Replica? ==> s.own == map[])
    requires Paths.Under(folder, x) && IsOpen(c, s, x)
    ensures (forall syncs, end | IsRun(c, syncs, s, known, p, end) :: SameFolder(s, end, folder)) <==> !Publishes(c)
  {
    if !Publishes(c) {
      forall syncs, end | IsRun(c, syncs, s, known, p, end) ensures SameFolder(s, end, folder) {
        LeftOutChangesNothing(c, syncs, s, known, p, end, folder);
      }
    } else {
      hide IsRun, SameFolder, LeftOutOf, IsOpen, Publishes;
      var syncs, end := PublishingReaches(c, s, known, p, folder, x);
    }
  }

  lemma PublishingReaches(c: Config, s: State, known: map<Hash, set<DeviceId>>, p: DeviceId, folder: string, x: string)
    returns (syncs: seq<Sync>, end: State)
    requires Publishes(c) && Paths.Under(folder, x) && IsOpen(c, s, x)
    ensures IsRun(c, syncs, s, known, p, end) && !SameFolder(s, end, folder)
  {
    var view := EmptyView(c, s, RulesOf(TreeOf(s.shared), known), map[]);
    assert view.rules == RulesOf(TreeOf(s.shared), known);
    hide EmptyView, IsOpen, AfterAll, RulesOf, PlanWith, IsPlan;
    assert view == EmptyView(c, s, view.rules, view.relations) by { ViewAlike(c, s, view); }
    var sync := SendIsPublished(c, s, p, view, x);
    syncs, end := [sync], AfterAll(c, s, sync.steps);
    OneSync(c, sync, s, known, p);
    assert Protected(folder, x);
    assert Lookup(TreeOf(end.shared), x) != Lookup(TreeOf(s.shared), x);
  }

  lemma ViewAlike(c: Config, s: State, view: View)
    requires exists rules: Sharing.Rules, relations :: view == EmptyView(c, s, rules, relations)
    ensures view == EmptyView(c, s, view.rules, view.relations)
  {}

  lemma OneSync(c: Config, sync: Sync, s: State, known: map<Hash, set<DeviceId>>, p: DeviceId)
    requires IsPlan(c, sync, s, p) && sync.view.rules == RulesOf(TreeOf(s.shared), known)
    ensures IsRun(c, [sync], s, known, p, AfterAll(c, s, sync.steps))
  {
    hide IsPlan, AfterAll, RulesOf;
    var end := AfterAll(c, s, sync.steps);
    assert [sync][1..] == [];
    assert IsRun(c, [], end, known, p, end);
  }

  // ----- another person's device

  ghost predicate IsVisit(c: Config, sync: Sync, s: State, p: DeviceId) {
    IsPlan(c, sync, s, p) && OtherPerson(sync.view, Some(p))
  }

  /** One action of such a plan changes no shared row, but for a delivery made everybody's:
      and that one files it under its own name or the one made up for it. */
  lemma VisitingStep(c: Config, sync: Sync, s: State, p: DeviceId, step: Step, now: State, y: string)
    requires OtherPerson(sync.view, Some(p)) && step.action in PlanWith(sync.view, sync.list, Some(p))
    ensures var t := After(c, now, step);
      SameRow(now.shared, t.shared, y)
      || (Publishes(c) && y in t.shared && exists v :: v in sync.list && IsDeliveredAt(v, y, t.shared[y]))
  {
    var a, src := step.action, step.src;
    OtherPersonsPlan(sync.view, sync.list, p, a);
    hide PlanWith, Taken, TakenHold, Publishes, FiledAs;
    if step.how.Full? {
      if a.HoldFor? {
        HoldingKeepsShared(c, src, now, a.owner, a.kept);
      } else if a.Adopt? {
        TakenDeliveryRow(c, src, now, a.remote, y);
        assert a.remote in sync.list;
      }
    }
  }

  /** A row that is a delivery's, under its own name or the one made up for it. */
  predicate IsDeliveredAt(v: FileVersion, y: string, row: Row) {
    v.area == Sent && v.content.File? && row == RowOf(v, true) && (y == v.path || y == ReceivedPath(v))
  }

  lemma TakenDeliveryRow(c: Config, src: Source, s: State, v: FileVersion, y: string)
    requires v.area == Sent && v.content.File?
    ensures var t := Taken(c, src, s, v).s;
      SameRow(s.shared, t.shared, y) || (Publishes(c) && y in t.shared && IsDeliveredAt(v, y, t.shared[y]))
  {
    var f := FiledAs(s, v);
    FiledIs(s, v);
    DeliveryStaysPrivate(c, src, s, v);
    TakingIsProper(c, src, s, v);
    assert f.path == v.path || f.path == ReceivedPath(v);
    assert RowOf(f, true) == RowOf(v, true);
    hide Taken, FiledAs, ReceivedPath, Refused, NameIsFree, RowOf, Readable, OnDisk;
    if Taken(c, src, s, v).s.shared != s.shared && y == f.path {
      PublishedRow(c, src, s, v);
    }
  }

  /** Whatever another person's device lists, and however its plan is carried out: a shared
      row that has changed is that of a delivery it listed, on a device that makes
      deliveries everybody's. */
  lemma {:induction false} OtherPersonAddsOnlyDeliveries(c: Config, sync: Sync, s: State, p: DeviceId, steps: Steps,
      y: string)
    requires OtherPerson(sync.view, Some(p))
    requires forall i | 0 <= i < |steps| :: steps[i].action in PlanWith(sync.view, sync.list, Some(p))
    ensures var t := AfterAll(c, s, steps);
      SameRow(s.shared, t.shared, y)
      || (Publishes(c) && y in t.shared && exists v :: v in sync.list && IsDeliveredAt(v, y, t.shared[y]))
  {
    hide PlanWith, After, Publishes, IsDeliveredAt;
    if steps != [] {
      var n := |steps| - 1;
      OtherPersonAddsOnlyDeliveries(c, sync, s, p, steps[..n], y);
      VisitingStep(c, sync, s, p, steps[n], AfterAll(c, s, steps[..n]), y);
    }
  }

  /** So the shared area stays exactly as it was, whatever the list and however the plan is
      carried out, exactly where sends are kept private. */
  lemma OtherPersonChangesNothingShared(c: Config, s: State, p: DeviceId, x: string)
    requires IsOpen(c, s, x)
    ensures (forall sync | IsVisit(c, sync, s, p) :: AfterAll(c, s, sync.steps).shared == s.shared) <==> !Publishes(c)
  {
    if !Publishes(c) {
      forall sync | IsVisit(c, sync, s, p) ensures AfterAll(c, s, sync.steps).shared == s.shared {
        var t := AfterAll(c, s, sync.steps);
        forall y ensures Lookup(t.shared, y) == Lookup(s.shared, y) {
          OtherPersonAddsOnlyDeliveries(c, sync, s, p, sync.steps, y);
        }
        hide *;
        SameMaps(t.shared, s.shared);
      }
    } else {
      var view := EmptyView(c, s, map[], map[p := Guest]);
      hide IsOpen, AfterAll, PlanWith, IsPlan;
      var sync := SendIsPublished(c, s, p, view, x);
      assert IsVisit(c, sync, s, p);
    }
  }

  // ----- where the rule does not hold: a folder inside another

  /** A device with a folder that keeps names apart, refuses no write and keeps nothing
      only remotely. */
  predicate Plain(c: Config) { c.role.Syncing? && !c.foldCase && c.broken == {} && c.remotely == {} }

  lemma SharedFileArrives(c: Config, src: Source, s: State, v: FileVersion)
    requires Plain(c) && Fine(v) && v.content.File? && !Refused(c.rules, v.path) && !Live(s.own, v.path)
    requires v.content.hash in src && src[v.content.hash].Supplied?
    ensures Taken(c, src, s, v).s.shared == s.shared[v.path := RowOf(v, true)] && Taken(c, src, s, v).s.own == s.own
  {
    var e := Evidence(c, s, v);
    EvidenceIs(c, s, v);
    SameNames(c, s, e, v);
    TakenIs(c, src, s, v);
    TakingIsProper(c, src, s, v);
    assert FiledAs(s, v) == v && !KeptRemotely(c, v.path) && !PrivateHere(e, v) && NameIsFree(c, e, v.path);
    hide FiledAs, Evidence, Taken, TakenFile, TakenIntoFolder, TakenByReplica, KnowElsewhere, Refused, NameIsFree,
      PrivateHere, KeptRemotely, Materialised, RowOf, IsDevice, OnDisk, Readable;
    FileBranches(c, src, s, v, v);
  }

  /** A folder inside another is not so safe. Nothing stops a device left out of it
      from making a rule for the folder around it, while there is none; and once there
      is, only that rule is asked. Two syncs, and a file of the inner folder is
      whatever the device says. */
  lemma InnerFolderIsReached(
    c: Config, s: State, src: Source, known: map<Hash, set<DeviceId>>, p: DeviceId, inner: string, outer: string,
    rule: FileVersion, file: FileVersion) returns (syncs: seq<Sync>, end: State)
    requires Plain(c) && Sound(TreeOf(s.shared))
    requires inner in RulesOf(TreeOf(s.shared), known) && p !in RulesOf(TreeOf(s.shared), known)[inner]
    requires Paths.Under(outer, inner) && outer != inner
    requires Covering(RulesOf(TreeOf(s.shared), known), outer) == None
    requires RuleFolder(rule.path) == Some(outer) && Arrivable(c, src, s, rule)
    requires rule.content.hash in known && c.me in known[rule.content.hash] && p in known[rule.content.hash]
    requires Paths.Under(inner, file.path) && Arrivable(c, src, s, file) && file.path != rule.path
    requires RuleFolder(file.path) == None
    ensures IsRun(c, syncs, s, known, p, end) && Lookup(TreeOf(end.shared), file.path) == Some(file)
  {
    hide RulesOf, IsSync, AfterAll, PlanWith, CoverFrom, Sound, IsDevice, TreeOf, Refused, RowOf, Live;
    var tree := TreeOf(s.shared);
    CoversOwnPath(RulesOf(tree, known), outer);
    OuterRuleArrives(tree, known, outer, rule);
    Paths.UnderTransitive(outer, inner, file.path);
    OuterIsAsked(tree, known, outer, rule, file.path);
    Unruled(tree, s.shared, rule);
    hide RuleFolder, Paths.Under;
    var first, m := AdoptOnce(c, src, s, known, p, rule);
    var second, t := AdoptOnce(c, src, m, known, p, file);
    end := t;
    syncs := [first, second];
    TwoSyncs(c, first, second, s, m, t, known, p);
    RowIs(t.shared, file, true);
  }

  lemma Unruled(tree: Tree, rows: map<string, Row>, rule: FileVersion)
    requires tree == TreeOf(rows) && Fine(rule)
    ensures TreeOf(rows[rule.path := RowOf(rule, true)]) == tree[rule.path := rule]
  {
    hide IsDevice;
  }

  /** A shared file new here, that can be taken. */
  predicate Arrivable(c: Config, src: Source, s: State, v: FileVersion) {
    && Fine(v) && v.content.File? && v.path !in s.shared && !Live(s.own, v.path)
    && !Refused(c.rules, v.path) && v.content.hash in src && src[v.content.hash].Supplied?
  }

  lemma AdoptOnce(c: Config, src: Source, s: State, known: map<Hash, set<DeviceId>>, p: DeviceId, v: FileVersion)
    returns (sync: Sync, t: State)
    requires Plain(c) && Arrivable(c, src, s, v)
    requires !LeftOut(EmptyView(c, s, RulesOf(TreeOf(s.shared), known), map[]), v, Some(p))
    ensures IsSync(c, sync, s, known, p) && AfterAll(c, s, sync.steps) == t
    ensures t.shared == s.shared[v.path := RowOf(v, true)] && t.own == s.own
  {
    var view := EmptyView(c, s, RulesOf(TreeOf(s.shared), known), map[]);
    var step := Step(Adopt(v), Full, src);
    sync := Sync(view, [v], [step]);
    hide RulesOf, LeftOut, PlanWith, IsDevice, Taken, Refused, RowOf;
    NewFileIsAdopted(view, v, p);
    t := Taken(c, src, s, v).s;
    SharedFileArrives(c, src, s, v);
  }

  lemma TwoSyncs(c: Config, a: Sync, b: Sync, s: State, m: State, t: State, known: map<Hash, set<DeviceId>>,
      p: DeviceId)
    requires IsSync(c, a, s, known, p) && AfterAll(c, s, a.steps) == m
    requires IsSync(c, b, m, known, p) && AfterAll(c, m, b.steps) == t
    ensures IsRun(c, [a, b], s, known, p, t)
  {
    hide IsSync, AfterAll;
    assert [a, b][1..] == [b] && [b][1..] == [];
    assert IsRun(c, [b], m, known, p, t);
  }
}
