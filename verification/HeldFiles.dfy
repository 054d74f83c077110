/** What a device keeps for others, over any run of syncs: dropped on the owner's
    word, never by silence. */
module HeldFiles {
  import opened Wrappers
  import opened Versions
  import opened TreePlan
  import opened Planning
  import opened PlanOrder
  import opened Roles
  import Paths

  /** Whose files a peer's list speaks of. A computer visited asks for nothing to be
      kept. */
  function OwnerOf(view: View, peer: Option<DeviceId>): Option<DeviceId> {
    if !OtherPerson(view, peer) then peer
    else if view.relations[peer.value].Guest? then Some(PersonOf(view, peer.value))
    else None
  }

  /** What is kept, after an action that was carried through or was not. The bytes
      kept already keep the row they have, held from now on; a tombstone takes the
      row away. */
  function KeepEffect(kept: Kept, a: Action, done: bool): Kept {
    if !done || !a.HoldFor? then kept
    else
      var key := (a.owner, a.kept.path);
      match a.kept.content
      case Deleted => kept - {key}
      case File(hash, _) =>
        if key in kept && kept[key].content == hash then kept[key := kept[key].(held := true)]
        else kept[key := Keep(hash, a.kept.vector, true)]
  }

  type Deeds = seq<(Action, bool)>

  function KeepAll(kept: Kept, deeds: Deeds): Kept {
    if deeds == [] then kept
    else KeepEffect(KeepAll(kept, deeds[..|deeds| - 1]), deeds[|deeds| - 1].0, deeds[|deeds| - 1].1)
  }

  /** A sync: with whom, what was known and told, what was done of the plan. */
  datatype Sync = Sync(view: View, list: seq<FileVersion>, peer: Option<DeviceId>, deeds: Deeds)

  ghost predicate IsSync(s: Sync, kept: Kept) {
    s.view.kept == kept && forall i | 0 <= i < |s.deeds| :: s.deeds[i].0 in PlanWith(s.view, s.list, s.peer)
  }

  ghost predicate IsRun(syncs: seq<Sync>, kept: Kept, end: Kept)
    decreases |syncs|
  {
    if syncs == [] then end == kept
    else IsSync(syncs[0], kept) && IsRun(syncs[1..], KeepAll(kept, syncs[0].deeds), end)
  }

  /** The list has something to say of this key. */
  ghost predicate Speaks(s: Sync, key: (DeviceId, string)) {
    OwnerOf(s.view, s.peer) == Some(key.0) && exists v | v in s.list :: v.area == Hold && v.path == key.1
  }

  /** The owner's tombstone for the file, which the row kept is not after. */
  ghost predicate Drops(s: Sync, key: (DeviceId, string)) {
    && OwnerOf(s.view, s.peer) == Some(key.0)
    && key in s.view.kept
    && exists v | v in s.list ::
         v.area == Hold && v.path == key.1 && v.content.Deleted? && Causal(s.view.kept[key].vector, v.vector) != After
  }

  /** Every holding action of a plan is from the list's owner and from its list. */
  lemma HoldsForOwner(view: View, list: seq<FileVersion>, peer: Option<DeviceId>, a: Action)
    requires a in PlanWith(view, list, peer) && a.HoldFor?
    ensures OwnerOf(view, peer) == Some(a.owner)
    ensures a.kept in list && a.kept.area == Hold && Needed(view.kept, a.owner, a.kept)
  {
    if OtherPerson(view, peer) {
      OtherPersonsPlan(view, list, peer.value, a);
      NotReconciled(view, InArea(list, Sent), a);
      FilterIs(list, (v: FileVersion) => v.area == Hold);
      FromHolding(view.kept, InArea(list, Hold), PersonOf(view, peer.value), a);
    } else {
      var taken := SharedWith(view, list, peer);
      NotReconciled(view, taken, a);
      FromPrivate(view, taken, a);
      if a in WantedActions(view.tree, view.wanted, Listed(view.tree.Keys)) {
        FromWanted(view.tree, view.wanted, Listed(view.tree.Keys), a);
      }
      hide PlanAgainst, OwnWanted, OwnRestored, WantedActions, LeftOut, SharedWith;
      FromHolding(view.kept, taken, peer.value, a);
      SharedWithLeavesOut(view, list, peer);
      FilterIs(list, v => !LeftOut(view, v, peer));
    }
  }

  lemma NotReconciled(view: View, list: seq<FileVersion>, a: Action)
    requires a.HoldFor?
    ensures a !in PlanAgainst(view, list)
  {
    hide Decision;
    var other := ByPath(if view.sharedArea then InArea(list, Shared) else []);
    if a in Plan(view.tree, other) {
      FromDecision(view.tree, other, Listed(view.tree.Keys + other.Keys), a);
      NeverDecided(view.tree, other, a);
    }
    FromPrivate(view, InArea(list, Sent), a);
  }

  lemma NeverDecided(local: Tree, remote: Tree, a: Action)
    requires a.HoldFor?
    ensures !Decided(local, remote, a)
  {}

  /** One sync: a file the list does not speak of keeps its row whole; one that is
      dropped had its owner's tombstone. */
  lemma {:induction false} SyncKeeps(s: Sync, deeds: Deeds, key: (DeviceId, string))
    requires forall i | 0 <= i < |deeds| :: deeds[i].0 in PlanWith(s.view, s.list, s.peer)
    ensures !Speaks(s, key) ==> Lookup(KeepAll(s.view.kept, deeds), key) == Lookup(s.view.kept, key)
    ensures key in s.view.kept && key !in KeepAll(s.view.kept, deeds) ==> Drops(s, key)
  {
    if deeds != [] {
      var n := |deeds| - 1;
      hide PlanWith, OwnerOf, Causal;
      forall i | 0 <= i < n ensures deeds[..n][i].0 in PlanWith(s.view, s.list, s.peer) {
        assert deeds[..n][i] == deeds[i];
      }
      SyncKeeps(s, deeds[..n], key);
      var a := deeds[n].0;
      if a.HoldFor? {
        HoldsForOwner(s.view, s.list, s.peer, a);
      }
    }
  }

  /** Over every run of syncs, with whatever devices and lists, a file kept for an
      owner goes only on that owner's tombstone for it -- one the kept row is not
      after. Empty lists, absent entries and other devices take nothing away. */
  lemma {:induction false} KeptUntilItsOwnerSays(syncs: seq<Sync>, kept: Kept, end: Kept, key: (DeviceId, string))
    requires IsRun(syncs, kept, end)
    ensures key in kept && key !in end ==> exists i | 0 <= i < |syncs| :: Drops(syncs[i], key)
    ensures (forall i | 0 <= i < |syncs| :: !Speaks(syncs[i], key)) ==> Lookup(end, key) == Lookup(kept, key)
    decreases |syncs|
  {
    if syncs != [] {
      var next := KeepAll(kept, syncs[0].deeds);
      SyncKeeps(syncs[0], syncs[0].deeds, key);
      hide Drops, Speaks, KeepAll;
      KeptUntilItsOwnerSays(syncs[1..], next, end, key);
      if key in kept && key !in end && key in next {
        var i :| 0 <= i < |syncs[1..]| && Drops(syncs[1..][i], key);
        assert Drops(syncs[i + 1], key);
      }
      if forall i | 0 <= i < |syncs| :: !Speaks(syncs[i], key) {
        assert forall i | 0 <= i < |syncs[1..]| :: syncs[1..][i] == syncs[i + 1];
      }
    }
  }

  /** The list says one thing of each file to keep. */
  ghost predicate OneWord(list: seq<FileVersion>) {
    forall v, w | v in list && w in list && v.area == Hold && w.area == Hold && v.path == w.path :: v == w
  }

  /** And when the list says one thing of each file, the row the tombstone was weighed
      against is the row there when it falls. */
  lemma {:induction false} DroppedAsWeighed(s: Sync, deeds: Deeds, key: (DeviceId, string), tomb: FileVersion)
    requires forall i | 0 <= i < |deeds| :: deeds[i].0 in PlanWith(s.view, s.list, s.peer)
    requires OneWord(s.list) && HoldFor(key.0, tomb) in PlanWith(s.view, s.list, s.peer)
    requires tomb.content.Deleted? && tomb.path == key.1 && key in KeepAll(s.view.kept, deeds)
    ensures Lookup(KeepAll(s.view.kept, deeds), key) == Lookup(s.view.kept, key)
  {
    HoldsForOwner(s.view, s.list, s.peer, HoldFor(key.0, tomb));
    if deeds != [] {
      var n, a := |deeds| - 1, deeds[|deeds| - 1].0;
      var before := KeepAll(s.view.kept, deeds[..n]);
      assert KeepAll(s.view.kept, deeds) == KeepEffect(before, a, deeds[n].1);
      hide PlanWith, OwnerOf, Causal, KeepAll, Needed;
      forall i | 0 <= i < n ensures deeds[..n][i].0 in PlanWith(s.view, s.list, s.peer) {
        assert deeds[..n][i] == deeds[i];
      }
      if a.HoldFor? {
        HoldsForOwner(s.view, s.list, s.peer, a);
        assert a.owner == key.0 && a.kept.path == key.1 ==> a.kept == tomb;
      }
      StandsOrFalls(before, key, a, deeds[n].1);
      hide KeepEffect;
      DroppedAsWeighed(s, deeds[..n], key, tomb);
    }
  }

  lemma StandsOrFalls(kept: Kept, key: (DeviceId, string), a: Action, done: bool)
    requires a.HoldFor? && a.owner == key.0 && a.kept.path == key.1 ==> a.kept.content.Deleted?
    ensures key in KeepEffect(kept, a, done) ==> Lookup(KeepEffect(kept, a, done), key) == Lookup(kept, key)
  {}

  // ----- a list that says two things of one file

  /** What is kept once the actions marked done have been carried through, in this order. */
  function KeptAfter(kept: Kept, actions: seq<Action>, done: nat -> bool): Kept {
    if actions == [] then kept
    else
      var n := |actions| - 1;
      KeepEffect(KeptAfter(kept, actions[..n], done), actions[n], done(n))
  }

  /** Nothing under an unsafe path is ever carried through. */
  ghost predicate CanBeDone(actions: seq<Action>, done: nat -> bool) {
    forall i | 0 <= i < |actions| && done(i) && actions[i].HoldFor? :: Paths.IsSafe(actions[i].kept.path)
  }

  /** The tombstone falls, and the row it falls on is after it. */
  ghost predicate FallsOnNewer(kept: Kept, actions: seq<Action>, done: nat -> bool, key: (DeviceId, string),
      tomb: FileVersion)
  {
    exists i | 0 <= i < |actions| :: FallsAt(kept, actions, done, key, tomb, i)
  }

  ghost predicate FallsAt(kept: Kept, actions: seq<Action>, done: nat -> bool, key: (DeviceId, string),
      tomb: FileVersion, i: nat)
    requires i < |actions|
  {
    var before := KeptAfter(kept, actions[..i], done);
    actions[i] == HoldFor(key.0, tomb) && done(i) && key in before && Causal(before[key].vector, tomb.vector) == After
  }

  /** It would keep some bytes under this key. */
  predicate IsWord(a: Action, key: (DeviceId, string)) {
    a.HoldFor? && a.owner == key.0 && a.kept.path == key.1 && a.kept.content.File?
  }

  /** A word that can take the place of the row: its bytes are not those kept, or those of
      some word before it are not its own. */
  predicate TakesPlaceAt(kept: Kept, actions: seq<Action>, key: (DeviceId, string), j: nat) {
    && key in kept && j < |actions| && IsWord(actions[j], key)
    && (actions[j].kept.content.hash != kept[key].content || ComesSecond(actions, key, j))
  }

  predicate ComesSecond(actions: seq<Action>, key: (DeviceId, string), j: nat)
    requires j < |actions| && IsWord(actions[j], key)
  {
    exists k | 0 <= k < j :: IsWord(actions[k], key) && actions[k].kept.content.hash != actions[j].kept.content.hash
  }

  predicate IsRowOf(kept: Kept, actions: seq<Action>, key: (DeviceId, string), row: Keep) {
    && key in kept
    && ((row.content == kept[key].content && row.vector == kept[key].vector)
        || exists j | 0 <= j < |actions| :: TakesPlaceAt(kept, actions, key, j) && IsRowOfWord(actions[j], row))
  }

  predicate IsRowOfWord(a: Action, row: Keep) {
    a.HoldFor? && a.kept.content.File? && row.content == a.kept.content.hash && row.vector == a.kept.vector
  }

  /** Deletions come last. */
  predicate DeletionsLast(actions: seq<Action>) {
    forall i, j | 0 <= i < j < |actions| :: Deletes(actions[i]) ==> Deletes(actions[j])
  }

  /** However actions in that order turn out, the row kept is the one there was, or a word's
      that could take its place; and until a deletion there is one. */
  lemma {:induction false} RowsAreFromWords(kept: Kept, actions: seq<Action>, done: nat -> bool,
      key: (DeviceId, string))
    requires DeletionsLast(actions) && key in kept
    ensures var after := KeptAfter(kept, actions, done);
      && ((forall i | 0 <= i < |actions| :: !Deletes(actions[i])) ==> key in after)
      && (key in after ==> IsRowOf(kept, actions, key, after[key]))
  {
    if actions != [] {
      var n := |actions| - 1;
      var before, a := KeptAfter(kept, actions[..n], done), actions[n];
      RowsAreFromWords(kept, actions[..n], done, key);
      if key in before { RowStays(kept, actions, key, before[key]); }
      hide IsRowOf;
      if done(n) && IsWord(a, key) { WordMakesRow(kept, actions, key, before, KeepEffect(before, a, true)); }
    }
  }

  lemma RowStays(kept: Kept, actions: seq<Action>, key: (DeviceId, string), row: Keep)
    requires actions != [] && IsRowOf(kept, actions[..|actions| - 1], key, row)
    ensures forall held :: IsRowOf(kept, actions, key, row.(held := held))
  {
    var n := |actions| - 1;
    if !(row.content == kept[key].content && row.vector == kept[key].vector) {
      var j :| 0 <= j < n && TakesPlaceAt(kept, actions[..n], key, j) && IsRowOfWord(actions[..n][j], row);
      assert TakesPlaceAt(kept, actions, key, j);
    }
  }

  lemma WordMakesRow(kept: Kept, actions: seq<Action>, key: (DeviceId, string), before: Kept, after: Kept)
    requires actions != [] && !Deletes(actions[|actions| - 1]) && IsWord(actions[|actions| - 1], key) && key in before
    requires IsRowOf(kept, actions[..|actions| - 1], key, before[key])
    requires after == KeepEffect(before, actions[|actions| - 1], true)
    ensures IsRowOf(kept, actions, key, after[key])
  {
    var n := |actions| - 1;
    RowStays(kept, actions, key, before[key]);
    if before[key].content != actions[n].kept.content.hash {
      if before[key].content != kept[key].content {
        var j :| 0 <= j < n && TakesPlaceAt(kept, actions[..n], key, j) && IsRowOfWord(actions[..n][j], before[key]);
        assert IsWord(actions[j], key) && actions[j].kept.content.hash != actions[n].kept.content.hash;
      }
      assert TakesPlaceAt(kept, actions, key, n) && IsRowOfWord(actions[n], after[key]);
    }
  }

  /** A tombstone of the plan falls on a row that is after it, however the plan's actions turn
      out in the order they are carried out in, exactly when this device wants the path, may
      write it, and is to keep under it a version after the tombstone that can take the
      row's place: its bytes are not those kept, or those of a version listed before it
      are not its own. */
  lemma NewerFallsExactly(role: Role, s: Sync, key: (DeviceId, string), tomb: FileVersion)
    requires HoldFor(key.0, tomb) in PlanWith(s.view, s.list, s.peer) && tomb.content.Deleted? && tomb.path == key.1
    ensures var plan := PlanWith(s.view, s.list, s.peer);
      var ordered := Ordered(role, plan);
      (exists done :: CanBeDone(ordered, done) && FallsOnNewer(s.view.kept, ordered, done, key, tomb)) <==>
        && Wants(role, key.1) && Paths.IsSafe(key.1)
        && exists j | 0 <= j < |plan| ::
             TakesPlaceAt(s.view.kept, plan, key, j) && Causal(plan[j].kept.vector, tomb.vector) == After
  {
    var plan := PlanWith(s.view, s.list, s.peer);
    HoldsForOwner(s.view, s.list, s.peer, HoldFor(key.0, tomb));
    var kept, ordered := s.view.kept, Ordered(role, plan);
    assert key in kept && Causal(kept[key].vector, tomb.vector) != After;
    hide PlanWith, Causal, KeptAfter, OwnerOf, Ordered, TakesPlaceAt, Wants, Paths.IsSafe, IsRowOf;
    if done :| CanBeDone(ordered, done) && FallsOnNewer(kept, ordered, done, key, tomb) {
      var j := FellOnWord(role, plan, kept, done, key, tomb);
    }
    if Wants(role, key.1) && Paths.IsSafe(key.1) {
      if j :| 0 <= j < |plan| && TakesPlaceAt(kept, plan, key, j) && Causal(plan[j].kept.vector, tomb.vector) == After {
        var done := WordFalls(role, plan, kept, key, tomb, j);
      }
    }
  }

  lemma FellOnWord(role: Role, plan: seq<Action>, kept: Kept, done: nat -> bool, key: (DeviceId, string),
      tomb: FileVersion) returns (j: nat)
    requires key in kept && Causal(kept[key].vector, tomb.vector) != After && tomb.path == key.1
    requires CanBeDone(Ordered(role, plan), done) && FallsOnNewer(kept, Ordered(role, plan), done, key, tomb)
    ensures Wants(role, key.1) && Paths.IsSafe(key.1)
    ensures j < |plan| && TakesPlaceAt(kept, plan, key, j) && Causal(plan[j].kept.vector, tomb.vector) == After
  {
    var ordered := Ordered(role, plan);
    var i :| 0 <= i < |ordered| && FallsAt(kept, ordered, done, key, tomb, i);
    var first := ordered[..i];
    InThatOrder(role, plan, i);
    RowsAreFromWords(kept, first, done, key);
    var row := KeptAfter(kept, first, done)[key];
    hide Causal, KeptAfter, Ordered, DeletionsLast, TakesPlaceAt, Wants, Paths.IsSafe;
    var l :| 0 <= l < |first| && TakesPlaceAt(kept, first, key, l) && IsRowOfWord(first[l], row);
    j := WordInPlan(role, plan, kept, key, i, l);
  }

  lemma InThatOrder(role: Role, plan: seq<Action>, i: nat)
    requires i <= |Ordered(role, plan)|
    ensures DeletionsLast(Ordered(role, plan)[..i])
  {
    AdditionsFirst(role, plan);
    hide Ordered, Deletes;
  }

  /** A word that can take the row's place in the order of carrying out can in that of the
      plan. */
  lemma WordInPlan(role: Role, plan: seq<Action>, kept: Kept, key: (DeviceId, string), i: nat, l: nat)
    returns (j: nat)
    requires i <= |Ordered(role, plan)| && TakesPlaceAt(kept, Ordered(role, plan)[..i], key, l)
    ensures Wants(role, key.1) && j < |plan| && TakesPlaceAt(kept, plan, key, j)
    ensures plan[j] == Ordered(role, plan)[l]
  {
    var ordered := Ordered(role, plan);
    var first := ordered[..i];
    AdditionsFirst(role, plan);
    assert ordered[l] == first[l];
    hide Ordered, Wants;
    j := SourceOf(role, plan, false, l);
    if first[l].kept.content.hash == kept[key].content {
      var m :| 0 <= m < l && IsWord(first[m], key) && first[m].kept.content.hash != first[l].kept.content.hash;
      assert ordered[m] == first[m];
      SourceAscends(role, plan, false, m, l);
      assert plan[SourceOf(role, plan, false, m)] == first[m];
      assert ComesSecond(plan, key, j);
    }
  }

  lemma WordFalls(role: Role, plan: seq<Action>, kept: Kept, key: (DeviceId, string), tomb: FileVersion, j: nat)
    returns (done: nat -> bool)
    requires HoldFor(key.0, tomb) in plan && tomb.content.Deleted? && tomb.path == key.1
    requires Wants(role, key.1) && Paths.IsSafe(key.1)
    requires j < |plan| && TakesPlaceAt(kept, plan, key, j) && Causal(plan[j].kept.vector, tomb.vector) == After
    ensures CanBeDone(Ordered(role, plan), done) && FallsOnNewer(kept, Ordered(role, plan), done, key, tomb)
  {
    var ordered := Ordered(role, plan);
    var t :| 0 <= t < |plan| && plan[t] == HoldFor(key.0, tomb);
    PickedAt(role, plan, false, j);
    PickedAt(role, plan, true, t);
    AdditionsFirst(role, plan);
    var l, u := PickedAs(role, plan, false, j), |Pick(role, plan, false)| + PickedAs(role, plan, true, t);
    assert ordered[l] == plan[j] && ordered[u] == plan[t] && l < u;
    var m := l;
    if plan[j].kept.content.hash == kept[key].content {
      var k :| 0 <= k < j && IsWord(plan[k], key) && plan[k].kept.content.hash != plan[j].kept.content.hash;
      PickedAt(role, plan, false, k);
      PickedBefore(role, plan, false, k, j);
      m := PickedAs(role, plan, false, k);
      assert ordered[m] == plan[k] && m < l;
    }
    done := x => x == m || x == l || x == u;
    hide Ordered, Pick, PickedAs, Wants, Paths.IsSafe, Causal;
    OnlyThese(kept, ordered, done, key, m, l, u);
    assert FallsAt(kept, ordered, done, key, tomb, u);
  }

  /** With only these done, the row is the second's when the third comes. */
  lemma OnlyThese(kept: Kept, actions: seq<Action>, done: nat -> bool, key: (DeviceId, string), m: nat, l: nat, u: nat)
    requires forall x :: done(x) <==> x == m || x == l || x == u
    requires m <= l < u < |actions| && key in kept && IsWord(actions[m], key) && IsWord(actions[l], key)
    requires actions[m].kept.content.hash != kept[key].content
    requires m < l ==> actions[m].kept.content.hash != actions[l].kept.content.hash
    ensures var after := KeptAfter(kept, actions[..u], done);
            key in after && after[key].vector == actions[l].kept.vector
  {
    assert actions[..0] == [];
    Quiet(kept, actions, done, 0, m);
    StepOf(kept, actions, done, m);
    if m < l {
      Quiet(kept, actions, done, m + 1, l);
      StepOf(kept, actions, done, l);
    }
    Quiet(kept, actions, done, l + 1, u);
  }

  lemma StepOf(kept: Kept, actions: seq<Action>, done: nat -> bool, i: nat)
    requires i < |actions|
    ensures KeptAfter(kept, actions[..i + 1], done)
      == KeepEffect(KeptAfter(kept, actions[..i], done), actions[i], done(i))
  {
    assert actions[..i + 1][..i] == actions[..i];
  }

  lemma {:induction false} Quiet(kept: Kept, actions: seq<Action>, done: nat -> bool, i: nat, n: nat)
    requires i <= n <= |actions| && forall x | i <= x < n :: !done(x)
    ensures KeptAfter(kept, actions[..n], done) == KeptAfter(kept, actions[..i], done)
  {
    if i < n {
      Quiet(kept, actions, done, i, n - 1);
      StepOf(kept, actions, done, n - 1);
    }
  }

  /** A list that names one file twice can drop a row that is after the tombstone: the
      new version is kept first, and the tombstone, weighed against the old one, falls
      on it. */
  lemma TwoWordsDropTheNewer()
    ensures exists kept: Kept, owner: DeviceId, v: FileVersion, tomb: FileVersion ::
      var key := (owner, v.path);
      && Needed(kept, owner, v) && Needed(kept, owner, tomb)
      && tomb.content.Deleted? && tomb.path == v.path && v.area == tomb.area == Hold
      && var mid := KeepAll(kept, [(HoldFor(owner, v), true)]);
      key in mid && Causal(mid[key].vector, tomb.vector) == After
      && key !in KeepAll(kept, [(HoldFor(owner, v), true), (HoldFor(owner, tomb), true)])
  {
    var owner: DeviceId := "a";
    var v := FileVersion("f", File(2, 0), map[owner := 2], owner, 0, Hold);
    var tomb := FileVersion("f", Content.Deleted, map[owner := 1], owner, 0, Hold);
    var key := (owner, v.path);
    var kept: Kept := map[key := Keep(1, map[], true)];
    assert Get(tomb.vector, owner) > Get(kept[key].vector, owner);
    assert Causal(kept[key].vector, tomb.vector) == Before;
    var one: Deeds := [(HoldFor(owner, v), true)];
    var two: Deeds := [(HoldFor(owner, v), true), (HoldFor(owner, tomb), true)];
    assert one[..0] == [] && two[..1] == one;
    var mid := KeepAll(kept, one);
    assert KeepAll(kept, one[..0]) == kept;
    assert mid == KeepEffect(kept, HoldFor(owner, v), true);
    assert mid == kept[key := Keep(2, v.vector, true)];
    assert Get(mid[key].vector, owner) > Get(tomb.vector, owner);
    assert Causal(mid[key].vector, tomb.vector) == After;
    assert KeepAll(kept, two) == mid - {key};
    assert Needed(kept, owner, v) && Needed(kept, owner, tomb);
  }
}
