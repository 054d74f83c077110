/** The order a plan is carried out in: what this device's role wants of it, the deletions
    last. */
module PlanOrder {
  import opened Versions
  import opened Roles

  predicate Deletes(a: Action) {
    (a.Adopt? && a.remote.content.Deleted?) || (a.HoldFor? && a.kept.content.Deleted?)
  }

  /** Whether doing it asks the source for content. */
  predicate AsksSource(a: Action) {
    match a
    case Adopt(v) => v.content.File?
    case HoldFor(_, v) => v.content.File?
    case Resurrect(v) => v.content.File?
    case Conflict(k, r) => k.content.File? || r.content.File?
    case _ => false
  }

  function Pick(role: Role, actions: seq<Action>, deleting: bool): seq<Action> {
    if actions == [] then []
    else
      var n := |actions| - 1;
      Pick(role, actions[..n], deleting)
      + if Wants(role, actions[n].Path()) && Deletes(actions[n]) == deleting then [actions[n]] else []
  }

  /** What the role wants, the deletions after everything else, each part in the order
      it was planned. */
  function Ordered(role: Role, actions: seq<Action>): seq<Action> {
    Pick(role, actions, false) + Pick(role, actions, true)
  }

  function Wanted(role: Role, actions: seq<Action>): seq<Action> {
    if actions == [] then []
    else
      var n := |actions| - 1;
      Wanted(role, actions[..n]) + if Wants(role, actions[n].Path()) then [actions[n]] else []
  }

  /** Nothing wanted is lost, doubled or added by the reordering. */
  lemma {:induction false} OrderedIsPermutation(role: Role, actions: seq<Action>)
    ensures multiset(Ordered(role, actions)) == multiset(Wanted(role, actions))
  {
    if actions != [] { OrderedIsPermutation(role, actions[..|actions| - 1]); }
  }

  lemma {:induction false} PickedAre(role: Role, actions: seq<Action>, deleting: bool)
    ensures forall i | 0 <= i < |Pick(role, actions, deleting)| ::
      Deletes(Pick(role, actions, deleting)[i]) == deleting && Pick(role, actions, deleting)[i] in actions
  {
    if actions != [] { PickedAre(role, actions[..|actions| - 1], deleting); }
  }

  // ----- which place an action has

  /** The place in the plan of the one picked at `i`. */
  function SourceOf(role: Role, actions: seq<Action>, deleting: bool, i: nat): (j: nat)
    requires i < |Pick(role, actions, deleting)|
    ensures j < |actions| && actions[j] == Pick(role, actions, deleting)[i] && Wants(role, actions[j].Path())
  {
    var n := |actions| - 1;
    if i < |Pick(role, actions[..n], deleting)| then SourceOf(role, actions[..n], deleting, i) else n
  }

  lemma {:induction false} SourceAscends(role: Role, actions: seq<Action>, deleting: bool, i: nat, k: nat)
    requires i < k < |Pick(role, actions, deleting)|
    ensures SourceOf(role, actions, deleting, i) < SourceOf(role, actions, deleting, k)
  {
    var n := |actions| - 1;
    if k < |Pick(role, actions[..n], deleting)| { SourceAscends(role, actions[..n], deleting, i, k); }
  }

  /** The place among those picked of the one at `j`. */
  function PickedAs(role: Role, actions: seq<Action>, deleting: bool, j: nat): nat
    requires j < |actions|
  {
    |Pick(role, actions[..j], deleting)|
  }

  lemma {:induction false} PickedAt(role: Role, actions: seq<Action>, deleting: bool, j: nat)
    requires j < |actions| && Wants(role, actions[j].Path()) && Deletes(actions[j]) == deleting
    ensures PickedAs(role, actions, deleting, j) < |Pick(role, actions, deleting)|
    ensures Pick(role, actions, deleting)[PickedAs(role, actions, deleting, j)] == actions[j]
  {
    var n := |actions| - 1;
    if j < n {
      PickedAt(role, actions[..n], deleting, j);
      assert actions[..n][..j] == actions[..j];
    }
  }

  lemma PickedBefore(role: Role, actions: seq<Action>, deleting: bool, k: nat, j: nat)
    requires k < j < |actions| && Wants(role, actions[k].Path()) && Deletes(actions[k]) == deleting
    ensures PickedAs(role, actions, deleting, k) < PickedAs(role, actions, deleting, j)
  {
    PickedAt(role, actions[..j], deleting, k);
    assert actions[..j][..k] == actions[..k];
  }

  /** Additions, and then deletions. */
  lemma AdditionsFirst(role: Role, actions: seq<Action>)
    ensures var ordered, n := Ordered(role, actions), |Pick(role, actions, false)|;
      && n <= |ordered|
      && (forall i | 0 <= i < n :: ordered[i] == Pick(role, actions, false)[i] && !Deletes(ordered[i]))
      && (forall i | n <= i < |ordered| :: ordered[i] == Pick(role, actions, true)[i - n] && Deletes(ordered[i]))
  {
    PickedAre(role, actions, false);
    PickedAre(role, actions, true);
  }
}
