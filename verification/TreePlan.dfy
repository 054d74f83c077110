/** Comparing two devices' views of the shared area, path by path: what each should
    do, and that doing it brings them together. */
module TreePlan {
  import opened Wrappers
  import opened Versions
  import opened Names
  import opened Text

  // ----- one path

  /** What becomes of a path both sides know. */
  function Resolve(l: FileVersion, r: FileVersion): (a: Option<Action>)
  {
    match Causal(l.vector, r.vector)
    case Equal => None
    case After => Some(Offer(l))
    case Before => Some(Adopt(r))
    case Concurrent =>
      var vector := Merged(l.vector, r.vector);
      if l.content == r.content then
        Some(Merge((if NotAfter(l.author, r.author) then l else r).(vector := vector)))
      else if l.content.Deleted? then Some(Resurrect(r.(vector := vector)))
      else if r.content.Deleted? then Some(Resurrect(l.(vector := vector)))
      else
        var (winner, loser) := if l.content.hash > r.content.hash then (l, r) else (r, l);
        Some(Conflict(winner.(vector := vector), loser.(path := ConflictPath(loser), vector := vector)))
  }

  /** The comparison as a value. */
  function Causal(a: Vector, b: Vector): Causality {
    var ahead := exists d | d in a.Keys + b.Keys :: Get(a, d) > Get(b, d);
    var behind := exists d | d in a.Keys + b.Keys :: Get(b, d) > Get(a, d);
    if ahead then (if behind then Concurrent else After) else if behind then Before else Equal
  }

  lemma MergedIsLater(a: Vector, b: Vector)
    requires Causal(a, b) == Concurrent
    ensures Causal(b, Merged(a, b)) == Before && Causal(Merged(a, b), b) == After
  {
    MergedIsAfter(a, b);
    CausalFlips(Merged(a, b), b);
  }

  // ----- whole trees

  type Tree = map<string, FileVersion>

  /** A list as the planner reads it: by path, the last entry for one standing. */
  function ByPath(list: seq<FileVersion>): Tree {
    if list == [] then map[]
    else ByPath(list[..|list| - 1])[list[|list| - 1].path := list[|list| - 1]]
  }

  function Decision(local: Tree, remote: Tree, p: string): Option<Action> {
    if p in local then if p in remote then Resolve(local[p], remote[p]) else Some(Offer(local[p]))
    else if p in remote then Some(Adopt(remote[p]))
    else None
  }

  /** The paths in order. */
  ghost function Listed(paths: set<string>): seq<string> {
    if paths == {} then []
    else
      HasLeast(paths);
      var p :| IsLeast(p, paths);
      [p] + Listed(paths - {p})
  }

  ghost function ActionsOn(local: Tree, remote: Tree, paths: seq<string>): seq<Action> {
    if paths == [] then []
    else
      (match Decision(local, remote, paths[0]) case Some(a) => [a] case None => [])
      + ActionsOn(local, remote, paths[1..])
  }

  predicate Conflicts(local: Tree, remote: Tree, p: string) {
    Decision(local, remote, p).Some? && Decision(local, remote, p).value.Conflict?
  }

  /** A conflict for whose copy no name can be made up: the program stops. */
  predicate StopsAt(local: Tree, remote: Tree, p: string) {
    Conflicts(local, remote, p) && !CanDecorate(p)
  }

  ghost predicate Stops(local: Tree, remote: Tree) { exists p :: StopsAt(local, remote, p) }

  /** The plan; none, if the program stops on the way to one. */
  ghost function Planned(local: Tree, remote: Tree): Option<seq<Action>> {
    if Stops(local, remote) then None else Some(ActionsOn(local, remote, Listed(local.Keys + remote.Keys)))
  }

  /** What there is to carry out: nothing, if there is no plan. */
  ghost function Plan(local: Tree, remote: Tree): seq<Action> {
    match Planned(local, remote) case Some(actions) => actions case None => []
  }

  /** What to do about every path either side knows, in path order. */
  method Reconcile(ours: seq<FileVersion>, theirs: seq<FileVersion>) returns (actions: Option<seq<Action>>)
    ensures actions == Planned(ByPath(ours), ByPath(theirs))
  {
    hide Resolve, NotAfter, Listed, ActionsOn, ByPath, CanDecorate;
    var local, remote := ByPath(ours), ByPath(theirs);
    var done: seq<Action> := [];
    NothingListed(local, remote);
    var paths := local.Keys + remote.Keys;
    ghost var plan := ActionsOn(local, remote, Listed(paths));
    while paths != {}
      invariant done + ActionsOn(local, remote, Listed(paths)) == plan
      invariant forall p :: StopsAt(local, remote, p) ==> p in paths
    {
      HasLeast(paths);
      var p :| IsLeast(p, paths);
      NextListed(local, remote, paths, p);
      if Conflicts(local, remote, p) && !CanDecorate(p) {
        assert StopsAt(local, remote, p);
        return None;
      }
      match Decision(local, remote, p) {
        case Some(a) => done := done + [a];
        case None =>
      }
      paths := paths - {p};
    }
    NothingListed(local, remote);
    assert done == plan && !Stops(local, remote);
    return Some(done);
  }

  lemma NothingListed(local: Tree, remote: Tree)
    ensures ActionsOn(local, remote, Listed({})) == []
  {}

  lemma NextListed(local: Tree, remote: Tree, paths: set<string>, p: string)
    requires IsLeast(p, paths)
    ensures ActionsOn(local, remote, Listed(paths))
      == (match Decision(local, remote, p) case Some(a) => [a] case None => []) + ActionsOn(local, remote,
          Listed(paths - {p}))
  {
    var listed := Listed(paths);
    LeastIsOne(paths, p, listed[0]);
    assert listed[1..] == Listed(paths - {p});
  }

  lemma LeastIsOne(paths: set<string>, p: string, q: string)
    requires IsLeast(p, paths) && IsLeast(q, paths)
    ensures p == q
  {
    OrderIsTotal(p, q);
  }

  // ----- carrying a plan out

  /** The rows of the shared area after one action carried out in full. A merge
      records history on the row already there; an offer is the other side's work. */
  function Done(tree: Tree, a: Action): Tree {
    match a
    case Adopt(v) => tree[v.path := v]
    case Resurrect(v) => tree[v.path := v]
    case Merge(v) => if v.path in tree then tree[v.path := v.(content := tree[v.path].content)] else tree
    case Conflict(keeps, renamed) => tree[renamed.path := renamed][keeps.path := keeps]
    case _ => tree
  }

  function DoneAll(tree: Tree, actions: seq<Action>): Tree
    decreases |actions|
  {
    if actions == [] then tree else DoneAll(Done(tree, actions[0]), actions[1..])
  }

  /** This device's tree after planning against `remote` and carrying it out. */
  ghost function Synced(local: Tree, remote: Tree): Tree { DoneAll(local, Plan(local, remote)) }

  /** Rows are filed under their own paths, in the shared area. */
  ghost predicate Filed(tree: Tree) { forall p | p in tree :: tree[p].path == p && tree[p].area == Shared }

  /** The name the losing version at `p` is written under. */
  function CopyName(local: Tree, remote: Tree, p: string): string
    requires Conflicts(local, remote, p)
  {
    Decision(local, remote, p).value.renamed.path
  }

  /** What a path's own action makes of it, on top of what `before` it is: a merge records
      history on whatever is there, an offer is the other side's work. */
  function Written(local: Tree, remote: Tree, p: string, before: Option<FileVersion>): Option<FileVersion> {
    match Decision(local, remote, p)
    case Some(Adopt(v)) => Some(v)
    case Some(Resurrect(v)) => Some(v)
    case Some(Merge(v)) => if before.Some? then Some(v.(content := before.value.content)) else None
    case Some(Conflict(keeps, _)) => Some(keeps)
    case _ => before
  }

  /** `q` loses its version to the name `x`, and no such path comes after it. */
  ghost predicate IsLastCopy(local: Tree, remote: Tree, q: string, x: string) {
    IsCopy(local, remote, q, x) && forall p | IsCopy(local, remote, p, x) :: NotAfter(p, q)
  }

  predicate IsCopy(local: Tree, remote: Tree, q: string, x: string) {
    q != x && Conflicts(local, remote, q) && CopyName(local, remote, q) == x
  }

  function Renamed(local: Tree, remote: Tree, q: string): FileVersion
    requires Conflicts(local, remote, q)
  {
    Decision(local, remote, q).value.renamed
  }

  predicate Distinct(paths: seq<string>) {
    forall i, j | 0 <= i < j < |paths| :: paths[i] != paths[j]
  }

  predicate Ascending(paths: seq<string>) {
    forall i, j | 0 <= i <= j < |paths| :: NotAfter(paths[i], paths[j])
  }

  lemma {:induction false} ListedAre(paths: set<string>)
    ensures Distinct(Listed(paths)) && Ascending(Listed(paths))
    ensures forall p :: p in Listed(paths) <==> p in paths
  {
    if paths != {} {
      var p := Listed(paths)[0];
      HasLeast(paths);
      var rest := Listed(paths)[1..];
      assert IsLeast(p, paths) && rest == Listed(paths - {p});
      ListedAre(paths - {p});
      assert Listed(paths) == [p] + rest;
      forall j | 0 <= j < |rest| ensures NotAfter(p, rest[j]) { assert rest[j] in rest; }
    }
  }

  /** What one path's action makes of another path's row, and of its own. */
  function StepRow(local: Tree, remote: Tree, p: string, x: string, before: Option<FileVersion>): Option<FileVersion> {
    if p == x then Written(local, remote, x, before)
    else if IsCopy(local, remote, p, x) then Some(Renamed(local, remote, p))
    else before
  }

  function RowAfter(local: Tree, remote: Tree, paths: seq<string>, x: string, before: Option<FileVersion>)
    : Option<FileVersion>
  {
    if paths == [] then before
    else RowAfter(local, remote, paths[1..], x, StepRow(local, remote, paths[0], x, before))
  }

  lemma {:induction false} DoneRow(local: Tree, remote: Tree, t: Tree, paths: seq<string>, x: string)
    requires Filed(local) && Filed(remote)
    ensures Lookup(DoneAll(t, ActionsOn(local, remote, paths)), x) == RowAfter(local, remote, paths, x, Lookup(t, x))
    decreases |paths|
  {
    if paths != [] {
      var p, rest := paths[0], ActionsOn(local, remote, paths[1..]);
      match Decision(local, remote, p) {
        case Some(a) =>
          StepAt(local, remote, t, p, a, x);
          assert ([a] + rest)[1..] == rest;
          DoneRow(local, remote, Done(t, a), paths[1..], x);
        case None =>
          assert [] + rest == rest;
          DoneRow(local, remote, t, paths[1..], x);
      }
    }
  }

  lemma StepAt(local: Tree, remote: Tree, t: Tree, p: string, a: Action, x: string)
    requires Filed(local) && Filed(remote) && Decision(local, remote, p) == Some(a)
    ensures Lookup(Done(t, a), x) == StepRow(local, remote, p, x, Lookup(t, x))
  {
    hide Causal, ConflictPath, Merged, NotAfter;
  }

  /** Where no copy of the stretch is named `x`, only its own action writes it. */
  lemma {:induction false} NoCopyRow(
    local: Tree, remote: Tree, paths: seq<string>, x: string, before: Option<FileVersion>)
    requires Distinct(paths) && forall p | p in paths :: !IsCopy(local, remote, p, x)
    ensures RowAfter(local, remote, paths, x, before)
      == if x in paths then Written(local, remote, x, before) else before
    decreases |paths|
  {
    hide Written, IsCopy;
    if paths != [] {
      assert forall p | p in paths[1..] :: p in paths && p != paths[0];
      assert x in paths <==> x == paths[0] || x in paths[1..];
      NoCopyRow(local, remote, paths[1..], x, StepRow(local, remote, paths[0], x, before));
    }
  }

  /** Where one is, the last of them stands, unless the path's own action comes later. */
  lemma {:induction false} LastCopyRow(
    local: Tree, remote: Tree, paths: seq<string>, x: string, before: Option<FileVersion>, c: string)
    requires Distinct(paths) && Ascending(paths) && c in paths && IsLastCopy(local, remote, c, x)
    ensures RowAfter(local, remote, paths, x, before)
      == if x in paths && NotAfter(c, x) then Written(local, remote, x, Some(Renamed(local, remote, c)))
         else Some(Renamed(local, remote, c))
    decreases |paths|
  {
    assert c != x && IsCopy(local, remote, c, x);
    hide Written, NotAfter, Renamed, IsCopy;
    var rest := paths[1..];
    assert forall p | p in rest :: p in paths && p != paths[0] && NotAfter(paths[0], p);
    assert x in paths <==> x == paths[0] || x in rest;
    var next := StepRow(local, remote, paths[0], x, before);
    if paths[0] == c {
      forall p | p in rest ensures !IsCopy(local, remote, p, x) { OrderIsTotal(c, p); }
      NoCopyRow(local, remote, rest, x, next);
    } else {
      if paths[0] == x { OrderIsTotal(c, x); }
      LastCopyRow(local, remote, rest, x, next, c);
    }
  }

  /** What a path ends up holding: nothing moves if there is no plan; otherwise the last
      copy of its name, if any, and on top of that what its own action writes, if it comes
      after. */
  ghost function SyncedRow(local: Tree, remote: Tree, x: string): Option<FileVersion> {
    if Stops(local, remote) then Lookup(local, x)
    else if exists c :: IsLastCopy(local, remote, c, x) then
      var c :| IsLastCopy(local, remote, c, x);
      if NotAfter(c, x) then Written(local, remote, x, Some(Renamed(local, remote, c)))
      else Some(Renamed(local, remote, c))
    else Written(local, remote, x, Lookup(local, x))
  }

  /** Every row after a sync, of any two trees. */
  lemma SyncedAt(local: Tree, remote: Tree, x: string)
    requires Filed(local) && Filed(remote)
    ensures Lookup(Synced(local, remote), x) == SyncedRow(local, remote, x)
  {
    var all := local.Keys + remote.Keys;
    var paths := Listed(all);
    ListedAre(all);
    DoneRow(local, remote, local, paths, x);
    hide Listed, Resolve, NotAfter, ActionsOn, RowAfter, Written;
    if Stops(local, remote) {
      assert DoneAll(local, []) == local;
    } else if exists c :: IsLastCopy(local, remote, c, x) {
      var c :| IsLastCopy(local, remote, c, x) && SyncedRow(local, remote, x) ==
        if NotAfter(c, x) then Written(local, remote, x, Some(Renamed(local, remote, c)))
        else Some(Renamed(local, remote, c));
      LastCopyRow(local, remote, paths, x, Lookup(local, x), c);
      if x !in all { Unnamed(local, remote, x, Some(Renamed(local, remote, c))); }
    } else {
      forall p | p in paths ensures !IsCopy(local, remote, p, x) {
        if IsCopy(local, remote, p, x) { HasLastCopy(local, remote, p, x); }
      }
      NoCopyRow(local, remote, paths, x, Lookup(local, x));
      if x !in all { Unnamed(local, remote, x, Lookup(local, x)); }
    }
  }

  lemma Unnamed(local: Tree, remote: Tree, x: string, before: Option<FileVersion>)
    requires x !in local && x !in remote
    ensures Written(local, remote, x, before) == before
  {}

  lemma HasLastCopy(local: Tree, remote: Tree, p: string, x: string)
    requires IsCopy(local, remote, p, x)
    ensures exists c :: IsLastCopy(local, remote, c, x)
  {
    hide Resolve, NotAfter;
    var copies := set q | q in local.Keys && IsCopy(local, remote, q, x);
    assert p in copies;
    HasGreatest(copies);
    var c :| IsGreatest(c, copies);
    assert IsLastCopy(local, remote, c, x);
  }

  /** What a path comes to on its own. */
  function Outcome(local: Tree, remote: Tree, p: string): Option<FileVersion> {
    Written(local, remote, p, Lookup(local, p))
  }

  /** Each copy's name is new to both sides, and no other copy has it. */
  ghost predicate NamesAreFree(a: Tree, b: Tree) {
    forall p | Conflicts(a, b, p) && CanDecorate(p) ::
       && CopyName(a, b, p) !in a && CopyName(a, b, p) !in b
       && (forall q | Conflicts(a, b, q) && CanDecorate(q) && q != p :: CopyName(a, b, q) != CopyName(a, b, p))
  }

  /** With such names each path either side knew has its outcome, each copy is under its
      name, and there is nothing else. */
  lemma SyncedFree(local: Tree, remote: Tree, x: string)
    requires Filed(local) && Filed(remote) && NamesAreFree(local, remote) && !Stops(local, remote)
    ensures x in local || x in remote ==> Lookup(Synced(local, remote), x) == Outcome(local, remote, x)
    ensures forall p | Conflicts(local, remote, p) && CopyName(local, remote, p) == x ::
      Lookup(Synced(local, remote), x) == Some(Renamed(local, remote, p))
    ensures x !in local && x !in remote && !(exists p :: Conflicts(local, remote, p) && CopyName(local, remote, p) == x)
      ==> Lookup(Synced(local, remote), x) == None
  {
    SyncedAt(local, remote, x);
    hide Synced, Resolve, NotAfter, Written, CanDecorate;
    forall p | Conflicts(local, remote, p) ensures CanDecorate(p) { assert !StopsAt(local, remote, p); }
    if x !in local && x !in remote { Unnamed(local, remote, x, None); }
    hide Conflicts, Renamed, CopyName;
    forall p | Conflicts(local, remote, p) && CopyName(local, remote, p) == x
      ensures Lookup(Synced(local, remote), x) == Some(Renamed(local, remote, p))
    {
      OnlyCopy(local, remote, p, x);
      Unnamed(local, remote, x, Some(Renamed(local, remote, p)));
    }
  }

  lemma OnlyCopy(local: Tree, remote: Tree, p: string, x: string)
    requires NamesAreFree(local, remote) && forall q | Conflicts(local, remote, q) :: CanDecorate(q)
    requires Conflicts(local, remote, p) && CopyName(local, remote, p) == x
    ensures x !in local && x !in remote && IsLastCopy(local, remote, p, x)
    ensures forall c | IsLastCopy(local, remote, c, x) :: c == p
  {
    OrderIsTotal(p, p);
    hide Resolve, NotAfter, CanDecorate;
  }

  /** A file only this side has keeps its row exactly when no copy is named after it, or the
      last that is is that very version. */
  lemma TakenNameStaysExactly(a: Tree, b: Tree, x: string)
    requires Filed(a) && Filed(b) && x in a && x !in b
    ensures Lookup(Synced(a, b), x) == Lookup(a, x) <==>
      Stops(a, b) || forall c | IsLastCopy(a, b, c, x) :: Renamed(a, b, c) == a[x]
  {
    SyncedAt(a, b, x);
    hide Synced, Stops, NotAfter, Resolve;
    forall c, d | IsLastCopy(a, b, c, x) && IsLastCopy(a, b, d, x) ensures c == d { OrderIsTotal(c, d); }
  }

  // ----- two devices

  /** What two histories of one path must respect for both sides to settle it alike:
      one vector, one version; two versions of the same bytes by one device, one
      date; and different files, different hashes. */
  predicate Settles(x: FileVersion, y: FileVersion) {
    match Causal(x.vector, y.vector)
    case Equal => x == y
    case Concurrent =>
      if x.content == y.content then x.author != y.author || x.at == y.at
      else x.content.Deleted? || y.content.Deleted? || x.content.hash != y.content.hash
    case _ => true
  }

  lemma CausalFlips(x: Vector, y: Vector)
    ensures Causal(y, x) == match Causal(x, y) case Before => After case After => Before case c => c
  {}

  lemma CausalSelf(x: Vector)
    ensures Causal(x, x) == Equal
  {}

  lemma OutcomesAgree(a: Tree, b: Tree, p: string)
    requires Filed(a) && Filed(b)
    ensures !(p in a && p in b) ==> Outcome(a, b, p) == Outcome(b, a, p)
    ensures p in a && p in b ==> (Outcome(a, b, p) == Outcome(b, a, p) <==> Settles(a[p], b[p]))
  {
    if p in a && p in b {
      SettledOn(a, b, p);
      SettledOn(b, a, p);
      SettledAlike(a[p], b[p]);
      hide Outcome, Settled, Settles;
    }
  }

  /** The version two versions of a path come to. */
  function Settled(l: FileVersion, r: FileVersion): FileVersion {
    match Causal(l.vector, r.vector)
    case Before => r
    case Concurrent => Survivor(l, r).(vector := Merged(l.vector, r.vector))
    case _ => l
  }

  /** Of two concurrent versions, the one that keeps the path. */
  function Survivor(l: FileVersion, r: FileVersion): FileVersion {
    if l.content == r.content then (if NotAfter(l.author, r.author) then l else r)
    else if l.content.Deleted? then r
    else if r.content.Deleted? then l
    else if l.content.hash > r.content.hash then l
    else r
  }

  lemma SettledOn(a: Tree, b: Tree, p: string)
    requires p in a && p in b
    ensures Outcome(a, b, p) == Some(Settled(a[p], b[p]))
  {
    hide Causal, Merged, NotAfter, ConflictPath;
  }

  lemma SettledAlike(x: FileVersion, y: FileVersion)
    requires x.path == y.path && x.area == y.area
    ensures Settled(x, y) == Settled(y, x) <==> Settles(x, y)
  {
    hide Causal, Merged, NotAfter;
    CausalFlips(x.vector, y.vector);
    MergedIsJoin(x.vector, y.vector);
    OrderIsTotal(x.author, y.author);
    var m := Merged(x.vector, y.vector);
    if Causal(x.vector, y.vector) == Concurrent {
      assert Settled(x, y) == Survivor(x, y).(vector := m) && Settled(y, x) == Survivor(y, x).(vector := m);
    }
  }

  lemma CopiesAgreeAt(a: Tree, b: Tree, p: string)
    requires Filed(a) && Filed(b)
    ensures Conflicts(a, b, p) <==> Conflicts(b, a, p)
    ensures Conflicts(a, b, p) && Settles(a[p], b[p]) ==>
      Renamed(a, b, p) == Renamed(b, a, p)
  {
    if p in a && p in b {
      var x, y := a[p], b[p];
      hide Causal, Merged, NotAfter, ConflictPath;
      CausalFlips(x.vector, y.vector);
      MergedIsJoin(x.vector, y.vector);
    }
  }

  /** Where one side stops so does the other; then nothing moves, and they differ. */
  lemma StopsForBoth(a: Tree, b: Tree)
    requires Filed(a) && Filed(b)
    ensures Stops(a, b) <==> Stops(b, a)
    ensures Stops(a, b) ==> Synced(a, b) == a && Synced(b, a) == b && a != b
  {
    forall p ensures StopsAt(a, b, p) <==> StopsAt(b, a, p) { CopiesAgreeAt(a, b, p); }
    if p :| StopsAt(a, b, p) {
      assert StopsAt(b, a, p);
      assert DoneAll(a, []) == a && DoneAll(b, []) == b;
      hide Planned, Causal, Merged, ConflictPath;
      assert a[p].content != b[p].content;
    }
  }

  /** Two concurrent edits of such a file stop the planning of everything else there is. */
  lemma UmlautStops(a: Tree, b: Tree, p: string)
    requires Filed(a) && Filed(b) && p == UMLAUT && p in a && p in b
    requires a[p].content.File? && b[p].content.File? && a[p].content != b[p].content
    requires Causal(a[p].vector, b[p].vector) == Concurrent
    ensures Planned(a, b) == None && Synced(a, b) == a
  {
    hide Causal, Merged, ConflictPath;
    UmlautCannot();
    assert StopsAt(a, b, p);
    assert DoneAll(a, []) == a;
  }

  /** Two devices that compare and carry out their plans, each against the list the
      other had before, end with the same tree -- every path, every version, every
      conflict copy -- exactly when every conflict can be given a copy's name and their
      histories respect that. */
  lemma TwoDevicesConverge(a: Tree, b: Tree)
    requires Filed(a) && Filed(b) && NamesAreFree(a, b) && NamesAreFree(b, a)
    ensures Synced(a, b) == Synced(b, a) <==>
      (forall p | Conflicts(a, b, p) :: CanDecorate(p)) && forall p | p in a && p in b :: Settles(a[p], b[p])
  {
    StopsForBoth(a, b);
    hide Synced, Outcome, Decision, Settles, Filed, CanDecorate, NamesAreFree, Renamed, CopyName;
    assert (forall p | Conflicts(a, b, p) :: CanDecorate(p)) <==> !Stops(a, b) by {
      forall p ensures StopsAt(a, b, p) <==> Conflicts(a, b, p) && !CanDecorate(p) {}
    }
    if !Stops(a, b) && Synced(a, b) == Synced(b, a) {
      forall p | p in a && p in b ensures Settles(a[p], b[p]) {
        SyncedFree(a, b, p);
        SyncedFree(b, a, p);
        OutcomesAgree(a, b, p);
      }
    }
    if !Stops(a, b) && forall p | p in a && p in b :: Settles(a[p], b[p]) {
      forall x ensures Lookup(Synced(a, b), x) == Lookup(Synced(b, a), x) {
        SyncedFree(a, b, x);
        SyncedFree(b, a, x);
        if x in a || x in b {
          OutcomesAgree(a, b, x);
        } else {
          CopiesAgree(a, b, x);
        }
      }
      SameMaps(Synced(a, b), Synced(b, a));
    }
  }

  /** A copy's name means the same copy to both. */
  lemma CopiesAgree(a: Tree, b: Tree, x: string)
    requires Filed(a) && Filed(b)
    requires forall p | p in a && p in b :: Settles(a[p], b[p])
    ensures forall p :: Conflicts(a, b, p) && CopyName(a, b, p) == x <==> Conflicts(b, a, p) && CopyName(b, a, p) == x
    ensures forall p | Conflicts(a, b, p) ::
      (Conflicts(b, a, p) && Renamed(a, b, p) == Renamed(b, a, p))
  {
    forall p
      ensures Conflicts(a, b, p) <==> Conflicts(b, a, p)
      ensures Conflicts(a, b, p) ==> Renamed(a, b, p) == Renamed(b, a, p)
    {
      CopiesAgreeAt(a, b, p);
    }
  }

  /** Different files, different hashes. */
  predicate HashesTell(a: Tree, b: Tree) {
    forall p | p in a && p in b && a[p].content.File? && b[p].content.File? && a[p].content.hash == b[p].content.hash ::
      a[p].content == b[p].content
  }

  /** What it takes for `x` to end alike on both sides, whatever copies are named after it.
      One that comes first is all there is to agree on only where neither side then adopts
      the other's version, unless that is the very copy, and concurrent versions settle; one
      that comes last settles the matter. */
  ghost predicate Meets(a: Tree, b: Tree, x: string) {
    if exists c :: IsLastCopy(a, b, c, x) then
      forall c | IsLastCopy(a, b, c, x) && NotAfter(c, x) :: MeetsOver(a, b, x, Renamed(a, b, c))
    else x in a && x in b ==> Settles(a[x], b[x])
  }

  ghost predicate MeetsOver(a: Tree, b: Tree, x: string, copy: FileVersion) {
    && (forall v | Decision(a, b, x) == Some(Adopt(v)) || Decision(b, a, x) == Some(Adopt(v)) :: v == copy)
    && (x in a && x in b && Causal(a[x].vector, b[x].vector) == Concurrent ==> Settles(a[x], b[x]))
  }

  lemma WrittenOver(a: Tree, b: Tree, x: string, copy: FileVersion)
    requires Filed(a) && Filed(b)
    ensures Written(a, b, x, Some(copy)) == Written(b, a, x, Some(copy)) <==> MeetsOver(a, b, x, copy)
  {
    hide Causal, Merged, NotAfter, ConflictPath, Settles;
    if x in a && x in b {
      var l, r := a[x], b[x];
      CausalFlips(l.vector, r.vector);
      SettledAlike(l, r);
      SettledOn(a, b, x);
      SettledOn(b, a, x);
      if Causal(l.vector, r.vector) == Concurrent && l.content == r.content {
        var m, n := Settled(l, r), Settled(r, l);
        assert Written(a, b, x, Some(copy)) == Some(m.(content := copy.content));
        assert Written(b, a, x, Some(copy)) == Some(n.(content := copy.content));
        assert m.content == n.content == l.content;
        assert m.(content := copy.content).(content := l.content) == m;
        assert n.(content := copy.content).(content := l.content) == n;
      }
    }
  }

  lemma CopiesMeet(a: Tree, b: Tree, p: string, x: string)
    requires Filed(a) && Filed(b) && HashesTell(a, b)
    ensures IsCopy(a, b, p, x) <==> IsCopy(b, a, p, x)
    ensures IsCopy(a, b, p, x) ==> Renamed(a, b, p) == Renamed(b, a, p)
  {
    CopiesAgreeAt(a, b, p);
    hide Causal, Merged, NotAfter, ConflictPath;
  }

  lemma RowsMeet(a: Tree, b: Tree, x: string)
    requires Filed(a) && Filed(b) && HashesTell(a, b) && !Stops(a, b) && !Stops(b, a)
    ensures SyncedRow(a, b, x) == SyncedRow(b, a, x) <==> Meets(a, b, x)
  {
    forall p
      ensures IsCopy(a, b, p, x) <==> IsCopy(b, a, p, x)
      ensures IsCopy(a, b, p, x) ==> Renamed(a, b, p) == Renamed(b, a, p)
    {
      CopiesMeet(a, b, p, x);
    }
    hide Resolve, NotAfter, Written, Settles, Stops, MeetsOver, Renamed, IsCopy;
    forall c ensures IsLastCopy(a, b, c, x) <==> IsLastCopy(b, a, c, x) {}
    if c :| IsLastCopy(a, b, c, x) {
      assert forall d | IsLastCopy(a, b, d, x) :: d == c by {
        forall d | IsLastCopy(a, b, d, x) ensures d == c { OrderIsTotal(c, d); }
      }
      WrittenOver(a, b, x, Renamed(a, b, c));
    } else {
      OutcomesAgree(a, b, x);
    }
  }

  /** The same of any two trees, copies' names taken or not. */
  lemma TwoDevicesConvergeExactly(a: Tree, b: Tree)
    requires Filed(a) && Filed(b) && HashesTell(a, b)
    ensures Synced(a, b) == Synced(b, a) <==>
      (forall p | Conflicts(a, b, p) :: CanDecorate(p)) && forall x :: Meets(a, b, x)
  {
    StopsForBoth(a, b);
    hide Synced, SyncedRow, Meets, HashesTell, Resolve, CanDecorate, Filed;
    assert (forall p | Conflicts(a, b, p) :: CanDecorate(p)) <==> !Stops(a, b) by {
      forall p ensures StopsAt(a, b, p) <==> Conflicts(a, b, p) && !CanDecorate(p) {}
    }
    if !Stops(a, b) {
      forall x ensures Lookup(Synced(a, b), x) == Lookup(Synced(b, a), x) <==> Meets(a, b, x) {
        SyncedAt(a, b, x);
        SyncedAt(b, a, x);
        RowsMeet(a, b, x);
      }
      if forall x :: Meets(a, b, x) { SameMaps(Synced(a, b), Synced(b, a)); }
    }
  }

  /** Trees that agree have nothing left to do. */
  lemma {:induction false} AgreeingPlansNothing(t: Tree, paths: seq<string>)
    requires forall p | p in paths :: p in t
    ensures ActionsOn(t, t, paths) == []
  {
    if paths != [] {
      assert paths[0] in paths;
      AgreeingPlansNothing(t, paths[1..]);
    }
  }

  lemma NothingLeftToDo(a: Tree, b: Tree)
    requires Filed(a) && Filed(b) && Synced(a, b) == Synced(b, a)
    ensures Planned(Synced(a, b), Synced(b, a)) == Some([])
  {
    var t := Synced(a, b);
    assert t.Keys + t.Keys == t.Keys;
    ListedAre(t.Keys);
    AgreeingPlansNothing(t, Listed(t.Keys));
  }

  // ----- one after the other

  /** No copy is named after a file of the other side. */
  ghost predicate CopiesSpare(a: Tree, b: Tree) {
    forall p | Conflicts(a, b, p) && CanDecorate(p) :: CopyName(a, b, p) !in b
  }

  /** What the second device decides, planning against what the first has become. */
  lemma SecondDecides(a: Tree, b: Tree, x: string)
    requires Filed(a) && Filed(b) && CopiesSpare(a, b) && !Stops(a, b)
    ensures var t := Synced(a, b);
            && (x in b ==> x in t)
            && (x in t ==> t[x].path == x && t[x].area == Shared)
            && Decision(b, t, x) ==
               (if x !in t || (x in b && Causal(b[x].vector, t[x].vector) == Equal) then None else Some(Adopt(t[x])))
            && (x in b && Causal(b[x].vector, t[x].vector) == Equal ==>
                  t[x] == b[x] || (x in a && t[x] == a[x] && Causal(a[x].vector, b[x].vector) == Equal))
            && (x in a && x in b && Causal(a[x].vector, b[x].vector) == Equal ==> t[x] == a[x])
  {
    SyncedAt(a, b, x);
    if x in b {
      SparedRow(a, b, x);
      if x in a { OutcomeIsLater(a, b, x); } else { OutcomeOfOne(a, b, x); }
      CausalSelf(b[x].vector);
    } else {
      TheirsIsFiled(a, b, x);
    }
    hide Synced, SyncedRow, Stops, Outcome, CopiesSpare, ConflictPath, NotAfter, Causal, Merged, Resolve, Conflicts;
    DecidesLater(b, Synced(a, b), x);
  }

  lemma SparedRow(a: Tree, b: Tree, x: string)
    requires Filed(a) && Filed(b) && CopiesSpare(a, b) && !Stops(a, b) && x in b
    ensures SyncedRow(a, b, x) == Outcome(a, b, x)
  {
    hide Resolve, NotAfter, Written, CanDecorate;
    forall p ensures !IsCopy(a, b, p, x) { assert !StopsAt(a, b, p); }
  }

  lemma TheirsIsFiled(a: Tree, b: Tree, x: string)
    requires Filed(a) && Filed(b) && x !in b
    ensures SyncedRow(a, b, x).Some? ==> SyncedRow(a, b, x).value.path == x && SyncedRow(a, b, x).value.area == Shared
  {
    hide NotAfter, Causal, Merged, ConflictPath, Stops;
    forall c | IsLastCopy(a, b, c, x) ensures Renamed(a, b, c).path == x && Renamed(a, b, c).area == Shared {
      CopyIsFiled(a, b, c);
    }
  }

  lemma CopyIsFiled(a: Tree, b: Tree, p: string)
    requires Filed(a) && Filed(b) && Conflicts(a, b, p)
    ensures Renamed(a, b, p).path == CopyName(a, b, p) && Renamed(a, b, p).area == Shared
  {
    hide Causal, Merged, ConflictPath;
  }

  lemma DecidesLater(b: Tree, t: Tree, x: string)
    requires x in b ==> x in t && Causal(b[x].vector, t[x].vector) in {Before, Equal}
    ensures Decision(b, t, x) ==
      if x !in t || (x in b && Causal(b[x].vector, t[x].vector) == Equal) then None else Some(Adopt(t[x]))
  {
    hide Causal;
  }

  lemma OutcomeOfOne(a: Tree, b: Tree, x: string)
    requires Filed(a) && Filed(b) && (x in a <==> x !in b)
    ensures Outcome(a, b, x) == if x in a then Some(a[x]) else Some(b[x])
  {}

  /** Of two versions, what is settled on is never behind the second: it is it, or
      the first by the same vector, or after it. */
  lemma OutcomeIsLater(a: Tree, b: Tree, x: string)
    requires Filed(a) && Filed(b) && x in a && x in b
    ensures Outcome(a, b, x).Some?
    ensures var o := Outcome(a, b, x).value;
            && o.path == x && o.area == Shared
            && (Causal(b[x].vector, o.vector) == Before
                || (Causal(b[x].vector, o.vector) == Equal
                    && (o == b[x] || (o == a[x] && Causal(a[x].vector, b[x].vector) == Equal))))
            && (Causal(a[x].vector, b[x].vector) == Equal ==> o == a[x])
  {
    hide Causal, Merged, ConflictPath, NotAfter;
    CausalFlips(a[x].vector, b[x].vector);
    CausalSelf(b[x].vector);
    if Causal(a[x].vector, b[x].vector) == Concurrent {
      MergedIsLater(a[x].vector, b[x].vector);
      assert Outcome(a, b, x).Some? && Outcome(a, b, x).value.vector == Merged(a[x].vector, b[x].vector);
    }
  }

  /** When the second plans against what the first has already become, it needs less: a
      name for every copy, and that one vector is one version. */
  lemma InTurnTheyConverge(a: Tree, b: Tree)
    requires Filed(a) && Filed(b) && CopiesSpare(a, b)
    ensures Synced(b, Synced(a, b)) == Synced(a, b) <==>
      && (forall p | Conflicts(a, b, p) :: CanDecorate(p))
      && forall p | p in a && p in b && Causal(a[p].vector, b[p].vector) == Equal :: a[p] == b[p]
  {
    StopsForBoth(a, b);
    hide CanDecorate, Causal, Resolve;
    assert (forall p | Conflicts(a, b, p) :: CanDecorate(p)) <==> !Stops(a, b) by {
      forall p ensures StopsAt(a, b, p) <==> Conflicts(a, b, p) && !CanDecorate(p) {}
    }
    hide Synced, Stops, CopiesSpare, Filed, Conflicts;
    if !Stops(a, b) { SecondFollows(a, b); }
  }

  lemma SecondFollows(a: Tree, b: Tree)
    requires Filed(a) && Filed(b) && CopiesSpare(a, b) && !Stops(a, b)
    ensures Synced(b, Synced(a, b)) == Synced(a, b)
      <==> forall p | p in a && p in b && Causal(a[p].vector, b[p].vector) == Equal :: a[p] == b[p]
  {
    var t := Synced(a, b);
    forall x
      ensures x in b ==> x in t
      ensures x in t ==> t[x].path == x && t[x].area == Shared
      ensures !Conflicts(b, t, x)
    {
      SecondDecides(a, b, x);
    }
    assert Filed(t) && !Stops(b, t);
    var u := Synced(b, t);
    assert forall x, c :: !IsLastCopy(b, t, c, x);
    hide Synced, CopiesSpare, Stops, Causal, Resolve, Conflicts;
    forall x
      ensures Lookup(u, x) == Lookup(t, x)
        <==> !(x in a && x in b && Causal(a[x].vector, b[x].vector) == Equal && a[x] != b[x])
    {
      SyncedAt(b, t, x);
      SecondDecides(a, b, x);
      assert Lookup(u, x) == if x in t && Decision(b, t, x).Some? then Some(t[x])
                             else if x in b then Some(b[x]) else None;
    }
    if forall x :: Lookup(u, x) == Lookup(t, x) { SameMaps(u, t); }
  }
}
