/** What to do about another device's list, given who that device is: the shared
    area for one's own, deliveries from anybody, and what is kept for an owner. */
module Planning {
  import opened Wrappers
  import opened Versions
  import opened TreePlan
  import opened Sharing
  import opened Names
  import Paths
  import Text

  datatype Relation = Own | Guest | Host

  /** What tells one send from another: its sender, and a version of a name of theirs. */
  datatype Send = Send(sender: DeviceId, path: string, vector: Vector)

  /** A file kept in a vault: `held` once it is kept for its owner, rather than only
      waiting for it. */
  datatype Keep = Keep(content: Hash, vector: Vector, held: bool)

  type Kept = map<(DeviceId, string), Keep>

  /** What planning reads of the index. */
  datatype View = View(
    me: DeviceId,
    sharedArea: bool,
    tree: Tree,
    rules: Rules,
    relations: map<DeviceId, Relation>,     // paired devices
    persons: map<DeviceId, DeviceId>,       // whose a guest's device is
    taken: set<Send>,
    kept: Kept,                             // live rows of other vaults
    wanted: set<string>,                    // dropped files asked to come back
    own: map<string, Hash>,                 // live rows of this device's own vault
    ownDeleted: set<string>,
    restored: set<FileVersion>)             // that the store would take back

  function Filter(list: seq<FileVersion>, keep: FileVersion -> bool): seq<FileVersion> {
    if list == [] then []
    else Filter(list[..|list| - 1], keep) + if keep(list[|list| - 1]) then [list[|list| - 1]] else []
  }

  function InArea(list: seq<FileVersion>, area: Area): seq<FileVersion> {
    Filter(list, (v: FileVersion) => v.area == area)
  }

  // ----- the parts of a plan

  /** Sends not taken yet. A tombstone is the sender tidying up. */
  function Deliveries(view: View, sent: seq<FileVersion>): seq<Action> {
    if sent == [] then []
    else
      var v := sent[|sent| - 1];
      Deliveries(view, sent[..|sent| - 1])
      + if v.content.Deleted? || Send(v.author, v.path, v.vector) in view.taken then [] else [Adopt(v)]
  }

  ghost function PlanAgainst(view: View, remote: seq<FileVersion>): seq<Action> {
    Plan(view.tree, ByPath(if view.sharedArea then InArea(remote, Shared) else []))
    + Deliveries(view, InArea(remote, Sent))
  }

  /** Whether an entry kept for `owner` asks for anything. */
  predicate Needed(kept: Kept, owner: DeviceId, v: FileVersion) {
    if (owner, v.path) !in kept then v.content.File?
    else
      var row := kept[(owner, v.path)];
      match v.content
      case Deleted => Causal(row.vector, v.vector) != After
      case File(hash, _) => row.content != hash || !row.held
  }

  /** The entries of `owner`'s list that ask for anything. Silence asks for nothing. */
  function Holding(kept: Kept, list: seq<FileVersion>, owner: DeviceId): seq<Action> {
    if list == [] then []
    else
      var v := list[|list| - 1];
      Holding(kept, list[..|list| - 1], owner)
      + if v.area == Hold && Needed(kept, owner, v) then [HoldFor(owner, v)] else []
  }

  /** Own files wanted again here, where the list has the same bytes. */
  function OwnWanted(view: View, list: seq<FileVersion>): seq<Action> {
    if list == [] then []
    else
      var v := list[|list| - 1];
      OwnWanted(view, list[..|list| - 1])
      + if v.area == Held && v.path in view.wanted && v.content.File? && v.path in view.own
           && view.own[v.path] == v.content.hash
        then [Adopt(v)] else []
  }

  function OwnRestored(view: View, list: seq<FileVersion>): seq<Action> {
    if list == [] then []
    else
      var v := list[|list| - 1];
      OwnRestored(view, list[..|list| - 1])
      + if v.area == Held && v.path in view.ownDeleted && v in view.restored then [Restored(v)] else []
  }

  /** Shared files whose local copy was dropped and is asked for again. */
  ghost function WantedActions(tree: Tree, wanted: set<string>, paths: seq<string>): seq<Action> {
    if paths == [] then []
    else
      (if paths[0] in tree && tree[paths[0]].content.File? && paths[0] in wanted then [Adopt(tree[paths[0]])] else [])
      + WantedActions(tree, wanted, paths[1..])
  }

  // ----- who may change what

  /** An entry of a peer's list that this device's sharing rules leave out. */
  predicate LeftOut(view: View, v: FileVersion, peer: Option<DeviceId>) {
    v.area == Shared
    && match RuleFolder(v.path)
       case Some(folder) => peer.None? || !MayChange(view.rules, folder, peer.value)
       case None =>
         Covering(view.rules, v.path).Some?
         && (view.me !in view.rules[Covering(view.rules, v.path).value]
             || peer.None? || peer.value !in view.rules[Covering(view.rules, v.path).value])
  }

  /** The list, less what the rules leave out -- not looked at where there is no rule, in
      force or in the list. */
  function SharedWith(view: View, remote: seq<FileVersion>, peer: Option<DeviceId>): seq<FileVersion> {
    if view.rules == map[] && !(exists i | 0 <= i < |remote| :: IsRulePath(remote[i].path)) then remote
    else Filter(remote, v => !LeftOut(view, v, peer))
  }

  function PersonOf(view: View, p: DeviceId): DeviceId {
    if p in view.persons then view.persons[p] else p
  }

  predicate OtherPerson(view: View, peer: Option<DeviceId>) {
    peer.Some? && peer.value in view.relations && !view.relations[peer.value].Own?
  }

  /** The entries of a list the planner is given to reconcile. */
  function Reconciled(view: View, remote: seq<FileVersion>, peer: Option<DeviceId>): seq<FileVersion> {
    var list := if OtherPerson(view, peer) then InArea(remote, Sent) else SharedWith(view, remote, peer);
    if view.sharedArea then InArea(list, Shared) else []
  }

  /** A plan is made: no conflict stops the program on the way. */
  ghost predicate IsPlanned(view: View, remote: seq<FileVersion>, peer: Option<DeviceId>) {
    !Stops(view.tree, ByPath(Reconciled(view, remote, peer)))
  }

  /** What there is to carry out: all of the plan, or nothing. */
  ghost function PlanWith(view: View, remote: seq<FileVersion>, peer: Option<DeviceId>): seq<Action> {
    if !IsPlanned(view, remote, peer) then []
    else if OtherPerson(view, peer) then
      PlanAgainst(view, InArea(remote, Sent))
      + if view.relations[peer.value].Guest?
        then Holding(view.kept, InArea(remote, Hold), PersonOf(view, peer.value)) else []
    else
      var taken := SharedWith(view, remote, peer);
      PlanAgainst(view, taken)
      + (if peer.Some? then Holding(view.kept, taken, peer.value) else [])
      + OwnWanted(view, taken)
      + OwnRestored(view, taken)
      + WantedActions(view.tree, view.wanted, Listed(view.tree.Keys))
  }

  // ----- filters

  lemma {:induction false} FilterIs(list: seq<FileVersion>, keep: FileVersion -> bool)
    ensures forall v :: v in Filter(list, keep) <==> v in list && keep(v)
    ensures (forall v | v in list :: keep(v)) ==> Filter(list, keep) == list
  {
    if list != [] {
      var n := |list| - 1;
      FilterIs(list[..n], keep);
      assert list == list[..n] + [list[n]];
    }
  }

  /** Two filters one after the other are one, in either order. */
  lemma {:induction false} FiltersSwap(list: seq<FileVersion>, f: FileVersion -> bool, g: FileVersion -> bool)
    ensures Filter(Filter(list, f), g) == Filter(Filter(list, g), f)
  {
    if list != [] {
      var n := |list| - 1;
      FiltersSwap(list[..n], f, g);
      FilterLast(Filter(list[..n], f), list[n], g);
      FilterLast(Filter(list[..n], g), list[n], f);
    }
  }

  lemma FilterLast(list: seq<FileVersion>, v: FileVersion, keep: FileVersion -> bool)
    ensures Filter(list + [v], keep) == Filter(list, keep) + if keep(v) then [v] else []
    ensures Filter(list + [], keep) == Filter(list, keep)
  {
    assert (list + [v])[..|list|] == list;
    assert list + [] == list;
  }

  /** What is left out is left out even where the rules are not looked at. */
  lemma SharedWithLeavesOut(view: View, remote: seq<FileVersion>, peer: Option<DeviceId>)
    ensures SharedWith(view, remote, peer) == Filter(remote, v => !LeftOut(view, v, peer))
  {
    if view.rules == map[] && !(exists i | 0 <= i < |remote| :: IsRulePath(remote[i].path)) {
      FilterIs(remote, v => !LeftOut(view, v, peer));
      forall v | v in remote ensures !LeftOut(view, v, peer) {
        var i :| 0 <= i < |remote| && remote[i] == v;
        assert !IsRulePath(remote[i].path);
      }
    }
  }

  /** Planning with a peer is planning with its list as if what the rules leave out
      were not in it. */
  lemma PlanIgnoresLeftOut(view: View, remote: seq<FileVersion>, peer: Option<DeviceId>)
    ensures PlanWith(view, remote, peer) == PlanWith(view, Filter(remote, v => !LeftOut(view, v, peer)), peer)
  {
    var keep := (v: FileVersion) => !LeftOut(view, v, peer);
    var list := Filter(remote, keep);
    if OtherPerson(view, peer) {
      AreaSurvives(view, remote, peer, Sent);
      AreaSurvives(view, remote, peer, Hold);
      hide *;
    } else {
      SharedWithLeavesOut(view, remote, peer);
      SharedWithLeavesOut(view, list, peer);
      FilterIs(remote, keep);
      FilterIs(list, keep);
      hide Plan, Deliveries, Holding, OwnWanted, OwnRestored, WantedActions, LeftOut;
      assert forall v | v in list :: keep(v);
      assert Filter(list, keep) == list;
    }
  }

  lemma AreaSurvives(view: View, remote: seq<FileVersion>, peer: Option<DeviceId>, area: Area)
    requires area != Shared
    ensures InArea(Filter(remote, v => !LeftOut(view, v, peer)), area) == InArea(remote, area)
  {
    var keep := (v: FileVersion) => !LeftOut(view, v, peer);
    var here := (v: FileVersion) => v.area == area;
    FiltersSwap(remote, keep, here);
    FilterIs(remote, here);
    FilterIs(InArea(remote, area), keep);
  }

  // ----- where the actions of a plan come from

  /** An action the planner takes about some path. */
  ghost predicate Decided(local: Tree, remote: Tree, a: Action) {
    exists q :: Decision(local, remote, q) == Some(a)
  }

  lemma {:induction false} FromDecision(local: Tree, remote: Tree, paths: seq<string>, a: Action)
    requires a in ActionsOn(local, remote, paths)
    ensures Decided(local, remote, a)
  {
    if Decision(local, remote, paths[0]) != Some(a) {
      FromDecision(local, remote, paths[1..], a);
    }
  }

  lemma {:induction false} FromWanted(tree: Tree, wanted: set<string>, paths: seq<string>, a: Action)
    requires a in WantedActions(tree, wanted, paths)
    ensures exists q | q in tree :: a == Adopt(tree[q])
  {
    if paths[0] in tree && tree[paths[0]].content.File? && paths[0] in wanted && a == Adopt(tree[paths[0]]) {
    } else {
      FromWanted(tree, wanted, paths[1..], a);
    }
  }

  lemma {:induction false} FromPrivate(view: View, list: seq<FileVersion>, a: Action)
    ensures a in Deliveries(view, list) ==> a.Adopt? && a.remote in list
    ensures a in OwnWanted(view, list) ==> a.Adopt? && a.remote.area == Held
    ensures a in OwnRestored(view, list) ==> a.Restored?
  {
    if list != [] { FromPrivate(view, list[..|list| - 1], a); }
  }

  lemma {:induction false} FromHolding(kept: Kept, list: seq<FileVersion>, owner: DeviceId, a: Action)
    requires a in Holding(kept, list, owner)
    ensures a.HoldFor? && a.owner == owner && a.kept in list && a.kept.area == Hold && Needed(kept, owner, a.kept)
  {
    var n := |list| - 1;
    if a in Holding(kept, list[..n], owner) {
      FromHolding(kept, list[..n], owner, a);
    }
  }

  lemma {:induction false} ByPathIs(list: seq<FileVersion>)
    ensures forall p | p in ByPath(list) :: ByPath(list)[p].path == p && ByPath(list)[p] in list
  {
    if list != [] {
      ByPathIs(list[..|list| - 1]);
    }
  }

  /** Every action of a plan is nothing to the shared area, or puts back a row this
      device has, or is what the planner decides about a path, given the entries that
      are not left out. */
  lemma WhereFrom(view: View, remote: seq<FileVersion>, peer: Option<DeviceId>, a: Action)
    requires a in PlanWith(view, remote, peer)
    ensures
      || a.HoldFor? || a.Restored? || (a.Adopt? && a.remote.area != Shared)
      || (exists q | q in view.tree :: a == Adopt(view.tree[q]))
      || Decided(view.tree, ByPath(Reconciled(view, remote, peer)), a)
  {
    hide Decided, ByPath;
    var list := if OtherPerson(view, peer) then InArea(remote, Sent) else SharedWith(view, remote, peer);
    FilterIs(list, (v: FileVersion) => v.area == Sent);
    if a in Deliveries(view, InArea(list, Sent)) {
      FromPrivate(view, InArea(list, Sent), a);
    } else if a in Plan(view.tree, ByPath(Reconciled(view, remote, peer))) {
      var other := ByPath(Reconciled(view, remote, peer));
      FromDecision(view.tree, other, Listed(view.tree.Keys + other.Keys), a);
    } else if OtherPerson(view, peer) {
      FromHolding(view.kept, InArea(remote, Hold), PersonOf(view, peer.value), a);
    } else if a in OwnWanted(view, list) || a in OwnRestored(view, list) {
      FromPrivate(view, list, a);
    } else if a in WantedActions(view.tree, view.wanted, Listed(view.tree.Keys)) {
      FromWanted(view.tree, view.wanted, Listed(view.tree.Keys), a);
    } else {
      FromHolding(view.kept, list, peer.value, a);
    }
  }

  /** What a plan adopts outside the shared area are files: deliveries the list offers,
      and this device's own files. */
  lemma PrivateAdopts(view: View, remote: seq<FileVersion>, peer: Option<DeviceId>, a: Action)
    requires Filed(view.tree) && a in PlanWith(view, remote, peer) && a.Adopt? && a.remote.area != Shared
    ensures a.remote.content.File?
    ensures a.remote.area == Sent || (a.remote.area == Held && a.remote.path in view.own && !OtherPerson(view, peer))
  {
    var list := if OtherPerson(view, peer) then InArea(remote, Sent) else SharedWith(view, remote, peer);
    var other := ByPath(Reconciled(view, remote, peer));
    FilterIs(list, (v: FileVersion) => v.area == Sent);
    FilterIs(list, (v: FileVersion) => v.area == Shared);
    ByPathIs(Reconciled(view, remote, peer));
    hide ByPath, Decision, Stops, IsPlanned, LeftOut;
    if a in Deliveries(view, InArea(list, Sent)) {
      UntakenOnly(view, InArea(list, Sent), a);
    } else if a in Plan(view.tree, other) {
      FromDecision(view.tree, other, Listed(view.tree.Keys + other.Keys), a);
      var q :| Decision(view.tree, other, q) == Some(a);
      AdoptsTheirs(view.tree, other, q, a);
    } else if OtherPerson(view, peer) {
      FromHolding(view.kept, InArea(remote, Hold), PersonOf(view, peer.value), a);
    } else if a in OwnWanted(view, list) {
      FromOwnWanted(view, list, a);
    } else if a in OwnRestored(view, list) {
      FromPrivate(view, list, a);
    } else if a in WantedActions(view.tree, view.wanted, Listed(view.tree.Keys)) {
      FromWanted(view.tree, view.wanted, Listed(view.tree.Keys), a);
    } else {
      FromHolding(view.kept, list, peer.value, a);
    }
  }

  lemma AdoptsTheirs(local: Tree, remote: Tree, q: string, a: Action)
    requires Decision(local, remote, q) == Some(a) && a.Adopt?
    ensures q in remote && a.remote == remote[q]
  {
    hide Causal, Merged, Text.NotAfter, ConflictPath;
  }

  lemma {:induction false} FromOwnWanted(view: View, list: seq<FileVersion>, a: Action)
    requires a in OwnWanted(view, list)
    ensures a.Adopt? && a.remote.area == Held && a.remote.content.File? && a.remote.path in view.own
  {
    var n := |list| - 1;
    if a in OwnWanted(view, list[..n]) { FromOwnWanted(view, list[..n], a); }
  }

  // ----- a device left out of a folder

  /** The members a rule file names, by its content; one that cannot be read names
      nobody. */
  function Members(known: map<Hash, set<DeviceId>>, h: Hash): set<DeviceId> {
    if h in known then known[h] else {}
  }

  ghost function RuleFiles(tree: Tree, folder: string): set<string> {
    set x | x in tree && tree[x].content.File? && RuleFolder(x) == Some(folder)
  }

  /** Of several files with a folder's rule, the one read last. */
  ghost function ReadLast(paths: set<string>): string
    requires paths != {}
  {
    var x :| x in paths;
    x
  }

  /** The rules in force: what the live rule files say. */
  ghost function RulesOf(tree: Tree, known: map<Hash, set<DeviceId>>): Rules {
    map f | f in RuledFolders(tree) :: Members(known, tree[ReadLast(RuleFiles(tree, f))].content.hash)
  }

  ghost function RuledFolders(tree: Tree): (folders: set<string>)
    ensures forall f :: f in folders <==> RuleFiles(tree, f) != {}
  {
    var folders := set x | x in tree && tree[x].content.File? && RuleFolder(x).Some? :: RuleFolder(x).value;
    forall f ensures f in folders <==> RuleFiles(tree, f) != {} {
      if f in folders {
        var x :| x in tree && tree[x].content.File? && RuleFolder(x) == Some(f);
        assert x in RuleFiles(tree, f);
      }
      if RuleFiles(tree, f) != {} {
        var x :| x in RuleFiles(tree, f);
        assert RuleFolder(x).value == f;
      }
    }
    folders
  }

  /** A folder's files and its rule. */
  predicate Protected(folder: string, x: string) {
    Paths.Under(folder, x) || RuleFolder(x) == Some(folder)
  }

  /** A folder at the top of the shared area, whose name is not a conflict copy's. */
  ghost predicate TopFolder(folder: string) {
    ValidFolder(folder) && '/' !in folder && !HasMark(folder)
  }

  /** Rows are filed in the shared area under their own paths, and say who made them. */
  ghost predicate Sound(tree: Tree) {
    Filed(tree) && forall p | p in tree :: IsDevice(tree[p].author)
  }

  /** None of a left-out folder reaches the planner. */
  lemma NoneReconciled(view: View, remote: seq<FileVersion>, p: DeviceId, folder: string, x: string)
    requires TopFolder(folder) && folder in view.rules && p !in view.rules[folder]
    requires Protected(folder, x)
    ensures x !in ByPath(Reconciled(view, remote, Some(p)))
  {
    var list := Reconciled(view, remote, Some(p));
    ByPathIs(list);
    var here := (v: FileVersion) => v.area == Shared;
    var keep := (v: FileVersion) => !LeftOut(view, v, Some(p));
    if x in ByPath(list) {
      var v := ByPath(list)[x];
      if OtherPerson(view, Some(p)) {
        FilterIs(InArea(remote, Sent), here);
        FilterIs(remote, (w: FileVersion) => w.area == Sent);
      } else {
        FilterIs(SharedWith(view, remote, Some(p)), here);
        SharedWithLeavesOut(view, remote, Some(p));
        FilterIs(remote, keep);
        FolderIsLeftOut(view, v, p, folder);
      }
    }
  }

  lemma FolderIsLeftOut(view: View, v: FileVersion, p: DeviceId, folder: string)
    requires TopFolder(folder) && folder in view.rules && p !in view.rules[folder]
    requires Protected(folder, v.path)
    ensures v.area == Shared ==> LeftOut(view, v, Some(p))
  {}

  lemma RuleName(path: string, folder: string) returns (name: string)
    requires RuleFolder(path) == Some(folder)
    ensures name == path[|Dir(path)|..] && folder == Unescape(name)
  {
    hide SharingDir, Unescape, ConflictOrigin, Paths.IsSafe;
    name := path[|SharingDir()| + 1..];
    assert path[..|SharingDir()| + 1] == SharingDir() + "/";
    assert path == SharingDir() + "/" + name;
    DirIs(SharingDir() + "/", name);
  }

  lemma RuleCopyHasMark(v: FileVersion, folder: string)
    requires IsDevice(v.author) && RuleFolder(ConflictPath(v)) == Some(folder)
    ensures HasMark(folder)
  {
    hide *;
    var name := RuleName(ConflictPath(v), folder);
    CopyHasMark(v);
    CopyParts(v);
    RuleNameMark(name);
  }

  lemma TopCopyHasMark(v: FileVersion)
    requires IsDevice(v.author) && '/' !in ConflictPath(v)
    ensures HasMark(ConflictPath(v))
  {
    var copy := ConflictPath(v);
    CopyHasMark(v);
    CopyParts(v);
    hide ConflictPath, HasMark, Dir;
    DirIs("", copy);
    assert "" + copy == copy;
    assert copy[0..] == copy;
  }

  /** A conflict copy lands in a protected place only beside a protected file. */
  lemma CopyStaysOut(v: FileVersion, folder: string)
    requires TopFolder(folder) && IsDevice(v.author)
    requires Protected(folder, ConflictPath(v))
    ensures Protected(folder, v.path)
  {
    hide SharingDir, Unescape, ConflictOrigin, Paths.IsSafe;
    var copy := ConflictPath(v);
    if RuleFolder(copy) == Some(folder) {
      RuleCopyHasMark(v, folder);
    } else if copy == folder {
      TopCopyHasMark(v);
    } else {
      CopyParts(v);
      hide ConflictPath, HasMark, RuleFolder, Paths.Under;
    }
  }

  lemma RuleNameMark(name: string)
    ensures HasMark(name) ==> HasMark(Unescape(name))
  {
    if HasMark(name) {
      ReplaceKeepsMark(name, "%2F", '/');
      ReplaceKeepsMark(ReplaceText(name, "%2F", '/'), "%25", '%');
    }
  }

  lemma ByPathSound(view: View, remote: seq<FileVersion>, peer: Option<DeviceId>)
    requires forall i | 0 <= i < |remote| :: IsDevice(remote[i].author)
    ensures Sound(ByPath(Reconciled(view, remote, peer)))
  {
    var list := if OtherPerson(view, peer) then InArea(remote, Sent) else SharedWith(view, remote, peer);
    FilterIs(remote, (v: FileVersion) => v.area == Sent);
    FilterIs(remote, v => !LeftOut(view, v, peer));
    SharedWithLeavesOut(view, remote, peer);
    FilterIs(list, (v: FileVersion) => v.area == Shared);
    ByPathIs(Reconciled(view, remote, peer));
    hide ByPath, LeftOut, SharedWith, IsDevice;
  }

  predicate Fine(v: FileVersion) { v.area == Shared && IsDevice(v.author) }

  /** An action that writes nothing protected, unless it puts back the row there. */
  predicate Spares(tree: Tree, folder: string, a: Action) {
    match a
    case Adopt(v) => v.area == Shared ==> Fine(v) && (Protected(folder, v.path) ==> Lookup(tree, v.path) == Some(v))
    case Resurrect(v) => Fine(v) && !Protected(folder, v.path)
    case Merge(v) => Fine(v) && !Protected(folder, v.path)
    case Conflict(k, r) => Fine(k) && Fine(r) && !Protected(folder, k.path) && !Protected(folder, r.path)
    case _ => true
  }

  lemma PlanSpares(view: View, list: seq<FileVersion>, p: DeviceId, folder: string, a: Action)
    requires Sound(view.tree) && (forall i | 0 <= i < |list| :: IsDevice(list[i].author))
    requires a in PlanWith(view, list, Some(p))
    requires TopFolder(folder) && folder in view.rules && p !in view.rules[folder]
    ensures Spares(view.tree, folder, a)
  {
    hide PlanWith, ByPath, Reconciled, Causal, ConflictPath, TopFolder, Protected, IsDevice;
    WhereFrom(view, list, Some(p), a);
    var other := ByPath(Reconciled(view, list, Some(p)));
    if a.HoldFor? || a.Restored? || (a.Adopt? && a.remote.area != Shared) {
    } else if q :| q in view.tree && a == Adopt(view.tree[q]) {
    } else {
      var q :| Decision(view.tree, other, q) == Some(a);
      ByPathSound(view, list, Some(p));
      hide Decision;
      if Protected(folder, q) { NoneReconciled(view, list, p, folder, q); }
      if a.Conflict? {
        var l: FileVersion :| l.path == q && IsDevice(l.author) && a.renamed.path == ConflictPath(l);
        if Protected(folder, ConflictPath(l)) { CopyStaysOut(l, folder); }
      }
    }
  }

  /** The rule of a folder is read off the folder's rule files and nothing else. */
  lemma RuleStands(a: Tree, b: Tree, known: map<Hash, set<DeviceId>>, folder: string)
    requires forall x | RuleFolder(x) == Some(folder) :: Lookup(a, x) == Lookup(b, x)
    requires folder in RulesOf(a, known)
    ensures folder in RulesOf(b, known) && RulesOf(b, known)[folder] == RulesOf(a, known)[folder]
  {
    hide RuleFolder;
    forall x ensures x in RuleFiles(a, folder) <==> x in RuleFiles(b, folder) {
      if RuleFolder(x) == Some(folder) { assert Lookup(a, x) == Lookup(b, x); }
    }
    assert RuleFiles(a, folder) == RuleFiles(b, folder);
    var x := ReadLast(RuleFiles(a, folder));
    assert x in RuleFiles(a, folder) && Lookup(a, x) == Lookup(b, x);
  }

  // ----- where the rule does not hold

  lemma {:induction false} DecisionInPlan(local: Tree, remote: Tree, paths: seq<string>, q: string, a: Action)
    requires Decision(local, remote, q) == Some(a) && q in paths
    ensures a in ActionsOn(local, remote, paths)
  {
    if paths[0] != q { DecisionInPlan(local, remote, paths[1..], q, a); }
  }

  /** A shared file new here, that no rule leaves out, is adopted. */
  lemma NewFileIsAdopted(view: View, v: FileVersion, p: DeviceId)
    requires view.sharedArea && !OtherPerson(view, Some(p))
    requires v.area == Shared && v.path !in view.tree && !LeftOut(view, v, Some(p))
    ensures Adopt(v) in PlanWith(view, [v], Some(p))
  {
    SharedWithLeavesOut(view, [v], Some(p));
    FilterOne(v, w => !LeftOut(view, w, Some(p)));
    FilterOne(v, (w: FileVersion) => w.area == Shared);
    assert SharedWith(view, [v], Some(p)) == [v] && InArea([v], Shared) == [v];
    hide Filter, SharedWith, LeftOut, WantedActions, OwnWanted, OwnRestored, Deliveries, Holding;
    NewPathIsPlanned(view.tree, v);
    hide ByPath, Plan;
  }

  lemma FilterOne(v: FileVersion, keep: FileVersion -> bool)
    ensures Filter([v], keep) == if keep(v) then [v] else []
  {
    assert [v][..0] == [];
    assert Filter([], keep) == [];
  }

  lemma NewPathIsPlanned(tree: Tree, v: FileVersion)
    requires v.path !in tree
    ensures Adopt(v) in Plan(tree, ByPath([v]))
  {
    assert [v][..0] == [];
    assert ByPath([v]) == map[v.path := v];
    var keys := tree.Keys + ByPath([v]).Keys;
    hide ByPath;
    ListedAre(keys);
    hide Listed;
    DecisionInPlan(tree, ByPath([v]), Listed(keys), v.path, Adopt(v));
  }

  lemma CoversOwnPath(rules: Rules, folder: string)
    ensures folder in rules ==> Covering(rules, folder).Some?
  {
    assert Paths.Under(folder, folder);
  }

  lemma OuterRuleArrives(tree: Tree, known: map<Hash, set<DeviceId>>, outer: string, rule: FileVersion)
    requires outer !in RulesOf(tree, known) && RuleFolder(rule.path) == Some(outer) && rule.content.File?
    ensures var rules := RulesOf(tree[rule.path := rule], known);
            outer in rules && rules[outer] == Members(known, rule.content.hash)
    ensures forall f | f != outer :: f in RulesOf(tree[rule.path := rule], known) ==> f in RulesOf(tree, known)
  {
    var next := tree[rule.path := rule];
    assert RuleFiles(tree, outer) == {};
    forall x ensures x in RuleFiles(next, outer) <==> x == rule.path {
      assert x in RuleFiles(tree, outer) <==> x in tree && tree[x].content.File? && RuleFolder(x) == Some(outer);
    }
    assert RuleFiles(next, outer) == {rule.path};
    forall f | f != outer && f in RulesOf(next, known) ensures f in RulesOf(tree, known) {
      var x :| x in RuleFiles(next, f);
      assert x in RuleFiles(tree, f);
    }
  }

  lemma OuterIsAsked(tree: Tree, known: map<Hash, set<DeviceId>>, outer: string, rule: FileVersion, x: string)
    requires Covering(RulesOf(tree, known), outer) == None && Paths.Under(outer, x)
    requires RuleFolder(rule.path) == Some(outer) && rule.content.File?
    ensures Covering(RulesOf(tree[rule.path := rule], known), x) == Some(outer)
  {
    assert Paths.Under(outer, outer);
    OuterRuleArrives(tree, known, outer, rule);
    hide RulesOf, RuleFolder;
    var c := Covering(RulesOf(tree[rule.path := rule], known), x).value;
    Paths.UnderBoth(c, outer, x);
  }

  // ----- another person's device

  /** From another person's device come deliveries not taken yet and, from a guest,
      what it asks to have kept, for its person; nothing else of its list. */
  lemma OtherPersonsPlan(view: View, remote: seq<FileVersion>, p: DeviceId, a: Action)
    requires OtherPerson(view, Some(p)) && a in PlanWith(view, remote, Some(p))
    ensures a.Offer? || a.Adopt? || a.HoldFor?
    ensures a.Adopt? ==> a.remote in remote && a.remote.area == Sent && a.remote.content.File?
                         && Send(a.remote.author, a.remote.path, a.remote.vector) !in view.taken
    ensures a.HoldFor? ==> view.relations[p].Guest? && a.owner == PersonOf(view, p)
                           && a.kept in remote && a.kept.area == Hold
  {
    var sent := InArea(remote, Sent);
    FilterIs(remote, (v: FileVersion) => v.area == Sent);
    FilterIs(remote, (v: FileVersion) => v.area == Hold);
    FilterIs(sent, (v: FileVersion) => v.area == Sent);
    FilterIs(sent, (v: FileVersion) => v.area == Shared);
    NothingIn(InArea(sent, Shared));
    var none: Tree := map[];
    if a in Deliveries(view, InArea(sent, Sent)) {
      UntakenOnly(view, InArea(sent, Sent), a);
    } else if a in Plan(view.tree, none) {
      FromDecision(view.tree, none, Listed(view.tree.Keys + none.Keys), a);
    } else {
      FromHolding(view.kept, InArea(remote, Hold), PersonOf(view, p), a);
    }
  }

  lemma NothingIn(list: seq<FileVersion>)
    ensures list == [] || list[0] in list
    ensures ByPath([]) == map[]
  {}

  lemma {:induction false} UntakenOnly(view: View, list: seq<FileVersion>, a: Action)
    requires a in Deliveries(view, list)
    ensures a.Adopt? && a.remote in list && a.remote.content.File?
            && Send(a.remote.author, a.remote.path, a.remote.vector) !in view.taken
  {
    var n := |list| - 1;
    if a in Deliveries(view, list[..n]) { UntakenOnly(view, list[..n], a); }
  }
}
