/** Devices that were set up again, gathered: a folder for each, with every identity it
    has gone by. */
module OwnerFolders {
  import opened Wrappers
  import opened Text

  type DeviceId = nat

  /** A device the owner's files are kept for: who it became, if it was set up
      again, and when it was paired. */
  datatype Device = Device(id: DeviceId, name: string, replacedBy: Option<DeviceId>, pairedAt: int)

  datatype Folder = Folder(name: string, ids: seq<DeviceId>)

  predicate DistinctIds(phones: seq<Device>) {
    forall i, j | 0 <= i < j < |phones| :: phones[i].id != phones[j].id
  }

  predicate Listed(phones: seq<Device>, id: DeviceId) {
    exists i | 0 <= i < |phones| :: phones[i].id == id
  }

  /** Nothing listed replaced it. */
  predicate IsRoot(phones: seq<Device>, d: Device) {
    d.replacedBy.None? || !Listed(phones, d.replacedBy.value)
  }

  /** The listed device that `d` is after `n` replacements, if its chain is that
      long. */
  function Later(phones: seq<Device>, d: Device, n: nat): (r: Option<Device>)
    ensures r.Some? && n > 0 ==> r.value in phones
  {
    if n == 0 then Some(d)
    else
      match Later(phones, d, n - 1)
      case None => None
      case Some(e) =>
        if IsRoot(phones, e) then None
        else
          var i := IndexOf(phones, e.replacedBy.value);
          Some(phones[i])
  }

  function IndexOf(phones: seq<Device>, id: DeviceId): (i: nat)
    requires Listed(phones, id)
    ensures i < |phones| && phones[i].id == id
  {
    if phones[0].id == id then 0 else 1 + IndexOf(phones[1..], id)
  }

  /** `d` is `root`, or became it. */
  ghost predicate Became(phones: seq<Device>, d: Device, root: Device) {
    exists n :: n >= 0 && Later(phones, d, n) == Some(root)
  }

  // ----- the worklist

  /** What the worklist of one root has got to: everything found became the
      root, and what replaced into anything already expanded has been found. */
  ghost predicate Expanding(phones: seq<Device>, root: Device, earlier: seq<Device>, reaching: seq<DeviceId>) {
    && (forall i | 0 <= i < |earlier| :: earlier[i] in phones && earlier[i] != root && Became(phones, earlier[i], root))
    && (forall i, j | 0 <= i < j < |earlier| :: earlier[i] != earlier[j])
    && (forall id | id in reaching :: id == root.id || exists e | e in earlier :: e.id == id)
    && (forall d, at | d in phones && (at == root || at in earlier) && d.replacedBy == Some(at.id) ::
          at.id in reaching || d in earlier)
  }

  lemma BecameRoot(phones: seq<Device>, d: Device, at: Device, root: Device)
    requires DistinctIds(phones) && d in phones && at in phones && d.replacedBy == Some(at.id)
    requires Became(phones, at, root)
    ensures Became(phones, d, root)
  {
    var n :| n >= 0 && Later(phones, at, n) == Some(root);
    LaterOfNext(phones, d, at, n);
    assert Later(phones, d, n + 1) == Some(root);
  }

  lemma SameId(phones: seq<Device>, a: Device, b: Device)
    requires DistinctIds(phones) && a in phones && b in phones && a.id == b.id
    ensures a == b
  {
    var i :| 0 <= i < |phones| && phones[i] == a;
    var j :| 0 <= j < |phones| && phones[j] == b;
  }

  lemma {:induction false} LaterOfNext(phones: seq<Device>, d: Device, at: Device, n: nat)
    requires DistinctIds(phones) && d in phones && at in phones && d.replacedBy == Some(at.id)
    ensures Later(phones, d, n + 1) == Later(phones, at, n)
  {
    if n > 0 { LaterOfNext(phones, d, at, n - 1); }
  }

  /** A worklist run dry has found everything that became the root. */
  lemma {:induction false} DryFindsAll(phones: seq<Device>, root: Device, earlier: seq<Device>, d: Device, n: nat)
    requires DistinctIds(phones) && root in phones && d in phones && Later(phones, d, n) == Some(root)
    requires Expanding(phones, root, earlier, [])
    ensures d == root || d in earlier
    decreases n
  {
    if n > 0 {
      LaterShorter(phones, d, n);
      assert Later(phones, d, 0) == Some(d);
      var at := phones[IndexOf(phones, d.replacedBy.value)];
      LaterOfNext(phones, d, at, n - 1);
      DryFindsAll(phones, root, earlier, at, n - 1);
    }
  }

  lemma {:induction false} LaterShorter(phones: seq<Device>, d: Device, n: nat)
    requires n > 0 && Later(phones, d, n).Some?
    ensures Later(phones, d, 1).Some?
  {
    if n > 1 { LaterShorter(phones, d, n - 1); }
  }

  function Others(phones: seq<Device>, found: seq<Device>): set<Device> {
    (set d | d in phones) - (set d | d in found)
  }

  /** The devices that became `root`, its own excepted, each once. */
  method EarlierSelves(phones: seq<Device>, root: Device) returns (earlier: seq<Device>)
    requires DistinctIds(phones) && root in phones && IsRoot(phones, root)
    ensures forall d | d in phones :: d in earlier <==> d != root && Became(phones, d, root)
    ensures forall d | d in earlier :: d in phones
    ensures forall i, j | 0 <= i < j < |earlier| :: earlier[i] != earlier[j]
  {
    earlier := [];
    var reaching := [root.id];
    assert Expanding(phones, root, earlier, reaching);
    hide Expanding, Became, IsRoot, DistinctIds, Others;
    while reaching != []
      invariant Expanding(phones, root, earlier, reaching)
      decreases Others(phones, earlier), |reaching|
    {
      var at := reaching[|reaching| - 1];
      assert reaching == reaching[..|reaching| - 1] + [at];
      earlier, reaching := FoundBehind(phones, root, earlier, reaching[..|reaching| - 1], at);
    }
    FoundAll(phones, root, earlier);
  }

  /** Everything replaced by `at` and not found yet is found, and is to be looked behind
      in its turn. */
  method FoundBehind(phones: seq<Device>, root: Device, before: seq<Device>, rest: seq<DeviceId>, at: DeviceId)
    returns (earlier: seq<Device>, reaching: seq<DeviceId>)
    requires DistinctIds(phones) && root in phones && IsRoot(phones, root)
      && Expanding(phones, root, before, rest + [at])
    ensures Expanding(phones, root, earlier, reaching)
    ensures (earlier == before && |reaching| == |rest|) || Others(phones, earlier) < Others(phones, before)
  {
    hide Expanding, Became, IsRoot, DistinctIds, Others;
    earlier, reaching := before, rest;
    var i := 0;
    while i < |phones|
      invariant 0 <= i <= |phones|
      invariant Expanding(phones, root, earlier, reaching + [at])
      invariant forall k | 0 <= k < i ::
        phones[k].replacedBy == Some(at) && phones[k].id != root.id ==> phones[k] in earlier
      invariant (earlier == before && |reaching| == |rest|) || Others(phones, earlier) < Others(phones, before)
    {
      var d := phones[i];
      if d.replacedBy == Some(at) && d.id != root.id {
        if exists e | e in earlier :: e.id == d.id {
          AlreadyFound(phones, root, earlier, reaching + [at], d);
        } else {
          FoundOne(phones, root, earlier, reaching, at, d);
          OneFewer(phones, earlier, d);
          earlier, reaching := earlier + [d], reaching + [d.id];
        }
      }
      i := i + 1;
    }
    Expanded(phones, root, earlier, reaching, at);
  }

  lemma OneFewer(phones: seq<Device>, earlier: seq<Device>, d: Device)
    requires d in phones && d !in earlier
    ensures Others(phones, earlier + [d]) < Others(phones, earlier)
  {
    assert d in Others(phones, earlier) && d !in Others(phones, earlier + [d]);
  }

  lemma AlreadyFound(phones: seq<Device>, root: Device, earlier: seq<Device>, reaching: seq<DeviceId>, d: Device)
    requires DistinctIds(phones) && d in phones && Expanding(phones, root, earlier, reaching)
    requires exists e | e in earlier :: e.id == d.id
    ensures d in earlier
  {
    var e :| e in earlier && e.id == d.id;
    SameId(phones, e, d);
  }

  lemma FoundAll(phones: seq<Device>, root: Device, earlier: seq<Device>)
    requires DistinctIds(phones) && root in phones && Expanding(phones, root, earlier, [])
    ensures forall d | d in phones :: d in earlier <==> d != root && Became(phones, d, root)
    ensures forall d | d in earlier :: d in phones
    ensures forall i, j | 0 <= i < j < |earlier| :: earlier[i] != earlier[j]
  {
    forall d | d in phones && Became(phones, d, root) ensures d == root || d in earlier {
      var n :| n >= 0 && Later(phones, d, n) == Some(root);
      DryFindsAll(phones, root, earlier, d, n);
    }
  }

  lemma Expanded(phones: seq<Device>, root: Device, earlier: seq<Device>, reaching: seq<DeviceId>, at: DeviceId)
    requires DistinctIds(phones) && root in phones && IsRoot(phones, root)
    requires Expanding(phones, root, earlier, reaching + [at])
    requires forall k | 0 <= k < |phones| ::
               phones[k].replacedBy == Some(at) && phones[k].id != root.id ==> phones[k] in earlier
    ensures Expanding(phones, root, earlier, reaching)
  {
    forall id | id in reaching ensures id in reaching + [at] {}
    forall d, a | d in phones && (a == root || a in earlier) && d.replacedBy == Some(a.id)
      ensures a.id in reaching || d in earlier
    {
      assert a.id in reaching + [at] || d in earlier;
      assert a in phones && Listed(phones, a.id);
      if d.id == root.id { SameId(phones, d, root); }
    }
  }

  lemma FoundOne(phones: seq<Device>, root: Device, earlier: seq<Device>, reaching: seq<DeviceId>, at: DeviceId,
      d: Device)
    requires DistinctIds(phones) && root in phones && d in phones && d.replacedBy == Some(at) && d.id != root.id
    requires forall e | e in earlier :: e.id != d.id
    requires Expanding(phones, root, earlier, reaching + [at])
    ensures Expanding(phones, root, earlier + [d], reaching + [d.id] + [at])
  {
    var was, now := reaching + [at], reaching + [d.id] + [at];
    assert at in was;
    assert Later(phones, root, 0) == Some(root);
    var a := if at == root.id then root else var e :| e in earlier && e.id == at; e;
    BecameRoot(phones, d, a, root);
    forall id | id in now ensures id == root.id || exists e | e in earlier + [d] :: e.id == id {
      if id == d.id {
        assert d in earlier + [d];
      } else {
        assert id in was;
        if id != root.id {
          var e :| e in earlier && e.id == id;
          assert e in earlier + [d];
        }
      }
    }
    forall id | id in was ensures id in now {}
    assert d.id in now;
  }

  // ----- the order folders list their identities in

  predicate Descending(s: seq<Device>) {
    forall i, j | 0 <= i < j < |s| :: s[i].pairedAt >= s[j].pairedAt
  }

  /** How many of `s` were paired after `d`: where `d` belongs, ahead of any
      paired when it was. */
  function Place(d: Device, s: seq<Device>): (p: nat)
    ensures p <= |s| && (forall i | 0 <= i < p :: s[i].pairedAt > d.pairedAt)
    ensures p < |s| ==> s[p].pairedAt <= d.pairedAt
  {
    if s == [] || s[0].pairedAt <= d.pairedAt then 0 else 1 + Place(d, s[1..])
  }

  /** A stable sort, the latest paired first. */
  function LatestFirst(s: seq<Device>): (r: seq<Device>) {
    if s == [] then []
    else
      var rest := LatestFirst(s[1..]);
      var p := Place(s[0], rest);
      rest[..p] + [s[0]] + rest[p..]
  }

  lemma {:induction false} LatestFirstSorts(s: seq<Device>)
    ensures multiset(LatestFirst(s)) == multiset(s) && Descending(LatestFirst(s))
  {
    if s != [] {
      LatestFirstSorts(s[1..]);
      assert s == [s[0]] + s[1..];
      Placed(s[0], LatestFirst(s[1..]));
    }
  }

  lemma Placed(d: Device, rest: seq<Device>)
    requires Descending(rest)
    ensures var p := Place(d, rest); var r := rest[..p] + [d] + rest[p..];
            multiset(r) == multiset([d]) + multiset(rest) && Descending(r)
  {
    var p := Place(d, rest);
    var front, back := rest[..p], rest[p..];
    assert rest == front + back;
    InOrder(front, d, back);
  }

  lemma InOrder(front: seq<Device>, d: Device, back: seq<Device>)
    requires Descending(front + back)
    requires forall i | 0 <= i < |front| :: front[i].pairedAt > d.pairedAt
    requires back != [] ==> back[0].pairedAt <= d.pairedAt
    ensures Descending(front + [d] + back)
  {
    var was, now := front + back, front + [d] + back;
    forall j | 0 <= j < |back| ensures back[j].pairedAt <= d.pairedAt {
      assert was[|front|] == back[0] && was[|front| + j] == back[j];
    }
    forall i, j | 0 <= i < j < |now| ensures now[i].pairedAt >= now[j].pairedAt {
      var x, y := if i < |front| then i else i - 1, if j < |front| then j else j - 1;
      if i == |front| {
        assert now[j] == back[y - |front|];
      } else if j != |front| {
        assert now[i] == was[x] && now[j] == was[y];
      }
    }
  }

  // ----- folder names

  /** The names tried for a device, in turn: its own, then `name (2)`, `name (3)`... */
  function Candidate(name: string, k: nat): string {
    if k < 2 then name else name + " (" + Decimal(k) + ")"
  }

  lemma CandidatesDiffer(name: string, j: nat, k: nat)
    requires 1 <= j < k
    ensures Candidate(name, j) != Candidate(name, k)
  {
    if j >= 2 && Candidate(name, j) == Candidate(name, k) {
      var a, b := Candidate(name, j), Candidate(name, k);
      var n := |name| + 2;
      assert a[n..|a| - 1] == Decimal(j) && b[n..|b| - 1] == Decimal(k);
      DecimalInjective(j, k);
    }
  }

  /** The first of the names tried for `wanted` that no folder has. */
  ghost predicate IsFirstFree(folders: seq<Folder>, wanted: string, name: string) {
    && (forall f | f in folders :: f.name != name)
    && exists k :: k >= 1 && name == Candidate(wanted, k)
                   && forall j | 1 <= j < k :: exists f | f in folders :: f.name == Candidate(wanted, j)
  }

  /** The first name no folder has yet: the search ends, since only as many names
      can be taken as there are folders. */
  method FreeName(folders: seq<Folder>, wanted: string) returns (name: string)
    ensures IsFirstFree(folders, wanted, name)
  {
    ghost var taken := set f | f in folders :: f.name;
    ghost var tried: set<string> := {};
    name := wanted;
    var n := 2;
    while exists f | f in folders :: f.name == name
      invariant n >= 2 && name == Candidate(wanted, n - 1)
      invariant tried == set j | 1 <= j < n - 1 :: Candidate(wanted, j)
      invariant forall j | 1 <= j < n - 1 :: exists f | f in folders :: f.name == Candidate(wanted, j)
      decreases taken - tried
    {
      forall j | 1 <= j < n - 1 ensures Candidate(wanted, j) != name { CandidatesDiffer(wanted, j, n - 1); }
      ghost var untried := taken - tried;
      assert name in untried;
      tried := tried + {name};
      assert taken - tried == untried - {name};
      name := wanted + " (" + Decimal(n) + ")";
      n := n + 1;
    }
  }

  // ----- the folders

  function Roots(phones: seq<Device>, n: nat): (roots: seq<Device>)
    requires n <= |phones|
    ensures forall r | r in roots :: r in phones && IsRoot(phones, r)
    ensures forall i | 0 <= i < n :: IsRoot(phones, phones[i]) ==> phones[i] in roots
  {
    if n == 0 then []
    else Roots(phones, n - 1) + if IsRoot(phones, phones[n - 1]) then [phones[n - 1]] else []
  }

  /** A root's folder: the root first, then what became it, the latest first. */
  ghost predicate FolderOf(phones: seq<Device>, root: Device, ids: seq<DeviceId>) {
    && ids != [] && ids[0] == root.id
    && (forall d | d in phones :: d.id in ids <==> Became(phones, d, root))
    && (forall i, j | 0 <= i < j < |ids| :: ids[i] != ids[j])
    && (forall i | 0 <= i < |ids| :: Listed(phones, ids[i]))
    && (forall i, j | 1 <= i < j < |ids| && Listed(phones, ids[i]) && Listed(phones, ids[j]) ::
          phones[IndexOf(phones, ids[i])].pairedAt >= phones[IndexOf(phones, ids[j])].pairedAt)
  }

  /** Each folder is named for its root as far as the folders before it allow. */
  ghost predicate Named(roots: seq<Device>, folders: seq<Folder>) {
    |folders| == |roots| && forall k | 0 <= k < |folders| :: IsFirstFree(folders[..k], roots[k].name, folders[k].name)
  }

  /** The folders of the roots among the first `n` phones, in order. */
  ghost predicate FoldersOf(phones: seq<Device>, n: nat, folders: seq<Folder>)
    requires n <= |phones|
  {
    && Named(Roots(phones, n), folders)
    && forall k | 0 <= k < |folders| :: FolderOf(phones, Roots(phones, n)[k], folders[k].ids)
  }

  predicate NamesDiffer(folders: seq<Folder>) {
    forall j, k | 0 <= j < k < |folders| :: folders[j].name != folders[k].name
  }

  lemma OneMoreName(roots: seq<Device>, folders: seq<Folder>, root: Device, f: Folder)
    requires Named(roots, folders) && NamesDiffer(folders) && IsFirstFree(folders, root.name, f.name)
    ensures Named(roots + [root], folders + [f]) && NamesDiffer(folders + [f])
  {
    forall j | 0 <= j < |folders| ensures folders[j].name != f.name { assert folders[j] in folders; }
    hide IsFirstFree;
    assert (folders + [f])[..|folders|] == folders;
    assert forall k | 0 <= k < |folders| :: (folders + [f])[..k] == folders[..k];
  }

  lemma OneMoreFolder(phones: seq<Device>, n: nat, folders: seq<Folder>, f: Folder)
    requires n < |phones| && FoldersOf(phones, n, folders) && NamesDiffer(folders)
    requires IsRoot(phones, phones[n]) && FolderOf(phones, phones[n], f.ids)
    requires IsFirstFree(folders, phones[n].name, f.name)
    ensures FoldersOf(phones, n + 1, folders + [f]) && NamesDiffer(folders + [f])
  {
    OneMoreName(Roots(phones, n), folders, phones[n], f);
    assert Roots(phones, n + 1) == Roots(phones, n) + [phones[n]];
    assert |folders| == |Roots(phones, n)|;
    hide Roots, Named, FolderOf, IsRoot, IsFirstFree, NamesDiffer;
  }

  lemma NoMoreFolders(phones: seq<Device>, n: nat, folders: seq<Folder>)
    requires n < |phones| && FoldersOf(phones, n, folders) && !IsRoot(phones, phones[n])
    ensures FoldersOf(phones, n + 1, folders)
  {}

  method OwnerFolders(phones: seq<Device>) returns (folders: seq<Folder>)
    requires DistinctIds(phones)
    ensures FoldersOf(phones, |phones|, folders) && NamesDiffer(folders)
  {
    folders := [];
    assert FoldersOf(phones, 0, folders) && NamesDiffer(folders);
    hide FoldersOf, DistinctIds, NamesDiffer, IsFirstFree;
    for i := 0 to |phones|
      invariant FoldersOf(phones, i, folders) && NamesDiffer(folders)
    {
      var root := phones[i];
      if IsRoot(phones, root) {
        var ids := FolderIds(phones, root);
        var name := FreeName(folders, root.name);
        OneMoreFolder(phones, i, folders, Folder(name, ids));
        folders := folders + [Folder(name, ids)];
      } else {
        NoMoreFolders(phones, i, folders);
      }
    }
  }

  /** The root's identity, then its earlier ones, the latest first. */
  method FolderIds(phones: seq<Device>, root: Device) returns (ids: seq<DeviceId>)
    requires DistinctIds(phones) && root in phones && IsRoot(phones, root)
    ensures FolderOf(phones, root, ids)
  {
    var earlier := EarlierSelves(phones, root);
    ids := [root.id] + Ids(LatestFirst(earlier));
    IsFolder(phones, root, earlier, ids);
  }

  function Ids(s: seq<Device>): (ids: seq<DeviceId>)
    ensures |ids| == |s| && forall i | 0 <= i < |s| :: ids[i] == s[i].id
  {
    seq(|s|, i requires 0 <= i < |s| => s[i].id)
  }

  lemma IsFolder(phones: seq<Device>, root: Device, earlier: seq<Device>, ids: seq<DeviceId>)
    requires DistinctIds(phones) && root in phones
    requires forall d | d in phones :: d in earlier <==> d != root && Became(phones, d, root)
    requires forall d | d in earlier :: d in phones
    requires forall i, j | 0 <= i < j < |earlier| :: earlier[i] != earlier[j]
    requires ids == [root.id] + Ids(LatestFirst(earlier))
    ensures FolderOf(phones, root, ids)
  {
    var sorted := LatestFirst(earlier);
    LatestFirstSorts(earlier);
    SameElements(earlier, sorted);
    hide LatestFirst, DistinctIds, FolderOf, Descending;
    BecameItself(phones, root);
    hide Became;
    RootFirst(root, sorted);
    AsFolder(phones, root, [root] + sorted, ids);
  }

  lemma BecameItself(phones: seq<Device>, root: Device)
    ensures Became(phones, root, root)
  {
    assert Later(phones, root, 0) == Some(root);
  }

  lemma RootFirst(root: Device, sorted: seq<Device>)
    requires root !in sorted && Descending(sorted)
    requires forall i, j | 0 <= i < j < |sorted| :: sorted[i] != sorted[j]
    ensures var all := [root] + sorted;
            && (forall i, j | 0 <= i < j < |all| :: all[i] != all[j])
            && (forall i, j | 1 <= i < j < |all| :: all[i].pairedAt >= all[j].pairedAt)
            && forall d :: d in all <==> d == root || d in sorted
  {
    var all := [root] + sorted;
    forall j | 1 <= j < |all| ensures all[j] == sorted[j - 1] && all[j] in sorted {}
  }

  lemma SameElements(a: seq<Device>, b: seq<Device>)
    requires multiset(a) == multiset(b)
    requires forall i, j | 0 <= i < j < |a| :: a[i] != a[j]
    ensures forall d :: d in a <==> d in b
    ensures forall i, j | 0 <= i < j < |b| :: b[i] != b[j]
  {
    forall d ensures d in a <==> d in b {
      assert d in a <==> d in multiset(a);
      assert d in b <==> d in multiset(b);
    }
    forall i, j | 0 <= i < j < |b| ensures b[i] != b[j] { NoRepeats(a, b, i, j); }
  }

  lemma AsFolder(phones: seq<Device>, root: Device, all: seq<Device>, ids: seq<DeviceId>)
    requires DistinctIds(phones) && all != [] && all[0] == root
    requires forall d | d in phones :: d in all <==> Became(phones, d, root)
    requires forall d | d in all :: d in phones
    requires forall i, j | 0 <= i < j < |all| :: all[i] != all[j]
    requires forall i, j | 1 <= i < j < |all| :: all[i].pairedAt >= all[j].pairedAt
    requires |ids| == |all| && forall i | 0 <= i < |ids| :: ids[i] == all[i].id
    ensures FolderOf(phones, root, ids)
  {
    hide Became, DistinctIds;
    forall d | d in phones ensures d.id in ids <==> d in all {
      if d.id in ids {
        var i :| 0 <= i < |ids| && ids[i] == d.id;
        assert all[i] in all;
        SameId(phones, all[i], d);
      }
      if d in all {
        var i :| 0 <= i < |all| && all[i] == d;
        assert ids[i] == d.id;
      }
    }
    forall i | 0 <= i < |all| ensures Listed(phones, ids[i]) && phones[IndexOf(phones, ids[i])] == all[i] {
      assert all[i] in all;
      SameId(phones, phones[IndexOf(phones, ids[i])], all[i]);
    }
  }

  lemma NoRepeats(a: seq<Device>, b: seq<Device>, i: nat, j: nat)
    requires multiset(a) == multiset(b) && i < j < |b|
    requires forall i, j | 0 <= i < j < |a| :: a[i] != a[j]
    ensures b[i] != b[j]
  {
    if b[i] == b[j] {
      assert b == b[..i] + [b[i]] + b[i + 1..j] + [b[j]] + b[j + 1..];
      assert multiset(b)[b[i]] >= 2;
      OnlyOnce(a, b[i]);
    }
  }

  lemma {:induction false} OnlyOnce(a: seq<Device>, d: Device)
    requires forall i, j | 0 <= i < j < |a| :: a[i] != a[j]
    ensures multiset(a)[d] <= 1
  {
    if a != [] {
      var n := |a| - 1;
      OnlyOnce(a[..n], d);
      assert a == a[..n] + [a[n]];
      assert forall i | 0 <= i < n :: a[..n][i] != a[n];
    }
  }

  // ----- each device in exactly one folder

  /** The chain of replacements from `d` comes to an end. */
  ghost predicate ChainEnds(phones: seq<Device>, d: Device) {
    exists root :: root in phones && IsRoot(phones, root) && Became(phones, d, root)
  }

  /** A device is in one folder exactly, if its chain ends -- and in none if it
      goes round for ever. */
  lemma InExactlyOneFolder(phones: seq<Device>, folders: seq<Folder>, d: Device)
    requires DistinctIds(phones) && d in phones
    requires FoldersOf(phones, |phones|, folders)
    ensures ChainEnds(phones, d) <==> exists k :: 0 <= k < |folders| && d.id in folders[k].ids
    ensures forall j, k | 0 <= j < k < |folders| :: !(d.id in folders[j].ids && d.id in folders[k].ids)
  {
    hide Became, IsRoot;
    ChainHasFolder(phones, folders, d);
    hide FoldersOf, ChainEnds;
    forall j, k | 0 <= j < k < |folders| ensures !(d.id in folders[j].ids && d.id in folders[k].ids) {
      InOne(phones, folders, d, j, k);
    }
  }

  lemma ChainHasFolder(phones: seq<Device>, folders: seq<Folder>, d: Device)
    requires DistinctIds(phones) && d in phones
    requires FoldersOf(phones, |phones|, folders)
    ensures ChainEnds(phones, d) <==> exists k :: 0 <= k < |folders| && d.id in folders[k].ids
  {
    var roots := Roots(phones, |phones|);
    hide Became, IsRoot;
    if ChainEnds(phones, d) {
      var root :| root in phones && IsRoot(phones, root) && Became(phones, d, root);
      var k :| 0 <= k < |roots| && roots[k] == root;
      assert d.id in folders[k].ids;
    }
    if k :| 0 <= k < |folders| && d.id in folders[k].ids {
      assert roots[k] in roots && Became(phones, d, roots[k]);
    }
  }

  lemma InOne(phones: seq<Device>, folders: seq<Folder>, d: Device, j: nat, k: nat)
    requires DistinctIds(phones) && d in phones && FoldersOf(phones, |phones|, folders) && j < k < |folders|
    ensures !(d.id in folders[j].ids && d.id in folders[k].ids)
  {
    var roots := Roots(phones, |phones|);
    hide Became, IsRoot;
    assert roots[j] in roots && roots[k] in roots;
    RootsDiffer(phones, |phones|, j, k);
    if d.id in folders[j].ids && d.id in folders[k].ids {
      OneRoot(phones, d, roots[j], roots[k]);
    }
  }

  lemma OneRoot(phones: seq<Device>, d: Device, a: Device, b: Device)
    requires IsRoot(phones, a) && IsRoot(phones, b) && Became(phones, d, a) && Became(phones, d, b)
    ensures a == b
  {
    var m :| m >= 0 && Later(phones, d, m) == Some(a);
    var n :| n >= 0 && Later(phones, d, n) == Some(b);
    if m < n { PastTheEnd(phones, d, m, n); }
    if n < m { PastTheEnd(phones, d, n, m); }
  }

  lemma {:induction false} PastTheEnd(phones: seq<Device>, d: Device, m: nat, n: nat)
    requires m < n && Later(phones, d, m).Some? && IsRoot(phones, Later(phones, d, m).value)
    ensures Later(phones, d, n) == None
  {
    if n > m + 1 { PastTheEnd(phones, d, m, n - 1); }
  }

  lemma {:induction false} RootsDiffer(phones: seq<Device>, n: nat, j: nat, k: nat)
    requires DistinctIds(phones) && n <= |phones| && j < k < |Roots(phones, n)|
    ensures Roots(phones, n)[j] != Roots(phones, n)[k]
  {
    hide IsRoot;
    if k < |Roots(phones, n - 1)| {
      RootsDiffer(phones, n - 1, j, k);
    } else {
      RootsBefore(phones, n - 1, j);
    }
  }

  lemma {:induction false} RootsBefore(phones: seq<Device>, n: nat, j: nat)
    requires n <= |phones| && j < |Roots(phones, n)|
    ensures exists i | 0 <= i < n :: phones[i] == Roots(phones, n)[j]
  {
    if j < |Roots(phones, n - 1)| { RootsBefore(phones, n - 1, j); }
  }

  /** Each device was replaced by one paired strictly later: what the window asks
      for before it takes the person's word that two devices are the same. */
  predicate PairedLater(phones: seq<Device>) {
    forall d, e | d in phones && e in phones && d.replacedBy == Some(e.id) :: d.pairedAt < e.pairedAt
  }

  function LaterPaired(phones: seq<Device>, d: Device): set<Device> {
    set e | e in phones && e.pairedAt > d.pairedAt
  }

  /** Then every chain ends, so every listed device is in exactly one folder. */
  lemma {:induction false} EveryChainEnds(phones: seq<Device>, d: Device)
    requires DistinctIds(phones) && PairedLater(phones) && d in phones
    ensures ChainEnds(phones, d)
    decreases LaterPaired(phones, d)
  {
    if IsRoot(phones, d) {
      assert Later(phones, d, 0) == Some(d);
    } else {
      var e := phones[IndexOf(phones, d.replacedBy.value)];
      assert e in LaterPaired(phones, d) && e !in LaterPaired(phones, e);
      EveryChainEnds(phones, e);
      var root :| root in phones && IsRoot(phones, root) && Became(phones, e, root);
      BecameRoot(phones, d, e, root);
    }
  }

  /** Without that, a device can be in no folder at all. */
  lemma TwoThatReplaceEachOther(a: Device, b: Device)
    requires a.id != b.id && a.replacedBy == Some(b.id) && b.replacedBy == Some(a.id)
    ensures DistinctIds([a, b]) && !ChainEnds([a, b], a)
  {
    var phones := [a, b];
    assert phones[0] == a && phones[1] == b && Listed(phones, a.id) && Listed(phones, b.id);
  }
}
