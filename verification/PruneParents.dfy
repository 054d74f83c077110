/** Clearing away the directories a deletion leaves empty. */
module PruneParents {
  /** A place in the folder, by its components; none is the folder itself. */
  type Place = seq<string>

  /** Something lies directly in `dir`. */
  predicate Holds(places: set<Place>, dir: Place) {
    exists x | x in places :: |x| == |dir| + 1 && x[..|dir|] == dir
  }

  /** The ancestors of `place` from the `j`th down to its parent. */
  function Ancestors(place: Place, j: nat): set<Place> {
    set k | j <= k < |place| :: place[..k]
  }

  /** The directory would go if asked to. */
  predicate WouldGo(dirs: set<Place>, files: set<Place>, stuck: set<Place>, dir: Place) {
    dir in dirs && dir !in stuck && !Holds(dirs + files, dir)
  }

  /** Ancestors from the `j`th down have gone, each holding nothing but the next, and the
      one above them would not go. */
  ghost predicate PrunedTo(before: set<Place>, after: set<Place>, files: set<Place>, stuck: set<Place>,
      removed: Place, j: nat)
  {
    && 1 <= j <= |removed|
    && after == before - Ancestors(removed, j)
    && (forall k | j <= k < |removed| :: OnlyNext(before + files, removed, k))
    && (j == 1 || !WouldGo(after, files, stuck, removed[..j - 1]))
  }

  /** Nothing lies directly in the `k`th ancestor but the next one down. */
  ghost predicate OnlyNext(places: set<Place>, removed: Place, k: nat)
    requires k < |removed|
  {
    forall x | x in places && |x| == k + 1 && x[..k] == removed[..k] :: x == removed[..k + 1]
  }

  class Tree {
    var dirs: set<Place>
    const files: set<Place>
    const stuck: set<Place>   // that the filesystem will not remove

    constructor (dirs: set<Place>, files: set<Place>, stuck: set<Place>)
      ensures this.dirs == dirs && this.files == files && this.stuck == stuck
    {
      this.dirs, this.files, this.stuck := dirs, files, stuck;
    }

    method RemoveDir(dir: Place) returns (ok: bool)
      modifies this
      ensures ok <==> WouldGo(old(dirs), files, stuck, dir)
      ensures dirs == if ok then old(dirs) - {dir} else old(dirs)
    {
      ok := WouldGo(dirs, files, stuck, dir);
      if ok { dirs := dirs - {dir}; }
    }

    /** Remove the directories above a removed file that it was the last thing in, up to
        but never the folder itself. */
    method PruneEmptyParents(removed: Place)
      requires removed != [] && removed !in files
      modifies this
      ensures exists j :: PrunedTo(old(dirs), dirs, files, stuck, removed, j)
    {
      var n := |removed| - 1;
      assert Ancestors(removed, |removed|) == {};
      while n > 0
        invariant 0 <= n < |removed|
        invariant dirs == old(dirs) - Ancestors(removed, n + 1)
        invariant forall k | n < k < |removed| :: OnlyNext(old(dirs) + files, removed, k)
      {
        var dir := removed[..n];
        ghost var was := dirs;
        var ok := RemoveDir(dir);
        if !ok {
          assert PrunedTo(old(dirs), dirs, files, stuck, removed, n + 1);
          return;
        }
        n := n - 1;
      }
      assert PrunedTo(old(dirs), dirs, files, stuck, removed, 1);
    }
  }

  /** The folder itself stays, and no directory goes that anything but the removed file
      and other directories that went lay beneath. */
  lemma {:induction false} NothingElseLosesItsPlace(
    before: set<Place>, after: set<Place>, files: set<Place>, stuck: set<Place>, removed: Place, j: nat, x: Place,
        m: nat)
    requires PrunedTo(before, after, files, stuck, removed, j) && removed !in before + files
    requires x in before + files && x !in Ancestors(removed, j) && m <= |x|
    requires forall k | 0 < k < |x| :: x[..k] in before
    ensures x[..m] in before ==> x[..m] in after
    ensures x[..m] !in Ancestors(removed, j)
    ensures [] in before ==> [] in after
    decreases |x| - m
  {
    if m == |x| {
      assert x[..m] == x;
    } else {
      NothingElseLosesItsPlace(before, after, files, stuck, removed, j, x, m + 1);
      assert m + 1 == |x| ==> x[..m + 1] == x;
      StillHolds(before, after, files, stuck, removed, j, x[..m + 1]);
      assert x[..m + 1][..m] == x[..m];
    }
  }

  lemma StillHolds(
    before: set<Place>, after: set<Place>, files: set<Place>, stuck: set<Place>, removed: Place, j: nat, y: Place)
    requires PrunedTo(before, after, files, stuck, removed, j) && y != [] && y != removed
    requires y in before + files && y !in Ancestors(removed, j)
    ensures y[..|y| - 1] !in Ancestors(removed, j)
  {
    forall k | j <= k < |removed| ensures y[..|y| - 1] != removed[..k] {
      assert OnlyNext(before + files, removed, k);
      assert k + 1 < |removed| ==> removed[..k + 1] in Ancestors(removed, j);
      assert k + 1 == |removed| ==> removed[..k + 1] == removed;
    }
  }
}
