/** What devices tell each other about files: versions, the vectors that order
    them, and the actions a plan is made of. */
module Versions {
  import opened Wrappers

  /** A device's identity, as its hexadecimal digits. */
  type DeviceId = string

  /** A file's bytes, by their BLAKE3 hash. Different bytes are taken to have
      different hashes throughout, so a hash stands for the bytes. */
  type Hash = nat

  // ----- version vectors

  /** A count for each device; a device without one counts nought. */
  type Vector = map<DeviceId, nat>

  datatype Causality = Equal | Before | After | Concurrent

  function Get(v: Vector, d: DeviceId): nat {
    if d in v then v[d] else 0
  }

  /** `a` knows of nothing `b` does not. */
  ghost predicate Leq(a: Vector, b: Vector) {
    forall d :: Get(a, d) <= Get(b, d)
  }

  method Compare(a: Vector, b: Vector) returns (c: Causality)
    ensures c == Compared(a, b)
  {
    var ahead, behind := false, false;
    var left := a.Keys + b.Keys;
    while left != {}
      invariant left <= a.Keys + b.Keys
      invariant ahead <==> exists d :: d in a.Keys + b.Keys - left && Get(a, d) > Get(b, d)
      invariant behind <==> exists d :: d in a.Keys + b.Keys - left && Get(b, d) > Get(a, d)
    {
      var d :| d in left;
      ghost var seen := a.Keys + b.Keys - left;
      left := left - {d};
      assert a.Keys + b.Keys - left == seen + {d};
      if Get(a, d) > Get(b, d) { ahead := true; }
      else if Get(b, d) > Get(a, d) { behind := true; }
      if ahead && behind {
        return Concurrent;
      }
    }
    return match (ahead, behind)
      case (false, false) => Equal
      case (true, false) => After
      case (false, true) => Before
      case (true, true) => Concurrent;
  }

  /** One version has seen the other, or neither has. */
  ghost function Compared(a: Vector, b: Vector): Causality {
    if Leq(a, b) then (if Leq(b, a) then Equal else Before)
    else if Leq(b, a) then After
    else Concurrent
  }

  /** Everything either knows. */
  function Merged(a: Vector, b: Vector): Vector {
    map d | d in a.Keys + b.Keys :: if Get(a, d) >= Get(b, d) then Get(a, d) else Get(b, d)
  }

  /** The merge is the least vector that has seen both, from either side. */
  lemma MergedIsJoin(a: Vector, b: Vector)
    ensures Leq(a, Merged(a, b)) && Leq(b, Merged(a, b))
    ensures forall c :: Leq(a, c) && Leq(b, c) ==> Leq(Merged(a, b), c)
    ensures Merged(a, b) == Merged(b, a)
  {
    assert a.Keys + b.Keys == b.Keys + a.Keys;
    forall c | Leq(a, c) && Leq(b, c) ensures Leq(Merged(a, b), c) {
      forall d ensures Get(Merged(a, b), d) <= Get(c, d) {
        assert Get(a, d) <= Get(c, d) && Get(b, d) <= Get(c, d);
      }
    }
  }

  /** A merge of two that had not seen each other is later than both: why a
      settled conflict stays settled. */
  lemma MergedIsAfter(a: Vector, b: Vector)
    requires Compared(a, b) == Concurrent
    ensures Compared(Merged(a, b), a) == After && Compared(Merged(a, b), b) == After
  {
    MergedIsJoin(a, b);
  }

  // ----- versions

  datatype Content = File(hash: Hash, size: nat) | Deleted

  /** Where the receiving device files a version. */
  datatype Area =
    | Shared
    | Sent   // into the receiver's vault, by the device it came from
    | Held   // the receiver's own file, kept for it by that device
    | Hold   // that device's own file, for the receiver to keep

  datatype FileVersion = FileVersion(path: string, content: Content, vector: Vector, author: DeviceId, at: int,
      area: Area)

  datatype Action =
    | Adopt(remote: FileVersion)
    | Offer(local: FileVersion)
    | Conflict(keepsPath: FileVersion, renamed: FileVersion)
    | Resurrect(survivor: FileVersion)
    | Merge(resolved: FileVersion)
    | HoldFor(owner: DeviceId, kept: FileVersion)
    | Restored(restored: FileVersion)
  {
    function Path(): string {
      match this
      case Adopt(v) => v.path
      case Offer(v) => v.path
      case Conflict(v, _) => v.path
      case Resurrect(v) => v.path
      case Merge(v) => v.path
      case HoldFor(_, v) => v.path
      case Restored(v) => v.path
    }
  }
}
