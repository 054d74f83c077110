/** Keeping disk use under a limit: what is held for others goes first, then Recently
    deleted, and only then local copies of files another device has. */
module StorageCap {
  import opened Wrappers

  /** Something on disk: the size the index counts it by, the length it really has,
      whether it is still there, whether it may be dropped, and whether the disk refuses
      to let it go. */
  datatype Item = Item(size: nat, length: nat, here: bool, may: bool, stuck: bool)

  datatype CapStats = CapStats(
    usedBefore: nat, usedAfter: nat, dropped: nat, freed: nat, refused: nat, released: nat, emptied: nat,
        stillOver: nat)

  const NOTHING := CapStats(0, 0, 0, 0, 0, 0, 0, 0)

  /** Payloads kept only for other devices that have them; Recently deleted, oldest first;
      local copies, coldest first, which may go if a safe copy is elsewhere. */
  datatype Disk = Disk(held: seq<Item>, trash: seq<Item>, files: seq<Item>)

  function Minus(a: nat, b: nat): nat { if a <= b then 0 else a - b }

  function Max(a: nat, b: nat): nat { if a < b then b else a }

  /** What the index says the first `n` items cost. */
  function Cost(items: seq<Item>, n: nat): nat
    requires n <= |items|
  {
    if n == 0 then 0 else Cost(items, n - 1) + if items[n - 1].here then items[n - 1].size else 0
  }

  function Total(items: seq<Item>): nat { Cost(items, |items|) }

  function Usage(d: Disk): nat { Total(d.files) + Total(d.held) + Total(d.trash) }

  predicate MayGo(x: Item) { x.here && x.may && !x.stuck }

  predicate WillNotGo(x: Item) { x.here && x.may && x.stuck }

  /** Something in Recently deleted that costs anything here. */
  predicate CostsAnything(x: Item) { x.here && x.size > 0 }

  // ----- one stage

  /** How far a stage has got: what is left; what the items it dropped were counted as,
      what they really were, and the greater of the two for each; how many went and how
      many would not; and whether it broke off. */
  datatype Pass = Pass(items: seq<Item>, sizes: nat, lengths: nat, credit: nat, count: nat, refused: nat, broke: bool)

  function Begin(items: seq<Item>): Pass { Pass(items, 0, 0, 0, 0, 0, false) }

  function Drop(p: Pass, i: nat): Pass
    requires i < |p.items|
  {
    var x := p.items[i];
    p.(items := p.items[i := x.(here := false)], sizes := p.sizes + x.size, lengths := p.lengths + x.length,
       credit := p.credit + Max(x.length, x.size), count := p.count + 1)
  }

  /** The first stage: payloads only others need, until one will not go. */
  function Releasing(held: seq<Item>, n: nat): (p: Pass)
    requires n <= |held|
    ensures |p.items| == |held| && forall k | n <= k < |held| :: p.items[k] == held[k]
  {
    if n == 0 then Begin(held)
    else
      var p, x := Releasing(held, n - 1), held[n - 1];
      if p.broke then p
      else if WillNotGo(x) then p.(broke := true)
      else if MayGo(x) then Drop(p, n - 1) else p
  }

  /** Drop the oldest of Recently deleted, until `bytes` are freed or one will not go. */
  function Emptying(trash: seq<Item>, bytes: nat, n: nat): (p: Pass)
    requires n <= |trash|
    ensures |p.items| == |trash| && forall k | n <= k < |trash| :: p.items[k] == trash[k]
  {
    if n == 0 then Begin(trash)
    else
      var p, x := Emptying(trash, bytes, n - 1), trash[n - 1];
      if p.broke || p.sizes >= bytes || !CostsAnything(x) then p
      else if x.stuck then p.(broke := true) else Drop(p, n - 1)
  }

  /** Drop the coldest local copies, until what is owed is made up. One that will not go
      is passed over. */
  function Evicting(files: seq<Item>, owing: nat, n: nat): (p: Pass)
    requires n <= |files|
    ensures |p.items| == |files| && forall k | n <= k < |files| :: p.items[k] == files[k]
  {
    if n == 0 then Begin(files)
    else
      var p, x := Evicting(files, owing, n - 1), files[n - 1];
      if p.credit >= owing then p
      else if WillNotGo(x) then p.(refused := p.refused + 1)
      else if MayGo(x) then Drop(p, n - 1) else p
  }

  // ----- the three of them

  function Release(d: Disk): Pass { Releasing(d.held, |d.held|) }

  /** What releasing brings to the account: nothing, if it broke off. */
  function Released(d: Disk): nat { if Release(d).broke then 0 else Release(d).lengths }

  function Empty(d: Disk, over: nat): Pass {
    if over > Released(d) then Emptying(d.trash, over - Released(d), |d.trash|) else Begin(d.trash)
  }

  function Emptied(d: Disk, over: nat): nat { if Empty(d, over).broke then 0 else Empty(d, over).sizes }

  /** What local copies have to make up. */
  function Owing(d: Disk, over: nat): nat { Minus(over, Released(d) + Emptied(d, over)) }

  function Evict(d: Disk, over: nat): Pass { Evicting(d.files, Owing(d, over), |d.files|) }

  /** The disk after being brought under `limit`, and what is reported. Nought is none. */
  function Enforced(d: Disk, limit: nat): (Disk, CapStats) {
    if limit == 0 then (d, NOTHING)
    else if Usage(d) <= limit then (d, NOTHING.(usedBefore := Usage(d), usedAfter := Usage(d)))
    else
      var over := Usage(d) - limit;
      var after := Disk(Release(d).items, Empty(d, over).items, Evict(d, over).items);
      (after,
       CapStats(Usage(d), Usage(after), Evict(d, over).count, Released(d) + Emptied(d, over) + Evict(d, over).lengths,
                Evict(d, over).refused, if Released(d) == 0 then 0 else Release(d).count, Emptied(d, over),
                Minus(Usage(after), limit)))
  }

  class Device {
    var held: seq<Item>
    var trash: seq<Item>
    var files: seq<Item>

    constructor (d: Disk)
      ensures Now() == d
    {
      held, trash, files := d.held, d.trash, d.files;
    }

    function Now(): Disk reads this { Disk(held, trash, files) }

    /** Let go of what only others need, counting chunks and their bytes. */
    method ReleaseHeld() returns (r: Result<(nat, nat), ()>)
      modifies this`held
      ensures var p := Release(old(Now()));
              held == p.items && r == if p.broke then Err(()) else Ok((p.count, p.lengths))
    {
      var removed, reclaimed: nat := 0, 0;
      for i := 0 to |held|
        invariant |held| == |old(held)|
        invariant var p := Releasing(old(held), i);
          held == p.items && removed == p.count && reclaimed == p.lengths && !p.broke
      {
        if held[i].here && held[i].may {
          if held[i].stuck {
            Broken(old(held), i + 1, |held|);
            return Err(());
          }
          held := held[i := held[i].(here := false)];
          removed, reclaimed := removed + 1, reclaimed + held[i].length;
        }
      }
      return Ok((removed, reclaimed));
    }

    /** The second stage as a loop, ending early when it has enough. */
    method EmptyTrashBy(bytes: nat) returns (r: Result<nat, ()>)
      modifies this`trash
      ensures var p := Emptying(old(trash), bytes, |old(trash)|);
              trash == p.items && r == if p.broke then Err(()) else Ok(p.sizes)
    {
      var freed := 0;
      for i := 0 to |trash|
        invariant |trash| == |old(trash)|
        invariant var p := Emptying(old(trash), bytes, i); trash == p.items && freed == p.sizes && !p.broke
      {
        if freed >= bytes {
          EnoughEmptied(old(trash), bytes, i, |trash|);
          return Ok(freed);
        }
        if trash[i].here && trash[i].size > 0 {
          if trash[i].stuck {
            EnoughEmptied(old(trash), bytes, i + 1, |trash|);
            return Err(());
          }
          trash := trash[i := trash[i].(here := false)];
          freed := freed + trash[i].size;
        }
      }
      return Ok(freed);
    }

    /** Drop one local copy, if the disk lets it go. */
    method EvictOne(i: nat) returns (r: Result<nat, ()>)
      requires i < |files| && files[i].here && files[i].may
      modifies this`files
      ensures r == if old(files)[i].stuck then Err(()) else Ok(old(files)[i].length)
      ensures files == if r.Ok? then old(files)[i := old(files)[i].(here := false)] else old(files)
    {
      if files[i].stuck {
        return Err(());
      }
      files := files[i := files[i].(here := false)];
      return Ok(files[i].length);
    }

    /** Drop local copies, coldest first, until what is owed is made up. */
    method EvictUntil(owing: nat) returns (dropped: nat, refused: nat, freed: nat)
      modifies this`files
      ensures var p := Evicting(old(files), owing, |old(files)|);
              files == p.items && dropped == p.count && refused == p.refused && freed == p.lengths
    {
      var evictable, over := files, owing;
      dropped, refused, freed := 0, 0, 0;
      var i := 0;
      while i < |evictable| && over > 0
        invariant i <= |files| == |evictable| && evictable == old(files)
        invariant var p := Evicting(evictable, owing, i);
                  && files == p.items && dropped == p.count && refused == p.refused && freed == p.lengths
                  && over == Minus(owing, p.credit)
      {
        if evictable[i].here && evictable[i].may {
          var gone := EvictOne(i);
          match gone {
            case Ok(bytes) =>
              dropped, freed := dropped + 1, freed + bytes;
              over := Minus(over, Max(bytes, evictable[i].size));
            case Err(_) =>
              refused := refused + 1;
          }
        }
        i := i + 1;
      }
      EnoughEvicted(evictable, owing, i, |files|);
    }

    /** Bring disk use under `limit`. */
    method EnforceLimit(limit: nat) returns (stats: CapStats)
      modifies this
      ensures (Now(), stats) == Enforced(old(Now()), limit)
    {
      stats := NOTHING;
      if limit == 0 {
        return;
      }
      ghost var d := Now();
      hide Releasing, Emptying, Evicting, Usage;
      var used := Usage(Now());
      stats := stats.(usedBefore := used, usedAfter := used);
      if used <= limit {
        return;
      }
      var over, freed := used - limit, 0;
      var released := ReleaseHeld();
      match released {
        case Ok((chunks, bytes)) =>
          if bytes > 0 {
            stats := stats.(released := chunks);
            freed := bytes;
            over := Minus(over, bytes);
          }
        case Err(_) =>
      }
      assert freed == Released(d) && over == Minus(used - limit, Released(d));
      assert stats.released == if Released(d) == 0 then 0 else Release(d).count;
      hide Release, Released;
      if over > 0 {
        var emptied := EmptyTrashBy(over);
        match emptied {
          case Ok(bytes) =>
            stats := stats.(emptied := bytes);
            freed := freed + bytes;
            over := Minus(over, bytes);
          case Err(_) =>
        }
      }
      assert trash == Empty(d, used - limit).items && stats.emptied == Emptied(d, used - limit);
      assert freed == Released(d) + stats.emptied && over == Owing(d, used - limit);
      hide Empty, Emptied;
      var dropped, refused, gone := EvictUntil(over);
      stats := stats.(dropped := dropped, refused := refused, freed := freed + gone);
      used := Usage(Now());
      stats := stats.(usedAfter := used, stillOver := Minus(used, limit));
    }
  }

  lemma {:induction false} Broken(held: seq<Item>, i: nat, n: nat)
    requires i <= n <= |held| && Releasing(held, i).broke
    ensures Releasing(held, n) == Releasing(held, i)
  {
    if i < n { Broken(held, i, n - 1); }
  }

  lemma {:induction false} EnoughEmptied(trash: seq<Item>, bytes: nat, i: nat, n: nat)
    requires i <= n <= |trash| && (Emptying(trash, bytes, i).broke || Emptying(trash, bytes, i).sizes >= bytes)
    ensures Emptying(trash, bytes, n) == Emptying(trash, bytes, i)
  {
    if i < n { EnoughEmptied(trash, bytes, i, n - 1); }
  }

  lemma {:induction false} EnoughEvicted(files: seq<Item>, owing: nat, i: nat, n: nat)
    requires i <= n <= |files| && (i == n || Evicting(files, owing, i).credit >= owing)
    ensures Evicting(files, owing, n) == Evicting(files, owing, i)
  {
    if i < n { EnoughEvicted(files, owing, i, n - 1); }
  }

  // ----- which items go

  predicate Gone(before: Item, after: Item) { before.here && after == before.(here := false) }

  /** What the items that may go, among the first `n`, would bring to the account. */
  function CreditBefore(files: seq<Item>, n: nat): nat
    requires n <= |files|
  {
    if n == 0 then 0
    else CreditBefore(files, n - 1) + if MayGo(files[n - 1]) then Max(files[n - 1].length, files[n - 1].size) else 0
  }

  /** What the first `n` of Recently deleted are counted as. */
  function SizesBefore(trash: seq<Item>, n: nat): nat
    requires n <= |trash|
  {
    if n == 0 then 0 else SizesBefore(trash, n - 1) + if CostsAnything(trash[n - 1]) then trash[n - 1].size else 0
  }

  /** Something held may go and nothing before it refuses to. */
  predicate HeldGoes(held: seq<Item>, i: nat) {
    i < |held| && MayGo(held[i]) && forall k | 0 <= k < i :: !WillNotGo(held[k])
  }

  /** Something in the trash costs anything, those before it are not enough, and none of
      them, nor it, refuses to go. */
  predicate TrashGoes(trash: seq<Item>, bytes: nat, i: nat) {
    i < |trash| && CostsAnything(trash[i]) && SizesBefore(trash, i) < bytes
    && forall k | 0 <= k <= i :: CostsAnything(trash[k]) ==> !trash[k].stuck
  }

  /** Something in the trash costs anything, will not go, and is reached before enough has. */
  predicate BreaksOff(trash: seq<Item>, bytes: nat, i: nat) {
    i < |trash| && CostsAnything(trash[i]) && trash[i].stuck && SizesBefore(trash, i) < bytes
  }

  /** A local copy may go, and those before it that may are not enough. */
  predicate CopyGoes(files: seq<Item>, owing: nat, i: nat) {
    i < |files| && MayGo(files[i]) && CreditBefore(files, i) < owing
  }

  lemma {:induction false} ReleasedAre(held: seq<Item>, n: nat)
    requires n <= |held|
    ensures var p := Releasing(held, n);
      && (forall i | 0 <= i < n :: p.items[i] == if HeldGoes(held, i) then held[i].(here := false) else held[i])
      && (p.broke <==> exists k | 0 <= k < n :: WillNotGo(held[k]))
  {
    if n > 0 { ReleasedAre(held, n - 1); }
  }

  /** Emptying has broken off exactly if something that will not go was reached before enough
      had gone. */
  lemma {:induction false} EmptyingStops(trash: seq<Item>, bytes: nat, n: nat)
    requires n <= |trash|
    ensures var p := Emptying(trash, bytes, n);
      && (p.broke <==> exists k | 0 <= k < n :: BreaksOff(trash, bytes, k))
      && (!p.broke && p.sizes < bytes ==> p.sizes == SizesBefore(trash, n))
      && (!p.broke && p.sizes >= bytes ==> SizesBefore(trash, n) >= bytes)
  {
    if n > 0 {
      EmptyingStops(trash, bytes, n - 1);
      SizesGrow(trash, n - 1);
      assert BreaksOff(trash, bytes, n - 1) ==> Emptying(trash, bytes, n).broke;
    }
  }

  lemma TrashGoesExactly(trash: seq<Item>, bytes: nat, i: nat)
    requires i < |trash|
    ensures var p := Emptying(trash, bytes, i);
      TrashGoes(trash, bytes, i) <==> !p.broke && p.sizes < bytes && CostsAnything(trash[i]) && !trash[i].stuck
  {
    EmptyingStops(trash, bytes, i);
    SizesGrow(trash, i);
    hide SizesBefore, Emptying;
    if k :| 0 <= k < i && CostsAnything(trash[k]) && trash[k].stuck && SizesBefore(trash, i) < bytes {
      assert BreaksOff(trash, bytes, k);
    }
  }

  lemma {:induction false} EmptiedAre(trash: seq<Item>, bytes: nat, n: nat)
    requires n <= |trash|
    ensures forall i | 0 <= i < n ::
      Emptying(trash, bytes, n).items[i] == if TrashGoes(trash, bytes, i) then trash[i].(here := false) else trash[i]
  {
    if n > 0 {
      EmptiedAre(trash, bytes, n - 1);
      TrashGoesExactly(trash, bytes, n - 1);
      hide TrashGoes;
    }
  }

  lemma {:induction false} SizesGrow(trash: seq<Item>, n: nat)
    requires n <= |trash|
    ensures forall k | 0 <= k <= n :: SizesBefore(trash, k) <= SizesBefore(trash, n)
  {
    if n > 0 { SizesGrow(trash, n - 1); }
  }

  /** The copies that go are exactly those that may, coldest first, while those before them
      are not enough. */
  lemma {:induction false} EvictedAre(files: seq<Item>, owing: nat, n: nat)
    requires n <= |files|
    ensures var p := Evicting(files, owing, n);
      && (forall i | 0 <= i < n ::
           p.items[i] == if CopyGoes(files, owing, i) then files[i].(here := false) else files[i])
      && (p.credit < owing ==> p.credit == CreditBefore(files, n))
      && (p.credit >= owing ==> CreditBefore(files, n) >= owing)
  {
    if n > 0 { EvictedAre(files, owing, n - 1); }
  }

  // ----- what it comes to

  lemma {:induction false} CostAfter(items: seq<Item>, i: nat, n: nat)
    requires i < |items| && n <= |items| && items[i].here
    ensures Cost(items[i := items[i].(here := false)], n) + (if i < n then items[i].size else 0) == Cost(items, n)
  {
    if n > 0 { CostAfter(items, i, n - 1); }
  }

  /** What went is what use fell by. */
  lemma {:induction false} UseFalls(before: seq<Item>, bytes: nat, n: nat)
    requires n <= |before|
    ensures Total(Releasing(before, n).items) + Releasing(before, n).sizes == Total(before)
    ensures Total(Emptying(before, bytes, n).items) + Emptying(before, bytes, n).sizes == Total(before)
    ensures Total(Evicting(before, bytes, n).items) + Evicting(before, bytes, n).sizes == Total(before)
  {
    if n > 0 {
      UseFalls(before, bytes, n - 1);
      if before[n - 1].here {
        CostAfter(Releasing(before, n - 1).items, n - 1, |before|);
        CostAfter(Emptying(before, bytes, n - 1).items, n - 1, |before|);
        CostAfter(Evicting(before, bytes, n - 1).items, n - 1, |before|);
      }
    }
  }

  /** How much more the items that go, among the first `n`, are counted as than they are. */
  function Overcounted(items: seq<Item>, goes: nat -> bool, n: nat): int
    requires n <= |items|
  {
    if n == 0 then 0
    else Overcounted(items, goes, n - 1) + if goes(n - 1) then items[n - 1].size - items[n - 1].length else 0
  }

  lemma {:induction false} ReleasedOvercount(held: seq<Item>, n: nat)
    requires n <= |held|
    ensures var p := Releasing(held, n); p.sizes - p.lengths == Overcounted(held, (i: nat) => HeldGoes(held, i), n)
  {
    if n > 0 {
      ReleasedOvercount(held, n - 1);
      ReleasedAre(held, n - 1);
      assert HeldGoes(held, n - 1) <==> MayGo(held[n - 1]) && !Releasing(held, n - 1).broke;
      hide HeldGoes;
    }
  }

  lemma {:induction false} EvictedOvercount(files: seq<Item>, owing: nat, n: nat)
    requires n <= |files|
    ensures var p := Evicting(files, owing, n);
      p.sizes - p.lengths == Overcounted(files, (i: nat) => CopyGoes(files, owing, i), n)
  {
    if n > 0 {
      EvictedOvercount(files, owing, n - 1);
      EvictedAre(files, owing, n - 1);
    }
  }

  /** What a stage that broke off had dropped by then, and does not report. */
  function Unreported(p: Pass): nat { if p.broke then p.sizes else 0 }

  /** By how much use falls more than is reported freed, told from the disk as it was: what
      the held items and local copies that go are counted as above what they are -- all
      they are counted as, for a stage that breaks off. */
  function Difference(d: Disk, over: nat): int {
    var files := Overcounted(d.files, (i: nat) => CopyGoes(d.files, Owing(d, over), i), |d.files|);
    files + Unreported(Empty(d, over))
    + if Release(d).broke then Unreported(Release(d))
        else Overcounted(d.held, (i: nat) => HeldGoes(d.held, i), |d.held|)
  }

  /** Use falls by exactly what is reported freed when nothing that goes is counted as other
      than it is, taken all together, and no stage breaks off part-way: it falls by that
      much and the difference, which can be told before the call. */
  lemma FallIsWhatWasFreed(d: Disk, limit: nat)
    requires 0 < limit < Usage(d)
    ensures var (after, stats) := Enforced(d, limit);
      && Usage(d) - Usage(after) == stats.freed + Difference(d, Usage(d) - limit)
      && (Usage(d) == Usage(after) + stats.freed <==> Difference(d, Usage(d) - limit) == 0)
  {
    var over := Usage(d) - limit;
    UseFalls(d.held, 0, |d.held|);
    UseFalls(d.trash, Minus(over, Released(d)), |d.trash|);
    UseFalls(d.files, Owing(d, over), |d.files|);
    ReleasedOvercount(d.held, |d.held|);
    EvictedOvercount(d.files, Owing(d, over), |d.files|);
    hide Releasing, Emptying, Evicting, Cost, Overcounted, HeldGoes, CopyGoes, Owing;
  }

  /** Live copies go only when releasing and emptying were not enough, and then the coldest
      that may, while the ones before are not enough either. */
  lemma LiveCopiesGoLast(d: Disk, limit: nat, i: nat)
    requires 0 < limit < Usage(d) && i < |d.files|
    ensures var over, after := Usage(d) - limit, Enforced(d, limit).0;
      && |after.files| == |d.files|
      && (after.files[i] != d.files[i] <==> CopyGoes(d.files, Owing(d, over), i))
      && (after.files[i] != d.files[i] ==> Released(d) + Emptied(d, over) < over && Gone(d.files[i], after.files[i]))
  {
    EvictedAre(d.files, Owing(d, Usage(d) - limit), |d.files|);
    hide Releasing, Emptying, Evicting, Cost, CreditBefore;
  }

  /** Recently deleted is emptied, oldest first, only when releasing was not enough, and no
      further than it takes. */
  lemma TrashGoesSecond(d: Disk, limit: nat, i: nat)
    requires 0 < limit < Usage(d) && i < |d.trash|
    ensures var over, after := Usage(d) - limit, Enforced(d, limit).0;
      && |after.trash| == |d.trash|
      && (after.trash[i] != d.trash[i] <==> Released(d) < over && TrashGoes(d.trash, over - Released(d), i))
  {
    var over := Usage(d) - limit;
    if over > Released(d) { EmptiedAre(d.trash, over - Released(d), |d.trash|); }
    hide Releasing, Emptying, Evicting, Cost, SizesBefore;
  }

  /** A local copy that may go is left exactly when those before it are credited with all
      that is owed: being still over the limit is no reason to go on. */
  lemma CopiesAreLeftExactly(d: Disk, limit: nat)
    requires 0 < limit < Usage(d)
    ensures var (after, stats) := Enforced(d, limit);
      && |after.files| == |d.files|
      && ((exists i | 0 <= i < |d.files| :: MayGo(d.files[i]) && after.files[i].here) <==>
          exists i | 0 <= i < |d.files| :: MayGo(d.files[i]) && CreditBefore(d.files, i) >= Owing(d, Usage(d) - limit))
  {
    var over, after := Usage(d) - limit, Enforced(d, limit).0;
    EvictedAre(d.files, Owing(d, over), |d.files|);
    assert after.files == Evicting(d.files, Owing(d, over), |d.files|).items;
    hide Enforced, Owing, Usage, Evicting, CreditBefore;
    forall i | 0 <= i < |d.files|
      ensures MayGo(d.files[i]) && after.files[i].here <==>
        MayGo(d.files[i]) && CreditBefore(d.files, i) >= Owing(d, over)
    {}
  }

  /** If nothing on disk is longer than the index says, and the trash is emptied without a
      break, being still over the limit means that every copy that may go went. */
  lemma StillOverMeansAllWent(d: Disk, limit: nat, i: nat)
    requires 0 < limit < Usage(d) && Enforced(d, limit).1.stillOver > 0 && !Empty(d, Usage(d) - limit).broke
    requires forall k | 0 <= k < |d.held| :: d.held[k].length <= d.held[k].size
    requires forall k | 0 <= k < |d.files| :: d.files[k].length <= d.files[k].size
    requires i < |d.files| && MayGo(d.files[i])
    ensures Gone(d.files[i], Enforced(d, limit).0.files[i])
  {
    var over := Usage(d) - limit;
    var owing := Owing(d, over);
    UseFalls(d.held, 0, |d.held|);
    UseFalls(d.trash, Minus(over, Released(d)), |d.trash|);
    UseFalls(d.files, owing, |d.files|);
    ReleasedShort(d.held, |d.held|);
    CreditIsSize(d.files, owing, |d.files|);
    EvictedAre(d.files, owing, |d.files|);
    CreditGrows(d.files, i, |d.files|);
    hide Releasing, Emptying, Evicting, Cost, CreditBefore;
  }

  lemma {:induction false} ReleasedShort(held: seq<Item>, n: nat)
    requires n <= |held| && forall k | 0 <= k < |held| :: held[k].length <= held[k].size
    ensures Releasing(held, n).lengths <= Releasing(held, n).sizes
  {
    if n > 0 { ReleasedShort(held, n - 1); }
  }

  lemma {:induction false} CreditIsSize(files: seq<Item>, owing: nat, n: nat)
    requires n <= |files| && forall k | 0 <= k < |files| :: files[k].length <= files[k].size
    ensures Evicting(files, owing, n).credit == Evicting(files, owing, n).sizes
  {
    if n > 0 { CreditIsSize(files, owing, n - 1); }
  }

  lemma {:induction false} CreditGrows(files: seq<Item>, i: nat, n: nat)
    requires i <= n <= |files|
    ensures CreditBefore(files, i) <= CreditBefore(files, n)
  {
    if i < n { CreditGrows(files, i, n - 1); }
  }

  /** Otherwise it can stop short: a file ten bytes longer than the index says pays for
      more than it takes off, and the next is left, with the device still over. */
  lemma LongFileStopsItShort()
    ensures var a, b := Item(1, 11, true, true, false), Item(5, 5, true, true, false);
      var (after, stats) := Enforced(Disk([], [], [a, b]), 3);
      stats.stillOver == 2 && |after.files| == 2 && MayGo(after.files[1]) && !after.files[0].here
  {
    var a, b := Item(1, 11, true, true, false), Item(5, 5, true, true, false);
    var d := Disk([], [], [a, b]);
    var gone := [a.(here := false), b];
    TotalOfTwo(a, b);
    TotalOfTwo(a.(here := false), b);
    assert Total([]) == 0;
    assert Releasing([], 0) == Begin([]) && Emptying([], 3, 0) == Begin([]);
    assert Owing(d, 3) == 3;
    assert Evicting([a, b], 3, 0) == Begin([a, b]);
    assert Evicting([a, b], 3, 1).items == gone && Evicting([a, b], 3, 1).credit == 11;
    assert Evicting([a, b], 3, 2).items == gone;
  }

  lemma TotalOfTwo(a: Item, b: Item)
    ensures Total([a, b]) == (if a.here then a.size else 0) + if b.here then b.size else 0
  {
    assert Cost([a, b], 0) == 0;
    assert Cost([a, b], 1) == if a.here then a.size else 0;
    assert Cost([a, b], 2) == Cost([a, b], 1) + if b.here then b.size else 0;
  }
}
