/** Workers that store the entries of one queue between them. A schedule is any order
    their steps may come in. */
module StoreMany {
  import opened Wrappers
  import opened FolderSync

  /** A worker that has not opened the store yet; one at work, with its own figures
      and perhaps an entry in hand; one that has finished or could not open. */
  datatype Worker = Waiting | Working(mine: SyncStats, hand: Option<DiskFile>) | Finished

  /** The shared queue, the store -- its rows, and the marks of the files too recent to be
      trusted -- the figures handed in, and, for the record, the entries put and the workers
      that could not open. */
  datatype Pool = Pool(
    queue: seq<DiskFile>,
    index: Index,
    racy: set<string>,
    clock: int,
    collected: SyncStats,
    workers: seq<Worker>,
    put: seq<DiskFile>,
    unopened: nat)

  datatype Event = Open(w: nat) | FailOpen(w: nat) | Pop(w: nat) | Store(w: nat) | Finish(w: nat)

  /** The name a worker that could not open the store records. */
  const STORE := ".qurb"

  function Start(s: State, clock: int, entries: seq<DiskFile>, workers: nat): Pool {
    Pool(entries, s.index, s.racy, clock, NOTHING, seq(workers, _ => Waiting), [], 0)
  }

  predicate Enabled(p: Pool, e: Event) {
    e.w < |p.workers|
    && match e
       case Open(w) => p.workers[w].Waiting?
       case FailOpen(w) => p.workers[w].Waiting?
       case Pop(w) => p.workers[w].Working? && p.workers[w].hand.None? && p.queue != []
       case Store(w) => p.workers[w].Working? && p.workers[w].hand.Some?
       case Finish(w) => p.workers[w].Working? && p.workers[w].hand.None? && p.queue == []
  }

  function PutIndex(index: Index, f: DiskFile, bad: set<string>): Index {
    PutOne(State(index, {}), f, 0, bad).index
  }

  function PutMarks(racy: set<string>, f: DiskFile, clock: int, bad: set<string>): set<string> {
    PutOne(State(map[], racy), f, clock, bad).racy
  }

  function Next(p: Pool, e: Event, bad: set<string>): Pool
    requires Enabled(p, e)
  {
    match e
    case Open(w) => p.(workers := p.workers[w := Working(NOTHING, None)])
    case FailOpen(w) =>
      p.(workers := p.workers[w := Finished], collected := p.collected.(failures := p.collected.failures + [STORE]),
         unopened := p.unopened + 1)
    case Pop(w) =>
      p.(workers := p.workers[w := p.workers[w].(hand := Some(p.queue[0]))], queue := p.queue[1..])
    case Store(w) =>
      var f := p.workers[w].hand.value;
      var mine := Merge(p.workers[w].mine, PutStats(State(p.index, {}), f, bad));
      p.(workers := p.workers[w := Working(mine, None)], index := PutIndex(p.index, f, bad),
         racy := PutMarks(p.racy, f, p.clock, bad), put := p.put + [f])
    case Finish(w) =>
      p.(workers := p.workers[w := Finished], collected := Merge(p.collected, p.workers[w].mine))
  }

  /** `q` is where `events` take `p`. */
  ghost predicate Runs(p: Pool, events: seq<Event>, q: Pool, bad: set<string>)
    decreases |events|
  {
    if events == [] then p == q
    else Enabled(p, events[0]) && Runs(Next(p, events[0], bad), events[1..], q, bad)
  }

  predicate AllFinished(p: Pool) {
    forall i | 0 <= i < |p.workers| :: p.workers[i].Finished?
  }

  // ----- adding up

  /** Figures, the order of failures forgotten. */
  datatype Share = Share(stored: nat, same: nat, deleted: nat, failures: multiset<string>)

  const ZERO := Share(0, 0, 0, multiset{})

  function Plus(a: Share, b: Share): Share {
    Share(a.stored + b.stored, a.same + b.same, a.deleted + b.deleted, a.failures + b.failures)
  }

  function Figures(stats: SyncStats): Share {
    Share(stats.stored, stats.same, stats.deleted, multiset(stats.failures))
  }

  lemma FiguresMerge(a: SyncStats, b: SyncStats)
    ensures Figures(Merge(a, b)) == Plus(Figures(a), Figures(b))
  {}

  lemma PlusLaws(a: Share, b: Share, c: Share)
    ensures Plus(a, b) == Plus(b, a) && Plus(a, ZERO) == a
    ensures Plus(Plus(a, b), c) == Plus(a, Plus(b, c))
  {}

  lemma PlusSwap(a: Share, b: Share, c: Share)
    ensures Plus(a, Plus(b, c)) == Plus(b, Plus(a, c))
    ensures Plus(Plus(a, b), c) == Plus(Plus(a, c), b)
  {
    PlusLaws(a, b, c);
    PlusLaws(b, a, c);
    PlusLaws(b, c, a);
    PlusLaws(a, c, b);
    hide Plus;
  }

  /** What a worker has counted and not handed in, and what it has in hand. */
  function Mine(w: Worker): Share { if w.Working? then Figures(w.mine) else ZERO }

  function Hand(w: Worker): multiset<DiskFile> {
    if w.Working? && w.hand.Some? then multiset{w.hand.value} else multiset{}
  }

  /** The same of the first `n` workers together, leaving out worker `but`. */
  function AllMine(workers: seq<Worker>, n: nat, but: int): Share
    requires n <= |workers|
  {
    if n == 0 then ZERO
    else if n - 1 == but then AllMine(workers, n - 1, but)
    else Plus(Mine(workers[n - 1]), AllMine(workers, n - 1, but))
  }

  function AllHands(workers: seq<Worker>, n: nat, but: int): multiset<DiskFile>
    requires n <= |workers|
  {
    if n == 0 then multiset{}
    else if n - 1 == but then AllHands(workers, n - 1, but)
    else Hand(workers[n - 1]) + AllHands(workers, n - 1, but)
  }

  /** One worker's part, and everybody else's. */
  lemma {:induction false} OneApart(workers: seq<Worker>, n: nat, w: nat)
    requires n <= |workers|
    ensures w < n ==> AllMine(workers, n, -1) == Plus(Mine(workers[w]), AllMine(workers, n, w))
    ensures w < n ==> AllHands(workers, n, -1) == Hand(workers[w]) + AllHands(workers, n, w)
    ensures w >= n ==> AllMine(workers, n, -1) == AllMine(workers, n, w)
    ensures w >= n ==> AllHands(workers, n, -1) == AllHands(workers, n, w)
  {
    hide Mine, Hand, Plus;
    if n > 0 {
      OneApart(workers, n - 1, w);
      if w < n - 1 {
        PlusSwap(Mine(workers[n - 1]), Mine(workers[w]), AllMine(workers, n - 1, w));
      }
    }
  }

  lemma {:induction false} OthersStay(workers: seq<Worker>, n: nat, w: nat, x: Worker)
    requires n <= |workers| && w < |workers|
    ensures AllMine(workers[w := x], n, w) == AllMine(workers, n, w)
    ensures AllHands(workers[w := x], n, w) == AllHands(workers, n, w)
  {
    hide Mine, Hand, Plus;
    if n > 0 { OthersStay(workers, n - 1, w, x); }
  }

  /** A worker's part changes, and with it the whole, by as much. */
  lemma WorkerChanges(workers: seq<Worker>, w: nat, x: Worker) returns (mine: Share, hands: multiset<DiskFile>)
    requires w < |workers|
    ensures AllMine(workers, |workers|, -1) == Plus(Mine(workers[w]), mine)
    ensures AllHands(workers, |workers|, -1) == Hand(workers[w]) + hands
    ensures AllMine(workers[w := x], |workers|, -1) == Plus(Mine(x), mine)
    ensures AllHands(workers[w := x], |workers|, -1) == Hand(x) + hands
  {
    OneApart(workers, |workers|, w);
    OneApart(workers[w := x], |workers|, w);
    OthersStay(workers, |workers|, w, x);
    mine, hands := AllMine(workers, |workers|, w), AllHands(workers, |workers|, w);
  }

  lemma Idle(w: Worker)
    requires !w.Working?
    ensures Mine(w) == ZERO && Hand(w) == multiset{}
  {}

  lemma {:induction false} NoneAtWork(workers: seq<Worker>, n: nat)
    requires n <= |workers| && forall i | 0 <= i < n :: !workers[i].Working?
    ensures AllMine(workers, n, -1) == ZERO && AllHands(workers, n, -1) == multiset{}
  {
    hide Mine, Hand, Plus;
    if n > 0 {
      NoneAtWork(workers, n - 1);
      Idle(workers[n - 1]);
      PlusLaws(ZERO, ZERO, ZERO);
    }
  }

  /** What storing these entries comes to, each against the index as it began. */
  function Worth(index: Index, files: seq<DiskFile>, bad: set<string>): Share {
    if files == [] then ZERO
    else
      var n := |files| - 1;
      Plus(Worth(index, files[..n], bad), Figures(PutStats(State(index, {}), files[n], bad)))
  }

  /** The worth of a list does not depend on its order. */
  lemma {:induction false} WorthOfAnyOrder(index: Index, a: seq<DiskFile>, b: seq<DiskFile>, bad: set<string>)
    requires multiset(a) == multiset(b)
    ensures Worth(index, a, bad) == Worth(index, b, bad)
    decreases |a|
  {
    hide Plus, Figures, PutStats;
    assert |a| == |multiset(a)| == |multiset(b)| == |b|;
    if a != [] {
      var n := |a| - 1;
      var j, rest := TakeOut(a, b);
      WorthOfAnyOrder(index, a[..n], rest, bad);
      WorthWithout(index, b, j, bad);
    }
  }

  /** Where the last of `a` is in `b`, and the rest of `b`. */
  lemma TakeOut(a: seq<DiskFile>, b: seq<DiskFile>) returns (j: nat, rest: seq<DiskFile>)
    requires a != [] && multiset(a) == multiset(b)
    ensures j < |b| && b[j] == a[|a| - 1] && rest == b[..j] + b[j + 1..]
    ensures multiset(rest) == multiset(a[..|a| - 1])
  {
    var n := |a| - 1;
    assert a == a[..n] + [a[n]];
    assert a[n] in multiset(b);
    j :| 0 <= j < |b| && b[j] == a[n];
    rest := b[..j] + b[j + 1..];
    assert b == b[..j] + [b[j]] + b[j + 1..];
    assert multiset(rest) == multiset(b) - multiset{b[j]};
  }

  lemma {:induction false} WorthWithout(index: Index, b: seq<DiskFile>, j: nat, bad: set<string>)
    requires j < |b|
    ensures Worth(index, b, bad)
            == Plus(Worth(index, b[..j] + b[j + 1..], bad), Figures(PutStats(State(index, {}), b[j], bad)))
  {
    hide PutStats, Figures, Plus;
    var n := |b| - 1;
    if j == n {
      assert b[..j] + b[j + 1..] == b[..n];
    } else {
      WorthWithout(index, b[..n], j, bad);
      var rest := b[..j] + b[j + 1..];
      var shorter := b[..n][..j] + b[..n][j + 1..];
      assert rest[..|rest| - 1] == shorter && rest[|rest| - 1] == b[n];
      var x, y := Figures(PutStats(State(index, {}), b[j], bad)), Figures(PutStats(State(index, {}), b[n], bad));
      PlusSwap(Worth(index, shorter, bad), x, y);
      PlusSwap(Worth(index, shorter, bad), y, x);
      PlusSwap(x, y, x);
    }
  }

  // ----- what every schedule keeps

  /** Each path put holds its file, each other path its old row. */
  ghost predicate Holds(start: Index, put: seq<DiskFile>, bad: set<string>, index: Index) {
    && (forall i | 0 <= i < |put| ::
          Lookup(index, put[i].logical)
          == if put[i].spelling in bad then Lookup(start, put[i].logical) else Some(FileRow(put[i])))
    && (forall p | !AmongPaths(put, p) :: Lookup(index, p) == Lookup(start, p))
  }

  /** Every entry is in the queue, in one hand, or put, and nowhere twice; the store
      holds what was put; the figures, handed in or not, are those of what was put
      and of the workers that could not open. */
  ghost predicate Conserved(start: Index, entries: seq<DiskFile>, bad: set<string>, p: Pool) {
    && multiset(p.queue) + AllHands(p.workers, |p.workers|, -1) + multiset(p.put) == multiset(entries)
    && Holds(start, p.put, bad, p.index)
    && Plus(Figures(p.collected), AllMine(p.workers, |p.workers|, -1))
         == Plus(Worth(start, p.put, bad), Unopened(p.unopened))
  }

  function Unopened(n: nat): Share { ZERO.(failures := multiset{}[STORE := n]) }

  /** With one entry a path, an entry in hand has the path of nothing put. */
  lemma InHandIsNew(entries: seq<DiskFile>, put: seq<DiskFile>, others: multiset<DiskFile>, f: DiskFile)
    requires DistinctPaths(entries) && f in others
    requires multiset(put) + others <= multiset(entries)
    ensures !AmongPaths(put, f.logical)
  {
    if i :| 0 <= i < |put| && put[i].logical == f.logical {
      var g := put[i];
      assert g in multiset(put) && f in multiset(entries) && g in multiset(entries);
      var a :| 0 <= a < |entries| && entries[a] == f;
      var b :| 0 <= b < |entries| && entries[b] == g;
      assert a == b;
      assert multiset(entries)[f] >= multiset(put)[f] + others[f] >= 2;
      OnceOnly(entries, a);
    }
  }

  lemma OnceOnly(entries: seq<DiskFile>, a: nat)
    requires DistinctPaths(entries) && a < |entries|
    ensures multiset(entries)[entries[a]] == 1
  {
    assert entries == entries[..a] + [entries[a]] + entries[a + 1..];
    assert entries[a] !in entries[..a];
    assert entries[a] !in entries[a + 1..];
  }

  /** A step of one worker conserves everything if what it and the queue and the
      store have between them is the same, and its figures and those handed in grow
      by what the entries put, or the workers that could not open, do. */
  lemma {:induction false} Balanced(
    start: Index, entries: seq<DiskFile>, bad: set<string>, p: Pool, w: nat, q: Pool, gain: Share)
    requires Conserved(start, entries, bad, p) && w < |p.workers| == |q.workers|
    requires q.workers == p.workers[w := q.workers[w]]
    requires multiset(q.queue) + Hand(q.workers[w]) + multiset(q.put)
             == multiset(p.queue) + Hand(p.workers[w]) + multiset(p.put)
    requires Holds(start, q.put, bad, q.index)
    requires Plus(Figures(q.collected), Mine(q.workers[w]))
      == Plus(Plus(Figures(p.collected), Mine(p.workers[w])), gain)
    requires Plus(Worth(start, q.put, bad), Unopened(q.unopened))
             == Plus(Plus(Worth(start, p.put, bad), Unopened(p.unopened)), gain)
    ensures Conserved(start, entries, bad, q)
  {
    hide Worth, Holds, AllMine, AllHands, Mine, Hand, Figures, Unopened, Plus;
    var rest, hands := WorkerChanges(p.workers, w, q.workers[w]);
    var f, g, m, n := Figures(p.collected), Figures(q.collected), Mine(p.workers[w]), Mine(q.workers[w]);
    assert Plus(g, Plus(n, rest)) == Plus(Plus(f, Plus(m, rest)), gain) by {
      PlusLaws(g, n, rest);
      PlusLaws(f, m, rest);
      PlusSwap(Plus(f, m), gain, rest);
    }
    HandsSwap(multiset(q.queue), Hand(q.workers[w]), multiset(q.put), hands);
    HandsSwap(multiset(p.queue), Hand(p.workers[w]), multiset(p.put), hands);
  }

  lemma HandsSwap(a: multiset<DiskFile>, b: multiset<DiskFile>, c: multiset<DiskFile>, rest: multiset<DiskFile>)
    ensures a + (b + rest) + c == (a + b + c) + rest
  {}

  lemma StepKeeps(start: Index, entries: seq<DiskFile>, bad: set<string>, p: Pool, e: Event)
    requires DistinctPaths(entries) && Conserved(start, entries, bad, p) && Enabled(p, e)
    ensures Conserved(start, entries, bad, Next(p, e, bad))
  {
    hide *;
    match e {
      case Open(w) => OpenKeeps(start, entries, bad, p, w);
      case FailOpen(w) => FailOpenKeeps(start, entries, bad, p, w);
      case Pop(w) => PopKeeps(start, entries, bad, p, w);
      case Store(w) => StoreKeeps(start, entries, bad, p, w);
      case Finish(w) => FinishKeeps(start, entries, bad, p, w);
    }
  }

  lemma OpenKeeps(start: Index, entries: seq<DiskFile>, bad: set<string>, p: Pool, w: nat)
    requires Conserved(start, entries, bad, p) && Enabled(p, Open(w))
    ensures Conserved(start, entries, bad, Next(p, Open(w), bad))
  {
    hide Worth, Holds, AllMine, AllHands, PutStats, PutIndex, Plus;
    PlusLaws(Plus(Figures(p.collected), ZERO), ZERO, ZERO);
    PlusLaws(Plus(Worth(start, p.put, bad), Unopened(p.unopened)), ZERO, ZERO);
    Balanced(start, entries, bad, p, w, Next(p, Open(w), bad), ZERO);
  }

  lemma FailOpenKeeps(start: Index, entries: seq<DiskFile>, bad: set<string>, p: Pool, w: nat)
    requires Conserved(start, entries, bad, p) && Enabled(p, FailOpen(w))
    ensures Conserved(start, entries, bad, Next(p, FailOpen(w), bad))
  {
    FailOpenAdds(p.collected, p.unopened);
    hide Worth, Holds, AllMine, AllHands, PutStats, PutIndex, Plus, Figures, Unopened;
    PlusSwap(Figures(p.collected), Unopened(1), ZERO);
    PlusLaws(Worth(start, p.put, bad), Unopened(p.unopened), Unopened(1));
    Balanced(start, entries, bad, p, w, Next(p, FailOpen(w), bad), Unopened(1));
  }

  lemma PopKeeps(start: Index, entries: seq<DiskFile>, bad: set<string>, p: Pool, w: nat)
    requires Conserved(start, entries, bad, p) && Enabled(p, Pop(w))
    ensures Conserved(start, entries, bad, Next(p, Pop(w), bad))
  {
    hide Worth, Holds, AllMine, AllHands, PutStats, PutIndex, Plus, Figures, Unopened;
    var q := Next(p, Pop(w), bad);
    assert p.queue == [p.queue[0]] + q.queue;
    assert Hand(q.workers[w]) == multiset{p.queue[0]} && Hand(p.workers[w]) == multiset{};
    assert Mine(q.workers[w]) == Mine(p.workers[w]);
    hide Hand, Mine;
    PlusLaws(Plus(Figures(p.collected), Mine(p.workers[w])), ZERO, ZERO);
    PlusLaws(Plus(Worth(start, p.put, bad), Unopened(p.unopened)), ZERO, ZERO);
    Balanced(start, entries, bad, p, w, q, ZERO);
  }

  lemma FinishKeeps(start: Index, entries: seq<DiskFile>, bad: set<string>, p: Pool, w: nat)
    requires Conserved(start, entries, bad, p) && Enabled(p, Finish(w))
    ensures Conserved(start, entries, bad, Next(p, Finish(w), bad))
  {
    FiguresMerge(p.collected, p.workers[w].mine);
    hide Worth, Holds, AllMine, AllHands, PutStats, PutIndex, Plus, Figures, Unopened, Merge;
    PlusLaws(Plus(Figures(p.collected), Mine(p.workers[w])), ZERO, ZERO);
    PlusLaws(Plus(Worth(start, p.put, bad), Unopened(p.unopened)), ZERO, ZERO);
    Balanced(start, entries, bad, p, w, Next(p, Finish(w), bad), ZERO);
  }

  lemma FailOpenAdds(collected: SyncStats, n: nat)
    ensures Figures(collected.(failures := collected.failures + [STORE])) == Plus(Figures(collected), Unopened(1))
    ensures Unopened(n + 1) == Plus(Unopened(n), Unopened(1))
  {}

  lemma StoreKeeps(start: Index, entries: seq<DiskFile>, bad: set<string>, p: Pool, w: nat)
    requires DistinctPaths(entries) && Conserved(start, entries, bad, p) && Enabled(p, Store(w))
    ensures Conserved(start, entries, bad, Next(p, Store(w), bad))
  {
    var q, f := Next(p, Store(w), bad), p.workers[w].hand.value;
    StoresAsFirst(start, entries, bad, p, w);
    hide Worth, AllMine, AllHands, PutStats, PutIndex, Plus, AmongPaths;
    HoldsMore(start, p.put, bad, p.index, f);
    hide Holds;
    var stats := PutStats(State(start, {}), f, bad);
    var g, x := Figures(stats), Worth(start, p.put, bad);
    FiguresMerge(p.workers[w].mine, stats);
    PlusLaws(Figures(p.collected), Mine(p.workers[w]), g);
    PlusSwap(x, g, Unopened(p.unopened));
    assert multiset(q.put) == multiset(p.put) + multiset{f};
    Balanced(start, entries, bad, p, w, q, g);
  }

  /** An entry in hand finds its path as the run found it. */
  lemma StoresAsFirst(start: Index, entries: seq<DiskFile>, bad: set<string>, p: Pool, w: nat)
    requires DistinctPaths(entries) && Conserved(start, entries, bad, p) && Enabled(p, Store(w))
    ensures var f := p.workers[w].hand.value;
            !AmongPaths(p.put, f.logical)
            && PutStats(State(p.index, {}), f, bad) == PutStats(State(start, {}), f, bad)
  {
    var f := p.workers[w].hand.value;
    HandIsHeld(p, w);
    InHandIsNew(entries, p.put, AllHands(p.workers, |p.workers|, -1), f);
    hide AllMine, AllHands, Worth, Plus;
    assert Lookup(p.index, f.logical) == Lookup(start, f.logical);
  }

  lemma HandIsHeld(p: Pool, w: nat)
    requires w < |p.workers|
    ensures Hand(p.workers[w]) <= AllHands(p.workers, |p.workers|, -1)
  {
    OneApart(p.workers, |p.workers|, w);
  }

  lemma HoldsMore(start: Index, put: seq<DiskFile>, bad: set<string>, index: Index, f: DiskFile)
    requires Holds(start, put, bad, index) && !AmongPaths(put, f.logical)
    ensures Holds(start, put + [f], bad, PutIndex(index, f, bad))
  {
    var more, index' := put + [f], PutIndex(index, f, bad);
    forall i | 0 <= i < |more|
      ensures Lookup(index', more[i].logical)
              == if more[i].spelling in bad then Lookup(start, more[i].logical) else Some(FileRow(more[i]))
    {
      assert i < |put| ==> put[i].logical != f.logical;
      assert Lookup(index, f.logical) == Lookup(start, f.logical);
    }
    forall p | !AmongPaths(more, p) ensures Lookup(index', p) == Lookup(start, p) {
      AmongLast(put, f, p);
    }
  }

  lemma {:induction false} RunKeeps(start: Index, entries: seq<DiskFile>, bad: set<string>, p: Pool,
      events: seq<Event>, q: Pool)
    requires DistinctPaths(entries) && Conserved(start, entries, bad, p) && Runs(p, events, q, bad)
    ensures Conserved(start, entries, bad, q)
    decreases |events|
  {
    if events != [] {
      StepKeeps(start, entries, bad, p, events[0]);
      RunKeeps(start, entries, bad, Next(p, events[0], bad), events[1..], q);
    }
  }

  // ----- who is where

  function AtWork(workers: seq<Worker>, n: nat): nat
    requires n <= |workers|
  {
    if n == 0 then 0 else AtWork(workers, n - 1) + if workers[n - 1].Working? then 1 else 0
  }

  function Yet(workers: seq<Worker>, n: nat): nat
    requires n <= |workers|
  {
    if n == 0 then 0 else Yet(workers, n - 1) + if workers[n - 1].Waiting? then 1 else 0
  }

  lemma {:induction false} CountChanges(workers: seq<Worker>, n: nat, w: nat, x: Worker)
    requires n <= |workers| && w < |workers|
    ensures AtWork(workers[w := x], n) + (if w < n && workers[w].Working? then 1 else 0)
            == AtWork(workers, n) + if w < n && x.Working? then 1 else 0
    ensures Yet(workers[w := x], n) + (if w < n && workers[w].Waiting? then 1 else 0)
            == Yet(workers, n) + if w < n && x.Waiting? then 1 else 0
  {
    if n > 0 { CountChanges(workers, n - 1, w, x); }
  }

  lemma {:induction false} CountAt(workers: seq<Worker>, n: nat)
    requires n <= |workers|
    ensures (forall i | 0 <= i < n :: workers[i].Finished?) ==> AtWork(workers, n) == 0 && Yet(workers, n) == 0
    ensures (forall i | 0 <= i < n :: workers[i].Waiting?) ==> AtWork(workers, n) == 0 && Yet(workers, n) == n
    ensures forall i | 0 <= i < n :: workers[i].Working? ==> AtWork(workers, n) > 0
  {
    if n > 0 { CountAt(workers, n - 1); }
  }

  /** Everybody is waiting, could not open, or joined; a worker that joined is at
      work until the queue is empty; and nothing is taken unless somebody joined. */
  ghost predicate Census(entries: seq<DiskFile>, p: Pool) {
    var n := |p.workers|;
    var joined := n - Yet(p.workers, n) - p.unopened;
    && joined >= AtWork(p.workers, n)
    && (p.queue != [] ==> joined == AtWork(p.workers, n))
    && (joined == 0 ==> p.queue == entries && p.put == [])
  }

  lemma StepCensus(entries: seq<DiskFile>, p: Pool, e: Event, bad: set<string>)
    requires Census(entries, p) && Enabled(p, e)
    ensures Census(entries, Next(p, e, bad))
  {
    var q := Next(p, e, bad);
    CountChanges(p.workers, |p.workers|, e.w, q.workers[e.w]);
    assert q.workers == p.workers[e.w := q.workers[e.w]];
    CountAt(p.workers, |p.workers|);
    hide AtWork, Yet;
  }

  lemma {:induction false} RunCensus(entries: seq<DiskFile>, p: Pool, events: seq<Event>, q: Pool, bad: set<string>)
    requires Census(entries, p) && Runs(p, events, q, bad)
    ensures Census(entries, q) && |q.workers| == |p.workers|
    decreases |events|
  {
    if events != [] {
      StepCensus(entries, p, events[0], bad);
      hide Census;
      RunCensus(entries, Next(p, events[0], bad), events[1..], q, bad);
    }
  }

  // ----- the comparison with one worker

  lemma {:induction false} OneWorkersWorth(s: State, queue: seq<DiskFile>, clock: int, bad: set<string>)
    requires DistinctPaths(queue)
    ensures Figures(PutAllStats(s, queue, clock, bad)) == Worth(s.index, queue, bad)
  {
    if queue != [] {
      var n := |queue| - 1;
      OneWorkersWorth(s, queue[..n], clock, bad);
      var t := PutAll(s, queue[..n], clock, bad);
      PutsAsFirst(s, queue, clock, bad);
      FiguresMerge(PutAllStats(s, queue[..n], clock, bad), PutStats(t, queue[n], bad));
      hide Plus, Figures, PutStats, Merge, PutAll;
    }
  }

  lemma PutsAsFirst(s: State, queue: seq<DiskFile>, clock: int, bad: set<string>)
    requires DistinctPaths(queue) && queue != []
    ensures var n := |queue| - 1;
            PutStats(PutAll(s, queue[..n], clock, bad), queue[n], bad) == PutStats(State(s.index, {}), queue[n], bad)
  {
    var n := |queue| - 1;
    assert !AmongPaths(queue[..n], queue[n].logical);
    PutAllElsewhere(s, queue[..n], clock, bad, queue[n].logical);
    hide PutAll;
  }

  lemma SameStore(s: State, entries: seq<DiskFile>, clock: int, bad: set<string>, put: seq<DiskFile>, index: Index)
    requires DistinctPaths(entries) && multiset(put) == multiset(entries) && Holds(s.index, put, bad, index)
    ensures index == PutAll(s, entries, clock, bad).index
  {
    var t := PutAll(s, entries, clock, bad);
    forall p ensures Lookup(index, p) == Lookup(t.index, p) {
      if i :| 0 <= i < |entries| && entries[i].logical == p {
        PutAllAt(s, entries, clock, bad, i);
        assert entries[i] in multiset(put);
        var j :| 0 <= j < |put| && put[j] == entries[i];
        assert Lookup(index, put[j].logical) == Lookup(t.index, p);
      } else {
        PutAllElsewhere(s, entries, clock, bad, p);
        forall j | 0 <= j < |put| ensures put[j].logical != p { assert put[j] in multiset(entries); }
      }
    }
    SameMaps(index, t.index);
  }

  // ----- the marks

  /** The marks after putting these entries one after the other. */
  function Marks(racy: set<string>, put: seq<DiskFile>, clock: int, bad: set<string>): set<string> {
    PutAll(State(map[], racy), put, clock, bad).racy
  }

  lemma {:induction false} RunMarks(racy: set<string>, p: Pool, events: seq<Event>, q: Pool, bad: set<string>)
    requires Runs(p, events, q, bad) && p.racy == Marks(racy, p.put, p.clock, bad)
    ensures q.clock == p.clock && q.racy == Marks(racy, q.put, q.clock, bad)
    decreases |events|
  {
    if events != [] {
      var e, next := events[0], Next(p, events[0], bad);
      if e.Store? { assert next.put[..|p.put|] == p.put; }
      hide PutStats, PutIndex, Merge;
      RunMarks(racy, next, events[1..], q, bad);
    }
  }

  /** Of distinct paths, the order they are put in makes no difference to the marks. */
  lemma SameMarks(s: State, entries: seq<DiskFile>, clock: int, bad: set<string>, put: seq<DiskFile>)
    requires DistinctPaths(entries) && multiset(put) == multiset(entries)
    ensures Marks(s.racy, put, clock, bad) == PutAll(s, entries, clock, bad).racy
  {
    var r := State(map[], s.racy);
    StayDistinct(entries, put);
    forall p ensures p in Marks(s.racy, put, clock, bad) <==> p in PutAll(s, entries, clock, bad).racy {
      if i :| 0 <= i < |entries| && entries[i].logical == p {
        PutAllAt(s, entries, clock, bad, i);
        assert entries[i] in multiset(put);
        var j :| 0 <= j < |put| && put[j] == entries[i];
        PutAllAt(r, put, clock, bad, j);
      } else {
        PutAllElsewhere(s, entries, clock, bad, p);
        forall j | 0 <= j < |put| ensures put[j].logical != p { assert put[j] in multiset(entries); }
        PutAllElsewhere(r, put, clock, bad, p);
      }
    }
  }

  lemma StayDistinct(entries: seq<DiskFile>, put: seq<DiskFile>)
    requires DistinctPaths(entries) && multiset(put) == multiset(entries)
    ensures DistinctPaths(put)
  {
    forall i, j | 0 <= i < j < |put| ensures put[i].logical != put[j].logical {
      assert put[i] in multiset(entries) && put[j] in multiset(entries);
      var a :| 0 <= a < |entries| && entries[a] == put[i];
      var b :| 0 <= b < |entries| && entries[b] == put[j];
      OnceOnly(entries, a);
      if put[i] == put[j] { Twice(put, i, j); }
    }
  }

  lemma Twice(put: seq<DiskFile>, i: nat, j: nat)
    requires i < j < |put| && put[i] == put[j]
    ensures multiset(put)[put[i]] >= 2
  {
    assert put == put[..i] + [put[i]] + put[i + 1..j] + [put[j]] + put[j + 1..];
  }

  /** However the workers' steps fall, once all have finished: if any of them opened
      the store, every entry has been put exactly once, the rows and the marks are what one
      worker storing the entries in order leaves, and the figures are that worker's with one
      failure more for each that could not open. */
  lemma EveryScheduleIsOneWorker(
    s: State, entries: seq<DiskFile>, clock: int, bad: set<string>, n: nat, events: seq<Event>, q: Pool)
    requires DistinctPaths(entries)
    requires Runs(Start(s, clock, entries, n), events, q, bad) && AllFinished(q)
    ensures q.unopened <= n
    ensures q.unopened < n ==>
      && multiset(q.put) == multiset(entries)
      && State(q.index, q.racy) == PutAll(s, entries, clock, bad)
      && Figures(q.collected) == Plus(Figures(PutAllStats(s, entries, clock, bad)), Unopened(q.unopened))
  {
    Finally(s, clock, entries, bad, n, events, q);
    RunMarks(s.racy, Start(s, clock, entries, n), events, q, bad);
    if q.unopened < n {
      SameMarks(s, entries, clock, bad, q.put);
      SameStore(s, entries, clock, bad, q.put, q.index);
      WorthOfAnyOrder(s.index, q.put, entries, bad);
      OneWorkersWorth(s, entries, clock, bad);
    }
  }

  /** And if none of them opened, nothing is put and the entries are not among the
      failures: only the store is, once for each worker. */
  lemma NobodyOpened(
    s: State, entries: seq<DiskFile>, clock: int, bad: set<string>, n: nat, events: seq<Event>, q: Pool)
    requires DistinctPaths(entries)
    requires Runs(Start(s, clock, entries, n), events, q, bad) && AllFinished(q) && q.unopened == n
    ensures q.queue == entries && State(q.index, q.racy) == s && Figures(q.collected) == Unopened(n)
  {
    Finally(s, clock, entries, bad, n, events, q);
    RunMarks(s.racy, Start(s, clock, entries, n), events, q, bad);
    forall p ensures Lookup(q.index, p) == Lookup(s.index, p) { assert !AmongPaths(q.put, p); }
    SameMaps(q.index, s.index);
    PlusLaws(Unopened(n), ZERO, ZERO);
    PlusLaws(ZERO, Unopened(n), ZERO);
  }

  /** Where every finished run stands. */
  lemma Finally(
    s: State, clock: int, entries: seq<DiskFile>, bad: set<string>, n: nat, events: seq<Event>, q: Pool)
    requires DistinctPaths(entries)
    requires Runs(Start(s, clock, entries, n), events, q, bad) && AllFinished(q)
    ensures q.unopened <= n && Holds(s.index, q.put, bad, q.index)
    ensures if q.unopened < n then q.queue == [] && multiset(q.put) == multiset(entries)
            else q.queue == entries && q.put == []
    ensures Figures(q.collected) == Plus(Worth(s.index, q.put, bad), Unopened(q.unopened))
  {
    hide Runs, Holds, Worth, Plus, Figures, Unopened, AllMine, AllHands, AtWork, Yet;
    var p := Start(s, clock, entries, n);
    StartConserves(s, clock, entries, bad, n);
    StartCounts(s, clock, entries, n);
    RunKeeps(s.index, entries, bad, p, events, q);
    RunCensus(entries, p, events, q, bad);
    CountAt(q.workers, n);
    NoneAtWork(q.workers, n);
    PlusLaws(Figures(q.collected), ZERO, ZERO);
  }

  lemma {:induction false} StartConserves(
    s: State, clock: int, entries: seq<DiskFile>, bad: set<string>, n: nat)
    ensures Conserved(s.index, entries, bad, Start(s, clock, entries, n))
  {
    hide AllMine, AllHands, Plus, Figures, Unopened, Mine, Hand;
    var p := Start(s, clock, entries, n);
    assert forall i | 0 <= i < n :: p.workers[i] == Waiting;
    NoneAtWork(p.workers, n);
    PlusLaws(ZERO, ZERO, ZERO);
    Zeros();
    assert Worth(s.index, p.put, bad) == ZERO;
    assert Holds(s.index, p.put, bad, s.index);
    hide Worth, Holds;
  }

  lemma {:induction false} StartCounts(s: State, clock: int, entries: seq<DiskFile>, n: nat)
    ensures Census(entries, Start(s, clock, entries, n))
  {
    hide AtWork, Yet;
    var p := Start(s, clock, entries, n);
    assert forall i | 0 <= i < n :: p.workers[i] == Waiting;
    CountAt(p.workers, n);
  }

  lemma Zeros()
    ensures Figures(NOTHING) == ZERO && Unopened(0) == ZERO
  {}

  // ----- every run ends

  function Effort(w: Worker): nat {
    match w
    case Finished => 0
    case Working(_, None) => 1
    case _ => 2
  }

  function Efforts(workers: seq<Worker>, n: nat): nat
    requires n <= |workers|
  {
    if n == 0 then 0 else Efforts(workers, n - 1) + Effort(workers[n - 1])
  }

  /** What is still to do. */
  function Left(p: Pool): nat { 2 * |p.queue| + Efforts(p.workers, |p.workers|) }

  lemma {:induction false} EffortChanges(workers: seq<Worker>, n: nat, w: nat, x: Worker)
    requires n <= |workers| && w < |workers|
    ensures Efforts(workers[w := x], n) + (if w < n then Effort(workers[w]) else 0)
            == Efforts(workers, n) + if w < n then Effort(x) else 0
  {
    if n > 0 { EffortChanges(workers, n - 1, w, x); }
  }

  /** A run is at most two steps for each entry and each worker. */
  lemma {:induction false} RunsEnd(p: Pool, events: seq<Event>, q: Pool, bad: set<string>)
    requires Runs(p, events, q, bad)
    ensures |events| + Left(q) <= Left(p)
    decreases |events|
  {
    if events != [] {
      var e := events[0];
      var r := Next(p, e, bad);
      EffortChanges(p.workers, |p.workers|, e.w, r.workers[e.w]);
      assert r.workers == p.workers[e.w := r.workers[e.w]];
      assert Left(r) < Left(p);
      RunsEnd(r, events[1..], q, bad);
    }
  }

  /** No run is stuck: until every worker has finished, some step can be taken. */
  lemma NeverStuck(p: Pool)
    requires !AllFinished(p)
    ensures exists e :: Enabled(p, e)
  {
    var w :| 0 <= w < |p.workers| && !p.workers[w].Finished?;
    match p.workers[w] {
      case Waiting => assert Enabled(p, Open(w));
      case Working(_, Some(_)) => assert Enabled(p, Store(w));
      case Working(_, None) => assert if p.queue == [] then Enabled(p, Finish(w)) else Enabled(p, Pop(w));
    }
  }
}
