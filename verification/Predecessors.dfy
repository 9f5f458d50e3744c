/** BFDSource.list_files: the data files of a backup and of every backup it builds on. */
module Predecessors {
  import opened Wire

  type Dir = string

  /** A directory lists names; its files are the paths it makes of them. */
  datatype Path = Path(dir: Dir, name: string)

  type Names = Dir -> seq<string>
  type Preds = Dir -> seq<Dir>

  /** No directory builds on itself through others; naming itself directly is harmless. */
  ghost predicate Acyclic(preds: Preds, rank: Dir -> nat)
  {
    forall d, p :: p in preds(d) ==> p == d || rank(p) < rank(d)
  }

  ghost predicate Chain(preds: Preds, path: seq<Dir>)
  {
    forall i :: 0 < i < |path| ==> path[i] in preds(path[i - 1])
  }

  /** `d` is one of `start` or a transitive predecessor of one. */
  ghost predicate Reach(preds: Preds, start: seq<Dir>, d: Dir)
  {
    exists path :: From(preds, start, path, d)
  }

  ghost predicate From(preds: Preds, start: seq<Dir>, path: seq<Dir>, d: Dir)
  {
    path != [] && path[0] in start && path[|path| - 1] == d && Chain(preds, path)
  }

  lemma ReachStart(preds: Preds, start: seq<Dir>, d: Dir)
    requires d in start
    ensures Reach(preds, start, d)
  {
    assert From(preds, start, [d], d);
  }

  lemma ReachStep(preds: Preds, start: seq<Dir>, d: Dir, p: Dir)
    requires Reach(preds, start, d) && p in preds(d)
    ensures Reach(preds, start, p)
  {
    var path :| From(preds, start, path, d);
    assert From(preds, start, path + [p], p);
  }

  /** A set that holds the start and is closed under predecessors holds everything reachable. */
  lemma {:induction false} ClosedHoldsPath(preds: Preds, start: seq<Dir>, held: set<Dir>, path: seq<Dir>, d: Dir)
    requires From(preds, start, path, d)
    requires forall x :: x in start ==> x in held
    requires forall x, p :: x in held && p in preds(x) ==> p in held
    ensures d in held
    decreases |path|
  {
    var k := |path| - 1;
    if k > 0 {
      var init := path[..k];
      assert From(preds, start, init, path[k - 1]);
      ClosedHoldsPath(preds, start, held, init, path[k - 1]);
    }
  }

  /** The same, of what can be reached from some directories. */
  ghost predicate AcyclicFrom(preds: Preds, start: seq<Dir>, rank: Dir -> nat)
  {
    forall d, p :: Reach(preds, start, d) && p in preds(d) ==> p == d || rank(p) < rank(d)
  }

  /** The relation as far as it can be reached. */
  ghost function Within(preds: Preds, start: seq<Dir>): Preds
  {
    d => if Reach(preds, start, d) then preds(d) else []
  }

  lemma WithinAcyclic(preds: Preds, start: seq<Dir>, rank: Dir -> nat)
    requires AcyclicFrom(preds, start, rank)
    ensures Acyclic(Within(preds, start), rank)
  {
  }

  // ---------- Termination ----------

  /** The weight of a directory: one more than that of all its predecessors. */
  ghost function Weight(preds: Preds, rank: Dir -> nat, d: Dir): nat
    requires Acyclic(preds, rank)
    decreases rank(d), 1, 0
  {
    1 + Sum(preds, rank, d, preds(d))
  }

  ghost function Sum(preds: Preds, rank: Dir -> nat, d: Dir, ps: seq<Dir>): nat
    requires Acyclic(preds, rank)
    requires forall p :: p in ps ==> p in preds(d)
    decreases rank(d), 0, |ps|
  {
    if ps == [] then 0
    else
      var p := ps[|ps| - 1];
      Sum(preds, rank, d, ps[..|ps| - 1]) + if p == d then 0 else Weight(preds, rank, p)
  }

  ghost function Total(preds: Preds, rank: Dir -> nat, queue: seq<Dir>): nat
    requires Acyclic(preds, rank)
  {
    if queue == [] then 0 else Total(preds, rank, queue[..|queue| - 1]) + Weight(preds, rank, queue[|queue| - 1])
  }

  lemma TotalSnoc(preds: Preds, rank: Dir -> nat, queue: seq<Dir>, d: Dir)
    requires Acyclic(preds, rank)
    ensures Total(preds, rank, queue + [d]) == Total(preds, rank, queue) + Weight(preds, rank, d)
  {
    assert (queue + [d])[..|queue|] == queue;
  }

  lemma {:induction false} TotalTail(preds: Preds, rank: Dir -> nat, queue: seq<Dir>)
    requires Acyclic(preds, rank) && queue != []
    ensures Total(preds, rank, queue) == Weight(preds, rank, queue[0]) + Total(preds, rank, queue[1..])
  {
    var k := |queue| - 1;
    if k > 0 {
      TotalTail(preds, rank, queue[..k]);
      assert queue[..k][1..] == queue[1..][..k - 1];
    }
  }

  // ---------- The worklist ----------

  /** Appends the files of a directory that are not listed yet. */
  method AddFiles(files: seq<Path>, d: Dir, names: Names) returns (r: seq<Path>)
    ensures files <= r && (Distinct(files) ==> Distinct(r))
    ensures forall f :: f in r <==> f in files || (f.dir == d && f.name in names(d))
  {
    r := files;
    for i := 0 to |names(d)|
      invariant files <= r && (Distinct(files) ==> Distinct(r))
      invariant forall f :: f in r <==> f in files || (f.dir == d && f.name in names(d)[..i])
    {
      var f := Path(d, names(d)[i]);
      assert names(d)[..i + 1] == names(d)[..i] + [names(d)[i]];
      if f !in r {
        r := r + [f];
      }
    }
    assert names(d)[..|names(d)|] == names(d);
  }

  /** A queue with each of some directories appended unless it is queued already. */
  function Queued(queue: seq<Dir>, ps: seq<Dir>): (r: seq<Dir>)
    ensures queue <= r && forall p :: p in r <==> p in queue || p in ps
  {
    if ps == [] then queue
    else
      var q, p := Queued(queue, ps[..|ps| - 1]), ps[|ps| - 1];
      assert ps == ps[..|ps| - 1] + [p];
      if p in q then q else q + [p]
  }

  /** Appends the predecessors of the directory at the head that are not queued yet. */
  method AddPreds(queue: seq<Dir>, preds: Preds) returns (r: seq<Dir>)
    requires queue != []
    ensures r == Queued(queue, preds(queue[0]))
  {
    var ps := preds(queue[0]);
    r := queue;
    for i := 0 to |ps|
      invariant r == Queued(queue, ps[..i])
    {
      assert ps[..i + 1][..i] == ps[..i];
      if ps[i] !in r {
        r := r + [ps[i]];
      }
    }
    assert ps[..|ps|] == ps;
  }

  /** They weigh less than the head they are queued for. */
  lemma {:induction false} QueuedWeight(preds: Preds, rank: Dir -> nat, queue: seq<Dir>, ps: seq<Dir>)
    requires queue != [] && Acyclic(preds, rank) && forall p :: p in ps ==> p in preds(queue[0])
    ensures Total(preds, rank, Queued(queue, ps)) <= Total(preds, rank, queue) + Sum(preds, rank, queue[0], ps)
  {
    if ps != [] {
      var init, p := ps[..|ps| - 1], ps[|ps| - 1];
      QueuedWeight(preds, rank, queue, init);
      if p !in Queued(queue, init) {
        assert queue[0] in queue;
        TotalSnoc(preds, rank, Queued(queue, init), p);
      }
    }
  }

  /** So a turn makes the queue lighter. */
  lemma TurnLightens(preds: Preds, rank: Dir -> nat, queue: seq<Dir>)
    requires queue != [] && Acyclic(preds, rank)
    ensures Total(preds, rank, Queued(queue, preds(queue[0]))[1..]) < Total(preds, rank, queue)
  {
    QueuedWeight(preds, rank, queue, preds(queue[0]));
    TotalTail(preds, rank, Queued(queue, preds(queue[0])));
  }

  /** What holds between two turns: everything reached is done or queued, and the files of what is done are listed. */
  ghost predicate Swept(preds: Preds, names: Names, start: seq<Dir>, files0: seq<Path>, files: seq<Path>,
                        queue: seq<Dir>, done: set<Dir>)
  {
    && (forall d :: d in start ==> d in done || d in queue)
    && (forall d, p :: d in done && p in preds(d) ==> p in done || p in queue)
    && (forall d :: d in done || d in queue ==> Reach(preds, start, d))
    && (forall f :: f in files <==> f in files0 || (f.dir in done && f.name in names(f.dir)))
  }

  lemma SweepStep(preds: Preds, names: Names, start: seq<Dir>, files0: seq<Path>, files: seq<Path>, queue: seq<Dir>,
                  done: set<Dir>, files': seq<Path>, queue': seq<Dir>)
    requires Swept(preds, names, start, files0, files, queue, done) && queue != [] && queue <= queue'
    requires forall p :: p in queue' <==> p in queue || p in preds(queue[0])
    requires forall f :: f in files' <==> f in files || (f.dir == queue[0] && f.name in names(queue[0]))
    ensures Swept(preds, names, start, files0, files', queue'[1..], done + {queue[0]})
  {
    var h := queue[0];
    assert queue' == [h] + queue'[1..];
    forall d | d in done + {h} || d in queue'[1..] ensures Reach(preds, start, d) {
      if d in preds(h) {
        ReachStep(preds, start, h, d);
      }
    }
  }

  lemma SweepEnds(preds: Preds, names: Names, start: seq<Dir>, files0: seq<Path>, files: seq<Path>, done: set<Dir>)
    requires Swept(preds, names, start, files0, files, [], done)
    ensures forall f :: f in files <==> f in files0 || (Reach(preds, start, f.dir) && f.name in names(f.dir))
  {
    forall d | Reach(preds, start, d) ensures d in done {
      var path :| From(preds, start, path, d);
      ClosedHoldsPath(preds, start, done, path, d);
    }
  }

  /** The while loop of list_files. */
  method Sweep(files0: seq<Path>, start: seq<Dir>, names: Names, preds: Preds, ghost rank: Dir -> nat)
    returns (files: seq<Path>)
    requires AcyclicFrom(preds, start, rank)
    ensures forall f :: f in files <==> f in files0 || (Reach(preds, start, f.dir) && f.name in names(f.dir))
    ensures files0 <= files && (Distinct(files0) ==> Distinct(files))
  {
    files := files0;
    var queue := start;
    ghost var reached := Within(preds, start);
    WithinAcyclic(preds, start, rank);
    ghost var done: set<Dir> := {};
    forall d | d in start ensures Reach(preds, start, d) {
      ReachStart(preds, start, d);
    }
    while queue != []
      invariant files0 <= files && (Distinct(files0) ==> Distinct(files))
      invariant Swept(preds, names, start, files0, files, queue, done)
      decreases Total(reached, rank, queue)
    {
      var files' := AddFiles(files, queue[0], names);
      var queue' := AddPreds(queue, preds);
      SweepStep(preds, names, start, files0, files, queue, done, files', queue');
      TurnLightens(reached, rank, queue);
      done := done + {queue[0]};
      files, queue := files', queue'[1..];
    }
    SweepEnds(preds, names, start, files0, files, done);
  }

  // ---------- The whole listing ----------

  function Paths(d: Dir, names: seq<string>): (ps: seq<Path>)
    ensures |ps| == |names| && forall i :: 0 <= i < |ps| ==> ps[i] == Path(d, names[i])
  {
    if names == [] then [] else Paths(d, names[..|names| - 1]) + [Path(d, names[|names| - 1])]
  }

  /** A list of exactly the files of some directories. */
  ghost predicate Scanned(files: seq<Path>, dirs: seq<Dir>, names: Names)
  {
    forall f :: f in files <==> f.dir in dirs && f.name in names(f.dir)
  }

  /** Of the first `k` directories only the last can have predecessors, and those are queued. */
  ghost predicate FirstPreds(dirs: seq<Dir>, k: nat, preds: Preds, queue: seq<Dir>)
    requires k <= |dirs|
  {
    (forall i :: 0 <= i < k - 1 ==> preds(dirs[i]) == []) && queue == if k == 0 then [] else preds(dirs[k - 1])
  }

  lemma FirstPredsStep(dirs: seq<Dir>, k: nat, preds: Preds)
    requires k < |dirs| && FirstPreds(dirs, k, preds, [])
    ensures FirstPreds(dirs, k + 1, preds, [] + preds(dirs[k]))
  {
    assert [] + preds(dirs[k]) == preds(dirs[k]);
  }

  /** Scans directories up to the first that has predecessors. */
  method Scan(dirs: seq<Dir>, names: Names, preds: Preds) returns (files: seq<Path>, queue: seq<Dir>, k: nat)
    requires forall d :: Distinct(names(d))
    ensures k <= |dirs| && FirstPreds(dirs, k, preds, queue) && (k < |dirs| ==> queue != [])
    ensures Scanned(files, dirs[..k], names)
    ensures Distinct(dirs) ==> Distinct(files)
  {
    files, queue, k := [], [], 0;
    while k < |dirs| && queue == []
      invariant k <= |dirs| && FirstPreds(dirs, k, preds, queue)
      invariant Scanned(files, dirs[..k], names)
      invariant Distinct(dirs) ==> Distinct(files)
    {
      ScanStep(dirs, k, names, files);
      FirstPredsStep(dirs, k, preds);
      files := files + Paths(dirs[k], names(dirs[k]));
      queue := queue + preds(dirs[k]);
      k := k + 1;
    }
  }

  lemma PathsMember(d: Dir, names: seq<string>, f: Path)
    ensures f in Paths(d, names) <==> f.dir == d && f.name in names
  {
    if f.dir == d && f.name in names {
      var i :| 0 <= i < |names| && names[i] == f.name;
      assert Paths(d, names)[i] == f;
    }
  }

  lemma ScanStep(dirs: seq<Dir>, k: nat, names: Names, files: seq<Path>)
    requires k < |dirs| && Distinct(names(dirs[k]))
    requires Scanned(files, dirs[..k], names)
    ensures var files' := files + Paths(dirs[k], names(dirs[k]));
      && Scanned(files', dirs[..k + 1], names)
      && (Distinct(dirs) && Distinct(files) ==> Distinct(files'))
  {
    var d := dirs[k];
    var more := Paths(d, names(d));
    assert dirs[..k + 1] == dirs[..k] + [d];
    forall f ensures f in more <==> f.dir == d && f.name in names(d) {
      PathsMember(d, names(d), f);
    }
    assert Distinct(dirs) ==> d !in dirs[..k];
    assert forall i :: 0 <= i < |files| ==> files[i] in files;
  }

  /** Starting from the scanned directories reaches them and what their predecessors reach. */
  lemma ReachFromScanned(preds: Preds, scanned: seq<Dir>, d: Dir)
    requires scanned != [] ==> forall i :: 0 <= i < |scanned| - 1 ==> preds(scanned[i]) == []
    ensures Reach(preds, scanned, d) <==>
      d in scanned || (scanned != [] && Reach(preds, preds(scanned[|scanned| - 1]), d))
  {
    if d in scanned {
      ReachStart(preds, scanned, d);
    }
    if Reach(preds, scanned, d) && d !in scanned {
      var path :| From(preds, scanned, path, d);
      assert path[1] in preds(path[0]);
      var i :| 0 <= i < |scanned| && scanned[i] == path[0];
      assert From(preds, preds(scanned[|scanned| - 1]), path[1..], d);
    }
    if scanned != [] && Reach(preds, preds(scanned[|scanned| - 1]), d) {
      var path :| From(preds, preds(scanned[|scanned| - 1]), path, d);
      assert From(preds, scanned, [scanned[|scanned| - 1]] + path, d);
    }
  }

  lemma NarrowerIsAcyclic(preds: Preds, dirs: seq<Dir>, d: Dir, rank: Dir -> nat)
    requires d in dirs && AcyclicFrom(preds, dirs, rank)
    ensures AcyclicFrom(preds, preds(d), rank)
  {
    forall x | Reach(preds, preds(d), x) ensures Reach(preds, dirs, x) {
      var path :| From(preds, preds(d), path, x);
      assert From(preds, dirs, [d] + path, x);
    }
  }

  /** list_files: the files of the scanned directories and of all their transitive predecessors, each once. */
  method ListFiles(dirs: seq<Dir>, names: Names, preds: Preds, ghost rank: Dir -> nat)
    returns (files: seq<Path>, k: nat)
    requires AcyclicFrom(preds, dirs, rank) && forall d :: Distinct(names(d))
    ensures k <= |dirs| && (forall i :: 0 <= i < k - 1 ==> preds(dirs[i]) == [])
    ensures k < |dirs| ==> k > 0 && preds(dirs[k - 1]) != []
    ensures forall f :: f in files <==> Reach(preds, dirs[..k], f.dir) && f.name in names(f.dir)
    ensures Distinct(dirs) ==> Distinct(files)
  {
    var queue;
    files, queue, k := Scan(dirs, names, preds);
    var files0 := files;
    if k > 0 {
      assert dirs[k - 1] in dirs;
      NarrowerIsAcyclic(preds, dirs, dirs[k - 1], rank);
    }
    files := Sweep(files0, queue, names, preds, rank);
    forall d ensures Reach(preds, dirs[..k], d) <==> d in dirs[..k] || Reach(preds, queue, d) {
      ReachFromScanned(preds, dirs[..k], d);
    }
  }

  // ---------- Cycles ----------

  /** The queue after one turn, as a function. */
  function Turn(queue: seq<Dir>, preds: Preds): seq<Dir>
    requires queue != []
  {
    Queued(queue, preds(queue[0]))[1..]
  }

  /** Directories each of which has another of them as a predecessor. */
  ghost predicate Trap(preds: Preds, trap: set<Dir>)
  {
    forall d {:trigger preds(d)} :: d in trap ==> exists p :: p in preds(d) && p in trap && p != d
  }

  ghost predicate Meets(queue: seq<Dir>, trap: set<Dir>)
  {
    exists i :: 0 <= i < |queue| && queue[i] in trap
  }

  /** Once such a directory is queued the worklist never runs empty. */
  lemma TrapHolds(queue: seq<Dir>, preds: Preds, trap: set<Dir>)
    requires Trap(preds, trap) && Meets(queue, trap)
    ensures queue != [] && Meets(Turn(queue, preds), trap)
  {
    var i :| 0 <= i < |queue| && queue[i] in trap;
    var r := Queued(queue, preds(queue[0]));
    if i > 0 {
      assert r[1..][i - 1] == queue[i];
    } else {
      var p :| p in preds(queue[0]) && p in trap && p != queue[0];
      var j :| 0 <= j < |r| && r[j] == p;
      assert r[1..][j - 1] == p;
    }
  }

  ghost function Turns(queue: seq<Dir>, preds: Preds, n: nat): seq<Dir>
    decreases n
  {
    if n == 0 || queue == [] then queue else Turns(Turn(queue, preds), preds, n - 1)
  }

  lemma {:induction false} CyclesNeverEnd(queue: seq<Dir>, preds: Preds, trap: set<Dir>, n: nat)
    requires Trap(preds, trap) && Meets(queue, trap)
    ensures Turns(queue, preds, n) != []
    decreases n
  {
    TrapHolds(queue, preds, trap);
    if n > 0 {
      CyclesNeverEnd(Turn(queue, preds), preds, trap, n - 1);
    }
  }

  // ---------- When the worklist ends ----------

  lemma {:induction false} TurnsStep(queue: seq<Dir>, preds: Preds, n: nat)
    ensures var q := Turns(queue, preds, n); Turns(queue, preds, n + 1) == if q == [] then [] else Turn(q, preds)
    decreases n
  {
    if n > 0 && queue != [] {
      TurnsStep(Turn(queue, preds), preds, n - 1);
    }
  }

  lemma {:induction false} StaysEmpty(queue: seq<Dir>, preds: Preds, n: nat, m: nat)
    requires n <= m && Turns(queue, preds, n) == []
    ensures Turns(queue, preds, m) == []
    decreases m
  {
    if n < m {
      StaysEmpty(queue, preds, n, m - 1);
      TurnsStep(queue, preds, m - 1);
    }
  }

  /** `part` agrees with the relation on some directories and, with each, on its predecessors. */
  ghost predicate Closed(preds: Preds, part: Preds)
  {
    forall d, p :: part(d) == preds(d) && p in preds(d) ==> part(p) == preds(p)
  }

  ghost predicate Agrees(preds: Preds, part: Preds, queue: seq<Dir>)
  {
    forall d :: d in queue ==> part(d) == preds(d)
  }

  lemma TurnAgrees(preds: Preds, part: Preds, queue: seq<Dir>)
    requires queue != [] && Closed(preds, part) && Agrees(preds, part, queue)
    ensures part(queue[0]) == preds(queue[0]) && Agrees(preds, part, Turn(queue, preds))
  {
    assert queue[0] in queue;
  }

  lemma WithinClosed(preds: Preds, start: seq<Dir>)
    ensures Closed(preds, Within(preds, start)) && Agrees(preds, Within(preds, start), start)
  {
    var part := Within(preds, start);
    forall d, p | part(d) == preds(d) && p in preds(d) ensures part(p) == preds(p) {
      ReachStep(preds, start, d, p);
    }
    forall d | d in start ensures part(d) == preds(d) {
      ReachStart(preds, start, d);
    }
  }

  /** With a rank the queue is empty after as many turns as it weighs. */
  lemma {:induction false} EndsInTime(preds: Preds, part: Preds, rank: Dir -> nat, queue: seq<Dir>)
    requires Acyclic(part, rank) && Closed(preds, part) && Agrees(preds, part, queue)
    ensures Turns(queue, preds, Total(part, rank, queue)) == []
    decreases Total(part, rank, queue)
  {
    if queue != [] {
      var next := Turn(queue, preds);
      TurnAgrees(preds, part, queue);
      TurnLightens(part, rank, queue);
      EndsInTime(preds, part, rank, next);
      StaysEmpty(next, preds, Total(part, rank, next), Total(part, rank, queue) - 1);
    }
  }

  ghost predicate Taken(start: seq<Dir>, preds: Preds, k: nat, d: Dir)
  {
    var q := Turns(start, preds, k);
    q != [] && q[0] == d
  }

  /** The last of the first `n` turns at which a directory is taken from the queue, or -1. */
  ghost function LastTaken(start: seq<Dir>, preds: Preds, d: Dir, n: nat): (k: int)
    ensures -1 <= k < n && (k >= 0 ==> Taken(start, preds, k, d))
  {
    if n == 0 then -1
    else if Taken(start, preds, n - 1, d) then n - 1
    else LastTaken(start, preds, d, n - 1)
  }

  lemma {:induction false} LastIsLast(start: seq<Dir>, preds: Preds, d: Dir, n: nat, k: nat)
    requires k < n && Taken(start, preds, k, d)
    ensures LastTaken(start, preds, d, n) >= k
  {
    if k < n - 1 {
      LastIsLast(start, preds, d, n - 1, k);
    }
  }

  /** What is in the queue is taken from it later, if the queue becomes empty. */
  lemma {:induction false} TakenLater(start: seq<Dir>, preds: Preds, d: Dir, n: nat, k: nat)
    requires k <= n && Turns(start, preds, n) == [] && d in Turns(start, preds, k)
    ensures LastTaken(start, preds, d, n) >= k
    decreases n - k
  {
    if Taken(start, preds, k, d) {
      LastIsLast(start, preds, d, n, k);
    } else {
      var q := Turns(start, preds, k);
      TurnsStep(start, preds, k);
      InTurn(q, preds, d);
      TakenLater(start, preds, d, n, k + 1);
    }
  }

  /** A turn takes the head away and nothing else, and queues its predecessors. */
  lemma InTurn(queue: seq<Dir>, preds: Preds, d: Dir)
    requires queue != [] && queue[0] != d
    ensures d in Turn(queue, preds) <==> d in queue || d in preds(queue[0])
  {
    var r := Queued(queue, preds(queue[0]));
    assert r == [queue[0]] + r[1..];
  }

  /** A predecessor is taken after the last time its successor is. */
  lemma PredecessorLater(start: seq<Dir>, preds: Preds, n: nat, d: Dir, p: Dir)
    requires Turns(start, preds, n) == [] && p in preds(d) && p != d && LastTaken(start, preds, d, n) >= 0
    ensures LastTaken(start, preds, p, n) > LastTaken(start, preds, d, n)
  {
    var k := LastTaken(start, preds, d, n);
    TurnsStep(start, preds, k);
    InTurn(Turns(start, preds, k), preds, p);
    TakenLater(start, preds, p, n, k + 1);
  }

  /** Everything that can be reached is taken at some time. */
  lemma {:induction false} ReachedIsTaken(start: seq<Dir>, preds: Preds, n: nat, path: seq<Dir>, d: Dir)
    requires Turns(start, preds, n) == [] && From(preds, start, path, d)
    ensures LastTaken(start, preds, d, n) >= 0
    decreases |path|
  {
    var k := |path| - 1;
    if k == 0 {
      assert Turns(start, preds, 0) == start;
      TakenLater(start, preds, d, n, 0);
    } else {
      assert From(preds, start, path[..k], path[k - 1]);
      ReachedIsTaken(start, preds, n, path[..k], path[k - 1]);
      if d != path[k - 1] {
        PredecessorLater(start, preds, n, path[k - 1], d);
      }
    }
  }

  ghost function RankBy(start: seq<Dir>, preds: Preds, n: nat): Dir -> nat
  {
    d => n - LastTaken(start, preds, d, n)
  }

  lemma EndingRanks(start: seq<Dir>, preds: Preds, n: nat)
    requires Turns(start, preds, n) == []
    ensures AcyclicFrom(preds, start, RankBy(start, preds, n))
  {
    forall d, p | Reach(preds, start, d) && p in preds(d) && p != d
      ensures RankBy(start, preds, n)(p) < RankBy(start, preds, n)(d)
    {
      var path :| From(preds, start, path, d);
      ReachedIsTaken(start, preds, n, path, d);
      PredecessorLater(start, preds, n, d, p);
    }
  }

  /** The worklist runs empty if and only if what can be reached has no cycle. */
  lemma EndsIff(start: seq<Dir>, preds: Preds)
    ensures (exists n: nat :: Turns(start, preds, n) == []) <==> exists rank :: AcyclicFrom(preds, start, rank)
  {
    if n: nat :| Turns(start, preds, n) == [] {
      EndingRanks(start, preds, n);
    }
    if rank :| AcyclicFrom(preds, start, rank) {
      WithinAcyclic(preds, start, rank);
      WithinClosed(preds, start);
      EndsInTime(preds, Within(preds, start), rank, start);
    }
  }
}
