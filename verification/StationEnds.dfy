/** A station in which nothing fails always comes to an end: whatever its threads have done so far, finitely many
    more steps make it return 0. */
module StationEnds {
  import opened Station

  /** Nobody asks to stop, nothing fails and no thread dies. */
  predicate Calm(a: Action)
  {
    match a
    case Stop => false
    case MainAct(result) => result == 0
    case WorkAct(_, result, crash) => result == 0 && !crash
  }

  ghost predicate AllCalm(acts: seq<Action>)
  {
    forall i :: 0 <= i < |acts| ==> Calm(acts[i])
  }

  ghost predicate Held(workers: seq<WorkerPc>, t: nat)
  {
    exists i :: 0 <= i < |workers| && Holding(workers[i]) && workers[i].t == t
  }

  /** Every task taken is in somebody's hands or done. */
  ghost predicate Accounted(workers: seq<WorkerPc>, taken: nat, completed: set<nat>)
  {
    forall t: nat :: t < taken ==> t in completed || Held(workers, t)
  }

  ghost predicate NoneDead(workers: seq<WorkerPc>)
  {
    forall i :: 0 <= i < |workers| ==> !workers[i].Dead?
  }

  ghost predicate Lively(s: State, rounds: seq<nat>, n: nat)
  {
    && Inv(s, rounds) && AllGood(s) && !s.stop && |s.workers| == n
    && NoneDead(s.workers) && Accounted(s.workers, s.taken, s.completed)
  }

  lemma LivelyMain(s: State, rounds: seq<nat>, n: nat)
    requires Lively(s, rounds, n)
    ensures Lively(MainStep(s, rounds, 0), rounds, n)
  {
    MainKeeps(s, rounds, 0);
    GoodMain(s, rounds);
    MainAside(s, rounds, 0);
  }

  lemma MainAside(s: State, rounds: seq<nat>, result: nat)
    ensures var t := MainStep(s, rounds, result);
      t.workers == s.workers && t.taken == s.taken && t.completed == s.completed && t.stop == s.stop
  {
  }

  /** A worker whose task stays in its hands, or that has none. */
  lemma HandsStay(workers: seq<WorkerPc>, w: nat, pc: WorkerPc, t: nat)
    requires w < |workers| && Held(workers, t) && (Holding(workers[w]) ==> Holding(pc) && pc.t == workers[w].t)
    ensures Held(workers[w := pc], t)
  {
    var i :| 0 <= i < |workers| && Holding(workers[i]) && workers[i].t == t;
    assert Holding(workers[w := pc][i]) && workers[w := pc][i].t == t;
  }

  lemma OthersStay(workers: seq<WorkerPc>, w: nat, pc: WorkerPc, t: nat)
    requires w < |workers| && Held(workers, t) && (Holding(workers[w]) ==> workers[w].t != t)
    ensures Held(workers[w := pc], t)
  {
    var i :| 0 <= i < |workers| && Holding(workers[i]) && workers[i].t == t;
    assert workers[w := pc][i] == workers[i];
  }

  /** What a calm step of a worker that can move makes of it. */
  function Next(pc: WorkerPc, taken: nat): WorkerPc
  {
    match pc
    case Top => Get
    case Get => Pumping(taken)
    case Pumping(t) => Check(t, 0)
    case Check(t, _) => Finish(t)
    case Set(t, _) => Finish(t)
    case Finish(_) => Top
    case Dead => Dead
  }

  predicate CanMove(s: State, w: nat)
    requires w < |s.workers|
  {
    !s.workers[w].Dead? && (s.workers[w].Get? ==> s.taken < s.puts)
  }

  lemma WorkMoves(s: State, rounds: seq<nat>, n: nat, w: nat)
    requires Lively(s, rounds, n) && w < n && CanMove(s, w)
    ensures var t := WorkStep(s, w, 0, false);
      && t.workers == s.workers[w := Next(s.workers[w], s.taken)] && t.main == s.main && t.puts == s.puts
      && t.taken == (if s.workers[w].Get? then s.taken + 1 else s.taken) && t.stop == s.stop
      && t.completed == (if s.workers[w].Finish? then s.completed + {s.workers[w].t} else s.completed)
  {
    if s.workers[w].Finish? {
      FinishSafe(s, w);
    }
  }

  lemma AccountedMoves(workers: seq<WorkerPc>, taken: nat, completed: set<nat>, w: nat)
    requires w < |workers| && Accounted(workers, taken, completed) && !workers[w].Dead?
    ensures Accounted(workers[w := Next(workers[w], taken)], if workers[w].Get? then taken + 1 else taken,
                      if workers[w].Finish? then completed + {workers[w].t} else completed)
  {
    var pc := Next(workers[w], taken);
    var moved := workers[w := pc];
    if workers[w].Get? {
      assert Holding(moved[w]) && moved[w].t == taken;
    }
    forall t: nat | t < taken && t !in completed && !(workers[w].Finish? && workers[w].t == t)
      ensures Held(moved, t)
    {
      if workers[w].Finish? {
        OthersStay(workers, w, pc, t);
      } else {
        HandsStay(workers, w, pc, t);
      }
    }
  }

  lemma LivelyWork(s: State, rounds: seq<nat>, n: nat, w: nat)
    requires Lively(s, rounds, n) && w < n
    ensures Lively(WorkStep(s, w, 0, false), rounds, n)
  {
    if CanMove(s, w) {
      WorkKeeps(s, rounds, w, 0, false);
      GoodWork(s, w, false);
      WorkMoves(s, rounds, n, w);
      AccountedMoves(s.workers, s.taken, s.completed, w);
    }
  }

  lemma {:induction false} CalmRun(n: nat, rounds: seq<nat>, acts: seq<Action>)
    requires AllCalm(acts)
    ensures Lively(Run(n, rounds, acts), rounds, n)
  {
    RunInv(n, rounds, acts);
    if acts != [] {
      var k := |acts| - 1;
      var s := Run(n, rounds, acts[..k]);
      CalmRun(n, rounds, acts[..k]);
      assert Calm(acts[k]);
      match acts[k]
      case MainAct(_) => LivelyMain(s, rounds, n);
      case WorkAct(w, _, _) =>
        if w < n {
          LivelyWork(s, rounds, n, w);
        }
    }
  }

  // ---------- How far it is from the end ----------

  function Rank(pc: WorkerPc): nat
  {
    match pc
    case Get => 0
    case Top => 1
    case Finish(_) => 2
    case Set(_, _) => 3
    case Check(_, _) => 4
    case Pumping(_) => 5
    case Dead => 0
  }

  function RankSum(workers: seq<WorkerPc>): nat
  {
    if workers == [] then 0 else RankSum(workers[..|workers| - 1]) + Rank(workers[|workers| - 1])
  }

  lemma {:induction false} RankUpdate(workers: seq<WorkerPc>, w: nat, pc: WorkerPc)
    requires w < |workers|
    ensures RankSum(workers[w := pc]) + Rank(workers[w]) == RankSum(workers) + Rank(pc)
  {
    var k := |workers| - 1;
    if w < k {
      RankUpdate(workers[..k], w, pc);
      assert workers[w := pc][..k] == workers[..k][w := pc];
    } else {
      assert workers[w := pc][..k] == workers[..k];
    }
  }

  /** The steps the main thread still has to make, from the head of a round. */
  function Left(rounds: seq<nat>, r: nat): nat
    decreases |rounds| - r
  {
    if r >= |rounds| then 1 else 2 * rounds[r] + 3 + Left(rounds, r + 1)
  }

  function MainRank(main: MainPc, rounds: seq<nat>): int
  {
    match main
    case Put(r, i) => Left(rounds, r) - 2 * i
    case Total(r, i) => Left(rounds, r) - 2 * i - 1
    case Wait(r) => Left(rounds, r + 1) + 2
    case ReadRv(r) => Left(rounds, r + 1) + 1
    case Return(_) => 0
  }

  lemma MainRankPositive(s: State, rounds: seq<nat>)
    requires MainAt(s, rounds)
    ensures MainRank(s.main, rounds) >= 0
  {
  }

  /** The main thread moves on when it is neither blocked by a full queue nor waiting for a task. */
  lemma MainMoves(s: State, rounds: seq<nat>)
    requires MainAt(s, rounds) && !s.main.Return? && s.rv == 0 && s.taken == s.puts
    requires s.main.Wait? ==> s.unfinished == 0
    ensures MainRank(MainStep(s, rounds, 0).main, rounds) < MainRank(s.main, rounds)
  {
  }

  lemma {:induction false} AllOf(s: set<nat>, n: nat)
    requires forall t: nat :: t < n ==> t in s
    ensures |s| >= n
  {
    if n > 0 {
      AllOf(s - {n - 1}, n - 1);
      assert |s| == |s - {n - 1}| + 1;
    }
  }

  /** With every worker idle and the queue empty, no task is unfinished. */
  lemma NothingUnfinished(s: State, rounds: seq<nat>, n: nat)
    requires Lively(s, rounds, n) && s.taken == s.puts && forall i :: 0 <= i < n ==> s.workers[i].Get?
    ensures s.unfinished == 0
  {
    forall t: nat | t < s.taken ensures t in s.completed {
      assert !Held(s.workers, t);
    }
    AllOf(s.completed, s.taken);
    CountBelow(s.completed, s.taken);
  }

  ghost function Work(s: State): int
  {
    6 * (s.puts - s.taken) + RankSum(s.workers)
  }

  lemma WorkLessens(s: State, rounds: seq<nat>, n: nat, w: nat)
    requires Lively(s, rounds, n) && w < n && CanMove(s, w)
    ensures var t := WorkStep(s, w, 0, false); Work(t) < Work(s) && t.main == s.main
  {
    WorkMoves(s, rounds, n, w);
    RankUpdate(s.workers, w, Next(s.workers[w], s.taken));
  }

  /** Whichever thread can move, one that brings the end nearer. */
  ghost predicate Nearer(t: State, s: State, rounds: seq<nat>)
  {
    || MainRank(t.main, rounds) < MainRank(s.main, rounds)
    || (t.main == s.main && Work(t) < Work(s))
  }

  lemma SomeMove(s: State, rounds: seq<nat>, n: nat) returns (a: Action)
    requires Lively(s, rounds, n) && n > 0 && !s.main.Return?
    ensures Calm(a) && Nearer(Step(s, rounds, a), s, rounds)
  {
    if w: nat :| w < n && !s.workers[w].Get? {
      WorkLessens(s, rounds, n, w);
      a := WorkAct(w, 0, false);
    } else if s.taken < s.puts {
      WorkLessens(s, rounds, n, 0);
      a := WorkAct(0, 0, false);
    } else {
      NothingUnfinished(s, rounds, n);
      MainMoves(s, rounds);
      a := MainAct(0);
    }
  }

  ghost function Rest(n: nat, rounds: seq<nat>, acts: seq<Action>): (int, int)
  {
    var s := Run(n, rounds, acts);
    (MainRank(s.main, rounds), Work(s))
  }

  lemma RestPositive(n: nat, rounds: seq<nat>, acts: seq<Action>)
    ensures Rest(n, rounds, acts).0 >= 0 && Rest(n, rounds, acts).1 >= 0
  {
    RunInv(n, rounds, acts);
    MainRankPositive(Run(n, rounds, acts), rounds);
  }

  /** A calm run that has not returned can go on, and comes nearer to its end. */
  lemma Advance(n: nat, rounds: seq<nat>, acts: seq<Action>) returns (a: Action)
    requires n > 0 && AllCalm(acts) && !Run(n, rounds, acts).main.Return?
    ensures AllCalm(acts + [a])
    ensures var was, now := Rest(n, rounds, acts), Rest(n, rounds, acts + [a]);
      now.0 < was.0 || (now.0 == was.0 && now.1 < was.1)
  {
    CalmRun(n, rounds, acts);
    a := SomeMove(Run(n, rounds, acts), rounds, n);
    RunSnoc(n, rounds, acts, a);
  }

  lemma CalmReturns(n: nat, rounds: seq<nat>, acts: seq<Action>)
    requires AllCalm(acts) && Run(n, rounds, acts).main.Return?
    ensures Run(n, rounds, acts).main == Return(0)
  {
    CalmRun(n, rounds, acts);
  }

  lemma AdvanceTo(n: nat, rounds: seq<nat>, acts: seq<Action>, x: nat, y: nat) returns (a: Action, x': nat, y': nat)
    requires n > 0 && AllCalm(acts) && !Run(n, rounds, acts).main.Return? && Rest(n, rounds, acts) == (x, y)
    ensures AllCalm(acts + [a]) && Rest(n, rounds, acts + [a]) == (x', y')
    ensures x' < x || (x' == x && y' < y)
  {
    a := Advance(n, rounds, acts);
    RestPositive(n, rounds, acts + [a]);
    x', y' := Rest(n, rounds, acts + [a]).0, Rest(n, rounds, acts + [a]).1;
  }

  ghost predicate Finishes(n: nat, rounds: seq<nat>, acts: seq<Action>)
  {
    AllCalm(acts) && Run(n, rounds, acts).main == Return(0)
  }

  lemma NoMore(n: nat, rounds: seq<nat>, acts: seq<Action>)
    requires AllCalm(acts) && Run(n, rounds, acts).main.Return?
    ensures Finishes(n, rounds, acts + [])
  {
    assert acts + [] == acts;
    CalmReturns(n, rounds, acts);
  }

  lemma Regroup(acts: seq<Action>, a: Action, rest: seq<Action>)
    ensures acts + ([a] + rest) == (acts + [a]) + rest
  {
  }

  lemma {:induction false} FinishFrom(n: nat, rounds: seq<nat>, acts: seq<Action>, x: nat, y: nat)
    returns (more: seq<Action>)
    requires n > 0 && AllCalm(acts) && Rest(n, rounds, acts) == (x, y)
    ensures Finishes(n, rounds, acts + more)
    decreases x, y
  {
    if Run(n, rounds, acts).main.Return? {
      more := [];
      NoMore(n, rounds, acts);
    } else {
      var a, x', y' := AdvanceTo(n, rounds, acts, x, y);
      var rest := FinishFrom(n, rounds, acts + [a], x', y');
      more := [a] + rest;
      Regroup(acts, a, rest);
    }
  }

  /** However far a calm run has got, with any number of workers, it can be finished, and then it returns 0. */
  lemma CalmRunsFinish(n: nat, rounds: seq<nat>, acts: seq<Action>) returns (more: seq<Action>)
    requires n > 0 && AllCalm(acts)
    ensures AllCalm(acts + more) && Run(n, rounds, acts + more).main == Return(0)
  {
    RestPositive(n, rounds, acts);
    more := FinishFrom(n, rounds, acts, Rest(n, rounds, acts).0, Rest(n, rounds, acts).1);
  }
}
