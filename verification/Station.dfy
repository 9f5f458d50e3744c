/** PumpingStation: the main thread enqueues one task per source node, bucket after bucket, and N worker
    threads pump them, sharing a counting queue and the unsynchronised result slot ctl['rv']. Every
    interleaving of their atomic steps is a list of actions. */
module Station {

  /** Tasks are numbered in the order they are put; the queue holds the numbers taken .. puts - 1. */
  datatype WorkerPc =
    | Top | Get | Pumping(t: nat)
    | Check(t: nat, rv: nat)   // about to read ctl['rv']
    | Set(t: nat, rv: nat)     // about to write it, having read 0
    | Finish(t: nat)           // about to call task_done
    | Dead

  /** Round r is the r-th bucket; `Put` and `Total` are the two calls of the enqueueing loop. */
  datatype MainPc = Put(r: nat, i: nat) | Total(r: nat, i: nat) | Wait(r: nat) | ReadRv(r: nat) | Return(rv: nat)

  datatype State = State(
    stop: bool, rv: nat,
    puts: nat, taken: nat, unfinished: int, raised: bool,  // raised: task_done() called too many times
    pumped: seq<nat>,           // tasks in the order workers picked them up
    outcome: map<nat, nat>,     // what each Pump.run returned; 0 is success
    completed: set<nat>,        // tasks marked done
    workers: seq<WorkerPc>, main: MainPc)

  /** `result` is what Pump.run or total_msgs returns, if the step ends such a call; a `crash` is an
      exception, after which the thread is gone and its task never marked done. */
  datatype Action = Stop | MainAct(result: nat) | WorkAct(w: nat, result: nat, crash: bool)

  function Init(n: nat): State
  {
    State(false, 0, 0, 0, 0, false, [], map[], {}, seq(n, _ => Top), Put(0, 0))
  }

  function MainStep(s: State, rounds: seq<nat>, result: nat): State
  {
    match s.main
    case Put(r, i) =>
      if r >= |rounds| then s.(main := Return(0))
      else if i >= rounds[r] then s.(main := Wait(r))
      else if rounds[0] > 0 && s.puts - s.taken >= rounds[0] then s  // a full queue blocks
      else s.(puts := s.puts + 1, unfinished := s.unfinished + 1, main := Total(r, i))
    case Total(r, i) => s.(main := if result != 0 then Return(result) else Put(r, i + 1))
    case Wait(r) => if s.unfinished == 0 then s.(main := ReadRv(r)) else s
    case ReadRv(r) => s.(main := if s.rv != 0 then Return(s.rv) else Put(r + 1, 0))
    case Return(_) => s
  }

  function WorkStep(s: State, w: nat, result: nat, crash: bool): State
    requires w < |s.workers|
  {
    match s.workers[w]
    case Top => s.(workers := s.workers[w := if s.stop then Dead else Get])
    case Get =>
      if s.taken < s.puts then
        s.(workers := s.workers[w := Pumping(s.taken)], taken := s.taken + 1, pumped := s.pumped + [s.taken])
      else s
    case Pumping(t) =>
      if crash then s.(workers := s.workers[w := Dead])
      else s.(workers := s.workers[w := Check(t, result)], outcome := s.outcome[t := result])
    case Check(t, rv) => s.(workers := s.workers[w := if s.rv == 0 && rv != 0 then Set(t, rv) else Finish(t)])
    case Set(t, rv) => s.(workers := s.workers[w := Finish(t)], rv := rv)
    case Finish(t) =>
      if s.unfinished - 1 < 0 then s.(raised := true, workers := s.workers[w := Dead])
      else s.(unfinished := s.unfinished - 1, completed := s.completed + {t}, workers := s.workers[w := Top])
    case Dead => s
  }

  function Step(s: State, rounds: seq<nat>, a: Action): State
  {
    match a
    case Stop => s.(stop := true)
    case MainAct(result) => MainStep(s, rounds, result)
    case WorkAct(w, result, crash) => if w < |s.workers| then WorkStep(s, w, result, crash) else s
  }

  function Run(n: nat, rounds: seq<nat>, acts: seq<Action>): State
  {
    if acts == [] then Init(n) else Step(Run(n, rounds, acts[..|acts| - 1]), rounds, acts[|acts| - 1])
  }

  // ---------- The invariant ----------

  function Sum(rounds: seq<nat>): nat
  {
    if rounds == [] then 0 else Sum(rounds[..|rounds| - 1]) + rounds[|rounds| - 1]
  }

  predicate Holding(w: WorkerPc)
  {
    w.Pumping? || w.Check? || w.Set? || w.Finish?
  }

  ghost predicate Below(s: set<nat>, n: nat)
  {
    forall t :: t in s ==> t < n
  }

  /** What the tasks of the finished rounds have come to. */
  ghost predicate Settled(outcome: map<nat, nat>, completed: set<nat>, n: nat)
  {
    forall t: nat :: t < n ==> t in completed && t in outcome && outcome[t] == 0
  }

  ghost predicate MainAt(s: State, rounds: seq<nat>)
  {
    match s.main
    case Put(r, i) => r <= |rounds| && (if r < |rounds| then i <= rounds[r] else i == 0)
                      && s.puts == Sum(rounds[..r]) + i && Settled(s.outcome, s.completed, Sum(rounds[..r]))
    case Total(r, i) => r < |rounds| && i < rounds[r]
                        && s.puts == Sum(rounds[..r]) + i + 1 && Settled(s.outcome, s.completed, Sum(rounds[..r]))
    case Wait(r) => r < |rounds| && s.puts == Sum(rounds[..r + 1])
    case ReadRv(r) => r < |rounds| && s.puts == Sum(rounds[..r + 1]) && s.unfinished == 0
    case Return(rv) => rv == 0 ==> s.puts == Sum(rounds) && Settled(s.outcome, s.completed, s.puts)
  }

  ghost predicate QueueOk(s: State)
  {
    && s.taken <= s.puts && |s.pumped| == s.taken && (forall k :: 0 <= k < s.taken ==> s.pumped[k] == k)
    && Below(s.outcome.Keys, s.taken) && Below(s.completed, s.taken)
    && s.unfinished == s.puts - |s.completed| && !s.raised
  }

  /** Every task is in at most one pair of hands, and in none once it is marked done. */
  ghost predicate HandsOk(workers: seq<WorkerPc>, taken: nat, completed: set<nat>)
  {
    && (forall i :: 0 <= i < |workers| && Holding(workers[i]) ==> workers[i].t < taken && workers[i].t !in completed)
    && (forall i, j :: 0 <= i < j < |workers| && Holding(workers[i]) && Holding(workers[j]) ==>
        workers[i].t != workers[j].t)
  }

  /** A failure is in ctl['rv'] before its task is marked done, and only failures are ever put there. */
  ghost predicate RvOk(rv: nat, outcome: map<nat, nat>, completed: set<nat>, workers: seq<WorkerPc>)
  {
    && (rv != 0 ==> rv in outcome.Values)
    && (forall t :: t in completed ==> t in outcome && (outcome[t] != 0 ==> rv != 0))
    && (forall i :: 0 <= i < |workers| ==> WorkerRvOk(workers[i], rv, outcome))
  }

  ghost predicate WorkerRvOk(w: WorkerPc, rv: nat, outcome: map<nat, nat>)
  {
    match w
    case Pumping(t) => t !in outcome
    case Check(t, r) => t in outcome && outcome[t] == r
    case Set(t, r) => t in outcome && outcome[t] == r != 0
    case Finish(t) => t in outcome && (outcome[t] != 0 ==> rv != 0)
    case _ => true
  }

  ghost predicate Inv(s: State, rounds: seq<nat>)
  {
    && MainAt(s, rounds) && QueueOk(s)
    && HandsOk(s.workers, s.taken, s.completed) && RvOk(s.rv, s.outcome, s.completed, s.workers)
  }

  lemma {:induction false} CountBelow(s: set<nat>, n: nat)
    requires Below(s, n)
    ensures |s| <= n && (|s| == n ==> forall t: nat :: t < n ==> t in s)
  {
    if n > 0 {
      CountBelow(s - {n - 1}, n - 1);
      if n - 1 in s {
        assert |s| == |s - {n - 1}| + 1;
      } else {
        assert s - {n - 1} == s;
      }
    } else {
      assert s == {};
    }
  }

  lemma RoundDone(s: State)
    requires QueueOk(s) && RvOk(s.rv, s.outcome, s.completed, s.workers) && s.unfinished == 0 && s.rv == 0
    ensures Settled(s.outcome, s.completed, s.puts)
  {
    CountBelow(s.completed, s.taken);
  }

  lemma MainKeeps(s: State, rounds: seq<nat>, result: nat)
    requires Inv(s, rounds)
    ensures Inv(MainStep(s, rounds, result), rounds)
  {
    match s.main {
      case Put(r, i) =>
        if r < |rounds| {
          assert rounds[..r + 1][..r] == rounds[..r];
        } else {
          assert rounds[..r] == rounds;
        }
      case ReadRv(r) =>
        if s.rv == 0 { RoundDone(s); }
      case _ =>
    }
  }

  lemma FinishSafe(s: State, w: nat)
    requires QueueOk(s) && HandsOk(s.workers, s.taken, s.completed) && w < |s.workers| && s.workers[w].Finish?
    ensures s.unfinished >= 1
  {
    CountBelow(s.completed, s.taken);
  }

  // The worker's steps that only move it along.
  lemma WorkerMoves(s: State, rounds: seq<nat>, w: nat, pc: WorkerPc)
    requires Inv(s, rounds) && w < |s.workers| && WorkerRvOk(pc, s.rv, s.outcome)
    requires !Holding(pc) || (Holding(s.workers[w]) && pc.t == s.workers[w].t)
    ensures Inv(s.(workers := s.workers[w := pc]), rounds)
  {
  }

  lemma WorkerTakes(s: State, rounds: seq<nat>, w: nat)
    requires Inv(s, rounds) && w < |s.workers| && s.workers[w].Get? && s.taken < s.puts
    ensures Inv(WorkStep(s, w, 0, false), rounds)
  {
    var t := WorkStep(s, w, 0, false);
    assert forall i :: 0 <= i < |t.workers| && i != w ==> t.workers[i] == s.workers[i];
  }

  lemma WorkerReturns(s: State, rounds: seq<nat>, w: nat, result: nat)
    requires Inv(s, rounds) && w < |s.workers| && s.workers[w].Pumping?
    ensures Inv(WorkStep(s, w, result, false), rounds)
  {
    var k := s.workers[w].t;
    var o := s.outcome[k := result];
    if s.rv != 0 {
      var q :| q in s.outcome && s.outcome[q] == s.rv;
      assert q in o && o[q] == s.rv;
    }
    forall i | 0 <= i < |s.workers| && i != w ensures WorkerRvOk(s.workers[i], s.rv, o) {
      assert WorkerRvOk(s.workers[i], s.rv, s.outcome);
      assert Holding(s.workers[i]) ==> s.workers[i].t != k;
    }
  }

  lemma WorkerSets(s: State, rounds: seq<nat>, w: nat)
    requires Inv(s, rounds) && w < |s.workers| && s.workers[w].Set?
    ensures Inv(WorkStep(s, w, 0, false), rounds)
  {
    var pc := s.workers[w];
    assert WorkerRvOk(pc, s.rv, s.outcome);
    forall i | 0 <= i < |s.workers| ensures WorkerRvOk(s.workers[i], pc.rv, s.outcome) {
      assert WorkerRvOk(s.workers[i], s.rv, s.outcome);
    }
  }

  lemma WorkerFinishes(s: State, rounds: seq<nat>, w: nat)
    requires Inv(s, rounds) && w < |s.workers| && s.workers[w].Finish?
    ensures Inv(WorkStep(s, w, 0, false), rounds)
  {
    FinishSafe(s, w);
    assert WorkerRvOk(s.workers[w], s.rv, s.outcome);
  }

  lemma WorkKeeps(s: State, rounds: seq<nat>, w: nat, result: nat, crash: bool)
    requires Inv(s, rounds) && w < |s.workers|
    ensures Inv(WorkStep(s, w, result, crash), rounds)
  {
    assert WorkerRvOk(s.workers[w], s.rv, s.outcome);
    match s.workers[w] {
      case Top => WorkerMoves(s, rounds, w, if s.stop then Dead else Get);
      case Get => if s.taken < s.puts { WorkerTakes(s, rounds, w); }
      case Pumping(_) =>
        if crash { WorkerMoves(s, rounds, w, Dead); } else { WorkerReturns(s, rounds, w, result); }
      case Check(t, rv) => WorkerMoves(s, rounds, w, if s.rv == 0 && rv != 0 then Set(t, rv) else Finish(t));
      case Set(_, _) => WorkerSets(s, rounds, w);
      case Finish(_) => WorkerFinishes(s, rounds, w);
      case Dead =>
    }
  }

  lemma {:induction false} RunInv(n: nat, rounds: seq<nat>, acts: seq<Action>)
    ensures Inv(Run(n, rounds, acts), rounds)
  {
    if acts != [] {
      var k := |acts| - 1;
      RunInv(n, rounds, acts[..k]);
      var s := Run(n, rounds, acts[..k]);
      match acts[k] {
        case Stop =>
        case MainAct(result) => MainKeeps(s, rounds, result);
        case WorkAct(w, result, crash) => if w < |s.workers| { WorkKeeps(s, rounds, w, result, crash); }
      }
    }
  }

  // ---------- What every run keeps ----------

  /** The counter is puts minus completions, never negative, and task_done never raises; no task is picked up
      twice or out of order; and what ctl['rv'] holds, if not 0, some pump did return. */
  lemma CounterIsExact(n: nat, rounds: seq<nat>, acts: seq<Action>)
    ensures var s := Run(n, rounds, acts);
            && s.unfinished == s.puts - |s.completed| >= 0 && !s.raised
            && |s.pumped| <= s.puts && (forall k :: 0 <= k < |s.pumped| ==> s.pumped[k] == k)
            && (s.rv != 0 ==> s.rv in s.outcome.Values)
  {
    var s := Run(n, rounds, acts);
    RunInv(n, rounds, acts);
    CountBelow(s.completed, s.taken);
  }

  /** Despite the unsynchronised check-then-set, a failure is never forgotten. */
  lemma {:induction false} FailureSticks(n: nat, rounds: seq<nat>, acts: seq<Action>, more: seq<Action>)
    ensures Run(n, rounds, acts).rv != 0 ==> Run(n, rounds, acts + more).rv != 0
  {
    if more == [] {
      assert acts + more == acts;
    } else {
      var k := |more| - 1;
      var before := acts + more[..k];
      FailureSticks(n, rounds, acts, more[..k]);
      assert acts + more == before + [more[k]];
      RunSnoc(n, rounds, before, more[k]);
      RunInv(n, rounds, before);
      StepKeepsFailure(Run(n, rounds, before), rounds, more[k]);
    }
  }

  lemma RunSnoc(n: nat, rounds: seq<nat>, acts: seq<Action>, a: Action)
    ensures Run(n, rounds, acts + [a]) == Step(Run(n, rounds, acts), rounds, a)
  {
    assert (acts + [a])[..|acts|] == acts;
  }

  lemma StepKeepsFailure(s: State, rounds: seq<nat>, a: Action)
    requires Inv(s, rounds)
    ensures s.rv != 0 ==> Step(s, rounds, a).rv != 0
  {
    if a.WorkAct? && a.w < |s.workers| {
      assert WorkerRvOk(s.workers[a.w], s.rv, s.outcome);
    }
  }

  lemma AllTaken(s: State)
    requires QueueOk(s)
    ensures Settled(s.outcome, s.completed, s.puts) ==> s.taken == s.puts
  {
    if Settled(s.outcome, s.completed, s.puts) && s.puts > 0 {
      assert s.puts - 1 in s.completed;
    }
  }

  /** When the station reports 0, every node of every bucket was pumped exactly once and its pump returned 0. */
  lemma ZeroMeansAllPumped(n: nat, rounds: seq<nat>, acts: seq<Action>)
    ensures var s := Run(n, rounds, acts);
            s.main == Return(0) ==>
              && |s.pumped| == s.puts == Sum(rounds) && (forall k :: 0 <= k < |s.pumped| ==> s.pumped[k] == k)
              && (forall t: nat :: t < Sum(rounds) ==> t in s.outcome && s.outcome[t] == 0)
  {
    var s := Run(n, rounds, acts);
    RunInv(n, rounds, acts);
    AllTaken(s);
  }

  // ---------- What the station returns ----------

  predicate Good(a: Action)
  {
    match a
    case Stop => true
    case MainAct(result) => result == 0
    case WorkAct(_, result, _) => result == 0
  }

  ghost predicate WorkersGood(workers: seq<WorkerPc>)
  {
    forall i :: 0 <= i < |workers| ==> !workers[i].Set? && (workers[i].Check? ==> workers[i].rv == 0)
  }

  ghost predicate AllGood(s: State)
  {
    s.rv == 0 && WorkersGood(s.workers) && (s.main.Return? ==> s.main.rv == 0)
  }

  lemma GoodMain(s: State, rounds: seq<nat>)
    requires AllGood(s)
    ensures AllGood(MainStep(s, rounds, 0))
  {
  }

  lemma GoodWork(s: State, w: nat, crash: bool)
    requires AllGood(s) && w < |s.workers|
    ensures AllGood(WorkStep(s, w, 0, crash))
  {
  }

  lemma {:induction false} GoodRun(n: nat, rounds: seq<nat>, acts: seq<Action>)
    requires forall i :: 0 <= i < |acts| ==> Good(acts[i])
    ensures AllGood(Run(n, rounds, acts))
  {
    if acts != [] {
      var k := |acts| - 1;
      var s := Run(n, rounds, acts[..k]);
      GoodRun(n, rounds, acts[..k]);
      assert Good(acts[k]);
      match acts[k]
      case Stop =>
      case MainAct(_) => GoodMain(s, rounds);
      case WorkAct(w, _, crash) =>
        if w < |s.workers| {
          GoodWork(s, w, crash);
        }
    }
  }

  /** If every pump and every count of messages returns 0, a station that returns, returns 0. */
  lemma GoodMeansZero(n: nat, rounds: seq<nat>, acts: seq<Action>)
    requires forall i :: 0 <= i < |acts| ==> Good(acts[i])
    ensures var s := Run(n, rounds, acts); s.main.Return? ==> s.main == Return(0)
  {
    GoodRun(n, rounds, acts);
  }

  /** total_msgs was called and returned `x`. */
  predicate TotalGave(n: nat, rounds: seq<nat>, acts: seq<Action>, x: nat)
  {
    acts != [] &&
    var k := |acts| - 1;
    || TotalGave(n, rounds, acts[..k], x)
    || (Run(n, rounds, acts[..k]).main.Total? && acts[k] == MainAct(x))
  }

  lemma MainReturns(s: State, rounds: seq<nat>, result: nat, x: nat)
    requires x != 0
    ensures MainStep(s, rounds, result).main == Return(x) ==>
      s.main == Return(x) || (s.main.Total? && result == x) || s.rv == x
  {
  }

  /** At some point of the run a pump returned `x`. */
  predicate PumpGave(n: nat, rounds: seq<nat>, acts: seq<Action>, x: nat)
  {
    acts != [] &&
    var k := |acts| - 1;
    PumpGave(n, rounds, acts[..k], x) || Pumps(Run(n, rounds, acts[..k]), acts[k], x)
  }

  predicate Pumps(s: State, a: Action, x: nat)
  {
    a.WorkAct? && a.w < |s.workers| && s.workers[a.w].Pumping? && !a.crash && a.result == x
  }

  /** Every result on its way into ctl['rv'], and the one in it, is what some pump returned. */
  ghost predicate Caused(n: nat, rounds: seq<nat>, acts: seq<Action>, s: State)
  {
    && (s.rv != 0 ==> PumpGave(n, rounds, acts, s.rv))
    && (forall i :: 0 <= i < |s.workers| && (s.workers[i].Check? || s.workers[i].Set?) ==>
          PumpGave(n, rounds, acts, s.workers[i].rv))
    && (s.main.Return? && s.main.rv != 0 ==>
          PumpGave(n, rounds, acts, s.main.rv) || TotalGave(n, rounds, acts, s.main.rv))
  }

  lemma CausedMain(n: nat, rounds: seq<nat>, acts: seq<Action>, s: State, result: nat)
    requires acts != [] && acts[|acts| - 1] == MainAct(result) && s == Run(n, rounds, acts[..|acts| - 1])
    requires Caused(n, rounds, acts[..|acts| - 1], s)
    ensures Caused(n, rounds, acts, MainStep(s, rounds, result))
  {
    var t := MainStep(s, rounds, result);
    MainLeavesWorkers(s, rounds, result);
    if t.main.Return? && t.main.rv != 0 {
      MainReturns(s, rounds, result, t.main.rv);
    }
  }

  lemma MainLeavesWorkers(s: State, rounds: seq<nat>, result: nat)
    ensures var t := MainStep(s, rounds, result); t.workers == s.workers && t.rv == s.rv
  {
  }

  /** What a step of a worker does to the results it carries. */
  lemma WorkCarries(s: State, w: nat, result: nat, crash: bool)
    requires w < |s.workers|
    ensures var t := WorkStep(s, w, result, crash);
      && t.main == s.main && |t.workers| == |s.workers|
      && (forall i :: 0 <= i < |s.workers| && i != w ==> t.workers[i] == s.workers[i])
      && (t.workers[w].Check? || t.workers[w].Set? ==>
            || (s.workers[w].Check? && t.workers[w].rv == s.workers[w].rv)
            || (s.workers[w].Pumping? && !crash && t.workers[w].rv == result))
      && (t.rv == s.rv || (s.workers[w].Set? && t.rv == s.workers[w].rv))
  {
    match s.workers[w]
    case Top =>
    case Get =>
    case Pumping(_) =>
    case Check(_, _) =>
    case Set(_, _) =>
    case Finish(_) =>
    case Dead =>
  }

  lemma CausedWork(n: nat, rounds: seq<nat>, acts: seq<Action>, s: State, w: nat, result: nat, crash: bool)
    requires acts != [] && acts[|acts| - 1] == WorkAct(w, result, crash) && s == Run(n, rounds, acts[..|acts| - 1])
    requires Caused(n, rounds, acts[..|acts| - 1], s) && w < |s.workers|
    ensures Caused(n, rounds, acts, WorkStep(s, w, result, crash))
  {
    WorkCarries(s, w, result, crash);
  }

  lemma {:induction false} AlwaysCaused(n: nat, rounds: seq<nat>, acts: seq<Action>)
    ensures Caused(n, rounds, acts, Run(n, rounds, acts))
  {
    if acts != [] {
      var k := |acts| - 1;
      var s := Run(n, rounds, acts[..k]);
      AlwaysCaused(n, rounds, acts[..k]);
      match acts[k]
      case Stop =>
      case MainAct(result) => CausedMain(n, rounds, acts, s, result);
      case WorkAct(w, result, crash) =>
        if w < |s.workers| {
          CausedWork(n, rounds, acts, s, w, result, crash);
        }
    }
  }

  /** A station that returns an error returns what a pump or a count of messages gave. */
  lemma ErrorHasCause(n: nat, rounds: seq<nat>, acts: seq<Action>)
    ensures var s := Run(n, rounds, acts);
      s.main.Return? && s.main.rv != 0 ==>
        PumpGave(n, rounds, acts, s.main.rv) || TotalGave(n, rounds, acts, s.main.rv)
  {
    AlwaysCaused(n, rounds, acts);
  }
}
