/** What Pump.run returns: exactly the first thing that went wrong, and 0 if nothing did. */
module PumpResult {
  import opened Wire
  import opened PumpRun

  // ---------- What went wrong ----------

  /** The pump calls provide_batch, and it returns `x`. */
  predicate SourceFails(s: State, a: Action, x: Rv)
  {
    s.pump.Top? && !s.stop && a.PumpAct? && a.supply == x != Ok
  }

  /** How the sink fared with batch `i`. */
  function OutcomeOf(acts: seq<Action>, closes: bool, i: nat): Option<Rv>
  {
    if acts == [] then None
    else
      var k := |acts| - 1;
      if Run(Init(), acts[..k], closes).worker == WBusy(i) && acts[k].WorkAct? && !acts[k].crash
      then Some(acts[k].result) else OutcomeOf(acts[..k], closes, i)
  }

  /** The pump waits for its last batch, the worker has finished with it, and the sink's outcome was `x`. */
  predicate SinkFails(acts: seq<Action>, closes: bool, a: Action, x: Rv)
  {
    var s := Run(Init(), acts, closes);
    s.pump.Wait? && LastDone(s) && a.PumpAct? && OutcomeOf(acts, closes, |s.futures| - 1) == Some(x) && x != Ok
  }

  /** The pump has a batch to push and the worker is gone. */
  predicate WorkerGone(s: State, a: Action)
  {
    s.pump.PushAlive? && !Alive(s) && a.PumpAct?
  }

  predicate Fails(acts: seq<Action>, closes: bool, a: Action, x: Rv)
  {
    var s := Run(Init(), acts, closes);
    SourceFails(s, a, x) || SinkFails(acts, closes, a, x) || (x == DeadWorker && WorkerGone(s, a))
  }

  /** At some point of the run `x` went wrong. */
  predicate Failed(acts: seq<Action>, closes: bool, x: Rv)
  {
    acts != [] &&
    var k := |acts| - 1;
    Failed(acts[..k], closes, x) || Fails(acts[..k], closes, acts[k], x)
  }

  // ---------- A future tells the sink's outcome ----------

  ghost predicate Tells(acts: seq<Action>, closes: bool, s: State, i: nat)
    requires i < |s.futures|
  {
    s.futures[i].doneRv.Some? ==>
      && s.futures[i].doneRv == OutcomeOf(acts, closes, i)
      && (s.futures[i].done || (s.worker.WSetDone? && s.worker.k == i))
  }

  ghost predicate Telling(acts: seq<Action>, closes: bool, s: State)
  {
    && (s.worker.WSetRv? ==> OutcomeOf(acts, closes, s.worker.k) == Some(s.worker.rv))
    && (forall i :: 0 <= i < |s.futures| ==> Tells(acts, closes, s, i))
  }

  /** A step that leaves the worker alone and adds at most a new future. */
  predicate Extends(s: State, t: State)
  {
    t.worker == s.worker && (t.futures == s.futures || t.futures == s.futures + [Future(None, false)])
  }

  lemma FetchExtends(s: State, supply: Rv, next: Option<Batch>, closes: bool)
    requires s.pump.Top? || s.pump.Wait?
    ensures Extends(s, PumpStep(s, supply, next, closes))
  {
    match s.pump
    case Top =>
    case Wait(_) =>
  }

  lemma CheckExtends(s: State, supply: Rv, next: Option<Batch>, closes: bool)
    requires s.pump.Got? || s.pump.PushAlive? || s.pump.CloseAlive?
    ensures Extends(s, PumpStep(s, supply, next, closes))
  {
    match s.pump
    case Got(_) =>
    case PushAlive =>
    case CloseAlive(_) =>
  }

  lemma MailExtends(s: State, supply: Rv, next: Option<Batch>, closes: bool)
    requires s.pump.PushStore? || s.pump.PushGo? || s.pump.CloseStore? || s.pump.CloseGo?
    ensures Extends(s, PumpStep(s, supply, next, closes))
  {
    match s.pump
    case PushStore =>
    case PushGo =>
    case CloseStore(_) =>
    case CloseGo(_) =>
  }

  lemma EndExtends(s: State, supply: Rv, next: Option<Batch>, closes: bool)
    requires s.pump.Compare? || s.pump.Returned?
    ensures Extends(s, PumpStep(s, supply, next, closes))
  {
    match s.pump
    case Compare(_) =>
    case Returned(_, _) =>
  }

  lemma PumpExtends(s: State, supply: Rv, next: Option<Batch>, closes: bool)
    ensures Extends(s, PumpStep(s, supply, next, closes))
  {
    if s.pump.Top? || s.pump.Wait? {
      FetchExtends(s, supply, next, closes);
    } else if s.pump.Compare? || s.pump.Returned? {
      EndExtends(s, supply, next, closes);
    } else if s.pump.Got? || s.pump.PushAlive? || s.pump.CloseAlive? {
      CheckExtends(s, supply, next, closes);
    } else {
      MailExtends(s, supply, next, closes);
    }
  }

  /** What a step of the worker does to the futures. */
  lemma WorkFutures(s: State, result: Rv, crash: bool)
    ensures var t := WorkStep(s, result, crash);
      && (t.worker.WSetRv? ==> t == s || (s.worker == WBusy(t.worker.k) && !crash && t.worker.rv == result))
      && (if s.worker.WSetRv? && s.worker.k < |s.futures| then
            && t.futures == s.futures[s.worker.k := s.futures[s.worker.k].(doneRv := Some(s.worker.rv))]
            && t.worker == WSetDone(s.worker.k, s.worker.rv)
          else if s.worker.WSetDone? && s.worker.k < |s.futures| then
            t.futures == s.futures[s.worker.k := s.futures[s.worker.k].(done := true)]
          else t.futures == s.futures)
      && (s.worker.WSetDone? ==> t.worker == s.worker || s.worker.k < |s.futures|)
  {
    match s.worker
    case WTop =>
    case WWait =>
    case WRead =>
    case WClearWork(_) =>
    case WClearGo(_) =>
    case WBusy(_) =>
    case WSetRv(_, _) =>
    case WSetDone(_, _) =>
    case _ =>
  }

  lemma OutcomeSnoc(acts: seq<Action>, a: Action, closes: bool, i: nat)
    ensures var s := Run(Init(), acts, closes);
      OutcomeOf(acts + [a], closes, i) ==
      if s.worker == WBusy(i) && a.WorkAct? && !a.crash then Some(a.result) else OutcomeOf(acts, closes, i)
  {
    assert (acts + [a])[..|acts|] == acts;
  }

  lemma TellingWork(acts: seq<Action>, a: Action, closes: bool, s: State)
    requires s == Run(Init(), acts, closes) && Inv(s) && Telling(acts, closes, s) && a.WorkAct?
    ensures Telling(acts + [a], closes, WorkStep(s, a.result, a.crash))
  {
    var t := WorkStep(s, a.result, a.crash);
    WorkFutures(s, a.result, a.crash);
    if t.worker.WSetRv? {
      OutcomeSnoc(acts, a, closes, t.worker.k);
    }
    forall i | 0 <= i < |t.futures| ensures Tells(acts + [a], closes, t, i) {
      OutcomeSnoc(acts, a, closes, i);
      assert Tells(acts, closes, s, i);
    }
  }

  lemma TellingPump(acts: seq<Action>, a: Action, closes: bool, s: State)
    requires s == Run(Init(), acts, closes) && Telling(acts, closes, s) && a.PumpAct?
    ensures Telling(acts + [a], closes, PumpStep(s, a.supply, a.next, closes))
  {
    var t := PumpStep(s, a.supply, a.next, closes);
    PumpExtends(s, a.supply, a.next, closes);
    if t.worker.WSetRv? {
      OutcomeSnoc(acts, a, closes, t.worker.k);
    }
    forall i | 0 <= i < |t.futures| ensures Tells(acts + [a], closes, t, i) {
      OutcomeSnoc(acts, a, closes, i);
      if i < |s.futures| {
        assert Tells(acts, closes, s, i);
      }
    }
  }

  lemma TellingStop(acts: seq<Action>, closes: bool, s: State)
    requires s == Run(Init(), acts, closes) && Telling(acts, closes, s)
    ensures Telling(acts + [Stop], closes, s.(stop := true))
  {
    var t := s.(stop := true);
    if t.worker.WSetRv? {
      OutcomeSnoc(acts, Stop, closes, t.worker.k);
    }
    forall i | 0 <= i < |t.futures| ensures Tells(acts + [Stop], closes, t, i) {
      OutcomeSnoc(acts, Stop, closes, i);
      assert Tells(acts, closes, s, i);
    }
  }

  lemma {:induction false} AlwaysTelling(acts: seq<Action>, closes: bool)
    ensures Telling(acts, closes, Run(Init(), acts, closes))
  {
    if acts != [] {
      var k := |acts| - 1;
      var init, a := acts[..k], acts[k];
      var s := Run(Init(), init, closes);
      AlwaysTelling(init, closes);
      RunInv(init, closes);
      assert acts == init + [a];
      match a
      case Stop => TellingStop(init, closes, s);
      case PumpAct(_, _) => TellingPump(init, a, closes, s);
      case WorkAct(_, _) => TellingWork(init, a, closes, s);
    }
  }

  // ---------- The result is what went wrong ----------

  /** What the pump has decided to return. */
  function Verdict(p: PumpPc): Option<Rv>
  {
    if Closing(p) then Some(p.rv) else None
  }

  lemma CallDecides(s: State, supply: Rv, next: Option<Batch>, closes: bool, x: Rv)
    requires s.pump.Top? && x != Ok
    ensures Verdict(PumpStep(s, supply, next, closes).pump) == Some(x) <==> !s.stop && supply == x
  {
  }

  lemma WaitDecides(s: State, supply: Rv, next: Option<Batch>, closes: bool, x: Rv)
    requires s.pump.Wait? && x != Ok && (LastDone(s) ==> s.futures[|s.futures| - 1].doneRv.Some?)
    ensures Verdict(PumpStep(s, supply, next, closes).pump) == Some(x) <==>
      LastDone(s) && s.futures[|s.futures| - 1].doneRv == Some(x)
  {
  }

  lemma GotDecides(s: State, supply: Rv, next: Option<Batch>, closes: bool, x: Rv)
    requires s.pump.Got? && x != Ok
    ensures Verdict(PumpStep(s, supply, next, closes).pump) != Some(x)
  {
  }

  lemma AliveDecides(s: State, supply: Rv, next: Option<Batch>, closes: bool, x: Rv)
    requires s.pump.PushAlive? && x != Ok
    ensures Verdict(PumpStep(s, supply, next, closes).pump) == Some(x) <==> !Alive(s) && x == DeadWorker
  {
  }

  lemma PushDecides(s: State, supply: Rv, next: Option<Batch>, closes: bool)
    requires s.pump.PushStore? || s.pump.PushGo?
    ensures Verdict(PumpStep(s, supply, next, closes).pump) == None
  {
  }

  /** A step that decides something but 0 is one of the three. */
  lemma PumpDecides(s: State, supply: Rv, next: Option<Batch>, closes: bool, x: Rv)
    requires !Closing(s.pump) && x != Ok && (s.pump.Wait? && LastDone(s) ==> s.futures[|s.futures| - 1].doneRv.Some?)
    ensures Verdict(PumpStep(s, supply, next, closes).pump) == Some(x) <==>
      || (s.pump.Top? && !s.stop && supply == x)
      || (s.pump.Wait? && LastDone(s) && s.futures[|s.futures| - 1].doneRv == Some(x))
      || (s.pump.PushAlive? && !Alive(s) && x == DeadWorker)
  {
    if s.pump.Top? {
      CallDecides(s, supply, next, closes, x);
    } else if s.pump.Wait? {
      WaitDecides(s, supply, next, closes, x);
    } else if s.pump.Got? {
      GotDecides(s, supply, next, closes, x);
    } else if s.pump.PushAlive? {
      AliveDecides(s, supply, next, closes, x);
    } else {
      PushDecides(s, supply, next, closes);
    }
  }

  lemma VerdictStays(s: State, a: Action, closes: bool)
    requires Closing(s.pump)
    ensures Verdict(Step(s, a, closes).pump) == Verdict(s.pump)
  {
    match a
    case Stop =>
    case WorkAct(result, crash) => WorkLeavesPump(s, result, crash);
    case PumpAct(supply, next) =>
      match s.pump
      case CloseAlive(_) =>
      case CloseStore(_) =>
      case CloseGo(_) =>
      case Compare(_) =>
      case Returned(_, _) =>
  }

  lemma WorkLeavesPump(s: State, result: Rv, crash: bool)
    ensures WorkStep(s, result, crash).pump == s.pump
  {
  }

  lemma FutureTold(acts: seq<Action>, closes: bool)
    ensures var s := Run(Init(), acts, closes);
      s.pump.Wait? && LastDone(s) ==>
        && s.futures[|s.futures| - 1].doneRv.Some?
        && s.futures[|s.futures| - 1].doneRv == OutcomeOf(acts, closes, |s.futures| - 1)
  {
    RunInv(acts, closes);
    AlwaysTelling(acts, closes);
    ToldIn(acts, closes, Run(Init(), acts, closes));
  }

  lemma ToldIn(acts: seq<Action>, closes: bool, s: State)
    requires Inv(s) && Telling(acts, closes, s)
    ensures s.pump.Wait? && LastDone(s) ==>
      && s.futures[|s.futures| - 1].doneRv.Some?
      && s.futures[|s.futures| - 1].doneRv == OutcomeOf(acts, closes, |s.futures| - 1)
  {
    if LastDone(s) {
      assert Tells(acts, closes, s, |s.futures| - 1);
    }
  }

  lemma PumpFailsIff(acts: seq<Action>, closes: bool, s: State, a: Action, x: Rv)
    requires s == Run(Init(), acts, closes) && !Closing(s.pump) && x != Ok && a.PumpAct?
    ensures Verdict(PumpStep(s, a.supply, a.next, closes).pump) == Some(x) <==> Fails(acts, closes, a, x)
  {
    FutureTold(acts, closes);
    PumpDecides(s, a.supply, a.next, closes, x);
  }

  lemma DecidesIff(acts: seq<Action>, closes: bool, s: State, a: Action, x: Rv)
    requires s == Run(Init(), acts, closes) && !Closing(s.pump) && x != Ok
    ensures Verdict(Step(s, a, closes).pump) == Some(x) <==> Fails(acts, closes, a, x)
  {
    match a
    case Stop =>
    case WorkAct(result, crash) => WorkLeavesPump(s, result, crash);
    case PumpAct(_, _) => PumpFailsIff(acts, closes, s, a, x);
  }

  lemma {:induction false} VerdictExact(acts: seq<Action>, closes: bool, x: Rv)
    requires x != Ok
    ensures Verdict(Run(Init(), acts, closes).pump) == Some(x) <==> Failed(acts, closes, x)
  {
    if acts != [] {
      var k := |acts| - 1;
      var s := Run(Init(), acts[..k], closes);
      VerdictExact(acts[..k], closes, x);
      if Closing(s.pump) {
        VerdictStays(s, acts[k], closes);
      } else {
        DecidesIff(acts[..k], closes, s, acts[k], x);
      }
    }
  }

  ghost predicate NothingFailed(acts: seq<Action>, closes: bool)
  {
    forall x :: Failed(acts, closes, x) ==> x == Ok
  }

  /** A pump that returns, returns an error exactly if that is what went wrong: what the source gave, what the sink
      made of the batch waited for, or a worker gone before a push. With none of these it returns 0, or the report of
      missing messages. */
  lemma ResultExact(acts: seq<Action>, closes: bool, x: Rv)
    ensures var s := Run(Init(), acts, closes);
      s.pump.Returned? ==>
        && (x != Ok ==> (s.pump.rv == x <==> Failed(acts, closes, x)))
        && (s.pump.rv == Ok <==> NothingFailed(acts, closes))
  {
    var s := Run(Init(), acts, closes);
    forall y | y != Ok ensures Verdict(s.pump) == Some(y) <==> Failed(acts, closes, y) {
      VerdictExact(acts, closes, y);
    }
    if s.pump.Returned? && s.pump.rv != Ok {
      VerdictExact(acts, closes, s.pump.rv);
      assert !NothingFailed(acts, closes);
    }
  }

  // ---------- A run in which nothing goes wrong ----------

  predicate Good(a: Action)
  {
    match a
    case Stop => false
    case PumpAct(supply, _) => supply == Ok
    case WorkAct(result, crash) => result == Ok && !crash
  }

  predicate AllGood(acts: seq<Action>)
  {
    forall i :: 0 <= i < |acts| ==> Good(acts[i])
  }

  predicate NoErrors(futures: seq<Future>)
  {
    forall i :: 0 <= i < |futures| ==> futures[i].doneRv == None || futures[i].doneRv == Some(Ok)
  }

  predicate WorkerFine(worker: WorkerPc)
  {
    !worker.WCrashed? && (worker.WSetRv? || worker.WSetDone? ==> worker.rv == Ok)
  }

  ghost predicate Fine(s: State)
  {
    && Inv(s) && !s.stop && (Closing(s.pump) ==> s.pump.rv == Ok)
    && NoErrors(s.futures) && WorkerFine(s.worker)
  }

  /** While nothing went wrong and the end mark is not out, the worker is there. */
  lemma FineAlive(s: State)
    requires Fine(s) && !Marked(s.pump)
    ensures Alive(s)
  {
  }

  lemma WorkerStaysFine(s: State, result: Rv)
    requires WorkerFine(s.worker) && result == Ok
    ensures WorkerFine(WorkStep(s, result, false).worker)
  {
    match s.worker
    case WTop =>
    case WWait =>
    case WRead =>
    case WClearWork(_) =>
    case WClearGo(_) =>
    case WBusy(_) =>
    case WSetRv(_, _) =>
    case WSetDone(_, _) =>
    case _ =>
  }

  lemma FineWork(s: State)
    requires Fine(s)
    ensures Fine(WorkStep(s, Ok, false)) && WorkStep(s, Ok, false).pump == s.pump
  {
    WorkKeeps(s, Ok, false);
    WorkLeavesPump(s, Ok, false);
    WorkLeavesStop(s, Ok, false);
    WorkerStaysFine(s, Ok);
    WorkFutures(s, Ok, false);
  }

  lemma WorkLeavesStop(s: State, result: Rv, crash: bool)
    ensures WorkStep(s, result, crash).stop == s.stop
  {
  }

  lemma FinePump(s: State, next: Option<Batch>, closes: bool)
    requires Fine(s)
    ensures Fine(PumpStep(s, Ok, next, closes))
  {
    PumpKeeps(s, Ok, next, closes);
    PumpExtends(s, Ok, next, closes);
    PumpLeavesStop(s, Ok, next, closes);
    VerdictOk(s, next, closes);
  }

  lemma VerdictOk(s: State, next: Option<Batch>, closes: bool)
    requires Fine(s)
    ensures var t := PumpStep(s, Ok, next, closes); Closing(t.pump) ==> t.pump.rv == Ok
  {
    var t := PumpStep(s, Ok, next, closes);
    if Closing(s.pump) {
      VerdictStays(s, PumpAct(Ok, next), closes);
    } else {
      FineAlive(s);
      if Closing(t.pump) && t.pump.rv != Ok {
        LastTold(s);
        PumpDecides(s, Ok, next, closes, t.pump.rv);
      }
    }
  }

  lemma LastTold(s: State)
    requires Inv(s)
    ensures s.pump.Wait? && LastDone(s) ==> s.futures[|s.futures| - 1].doneRv.Some?
  {
  }

  lemma PumpLeavesStop(s: State, supply: Rv, next: Option<Batch>, closes: bool)
    ensures PumpStep(s, supply, next, closes).stop == s.stop
  {
  }

  lemma {:induction false} GoodRun(acts: seq<Action>, closes: bool)
    requires AllGood(acts)
    ensures Fine(Run(Init(), acts, closes))
  {
    if acts == [] {
      InitInv();
    } else {
      var k := |acts| - 1;
      var s := Run(Init(), acts[..k], closes);
      GoodRun(acts[..k], closes);
      assert Good(acts[k]);
      match acts[k]
      case PumpAct(_, next) => FinePump(s, next, closes);
      case WorkAct(_, _) => FineWork(s);
    }
  }

  /** If nobody asks the transfer to stop, the source gives no error and the sink none either, a pump that returns
      returns 0. */
  lemma GoodMeansZero(acts: seq<Action>, closes: bool)
    requires AllGood(acts)
    ensures var s := Run(Init(), acts, closes); s.pump.Returned? ==> s.pump == Returned(Ok, false)
  {
    GoodRun(acts, closes);
  }

  // ---------- and it can always be finished ----------

  /** How many statements the pump is from returning, once its source has no more to give. */
  function ToReturn(p: PumpPc): nat
  {
    match p
    case Returned(_, _) => 0
    case Compare(_) => 1
    case CloseGo(_) => 2
    case CloseStore(_) => 3
    case CloseAlive(_) => 4
    case Got(next) => if next.None? then 5 else 11
    case Wait(next) => if next.None? then 6 else 12
    case Top => 7
    case PushGo => 8
    case PushStore => 9
    case PushAlive => 10
  }

  lemma PumpMoves(s: State, closes: bool)
    requires Fine(s) && !s.pump.Returned? && (s.pump.Wait? ==> LastDone(s))
    ensures ToReturn(PumpStep(s, Ok, None, closes).pump) < ToReturn(s.pump)
  {
    if !Marked(s.pump) {
      FineAlive(s);
    }
    match s.pump
    case Top =>
    case Wait(_) =>
    case Got(_) =>
    case PushAlive =>
    case PushStore =>
    case PushGo =>
    case CloseAlive(_) =>
    case CloseStore(_) =>
    case CloseGo(_) =>
    case Compare(_) =>
  }

  /** What is left to do, as a pair that falls with every step chosen below. */
  ghost function Ahead(s: State): (nat, nat)
  {
    (ToReturn(s.pump), if s.pump.Wait? && LastDone(s) then 0 else 1 + ToTell(s.worker))
  }

  ghost predicate Less(a: (nat, nat), b: (nat, nat))
  {
    a.0 < b.0 || (a.0 == b.0 && a.1 < b.1)
  }

  lemma WorkerAhead(s: State)
    requires Fine(s) && s.pump.Wait? && !LastDone(s)
    ensures Fine(WorkStep(s, Ok, false)) && Less(Ahead(WorkStep(s, Ok, false)), Ahead(s))
  {
    FineAlive(s);
    WorkerMoves(s);
    FineWork(s);
  }

  lemma PumpAhead(s: State, closes: bool)
    requires Fine(s) && !s.pump.Returned? && (s.pump.Wait? ==> LastDone(s))
    ensures Fine(PumpStep(s, Ok, None, closes)) && Less(Ahead(PumpStep(s, Ok, None, closes)), Ahead(s))
  {
    PumpMoves(s, closes);
    FinePump(s, None, closes);
  }

  lemma OneMore(s: State, closes: bool) returns (a: Action)
    requires Fine(s) && !s.pump.Returned?
    ensures Good(a) && Fine(Step(s, a, closes)) && Less(Ahead(Step(s, a, closes)), Ahead(s))
  {
    if s.pump.Wait? && !LastDone(s) {
      WorkerAhead(s);
      a := WorkAct(Ok, false);
    } else {
      PumpAhead(s, closes);
      a := PumpAct(Ok, None);
    }
  }

  /** From any state of such a run it takes finitely many more good actions to return 0. */
  lemma {:induction false} Finish(s: State, closes: bool) returns (more: seq<Action>)
    requires Fine(s)
    ensures AllGood(more) && Run(s, more, closes).pump == Returned(Ok, false)
    decreases Ahead(s).0, Ahead(s).1
  {
    if s.pump.Returned? {
      more := [];
    } else {
      var a := OneMore(s, closes);
      var rest := Finish(Step(s, a, closes), closes);
      more := [a] + rest;
      RunCons(s, a, rest, closes);
    }
  }

  /** No good run is stuck. */
  lemma GoodRunsFinish(acts: seq<Action>, closes: bool) returns (more: seq<Action>)
    requires AllGood(acts)
    ensures AllGood(acts + more) && Run(Init(), acts + more, closes).pump == Returned(Ok, false)
  {
    GoodRun(acts, closes);
    more := Finish(Run(Init(), acts, closes), closes);
    RunAppend(Init(), acts, more, closes);
  }

  lemma {:induction false} RunAppend(s: State, acts: seq<Action>, more: seq<Action>, closes: bool)
    ensures Run(s, acts + more, closes) == Run(Run(s, acts, closes), more, closes)
  {
    if more == [] {
      assert acts + more == acts;
    } else {
      var k := |more| - 1;
      assert acts + more == (acts + more[..k]) + [more[k]] && more == more[..k] + [more[k]];
      var before := acts + more[..k];
      assert Run(s, before, closes) == Run(Run(s, acts, closes), more[..k], closes) by {
        RunAppend(s, acts, more[..k], closes);
      }
      RunSnoc(s, before, more[k], closes);
      RunSnoc(Run(s, acts, closes), more[..k], more[k], closes);
    }
  }
}
