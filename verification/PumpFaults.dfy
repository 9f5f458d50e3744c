/** Runs of the pump and its worker that go wrong, and exactly when they do. */
module PumpFaults {
  import opened Wire
  import opened PumpRun

  const P: Action := PumpAct(Ok, Some(Batch(1, 1)))
  const W: Action := WorkAct(Ok, false)
  const FAIL: Action := PumpAct(SourceError(1), None)

  /** The pump has pushed its first batch and is back at the head of its loop. */
  function Pushed(): State
  {
    Init().(provided := [Batch(1, 1)], futures := [Future(None, false)], src := Totals(1, 1, 1),
            work := Item(0), go := true)
  }

  lemma Then(acts: seq<Action>, s: State, a: Action, t: State, closes: bool)
    requires Run(Init(), acts, closes) == s && Step(s, a, closes) == t
    ensures Run(Init(), acts + [a], closes) == t
  {
    RunSnoc(Init(), acts, a, closes);
  }

  /** The states of the first push before its last statement. */
  function Pushing(k: nat): State
  {
    if k == 0 then Init()
    else if k == 1 then Init().(pump := Got(Some(Batch(1, 1))), provided := [Batch(1, 1)])
    else if k == 2 then Pushed().(pump := PushAlive, work := Empty, go := false)
    else if k == 3 then Pushed().(pump := PushStore, work := Empty, go := false)
    else if k == 4 then Pushed().(pump := PushGo, go := false)
    else Pushed()
  }

  lemma PushStep(k: nat, closes: bool)
    requires k < 5
    ensures Step(Pushing(k), P, closes) == Pushing(k + 1)
  {
  }

  function Ps(k: nat): seq<Action>
  {
    if k == 0 then [] else Ps(k - 1) + [P]
  }

  lemma {:induction false} FirstPush(k: nat, closes: bool)
    requires k <= 5
    ensures Run(Init(), Ps(k), closes) == Pushing(k)
  {
    if k > 0 {
      FirstPush(k - 1, closes);
      PushStep(k - 1, closes);
      Then(Ps(k - 1), Pushing(k - 1), P, Pushing(k), closes);
    }
  }

  /** The pump passes its stop test and waits; the stop request comes; the worker, back at its own test, leaves. */
  lemma AHang(closes: bool)
    ensures Doomed(Run(Init(), Ps(5) + [P] + [Stop] + [W], closes))
  {
    FirstPush(5, closes);
    var s := Step(Pushed(), P, closes);
    Then(Ps(5), Pushed(), P, s, closes);
    Then(Ps(5) + [P], s, Stop, s.(stop := true), closes);
    Then(Ps(5) + [P] + [Stop], s.(stop := true), W, s.(stop := true, worker := WDead), closes);
  }

  /** The pump at the store of its end mark after the source failed. */
  function Giving(worker: WorkerPc, pulled: seq<nat>): State
  {
    Pushed().(pump := CloseStore(SourceError(1)), worker := worker, pulled := pulled)
  }

  /** The source fails while the first batch lies in the mailbox, and the end mark replaces it. */
  lemma AnOverwriting()
    ensures Run(Init(), Ps(5) + [FAIL] + [P] + [P], true).overwritten
  {
    FirstPush(5, true);
    var s := Giving(WTop, []);
    Then(Ps(5), Pushed(), FAIL, s.(pump := CloseAlive(SourceError(1))), true);
    Then(Ps(5) + [FAIL], s.(pump := CloseAlive(SourceError(1))), P, s, true);
    Then(Ps(5) + [FAIL] + [P], s, P, s.(pump := CloseGo(SourceError(1)), work := CloseMark, overwritten := true), true);
  }

  /** The end mark comes between the worker's reading of the mailbox and its clearing of it: the mark is lost, its
      signal is not. */
  function Lost(worker: WorkerPc, futures: seq<Future>, consumed: seq<nat>): State
  {
    Pushed().(pump := Compare(SourceError(1)), worker := worker, pulled := [0], consumed := consumed,
              futures := futures,
              work := Empty, overwritten := true)
  }

  /** The worker has read the first batch from the mailbox and not cleared it yet. */
  function Taken(): State
  {
    Pushed().(worker := WClearWork(Item(0)), pulled := [0])
  }

  const TO_TAKEN: seq<Action> := Ps(5) + [W] + [W] + [W]

  lemma ToTaken()
    ensures Run(Init(), TO_TAKEN, true) == Taken()
  {
    FirstPush(5, true);
    Then(Ps(5), Pushed(), W, Pushed().(worker := WWait), true);
    Then(Ps(5) + [W], Pushed().(worker := WWait), W, Pushed().(worker := WRead), true);
    Then(Ps(5) + [W] + [W], Pushed().(worker := WRead), W, Taken(), true);
  }

  /** The end mark is in the mailbox. */
  function Marking(): State
  {
    Taken().(pump := CloseGo(SourceError(1)), work := CloseMark, overwritten := true)
  }

  const TO_MARKING: seq<Action> := TO_TAKEN + [FAIL] + [P] + [P]

  lemma ToMarking()
    ensures Run(Init(), TO_MARKING, true) == Marking()
  {
    ToTaken();
    var c := Giving(WClearWork(Item(0)), [0]);
    Then(TO_TAKEN, Taken(), FAIL, Taken().(pump := CloseAlive(SourceError(1))), true);
    Then(TO_TAKEN + [FAIL], Taken().(pump := CloseAlive(SourceError(1))), P, c, true);
    Then(TO_TAKEN + [FAIL] + [P], c, P, Marking(), true);
  }

  const TO_LOST: seq<Action> := TO_MARKING + [W] + [W] + [P]

  lemma ToLost()
    ensures Run(Init(), TO_LOST, true) == Lost(WBusy(0), [Future(None, false)], [])
  {
    ToMarking();
    var d := Marking().(worker := WClearGo(Item(0)), work := Empty);
    Then(TO_MARKING, Marking(), W, d, true);
    Then(TO_MARKING + [W], d, W, d.(worker := WBusy(0), go := false), true);
    Then(TO_MARKING + [W] + [W], d.(worker := WBusy(0), go := false), P,
         Lost(WBusy(0), [Future(None, false)], []), true);
  }

  /** The worker tells the result of its batch. */
  const TO_TOLD: seq<Action> := TO_LOST + [W] + [W] + [W]

  lemma Telling()
    ensures Step(Lost(WBusy(0), [Future(None, false)], []), W, true) == Lost(WSetRv(0, Ok), [Future(None, false)], [0])
    ensures Step(Lost(WSetRv(0, Ok), [Future(None, false)], [0]), W, true)
         == Lost(WSetDone(0, Ok), [Future(Some(Ok), false)], [0])
    ensures Step(Lost(WSetDone(0, Ok), [Future(Some(Ok), false)], [0]), W, true)
         == Lost(WTop, [Future(Some(Ok), true)], [0])
  {
    assert [Future(None, false)][0 := Future(Some(Ok), false)] == [Future(Some(Ok), false)];
    assert [Future(Some(Ok), false)][0 := Future(Some(Ok), true)] == [Future(Some(Ok), true)];
  }

  lemma ToTold()
    ensures Run(Init(), TO_TOLD, true) == Lost(WTop, [Future(Some(Ok), true)], [0])
  {
    ToLost();
    Telling();
    var a, s1 := TO_LOST, Lost(WSetRv(0, Ok), [Future(None, false)], [0]);
    var s2 := Lost(WSetDone(0, Ok), [Future(Some(Ok), false)], [0]);
    Then(a, Lost(WBusy(0), [Future(None, false)], []), W, s1, true);
    Then(a + [W], s1, W, s2, true);
    Then(a + [W] + [W], s2, W, Lost(WTop, [Future(Some(Ok), true)], [0]), true);
  }

  /** Then it is woken by the lost mark's signal and finds the mailbox empty. */
  lemma AnEmptyMailbox()
    ensures Run(Init(), TO_TOLD + [W] + [W] + [W], true).worker.WCrashedEmpty?
  {
    ToTold();
    var done := [Future(Some(Ok), true)];
    Then(TO_TOLD, Lost(WTop, done, [0]), W, Lost(WWait, done, [0]), true);
    Then(TO_TOLD + [W], Lost(WWait, done, [0]), W, Lost(WRead, done, [0]), true);
    Then(TO_TOLD + [W] + [W], Lost(WRead, done, [0]), W, Lost(WCrashedEmpty, done, [0]), true);
  }

  /** The pump stores an end mark into a mailbox that still holds a batch. */
  predicate Overwrites(s: State, a: Action)
  {
    s.pump.CloseStore? && s.work.Item? && a.PumpAct?
  }

  /** A push finds the mailbox empty; the store of an end mark may find a batch in it, never another mark. */
  lemma BeforeStore(s: State)
    requires MailOk(s)
    ensures s.pump.PushStore? ==> s.work == Empty
    ensures s.pump.CloseStore? ==> s.work != CloseMark
  {
  }

  lemma PumpOverwrites(s: State, supply: Rv, next: Option<Batch>, closes: bool)
    requires s.pump.PushStore? ==> s.work == Empty
    requires s.pump.CloseStore? ==> s.work != CloseMark
    ensures PumpStep(s, supply, next, closes).overwritten <==> s.overwritten || (s.pump.CloseStore? && s.work.Item?)
  {
  }

  lemma WorkOverwritesNot(s: State, result: Rv, crash: bool)
    ensures WorkStep(s, result, crash).overwritten == s.overwritten
    ensures WorkStep(s, result, crash).worker.WCrashedEmpty? <==>
      s.worker.WCrashedEmpty? || (s.worker.WRead? && s.work.Empty?)
  {
    match s.worker
    case WTop =>
    case WWait =>
    case WRead =>
    case WClearWork(_) =>
    case WClearGo(_) =>
    case WBusy(_) =>
    case WSetRv(_, _) =>
    case WSetDone(_, _) =>
    case _ =>
  }

  lemma OverwriteStep(s: State, a: Action, closes: bool)
    requires s.pump.PushStore? ==> s.work == Empty
    requires s.pump.CloseStore? ==> s.work != CloseMark
    ensures Step(s, a, closes).overwritten <==> s.overwritten || Overwrites(s, a)
  {
    match a
    case Stop =>
    case PumpAct(supply, next) => PumpOverwrites(s, supply, next, closes);
    case WorkAct(result, crash) => WorkOverwritesNot(s, result, crash);
  }

  /** At some point of the run the pump makes such a store. */
  predicate SomeOverwrites(acts: seq<Action>, closes: bool)
  {
    acts != [] &&
    var k := |acts| - 1;
    SomeOverwrites(acts[..k], closes) || Overwrites(Run(Init(), acts[..k], closes), acts[k])
  }

  /** The mailbox is overwritten exactly by such a store. */
  lemma {:induction false} OverwrittenIff(acts: seq<Action>, closes: bool)
    ensures Run(Init(), acts, closes).overwritten <==> SomeOverwrites(acts, closes)
  {
    if acts != [] {
      var k := |acts| - 1;
      var s := Run(Init(), acts[..k], closes);
      OverwrittenIff(acts[..k], closes);
      RunInv(acts[..k], closes);
      BeforeStore(s);
      OverwriteStep(s, acts[k], closes);
    }
  }

  // ---------- How the worker comes to an empty mailbox ----------

  /** The pump stores the end mark between the worker's read of the slot and its clearing of it. */
  predicate LosesMark(s: State, a: Action)
  {
    s.pump.CloseStore? && s.worker.WClearWork? && a.PumpAct?
  }

  predicate MarkLost(acts: seq<Action>, closes: bool)
  {
    acts != [] &&
    var k := |acts| - 1;
    MarkLost(acts[..k], closes) || LosesMark(Run(Init(), acts[..k], closes), acts[k])
  }

  /** From then on nothing is in the slot once the worker has cleared it. */
  predicate Cleared(s: State)
  {
    Marked(s.pump) && (s.worker.WClearWork? || s.work.Empty?)
  }

  lemma ClearedStays(s: State, a: Action, closes: bool)
    requires Cleared(s) || LosesMark(s, a)
    ensures Cleared(Step(s, a, closes))
  {
    match a
    case Stop =>
    case PumpAct(_, _) =>
    case WorkAct(_, _) =>
  }

  predicate Between(worker: WorkerPc)
  {
    worker.WTop? || worker.WWait? || worker.WBusy? || worker.WSetRv? || worker.WSetDone?
  }

  /** As long as no mark is lost, a worker that has been woken, or is about to be, finds something. */
  predicate Filled(pump: PumpPc, worker: WorkerPc, work: Mail, go: bool)
  {
    && (worker.WRead? || (go && Between(worker)) ==> !work.Empty?)
    && (pump.CloseGo? ==>
          || work == CloseMark || worker == WClearGo(CloseMark)
          || worker.WDead? || worker.WCrashed? || worker.WCrashedEmpty?)
    && (pump.CloseGo? && worker.WClearWork? ==> worker.mail == CloseMark)
  }

  predicate FilledIn(s: State)
  {
    Filled(s.pump, s.worker, s.work, s.go)
  }

  /** Only four statements of the pump have to do with the mailbox. */
  predicate Mails(p: PumpPc)
  {
    p.PushStore? || p.PushGo? || p.CloseStore? || p.CloseGo?
  }

  /** A statement that leaves the mailbox and the worker alone and is not followed by the end mark's signal. */
  predicate Aside(s: State, t: State)
  {
    t.work == s.work && t.go == s.go && t.worker == s.worker && !t.pump.CloseGo?
  }

  lemma FetchAside(s: State, supply: Rv, next: Option<Batch>, closes: bool)
    requires s.pump.Top? || s.pump.Wait?
    ensures Aside(s, PumpStep(s, supply, next, closes))
  {
    match s.pump
    case Top =>
    case Wait(_) =>
  }

  lemma CheckAside(s: State, supply: Rv, next: Option<Batch>, closes: bool)
    requires s.pump.Got? || s.pump.PushAlive? || s.pump.CloseAlive?
    ensures Aside(s, PumpStep(s, supply, next, closes))
  {
    match s.pump
    case Got(_) =>
    case PushAlive =>
    case CloseAlive(_) =>
  }

  lemma EndAside(s: State, supply: Rv, next: Option<Batch>, closes: bool)
    requires s.pump.Compare? || s.pump.Returned?
    ensures Aside(s, PumpStep(s, supply, next, closes))
  {
    match s.pump
    case Compare(_) =>
    case Returned(_, _) =>
  }

  lemma PumpMails(s: State, supply: Rv, next: Option<Batch>, closes: bool)
    requires Mails(s.pump)
    ensures var t := PumpStep(s, supply, next, closes);
      match s.pump
      case CloseStore(rv) => (t.pump, t.work, t.go, t.worker) == (CloseGo(rv), CloseMark, s.go, s.worker)
      case CloseGo(rv) => (t.pump, t.work, t.go, t.worker) == (Compare(rv), s.work, true, s.worker)
      case PushGo => (t.pump, t.work, t.go, t.worker) == (Top, s.work, true, s.worker)
      case _ => t.go == s.go && t.worker == s.worker && !t.pump.CloseGo? && (t.work.Item? || t == s)
  {
  }

  lemma PumpAside(s: State, supply: Rv, next: Option<Batch>, closes: bool)
    requires !Mails(s.pump)
    ensures Aside(s, PumpStep(s, supply, next, closes))
  {
    if s.pump.Top? || s.pump.Wait? {
      FetchAside(s, supply, next, closes);
    } else if s.pump.Compare? || s.pump.Returned? {
      EndAside(s, supply, next, closes);
    } else {
      CheckAside(s, supply, next, closes);
    }
  }

  lemma PumpKeepsFilled(s: State, supply: Rv, next: Option<Batch>, closes: bool)
    requires FilledIn(s) && (s.pump.PushGo? ==> s.work.Item?) && !(s.pump.CloseStore? && s.worker.WClearWork?)
    ensures FilledIn(PumpStep(s, supply, next, closes))
  {
    if Mails(s.pump) {
      PumpMails(s, supply, next, closes);
    } else {
      PumpAside(s, supply, next, closes);
    }
  }

  lemma WakeKeepsFilled(s: State, result: Rv, crash: bool)
    requires FilledIn(s) && (s.worker.WTop? || s.worker.WWait? || s.worker.WRead?)
    ensures FilledIn(WorkStep(s, result, crash))
  {
    match s.worker
    case WTop =>
    case WWait =>
    case WRead =>
  }

  lemma ClearKeepsFilled(s: State, result: Rv, crash: bool)
    requires FilledIn(s) && (s.worker.WClearWork? || s.worker.WClearGo?)
    ensures FilledIn(WorkStep(s, result, crash))
  {
    match s.worker
    case WClearWork(_) =>
    case WClearGo(_) =>
  }

  lemma WorkAside(s: State, result: Rv, crash: bool)
    requires !(s.worker.WTop? || s.worker.WWait? || Pulling(s.worker))
    ensures var t := WorkStep(s, result, crash);
      && t.pump == s.pump && t.work == s.work && t.go == s.go
      && (t == s || (Between(s.worker) && (Between(t.worker) || t.worker.WDead? || t.worker.WCrashed?)))
  {
    match s.worker
    case WBusy(_) =>
    case WSetRv(_, _) =>
    case WSetDone(_, _) =>
    case _ =>
  }

  lemma WorkKeepsFilled(s: State, result: Rv, crash: bool)
    requires FilledIn(s)
    ensures FilledIn(WorkStep(s, result, crash))
  {
    if s.worker.WTop? || s.worker.WWait? || s.worker.WRead? {
      WakeKeepsFilled(s, result, crash);
    } else if s.worker.WClearWork? || s.worker.WClearGo? {
      ClearKeepsFilled(s, result, crash);
    } else {
      WorkAside(s, result, crash);
    }
  }

  lemma PushHolds(s: State)
    requires MailOk(s)
    ensures s.pump.PushGo? ==> s.work.Item?
  {
  }

  lemma {:induction false} ClearedOrFilled(acts: seq<Action>, closes: bool)
    ensures if MarkLost(acts, closes) then Cleared(Run(Init(), acts, closes)) else FilledIn(Run(Init(), acts, closes))
  {
    if acts != [] {
      var k := |acts| - 1;
      var s := Run(Init(), acts[..k], closes);
      ClearedOrFilled(acts[..k], closes);
      if MarkLost(acts, closes) {
        ClearedStays(s, acts[k], closes);
      } else {
        RunInv(acts[..k], closes);
        PushHolds(s);
        FilledStep(s, acts[k], closes);
      }
    }
  }

  lemma FilledStep(s: State, a: Action, closes: bool)
    requires FilledIn(s) && (s.pump.PushGo? ==> s.work.Item?) && !LosesMark(s, a)
    ensures FilledIn(Step(s, a, closes))
  {
    match a
    case Stop =>
    case PumpAct(supply, next) => PumpKeepsFilled(s, supply, next, closes);
    case WorkAct(result, crash) => WorkKeepsFilled(s, result, crash);
  }

  /** At some point after such a loss the worker comes back to read. */
  predicate ReadsAfterLoss(acts: seq<Action>, closes: bool)
  {
    acts != [] &&
    var k := |acts| - 1;
    || ReadsAfterLoss(acts[..k], closes)
    || (MarkLost(acts[..k], closes) && Run(Init(), acts[..k], closes).worker.WRead? && acts[k].WorkAct?)
  }

  lemma PumpMovesNotWorker(s: State, supply: Rv, next: Option<Batch>, closes: bool)
    ensures PumpStep(s, supply, next, closes).worker == s.worker
  {
    if Mails(s.pump) {
      PumpMails(s, supply, next, closes);
    } else {
      PumpAside(s, supply, next, closes);
    }
  }

  /** The worker dies of an empty mailbox exactly when the end mark was stored between its read and its clearing of
      the slot, and it then came back to read. */
  lemma {:induction false} EmptyMailboxIff(acts: seq<Action>, closes: bool)
    ensures Run(Init(), acts, closes).worker.WCrashedEmpty? <==> ReadsAfterLoss(acts, closes)
  {
    if acts != [] {
      var k := |acts| - 1;
      var s := Run(Init(), acts[..k], closes);
      EmptyMailboxIff(acts[..k], closes);
      ClearedOrFilled(acts[..k], closes);
      match acts[k]
      case Stop =>
      case PumpAct(supply, next) => PumpMovesNotWorker(s, supply, next, closes);
      case WorkAct(result, crash) => WorkOverwritesNot(s, result, crash);
    }
  }
}
