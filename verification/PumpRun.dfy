/** Pump.run and the sink's worker thread, handing batches over through a one-slot mailbox and an
    event. Every interleaving of their atomic steps is a list of actions; the invariant below holds
    after each of them. */
module PumpRun {
  import opened Wire

  datatype Batch = Batch(size: nat, bytes: nat)

  datatype Rv = Ok | SourceError(code: nat) | SinkError(code: nat) | DeadWorker

  datatype Totals = Totals(batch: nat, msg: nat, byte: nat)

  function Count(t: Totals, b: Batch): Totals
  {
    Totals(t.batch + 1, t.msg + b.size, t.byte + b.bytes)
  }

  /** A SinkBatchFuture: the k-th one belongs to the k-th batch. */
  datatype Future = Future(doneRv: Option<Rv>, done: bool)

  datatype Mail = Empty | Item(k: nat) | CloseMark

  /** Where Pump.run is. `Get(next)` follows the wait on the previous future; the three Push states are
      the statements of push_next_batch, and the three Close states those of the push in Sink.close. */
  datatype PumpPc =
    | Top | Wait(next: Option<Batch>) | Got(next: Option<Batch>)
    | PushAlive | PushStore | PushGo
    | CloseAlive(rv: Rv) | CloseStore(rv: Rv) | CloseGo(rv: Rv) | Compare(rv: Rv)
    | Returned(rv: Rv, missing: bool)  // `missing`: the "sink missing some source msgs" error instead of 0

  /** Where the worker is: pull_next_batch is Wait, Read, ClearWork, ClearGo. */
  datatype WorkerPc =
    | WTop | WWait | WRead | WClearWork(mail: Mail) | WClearGo(mail: Mail)
    | WBusy(k: nat) | WSetRv(k: nat, rv: Rv) | WSetDone(k: nat, rv: Rv)
    | WDead | WCrashed        // an exception outside the handled ones
    | WCrashedEmpty           // unpacking an empty mailbox

  datatype State = State(
    stop: bool,
    pump: PumpPc, provided: seq<Batch>, exhausted: bool, futures: seq<Future>,  // exhausted: provide_batch gave None
    src: Totals, snk: Totals,  // tot_source_* and tot_sink_*
    work: Mail, go: bool, overwritten: bool,
    worker: WorkerPc, pulled: seq<nat>, consumed: seq<nat>)

  datatype Action =
    | Stop                                   // somebody sets ctl['stop']
    | PumpAct(supply: Rv, next: Option<Batch>)  // what provide_batch returns, if this step calls it
    | WorkAct(result: Rv, crash: bool)       // how the sink fares, if this step ends its work

  function Init(): State
  {
    State(false, Top, [], false, [], Totals(0, 0, 0), Totals(0, 0, 0), Empty, false, false, WTop, [], [])
  }

  function Close(s: State, rv: Rv, closes: bool): State
  {
    s.(pump := if closes then CloseAlive(rv) else Compare(rv))
  }

  predicate Alive(s: State)
  {
    !s.worker.WDead? && !s.worker.WCrashed? && !s.worker.WCrashedEmpty?
  }

  /** One statement of the pump; a blocked statement leaves the state as it is. `closes` says whether the
      sink's close pushes an end mark, as MCSink does and BFDSink does not. */
  function PumpStep(s: State, supply: Rv, next: Option<Batch>, closes: bool): State
  {
    match s.pump
    case Top =>
      if s.stop then Close(s, Ok, closes)
      else if supply != Ok then Close(s, supply, closes)
      else
        var t := s.(provided := if next.Some? then s.provided + [next.value] else s.provided,
                    exhausted := s.exhausted || next.None?);
        t.(pump := if s.futures != [] then Wait(next) else Got(next))
    case Wait(nxt) =>
      if s.futures == [] || !s.futures[|s.futures| - 1].done then s
      else
        var k := |s.futures| - 1;
        var rv := if s.futures[k].doneRv.Some? then s.futures[k].doneRv.value else Ok;
        if rv != Ok then Close(s, rv, closes)
        else if k >= |s.provided| then s
        else s.(pump := Got(nxt), snk := Count(s.snk, s.provided[k]))
    case Got(nxt) =>
      if nxt.None? then Close(s, Ok, closes)
      else s.(pump := PushAlive, futures := s.futures + [Future(None, false)], src := Count(s.src, nxt.value))
    case PushAlive => if Alive(s) then s.(pump := PushStore) else Close(s, DeadWorker, closes)
    case PushStore =>
      if s.futures == [] then s
      else s.(pump := PushGo, work := Item(|s.futures| - 1), overwritten := s.overwritten || s.work != Empty)
    case PushGo => s.(pump := Top, go := true)
    case CloseAlive(rv) => s.(pump := if Alive(s) then CloseStore(rv) else Compare(rv))
    case CloseStore(rv) =>
      s.(pump := CloseGo(rv), work := CloseMark, overwritten := s.overwritten || s.work != Empty)
    case CloseGo(rv) => s.(pump := Compare(rv), go := true)
    case Compare(rv) =>
      s.(pump := Returned(rv, rv == Ok &&
           (s.src.batch != s.snk.batch || s.src.msg != s.snk.msg || s.src.byte != s.snk.byte)))
    case Returned(_, _) => s
  }

  /** One statement of the sink's worker thread. */
  function WorkStep(s: State, result: Rv, crash: bool): State
  {
    match s.worker
    case WTop => s.(worker := if s.stop then WDead else WWait)
    case WWait => if s.go then s.(worker := WRead) else s
    case WRead =>
      (match s.work
       case Empty => s.(worker := WCrashedEmpty)
       case Item(k) => s.(worker := WClearWork(s.work), pulled := s.pulled + [k])
       case CloseMark => s.(worker := WClearWork(s.work)))
    case WClearWork(m) => s.(worker := WClearGo(m), work := Empty)
    case WClearGo(m) => s.(worker := if m.Item? then WBusy(m.k) else WDead, go := false)
    case WBusy(k) =>
      if crash then s.(worker := WCrashed)
      else s.(worker := WSetRv(k, result), consumed := if result == Ok then s.consumed + [k] else s.consumed)
    case WSetRv(k, rv) =>
      if k >= |s.futures| then s
      else s.(worker := WSetDone(k, rv), futures := s.futures[k := s.futures[k].(doneRv := Some(rv))])
    case WSetDone(k, rv) =>
      if k >= |s.futures| then s
      else s.(worker := if rv == Ok then WTop else WDead, futures := s.futures[k := s.futures[k].(done := true)])
    case _ => s
  }

  function Step(s: State, a: Action, closes: bool): State
  {
    match a
    case Stop => s.(stop := true)
    case PumpAct(supply, next) => PumpStep(s, supply, next, closes)
    case WorkAct(result, crash) => WorkStep(s, result, crash)
  }

  function Run(s: State, acts: seq<Action>, closes: bool): State
  {
    if acts == [] then s else Step(Run(s, acts[..|acts| - 1], closes), acts[|acts| - 1], closes)
  }

  // ---------- The invariant ----------

  function Iota(n: nat): (r: seq<nat>)
    ensures |r| == n && forall i :: 0 <= i < n ==> r[i] == i
  {
    seq(n, i => i)
  }

  function BatchMsgs(bs: seq<Batch>): nat
  {
    if bs == [] then 0 else BatchMsgs(bs[..|bs| - 1]) + bs[|bs| - 1].size
  }

  function BatchBytes(bs: seq<Batch>): nat
  {
    if bs == [] then 0 else BatchBytes(bs[..|bs| - 1]) + bs[|bs| - 1].bytes
  }

  /** Past the point where Sink.close has stored its end mark. */
  predicate Marked(p: PumpPc)
  {
    p.CloseGo? || p.Compare? || p.Returned?
  }

  predicate Closing(p: PumpPc)
  {
    p.CloseAlive? || p.CloseStore? || Marked(p)
  }

  ghost predicate Sums(t: Totals, bs: seq<Batch>)
  {
    t.batch <= |bs| && t.msg == BatchMsgs(bs[..t.batch]) && t.byte == BatchBytes(bs[..t.batch])
  }

  /** How far the pump is ahead of the sink: with `n` batches provided, `m` pushed and `w` waited for,
      by at most one. */
  ghost predicate PumpAt(pump: PumpPc, stop: bool, provided: seq<Batch>, m: nat, w: nat)
  {
    var n := |provided|;
    match pump
    case Top => n == m && (m > 0 ==> w == m - 1) && w <= m
    case Wait(next) => m > 0 && w == m - 1 && Ahead(provided, m, next)
    case Got(next) => w == m && Ahead(provided, m, next)
    case PushAlive => n == m && m > 0 && w == m - 1
    case PushStore => n == m && m > 0 && w == m - 1
    case PushGo => n == m && m > 0 && w == m - 1
    case _ =>
      && m - 1 <= w <= m <= n
      && (pump.rv == Ok ==> n == m && (w == m || stop))
      && (pump.Returned? ==> (pump.missing <==> pump.rv == Ok && w == m - 1))
  }

  ghost predicate Ahead(provided: seq<Batch>, m: nat, next: Option<Batch>)
  {
    if next.Some? then |provided| == m + 1 && provided[m] == next.value else |provided| == m
  }

  ghost predicate FuturesOk(futures: seq<Future>, w: nat, p: nat, c: nat)
  {
    && w <= c <= p <= |futures| && p <= c + 1
    && (forall i :: 0 <= i < |futures| && futures[i].done ==>
          i < p && futures[i].doneRv.Some? && (futures[i].doneRv.value == Ok ==> i < c))
    && (forall i :: 0 <= i < w ==> futures[i].done && futures[i].doneRv == Some(Ok))
  }

  /** What the worker holds, having pulled `p` batches and stored `c` of them. */
  ghost predicate WorkerAt(worker: WorkerPc, futures: seq<Future>, p: nat, c: nat)
  {
    match worker
    case WClearWork(mail) => HoldsMail(mail, futures, p, c)
    case WClearGo(mail) => HoldsMail(mail, futures, p, c)
    case WBusy(k) => Holds(k, futures, p, c)
    case WSetRv(k, rv) => p == k + 1 <= |futures| && c == (if rv == Ok then p else k) && !futures[k].done
    case WSetDone(k, rv) => p == k + 1 <= |futures| && c == (if rv == Ok then p else k)
                            && futures[k] == Future(Some(rv), false)
    case WDead => true
    case WCrashed => true
    case _ => Told(futures, p, c)
  }

  ghost predicate Told(futures: seq<Future>, p: nat, c: nat)
  {
    c == p <= |futures| && (p > 0 ==> futures[p - 1].done)
  }

  ghost predicate Holds(k: nat, futures: seq<Future>, p: nat, c: nat)
  {
    p == k + 1 && c == k && k < |futures| && !futures[k].done
  }

  ghost predicate HoldsMail(mail: Mail, futures: seq<Future>, p: nat, c: nat)
  {
    match mail
    case Item(k) => Holds(k, futures, p, c)
    case CloseMark => Told(futures, p, c)
    case Empty => false
  }

  predicate Pulling(worker: WorkerPc)
  {
    worker.WRead? || worker.WClearWork? || worker.WClearGo?
  }

  /** The mailbox before close stores its end mark: `m` batches pushed, `p` pulled, `w` waited for. */
  ghost predicate MailAt(pump: PumpPc, worker: WorkerPc, work: Mail, go: bool, m: nat, p: nat, w: nat)
  {
    if pump.PushAlive? || pump.PushStore? then p + 1 == m && work == Empty && !go && !Pulling(worker)
    else if pump.PushGo? then p + 1 == m && work == Item(m - 1) && !go && !Pulling(worker)
    else if worker.WClearWork? then p == m && p > 0 && worker.mail == Item(p - 1) == work && go
    else if worker.WClearGo? then p == m && p > 0 && worker.mail == Item(p - 1) && work == Empty && go
    else if p == m then work == Empty && !go && !worker.WRead?
    else if Closing(pump) then w < m && ((work == Empty && !go && !worker.WRead?) || (work == Item(m - 1) && go))
    else m > 0 && work == Item(m - 1) && go
  }

  /** The mailbox afterwards, if nothing was outstanding. */
  ghost predicate MarkAt(pump: PumpPc, worker: WorkerPc, work: Mail, go: bool)
  {
    && (pump.CloseGo? ==> work == CloseMark && !go && !Pulling(worker))
    && (worker.WRead? || (go && (worker.WTop? || worker.WWait?)) ==> work == CloseMark)
  }

  ghost predicate MailOk(s: State)
  {
    var m, p, w := |s.futures|, |s.pulled|, s.snk.batch;
    && (!Marked(s.pump) ==> MailAt(s.pump, s.worker, s.work, s.go, m, p, w))
    && (Marked(s.pump) && w == m ==> MarkAt(s.pump, s.worker, s.work, s.go))
    && (!Marked(s.pump) || w == m ==> !s.overwritten && !s.worker.WCrashedEmpty?)
    && (s.work.Item? ==> s.work.k == m - 1 && (p == s.work.k || s.worker.WClearWork?))
  }

  /** What makes the worker leave: a stop request, the end mark, or an error it has told. */
  ghost predicate DeathOk(s: State)
  {
    var p := |s.pulled|;
    s.worker.WDead? ==>
      || s.stop || Marked(s.pump)
      || (0 < p <= |s.futures| && s.futures[p - 1].done && s.futures[p - 1].doneRv != Some(Ok))
  }

  /** A pump that ends well has seen the source exhausted, unless it was told to stop. */
  ghost predicate SourceOk(s: State)
  {
    && ((s.pump.Wait? || s.pump.Got?) && s.pump.next.None? ==> s.exhausted)
    && (Closing(s.pump) && s.pump.rv == Ok ==>
        s.exhausted || (s.stop && (s.snk.batch == |s.futures| ==> s.futures == [])))
  }

  ghost predicate Inv(s: State)
  {
    && s.src.batch == |s.futures| && Sums(s.src, s.provided) && Sums(s.snk, s.provided)
    && PumpAt(s.pump, s.stop, s.provided, |s.futures|, s.snk.batch)
    && s.pulled == Iota(|s.pulled|) && s.consumed == Iota(|s.consumed|)
    && FuturesOk(s.futures, s.snk.batch, |s.pulled|, |s.consumed|)
    && WorkerAt(s.worker, s.futures, |s.pulled|, |s.consumed|)
    && MailOk(s) && DeathOk(s) && SourceOk(s)
  }

  lemma {:induction false} InitInv()
    ensures Inv(Init())
  {
    assert Iota(0) == [];
  }

  lemma StopKeeps(s: State)
    requires Inv(s)
    ensures Inv(s.(stop := true))
  {
  }

  lemma CountSums(t: Totals, bs: seq<Batch>)
    requires Sums(t, bs) && t.batch < |bs|
    ensures Sums(Count(t, bs[t.batch]), bs)
  {
    assert bs[..t.batch + 1][..t.batch] == bs[..t.batch];
  }

  lemma ProvideSums(t: Totals, bs: seq<Batch>, b: Batch)
    requires Sums(t, bs)
    ensures Sums(t, bs + [b])
  {
    assert (bs + [b])[..t.batch] == bs[..t.batch];
  }

  lemma PumpProvides(s: State, supply: Rv, next: Option<Batch>, closes: bool)
    requires Inv(s) && (s.pump.Top?)
    ensures Inv(PumpStep(s, supply, next, closes))
  {
    if s.stop {
      PumpGivesUp(s, Ok, closes);
    } else if supply != Ok {
      PumpGivesUp(s, supply, closes);
    } else {
      PumpGets(s, next);
    }
  }

  lemma PumpGets(s: State, next: Option<Batch>)
    requires Inv(s) && s.pump.Top? && !s.stop
    ensures Inv(PumpStep(s, Ok, next, true))
  {
    if next.Some? {
      ProvideSums(s.src, s.provided, next.value);
      ProvideSums(s.snk, s.provided, next.value);
    }
  }

  lemma WaitedFutures(futures: seq<Future>, w: nat, p: nat, c: nat)
    requires FuturesOk(futures, w, p, c) && w + 1 == |futures| && futures[w].done && futures[w].doneRv == Some(Ok)
    ensures FuturesOk(futures, w + 1, p, c) && c == p == |futures|
  {
  }

  lemma PumpWaits(s: State, supply: Rv, next: Option<Batch>, closes: bool)
    requires Inv(s) && (s.pump.Wait?)
    ensures Inv(PumpStep(s, supply, next, closes))
  {
    var w := s.snk.batch;
    if s.futures[w].done {
      if s.futures[w].doneRv == Some(Ok) {
        PumpCounts(s);
      } else {
        PumpGivesUp(s, s.futures[w].doneRv.value, closes);
      }
    }
  }

  lemma PumpCounts(s: State)
    requires Inv(s) && s.pump.Wait? && s.futures[s.snk.batch].done && s.futures[s.snk.batch].doneRv == Some(Ok)
    ensures Inv(s.(pump := Got(s.pump.next), snk := Count(s.snk, s.provided[s.snk.batch])))
  {
    WaitedFutures(s.futures, s.snk.batch, |s.pulled|, |s.consumed|);
    CountSums(s.snk, s.provided);
  }

  /** Leaving the loop, from any of the places that do. */
  lemma PumpGivesUp(s: State, rv: Rv, closes: bool)
    requires Inv(s) && (s.pump.Top? || s.pump.Wait? || s.pump.Got? || s.pump.PushAlive?)
    requires rv == Ok ==> (s.pump.Top? && s.stop) || (s.pump.Got? && s.pump.next.None?)
    ensures Inv(Close(s, rv, closes))
  {
    assert MailOk(Close(s, rv, closes));
  }

  lemma PumpTakes(s: State, supply: Rv, next: Option<Batch>, closes: bool)
    requires Inv(s) && (s.pump.Got?)
    ensures Inv(PumpStep(s, supply, next, closes))
  {
    if s.pump.next.Some? {
      CountSums(s.src, s.provided);
    } else {
      PumpGivesUp(s, Ok, closes);
    }
  }

  lemma PumpChecksWorker(s: State, supply: Rv, next: Option<Batch>, closes: bool)
    requires Inv(s) && (s.pump.PushAlive?)
    ensures Inv(PumpStep(s, supply, next, closes))
  {
    if !Alive(s) {
      PumpGivesUp(s, DeadWorker, closes);
    }
  }

  lemma PumpStores(s: State, supply: Rv, next: Option<Batch>, closes: bool)
    requires Inv(s) && (s.pump.PushStore?)
    ensures Inv(PumpStep(s, supply, next, closes))
  {
  }

  lemma PumpSignals(s: State, supply: Rv, next: Option<Batch>, closes: bool)
    requires Inv(s) && (s.pump.PushGo?)
    ensures Inv(PumpStep(s, supply, next, closes))
  {
  }

  lemma PumpCloses(s: State, supply: Rv, next: Option<Batch>, closes: bool)
    requires Inv(s) && (s.pump.CloseAlive? || s.pump.CloseStore? || s.pump.CloseGo?)
    ensures Inv(PumpStep(s, supply, next, closes))
  {
  }

  lemma PumpCompares(s: State, supply: Rv, next: Option<Batch>, closes: bool)
    requires Inv(s) && (s.pump.Compare? || s.pump.Returned?)
    ensures Inv(PumpStep(s, supply, next, closes))
  {
  }

  lemma PumpKeeps(s: State, supply: Rv, next: Option<Batch>, closes: bool)
    requires Inv(s)
    ensures Inv(PumpStep(s, supply, next, closes))
  {
    if s.pump.Top? { PumpProvides(s, supply, next, closes); }
    else if s.pump.Wait? { PumpWaits(s, supply, next, closes); }
    else if s.pump.Got? { PumpTakes(s, supply, next, closes); }
    else if s.pump.PushAlive? { PumpChecksWorker(s, supply, next, closes); }
    else if s.pump.PushStore? { PumpStores(s, supply, next, closes); }
    else if s.pump.PushGo? { PumpSignals(s, supply, next, closes); }
    else if s.pump.CloseAlive? || s.pump.CloseStore? || s.pump.CloseGo? { PumpCloses(s, supply, next, closes); }
    else { PumpCompares(s, supply, next, closes); }
  }

  lemma IotaSnoc(n: nat)
    ensures Iota(n) + [n] == Iota(n + 1)
  {
  }

  lemma WorkIdles(s: State, result: Rv, crash: bool)
    requires Inv(s) && (s.worker.WTop? || s.worker.WWait?)
    ensures Inv(WorkStep(s, result, crash))
  {
  }

  lemma PulledFutures(futures: seq<Future>, w: nat, p: nat, c: nat)
    requires FuturesOk(futures, w, p, c) && p == c < |futures|
    ensures FuturesOk(futures, w, p + 1, c) && !futures[p].done
  {
  }

  lemma ReadKeepsMail(s: State, result: Rv, crash: bool)
    requires Inv(s) && s.worker.WRead?
    ensures MailOk(WorkStep(s, result, crash))
  {
    if Marked(s.pump) && s.snk.batch == |s.futures| {
      assert s.work == CloseMark;
    } else if !Marked(s.pump) {
      assert s.work == Item(|s.futures| - 1) && |s.pulled| == |s.futures| - 1;
    }
  }

  lemma WorkPulls(s: State, result: Rv, crash: bool)
    requires Inv(s) && s.worker.WRead? && s.work.Item?
    ensures Inv(WorkStep(s, result, crash))
  {
    var k, t := s.work.k, WorkStep(s, result, crash);
    ReadKeepsMail(s, result, crash);
    assert |s.pulled| == k == |s.consumed| && t.pulled == s.pulled + [k];
    IotaSnoc(k);
    PulledFutures(s.futures, s.snk.batch, k, k);
    assert t.worker == WClearWork(Item(k)) && Holds(k, t.futures, k + 1, k);
  }

  lemma WorkReadsMark(s: State, result: Rv, crash: bool)
    requires Inv(s) && s.worker.WRead? && !s.work.Item?
    ensures Inv(WorkStep(s, result, crash))
  {
    ReadKeepsMail(s, result, crash);
    var t := WorkStep(s, result, crash);
    NewPlace(s, if s.work.Empty? then WCrashedEmpty else WClearWork(CloseMark));
  }

  /** A worker that only moves on, with nothing in hand. */
  lemma NewPlace(s: State, worker: WorkerPc)
    requires Inv(s) && s.worker.WRead? && (worker == WCrashedEmpty || worker == WClearWork(CloseMark))
    requires MailOk(s.(worker := worker))
    ensures Inv(s.(worker := worker))
  {
    assert Told(s.futures, |s.pulled|, |s.consumed|);
  }

  lemma WorkClears(s: State, result: Rv, crash: bool)
    requires Inv(s) && (s.worker.WClearWork? || s.worker.WClearGo?)
    ensures Inv(WorkStep(s, result, crash))
  {
  }

  lemma WorkFinishes(s: State, result: Rv, crash: bool)
    requires Inv(s) && (s.worker.WBusy?)
    ensures Inv(WorkStep(s, result, crash))
  {
    IotaSnoc(|s.consumed|);
  }

  lemma WorkTells(s: State, result: Rv, crash: bool)
    requires Inv(s) && (s.worker.WSetRv? || s.worker.WSetDone?)
    ensures Inv(WorkStep(s, result, crash))
  {
  }

  lemma WorkKeeps(s: State, result: Rv, crash: bool)
    requires Inv(s)
    ensures Inv(WorkStep(s, result, crash))
  {
    if s.worker.WTop? || s.worker.WWait? { WorkIdles(s, result, crash); }
    else if s.worker.WRead? && s.work.Item? { WorkPulls(s, result, crash); }
    else if s.worker.WRead? { WorkReadsMark(s, result, crash); }
    else if s.worker.WClearWork? || s.worker.WClearGo? { WorkClears(s, result, crash); }
    else if s.worker.WBusy? { WorkFinishes(s, result, crash); }
    else if s.worker.WSetRv? || s.worker.WSetDone? { WorkTells(s, result, crash); }
  }

  lemma {:induction false} RunInv(acts: seq<Action>, closes: bool)
    ensures Inv(Run(Init(), acts, closes))
  {
    if acts == [] {
      InitInv();
    } else {
      var k := |acts| - 1;
      RunInv(acts[..k], closes);
      var s := Run(Init(), acts[..k], closes);
      match acts[k] {
        case Stop => StopKeeps(s);
        case PumpAct(supply, next) => PumpKeeps(s, supply, next, closes);
        case WorkAct(result, crash) => WorkKeeps(s, result, crash);
      }
    }
  }

  // ---------- What every run keeps ----------

  /** Pump.run returns 0 only if the source had no more to give, or a stop request came before its first batch, and
      every batch it provided was pulled and stored, in order and once, through a mailbox that was never overwritten;
      and both sides counted exactly those batches. */
  lemma ZeroMeansAllStored(acts: seq<Action>, closes: bool)
    ensures var s := Run(Init(), acts, closes);
            s.pump == Returned(Ok, false) ==>
              && (s.exhausted || (s.stop && s.provided == []))
              && s.pulled == s.consumed == Iota(|s.provided|)
              && !s.overwritten && !s.worker.WCrashedEmpty?
              && s.src == s.snk == Totals(|s.provided|, BatchMsgs(s.provided), BatchBytes(s.provided))
  {
    var s := Run(Init(), acts, closes);
    RunInv(acts, closes);
    if s.pump == Returned(Ok, false) {
      assert s.provided[..|s.provided|] == s.provided;
    }
  }

  /** "Sink missing some source msgs" is reported exactly when the last batch was not waited for, which takes a
      stop request: all the others were stored. */
  lemma MissingMeansStopped(acts: seq<Action>, closes: bool)
    ensures var s := Run(Init(), acts, closes);
            s.pump.Returned? && s.pump.rv == Ok ==> (s.pump.missing <==> s.snk.batch != |s.provided|)
    ensures var s := Run(Init(), acts, closes);
            s.pump.Returned? && s.pump.missing ==>
              s.stop && |s.provided| > 0 && s.snk.batch == |s.provided| - 1 && |s.consumed| >= |s.provided| - 1
  {
    RunInv(acts, closes);
  }

  /** Whatever happens, batches are pulled and stored in order, each at most once, never ahead of the source;
      the mailbox is overwritten, and the worker trips over an empty one, only through the end mark of a pump
      that gave up on an outstanding batch. */
  lemma AlwaysInOrder(acts: seq<Action>, closes: bool)
    ensures var s := Run(Init(), acts, closes);
            && s.consumed <= s.pulled <= Iota(|s.provided|)
            && (s.overwritten || s.worker.WCrashedEmpty? ==> Marked(s.pump) && s.snk.batch < |s.futures|)
  {
    RunInv(acts, closes);
  }

  // ---------- When a pump hangs ----------

  predicate LastDone(s: State)
  {
    s.futures != [] && s.futures[|s.futures| - 1].done
  }

  /** A pump that waits for a batch nobody will finish: the worker is gone, or stands before a test of the stop flag
      that will make it go. */
  predicate Doomed(s: State)
  {
    s.pump.Wait? && !LastDone(s) && (!Alive(s) || (s.stop && s.worker.WTop?))
  }

  lemma DoomStays(s: State, a: Action, closes: bool)
    requires Doomed(s)
    ensures Doomed(Step(s, a, closes))
  {
  }

  lemma {:induction false} DoomedForever(s: State, more: seq<Action>, closes: bool)
    requires Doomed(s)
    ensures Doomed(Run(s, more, closes))
  {
    if more != [] {
      DoomedForever(s, more[..|more| - 1], closes);
      DoomStays(Run(s, more[..|more| - 1], closes), more[|more| - 1], closes);
    }
  }

  lemma RunSnoc(s: State, acts: seq<Action>, a: Action, closes: bool)
    ensures Run(s, acts + [a], closes) == Step(Run(s, acts, closes), a, closes)
  {
    assert (acts + [a])[..|acts|] == acts;
  }

  lemma {:induction false} RunCons(s: State, a: Action, more: seq<Action>, closes: bool)
    ensures Run(s, [a] + more, closes) == Run(Step(s, a, closes), more, closes)
  {
    var all := [a] + more;
    if more == [] {
      assert all[..0] == [] && all == [a];
    } else {
      RunCons(s, a, more[..|more| - 1], closes);
      assert all[..|all| - 1] == [a] + more[..|more| - 1];
    }
  }

  /** How many steps the worker is from telling its result. */
  function ToTell(worker: WorkerPc): nat
  {
    match worker
    case WTop => 8
    case WWait => 7
    case WRead => 6
    case WClearWork(_) => 5
    case WClearGo(_) => 4
    case WBusy(_) => 3
    case WSetRv(_, _) => 2
    case WSetDone(_, _) => 1
    case _ => 0
  }

  /** While the pump waits and is not doomed, the worker has a batch to work on and can take its next step. */
  lemma WorkerMoves(s: State)
    requires Inv(s) && s.pump.Wait? && !LastDone(s) && !Doomed(s)
    ensures var t := WorkStep(s, Ok, false);
      t.pump == s.pump && !Doomed(t) && (LastDone(t) || ToTell(t.worker) < ToTell(s.worker))
  {
    assert s.futures != [] && |s.pulled| <= |s.futures|;
  }

  /** A waiting pump that is not doomed can be answered. */
  lemma {:induction false} Answerable(s: State, closes: bool) returns (more: seq<Action>)
    requires Inv(s) && s.pump.Wait? && !Doomed(s)
    ensures !Run(s, more, closes).pump.Wait?
    decreases if LastDone(s) then 0 else 1, ToTell(s.worker)
  {
    if LastDone(s) {
      more := [PumpAct(Ok, None)];
      RunCons(s, PumpAct(Ok, None), [], closes);
    } else {
      var a := WorkAct(Ok, false);
      WorkerMoves(s);
      WorkKeeps(s, Ok, false);
      var rest := Answerable(WorkStep(s, Ok, false), closes);
      more := [a] + rest;
      RunCons(s, a, rest, closes);
    }
  }

  /** A waiting pump hangs, whatever happens next, exactly when it is doomed; and that takes a stop request or a
      worker that crashed. */
  lemma HangsIffDoomed(acts: seq<Action>, closes: bool)
    ensures var s := Run(Init(), acts, closes);
            s.pump.Wait? ==> ((forall more :: Run(s, more, closes).pump.Wait?) <==> Doomed(s))
    ensures var s := Run(Init(), acts, closes); Doomed(s) ==> s.stop || s.worker.WCrashed?
  {
    RunInv(acts, closes);
    WaitsIffDoomed(Run(Init(), acts, closes), closes);
  }

  lemma WaitsIffDoomed(s: State, closes: bool)
    requires Inv(s)
    ensures s.pump.Wait? ==> ((forall more :: Run(s, more, closes).pump.Wait?) <==> Doomed(s))
    ensures Doomed(s) ==> s.stop || s.worker.WCrashed?
  {
    if Doomed(s) {
      forall more ensures Run(s, more, closes).pump.Wait? {
        DoomedForever(s, more, closes);
      }
    } else if s.pump.Wait? {
      var more := Answerable(s, closes);
      assert !Run(s, more, closes).pump.Wait?;
    }
  }
}
