/** A chain of incremental backup sessions over a growing log. Each session asks for what lies above the
    highest recorded seqno of each vbucket, stores what arrives and records how far it got. */
module Sessions {
  import opened Wire
  import opened Batches
  import opened Backup

  /** A source log: within a vbucket, seqnos are positive and increase. */
  ghost predicate Increasing(log: seq<Row>)
  {
    && (forall i :: 0 <= i < |log| ==> log[i].seqno > 0 && 0 <= log[i].vbucket < NUM_VBUCKET)
    && (forall i, j :: 0 <= i < j < |log| && log[i].vbucket == log[j].vbucket ==> log[i].seqno < log[j].seqno)
  }

  /** One session: the order in which its entries arrived (vbuckets interleave, each in its own order), how
      many of them were committed, and the record it left. */
  datatype Session = Session(arrivals: seq<Row>, committed: nat, json: Record)

  /** `end` is how long the log was when the session's streams were opened. */
  datatype Chain = Start | Then(prev: Chain, end: nat, session: Session)

  function Jsons(c: Chain): seq<Record>
  {
    match c
    case Start => []
    case Then(prev, _, s) => Jsons(prev) + [s.json]
  }

  function Committed(s: Session): seq<Row>
  {
    if s.committed <= |s.arrivals| then s.arrivals[..s.committed] else s.arrivals
  }

  function Stored(c: Chain): seq<Row>
  {
    match c
    case Start => []
    case Then(prev, _, s) => Stored(prev) + Committed(s)
  }

  function End(c: Chain): nat
  {
    if c.Start? then 0 else c.end
  }

  /** The start seqno a session asks for: the highest the earlier sessions recorded. */
  function StartSeqno(c: Chain, v: int): nat
  {
    if v < 0 then 0 else HighestRecorded(Jsons(c), v)
  }

  lemma StartThen(c: Chain, v: nat)
    requires c.Then?
    ensures StartSeqno(c, v) == Max(StartSeqno(c.prev, v), Get(c.session.json, v))
  {
    assert (Jsons(c.prev) + [c.session.json])[..|Jsons(c.prev)|] == Jsons(c.prev);
  }

  /** What the streams of a session deliver: the log entries above each vbucket's start seqno. */
  function Above(log: seq<Row>, c: Chain): seq<Row>
  {
    if log == [] then []
    else
      var e := log[|log| - 1];
      Above(log[..|log| - 1], c) + if e.seqno > StartSeqno(c, e.vbucket) then [e] else []
  }

  ghost predicate WellFormed(s: Session)
  {
    Increasing(s.arrivals) && s.committed <= |s.arrivals| && Within(s.json, Committed(s))
  }

  /** A session that ran to its end: everything committed, everything recorded. */
  ghost predicate Complete(s: Session)
  {
    s.committed == |s.arrivals| && forall v: nat :: v < NUM_VBUCKET ==> Get(s.json, v) == High(s.arrivals, v)
  }

  /** A session whose record says how far it got, wherever that was. */
  ghost predicate Exact(s: Session)
  {
    forall v: nat :: v < NUM_VBUCKET ==> Get(s.json, v) == High(Committed(s), v)
  }

  ghost predicate AllExact(c: Chain)
  {
    c.Start? || (AllExact(c.prev) && Exact(c.session))
  }

  ghost predicate Legal(log: seq<Row>, c: Chain)
  {
    match c
    case Start => true
    case Then(prev, end, s) =>
      && Legal(log, prev) && End(prev) <= end <= |log| && WellFormed(s)
      && multiset(s.arrivals) == multiset(Above(log[..end], prev))
  }

  ghost predicate AllComplete(c: Chain)
  {
    c.Start? || (AllComplete(c.prev) && Complete(c.session))
  }

  // ---------- Highest seqnos ----------

  lemma {:induction false} HighBound(rows: seq<Row>, v: int, i: nat)
    requires i < |rows| && rows[i].vbucket == v
    ensures rows[i].seqno <= High(rows, v)
  {
    if i < |rows| - 1 {
      HighBound(rows[..|rows| - 1], v, i);
    }
  }

  lemma {:induction false} HighWitness(rows: seq<Row>, v: int) returns (i: nat)
    requires High(rows, v) > 0
    ensures i < |rows| && rows[i].vbucket == v && rows[i].seqno == High(rows, v)
  {
    var k := |rows| - 1;
    if rows[k].vbucket == v && rows[k].seqno == High(rows, v) {
      i := k;
    } else {
      i := HighWitness(rows[..k], v);
    }
  }

  lemma HighMono(a: seq<Row>, b: seq<Row>, v: int)
    requires forall i :: 0 <= i < |a| ==> a[i] in b
    ensures High(a, v) <= High(b, v)
  {
    if High(a, v) > 0 {
      var i := HighWitness(a, v);
      var j :| 0 <= j < |b| && b[j] == a[i];
      HighBound(b, v, j);
    }
  }

  lemma MemberPermuted(a: seq<Row>, b: seq<Row>, e: Row)
    requires multiset(a) == multiset(b) && e in a
    ensures e in b
  {
    assert e in multiset(a);
  }

  /** The highest seqno does not depend on the order of arrival. */
  lemma HighPermuted(a: seq<Row>, b: seq<Row>, v: int)
    requires multiset(a) == multiset(b)
    ensures High(a, v) == High(b, v)
  {
    forall i | 0 <= i < |a| ensures a[i] in b {
      MemberPermuted(a, b, a[i]);
    }
    forall i | 0 <= i < |b| ensures b[i] in a {
      MemberPermuted(b, a, b[i]);
    }
    HighMono(a, b, v);
    HighMono(b, a, v);
  }

  // ---------- Complete sessions ----------

  ghost predicate UpTo(c: Chain, log: seq<Row>)
  {
    forall v: nat :: v < NUM_VBUCKET ==> StartSeqno(c, v) == High(log, v)
  }

  lemma EntryAfter(log: seq<Row>, n: nat, i: nat)
    requires Increasing(log) && n <= i < |log|
    ensures log[i].seqno > High(log[..n], log[i].vbucket)
  {
    if High(log[..n], log[i].vbucket) > 0 {
      var j := HighWitness(log[..n], log[i].vbucket);
      assert log[..n][j] == log[j];
    }
  }

  lemma AboveSnoc(log: seq<Row>, c: Chain, m: nat)
    requires m < |log|
    ensures Above(log[..m + 1], c) ==
      Above(log[..m], c) + if log[m].seqno > StartSeqno(c, log[m].vbucket) then [log[m]] else []
  {
    assert log[..m + 1][..m] == log[..m];
  }

  /** When the records say exactly how far the log was at `n`, an entry is above them just when it came later. */
  lemma AboveIsLater(log: seq<Row>, n: nat, k: nat, c: Chain)
    requires Increasing(log) && n <= |log| && k < |log| && UpTo(c, log[..n])
    ensures log[k].seqno > StartSeqno(c, log[k].vbucket) <==> k >= n
  {
    if k < n {
      assert log[..n][k] == log[k];
      HighBound(log[..n], log[k].vbucket, k);
    } else {
      EntryAfter(log, n, k);
    }
  }

  lemma SliceSnoc<T>(s: seq<T>, n: nat, m: nat)
    requires n < m <= |s|
    ensures s[n..m] == s[n..m - 1] + [s[m - 1]]
  {
  }

  /** So nothing up to `n` is above them, */
  lemma {:induction false} NothingAbove(log: seq<Row>, n: nat, m: nat, c: Chain)
    requires Increasing(log) && m <= n <= |log| && UpTo(c, log[..n])
    ensures Above(log[..m], c) == []
    decreases m
  {
    if m > 0 {
      NothingAbove(log, n, m - 1, c);
      AboveSnoc(log, c, m - 1);
      AboveIsLater(log, n, m - 1, c);
    }
  }

  /** and what is above them is the rest of the log. */
  lemma {:induction false} DeliveredIsRest(log: seq<Row>, n: nat, m: nat, c: Chain)
    requires Increasing(log) && n <= m <= |log| && UpTo(c, log[..n])
    ensures Above(log[..m], c) == log[n..m]
    decreases m
  {
    if m == n {
      NothingAbove(log, n, m, c);
    } else {
      DeliveredIsRest(log, n, m - 1, c);
      AboveSnoc(log, c, m - 1);
      AboveIsLater(log, n, m - 1, c);
      SliceSnoc(log, n, m);
    }
  }

  lemma Joined(stored: seq<Row>, more: seq<Row>, log: seq<Row>, n: nat, m: nat)
    requires n <= m <= |log| && multiset(stored) == multiset(log[..n]) && multiset(more) == multiset(log[n..m])
    ensures multiset(stored + more) == multiset(log[..m])
  {
    assert log[..m] == log[..n] + log[n..m];
  }

  /** One complete session moves the records from `n` to `m`. */
  lemma SessionStep(log: seq<Row>, n: nat, m: nat, c: Chain)
    requires Increasing(log) && n <= m <= |log| && c.Then? && UpTo(c.prev, log[..n]) && Complete(c.session)
    requires multiset(c.session.arrivals) == multiset(log[n..m])
    ensures UpTo(c, log[..m])
  {
    assert log[..m] == log[..n] + log[n..m];
    forall v: nat | v < NUM_VBUCKET ensures StartSeqno(c, v) == High(log[..m], v) {
      StartThen(c, v);
      HighPermuted(c.session.arrivals, log[n..m], v);
      HighAppend(log[..n], log[n..m], v);
    }
  }

  /** After any number of complete sessions, each log entry up to the last session's end is stored exactly
      once, nothing else is stored, and the records say exactly where that end is. */
  lemma {:induction false} ExactlyOnce(log: seq<Row>, c: Chain)
    requires Increasing(log) && Legal(log, c) && AllComplete(c)
    ensures End(c) <= |log|
    ensures multiset(Stored(c)) == multiset(log[..End(c)])
    ensures UpTo(c, log[..End(c)])
  {
    if c.Then? {
      var n, m := End(c.prev), c.end;
      ExactlyOnce(log, c.prev);
      DeliveredIsRest(log, n, m, c.prev);
      SessionStep(log, n, m, c);
      assert Committed(c.session) == c.session.arrivals;
      Joined(Stored(c.prev), c.session.arrivals, log, n, m);
    }
  }

  // ---------- Sessions cut short ----------

  lemma {:induction false} AboveMember(log: seq<Row>, c: Chain, e: Row)
    ensures e in Above(log, c) <==> e in log && e.seqno > StartSeqno(c, e.vbucket)
  {
    if log != [] {
      var k := |log| - 1;
      AboveMember(log[..k], c, e);
      assert log == log[..k] + [log[k]];
    }
  }

  /** An entry a session was sent and that lies within its record was committed. */
  lemma RecordedIsCommitted(s: Session, e: Row)
    requires WellFormed(s) && e in s.arrivals && e.seqno <= Get(s.json, e.vbucket)
    ensures e in Committed(s)
  {
    var rows := Committed(s);
    var j :| 0 <= j < |s.arrivals| && s.arrivals[j] == e;
    assert Get(s.json, e.vbucket) <= High(rows, e.vbucket);
    var i := HighWitness(rows, e.vbucket);
    assert rows[i] == s.arrivals[i];
    assert j <= i;
    assert rows[j] == e;
  }

  /** A session's record reaches no further than the log it saw. */
  lemma SeenBefore(log: seq<Row>, c: Chain, i: nat)
    requires Increasing(log) && c.Then? && Legal(log, c) && i < |log|
    requires log[i].seqno <= Get(c.session.json, log[i].vbucket)
    ensures i < c.end
  {
    var s, v := c.session, log[i].vbucket;
    assert Get(s.json, v) <= High(Committed(s), v);
    var j := HighWitness(Committed(s), v);
    var e := s.arrivals[j];
    MemberPermuted(s.arrivals, Above(log[..c.end], c.prev), e);
    AboveMember(log[..c.end], c.prev, e);
    var q :| 0 <= q < c.end && log[..c.end][q] == e;
    assert log[q] == e && i <= q;
  }

  /** Even when sessions were cut short, at any point and any number of times, nothing is skipped: an entry
      at or below its vbucket's recorded seqno is stored. */
  lemma {:induction false} NeverSkips(log: seq<Row>, c: Chain, i: nat)
    requires Increasing(log) && Legal(log, c) && i < |log|
    requires log[i].seqno <= StartSeqno(c, log[i].vbucket)
    ensures log[i] in Stored(c)
  {
    var e := log[i];
    if c.Start? {
      assert false;
    } else {
      StartThen(c, e.vbucket);
      if e.seqno <= StartSeqno(c.prev, e.vbucket) {
        NeverSkips(log, c.prev, i);
      } else {
        SeenBefore(log, c, i);
        assert log[..c.end][i] == e;
        AboveMember(log[..c.end], c.prev, e);
        MemberPermuted(Above(log[..c.end], c.prev), c.session.arrivals, e);
        RecordedIsCommitted(c.session, e);
      }
    }
  }

  lemma {:induction false} AtMostOnce(rows: seq<Row>, e: Row)
    requires Increasing(rows)
    ensures multiset(rows)[e] == if e in rows then 1 else 0
  {
    if rows != [] {
      var k := |rows| - 1;
      AtMostOnce(rows[..k], e);
      assert rows == rows[..k] + [rows[k]];
    }
  }

  /** What one session commits, if its record is exact: the entries between the earlier records and its own. */
  lemma CommittedIff(log: seq<Row>, c: Chain, e: Row)
    requires Increasing(log) && c.Then? && Legal(log, c) && Exact(c.session)
    ensures e in Committed(c.session) <==>
      e in log && StartSeqno(c.prev, e.vbucket) < e.seqno <= Get(c.session.json, e.vbucket)
  {
    var s := c.session;
    if e in Committed(s) {
      var i :| 0 <= i < |Committed(s)| && Committed(s)[i] == e;
      assert e == s.arrivals[i];
      MemberPermuted(s.arrivals, Above(log[..c.end], c.prev), e);
      AboveMember(log[..c.end], c.prev, e);
      HighBound(Committed(s), e.vbucket, i);
    } else if e in log && StartSeqno(c.prev, e.vbucket) < e.seqno <= Get(s.json, e.vbucket) {
      var i :| 0 <= i < |log| && log[i] == e;
      SeenBefore(log, c, i);
      assert log[..c.end][i] == e;
      AboveMember(log[..c.end], c.prev, e);
      MemberPermuted(Above(log[..c.end], c.prev), s.arrivals, e);
      RecordedIsCommitted(s, e);
    }
  }

  lemma CommittedOnce(s: Session, e: Row)
    requires WellFormed(s)
    ensures multiset(Committed(s))[e] == if e in Committed(s) then 1 else 0
  {
    AtMostOnce(Committed(s), e);
  }

  /** However sessions were cut short, as long as every one recorded what it committed: the entries stored are exactly
      those at or below the recorded seqnos, each of them once. */
  lemma {:induction false} StoredIsRecorded(log: seq<Row>, c: Chain, e: Row)
    requires Increasing(log) && Legal(log, c) && AllExact(c)
    ensures multiset(Stored(c))[e] == if e in log && e.seqno <= StartSeqno(c, e.vbucket) then 1 else 0
  {
    if c.Start? {
      assert e in log ==> e.seqno > 0;
    } else {
      StoredIsRecorded(log, c.prev, e);
      CommittedOnce(c.session, e);
      CommittedIff(log, c, e);
      if e in log {
        StartThen(c, e.vbucket);
      }
    }
  }

  // ---------- A session is a run of the sink ----------

  /** The rows a run of batches becomes. */
  function AllRows(batches: seq<seq<Msg>>, skip: Skipper): seq<Row>
  {
    if batches == [] then []
    else AllRows(batches[..|batches| - 1], skip) + Kept(batches[|batches| - 1], skip)
  }

  lemma {:induction false} AllRowsPrefix(batches: seq<seq<Msg>>, skip: Skipper, i: nat)
    requires i <= |batches|
    ensures AllRows(batches[..i], skip) <= AllRows(batches, skip)
  {
    if i == |batches| {
      assert batches[..i] == batches;
    } else {
      var k := |batches| - 1;
      AllRowsPrefix(batches[..k], skip, i);
      assert batches[..k][..i] == batches[..i];
    }
  }

  /** What one run of the sink leaves behind is a well-formed session, wherever it stops. */
  lemma RunIsSession(arrivals: seq<Row>, rows: seq<Row>, json: Record)
    requires Increasing(arrivals) && rows <= arrivals && Within(json, rows)
    ensures WellFormed(Session(arrivals, |rows|, json))
  {
    assert Committed(Session(arrivals, |rows|, json)) == rows;
  }

  /** What the record of a vbucket has become after a run of batches: it is written after every batch. */
  function RecordOf(batches: seq<seq<Msg>>, skip: Skipper, maxInt: nat, v: nat): nat
  {
    if batches == [] then 0
    else
      Higher(RecordOf(batches[..|batches| - 1], skip, maxInt, v), High(AllRows(batches, skip), v), maxInt)
  }

  /** The highest seqno of a vbucket after `k` of the batches. */
  function HighAt(batches: seq<seq<Msg>>, skip: Skipper, k: nat, v: nat): nat
    requires k <= |batches|
  {
    High(AllRows(batches[..k], skip), v)
  }

  /** A vbucket rises again after a batch that took it past the plain integers. */
  ghost predicate RisesAgain(batches: seq<seq<Msg>>, skip: Skipper, maxInt: nat, v: nat)
  {
    exists k :: 0 <= k <= |batches| && maxInt < HighAt(batches, skip, k, v) < High(AllRows(batches, skip), v)
  }

  lemma HighRises(batches: seq<seq<Msg>>, skip: Skipper, k: nat, v: nat)
    requires k <= |batches|
    ensures HighAt(batches, skip, k, v) <= High(AllRows(batches, skip), v)
  {
    AllRowsPrefix(batches, skip, k);
    var a, b := AllRows(batches[..k], skip), AllRows(batches, skip);
    forall i | 0 <= i < |a| ensures a[i] in b {
      assert a[i] == b[i];
    }
    HighMono(a, b, v);
  }

  /** Once a record has left the plain integers it stays what it is. */
  lemma {:induction false} Frozen(batches: seq<seq<Msg>>, skip: Skipper, maxInt: nat, v: nat, k: nat)
    requires k <= |batches| && HighAt(batches, skip, k, v) > maxInt
    ensures maxInt < RecordOf(batches, skip, maxInt, v) <= HighAt(batches, skip, k, v)
  {
    RecordBound(batches, skip, maxInt, v);
    if k == |batches| {
      assert batches[..k] == batches;
    } else {
      var init := batches[..|batches| - 1];
      assert init[..k] == batches[..k];
      Frozen(init, skip, maxInt, v, k);
    }
  }

  /** A record never exceeds what was stored, and falls short of it only past the plain integers; what it holds was
      the highest seqno at some point. */
  lemma {:induction false} RecordBound(batches: seq<seq<Msg>>, skip: Skipper, maxInt: nat, v: nat)
    ensures RecordOf(batches, skip, maxInt, v) <= High(AllRows(batches, skip), v)
    ensures RecordOf(batches, skip, maxInt, v) == High(AllRows(batches, skip), v)
         || RecordOf(batches, skip, maxInt, v) > maxInt
    ensures exists k :: 0 <= k <= |batches| && RecordOf(batches, skip, maxInt, v) == HighAt(batches, skip, k, v)
  {
    var n := |batches|;
    assert batches[..n] == batches;
    if n == 0 {
      assert HighAt(batches, skip, 0, v) == 0;
    } else {
      var init := batches[..n - 1];
      RecordBound(init, skip, maxInt, v);
      HighRises(batches, skip, n - 1, v);
      var k :| 0 <= k <= |init| && RecordOf(init, skip, maxInt, v) == HighAt(init, skip, k, v);
      assert init[..k] == batches[..k];
      assert HighAt(batches, skip, k, v) == HighAt(init, skip, k, v);
      assert HighAt(batches, skip, n, v) == High(AllRows(batches, skip), v);
    }
  }

  /** The record has the highest seqno of a vbucket if and only if the vbucket did not rise again after a batch that
      took it past the plain integers. */
  lemma RecordExact(batches: seq<seq<Msg>>, skip: Skipper, maxInt: nat, v: nat)
    ensures RecordOf(batches, skip, maxInt, v) == High(AllRows(batches, skip), v) <==>
      !RisesAgain(batches, skip, maxInt, v)
  {
    RecordBound(batches, skip, maxInt, v);
    if RisesAgain(batches, skip, maxInt, v) {
      var k :| 0 <= k <= |batches| && maxInt < HighAt(batches, skip, k, v) < High(AllRows(batches, skip), v);
      Frozen(batches, skip, maxInt, v, k);
    } else {
      var k :| 0 <= k <= |batches| && RecordOf(batches, skip, maxInt, v) == HighAt(batches, skip, k, v);
    }
  }

  /** No vbucket of a run does so. */
  ghost predicate NoneRises(batches: seq<seq<Msg>>, skip: Skipper, maxInt: nat)
  {
    forall v: nat :: v < NUM_VBUCKET ==> !RisesAgain(batches, skip, maxInt, v)
  }

  lemma PlainNeverRises(batches: seq<seq<Msg>>, skip: Skipper, maxInt: nat)
    requires forall r :: r in AllRows(batches, skip) ==> r.seqno <= maxInt
    ensures NoneRises(batches, skip, maxInt)
  {
    forall v: nat | v < NUM_VBUCKET ensures !RisesAgain(batches, skip, maxInt, v) {
      HighPlain(AllRows(batches, skip), v, maxInt);
    }
  }

  lemma {:induction false} HighPlain(rows: seq<Row>, v: int, bound: nat)
    requires forall r :: r in rows ==> r.seqno <= bound
    ensures High(rows, v) <= bound
  {
    if rows != [] {
      HighPlain(rows[..|rows| - 1], v, bound);
    }
  }

  /** The record of a run of batches. */
  ghost predicate RecordIs(json: Record, batches: seq<seq<Msg>>, skip: Skipper, maxInt: nat)
  {
    forall v: nat :: v < NUM_VBUCKET ==> Get(json, v) == RecordOf(batches, skip, maxInt, v)
  }

  lemma ExactIff(s: Session, batches: seq<seq<Msg>>, skip: Skipper, maxInt: nat)
    requires Committed(s) == AllRows(batches, skip) && RecordIs(s.json, batches, skip, maxInt)
    ensures Exact(s) <==> NoneRises(batches, skip, maxInt)
  {
    forall v: nat | v < NUM_VBUCKET
      ensures Get(s.json, v) == High(Committed(s), v) <==> !RisesAgain(batches, skip, maxInt, v)
    {
      RecordExact(batches, skip, maxInt, v);
    }
  }

  lemma RecordSnoc(batches: seq<seq<Msg>>, i: nat, skip: Skipper, maxInt: nat, before: Record, after: Record)
    requires i < |batches| && RecordIs(before, batches[..i], skip, maxInt)
    requires Merged(before, after, AllRows(batches[..i + 1], skip), maxInt)
    ensures RecordIs(after, batches[..i + 1], skip, maxInt)
  {
    assert batches[..i + 1][..i] == batches[..i];
  }

  /** One run of the sink over a whole session; `stopAt` is the batch, if any, after whose commit it stops. */
  method RunSession(batches: seq<seq<Msg>>, skip: Skipper, stopAt: nat, maxBytes: int, maxInt: nat)
    returns (rv: Rv, s: Session, ghost n: nat)
    requires Increasing(AllRows(batches, skip))
    ensures WellFormed(s) && s.arrivals == AllRows(batches, skip)
    ensures n <= |batches| && Committed(s) == AllRows(batches[..n], skip) && (rv.StoppedBeforeJson? ==> n > 0)
    ensures RecordIs(s.json, batches[..if rv.StoppedBeforeJson? then n - 1 else n], skip, maxInt)
    ensures rv.Zero? ==> n == |batches| && s.committed == |s.arrivals|
    ensures !rv.StoppedBeforeJson? ==> (Exact(s) <==> NoneRises(batches[..n], skip, maxInt))
    ensures rv.Zero? ==> (Complete(s) <==> NoneRises(batches, skip, maxInt))
    ensures rv.Zero? && (forall r :: r in s.arrivals ==> r.seqno <= maxInt) ==> Complete(s)
  {
    var rows, json;
    rv, rows, json, n := StoreAll(batches, skip, stopAt, maxBytes, maxInt);
    AllRowsPrefix(batches, skip, n);
    s := Session(AllRows(batches, skip), |rows|, json);
    Judge(s, batches, n, skip, maxInt, rv);
  }

  /** The sink's loop over the batches of a session. */
  method StoreAll(batches: seq<seq<Msg>>, skip: Skipper, stopAt: nat, maxBytes: int, maxInt: nat)
    returns (rv: Rv, rows: seq<Row>, json: Record, ghost n: nat)
    ensures n <= |batches| && (rv.StoppedBeforeJson? ==> n > 0) && (rv.Zero? ==> n == |batches|)
    ensures rows == AllRows(batches[..n], skip) && Within(json, rows)
    ensures RecordIs(json, batches[..if rv.StoppedBeforeJson? then n - 1 else n], skip, maxInt)
  {
    var sink := new BackupSink(skip, maxBytes, maxInt);
    rv, n := Zero, 0;
    var i := 0;
    while rv.Zero? && i < |batches|
      invariant i <= |batches| && sink.skip == skip && sink.maxInt == maxInt && Within(sink.json, Rows(sink.files))
      invariant n <= i && (rv.Zero? ==> n == i && sink.Valid()) && (rv.StoppedBeforeJson? ==> n > 0)
      invariant Rows(sink.files) == AllRows(batches[..n], skip)
      invariant RecordIs(sink.json, batches[..if rv.StoppedBeforeJson? then n - 1 else n], skip, maxInt)
    {
      ghost var before := sink.json;
      rv := sink.Store(batches[i], i == stopAt);
      assert batches[..i + 1][..i] == batches[..i];
      if rv.Zero? {
        RecordSnoc(batches, i, skip, maxInt, before, sink.json);
      }
      i := i + 1;
      n := if rv.Zero? || rv.StoppedBeforeJson? then n + 1 else n;
    }
    rows, json := Rows(sink.files), sink.json;
  }

  /** What a run amounts to as a session. */
  lemma Judge(s: Session, batches: seq<seq<Msg>>, n: nat, skip: Skipper, maxInt: nat, rv: Rv)
    requires n <= |batches| && Increasing(s.arrivals) && s.arrivals == AllRows(batches, skip)
    requires AllRows(batches[..n], skip) <= s.arrivals && s.committed == |AllRows(batches[..n], skip)|
    requires Within(s.json, AllRows(batches[..n], skip)) && (rv.Zero? ==> n == |batches|)
    requires !rv.StoppedBeforeJson? ==> RecordIs(s.json, batches[..n], skip, maxInt)
    ensures WellFormed(s) && Committed(s) == AllRows(batches[..n], skip)
    ensures rv.Zero? ==> s.committed == |s.arrivals|
    ensures !rv.StoppedBeforeJson? ==> (Exact(s) <==> NoneRises(batches[..n], skip, maxInt))
    ensures rv.Zero? ==> (Complete(s) <==> NoneRises(batches, skip, maxInt))
    ensures rv.Zero? && (forall r :: r in s.arrivals ==> r.seqno <= maxInt) ==> Complete(s)
  {
    assert Committed(s) == AllRows(batches[..n], skip);
    assert batches[..|batches|] == batches;
    if !rv.StoppedBeforeJson? {
      ExactIff(s, batches[..n], skip, maxInt);
    }
    if rv.Zero? && forall r :: r in s.arrivals ==> r.seqno <= maxInt {
      PlainNeverRises(batches, skip, maxInt);
    }
  }

  // ---------- A chain that repeats ----------

  /** A log of two entries of one vbucket, both past the plain integers; a session that stored both in two batches and
      so recorded the first; and the session after it. */
  ghost predicate Repeating(first: Session, second: Session, a: Row, b: Row)
  {
    && a.vbucket == b.vbucket && 0 <= a.vbucket < NUM_VBUCKET && 0 < a.seqno < b.seqno
    && first.arrivals == [a, b] && first.committed == 2 && Get(first.json, a.vbucket) == a.seqno
    && second.arrivals == [b] && second.committed == 1
    && WellFormed(first) && WellFormed(second)
  }

  lemma TwoAbove(a: Row, b: Row, c: Chain)
    requires b.seqno > StartSeqno(c, b.vbucket)
    ensures Above([a, b], c) == (if a.seqno > StartSeqno(c, a.vbucket) then [a] else []) + [b]
  {
    assert [a, b][..1] == [a] && [a][..0] == [];
    assert Above([a], c) == [] + if a.seqno > StartSeqno(c, a.vbucket) then [a] else [];
  }

  lemma LegalThen(log: seq<Row>, c: Chain, s: Session)
    requires Legal(log, c) && End(c) <= |log| && WellFormed(s) && s.arrivals == Above(log, c)
    ensures Legal(log, Then(c, |log|, s))
  {
    assert log[..|log|] == log;
  }

  lemma FirstLegal(first: Session, second: Session, a: Row, b: Row)
    requires Repeating(first, second, a, b)
    ensures Legal([a, b], Then(Start, 2, first))
  {
    TwoAbove(a, b, Start);
    assert [a] + [b] == [a, b];
    LegalThen([a, b], Start, first);
  }

  lemma SecondAbove(first: Session, second: Session, a: Row, b: Row)
    requires Repeating(first, second, a, b)
    ensures Above([a, b], Then(Start, 2, first)) == [b]
  {
    var c := Then(Start, 2, first);
    StartThen(c, a.vbucket);
    TwoAbove(a, b, c);
    assert [] + [b] == [b];
  }

  /** Such a chain is legal, and stores the second entry twice. */
  lemma ChainRepeats(first: Session, second: Session, a: Row, b: Row)
    requires Repeating(first, second, a, b)
    ensures var c := Then(Then(Start, 2, first), 2, second); Legal([a, b], c) && Stored(c) == [a, b, b]
  {
    FirstLegal(first, second, a, b);
    SecondAbove(first, second, a, b);
    LegalThen([a, b], Then(Start, 2, first), second);
    StoredTwo(first, second, a, b);
  }

  lemma StoredTwo(first: Session, second: Session, a: Row, b: Row)
    requires first.arrivals == [a, b] && first.committed == 2 && second.arrivals == [b] && second.committed == 1
    ensures Stored(Then(Then(Start, 2, first), 2, second)) == [a, b, b]
  {
    assert Committed(first) == [a, b] && Committed(second) == [b];
    assert Stored(Then(Start, 2, first)) == [] + [a, b];
  }

  lemma TwoBatches(m: Msg, m': Msg, skip: Skipper)
    requires !skip(m.key, m.vbucket) && !skip(m'.key, m'.vbucket)
    ensures AllRows([[m]], skip) == [RowOf(m)] && AllRows([[m], [m']], skip) == [RowOf(m), RowOf(m')]
  {
    assert [m][..0] == [] && [m'][..0] == [];
    assert Kept([m], skip) == [] + [RowOf(m)] && Kept([m'], skip) == [] + [RowOf(m')];
    assert [[m]][..0] == [] && [[m], [m']][..1] == [[m]];
    assert AllRows([[m]], skip) == [] + [RowOf(m)];
  }

  lemma TwoRecord(m: Msg, m': Msg, skip: Skipper, maxInt: nat)
    requires !skip(m.key, m.vbucket) && !skip(m'.key, m'.vbucket)
    requires 0 <= m.vbucket == m'.vbucket && maxInt < m.seqno < m'.seqno
    ensures RecordOf([[m], [m']], skip, maxInt, m.vbucket) == m.seqno
  {
    var v := m.vbucket;
    TwoBatches(m, m', skip);
    assert [[m]][..0] == [] && [[m], [m']][..1] == [[m]];
    assert [RowOf(m)][..0] == [] && High([RowOf(m)], v) == m.seqno;
    assert RecordOf([[m]], skip, maxInt, v) == m.seqno;
  }

  /** Two runs of the sink make such a chain: the first is given two versions past the plain integers in two batches,
      the second what lies above the first one's record. */
  method RepeatRun(m: Msg, m': Msg, skip: Skipper, maxBytes: int, maxInt: nat) returns (rv: Rv, rv': Rv, c: Chain)
    requires !skip(m.key, m.vbucket) && !skip(m'.key, m'.vbucket)
    requires 0 <= m.vbucket == m'.vbucket < NUM_VBUCKET && maxInt < m.seqno < m'.seqno
    ensures rv.Zero? && rv'.Zero? ==>
      Legal([RowOf(m), RowOf(m')], c) && Stored(c) == [RowOf(m), RowOf(m'), RowOf(m')]
  {
    var first := RunTwo(m, m', skip, maxBytes, maxInt);
    var second := RunOne(m', skip, maxBytes, maxInt);
    rv, rv' := first.0, second.0;
    c := Then(Then(Start, 2, first.1), 2, second.1);
    if rv.Zero? && rv'.Zero? {
      ChainRepeats(first.1, second.1, RowOf(m), RowOf(m'));
    }
  }

  method RunTwo(m: Msg, m': Msg, skip: Skipper, maxBytes: int, maxInt: nat) returns (r: (Rv, Session))
    requires !skip(m.key, m.vbucket) && !skip(m'.key, m'.vbucket)
    requires 0 <= m.vbucket == m'.vbucket < NUM_VBUCKET && maxInt < m.seqno < m'.seqno
    ensures WellFormed(r.1) && r.1.arrivals == [RowOf(m), RowOf(m')]
    ensures r.0.Zero? ==> r.1.committed == 2 && Get(r.1.json, m.vbucket) == m.seqno && !Complete(r.1)
  {
    TwoBatches(m, m', skip);
    var rv, s;
    ghost var n;
    rv, s, n := RunSession([[m], [m']], skip, 2, maxBytes, maxInt);
    if rv.Zero? {
      FallsShort(s, [[m], [m']], n, m, m', skip, maxInt);
    }
    r := (rv, s);
  }

  /** The run of two such batches records the first only. */
  lemma FallsShort(s: Session, batches: seq<seq<Msg>>, n: nat, m: Msg, m': Msg, skip: Skipper, maxInt: nat)
    requires !skip(m.key, m.vbucket) && !skip(m'.key, m'.vbucket) && batches == [[m], [m']] && n == 2
    requires 0 <= m.vbucket == m'.vbucket < NUM_VBUCKET && maxInt < m.seqno < m'.seqno
    requires s.arrivals == [RowOf(m), RowOf(m')] && RecordIs(s.json, batches[..n], skip, maxInt)
    ensures Get(s.json, m.vbucket) == m.seqno && !Complete(s)
  {
    assert batches[..n] == batches;
    TwoRecord(m, m', skip, maxInt);
    HighBound(s.arrivals, m.vbucket, 1);
  }

  method RunOne(m: Msg, skip: Skipper, maxBytes: int, maxInt: nat) returns (r: (Rv, Session))
    requires !skip(m.key, m.vbucket) && 0 <= m.vbucket < NUM_VBUCKET && 0 < m.seqno
    ensures WellFormed(r.1) && r.1.arrivals == [RowOf(m)] && (r.0.Zero? ==> r.1.committed == 1)
  {
    TwoBatches(m, m, skip);
    var rv, s;
    ghost var n;
    rv, s, n := RunSession([[m]], skip, 1, maxBytes, maxInt);
    r := (rv, s);
  }
}
