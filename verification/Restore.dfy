/** BFDSource: reading backup files back in batches, and the round trip from sink to source. */
module Restore {
  import opened Radix
  import opened Wire
  import opened Batches
  import opened Backup
  import opened FileNames
  import Sessions

  const CBB_VERSION_0: int := 2004  // eight columns
  const CBB_VERSION_1: int := 2014  // eleven columns

  /** A .cbb file: its user version and its rows in insertion order. */
  datatype File = File(version: int, rows: seq<Row>)

  type Disk = map<Name, File>

  datatype Outcome = Fine(batch: Option<seq<Msg>>) | WrongVersion | Exception

  /** The message made from a row; without `full` the last three fields are zero. */
  function Load(r: Row, full: bool): Msg
  {
    Msg(r.cmd, r.vbucket, r.key, r.flg, r.exp, Value(10, r.cas), Text(r.meta), r.val,
        if full then r.seqno else 0, if full then r.dtype else 0, if full then r.nmeta else 0)
  }

  function Loads(rows: seq<Row>, full: bool, skip: Skipper): seq<Msg>
  {
    if rows == [] then []
    else (if skip(rows[0].key, rows[0].vbucket) then [] else [Load(rows[0], full)]) + Loads(rows[1..], full, skip)
  }

  /** Everything in some files, taken in the given order. */
  function Coming(disk: Disk, files: seq<Name>, skip: Skipper): seq<Msg>
    requires forall f :: f in files ==> f in disk
  {
    if files == [] then []
    else
      var f := disk[files[0]];
      Loads(f.rows, f.version == CBB_VERSION_1, skip) + Coming(disk, files[1..], skip)
  }

  /** A message reduced to its first eight fields. */
  function Eight(m: Msg): Msg
  {
    m.(seqno := 0, dtype := 0, nmeta := 0)
  }

  function Strip(ms: seq<Msg>): (s: seq<Msg>)
    ensures |s| == |ms| && forall i :: 0 <= i < |s| ==> s[i] == Eight(ms[i])
  {
    if ms == [] then [] else [Eight(ms[0])] + Strip(ms[1..])
  }

  function ValBytes(ms: seq<Msg>): nat
  {
    if ms == [] then 0 else ValBytes(ms[..|ms| - 1]) + |ms[|ms| - 1].val|
  }

  lemma StripAppend(a: seq<Msg>, b: seq<Msg>)
    ensures Strip(a + b) == Strip(a) + Strip(b)
  {
  }

  lemma {:induction false} StripLoads(rows: seq<Row>, skip: Skipper, full: bool)
    ensures Strip(Loads(rows, full, skip)) == Loads(rows, false, skip)
  {
    if rows != [] {
      StripLoads(rows[1..], skip, full);
      StripAppend(if skip(rows[0].key, rows[0].vbucket) then [] else [Load(rows[0], full)],
                  Loads(rows[1..], full, skip));
    }
  }

  /** Every file has a version the source can read. */
  predicate AllKnown(disk: Disk, files: seq<Name>)
    requires forall f :: f in files ==> f in disk
  {
    files == [] || (disk[files[0]].version in {CBB_VERSION_0, CBB_VERSION_1} && AllKnown(disk, files[1..]))
  }

  /** Files are only ever taken away. */
  ghost predicate Fewer(files: seq<Name>, all: seq<Name>)
  {
    files == all || |files| < |all|
  }

  /** The steps left: one per row, one per end of file, one per opening. */
  function Work(disk: Disk, files: seq<Name>): nat
    requires forall f :: f in files ==> f in disk
  {
    if files == [] then 0 else |disk[files[0]].rows| + 2 + Work(disk, files[1..])
  }

  function CursorWork(cursor: Option<seq<Row>>): nat
  {
    if cursor.Some? then |cursor.value| + 1 else 0
  }

  function Ahead(cursor: Option<seq<Row>>): seq<Row>
  {
    if cursor.Some? then cursor.value else []
  }

  /** What a call still has to deliver when its local `ver` stands at `full`. */
  function Due(disk: Disk, files: seq<Name>, cursor: Option<seq<Row>>, full: bool, skip: Skipper): seq<Msg>
    requires forall f :: f in files ==> f in disk
  {
    Loads(Ahead(cursor), full, skip) + Coming(disk, files, skip)
  }

  lemma DueStripped(disk: Disk, files: seq<Name>, cursor: Option<seq<Row>>, full: bool, skip: Skipper)
    requires forall f :: f in files ==> f in disk
    ensures Strip(Due(disk, files, cursor, full, skip)) == Strip(Due(disk, files, cursor, false, skip))
  {
    var rows, more := Ahead(cursor), Coming(disk, files, skip);
    StripLoads(rows, skip, full);
    StripLoads(rows, skip, false);
    StripAppend(Loads(rows, full, skip), more);
    StripAppend(Loads(rows, false, skip), more);
  }

  /** A batch is the next part of what was due; what is left after it is the rest, up to the last three fields. */
  ghost predicate Handed(ms: seq<Msg>, due: seq<Msg>, left: seq<Msg>)
  {
    ms <= due && Strip(ms) + Strip(left) == Strip(due)
  }

  lemma Delivered(ms: seq<Msg>, disk: Disk, files: seq<Name>, cursor: Option<seq<Row>>, full: bool, skip: Skipper,
                  due: seq<Msg>)
    requires forall f :: f in files ==> f in disk
    requires ms + Due(disk, files, cursor, full, skip) == due
    ensures Handed(ms, due, Due(disk, files, cursor, false, skip))
    ensures cursor.None? && files == [] ==> Due(disk, files, cursor, false, skip) == []
  {
    DueStripped(disk, files, cursor, full, skip);
    StripAppend(ms, Due(disk, files, cursor, full, skip));
  }

  lemma BytesSnoc(ms: seq<Msg>, m: Msg)
    ensures ValBytes(ms + [m]) == ValBytes(ms) + |m.val|
  {
    assert (ms + [m])[..|ms|] == ms;
  }

  /** Where a batch ends: at a limit, and not before its last message. */
  ghost predicate Bounded(ms: seq<Msg>, maxSize: int, maxBytes: int)
  {
    ms != [] ==> |ms| - 1 < maxSize && ValBytes(ms[..|ms| - 1]) < maxBytes
  }

  lemma BoundedStep(ms: seq<Msg>, got: seq<Msg>, maxSize: int, maxBytes: int)
    requires |got| <= 1 && |ms| < maxSize && ValBytes(ms) < maxBytes
    ensures Bounded(ms + got, maxSize, maxBytes)
    ensures ValBytes(ms + got) == ValBytes(ms) + if got == [] then 0 else |got[0].val|
  {
    if got == [] {
      assert ms + got == ms;
      if ms != [] {
        BytesSnoc(ms[..|ms| - 1], ms[|ms| - 1]);
      }
    } else {
      assert got == [got[0]];
      BytesSnoc(ms, got[0]);
      assert (ms + got)[..|ms|] == ms;
    }
  }

  datatype Turned = More | Last | Refused | Raised

  class BackupSource {
    const disk: Disk
    const listing: seq<Name>  // sorted(glob)
    const skip: Skipper
    const maxSize: int
    const maxBytes: int
    var listed: bool
    var files: seq<Name>
    var cursor: Option<seq<Row>>
    var done: bool
    ghost var raised: bool  // an exception has come out of reading a file

    ghost predicate Valid()
      reads this
    {
      && (forall f :: f in listing ==> f in disk) && (forall f :: f in files ==> f in disk)
      && (!listed ==> cursor.None?)
    }

    function Files(): seq<Name>
      reads this
    {
      if listed then files else listing
    }

    ghost function Left(): seq<Msg>
      requires Valid()
      reads this
    {
      Due(disk, Files(), cursor, false, skip)
    }

    ghost function Steps(): nat
      requires Valid()
      reads this
    {
      Work(disk, Files()) + CursorWork(cursor) + if done then 0 else 1
    }

    constructor (disk: Disk, listing: seq<Name>, skip: Skipper, maxSize: int, maxBytes: int)
      requires forall f :: f in listing ==> f in disk
      ensures Valid() && !done && !raised && Files() == listing && this.disk == disk && this.skip == skip
      ensures Left() == Coming(disk, listing, skip)
      ensures this.maxSize == maxSize && this.maxBytes == maxBytes
    {
      this.disk, this.listing, this.skip, this.maxSize, this.maxBytes := disk, listing, skip, maxSize, maxBytes;
      listed, files, cursor, done, raised := false, [], None, false, false;
    }

    /** Opens the next file. */
    method Open() returns (ok: bool, full: bool)
      requires Valid() && cursor.None? && files != [] && listed
      modifies this`files, this`cursor
      ensures Valid()
      ensures ok <==> old(disk[files[0]].version in {CBB_VERSION_0, CBB_VERSION_1})
      ensures !ok ==> unchanged(this)
      ensures ok ==> cursor.Some?
      ensures ok ==> Due(disk, files, cursor, full, skip) == Coming(disk, old(files), skip)
      ensures ok ==> Work(disk, files) + CursorWork(cursor) + 1 == Work(disk, old(files))
      ensures AllKnown(disk, files) == old(AllKnown(disk, files)) && (!ok ==> !AllKnown(disk, files))
      ensures Fewer(files, old(files))
    {
      var f := disk[files[0]];
      if f.version != CBB_VERSION_0 && f.version != CBB_VERSION_1 {
        return false, false;
      }
      ok, full := true, f.version == CBB_VERSION_1;
      files := files[1..];
      cursor := Some(f.rows);
    }

    /** Fetches one row, or finds the end of the file. */
    method Fetch(full: bool) returns (got: seq<Msg>)
      requires Valid() && cursor.Some? && listed
      modifies this`cursor
      ensures Valid() && |got| <= 1
      ensures got + Due(disk, files, cursor, full, skip) == old(Due(disk, files, cursor, full, skip))
      ensures CursorWork(cursor) + 1 == old(CursorWork(cursor))
    {
      var rows := cursor.value;
      got := [];
      if rows != [] {
        cursor := Some(rows[1..]);
        if !skip(rows[0].key, rows[0].vbucket) {
          got := [Load(rows[0], full)];
        }
        Assoc(got, Loads(rows[1..], full, skip), Coming(disk, files, skip));
      } else {
        cursor := None;
      }
    }

    ghost function Remaining(): nat
      requires Valid()
      reads this
    {
      Work(disk, files) + CursorWork(cursor)
    }

    ghost function Pending(): seq<Msg>
      requires Valid()
      reads this
    {
      Due(disk, files, cursor, false, skip)
    }

    /** One turn of the loop: open a file if none is open, then fetch. */
    method Turn(full: bool) returns (end: Turned, full': bool, got: seq<Msg>)
      requires Valid() && listed
      modifies this`files, this`cursor, this`raised
      ensures Valid() && |got| <= 1
      ensures raised == (old(raised) || end.Raised?)
      ensures AllKnown(disk, files) == old(AllKnown(disk, files)) && (end.Refused? ==> !AllKnown(disk, files))
      ensures Fewer(files, old(files))
      ensures end.Last? <==> old(cursor.None? && files == [])
      ensures end.Last? ==> unchanged(this) && got == []
      ensures end.More? ==> got + Due(disk, files, cursor, full', skip) == old(Due(disk, files, cursor, full, skip))
      ensures end.More? ==> Remaining() < old(Remaining())
    {
      full', got := full, [];
      if cursor.None? {
        if files == [] {
          return Last, full', got;
        }
        var ok;
        ok, full' := Open();
        if !ok {
          return Refused, full', got;
        }
      }
      var raises: bool := *;
      if raises {
        raised := true;
        return Raised, full', got;
      }
      got := Fetch(full');
      end := More;
    }

    /** The loop of provide_batch. */
    method Fill() returns (end: Turned, full: bool, ms: seq<Msg>)
      requires Valid() && listed
      modifies this`files, this`cursor, this`raised
      ensures Valid() && Bounded(ms, maxSize, maxBytes)
      ensures raised == (old(raised) || end.Raised?)
      ensures AllKnown(disk, files) == old(AllKnown(disk, files)) && (end.Refused? ==> !AllKnown(disk, files))
      ensures end.More? || end.Last? ==>
        ms + Due(disk, files, cursor, full, skip) == old(Due(disk, files, cursor, false, skip))
      ensures Fewer(files, old(files))
      ensures end.Last? ==> cursor.None? && files == []
      ensures end.More? ==> |ms| >= maxSize || ValBytes(ms) >= maxBytes
      ensures Remaining() <= old(Remaining()) || end.Refused? || end.Raised?
      ensures end.More? && maxSize > 0 && maxBytes > 0 ==> Remaining() < old(Remaining())
    {
      var bytes := 0;
      end, full, ms := More, false, [];
      assert [] + Due(disk, files, cursor, false, skip) == Due(disk, files, cursor, false, skip);
      while |ms| < maxSize && bytes < maxBytes
        invariant Valid() && end.More? && bytes == ValBytes(ms) && Bounded(ms, maxSize, maxBytes)
        invariant raised == old(raised) && AllKnown(disk, files) == old(AllKnown(disk, files))
        invariant Fewer(files, old(files))
        invariant ms + Due(disk, files, cursor, full, skip) == old(Due(disk, files, cursor, false, skip))
        invariant Remaining() <= old(Remaining()) && (ms != [] ==> Remaining() < old(Remaining()))
        decreases Remaining()
      {
        var got;
        end, full, got := Turn(full);
        if !end.More? {
          return;
        }
        Assoc(ms, got, Due(disk, files, cursor, full, skip));
        BoundedStep(ms, got, maxSize, maxBytes);
        bytes := bytes + if got == [] then 0 else |got[0].val|;
        ms := ms + got;
      }
    }

    /** The rest of a call, once the files are listed. */
    method Next() returns (r: Outcome)
      requires Valid() && listed && !done
      modifies this`files, this`cursor, this`done, this`raised
      ensures Valid()
      ensures raised == (old(raised) || r.Exception?)
      ensures AllKnown(disk, files) == old(AllKnown(disk, files)) && (r.WrongVersion? ==> !AllKnown(disk, files))
      ensures r.Fine? ==>
        && r.batch.Some?
        && Handed(r.batch.value, old(Pending()), Pending())
        && Limited(r.batch.value, done)
        && (done ==> Pending() == [] && files == [])
      ensures Fewer(files, old(files))
      ensures r.Fine? ==> Remaining() <= old(Remaining())
      ensures r.Fine? && maxSize > 0 && maxBytes > 0 && !done ==> Remaining() < old(Remaining())
      ensures r.Exception? ==> done
    {
      ghost var due := Pending();
      var end, full, ms := Fill();
      match end
      case Refused =>
        r := WrongVersion;
      case Raised =>
        done, cursor := true, None;
        r := Exception;
      case _ =>
        Delivered(ms, disk, files, cursor, full, skip, due);
        done := end.Last?;
        r := Fine(Some(ms));
    }

    /** A batch ends at a limit or with the last file, and not before its last message. */
    ghost predicate Limited(ms: seq<Msg>, last: bool)
    {
      Bounded(ms, maxSize, maxBytes) && (last || |ms| >= maxSize || ValBytes(ms) >= maxBytes)
    }

    /** One call of provide_batch. The batch is the next part of what is left, whole but for the rows of a file
        carried over from an earlier call, which lose their last three fields. */
    method ProvideBatch() returns (r: Outcome)
      requires Valid()
      modifies this
      ensures Valid()
      ensures old(done) ==> r == Fine(None) && unchanged(this)
      ensures !old(done) && r.Fine? ==> r.batch.Some?
      ensures r.Fine? && r.batch.Some? ==>
        && Handed(r.batch.value, old(Left()), Left())
        && Limited(r.batch.value, done)
        && (done ==> Left() == [] && Files() == [])
      ensures r.Fine? && !old(done) && maxSize > 0 && maxBytes > 0 ==> Steps() < old(Steps())
      ensures r.Exception? ==> done
      ensures raised == (old(raised) || r.Exception?)
      ensures AllKnown(disk, Files()) == old(AllKnown(disk, Files()))
      ensures r.WrongVersion? ==> !AllKnown(disk, Files())
      ensures Fewer(Files(), old(Files()))
    {
      if done {
        return Fine(None);
      }
      if !listed {
        files := listing;
        listed := true;
      }
      assert Left() == old(Left()) && Steps() == old(Steps());
      r := Next();
    }

    /** Pulling batches until the source says it has no more. */
    method Drain() returns (ok: bool, ms: seq<Msg>)
      requires Valid() && !done && !raised && maxSize > 0 && maxBytes > 0
      modifies this
      ensures ok ==> Strip(ms) == Strip(old(Left()))
      ensures ok <==> old(AllKnown(disk, Files())) && !raised
    {
      ok, ms := true, [];
      while !done
        invariant Valid() && !raised && AllKnown(disk, Files()) == old(AllKnown(disk, Files()))
        invariant done ==> Files() == []
        invariant Strip(ms) + Strip(Left()) == Strip(old(Left()))
        invariant done ==> Left() == []
        decreases Steps()
      {
        ghost var was := Left();
        var r := ProvideBatch();
        if !r.Fine? {
          return false, ms;
        }
        var batch := r.batch.value;
        StripAppend(ms, batch);
        Assoc(Strip(ms), Strip(batch), Strip(Left()));
        ms := ms + batch;
      }
    }
  }

  // ---------- Which messages come back whole ----------

  /** A call delivers a message with its last three fields as stored exactly when the message's file was opened
      in that same call, or those fields are zero anyway. */
  lemma WholeIffOpenedHere(disk: Disk, files: seq<Name>, cursor: Option<seq<Row>>, skip: Skipper, i: nat)
    requires forall f :: f in files ==> f in disk
    requires i < |Due(disk, files, cursor, true, skip)|
    ensures |Due(disk, files, cursor, false, skip)| == |Due(disk, files, cursor, true, skip)|
    ensures var stored := Due(disk, files, cursor, true, skip)[i];
      Due(disk, files, cursor, false, skip)[i] == stored <==>
      i >= |Loads(Ahead(cursor), true, skip)| || Eight(stored) == stored
  {
    StripLoads(Ahead(cursor), skip, true);
    var carried, stored := Loads(Ahead(cursor), false, skip), Loads(Ahead(cursor), true, skip);
    assert i < |carried| ==> Due(disk, files, cursor, false, skip)[i] == carried[i] == Eight(stored[i]);
  }

  lemma {:induction false} WithoutAre(rows: seq<Row>, skip: Skipper, i: nat)
    requires i < |Loads(rows, false, skip)|
    ensures Eight(Loads(rows, false, skip)[i]) == Loads(rows, false, skip)[i]
  {
    StripLoads(rows, skip, false);
  }

  function NoSkip(): Skipper
  {
    (key, v) => false
  }

  lemma TwoRows(a: Row, b: Row, full: bool)
    ensures Loads([a, b], full, NoSkip()) == [Load(a, full), Load(b, full)]
  {
    assert [a, b][1..] == [b] && [b][1..] == [];
    assert Loads([b], full, NoSkip()) == [Load(b, full)] + [];
  }

  lemma OneFile(disk: Disk, name: Name, a: Row, b: Row)
    requires name in disk && disk[name] == File(CBB_VERSION_1, [a, b])
    ensures Coming(disk, [name], NoSkip()) == [Load(a, true), Load(b, true)] && AllKnown(disk, [name])
  {
    TwoRows(a, b, true);
    assert [name][1..] == [];
    assert Coming(disk, [], NoSkip()) == [] && AllKnown(disk, []);
  }

  lemma OneEach(ms: seq<Msg>, due: seq<Msg>, left: seq<Msg>, last: bool, maxBytes: int)
    requires Handed(ms, due, left) && due != [] && maxBytes > 0 && (last ==> left == [])
    requires Bounded(ms, 1, maxBytes) && (last || |ms| >= 1 || ValBytes(ms) >= maxBytes)
    ensures ms == [due[0]] && (|due| > 1 ==> !last)
  {
    assert |Strip(ms) + Strip(left)| == |due|;
  }

  /** After the first of two rows was delivered, the other is left without its last three fields. */
  lemma CarriedOver(disk: Disk, name: Name, a: Row, b: Row, files: seq<Name>, cursor: Option<seq<Row>>,
                    first: seq<Msg>)
    requires name in disk && disk[name] == File(CBB_VERSION_1, [a, b]) && |first| == 1
    requires Fewer(files, [name]) && forall f :: f in files ==> f in disk
    requires Handed(first, [Load(a, true), Load(b, true)], Due(disk, files, cursor, false, NoSkip()))
    ensures first == [Load(a, true)] && Due(disk, files, cursor, false, NoSkip()) == [Load(b, false)]
  {
    var left := Due(disk, files, cursor, false, NoSkip());
    OneFile(disk, name, a, b);
    assert |Strip(first) + Strip(left)| == 2 && |left| == 1;
    assert files == [name] ==> |left| >= 2;
    assert files == [] && left == Loads(Ahead(cursor), false, NoSkip()) + [];
    WithoutAre(Ahead(cursor), NoSkip(), 0);
    assert (Strip(first) + Strip(left))[1] == Eight(left[0]) == Eight(Load(b, true));
  }

  /** A file of two rows read with batches of one: the second call delivers its row without the last three fields. */
  method LosesFields(name: Name, a: Row, b: Row) returns (first: Outcome, second: Outcome)
    requires b.seqno != 0
    ensures first.Fine? && second.Fine? ==>
      && first.batch == Some([Load(a, true)]) && second.batch == Some([Load(b, false)])
      && Load(b, false) != Load(b, true)
  {
    var disk: Disk := map[name := File(CBB_VERSION_1, [a, b])];
    OneFile(disk, name, a, b);
    var source := new BackupSource(disk, [name], NoSkip(), 1, |a.val| + |b.val| + 1);
    first := source.ProvideBatch();
    second := Exception;
    if first.Fine? {
      OneEach(first.batch.value, [Load(a, true), Load(b, true)], source.Left(), source.done, source.maxBytes);
      CarriedOver(disk, name, a, b, source.Files(), source.cursor, first.batch.value);
      second := source.ProvideBatch();
      if second.Fine? {
        OneEach(second.batch.value, [Load(b, false)], source.Left(), source.done, source.maxBytes);
      }
    }
  }

  // ---------- From sink to source ----------

  /** The messages that get past both the sink's and the source's filter. */
  function Passing(ms: seq<Msg>, skip: Skipper, skip': Skipper): seq<Msg>
  {
    if ms == [] then []
    else
      var m := ms[|ms| - 1];
      Passing(ms[..|ms| - 1], skip, skip') + if skip(m.key, m.vbucket) || skip'(m.key, m.vbucket) then [] else [m]
  }

  lemma {:induction false} LoadsAppend(a: seq<Row>, b: seq<Row>, full: bool, skip: Skipper)
    ensures Loads(a + b, full, skip) == Loads(a, full, skip) + Loads(b, full, skip)
  {
    if a == [] {
      assert a + b == b;
    } else {
      LoadsAppend(a[1..], b, full, skip);
      assert (a + b)[1..] == a[1..] + b;
      Assoc(if skip(a[0].key, a[0].vbucket) then [] else [Load(a[0], full)],
            Loads(a[1..], full, skip), Loads(b, full, skip));
    }
  }

  /** A message whose meta has become text. */
  function AsText(m: Msg): Msg
  {
    m.(meta := Text(MetaText(m.meta)))
  }

  function Texted(ms: seq<Msg>): (ts: seq<Msg>)
    ensures |ts| == |ms| && forall i :: 0 <= i < |ts| ==> ts[i] == AsText(ms[i])
  {
    if ms == [] then [] else Texted(ms[..|ms| - 1]) + [AsText(ms[|ms| - 1])]
  }

  /** A message comes back as it was exactly when its meta was text to begin with; a number comes back as its decimal
      text, from which it can be read. */
  lemma WholeIffText(m: Msg)
    ensures Load(RowOf(m), true) == m <==> m.meta.Text?
    ensures m.meta.Number? ==> Value(10, Digits10(Load(RowOf(m), true).meta.text)) == m.meta.n
  {
    DecRoundTrip(m.cas);
    if m.meta.Number? {
      DecRoundTrip(m.meta.n);
      assert Digits10(Ascii(Dec(m.meta.n))) == Dec(m.meta.n);
    }
  }

  /** The digits of a decimal numeral in ASCII. */
  function Digits10(s: Bytes): (d: seq<nat>)
    ensures |d| == |s| && forall i :: 0 <= i < |s| && s[i] >= 48 ==> d[i] == s[i] - 48
  {
    if s == [] then [] else Digits10(s[..|s| - 1]) + [if s[|s| - 1] < 48 then 0 else s[|s| - 1] - 48]
  }

  lemma LoadRow(m: Msg, skip: Skipper)
    ensures Load(RowOf(m), true) == AsText(m)
    ensures Loads([RowOf(m)], true, skip) == if skip(m.key, m.vbucket) then [] else [AsText(m)]
  {
    DecRoundTrip(m.cas);
    assert [RowOf(m)][1..] == [];
  }

  lemma TextedSnoc(ms: seq<Msg>, m: Msg)
    ensures Texted(ms + [m]) == Texted(ms) + [AsText(m)] && Texted(ms + []) == Texted(ms)
  {
    assert ms + [] == ms;
  }

  /** Storing and loading undo each other, up to the filters. */
  lemma {:induction false} LoadsOfKept(ms: seq<Msg>, skip: Skipper, skip': Skipper)
    ensures Loads(Kept(ms, skip), true, skip') == Texted(Passing(ms, skip, skip'))
  {
    if ms != [] {
      var init, m := ms[..|ms| - 1], ms[|ms| - 1];
      LoadsOfKept(init, skip, skip');
      TextedSnoc(Passing(init, skip, skip'), m);
      if !skip(m.key, m.vbucket) {
        LoadsAppend(Kept(init, skip), [RowOf(m)], true, skip');
        LoadRow(m, skip');
      } else {
        assert Kept(ms, skip) == Kept(init, skip);
      }
    }
  }

  lemma {:induction false} RowsHead(files: seq<seq<Row>>)
    requires files != []
    ensures Rows(files) == files[0] + Rows(files[1..])
  {
    var k := |files| - 1;
    if k == 0 {
      assert files[..0] == [] && files[1..] == [];
    } else {
      RowsHead(files[..k]);
      assert files[..k][1..] == files[1..][..k - 1];
      Assoc(files[0], Rows(files[1..][..k - 1]), files[k]);
    }
  }

  /** The sink's files, under the names it gives them. */
  ghost predicate OnDisk(disk: Disk, names: seq<Name>, files: seq<seq<Row>>)
  {
    |names| == |files|
    && forall i :: 0 <= i < |names| ==>
        names[i] in disk && disk[names[i]] == File(CBB_VERSION_1, files[i])
  }

  lemma {:induction false} ComingIsRows(disk: Disk, names: seq<Name>, files: seq<seq<Row>>, skip: Skipper)
    requires OnDisk(disk, names, files)
    ensures forall f :: f in names ==> f in disk
    ensures Coming(disk, names, skip) == Loads(Rows(files), true, skip) && AllKnown(disk, names)
  {
    if names != [] {
      ComingIsRows(disk, names[1..], files[1..], skip);
      RowsHead(files);
      LoadsAppend(files[0], Rows(files[1..]), true, skip);
    }
  }

  function Flat(batches: seq<seq<Msg>>): seq<Msg>
  {
    if batches == [] then [] else Flat(batches[..|batches| - 1]) + batches[|batches| - 1]
  }

  lemma {:induction false} KeptAppend(a: seq<Msg>, b: seq<Msg>, skip: Skipper)
    ensures Kept(a + b, skip) == Kept(a, skip) + Kept(b, skip)
  {
    if b == [] {
      assert a + b == a;
    } else {
      var k := |b| - 1;
      KeptAppend(a, b[..k], skip);
      assert (a + b)[..|a| + k] == a + b[..k];
      Assoc(Kept(a, skip), Kept(b[..k], skip), if skip(b[k].key, b[k].vbucket) then [] else [RowOf(b[k])]);
    }
  }

  lemma {:induction false} AllRowsFlat(batches: seq<seq<Msg>>, skip: Skipper)
    ensures Sessions.AllRows(batches, skip) == Kept(Flat(batches), skip)
  {
    if batches != [] {
      var k := |batches| - 1;
      AllRowsFlat(batches[..k], skip);
      KeptAppend(Flat(batches[..k]), batches[k], skip);
    }
  }

  /** With at most ten thousand files, a sorted listing of the directory yields the stored messages in the order
      in which they arrived, however the directory was listed and wherever the sink rolled over. */
  lemma ReadBack(batches: seq<seq<Msg>>, files: seq<seq<Row>>, disk: Disk, listing: seq<Name>, skip: Skipper,
                 skip': Skipper)
    requires Rows(files) == Sessions.AllRows(batches, skip) && |files| <= 10000
    requires OnDisk(disk, Names(|files|), files) && Ascending(listing)
    requires forall f :: f in listing <==> f in Names(|files|)
    ensures forall f :: f in listing ==> f in disk
    ensures Coming(disk, listing, skip') == Texted(Passing(Flat(batches), skip, skip'))
    ensures AllKnown(disk, listing)
  {
    CreationOrderIsNameOrder(|files|);
    AscendingUnique(listing, Names(|files|));
    ComingIsRows(disk, listing, files, skip');
    AllRowsFlat(batches, skip);
    LoadsOfKept(Flat(batches), skip, skip');
  }

  /** Restoring what the sink wrote: under any positive batch limits every stored message comes back once, in the
      order in which it arrived, with its first eight fields intact. */
  method RestoreAll(batches: seq<seq<Msg>>, files: seq<seq<Row>>, disk: Disk, listing: seq<Name>, skip: Skipper,
                    skip': Skipper,
                    maxSize: int, maxBytes: int) returns (ok: bool, ms: seq<Msg>, ghost raised: bool)
    requires Rows(files) == Sessions.AllRows(batches, skip) && |files| <= 10000
    requires OnDisk(disk, Names(|files|), files) && Ascending(listing)
    requires forall f :: f in listing <==> f in Names(|files|)
    requires maxSize > 0 && maxBytes > 0
    ensures ok <==> !raised
    ensures ok ==> Strip(ms) == Strip(Texted(Passing(Flat(batches), skip, skip')))
  {
    ReadBack(batches, files, disk, listing, skip, skip');
    var source := new BackupSource(disk, listing, skip', maxSize, maxBytes);
    ok, ms := source.Drain();
    raised := source.raised;
  }
}
