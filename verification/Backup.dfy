/** BFDSink: batches into numbered backup files, with the highest seqno of every vbucket recorded beside
    them, and what that record is for: incremental sessions that neither skip nor repeat. */
module Backup {
  import opened Codes
  import opened Radix
  import opened Wire
  import opened Batches

  const NUM_VBUCKET: nat := 1024

  /** A line of table cbb_msg; the cas column is decimal text, the meta column the text of the meta. */
  datatype Row = Row(cmd: nat, vbucket: int, key: Bytes, flg: nat, exp: nat, cas: seq<nat>, meta: Bytes,
                     val: Bytes, seqno: nat, dtype: nat, nmeta: nat)

  function RowOf(m: Msg): Row
  {
    Row(m.cmd, m.vbucket, m.key, m.flg, m.exp, Dec(m.cas), MetaText(m.meta), m.val, m.seqno, m.dtype, m.nmeta)
  }

  predicate Storable(cmd: nat)
  {
    cmd == CMD_TAP_MUTATION || cmd == CMD_TAP_DELETE || cmd == CMD_DCP_MUTATION || cmd == CMD_DCP_DELETE
  }

  type Skipper = (Bytes, int) -> bool

  /** The rows a batch becomes. */
  function Kept(ms: seq<Msg>, skip: Skipper): seq<Row>
  {
    if ms == [] then []
    else
      var m := ms[|ms| - 1];
      Kept(ms[..|ms| - 1], skip) + if skip(m.key, m.vbucket) then [] else [RowOf(m)]
  }

  /** Whether every unskipped message of a batch can be stored. */
  predicate AllStorable(ms: seq<Msg>, skip: Skipper)
  {
    forall i :: 0 <= i < |ms| && !skip(ms[i].key, ms[i].vbucket) ==>
      Storable(ms[i].cmd) && 0 <= ms[i].vbucket < NUM_VBUCKET
  }

  function Max(a: nat, b: nat): nat
  {
    if a < b then b else a
  }

  /** The highest seqno a vbucket has among some rows; 0 if it has none. */
  function High(rows: seq<Row>, v: int): nat
  {
    if rows == [] then 0
    else
      var r := rows[|rows| - 1];
      if r.vbucket == v then Max(High(rows[..|rows| - 1], v), r.seqno) else High(rows[..|rows| - 1], v)
  }

  lemma HighSnoc(rows: seq<Row>, r: Row, v: int)
    ensures High(rows + [r], v) == if r.vbucket == v then Max(High(rows, v), r.seqno) else High(rows, v)
  {
    assert (rows + [r])[..|rows|] == rows;
  }

  lemma {:induction false} HighAppend(rows: seq<Row>, more: seq<Row>, v: int)
    ensures High(rows + more, v) == Max(High(rows, v), High(more, v))
  {
    if more == [] {
      assert rows + more == rows;
    } else {
      var init, last := more[..|more| - 1], more[|more| - 1];
      HighAppend(rows, init, v);
      HighSnoc(rows + init, last, v);
      Assoc(rows, init, [last]);
      assert more == init + [last];
    }
  }

  // ---------- The seqno record ----------

  type Record = map<nat, nat>

  function Get(m: Record, v: nat): nat
  {
    if v in m then m[v] else 0
  }

  /** The higher of two seqnos; but a stored one past the largest plain integer is read back as a long, which the
      test for an int does not recognise, and stays as it is. */
  function Higher(stored: nat, incoming: nat, maxInt: nat): nat
  {
    if stored > maxInt then stored else Max(stored, incoming)
  }

  /** BFD.write_json_file for seqnos: keeps the higher value, and never writes a 0. */
  method WriteJson(json: Record, output: Record, maxInt: nat) returns (merged: Record)
    ensures forall v: nat ::
      Get(merged, v) == if v < NUM_VBUCKET then Higher(Get(json, v), Get(output, v), maxInt) else Get(json, v)
    ensures forall v :: v in merged ==> v in json || merged[v] > 0
  {
    merged := json;
    for i := 0 to NUM_VBUCKET
      invariant forall v: nat ::
        Get(merged, v) == if v < i then Higher(Get(json, v), Get(output, v), maxInt) else Get(json, v)
      invariant forall v :: v in merged ==> v in json || merged[v] > 0
    {
      if i in output && output[i] != 0 {
        if i in merged && merged[i] != 0 {
          if merged[i] <= maxInt {
            if merged[i] < output[i] {
              merged := merged[i := output[i]];
            }
          }
        } else {
          merged := merged[i := output[i]];
        }
      }
    }
  }

  function HighestRecorded(jsons: seq<Record>, v: nat): nat
  {
    if jsons == [] then 0 else Max(HighestRecorded(jsons[..|jsons| - 1], v), Get(jsons[|jsons| - 1], v))
  }

  method ZeroSeqnos() returns (seqno: Record)
    ensures forall v: nat :: (v in seqno <==> v < NUM_VBUCKET) && Get(seqno, v) == 0
  {
    seqno := map[];
    for i := 0 to NUM_VBUCKET
      invariant forall v: nat :: (v in seqno <==> v < i) && Get(seqno, v) == 0
    {
      seqno := seqno[i := 0];
    }
  }

  /** The merging of seqno.json files in BFD.find_seqno: the highest seqno recorded for each vbucket. */
  method FindSeqno(jsons: seq<Record>) returns (seqno: Record)
    ensures forall v: nat :: v < NUM_VBUCKET ==> v in seqno
    ensures forall v: nat :: Get(seqno, v) == HighestRecorded(jsons, v)
  {
    seqno := ZeroSeqnos();
    for i := 0 to |jsons|
      invariant forall v: nat :: v < NUM_VBUCKET ==> v in seqno
      invariant forall v: nat :: Get(seqno, v) == HighestRecorded(jsons[..i], v)
    {
      seqno := FoldJson(seqno, jsons[i]);
      assert jsons[..i + 1][..i] == jsons[..i];
    }
    assert jsons[..|jsons|] == jsons;
  }

  method FoldJson(seqno: Record, json: Record) returns (s: Record)
    ensures forall v: nat :: Get(s, v) == Max(Get(seqno, v), Get(json, v))
    ensures forall v :: v in seqno ==> v in s
  {
    s := seqno;
    var todo := ListKeys(json.Keys);
    for k := 0 to |todo|
      invariant forall v :: v in seqno ==> v in s
      invariant forall v: nat :: Get(s, v) == if v in todo[..k] then Max(Get(seqno, v), Get(json, v)) else Get(seqno, v)
    {
      var v := todo[k];
      assert v !in todo[..k];
      assert todo[..k + 1] == todo[..k] + [v];
      if json[v] != 0 {
        if v !in s || s[v] < json[v] {
          s := s[v := json[v]];
        }
      }
    }
    assert todo[..|todo|] == todo;
    forall v: nat ensures Get(s, v) == Max(Get(seqno, v), Get(json, v)) {
      assert v in json.Keys <==> v in todo;
    }
  }

  // ---------- The sink ----------

  function Rows(files: seq<seq<Row>>): seq<Row>
  {
    if files == [] then [] else Rows(files[..|files| - 1]) + files[|files| - 1]
  }

  lemma RowsSnoc(files: seq<seq<Row>>, f: seq<Row>)
    ensures Rows(files + [f]) == Rows(files) + f
  {
    assert (files + [f])[..|files|] == files;
  }

  lemma RowsExtend(files: seq<seq<Row>>, more: seq<Row>)
    requires files != []
    ensures var k := |files| - 1; Rows(files[k := files[k] + more]) == Rows(files) + more
  {
    var k := |files| - 1;
    assert files[k := files[k] + more][..k] == files[..k];
    Assoc(Rows(files[..k]), files[k], more);
  }

  function RowBytes(rows: seq<Row>): nat
  {
    if rows == [] then 0 else RowBytes(rows[..|rows| - 1]) + |rows[|rows| - 1].val|
  }

  lemma RowBytesSnoc(rows: seq<Row>, r: Row)
    ensures RowBytes(rows + [r]) == RowBytes(rows) + |r.val|
  {
    assert (rows + [r])[..|rows|] == rows;
  }

  /** The seqno map agrees with what some rows say. */
  ghost predicate Tracks(m: Record, rows: seq<Row>)
  {
    forall v: nat :: v < NUM_VBUCKET ==> v in m && m[v] == High(rows, v)
  }

  /** A record that claims no more than some rows contain. */
  ghost predicate Within(json: Record, rows: seq<Row>)
  {
    forall v: nat :: Get(json, v) <= High(rows, v)
  }

  /** A record that has the highest seqno of every vbucket, short of those whose record has left the plain integers. */
  ghost predicate Records(json: Record, rows: seq<Row>, maxInt: nat)
  {
    forall v: nat :: v < NUM_VBUCKET ==> Get(json, v) == High(rows, v) || Get(json, v) > maxInt
  }

  /** What writing the record after some rows makes of it. */
  ghost predicate Merged(before: Record, after: Record, rows: seq<Row>, maxInt: nat)
  {
    forall v: nat ::
      Get(after, v) == if v < NUM_VBUCKET then Higher(Get(before, v), High(rows, v), maxInt) else Get(before, v)
  }

  datatype Rv = Zero | CannotCreate | BadCmd | DbError | StoppedBeforeJson

  class BackupSink {
    var files: seq<seq<Row>>  // committed rows of data-0000.cbb, data-0001.cbb, ...
    var open: bool            // db is connected to the last file
    var cbbBytes: nat
    var seqnoMap: Record
    var json: Record          // seqno.json
    const skip: Skipper
    const maxBytes: int
    const maxInt: nat         // sys.maxint

    /** The record never exceeds what is committed, and before every batch the map equals it. */
    ghost predicate Valid()
      reads this
    {
      && (open ==> files != [])
      && Tracks(seqnoMap, Rows(files))
      && Within(json, Rows(files))
    }

    /** Nothing committed is missing from the record. */
    ghost predicate Recorded()
      reads this
    {
      Records(json, Rows(files), maxInt)
    }

    constructor (skip: Skipper, maxBytes: int, maxInt: nat)
      ensures Valid() && Recorded() && files == []
      ensures this.skip == skip && this.maxBytes == maxBytes && this.maxInt == maxInt
    {
      files, open, cbbBytes, json := [], false, 0, map[];
      this.skip, this.maxBytes, this.maxInt := skip, maxBytes, maxInt;
      new;
      seqnoMap := ZeroSeqnos();
    }

    /** Whether the next batch goes to the file that is open. */
    predicate Fits(isOpen: bool, bytes: nat)
    {
      isOpen && bytes < maxBytes
    }

    /** One batch of BFDSink.run: roll over if the file is full, insert and commit the rows, write the record.
        `stops` is a run that ends between the commit and the writing of the record. */
    method Store(batch: seq<Msg>, stops: bool) returns (rv: Rv)
      requires Valid()
      modifies this
      ensures rv.Zero? || rv.StoppedBeforeJson? ==>
        Rows(files) == Rows(old(files)) + Kept(batch, skip) && AllStorable(batch, skip)
      ensures rv.Zero? ==> Valid() && Recorded()
      ensures rv.Zero? ==> Merged(old(json), json, Rows(files), maxInt)
      ensures rv.Zero? ==> open && |files| == |old(files)| + if Fits(old(open), old(cbbBytes)) then 0 else 1
      ensures rv.Zero? ==>
        cbbBytes == RowBytes(Kept(batch, skip)) + if old(open) && old(cbbBytes) >= maxBytes then 0 else old(cbbBytes)
      ensures !rv.Zero? ==> json == old(json)
      ensures !rv.Zero? && !rv.StoppedBeforeJson? ==> Rows(files) == Rows(old(files))
      ensures Within(json, Rows(files))
      ensures !AllStorable(batch, skip) ==> !rv.Zero? && !rv.StoppedBeforeJson?
    {
      var created := RollOver();
      if !created {
        return CannotCreate;
      }
      var rows;
      rv, rows := Insert(batch);
      if !rv.Zero? {
        return;
      }
      var committed: bool := *;
      if !committed {
        return DbError;
      }
      RowsExtend(files, rows);
      WithinAppend(json, Rows(files), rows);
      files := files[|files| - 1 := files[|files| - 1] + rows];
      if stops {
        return StoppedBeforeJson;
      }
      var merged := WriteJson(json, seqnoMap, maxInt);
      RecordsAfter(json, seqnoMap, merged, Rows(files), maxInt);
      json := merged;
    }

    /** Closes a full file and opens the next, if none is open. */
    method RollOver() returns (created: bool)
      requires open ==> files != []
      modifies this`files, this`open, this`cbbBytes
      ensures Rows(files) == old(Rows(files))
      ensures created ==>
        open && files != [] && |files| == |old(files)| + if Fits(old(open), old(cbbBytes)) then 0 else 1
      ensures cbbBytes == if old(open) && old(cbbBytes) >= maxBytes then 0 else old(cbbBytes)
    {
      if open && cbbBytes >= maxBytes {
        open := false;
        cbbBytes := 0;
      }
      created := true;
      if !open {
        created := *;
        if created {
          RowsSnoc(files, []);
          assert Rows(files) + [] == Rows(files);
          files := files + [[]];
          open := true;
        }
      }
    }

    /** The counters after one insert. */
    method CountRow(m: Msg, ghost rows: seq<Row>)
      requires Tracks(seqnoMap, rows) && 0 <= m.vbucket < NUM_VBUCKET
      modifies this`cbbBytes, this`seqnoMap
      ensures Tracks(seqnoMap, rows + [RowOf(m)]) && cbbBytes == old(cbbBytes) + |m.val|
    {
      cbbBytes := cbbBytes + |m.val|;
      TracksSnoc(seqnoMap, rows, RowOf(m));
      if seqnoMap[m.vbucket] < m.seqno {
        seqnoMap := seqnoMap[m.vbucket := m.seqno];
      }
    }

    /** The insert statements of one batch; nothing is committed yet. */
    method Insert(batch: seq<Msg>) returns (rv: Rv, rows: seq<Row>)
      requires Tracks(seqnoMap, Rows(files))
      modifies this`cbbBytes, this`seqnoMap
      ensures rv.Zero? <==> AllStorable(batch, skip)
      ensures rv.Zero? || rv.BadCmd? || rv.DbError?
      ensures rv.Zero? ==> rows == Kept(batch, skip) && Tracks(seqnoMap, Rows(files) + rows)
      ensures rv.Zero? ==> cbbBytes == old(cbbBytes) + RowBytes(rows)
    {
      rows := [];
      assert Rows(files) + [] == Rows(files);
      for i := 0 to |batch|
        invariant AllStorable(batch[..i], skip) && rows == Kept(batch[..i], skip)
        invariant cbbBytes == old(cbbBytes) + RowBytes(rows)
        invariant Tracks(seqnoMap, Rows(files) + rows)
      {
        var m := batch[i];
        InsertStep(batch, i, skip);
        if !skip(m.key, m.vbucket) {
          if m.cmd !in [CMD_TAP_MUTATION, CMD_TAP_DELETE, CMD_DCP_MUTATION, CMD_DCP_DELETE] {
            return BadCmd, rows;
          }
          if !(0 <= m.vbucket < NUM_VBUCKET) {
            return DbError, rows;  // KeyError on seqno_map
          }
          CountRow(m, Rows(files) + rows);
          Assoc(Rows(files), rows, [RowOf(m)]);
          RowBytesSnoc(rows, RowOf(m));
          rows := rows + [RowOf(m)];
        }
      }
      assert batch[..|batch|] == batch;
      rv := Zero;
    }
  }

  predicate Acceptable(m: Msg)
  {
    Storable(m.cmd) && 0 <= m.vbucket < NUM_VBUCKET
  }

  lemma InsertStep(batch: seq<Msg>, i: nat, skip: Skipper)
    requires i < |batch| && AllStorable(batch[..i], skip)
    ensures var m := batch[i];
      if skip(m.key, m.vbucket) then
        AllStorable(batch[..i + 1], skip) && Kept(batch[..i + 1], skip) == Kept(batch[..i], skip)
      else if Acceptable(m) then
        AllStorable(batch[..i + 1], skip) && Kept(batch[..i + 1], skip) == Kept(batch[..i], skip) + [RowOf(m)]
      else !AllStorable(batch, skip)
  {
    assert batch[..i + 1][..i] == batch[..i];
    assert forall k :: 0 <= k < i ==> batch[..i + 1][k] == batch[..i][k];
  }

  lemma TracksSnoc(m: Record, rows: seq<Row>, r: Row)
    requires Tracks(m, rows) && 0 <= r.vbucket < NUM_VBUCKET
    ensures Tracks(if m[r.vbucket] < r.seqno then m[r.vbucket := r.seqno] else m, rows + [r])
  {
    forall v: nat ensures High(rows + [r], v) == if r.vbucket == v then Max(High(rows, v), r.seqno) else High(rows, v) {
      HighSnoc(rows, r, v);
    }
  }

  /** Writing the record of a map that tracks some rows. */
  lemma RecordsAfter(json: Record, seqnoMap: Record, merged: Record, rows: seq<Row>, maxInt: nat)
    requires Within(json, rows) && Tracks(seqnoMap, rows)
    requires forall v: nat ::
      Get(merged, v) == if v < NUM_VBUCKET then Higher(Get(json, v), Get(seqnoMap, v), maxInt) else Get(json, v)
    ensures Within(merged, rows) && Records(merged, rows, maxInt) && Merged(json, merged, rows, maxInt)
  {
  }

  lemma WithinAppend(json: Record, rows: seq<Row>, more: seq<Row>)
    requires Within(json, rows)
    ensures Within(json, rows + more)
  {
    forall v: nat ensures Get(json, v) <= High(rows + more, v) {
      HighAppend(rows, more, v);
    }
  }
}
