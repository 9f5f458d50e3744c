/** Messages, batches, and the grouping of a batch by vbucket. */
module Batches {
  import opened Bits
  import opened Crc
  import opened Radix
  import opened Wire

  const NO_VBUCKET: int := 0xffff

  /** Revision metadata: bytes from a TAP source or a backup file, a number from a DCP source. */
  datatype Meta = Text(text: Bytes) | Number(n: nat)

  datatype Msg = Msg(cmd: nat, vbucket: int, key: Bytes, flg: nat, exp: nat, cas: nat, meta: Meta,
                     val: Bytes, seqno: nat, dtype: nat, nmeta: nat)

  /** A decimal numeral as ASCII. */
  function Ascii(digits: seq<nat>): (s: Bytes)
    requires forall i :: 0 <= i < |digits| ==> digits[i] < 10
    ensures |s| == |digits| && forall i :: 0 <= i < |s| ==> s[i] == digits[i] + 48
  {
    if digits == [] then [] else Ascii(digits[..|digits| - 1]) + [digits[|digits| - 1] + 48]
  }

  /** str(meta). */
  function MetaText(meta: Meta): (s: Bytes)
    ensures meta.Number? ==> s != []
  {
    match meta
    case Text(text) => text
    case Number(n) => Ascii(Dec(n))
  }

  /** The same bits read as a signed number, which is what Python 2's zlib returns. */
  function SignedCrc32(s: Bytes): int
  {
    if Crc32(s) < 0x8000_0000 then Crc32(s) else Crc32(s) - 0x1_0000_0000
  }

  /** `(crc >> 16) & (n - 1)`; with no vbuckets the mask is -1 and keeps every bit. */
  function HashBits(crc: int, n: nat): int
  {
    if n == 0 then crc / 0x1_0000 else BitAnd(crc / 0x1_0000, n - 1)
  }

  function VbucketOf(key: Bytes, n: nat): int
  {
    HashBits(SignedCrc32(key), n)
  }

  lemma {:induction false} BitAndPeriodic(x: int, y: int, m: nat, p: nat)
    requires m < p && PowerOfTwo(p) && (exists q: int :: y == x + q * p)
    ensures BitAnd(x, m) == BitAnd(y, m)
    decreases p
  {
    if m > 0 {
      var q: int :| y == x + q * p;
      var h := p / 2;
      assert p == 2 * h;
      assert q * p == 2 * (q * h);
      assert y % 2 == x % 2 && y / 2 == x / 2 + q * h;
      BitAndPeriodic(x / 2, y / 2, m / 2, h);
    }
  }

  predicate PowerOfTwo(n: nat)
  {
    n == 1 || (n > 1 && n % 2 == 0 && PowerOfTwo(n / 2))
  }

  lemma {:induction false} BitAndIsMod(x: int, n: nat)
    requires PowerOfTwo(n)
    ensures BitAnd(x, n - 1) == x % n
    decreases n
  {
    if n > 1 {
      var h := n / 2;
      BitAndIsMod(x / 2, h);
      assert (n - 1) / 2 == h - 1 && (n - 1) % 2 == 1;
      HalfDivide(x, h);
    }
  }

  /** For up to 65536 vbuckets the signed and unsigned readings of the checksum give the same id. */
  lemma SignDoesNotMatter(crc: nat, n: nat)
    requires 0 < n <= 0x1_0000
    ensures HashBits(crc - 0x1_0000_0000, n) == HashBits(crc, n)
  {
    var x, y := (crc - 0x1_0000_0000) / 0x1_0000, crc / 0x1_0000;
    assert y == x + 1 * 0x1_0000;
    Power65536();
    BitAndPeriodic(x, y, n - 1, 0x1_0000);
  }

  /** For every positive count the id is in range; for a power of two it is the remainder of the
      checksum's high half, whichever way the checksum is read. */
  lemma HashInRange(key: Bytes, n: nat)
    requires n > 0
    ensures 0 <= VbucketOf(key, n) < n
    ensures n <= 0x1_0000 ==> VbucketOf(key, n) == HashBits(Crc32(key), n)
    ensures n <= 0x1_0000 && PowerOfTwo(n) ==> VbucketOf(key, n) == Crc32(key) / 0x1_0000 % n
  {
    var c := Crc32(key);
    if n <= 0x1_0000 {
      SignDoesNotMatter(c, n);
      if PowerOfTwo(n) {
        BitAndIsMod(c / 0x1_0000, n);
      }
    }
  }

  lemma Power65536()
    ensures PowerOfTwo(0x1_0000)
  {
    assert PowerOfTwo(2) && PowerOfTwo(4) && PowerOfTwo(8) && PowerOfTwo(16);
    assert PowerOfTwo(32) && PowerOfTwo(64) && PowerOfTwo(128) && PowerOfTwo(256);
    assert PowerOfTwo(512) && PowerOfTwo(1024) && PowerOfTwo(2048) && PowerOfTwo(4096);
    assert PowerOfTwo(8192) && PowerOfTwo(16384) && PowerOfTwo(32768);
  }

  // ---------- Grouping ----------

  function Retag(m: Msg, n: nat, rehash: bool): Msg
  {
    if m.vbucket == NO_VBUCKET || rehash then m.(vbucket := VbucketOf(m.key, n)) else m
  }

  /** Only the id changes, and only where the source gave none or all are to be computed. */
  lemma RetagExact(m: Msg, n: nat, rehash: bool)
    ensures Retag(m, n, rehash).(vbucket := m.vbucket) == m
    ensures m.vbucket != NO_VBUCKET && !rehash ==> Retag(m, n, rehash).vbucket == m.vbucket
    ensures m.vbucket == NO_VBUCKET || rehash ==> Retag(m, n, rehash).vbucket == VbucketOf(m.key, n)
  {
  }

  function Retagged(ms: seq<Msg>, n: nat, rehash: bool): (r: seq<Msg>)
    ensures |r| == |ms|
    ensures forall i :: 0 <= i < |ms| ==> r[i] == Retag(ms[i], n, rehash)
  {
    if ms == [] then [] else Retagged(ms[..|ms| - 1], n, rehash) + [Retag(ms[|ms| - 1], n, rehash)]
  }

  /** The messages of one vbucket, in order. */
  function Project(ms: seq<Msg>, v: int): (r: seq<Msg>)
    ensures forall i :: 0 <= i < |r| ==> r[i].vbucket == v
  {
    if ms == [] then []
    else
      var m := ms[|ms| - 1];
      Project(ms[..|ms| - 1], v) + if m.vbucket == v then [m] else []
  }

  ghost function Tags(ms: seq<Msg>): set<int>
  {
    set i | 0 <= i < |ms| :: ms[i].vbucket
  }

  lemma TagsSnoc(ms: seq<Msg>, i: nat)
    requires i < |ms|
    ensures Tags(ms[..i + 1]) == Tags(ms[..i]) + {ms[i].vbucket}
  {
    var u, w := ms[..i + 1], ms[..i];
    forall t | t in Tags(u) ensures t in Tags(w) + {ms[i].vbucket} {
      var j :| 0 <= j < |u| && u[j].vbucket == t;
      if j < i { assert w[j].vbucket == t; }
    }
    forall t | t in Tags(w) ensures t in Tags(u) {
      var j :| 0 <= j < |w| && w[j].vbucket == t;
      assert u[j].vbucket == t;
    }
    assert u[i].vbucket in Tags(u);
  }

  lemma {:induction false} ProjectMissing(ms: seq<Msg>, v: int)
    ensures v !in Tags(ms) <==> Project(ms, v) == []
  {
    if ms != [] {
      var k := |ms| - 1;
      ProjectMissing(ms[..k], v);
      TagsSnoc(ms, k);
      assert ms[..k + 1] == ms;
    }
  }

  lemma GroupStep(all: seq<Msg>, i: nat, g: map<int, seq<Msg>>)
    requires i < |all| && g.Keys == Tags(all[..i])
    requires forall v :: v in g ==> g[v] == Project(all[..i], v)
    ensures var m := all[i];
            var g' := g[m.vbucket := (if m.vbucket in g then g[m.vbucket] else []) + [m]];
            g'.Keys == Tags(all[..i + 1]) && forall v :: v in g' ==> g'[v] == Project(all[..i + 1], v)
  {
    TagsSnoc(all, i);
    ProjectMissing(all[..i], all[i].vbucket);
    assert all[..i + 1][..i] == all[..i] && all[..i + 1][i] == all[i];
  }

  /** Batch.group_by_vbucket_id: an order-preserving partition of the retagged batch. */
  method GroupByVbucketId(msgs: seq<Msg>, n: nat, rehash: bool) returns (g: map<int, seq<Msg>>)
    ensures g.Keys == Tags(Retagged(msgs, n, rehash))
    ensures forall v :: v in g ==> g[v] == Project(Retagged(msgs, n, rehash), v)
  {
    g := map[];
    ghost var all := Retagged(msgs, n, rehash);
    for i := 0 to |msgs|
      invariant g.Keys == Tags(all[..i])
      invariant forall v :: v in g ==> g[v] == Project(all[..i], v)
    {
      GroupStep(all, i, g);
      var m := Retag(msgs[i], n, rehash);
      g := g[m.vbucket := (if m.vbucket in g then g[m.vbucket] else []) + [m]];
    }
    assert all[..|msgs|] == all;
  }

  /** `order` lists the members of a set, each once: an iteration order of a dictionary's keys. */
  ghost predicate Lists<T(!new)>(order: seq<T>, keys: set<T>)
  {
    Distinct(order)
    && (forall i :: 0 <= i < |order| ==> order[i] in keys)
    && forall v {:trigger v in order} :: v in keys ==> v in order
  }

  /** An iteration order of a dictionary's keys. */
  method ListKeys<T(==, !new)>(keys: set<T>) returns (order: seq<T>)
    ensures Lists(order, keys)
  {
    order := [];
    var rest := keys;
    while |rest| > 0
      invariant rest <= keys && Distinct(order)
      invariant forall v :: v in order <==> v in keys && v !in rest
      decreases |rest|
    {
      var v :| v in rest;
      order := order + [v];
      rest := rest - {v};
    }
    assert forall i :: 0 <= i < |order| ==> order[i] in order;
  }

  /** The groups one after the other, in a given visiting order. */
  function Visit(ms: seq<Msg>, order: seq<int>): seq<Msg>
  {
    if order == [] then [] else Visit(ms, order[..|order| - 1]) + Project(ms, order[|order| - 1])
  }

  /** The messages whose vbucket is among the first visited ones. */
  function Among(ms: seq<Msg>, order: seq<int>): seq<Msg>
  {
    if ms == [] then []
    else
      var m := ms[|ms| - 1];
      Among(ms[..|ms| - 1], order) + if m.vbucket in order then [m] else []
  }

  lemma {:induction false} AmongSnoc(ms: seq<Msg>, order: seq<int>, v: int)
    requires v !in order
    ensures multiset(Among(ms, order + [v])) == multiset(Among(ms, order)) + multiset(Project(ms, v))
  {
    if ms != [] {
      var k, m := |ms| - 1, ms[|ms| - 1];
      AmongSnoc(ms[..k], order, v);
      assert m.vbucket in order + [v] <==> m.vbucket in order || m.vbucket == v;
      assert multiset(Among(ms, order + [v])) ==
             multiset(Among(ms[..k], order + [v])) + (if m.vbucket in order + [v] then multiset{m} else multiset{});
    }
  }

  lemma {:induction false} AmongNone(ms: seq<Msg>)
    ensures Among(ms, []) == []
  {
    if ms != [] {
      AmongNone(ms[..|ms| - 1]);
    }
  }

  lemma {:induction false} AmongAll(ms: seq<Msg>, order: seq<int>)
    requires forall i :: 0 <= i < |ms| ==> ms[i].vbucket in order
    ensures Among(ms, order) == ms
  {
    if ms != [] {
      AmongAll(ms[..|ms| - 1], order);
    }
  }

  lemma {:induction false} VisitAmong(ms: seq<Msg>, order: seq<int>)
    requires Distinct(order)
    ensures multiset(Visit(ms, order)) == multiset(Among(ms, order))
  {
    if order == [] {
      AmongNone(ms);
    } else {
      var k := |order| - 1;
      VisitAmong(ms, order[..k]);
      AmongSnoc(ms, order[..k], order[k]);
      assert order[..k] + [order[k]] == order;
    }
  }

  /** Whatever order the groups are visited in, every message of the batch is in them exactly once,
      retagged and otherwise as it was. */
  lemma GroupsConserve(msgs: seq<Msg>, n: nat, rehash: bool, order: seq<int>)
    requires Lists(order, Tags(Retagged(msgs, n, rehash)))
    ensures multiset(Visit(Retagged(msgs, n, rehash), order)) == multiset(Retagged(msgs, n, rehash))
  {
    var all := Retagged(msgs, n, rehash);
    VisitAmong(all, order);
    forall i | 0 <= i < |all| ensures all[i].vbucket in order {
      assert all[i].vbucket in Tags(all);
    }
    AmongAll(all, order);
  }
}
