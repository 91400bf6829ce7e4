// Rebuilding the entity store from the archive: newest messages first
// (web/src/hlc.ts), in batches (web/src/client.ts).

module Replay {
  import opened Basics
  import opened Lww
  import opened Messages
  import opened EntMemory

  /* ---- Recency ---- */

  // What the order looks at: the head's update time, if its eid parses, and
  // its counter.
  datatype Recency = Recency(at: Option<int>, ctr: nat)

  function RecencyOf(m: Msg): Recency {
    Recency(if m.eid.time.At? then Some(m.eid.time.ms + m.off) else None, m.ctr)
  }

  // Negative: a sorts before b. Heads that do not parse sort last.
  function CompareHlcDesc(a: Recency, b: Recency): int {
    if a.at.None? && b.at.None? then 0
    else if a.at.None? then 1
    else if b.at.None? then -1
    else if a.at != b.at then b.at.value - a.at.value
    else b.ctr - a.ctr
  }

  // a goes before b, or either may go first.
  predicate NoLater(a: Msg, b: Msg) { CompareHlcDesc(RecencyOf(a), RecencyOf(b)) <= 0 }

  predicate Sorted(msgs: seq<Msg>) { forall i, j :: 0 <= i < j < |msgs| ==> NoLater(msgs[i], msgs[j]) }

  lemma OrderIsTotal(a: Msg, b: Msg, c: Msg)
    ensures NoLater(a, b) || NoLater(b, a)
    ensures NoLater(a, b) && NoLater(b, c) ==> NoLater(a, c)
  {
  }

  // Puts m after everything that may stay before it.
  function Insert(msgs: seq<Msg>, m: Msg): seq<Msg> {
    if msgs == [] || NoLater(msgs[|msgs| - 1], m) then msgs + [m]
    else Insert(msgs[..|msgs| - 1], m) + [msgs[|msgs| - 1]]
  }

  // A stable sort, newest first.
  function SortByHlcDesc(msgs: seq<Msg>): seq<Msg> {
    if msgs == [] then [] else Insert(SortByHlcDesc(msgs[..|msgs| - 1]), msgs[|msgs| - 1])
  }

  // The messages of msgs that tie with m, in order.
  function Ties(msgs: seq<Msg>, m: Msg): seq<Msg> {
    if msgs == [] then []
    else
      var init, last := msgs[..|msgs| - 1], msgs[|msgs| - 1];
      Ties(init, m) + (if NoLater(last, m) && NoLater(m, last) then [last] else [])
  }

  lemma {:induction false} InsertSorts(msgs: seq<Msg>, m: Msg)
    requires Sorted(msgs)
    ensures Sorted(Insert(msgs, m)) && multiset(Insert(msgs, m)) == multiset(msgs) + multiset{m}
    decreases |msgs|
  {
    if msgs != [] {
      var init, last := msgs[..|msgs| - 1], msgs[|msgs| - 1];
      assert msgs == init + [last];
      if NoLater(last, m) {
        forall i | 0 <= i < |msgs|
          ensures NoLater(msgs[i], m)
        {
          OrderIsTotal(msgs[i], last, m);
        }
      } else {
        InsertSorts(init, m);
        OrderIsTotal(last, m, m);
        forall x | x in Insert(init, m)
          ensures NoLater(x, last)
        {
          assert x in multiset(Insert(init, m));
          assert x in init || x == m;
        }
      }
    }
  }

  lemma {:induction false} InsertStable(msgs: seq<Msg>, m: Msg, k: Msg)
    requires Sorted(msgs)
    ensures Ties(Insert(msgs, m), k) == Ties(msgs + [m], k)
    decreases |msgs|
  {
    if msgs != [] && !NoLater(msgs[|msgs| - 1], m) {
      var init, last := msgs[..|msgs| - 1], msgs[|msgs| - 1];
      InsertStable(init, m, k);
      assert (Insert(init, m) + [last])[..|Insert(init, m)|] == Insert(init, m);
      assert (init + [m])[..|init|] == init && (msgs + [m])[..|msgs|] == msgs;
      OrderIsTotal(last, k, m);
      OrderIsTotal(m, k, last);
    }
  }

  // Same messages, newest first, ties in their old order.
  lemma {:induction false} SortSorts(msgs: seq<Msg>, k: Msg)
    ensures Sorted(SortByHlcDesc(msgs)) && multiset(SortByHlcDesc(msgs)) == multiset(msgs)
    ensures Ties(SortByHlcDesc(msgs), k) == Ties(msgs, k)
    decreases |msgs|
  {
    if msgs != [] {
      var init, last := msgs[..|msgs| - 1], msgs[|msgs| - 1];
      assert msgs == init + [last];
      SortSorts(init, k);
      InsertSorts(SortByHlcDesc(init), last);
      InsertStable(SortByHlcDesc(init), last, k);
      assert (SortByHlcDesc(init) + [last])[..|SortByHlcDesc(init)|] == SortByHlcDesc(init);
    }
  }

  /* ---- Newest-first application ---- */

  // a's op is at least as recent as b's, by update time and then counter.
  predicate NotOlder(a: Op, b: Op) {
    Parses(b) ==> Parses(a) && (Stamp(a) > Stamp(b) || (Stamp(a) == Stamp(b) && a.ctr >= b.ctr))
  }

  predicate NewestFirst(ops: seq<Op>) { forall i, j :: 0 <= i < j < |ops| ==> NotOlder(ops[i], ops[j]) }

  ghost predicate OpOf(msgs: seq<Msg>, op: Op) { exists m :: m in msgs && MsgToOp(m) == Ok(op) }

  lemma {:induction false} OpsFrom(msgs: seq<Msg>, op: Op)
    requires op in OpsOf(msgs)
    ensures OpOf(msgs, op)
    decreases |msgs|
  {
    var init, last := msgs[..|msgs| - 1], msgs[|msgs| - 1];
    assert msgs == init + [last];
    RankPrefix(msgs, |msgs| - 1);
    if op in OpsOf(init) {
      OpsFrom(init, op);
      var m :| m in init && MsgToOp(m) == Ok(op);
      assert m in msgs;
    } else {
      assert last in msgs && MsgToOp(last) == Ok(op);
    }
  }

  lemma OpThere(msgs: seq<Msg>, m: Msg)
    requires m in msgs && Good(m)
    ensures MsgToOp(m).value in OpsOf(msgs)
  {
    var i :| 0 <= i < |msgs| && msgs[i] == m;
    OpAtRank(msgs, i);
  }

  lemma LastNotNewer(msgs: seq<Msg>, op: Op)
    requires msgs != [] && Sorted(msgs) && Good(msgs[|msgs| - 1]) && OpOf(msgs[..|msgs| - 1], op)
    ensures NotOlder(op, MsgToOp(msgs[|msgs| - 1]).value)
  {
    var m :| m in msgs[..|msgs| - 1] && MsgToOp(m) == Ok(op);
    assert NoLater(m, msgs[|msgs| - 1]);
  }

  lemma {:induction false} OpsNewestFirst(msgs: seq<Msg>)
    requires Sorted(msgs)
    ensures NewestFirst(OpsOf(msgs))
    decreases |msgs|
  {
    if msgs != [] {
      var init, last := msgs[..|msgs| - 1], msgs[|msgs| - 1];
      OpsNewestFirst(init);
      var ops := OpsOf(init);
      if Good(last) {
        forall i | 0 <= i < |ops|
          ensures NotOlder(ops[i], MsgToOp(last).value)
        {
          OpsFrom(init, ops[i]);
          LastNotNewer(msgs, ops[i]);
        }
        assert OpsOf(msgs) == ops + [MsgToOp(last).value];
      }
    }
  }

  // Op i is the first of e that parses, and row is what it writes.
  ghost predicate WritesRow(ops: seq<Op>, i: int, row: Row, e: Eid) {
    && 0 <= i < |ops| && ops[i].eid == e && Parses(ops[i]) && row == RowOf(ops[i])
    && forall j :: 0 <= j < i && ops[j].eid == e ==> !Parses(ops[j])
  }

  // Newest first, the first op of an eid that parses writes its row for good.
  lemma {:induction false} FirstWrite(ops: seq<Op>, e: Eid) returns (i: nat)
    requires NewestFirst(ops) && e in ApplyAll(map[], ops)
    ensures WritesRow(ops, i, ApplyAll(map[], ops)[e], e)
    decreases |ops|
  {
    var init, last := ops[..|ops| - 1], ops[|ops| - 1];
    var s1 := ApplyAll(map[], init);
    if e in s1 {
      i := FirstWrite(init, e);
      if e == last.eid && Parses(last) { assert NotOlder(ops[i], ops[|ops| - 1]); }
    } else {
      i := |init|;
      forall j | 0 <= j < |init| && init[j].eid == e
        ensures !Parses(init[j])
      {
        if Parses(init[j]) { EveryEid(init, j); }
      }
    }
  }

  predicate OnceEach(eids: seq<Eid>) { forall i, j :: 0 <= i < j < |eids| ==> eids[i] != eids[j] }

  lemma {:induction false} ChangedWritten(ops: seq<Op>, e: Eid)
    requires e in Changed(map[], ops)
    ensures e in ApplyAll(map[], ops)
    decreases |ops|
  {
    if e in Changed(map[], ops[..|ops| - 1]) { ChangedWritten(ops[..|ops| - 1], e); }
  }

  lemma {:induction false} WrittenOnce(ops: seq<Op>)
    requires NewestFirst(ops)
    ensures OnceEach(Changed(map[], ops))
    decreases |ops|
  {
    if ops != [] {
      var init, last := ops[..|ops| - 1], ops[|ops| - 1];
      WrittenOnce(init);
      if last.eid in Changed(map[], init) {
        ChangedWritten(init, last.eid);
        var i := FirstWrite(init, last.eid);
        assert NotOlder(ops[i], ops[|ops| - 1]);
      }
    }
  }

  predicate SameElements(a: seq<Msg>, b: seq<Msg>) { forall m :: m in a + b ==> m in a && m in b }

  lemma SortedSame(msgs: seq<Msg>)
    ensures Sorted(SortByHlcDesc(msgs)) && SameElements(msgs, SortByHlcDesc(msgs))
  {
    if msgs != [] {
      SortSorts(msgs, msgs[0]);
      forall m
        ensures m in msgs <==> m in SortByHlcDesc(msgs)
      {
        assert m in multiset(msgs) <==> m in multiset(SortByHlcDesc(msgs));
      }
    }
  }

  // m is a message on e, and none on e is more recent.
  ghost predicate Greatest(msgs: seq<Msg>, m: Msg, e: Eid) {
    && m in msgs && Good(m) && m.eid == e && e.time.At?
    && forall x :: x in msgs && Good(x) && x.eid == e ==> NoLater(m, x)
  }

  // The op that comes first is no older than any other of its eid.
  lemma FirstIsGreatest(ops: seq<Op>, i: nat, m: Msg, j: nat, x: Msg)
    requires NewestFirst(ops) && i < |ops| && j < |ops| && MsgToOp(m) == Ok(ops[i]) && MsgToOp(x) == Ok(ops[j])
    requires Parses(ops[i]) && (j < i ==> !Parses(ops[j]))
    ensures NoLater(m, x)
  {
    if i < j { assert NotOlder(ops[i], ops[j]); }
  }

  lemma GreatestWrites(msgs: seq<Msg>, e: Eid) returns (m: Msg)
    requires Sorted(msgs) && e in ApplyAll(map[], OpsOf(msgs))
    ensures Greatest(msgs, m, e) && ApplyAll(map[], OpsOf(msgs))[e] == RowOf(MsgToOp(m).value)
  {
    var ops := OpsOf(msgs);
    OpsNewestFirst(msgs);
    var i := FirstWrite(ops, e);
    OpsFrom(msgs, ops[i]);
    m :| m in msgs && MsgToOp(m) == Ok(ops[i]);
    forall x | x in msgs && Good(x) && x.eid == e
      ensures NoLater(m, x)
    {
      OpThere(msgs, x);
      var j: nat :| j < |ops| && ops[j] == MsgToOp(x).value;
      FirstIsGreatest(ops, i, m, j, x);
    }
  }

  lemma ReplayWrites(msgs: seq<Msg>, e: Eid)
    ensures e in ApplyAll(map[], OpsOf(SortByHlcDesc(msgs))) <==> exists m :: m in msgs && Good(m) && m.eid == e && e.time.At?
  {
    var sorted := SortByHlcDesc(msgs);
    SortedSame(msgs);
    if e in ApplyAll(map[], OpsOf(sorted)) { var m := GreatestWrites(sorted, e); }
    if m :| m in msgs && Good(m) && m.eid == e && e.time.At? {
      OpThere(sorted, m);
      var i :| 0 <= i < |OpsOf(sorted)| && OpsOf(sorted)[i] == MsgToOp(m).value;
      EveryEid(OpsOf(sorted), i);
    }
  }

  // Replaying an archive leaves a row for each eid that has a message, that
  // of one with the greatest (update time, counter), and writes it once.
  lemma ReplayLeavesGreatest(msgs: seq<Msg>, e: Eid)
    ensures var ops := OpsOf(SortByHlcDesc(msgs));
            && OnceEach(Changed(map[], ops))
            && (e in ApplyAll(map[], ops) <==> exists m :: m in msgs && Good(m) && m.eid == e && e.time.At?)
            && (e in ApplyAll(map[], ops) ==>
                  exists m :: Greatest(msgs, m, e) && ApplyAll(map[], ops)[e] == RowOf(MsgToOp(m).value))
  {
    var sorted := SortByHlcDesc(msgs);
    SortedSame(msgs);
    OpsNewestFirst(sorted);
    WrittenOnce(OpsOf(sorted));
    ReplayWrites(msgs, e);
    if e in ApplyAll(map[], OpsOf(sorted)) {
      var m := GreatestWrites(sorted, e);
      assert Greatest(msgs, m, e);
    }
  }

  lemma SameOps(a: seq<Msg>, b: seq<Msg>)
    requires SameElements(a, b)
    ensures Elems(OpsOf(a)) <= Elems(OpsOf(b))
  {
    forall op | op in OpsOf(a)
      ensures op in OpsOf(b)
    {
      OpsFrom(a, op);
      var m :| m in a && MsgToOp(m) == Ok(op);
      assert m in a + b;
      OpThere(b, m);
    }
  }

  lemma SortedSameOps(msgs: seq<Msg>, arrived: seq<Msg>)
    requires SameElements(msgs, arrived)
    ensures Elems(OpsOf(SortByHlcDesc(msgs))) == Elems(OpsOf(arrived)) == Elems(OpsOf(msgs))
  {
    var sorted := SortByHlcDesc(msgs);
    SortedSame(msgs);
    SameOps(msgs, sorted);
    SameOps(sorted, msgs);
    SameOps(msgs, arrived);
    SameOps(arrived, msgs);
  }

  // With distinct update times a replay gives what the same messages gave as
  // they came in, in whatever order and however often each came.
  lemma ReplayIsIncremental(msgs: seq<Msg>, arrived: seq<Msg>)
    requires SameElements(msgs, arrived) && DistinctStamps(Elems(OpsOf(arrived)))
    ensures ApplyAll(map[], OpsOf(SortByHlcDesc(msgs))) == ApplyAll(map[], OpsOf(arrived))
  {
    SortedSameOps(msgs, arrived);
    DistinctStampsConverge(OpsOf(arrived), OpsOf(SortByHlcDesc(msgs)));
  }

  lemma ArrivalMatches(msgs: seq<Msg>, arrived: seq<Msg>)
    requires NewestAgree(Elems(OpsOf(msgs))) && SameElements(msgs, arrived)
    ensures ApplyAll(map[], OpsOf(arrived)) == ApplyAll(map[], OpsOf(SortByHlcDesc(msgs)))
  {
    OrderIndependence(OpsOf(msgs));
    SortedSameOps(msgs, arrived);
  }

  lemma TiesTellApart(msgs: seq<Msg>) returns (a: seq<Msg>, b: seq<Msg>)
    requires !NewestAgree(Elems(OpsOf(msgs)))
    ensures SameElements(msgs, a) && SameElements(msgs, b)
    ensures ApplyAll(map[], OpsOf(a)) != ApplyAll(map[], OpsOf(b))
  {
    var all := Elems(OpsOf(msgs));
    var x, y :| x in all && y in all && Parses(x) && Parses(y) && x.eid == y.eid
                && Newest(x, RowOf(x), all) && Newest(y, RowOf(y), all) && RowOf(x) != RowOf(y);
    var mx := LeadMsg(msgs, x);
    var my := LeadMsg(msgs, y);
    a, b := [mx] + msgs, [my] + msgs;
  }

  ghost predicate MatchesEveryOrder(msgs: seq<Msg>) {
    forall arrived :: SameElements(msgs, arrived) ==>
      ApplyAll(map[], OpsOf(arrived)) == ApplyAll(map[], OpsOf(SortByHlcDesc(msgs)))
  }

  // A replay matches every order of arrival exactly when the newest messages
  // of each eid write the same row; otherwise some order tells them apart.
  lemma ReplayMatchesExactly(msgs: seq<Msg>)
    ensures MatchesEveryOrder(msgs) <==> NewestAgree(Elems(OpsOf(msgs)))
  {
    if NewestAgree(Elems(OpsOf(msgs))) {
      forall arrived | SameElements(msgs, arrived)
        ensures ApplyAll(map[], OpsOf(arrived)) == ApplyAll(map[], OpsOf(SortByHlcDesc(msgs)))
      {
        ArrivalMatches(msgs, arrived);
      }
    } else {
      var a, b := TiesTellApart(msgs);
    }
  }

  // A message put first decides its eid's row, if none is newer.
  lemma LeadMsg(msgs: seq<Msg>, x: Op) returns (m: Msg)
    requires Parses(x) && Newest(x, RowOf(x), Elems(OpsOf(msgs)))
    ensures m in msgs
    ensures x.eid in ApplyAll(map[], OpsOf([m] + msgs)) && ApplyAll(map[], OpsOf([m] + msgs))[x.eid] == RowOf(x)
  {
    OpsFrom(msgs, x);
    m :| m in msgs && MsgToOp(m) == Ok(x);
    LeadWins(x, OpsOf(msgs));
    OpsOfSplit([m], msgs);
    assert [m][..0] == [];
    assert OpsOf([m]) == [x];
  }

  /* ---- The batched loop ---- */

  const MAX_ITEMS := 100
  const MAX_BYTES := 100 * 1024

  function TotalLen(msgs: seq<Msg>, len: Msg -> nat): nat {
    if msgs == [] then 0 else TotalLen(msgs[..|msgs| - 1], len) + len(msgs[|msgs| - 1])
  }

  lemma {:induction false} LensAdd(a: seq<Msg>, b: seq<Msg>, len: Msg -> nat)
    ensures TotalLen(a + b, len) == TotalLen(a, len) + TotalLen(b, len)
    ensures |b| == 1 ==> TotalLen(b, len) == len(b[0])
    decreases |b|
  {
    if b == [] {
      assert a + b == a;
    } else {
      assert (a + b)[..|a + b| - 1] == a + b[..|b| - 1];
      LensAdd(a, b[..|b| - 1], len);
    }
  }

  // A batch stops at 100 messages, or once it has reached 100 KiB.
  ghost predicate GoodBatch(batch: seq<Msg>, len: Msg -> nat) {
    && 0 < |batch| <= 100
    && TotalLen(batch[..|batch| - 1], len) < 102400
  }

  lemma {:induction false} OpsOfSplit(a: seq<Msg>, b: seq<Msg>)
    ensures OpsOf(a + b) == OpsOf(a) + OpsOf(b)
    decreases |b|
  {
    if b == [] {
      assert a + b == a;
    } else {
      assert (a + b)[..|a + b| - 1] == a + b[..|b| - 1];
      RankPrefix(b, |b| - 1);
      RankPrefix(a + b, |a + b| - 1);
      OpsOfSplit(a, b[..|b| - 1]);
    }
  }

  function Concat(batches: seq<seq<Msg>>): seq<Msg> {
    if batches == [] then [] else Concat(batches[..|batches| - 1]) + batches[|batches| - 1]
  }

  method NextBatch(ordered: seq<Msg>, processed: nat, len: Msg -> nat) returns (end: nat)
    requires processed < |ordered|
    ensures processed < end <= |ordered| && GoodBatch(ordered[processed..end], len)
    ensures end < |ordered| ==> end - processed == 100 || TotalLen(ordered[processed..end], len) >= 102400
  {
    var totalBytes, count := 0, 0;
    end := processed;
    var i := processed;
    while i < |ordered| && count < MAX_ITEMS && totalBytes < MAX_BYTES
      invariant processed <= i == end <= |ordered| && count == i - processed <= MAX_ITEMS
      invariant totalBytes == TotalLen(ordered[processed..i], len)
      invariant i > processed ==> GoodBatch(ordered[processed..i], len)
    {
      assert ordered[processed..i + 1][..i - processed] == ordered[processed..i];
      totalBytes := totalBytes + len(ordered[i]);
      count := count + 1;
      end := i + 1;
      i := i + 1;
    }
  }

  // Clears the store and applies the whole archive, newest first.
  method ReplayAll(archive: seq<Msg>, len: Msg -> nat, db: EntDBMemory) returns (batches: seq<seq<Msg>>)
    requires db.Valid()
    modifies db
    ensures db.Valid() && db.ents == ApplyAll(map[], OpsOf(SortByHlcDesc(archive)))
    ensures Concat(batches) == SortByHlcDesc(archive) && forall b :: b in batches ==> GoodBatch(b, len)
  {
    db.Clear();
    var ordered := SortByHlcDesc(archive);
    batches := [];
    var processed := 0;
    while processed < |ordered|
      invariant processed <= |ordered| && db.Valid()
      invariant db.ents == ApplyAll(map[], OpsOf(ordered[..processed]))
      invariant Concat(batches) == ordered[..processed] && forall b :: b in batches ==> GoodBatch(b, len)
    {
      var end := NextBatch(ordered, processed, len);
      var batch := ordered[processed..end];
      var ops, parsed := CollectOps(batch);
      var stats, types, eids := db.Apply(ops);
      OpsOfSplit(ordered[..processed], batch);
      ApplyAllSplit(map[], OpsOf(ordered[..processed]), OpsOf(batch));
      assert ordered[..end] == ordered[..processed] + batch;
      assert (batches + [batch])[..|batches|] == batches;
      batches := batches + [batch];
      processed := end;
    }
    assert ordered[..|ordered|] == ordered;
  }
}
