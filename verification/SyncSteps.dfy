// Every step of a client keeps its invariant, handler by handler.

module SyncSteps {
  import opened Basics
  import opened Lww
  import opened Messages
  import opened PushItems
  import opened SyncState
  import opened SyncInv

  // What a step must leave behind.
  ghost predicate Kept(h: Host, c: Client, h': Host, c': Client) {
    ClientInv(h', c') && Later(h, c, h', c')
  }

  /* ---- Queue and archive updates ---- */

  lemma {:induction false} ArchiveAdds(archive: map<Msg, ArchRow>, rows: seq<Dl>)
    ensures Archive(archive, rows).Keys == archive.Keys + MsgsOf(rows)
    ensures forall m :: m in Archive(archive, rows) ==>
              Archive(archive, rows)[m].apld == Pending || (m in archive && Archive(archive, rows)[m] == archive[m])
    ensures forall m :: m in archive && m !in MsgsOf(rows) ==> Archive(archive, rows)[m] == archive[m]
    decreases |rows|
  {
    if rows != [] {
      var init, last := rows[..|rows| - 1], rows[|rows| - 1];
      ArchiveAdds(archive, init);
      assert rows == init + [last];
      assert MsgsOf(rows) == MsgsOf(init) + {last.msg};
    }
  }

  lemma {:induction false} EnqueueAdds(downloads: map<(Realm, nat), Msg>, rows: seq<Dl>)
    ensures forall k :: k in Enqueue(downloads, rows) ==>
              (k in downloads && Enqueue(downloads, rows)[k] == downloads[k])
              || Dl(k.0, k.1, Enqueue(downloads, rows)[k]) in rows
    ensures forall k :: k in downloads ==> k in Enqueue(downloads, rows)
    ensures forall d :: d in rows ==> (d.realm, d.seqno) in Enqueue(downloads, rows)
    decreases |rows|
  {
    if rows != [] {
      EnqueueAdds(downloads, rows[..|rows| - 1]);
      assert rows == rows[..|rows| - 1] + [rows[|rows| - 1]];
    }
  }

  // The last row of a message decides its archive row, which is pending again.
  lemma {:induction false} ArchiveLast(archive: map<Msg, ArchRow>, rows: seq<Dl>, i: nat)
    requires i < |rows| && forall j :: i < j < |rows| ==> rows[j].msg != rows[i].msg
    ensures rows[i].msg in Archive(archive, rows) && Archive(archive, rows)[rows[i].msg] == ArchRow(Pending, rows[i].realm)
    decreases |rows|
  {
    if i < |rows| - 1 { ArchiveLast(archive, rows[..|rows| - 1], i); }
  }

  // The last row of a key decides what the queue holds under it.
  lemma {:induction false} EnqueueLast(downloads: map<(Realm, nat), Msg>, rows: seq<Dl>, i: nat)
    requires i < |rows| && forall j :: i < j < |rows| ==> (rows[j].realm, rows[j].seqno) != (rows[i].realm, rows[i].seqno)
    ensures var key := (rows[i].realm, rows[i].seqno);
            key in Enqueue(downloads, rows) && Enqueue(downloads, rows)[key] == rows[i].msg
    decreases |rows|
  {
    if i < |rows| - 1 { EnqueueLast(downloads, rows[..|rows| - 1], i); }
  }

  // A queue row names a bag, so enqueueing never changes what a key holds.
  lemma EnqueueBags(h: Host, c: Client, rows: seq<Dl>)
    requires QueueInv(h, c) && forall d :: d in rows ==> OnHostAs(h, d)
    ensures QueueInv(h, c.(downloads := Enqueue(c.downloads, rows)))
    ensures c.downloads.Values + MsgsOf(rows) <= Enqueue(c.downloads, rows).Values
  {
    var q := Enqueue(c.downloads, rows);
    EnqueueAdds(c.downloads, rows);
    forall k | k in q
      ensures OnHostAs(h, Dl(k.0, k.1, q[k]))
    {
    }
    forall m | m in c.downloads.Values + MsgsOf(rows)
      ensures m in q.Values
    {
      if m in c.downloads.Values {
        var k :| k in c.downloads && c.downloads[k] == m;
        assert OnHostAs(h, Dl(k.0, k.1, q[k])) && OnHostAs(h, Dl(k.0, k.1, m));
      } else {
        var d :| d in rows && d.msg == m;
        var k := (d.realm, d.seqno);
        assert OnHostAs(h, Dl(k.0, k.1, q[k])) && OnHostAs(h, d);
      }
    }
  }

  /* ---- Parts of the invariant that a step does not touch ---- */

  lemma UploadsKept(h: Host, c: Client, h': Host, c': Client)
    requires UploadsInv(h, c) && HostGrows(h, h')
    requires forall m :: m in c.uploads && m !in c'.uploads ==> OnHost(h', m)
    requires c.stranded <= c'.stranded <= c'.archive.Keys
    requires forall m :: m in c'.archive ==> m in c.archive || OnHost(h', m) || InWrite(c', m)
    requires forall m :: m in c'.archive && InWrite(c, m) ==> InWrite(c', m) || m in c'.uploads || m in c'.stranded
    ensures UploadsInv(h', c')
  {
    forall m | m in c'.archive
      ensures OnHost(h', m) || m in c'.uploads || m in c'.stranded || InWrite(c', m)
    {
      if m in c.archive && OnHost(h, m) { OnHostLater(h, h', m); }
    }
  }

  lemma RowsKept(c: Client, c': Client)
    requires RowsInv(c) && c'.ents == c.ents && c'.execd == c.execd
    requires c.archive.Keys <= c'.archive.Keys
    requires forall m :: m in c'.archive ==>
               c'.archive[m].apld == Pending || (m in c.archive && c'.archive[m].apld == c.archive[m].apld)
    requires forall m :: InFlight(c, m) ==> InFlight(c', m) || m in c'.archive
    ensures RowsInv(c')
  {
  }

  // Tasks other than id, and whether id is a write, decide who is writing.
  lemma WritersKept(c: Client, c': Client, id: nat)
    requires forall j :: j != id ==> (j in c.tasks <==> j in c'.tasks)
    requires forall j :: j != id && j in c.tasks ==> c'.tasks[j] == c.tasks[j]
    requires id in c.tasks && c.tasks[id].Write? ==>
               id in c'.tasks && c'.tasks[id].Write? && c'.tasks[id].parts == c.tasks[id].parts
               && (c.tasks[id].at != Kicked ==> c'.tasks[id].at != Kicked)
    ensures forall m :: InWrite(c, m) ==> InWrite(c', m)
    ensures forall m :: InFlight(c, m) ==> InFlight(c', m)
  {
    forall m | InWrite(c, m)
      ensures InWrite(c', m)
    {
      var j :| j in c.tasks && c.tasks[j].Write? && c.tasks[j].at != Kicked && m in c.tasks[j].parts;
      assert j in c'.tasks;
    }
    forall m | InFlight(c, m)
      ensures InFlight(c', m)
    {
      var j :| j in c.tasks && c.tasks[j].Write? && m in c.tasks[j].parts;
      assert j in c'.tasks;
    }
  }

  /* ---- Applying and marking ---- */

  lemma {:induction false} OpsOfGood(msgs: seq<Msg>)
    ensures Elems(OpsOf(msgs)) == OpSet(GoodOf(msgs))
    decreases |msgs|
  {
    if msgs != [] {
      var init, m := msgs[..|msgs| - 1], msgs[|msgs| - 1];
      OpsOfGood(init);
      assert msgs == init + [m];
      RankPrefix(msgs, |msgs| - 1);
      if Good(m) {
        assert GoodOf(msgs) == GoodOf(init) + {m};
        assert OpSet(GoodOf(msgs)) == OpSet(GoodOf(init)) + {MsgToOp(m).value};
      } else {
        assert GoodOf(msgs) == GoodOf(init);
      }
    }
  }

  lemma ExecRows(c: Client, msgs: seq<Msg>)
    requires RowsInv(c)
    requires forall m :: m in msgs ==> m in c.archive || InFlight(c, m)
    ensures RowsInv(Exec(c, msgs))
  {
    ApplyAllRenders(c.ents, OpSet(c.execd), OpsOf(msgs));
    OpsOfGood(msgs);
    assert OpSet(c.execd + GoodOf(msgs)) == OpSet(c.execd) + Elems(OpsOf(msgs));
    var c' := Exec(c, msgs);
    assert forall m :: InFlight(c, m) ==> InFlight(c', m);
  }

  lemma MarkRows(c: Client, msgs: seq<Msg>)
    requires RowsInv(c)
    requires forall m :: m in msgs && Good(m) ==> m in c.execd
    ensures RowsInv(c.(archive := Mark(c.archive, msgs)))
  {
    var c' := c.(archive := Mark(c.archive, msgs));
    assert forall m :: m in AckedOf(msgs) ==> m in msgs && Good(m);
    assert forall m :: InFlight(c, m) ==> InFlight(c', m);
  }

  lemma WriteKickStep(h: Host, c: Client, id: nat, w: WriteMove)
    requires ClientInv(h, c) && w.Kick? && WriteEnabled(c, id, w)
    ensures Kept(h, c, h, WriteAct(c, id, w))
  {
    var c' := WriteAct(c, id, w);
    TasksKept(h, c, h, c', id);
    WritersKept(c, c', id);
    UploadsKept(h, c, h, c');
    RowsKept(c, c');
  }

  lemma WriteExecStep(h: Host, c: Client, id: nat)
    requires ClientInv(h, c) && WriteEnabled(c, id, RunOps)
    ensures Kept(h, c, h, WriteAct(c, id, RunOps))
  {
    var c' := WriteAct(c, id, RunOps);
    var mid := Exec(c, c.tasks[id].parts);
    assert TaskInv(h, c, c.tasks[id]);
    TasksKept(h, c, h, c', id);
    WritersKept(c, c', id);
    UploadsKept(h, c, h, c');
    ExecRows(c, c.tasks[id].parts);
    WritersKept(mid, c', id);
    RowsKept(mid, c');
  }

  lemma WriteArchiveStep(h: Host, c: Client, id: nat)
    requires ClientInv(h, c) && WriteEnabled(c, id, Add)
    ensures Kept(h, c, h, WriteAct(c, id, Add))
  {
    var c' := WriteAct(c, id, Add);
    assert TaskInv(h, c, c.tasks[id]);
    PartsArchived(c.archive, c.tasks[id].parts, c.tasks[id].realm);
    TasksKept(h, c, h, c', id);
    WritersKept(c, c', id);
    UploadsKept(h, c, h, c');
    RowsKept(c, c');
  }

  lemma PartsArchived(archive: map<Msg, ArchRow>, parts: seq<Msg>, r: Realm)
    ensures var rows := Archive(archive, AsRows(parts, r));
            && rows.Keys == archive.Keys + (set m | m in parts)
            && forall m :: m in rows ==> rows[m].apld == Pending || (m in archive && rows[m] == archive[m])
  {
    ArchiveAdds(archive, AsRows(parts, r));
    RowMsgs(parts, r);
  }

  lemma RowMsgs(parts: seq<Msg>, r: Realm)
    ensures MsgsOf(AsRows(parts, r)) == set m | m in parts
  {
    var rows := AsRows(parts, r);
    forall m | m in parts
      ensures m in MsgsOf(rows)
    {
      var i :| 0 <= i < |parts| && parts[i] == m;
      assert rows[i] in rows;
    }
  }

  lemma WriteMarkRows(h: Host, c: Client, id: nat)
    requires ClientInv(h, c) && WriteEnabled(c, id, MarkStats)
    ensures RowsInv(WriteAct(c, id, MarkStats))
  {
    var c' := WriteAct(c, id, MarkStats);
    var marked := c.(archive := Mark(c.archive, c.tasks[id].parts));
    assert TaskInv(h, c, c.tasks[id]);
    MarkRows(c, c.tasks[id].parts);
    WritersKept(marked, c', id);
    RowsKept(marked, c');
  }

  lemma WriteMarkStep(h: Host, c: Client, id: nat)
    requires ClientInv(h, c) && WriteEnabled(c, id, MarkStats)
    ensures Kept(h, c, h, WriteAct(c, id, MarkStats))
  {
    var c' := WriteAct(c, id, MarkStats);
    assert TaskInv(h, c, c.tasks[id]);
    TasksKept(h, c, h, c', id);
    WritersKept(c, c', id);
    UploadsKept(h, c, h, c');
    WriteMarkRows(h, c, id);
  }

  lemma WriteDeqStep(h: Host, c: Client, id: nat, key: (Realm, nat))
    requires ClientInv(h, c) && WriteEnabled(c, id, DropDownload(key))
    ensures Kept(h, c, h, WriteAct(c, id, DropDownload(key)))
  {
    var c' := WriteAct(c, id, DropDownload(key));
    assert TaskInv(h, c, c.tasks[id]);
    TasksKept(h, c, h, c', id) by { TaskLater(h, c, h, c', c.tasks[id]); }
    WritersKept(c, c', id);
    UploadsKept(h, c, h, c');
    RowsKept(c, c');
  }

  // A finished write: what it queued or stranded was archived before.
  lemma WriterLeaves(c: Client, c': Client, id: nat)
    requires id in c.tasks && c.tasks[id].Write? && c'.tasks == c.tasks - {id}
    requires c'.archive == c.archive && forall m :: m in c.tasks[id].parts ==> m in c.archive
    requires forall m :: m in c.tasks[id].parts ==> m in c'.uploads || m in c'.stranded
    ensures forall m :: m in c'.archive && InWrite(c, m) ==> InWrite(c', m) || m in c'.uploads || m in c'.stranded
    ensures forall m :: InFlight(c, m) ==> InFlight(c', m) || m in c'.archive
  {
    forall m | m in c'.archive && InWrite(c, m)
      ensures InWrite(c', m) || m in c'.uploads || m in c'.stranded
    {
      var j :| j in c.tasks && c.tasks[j].Write? && c.tasks[j].at != Kicked && m in c.tasks[j].parts;
      if j != id { assert j in c'.tasks; }
    }
    forall m | InFlight(c, m)
      ensures InFlight(c', m) || m in c'.archive
    {
      var j :| j in c.tasks && c.tasks[j].Write? && m in c.tasks[j].parts;
      if j != id { assert j in c'.tasks; }
    }
  }

  lemma WriteEnqStep(h: Host, c: Client, id: nat)
    requires ClientInv(h, c) && WriteEnabled(c, id, QueueUpload)
    ensures Kept(h, c, h, WriteAct(c, id, QueueUpload))
  {
    var c' := WriteAct(c, id, QueueUpload);
    assert TaskInv(h, c, c.tasks[id]);
    TasksKept(h, c, h, c', id);
    WriterLeaves(c, c', id);
    UploadsKept(h, c, h, c');
    RowsKept(c, c');
  }

  lemma DrainListStep(h: Host, c: Client, id: nat, d: DrainMove)
    requires ClientInv(h, c) && d.ListPending? && DrainEnabled(c, id, d)
    ensures Kept(h, c, h, DrainAct(c, id, d))
  {
    var c' := DrainAct(c, id, d);
    TasksKept(h, c, h, c', id);
    WritersKept(c, c', id);
    UploadsKept(h, c, h, c');
    RowsKept(c, c');
  }

  lemma DrainExecStep(h: Host, c: Client, id: nat)
    requires ClientInv(h, c) && DrainEnabled(c, id, RunDrain)
    ensures Kept(h, c, h, DrainAct(c, id, RunDrain))
  {
    var c' := DrainAct(c, id, RunDrain);
    var mid := Exec(c, c.tasks[id].listed);
    assert TaskInv(h, c, c.tasks[id]);
    TasksKept(h, c, h, c', id);
    WritersKept(c, c', id);
    UploadsKept(h, c, h, c');
    ExecRows(c, c.tasks[id].listed);
    WritersKept(mid, c', id);
    RowsKept(mid, c');
  }

  lemma DrainMarkStep(h: Host, c: Client, id: nat)
    requires ClientInv(h, c) && DrainEnabled(c, id, MarkDrain)
    ensures Kept(h, c, h, DrainAct(c, id, MarkDrain))
  {
    var c' := DrainAct(c, id, MarkDrain);
    var marked := c.(archive := Mark(c.archive, c.tasks[id].listed));
    assert TaskInv(h, c, c.tasks[id]);
    TasksKept(h, c, h, c', id);
    WritersKept(c, c', id);
    UploadsKept(h, c, h, c');
    MarkRows(c, c.tasks[id].listed);
    WritersKept(marked, c', id);
    RowsKept(marked, c');
  }

  /* ---- Steps that apply nothing ---- */

  // A step of handler id that applies nothing: what is left to check.
  lemma Frame(h: Host, c: Client, h': Host, c': Client, id: nat)
    requires ClientInv(h, c) && Later(h, c, h', c')
    requires c'.ents == c.ents && c'.execd == c.execd && c'.stranded == c.stranded
    requires forall j :: j != id ==> (j in c.tasks <==> j in c'.tasks)
    requires forall j :: j != id && j in c.tasks ==> c'.tasks[j] == c.tasks[j]
    requires id in c.tasks ==> !c.tasks[id].Write?
    requires id in c'.tasks ==> TaskInv(h', c', c'.tasks[id])
    requires QueueInv(h', c')
    requires forall m :: m in c.uploads && m !in c'.uploads ==> OnHost(h', m)
    requires forall m :: m in c'.archive && m !in c.archive ==> OnHost(h', m)
    requires forall m :: m in c'.archive ==>
               c'.archive[m].apld == Pending || (m in c.archive && c'.archive[m].apld == c.archive[m].apld)
    ensures ClientInv(h', c')
  {
    TasksKept(h, c, h', c', id);
    WritersKept(c, c', id);
    UploadsKept(h, c, h', c');
    RowsKept(c, c');
  }

  // Ending a handler, or letting it go on to its cursor.
  lemma EndStep(h: Host, c: Client, id: nat)
    requires ClientInv(h, c) && id in c.tasks && !c.tasks[id].Write?
    ensures Kept(h, c, h, End(c, id))
  {
    Frame(h, c, h, End(c, id), id);
  }

  lemma GoTouch(h: Host, c: Client, id: nat, r: Realm, v: nat)
    requires ClientInv(h, c) && id in c.tasks && !c.tasks[id].Write?
    ensures Kept(h, c, h, To(c, id, Touch(r, v)))
  {
    Frame(h, c, h, To(c, id, Touch(r, v)), id);
  }

  lemma TouchStep(h: Host, c: Client, id: nat)
    requires ClientInv(h, c) && id in c.tasks && c.tasks[id].Touch?
    ensures Kept(h, c, h, End(c.(cursor := Advanced(c.cursor, c.tasks[id].realm, c.tasks[id].v)), id))
  {
    Frame(h, c, h, End(c.(cursor := Advanced(c.cursor, c.tasks[id].realm, c.tasks[id].v)), id), id);
  }

  /* ---- Peek ---- */

  lemma PeekAskStep(h: Host, c: Client, id: nat, p: PeekMove)
    requires ClientInv(h, c) && p.Ask? && PeekEnabled(h, c, id, p)
    ensures Kept(h, c, h, PeekAct(h, c, id, p))
  {
    Frame(h, c, h, PeekAct(h, c, id, p), id);
  }

  lemma PeekReplyStep(h: Host, c: Client, id: nat)
    requires ClientInv(h, c) && PeekEnabled(h, c, id, Reply)
    ensures Kept(h, c, h, PeekAct(h, c, id, Reply))
  {
    Frame(h, c, h, PeekAct(h, c, id, Reply), id);
  }

  lemma PeekItemStep(h: Host, c: Client, id: nat, known: bool)
    requires ClientInv(h, c) && PeekEnabled(h, c, id, Item(known))
    ensures Kept(h, c, h, PeekAct(h, c, id, Item(known)))
  {
    var t := c.tasks[id];
    var m := Bags(h, t.realm)[t.done];
    assert TaskInv(h, c, t);
    if known {
      PeekSkip(h, c, c.(uploads := c.uploads - {m}), id, t);
    } else if m in MsgsOf(t.dls) {
      PeekSkip(h, c, c, id, t);
    } else {
      PeekCollect(h, c, id, t);
    }
  }

  lemma PeekSkip(h: Host, c: Client, mid: Client, id: nat, t: Task)
    requires ClientInv(h, c) && id in c.tasks && t == c.tasks[id] && t.Peek? && t.done < t.hi && TaskInv(h, c, t)
    requires mid == c || mid == c.(uploads := c.uploads - {Bags(h, t.realm)[t.done]})
    requires Bags(h, t.realm)[t.done] in c.archive || Bags(h, t.realm)[t.done] in MsgsOf(t.dls)
    ensures Kept(h, c, h, To(mid, id, t.(deq := true)))
  {
    assert OnHostAs(h, Dl(t.realm, t.done + 1, Bags(h, t.realm)[t.done]));
    Frame(h, c, h, To(mid, id, t.(deq := true)), id);
  }

  lemma PeekCollect(h: Host, c: Client, id: nat, t: Task)
    requires ClientInv(h, c) && id in c.tasks && t == c.tasks[id] && t.Peek? && t.done < t.hi && !t.deq && TaskInv(h, c, t)
    ensures Kept(h, c, h, To(c, id, t.(dls := t.dls + [Dl(t.realm, t.done + 1, Bags(h, t.realm)[t.done])], done := t.done + 1)))
  {
    var d := Dl(t.realm, t.done + 1, Bags(h, t.realm)[t.done]);
    Frame(h, c, h, To(c, id, t.(dls := t.dls + [d], done := t.done + 1)), id);
  }

  lemma PeekDeqStep(h: Host, c: Client, id: nat)
    requires ClientInv(h, c) && PeekEnabled(h, c, id, Deq)
    ensures Kept(h, c, h, PeekAct(h, c, id, Deq))
  {
    assert TaskInv(h, c, c.tasks[id]);
    PeekDropped(h, c, id, c.tasks[id]);
  }

  lemma PeekDropped(h: Host, c: Client, id: nat, t: Task)
    requires ClientInv(h, c) && id in c.tasks && t == c.tasks[id] && t.Peek? && t.deq && TaskInv(h, c, t)
    ensures Kept(h, c, h, To(c.(downloads := c.downloads - {(t.realm, t.done + 1)}), id, t.(deq := false, done := t.done + 1)))
  {
    Frame(h, c, h, To(c.(downloads := c.downloads - {(t.realm, t.done + 1)}), id, t.(deq := false, done := t.done + 1)), id);
  }

  lemma PeekEnqStep(h: Host, c: Client, id: nat)
    requires ClientInv(h, c) && PeekEnabled(h, c, id, Enq)
    ensures Kept(h, c, h, PeekAct(h, c, id, Enq))
  {
    assert TaskInv(h, c, c.tasks[id]);
    EnqueueBags(h, c, c.tasks[id].dls);
    Frame(h, c, h, PeekAct(h, c, id, Enq), id);
  }

  /* ---- Push ---- */

  lemma PutGrows(h: Host, r: Realm, bags: seq<Msg>)
    ensures HostGrows(h, PutHost(h, r, bags))
    ensures Bags(PutHost(h, r, bags), r) == Bags(h, r) + bags
  {
  }

  // Each success item names the stored bag at its own request index.
  lemma PushItemFits(h: Host, r: Realm, batch: seq<Msg>, valid: seq<bool>, i: nat)
    requires |valid| == |batch| && i < |batch|
    ensures var stored := Stored(batch, valid);
            var item := Items(valid, Seqs(|stored|, |Bags(h, r)|))[i];
            && item.idx < |batch|
            && (item.outcome.Ok? ==> OnHostAs(PutHost(h, r, stored), Dl(r, item.outcome.value, batch[item.idx])))
  {
    var (stored, base) := (Stored(batch, valid), |Bags(h, r)|);
    PutGrows(h, r, stored);
    ItemAt(valid, Seqs(|stored|, base), i);
    if Items(valid, Seqs(|stored|, base))[i].outcome.Ok? {
      var j := SuccessOf(valid, Seqs(|stored|, base), i);
      assert Bags(PutHost(h, r, stored), r)[base + j] == stored[j];
    }
  }

  lemma PushSendStep(h: Host, c: Client, id: nat, p: PushMove)
    requires ClientInv(h, c) && p.Send? && PushEnabled(c, id, p)
    ensures Kept(h, c, PushHost(h, p), PushAct(h, c, id, p))
  {
    var h', c' := PushHost(h, p), PushAct(h, c, id, p);
    PutGrows(h, p.realm, Stored(p.batch, p.valid));
    forall i: nat | i < |p.batch| {
      PushItemFits(h, p.realm, p.batch, p.valid, i);
    }
    QueueLater(h, h', c);
    Frame(h, c, h', c', id);
  }

  // Only a message that the host holds may leave the upload queue.
  lemma PushAckStep(h: Host, c: Client, id: nat)
    requires ClientInv(h, c) && PushEnabled(c, id, Ack)
    ensures Kept(h, c, h, PushAct(h, c, id, Ack))
  {
    var t := c.tasks[id];
    var item := t.items[t.acked];
    assert TaskInv(h, c, t);
    if item.outcome.Ok? { assert OnHostAs(h, Dl(t.realm, item.outcome.value, t.batch[item.idx])); }
    PushAcked(h, c, c.(uploads := c.uploads - Acknowledged(item, t.batch)), id, t);
  }

  lemma PushAcked(h: Host, c: Client, mid: Client, id: nat, t: Task)
    requires ClientInv(h, c) && id in c.tasks && t == c.tasks[id] && t.Push? && t.acked < |t.items|
    requires mid == c.(uploads := mid.uploads) && forall m :: m in c.uploads && m !in mid.uploads ==> OnHost(h, m)
    ensures Kept(h, c, h, To(mid, id, t.(acked := t.acked + 1)))
  {
    assert TaskInv(h, c, t);
    Frame(h, c, h, To(mid, id, t.(acked := t.acked + 1)), id);
  }

  lemma PushReadStep(h: Host, c: Client, id: nat)
    requires ClientInv(h, c) && PushEnabled(c, id, ReadCursor)
    ensures Kept(h, c, h, PushAct(h, c, id, ReadCursor))
  {
    var t := c.tasks[id];
    EndStep(h, c, id);
    GoTouch(h, c, id, t.realm, Contiguous(CursorOf(c.cursor, t.realm), SortedSeqs(t.items)));
  }

  /* ---- Pull and open ---- */

  lemma PullAskStep(h: Host, c: Client, id: nat, p: PullMove)
    requires ClientInv(h, c) && p.AskBodies? && PullEnabled(c, id, p)
    ensures Kept(h, c, h, PullAct(c, id, p))
  {
    forall d | d in p.rows
      ensures OnHostAs(h, d)
    {
      assert (d.realm, d.seqno) in c.downloads;
      assert OnHostAs(h, Dl(d.realm, d.seqno, c.downloads[(d.realm, d.seqno)]));
    }
    Frame(h, c, h, PullAct(c, id, p), id);
  }

  lemma OpenAddStep(h: Host, c: Client, id: nat)
    requires ClientInv(h, c) && PullEnabled(c, id, OpenAdd)
    ensures Kept(h, c, h, PullAct(c, id, OpenAdd))
  {
    assert TaskInv(h, c, c.tasks[id]);
    ArchiveAdds(c.archive, c.tasks[id].rows);
    Frame(h, c, h, PullAct(c, id, OpenAdd), id);
  }

  lemma OpenDropStep(h: Host, c: Client, id: nat)
    requires ClientInv(h, c) && PullEnabled(c, id, OpenDrop)
    ensures Kept(h, c, h, PullAct(c, id, OpenDrop))
  {
    var rows := c.tasks[id].rows;
    assert TaskInv(h, c, c.tasks[id]);
    assert rows != [] ==> forall d :: d in rows[1..] ==> d in rows;
    Frame(h, c, h, PullAct(c, id, OpenDrop), id);
  }

  /* ---- Notifications ---- */

  lemma NotifiedStep(h: Host, c: Client, id: nat, n: NotifMove)
    requires ClientInv(h, c) && n.Arrive? && NotifEnabled(h, c, id, n)
    ensures Kept(h, c, h, NotifAct(h, c, id, n))
  {
    Frame(h, c, h, NotifAct(h, c, id, n), id);
  }

  lemma NotifItemStep(h: Host, c: Client, id: nat, known: bool)
    requires ClientInv(h, c) && NotifEnabled(h, c, id, Take(known))
    ensures Kept(h, c, h, NotifAct(h, c, id, Take(known)))
  {
    if known {
      NotifKnown(h, c, id);
    } else if c.tasks[id].notices[c.tasks[id].seen].inline {
      NotifInline(h, c, id);
    } else {
      NotifQueue(h, c, id);
    }
  }

  lemma NotifKnown(h: Host, c: Client, id: nat)
    requires ClientInv(h, c) && NotifEnabled(h, c, id, Take(true))
    ensures Kept(h, c, h, NotifAct(h, c, id, Take(true)))
  {
    TakeKnown(h, c, id);
    NotifGoes(h, c, c, id, c.tasks[id], c.tasks[id].(seen := c.tasks[id].seen + 1));
  }

  lemma NotifInline(h: Host, c: Client, id: nat)
    requires ClientInv(h, c) && NotifEnabled(h, c, id, Take(false))
    requires c.tasks[id].notices[c.tasks[id].seen].inline
    ensures Kept(h, c, h, NotifAct(h, c, id, Take(false)))
  {
    TakeInline(h, c, id);
    HoldBody(h, c, id, c.tasks[id], c.tasks[id].notices[c.tasks[id].seen]);
  }

  lemma NotifQueue(h: Host, c: Client, id: nat)
    requires ClientInv(h, c) && NotifEnabled(h, c, id, Take(false))
    requires !c.tasks[id].notices[c.tasks[id].seen].inline
    ensures Kept(h, c, h, NotifAct(h, c, id, Take(false)))
  {
    TakeQueue(h, c, id);
    QueueBody(h, c, id, c.tasks[id], c.tasks[id].notices[c.tasks[id].seen]);
  }

  // The three outcomes of one notice: known, body kept, row queued.
  lemma TakeKnown(h: Host, c: Client, id: nat)
    requires NotifEnabled(h, c, id, Take(true))
    ensures NotifAct(h, c, id, Take(true)) == To(c, id, c.tasks[id].(seen := c.tasks[id].seen + 1))
  {
  }

  lemma TakeInline(h: Host, c: Client, id: nat)
    requires NotifEnabled(h, c, id, Take(false))
    requires c.tasks[id].notices[c.tasks[id].seen].inline
    ensures var t := c.tasks[id];
            var n := t.notices[t.seen];
            NotifAct(h, c, id, Take(false)) ==
              To(c, id, t.(seen := t.seen + 1, runs := NotifRun(t, n),
                           complete := t.complete[BagAt(h, n.realm, n.seqno) := n.realm]))
  {
  }

  lemma TakeQueue(h: Host, c: Client, id: nat)
    requires NotifEnabled(h, c, id, Take(false))
    requires !c.tasks[id].notices[c.tasks[id].seen].inline
    ensures var t := c.tasks[id];
            var n := t.notices[t.seen];
            NotifAct(h, c, id, Take(false)) ==
              To(c.(downloads := c.downloads[(n.realm, n.seqno) := BagAt(h, n.realm, n.seqno)]), id,
                 t.(seen := t.seen + 1, runs := NotifRun(t, n)))
  {
  }

  // The handler goes on holding the same bodies.
  lemma NotifGoes(h: Host, c: Client, mid: Client, id: nat, t: Task, t': Task)
    requires ClientInv(h, c) && id in c.tasks && t == c.tasks[id] && t.Notif?
    requires t'.Notif? && t'.notices == t.notices && t'.complete == t.complete && t'.seen <= |t.notices|
    requires mid == c.(cursor := mid.cursor, downloads := mid.downloads) && QueueInv(h, mid)
    ensures Kept(h, c, h, To(mid, id, t'))
  {
    assert TaskInv(h, c, t);
    Frame(h, c, h, To(mid, id, t'), id);
  }

  lemma HoldBody(h: Host, c: Client, id: nat, t: Task, n: Notice)
    requires ClientInv(h, c) && id in c.tasks && t == c.tasks[id] && t.Notif?
    requires t.seen < |t.notices| && n == t.notices[t.seen] && OnHostAt(h, n.realm, n.seqno)
    ensures var m := BagAt(h, n.realm, n.seqno);
            Kept(h, c, h, To(c, id, t.(seen := t.seen + 1, runs := NotifRun(t, n), complete := t.complete[m := n.realm])))
  {
    assert TaskInv(h, c, t);
    var m := BagAt(h, n.realm, n.seqno);
    assert OnHostAs(h, Dl(n.realm, n.seqno, m));
    Frame(h, c, h, To(c, id, t.(seen := t.seen + 1, runs := NotifRun(t, n), complete := t.complete[m := n.realm])), id);
  }

  lemma QueueBody(h: Host, c: Client, id: nat, t: Task, n: Notice)
    requires ClientInv(h, c) && id in c.tasks && t == c.tasks[id] && t.Notif?
    requires t.seen < |t.notices| && n == t.notices[t.seen] && OnHostAt(h, n.realm, n.seqno)
    ensures var m := BagAt(h, n.realm, n.seqno);
            Kept(h, c, h, To(c.(downloads := c.downloads[(n.realm, n.seqno) := m]), id,
                             t.(seen := t.seen + 1, runs := NotifRun(t, n))))
  {
    var m := BagAt(h, n.realm, n.seqno);
    EnqueueBag(h, c, Dl(n.realm, n.seqno, m));
    NotifGoes(h, c, c.(downloads := c.downloads[(n.realm, n.seqno) := m]), id, t,
              t.(seen := t.seen + 1, runs := NotifRun(t, n)));
  }

  lemma EnqueueBag(h: Host, c: Client, d: Dl)
    requires QueueInv(h, c) && OnHostAs(h, d)
    ensures var q := c.downloads[(d.realm, d.seqno) := d.msg];
            QueueInv(h, c.(downloads := q)) && c.downloads.Values + {d.msg} <= q.Values
  {
    assert [d][..0] == [];
    assert Enqueue(c.downloads, [d]) == c.downloads[(d.realm, d.seqno) := d.msg];
    EnqueueBags(h, c, [d]);
    assert d in [d];
  }

  lemma NotifTouchStep(h: Host, c: Client, id: nat, r: Realm)
    requires ClientInv(h, c) && NotifEnabled(h, c, id, TouchRun(r))
    ensures Kept(h, c, h, NotifAct(h, c, id, TouchRun(r)))
  {
    var t := c.tasks[id];
    NotifGoes(h, c, c, id, t, t.(runs := t.runs - {r}));
    NotifGoes(h, c, c.(cursor := Advanced(c.cursor, r, t.runs[r])), id, t, t.(runs := t.runs - {r}));
  }

  lemma NotifAddStep(h: Host, c: Client, id: nat)
    requires ClientInv(h, c) && NotifEnabled(h, c, id, AddComplete)
    ensures Kept(h, c, h, NotifAct(h, c, id, AddComplete))
  {
    assert TaskInv(h, c, c.tasks[id]);
    Frame(h, c, h, NotifAct(h, c, id, AddComplete), id);
  }

  /* ---- Full inventory ---- */

  lemma {:induction false} InventoryHas(h: Host, inv: map<Msg, (Realm, nat)>, r: Realm, bags: seq<Msg>)
    requires bags <= Bags(h, r)
    requires forall m :: m in inv ==> OnHostAs(h, Dl(inv[m].0, inv[m].1, m))
    ensures var inv' := Inventory(inv, r, bags);
            && inv.Keys <= inv'.Keys
            && (forall m :: m in bags ==> m in inv')
            && (forall m :: m in inv' ==> OnHostAs(h, Dl(inv'[m].0, inv'[m].1, m)))
    decreases |bags|
  {
    if bags != [] {
      InventoryHas(h, inv, r, bags[..|bags| - 1]);
      assert bags == bags[..|bags| - 1] + [bags[|bags| - 1]];
      assert Bags(h, r)[|bags| - 1] == bags[|bags| - 1];
    }
  }

  lemma ReconAskStep(h: Host, c: Client, id: nat, q: ReconMove)
    requires ClientInv(h, c) && q.AskAll? && ReconEnabled(h, c, id, q)
    ensures Kept(h, c, h, ReconAct(h, c, id, q))
  {
    Frame(h, c, h, ReconAct(h, c, id, q), id);
  }

  lemma ReconReplyStep(h: Host, c: Client, id: nat, q: ReconMove)
    requires ClientInv(h, c) && q.Listed? && ReconEnabled(h, c, id, q)
    ensures Kept(h, c, h, ReconAct(h, c, id, q))
  {
    assert TaskInv(h, c, c.tasks[id]);
    Frame(h, c, h, ReconAct(h, c, id, q), id);
  }

  lemma ReconSetStep(h: Host, c: Client, id: nat)
    requires ClientInv(h, c) && ReconEnabled(h, c, id, SetCursor)
    ensures Kept(h, c, h, ReconAct(h, c, id, SetCursor))
  {
    var t := c.tasks[id];
    var (r, hi) := t.asked.value;
    assert TaskInv(h, c, t);
    ReconListed(h, c, id, t, r, hi);
  }

  // A realm's listing goes into the inventory, and its cursor to the top.
  lemma ReconListed(h: Host, c: Client, id: nat, t: Task, r: Realm, hi: nat)
    requires ClientInv(h, c) && id in c.tasks && t == c.tasks[id] && t.Recon? && TaskInv(h, c, t) && hi <= |Bags(h, r)|
    ensures var inv := Inventory(t.inv, r, Bags(h, r)[..hi]);
            Kept(h, c, h, To(c.(cursor := c.cursor[r := hi]), id,
                             t.(todo := t.todo - {r}, asked := None, inv := inv, left := inv.Keys)))
  {
    var inv := Inventory(t.inv, r, Bags(h, r)[..hi]);
    InventoryHas(h, t.inv, r, Bags(h, r)[..hi]);
    Frame(h, c, h, To(c.(cursor := c.cursor[r := hi]), id,
                      t.(todo := t.todo - {r}, asked := None, inv := inv, left := inv.Keys)), id);
  }

  lemma ReconItemStep(h: Host, c: Client, id: nat, q: ReconMove)
    requires ClientInv(h, c) && q.LookUp? && ReconEnabled(h, c, id, q)
    ensures Kept(h, c, h, ReconAct(h, c, id, q))
  {
    var (t, m) := (c.tasks[id], q.msg);
    assert TaskInv(h, c, t);
    var d := Dl(t.inv[m].0, t.inv[m].1, m);
    assert OnHostAs(h, d);
    ReconGoes(h, c, c.(uploads := c.uploads - {m}), id, t, t.(left := t.left - {m}));
    ReconGoes(h, c, c, id, t, t.(left := t.left - {m}));
    ReconGoes(h, c, c, id, t, t.(left := t.left - {m}, dls := t.dls + [d]));
  }

  // One lookup: an upload that the host holds may go, a download may be noted.
  lemma ReconGoes(h: Host, c: Client, mid: Client, id: nat, t: Task, t': Task)
    requires ClientInv(h, c) && id in c.tasks && t == c.tasks[id] && t.Recon?
    requires t'.Recon? && t' == t.(left := t'.left, dls := t'.dls) && t'.left <= t.left
    requires forall d :: d in t'.dls ==> d in t.dls || (OnHostAs(h, d) && d.msg in t.inv)
    requires mid == c.(uploads := mid.uploads) && forall m :: m in c.uploads && m !in mid.uploads ==> OnHost(h, m)
    ensures Kept(h, c, h, To(mid, id, t'))
  {
    assert TaskInv(h, c, t);
    Frame(h, c, h, To(mid, id, t'), id);
  }

  lemma ReconEnqStep(h: Host, c: Client, id: nat)
    requires ClientInv(h, c) && ReconEnabled(h, c, id, EnqMissing)
    ensures Kept(h, c, h, ReconAct(h, c, id, EnqMissing))
  {
    var t := c.tasks[id];
    assert TaskInv(h, c, t);
    var mid := c.(downloads := Enqueue(c.downloads, t.dls));
    if t.push {
      ReconDone(h, c, id, t, To(mid, id, ReconPush(t.inv.Keys)));
    } else {
      ReconDone(h, c, id, t, End(mid, id));
    }
  }

  lemma ReconDone(h: Host, c: Client, id: nat, t: Task, c': Client)
    requires ClientInv(h, c) && id in c.tasks && t == c.tasks[id] && t.Recon? && TaskInv(h, c, t)
    requires var mid := c.(downloads := Enqueue(c.downloads, t.dls));
             c' == End(mid, id) || c' == To(mid, id, ReconPush(t.inv.Keys))
    ensures Kept(h, c, h, c')
  {
    EnqueueBags(h, c, t.dls);
    assert QueueInv(h, c');
    Frame(h, c, h, c', id);
  }

  lemma ReconUploadStep(h: Host, c: Client, id: nat, q: ReconMove)
    requires ClientInv(h, c) && q.QueueMissing? && ReconEnabled(h, c, id, q)
    ensures Kept(h, c, h, ReconAct(h, c, id, q))
  {
    Frame(h, c, h, ReconAct(h, c, id, q), id);
  }

  /* ---- All steps ---- */

  lemma WriteSteps(h: Host, c: Client, id: nat, w: WriteMove)
    requires ClientInv(h, c) && WriteEnabled(c, id, w)
    ensures Kept(h, c, h, WriteAct(c, id, w))
  {
    match w
    case Kick(_, _) => WriteKickStep(h, c, id, w);
    case RunOps => WriteExecStep(h, c, id);
    case Add => WriteArchiveStep(h, c, id);
    case DropDownload(key) => WriteDeqStep(h, c, id, key);
    case MarkStats => WriteMarkStep(h, c, id);
    case QueueUpload => WriteEnqStep(h, c, id);
  }

  lemma DrainSteps(h: Host, c: Client, id: nat, d: DrainMove)
    requires ClientInv(h, c) && DrainEnabled(c, id, d)
    ensures Kept(h, c, h, DrainAct(c, id, d))
  {
    match d
    case ListPending(_) => DrainListStep(h, c, id, d);
    case RunDrain => DrainExecStep(h, c, id);
    case MarkDrain => DrainMarkStep(h, c, id);
  }

  lemma PeekSteps(h: Host, c: Client, id: nat, p: PeekMove)
    requires ClientInv(h, c) && PeekEnabled(h, c, id, p)
    ensures Kept(h, c, h, PeekAct(h, c, id, p))
  {
    match p
    case Ask(_, _) => PeekAskStep(h, c, id, p);
    case PeekLost => EndStep(h, c, id);
    case Reply => PeekReplyStep(h, c, id);
    case Item(known) => PeekItemStep(h, c, id, known);
    case Deq => PeekDeqStep(h, c, id);
    case Enq => PeekEnqStep(h, c, id);
  }

  lemma PushSteps(h: Host, c: Client, id: nat, p: PushMove)
    requires ClientInv(h, c) && PushEnabled(c, id, p)
    ensures Kept(h, c, PushHost(h, p), PushAct(h, c, id, p))
  {
    match p
    case Send(_, _, _) => PushSendStep(h, c, id, p);
    case PushLost => EndStep(h, c, id);
    case Ack => PushAckStep(h, c, id);
    case ReadCursor => PushReadStep(h, c, id);
  }

  lemma PullSteps(h: Host, c: Client, id: nat, p: PullMove)
    requires ClientInv(h, c) && PullEnabled(c, id, p)
    ensures Kept(h, c, h, PullAct(c, id, p))
  {
    match p
    case AskBodies(_) => PullAskStep(h, c, id, p);
    case PullLost => EndStep(h, c, id);
    case OpenAdd => OpenAddStep(h, c, id);
    case OpenDrop => OpenDropStep(h, c, id);
  }

  lemma NotifSteps(h: Host, c: Client, id: nat, n: NotifMove)
    requires ClientInv(h, c) && NotifEnabled(h, c, id, n)
    ensures Kept(h, c, h, NotifAct(h, c, id, n))
  {
    match n
    case Arrive(_) => NotifiedStep(h, c, id, n);
    case Take(known) => NotifItemStep(h, c, id, known);
    case TouchRun(r) => NotifTouchStep(h, c, id, r);
    case AddComplete => NotifAddStep(h, c, id);
  }

  lemma ReconSteps(h: Host, c: Client, id: nat, q: ReconMove)
    requires ClientInv(h, c) && ReconEnabled(h, c, id, q)
    ensures Kept(h, c, h, ReconAct(h, c, id, q))
  {
    match q
    case AskAll(_, _, _) => ReconAskStep(h, c, id, q);
    case ListLost => EndStep(h, c, id);
    case Listed(_) => ReconReplyStep(h, c, id, q);
    case SetCursor => ReconSetStep(h, c, id);
    case LookUp(_, _) => ReconItemStep(h, c, id, q);
    case EnqMissing => ReconEnqStep(h, c, id);
    case QueueMissing(_) => ReconUploadStep(h, c, id, q);
  }

  lemma StepKeeps(h: Host, c: Client, step: Step)
    requires ClientInv(h, c) && Enabled(h, c, step)
    ensures Kept(h, c, HostAfter(h, c, step), Act(h, c, step))
  {
    match step.move
    case Writing(w) => WriteSteps(h, c, step.id, w);
    case Draining(d) => DrainSteps(h, c, step.id, d);
    case Peeking(p) => PeekSteps(h, c, step.id, p);
    case Pushing(s) => PushSteps(h, c, step.id, s);
    case Pulling(b) => PullSteps(h, c, step.id, b);
    case Notifying(n) => NotifSteps(h, c, step.id, n);
    case Reconciling(q) => ReconSteps(h, c, step.id, q);
    case TouchCursor => TouchStep(h, c, step.id);
  }
}
