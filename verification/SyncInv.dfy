// What every step of the sync protocol keeps. The invariant of one client is
// split in four: its running handlers, its download queue, its uploads and its
// rows. Handlers only rely on facts that no step of any other handler can undo
// (Later), which is what makes the interleaving harmless. Cursors are the
// matter of module SyncSafe: not every step keeps what they promise.

module SyncInv {
  import opened Basics
  import opened Lww
  import opened Messages
  import opened PushItems
  import opened SyncState

  // The bag named by d is on the host and carries d.msg.
  predicate OnHostAs(h: Host, d: Dl) {
    OnHostAt(h, d.realm, d.seqno) && BagAt(h, d.realm, d.seqno) == d.msg
  }

  ghost predicate OnHost(h: Host, m: Msg) { exists d :: OnHostAs(h, d) && d.msg == m }

  ghost predicate TaskInv(h: Host, c: Client, t: Task) {
    match t
    case Write(parts, _, ran, at) =>
      && (at != Kicked ==> forall m :: m in parts ==> m in c.archive)
      && (ran ==> forall m :: m in parts && Good(m) ==> m in c.execd)
      && (at == Marked ==> ran)
    case Drain(listed, drained) =>
      && (forall m :: m in listed ==> m in c.archive)
      && (drained ==> forall m :: m in listed && Good(m) ==> m in c.execd)
    case Peek(r, from, hi, done, dls, deq) =>
      && from <= done <= hi <= |Bags(h, r)|
      && (forall d :: d in dls ==> OnHostAs(h, d) && d.realm == r)
      && (deq ==> done < hi && (Bags(h, r)[done] in c.archive || Bags(h, r)[done] in MsgsOf(dls)))
    case Push(r, batch, items, acked) =>
      && acked <= |items|
      && (forall m :: m in batch ==> m in c.archive)
      && (forall i :: 0 <= i < |items| ==> items[i].idx < |batch|)
      && (forall i :: 0 <= i < |items| && items[i].outcome.Ok? ==>
            OnHostAs(h, Dl(r, items[i].outcome.value, batch[items[i].idx])))
    case Pull(rows) => forall d :: d in rows ==> OnHostAs(h, d)
    case OpenDeq(rows) => forall d :: d in rows ==> OnHostAs(h, d) && d.msg in c.archive
    case Notif(notices, seen, _, _, complete) =>
      && seen <= |notices|
      && (forall n :: n in notices ==> OnHostAt(h, n.realm, n.seqno))
      && (forall m :: m in complete ==> OnHost(h, m))
    case Recon(_, asked, inv, left, dls, _, _) =>
      && (asked.Some? ==> asked.value.1 <= |Bags(h, asked.value.0)|)
      && (forall m :: m in inv ==> OnHostAs(h, Dl(inv[m].0, inv[m].1, m)))
      && left <= inv.Keys
      && (forall d :: d in dls ==> OnHostAs(h, d) && d.msg in inv)
    case _ => true
  }

  ghost predicate TasksInv(h: Host, c: Client) { forall id :: id in c.tasks ==> TaskInv(h, c, c.tasks[id]) }

  ghost predicate QueueInv(h: Host, c: Client) {
    forall k :: k in c.downloads ==> OnHostAs(h, Dl(k.0, k.1, c.downloads[k]))
  }

  ghost predicate InWrite(c: Client, m: Msg) {
    exists id :: id in c.tasks && c.tasks[id].Write? && c.tasks[id].at != Kicked && m in c.tasks[id].parts
  }

  // Every archived message is on the host, queued for upload, still being
  // written, or was left out of the queue by the write that archived it.
  ghost predicate UploadsInv(h: Host, c: Client) {
    && (forall m :: m in c.archive ==> OnHost(h, m) || m in c.uploads || m in c.stranded || InWrite(c, m))
    && c.stranded <= c.archive.Keys
  }

  ghost function OpSet(msgs: set<Msg>): set<Op> { set m | m in msgs && Good(m) :: MsgToOp(m).value }

  ghost predicate InFlight(c: Client, m: Msg) {
    exists id :: id in c.tasks && c.tasks[id].Write? && m in c.tasks[id].parts
  }

  // The rows render exactly the messages applied so far.
  ghost predicate RowsInv(c: Client) {
    && Renders(c.ents, OpSet(c.execd))
    && (forall m :: m in c.execd ==> Good(m) && (m in c.archive || InFlight(c, m)))
    && (forall m :: m in c.archive && c.archive[m].apld == Applied && Good(m) ==> m in c.execd)
    && (forall m :: m in c.archive && c.archive[m].apld == Failed ==> !Good(m))
  }

  ghost predicate ClientInv(h: Host, c: Client) {
    TasksInv(h, c) && QueueInv(h, c) && UploadsInv(h, c) && RowsInv(c)
  }

  /* ---- What no step undoes ---- */

  ghost predicate HostGrows(h: Host, h': Host) { forall r :: Bags(h, r) <= Bags(h', r) }

  ghost predicate Later(h: Host, c: Client, h': Host, c': Client) {
    && HostGrows(h, h')
    && c.archive.Keys <= c'.archive.Keys
    && c.execd <= c'.execd
  }

  lemma BagLater(h: Host, h': Host, d: Dl)
    requires HostGrows(h, h') && OnHostAs(h, d)
    ensures OnHostAs(h', d)
  {
    assert Bags(h, d.realm) <= Bags(h', d.realm);
  }

  lemma OnHostLater(h: Host, h': Host, m: Msg)
    requires HostGrows(h, h') && OnHost(h, m)
    ensures OnHost(h', m)
  {
    var d :| OnHostAs(h, d) && d.msg == m;
    BagLater(h, h', d);
  }

  lemma TaskLater(h: Host, c: Client, h': Host, c': Client, t: Task)
    requires Later(h, c, h', c') && TaskInv(h, c, t)
    ensures TaskInv(h', c', t)
  {
    forall d | OnHostAs(h, d)
      ensures OnHostAs(h', d)
    {
      BagLater(h, h', d);
    }
    forall m | OnHost(h, m)
      ensures OnHost(h', m)
    {
      OnHostLater(h, h', m);
    }
    forall r
      ensures |Bags(h, r)| <= |Bags(h', r)|
      ensures forall q :: 0 <= q < |Bags(h, r)| ==> Bags(h', r)[q] == Bags(h, r)[q]
    {
      assert Bags(h, r) <= Bags(h', r);
    }
  }

  lemma TasksKept(h: Host, c: Client, h': Host, c': Client, id: nat)
    requires TasksInv(h, c) && Later(h, c, h', c')
    requires forall j :: j in c'.tasks && j != id ==> j in c.tasks && c'.tasks[j] == c.tasks[j]
    requires id in c'.tasks ==> TaskInv(h', c', c'.tasks[id])
    ensures TasksInv(h', c')
  {
    forall j | j in c'.tasks
      ensures TaskInv(h', c', c'.tasks[j])
    {
      if j != id { TaskLater(h, c, h', c', c.tasks[j]); }
    }
  }

  lemma QueueLater(h: Host, h': Host, c: Client)
    requires QueueInv(h, c) && HostGrows(h, h')
    ensures QueueInv(h', c)
  {
    forall k | k in c.downloads
      ensures OnHostAs(h', Dl(k.0, k.1, c.downloads[k]))
    {
      BagLater(h, h', Dl(k.0, k.1, c.downloads[k]));
    }
  }

  // Another client's step only lengthens the host's bag lists.
  lemma OtherClientLater(h: Host, h': Host, c: Client)
    requires ClientInv(h, c) && HostGrows(h, h')
    ensures ClientInv(h', c)
  {
    TasksKept(h, c, h', c, 0) by {
      if 0 in c.tasks { TaskLater(h, c, h', c, c.tasks[0]); }
    }
    QueueLater(h, h', c);
    forall m | m in c.archive
      ensures OnHost(h', m) || m in c.uploads || m in c.stranded || InWrite(c, m)
    {
      if OnHost(h, m) { OnHostLater(h, h', m); }
    }
  }
}
