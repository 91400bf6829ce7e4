// reconcileHost (web/src/sync.ts) on the client's stores.

module HandlersRecon {
  import opened Basics
  import opened Lww
  import opened Messages
  import opened SyncState
  import opened SyncInv
  import opened SyncSteps
  import opened SyncRuns
  import opened Stores
  import opened Handlers

  // Between two realms, or between two lookups.
  predicate Idle(t: Task) { t.Recon? && t.asked.None? }

  function ListedIn(h: Host, t: Task, r: Realm): Task
    requires Idle(t)
  {
    var inv := Inventory(t.inv, r, Bags(h, r));
    t.(todo := t.todo - {r}, inv := inv, left := inv.Keys)
  }

  lemma ListedAct(h: Host, c: Client, id: nat, t: Task, r: Realm)
    requires Idle(t) && r in t.todo && id in c.tasks && c.tasks[id] == t
    ensures ReconEnabled(h, c, id, Listed(r))
    ensures ReconAct(h, c, id, Listed(r)) == To(c, id, t.(asked := Some((r, |Bags(h, r)|))))
  {
  }

  lemma SetAct(h: Host, c: Client, id: nat, t: Task, r: Realm)
    requires Idle(t) && id in c.tasks && c.tasks[id] == t.(asked := Some((r, |Bags(h, r)|)))
    ensures ReconEnabled(h, c, id, SetCursor)
    ensures ReconAct(h, c, id, SetCursor) == To(c.(cursor := c.cursor[r := |Bags(h, r)|]), id, ListedIn(h, t, r))
  {
    assert Bags(h, r)[..|Bags(h, r)|] == Bags(h, r);
  }

  lemma ListMove(h: Host, c0: Client, id: nat, moves: seq<Move>, c: Client, t: Task, r: Realm) returns (c': Client)
    requires Idle(t) && r in t.todo && Came(h, c0, id, moves, c, t)
    ensures Came(h, c0, id, moves + [Reconciling(Listed(r))] + [Reconciling(SetCursor)], c', ListedIn(h, t, r))
    ensures c' == To(c.(cursor := c.cursor[r := |Bags(h, r)|]), id, ListedIn(h, t, r))
  {
    ListedAct(h, c, id, t, r);
    AfterSnoc(h, c0, id, moves, h, c, Reconciling(Listed(r)));
    var asked := To(c, id, t.(asked := Some((r, |Bags(h, r)|))));
    SetAct(h, asked, id, t, r);
    AfterSnoc(h, c0, id, moves + [Reconciling(Listed(r))], h, asked, Reconciling(SetCursor));
    c' := To(c.(cursor := c.cursor[r := |Bags(h, r)|]), id, ListedIn(h, t, r));
    assert asked.tasks[id := ListedIn(h, t, r)] == c'.tasks;
  }

  predicate LookingUp(t: Task, m: Msg) { Idle(t) && t.todo == {} && m in t.left && m in t.inv }

  function LookedUp(t: Task, m: Msg, known: bool): Task
    requires LookingUp(t, m)
  {
    var t' := t.(left := t.left - {m});
    if !known && t.pull then t'.(dls := t.dls + [Dl(t.inv[m].0, t.inv[m].1, m)]) else t'
  }

  lemma LookUpAct(h: Host, c: Client, id: nat, t: Task, m: Msg, known: bool)
    requires LookingUp(t, m) && id in c.tasks && c.tasks[id] == t && (known ==> m in c.archive)
    ensures ReconEnabled(h, c, id, LookUp(m, known))
    ensures ReconAct(h, c, id, LookUp(m, known)) ==
            To(if known then c.(uploads := c.uploads - {m}) else c, id, LookedUp(t, m, known))
  {
  }

  lemma LookUpMove(h: Host, c0: Client, id: nat, moves: seq<Move>, c: Client, t: Task, m: Msg, known: bool)
    returns (c': Client)
    requires LookingUp(t, m) && Came(h, c0, id, moves, c, t) && (known ==> m in c.archive)
    ensures Came(h, c0, id, moves + [Reconciling(LookUp(m, known))], c', LookedUp(t, m, known))
    ensures c' == To(if known then c.(uploads := c.uploads - {m}) else c, id, LookedUp(t, m, known))
  {
    LookUpAct(h, c, id, t, m, known);
    AfterSnoc(h, c0, id, moves, h, c, Reconciling(LookUp(m, known)));
    c' := ReconAct(h, c, id, LookUp(m, known));
  }

  predicate AllLookedUp(t: Task) { Idle(t) && t.todo == {} && t.left == {} }

  lemma EnqAct(h: Host, c: Client, id: nat, t: Task)
    requires AllLookedUp(t) && id in c.tasks && c.tasks[id] == t
    ensures ReconEnabled(h, c, id, EnqMissing)
    ensures ReconAct(h, c, id, EnqMissing) ==
            var c' := c.(downloads := Enqueue(c.downloads, t.dls));
            if t.push then To(c', id, ReconPush(t.inv.Keys)) else End(c', id)
  {
  }

  lemma EnqMove(h: Host, c0: Client, id: nat, moves: seq<Move>, c: Client, t: Task) returns (c': Client)
    requires AllLookedUp(t) && Came(h, c0, id, moves, c, t)
    ensures After(h, c0, id, moves + [Reconciling(EnqMissing)]) == Some((h, c'))
    ensures var queued := c.(downloads := Enqueue(c.downloads, t.dls));
            c' == if t.push then To(queued, id, ReconPush(t.inv.Keys)) else End(queued, id)
  {
    EnqAct(h, c, id, t);
    AfterSnoc(h, c0, id, moves, h, c, Reconciling(EnqMissing));
    c' := ReconAct(h, c, id, EnqMissing);
  }

  lemma PushMissing(h: Host, c0: Client, id: nat, moves: seq<Move>, c: Client, hostKeys: set<Msg>)
    returns (moves': seq<Move>, c': Client)
    requires Came(h, c0, id, moves, c, ReconPush(hostKeys))
    ensures Over(h, c0, id, moves', c')
    ensures c'.archive == c.archive && c'.cursor == c.cursor && c'.downloads == c.downloads
    ensures c'.uploads == c.uploads + (c.archive.Keys - hostKeys)
  {
    var q := Reconciling(QueueMissing(c.archive.Keys - hostKeys));
    AfterSnoc(h, c0, id, moves, h, c, q);
    moves', c' := moves + [q], End(c.(uploads := c.uploads + (c.archive.Keys - hostKeys)), id);
    assert c'.tasks == c0.tasks - {id};
  }

  /* ---- The listing ---- */

  // First bag of each message; later bags of it are duplicates.
  method NoteBags(byMsg0: map<Msg, (Realm, nat)>, realm: Realm, items: seq<Msg>) returns (byMsg: map<Msg, (Realm, nat)>)
    ensures byMsg == Inventory(byMsg0, realm, items)
  {
    byMsg := byMsg0;
    for i := 0 to |items|
      invariant byMsg == Inventory(byMsg0, realm, items[..i])
    {
      assert items[..i + 1][..i] == items[..i];
      if items[i] !in byMsg { byMsg := byMsg[items[i] := (realm, i + 1)]; }
    }
    assert items[..|items|] == items;
  }

  // What is on the host in these realms.
  ghost function HostMsgs(h: Host, realms: set<Realm>): set<Msg> { set r, m | r in realms && m in Bags(h, r) :: m }

  // The messages of these realms, each with the first bag of some realm that
  // carries it.
  ghost predicate Lists(h: Host, inv: map<Msg, (Realm, nat)>, realms: set<Realm>) {
    && inv.Keys == HostMsgs(h, realms)
    && forall m :: m in inv ==> OnHostAs(h, Dl(inv[m].0, inv[m].1, m)) && m !in Bags(h, inv[m].0)[..inv[m].1 - 1]
  }

  // An entry stays; a new one is the first bag of its message.
  lemma {:induction false} InventoryFirst(inv: map<Msg, (Realm, nat)>, r: Realm, bags: seq<Msg>, m: Msg)
    requires m in Inventory(inv, r, bags)
    ensures var (q, n) := Inventory(inv, r, bags)[m];
            if m in inv then (q, n) == inv[m] else q == r && 1 <= n <= |bags| && bags[n - 1] == m && m !in bags[..n - 1]
    decreases |bags|
  {
    if bags != [] {
      var init := bags[..|bags| - 1];
      InventoryKeys(inv, r, init);
      if m in Inventory(inv, r, init) {
        InventoryFirst(inv, r, init, m);
        var n := Inventory(inv, r, init)[m].1;
        assert m !in inv ==> init[..n - 1] == bags[..n - 1];
      }
    }
  }

  lemma {:induction false} InventoryKeys(inv: map<Msg, (Realm, nat)>, r: Realm, bags: seq<Msg>)
    ensures Inventory(inv, r, bags).Keys == inv.Keys + set m | m in bags
    decreases |bags|
  {
    if bags != [] {
      InventoryKeys(inv, r, bags[..|bags| - 1]);
      assert bags == bags[..|bags| - 1] + [bags[|bags| - 1]];
    }
  }

  lemma ListsOneMore(h: Host, inv: map<Msg, (Realm, nat)>, realms: set<Realm>, r: Realm)
    requires Lists(h, inv, realms)
    ensures Lists(h, Inventory(inv, r, Bags(h, r)), realms + {r})
  {
    InventoryHas(h, inv, r, Bags(h, r));
    InventoryKeys(inv, r, Bags(h, r));
    forall m | m in Inventory(inv, r, Bags(h, r))
      ensures var (q, n) := Inventory(inv, r, Bags(h, r))[m]; OnHostAs(h, Dl(q, n, m)) && m !in Bags(h, q)[..n - 1]
    {
      InventoryFirst(inv, r, Bags(h, r), m);
    }
    assert HostMsgs(h, realms + {r}) == HostMsgs(h, realms) + set m | m in Bags(h, r);
  }

  function AsSet(realms: seq<Realm>): set<Realm> { set r | r in realms }

  // One realm: its cursor goes to the top, also back, when the host has fewer
  // bags than the cursor says.
  method ListRealm(store: ClientStore, t: Task, realm: Realm, items: seq<Msg>, ghost h: Host, ghost c0: Client, ghost id: nat,
                   ghost moves0: seq<Move>, ghost c1: Client)
    returns (t': Task, ghost moves: seq<Move>, ghost c: Client)
    requires store.Holds(c1) && Came(h, c0, id, moves0, c1, t) && Idle(t) && realm in t.todo && items == Bags(h, realm)
    modifies store.hosts
    ensures t' == ListedIn(h, t, realm) && store.Holds(c) && Came(h, c0, id, moves, c, t')
    ensures c.archive == c1.archive && c.uploads == c1.uploads && c.downloads == c1.downloads
    ensures c.cursor == c1.cursor[realm := |items|]
  {
    c := ListMove(h, c0, id, moves0, c1, t, realm);
    moves := moves0 + [Reconciling(Listed(realm))] + [Reconciling(SetCursor)];
    var byMsg := NoteBags(t.inv, realm, items);
    store.hosts.RecordSeqs(SetLast(|items|), realm);
    t' := t.(todo := t.todo - {realm}, inv := byMsg, left := byMsg.Keys);
  }

  // The cursors of these realms name the host's last bag; others are as before.
  ghost predicate AtTop(h: Host, c0: Client, c: Client, realms: set<Realm>) {
    forall r :: CursorOf(c.cursor, r) == if r in realms then |Bags(h, r)| else CursorOf(c0.cursor, r)
  }

  lemma RealmsSplit(realms: seq<Realm>, i: nat)
    requires i < |realms| && forall k, j :: 0 <= k < j < |realms| ==> realms[k] != realms[j]
    ensures realms[i] in AsSet(realms) - AsSet(realms[..i])
    ensures AsSet(realms[..i + 1]) == AsSet(realms[..i]) + {realms[i]}
  {
    assert realms[..i + 1] == realms[..i] + [realms[i]];
  }

  ghost predicate ListedSoFar(h: Host, c0: Client, t0: Task, c: Client, t: Task, done: set<Realm>) {
    && t0.Recon? && t.Recon? && t == t0.(todo := t0.todo - done, inv := t.inv, left := t.inv.Keys)
    && Lists(h, t.inv, done) && AtTop(h, c0, c, done)
    && c.archive == c0.archive && c.uploads == c0.uploads && c.downloads == c0.downloads
  }

  lemma ListedMore(h: Host, c0: Client, t0: Task, c1: Client, t1: Task, done: set<Realm>, r: Realm, c: Client)
    requires ListedSoFar(h, c0, t0, c1, t1, done) && Idle(t0)
    requires c.archive == c1.archive && c.uploads == c1.uploads && c.downloads == c1.downloads
    requires c.cursor == c1.cursor[r := |Bags(h, r)|]
    ensures ListedSoFar(h, c0, t0, c, ListedIn(h, t1, r), done + {r})
  {
    ListsOneMore(h, t1.inv, done, r);
    assert t0.todo - (done + {r}) == t0.todo - done - {r};
  }

  // The host's answers to the listings, each complete or a failure.
  ghost predicate Answers(h: Host, realms: seq<Realm>, listing: map<Realm, Result<seq<Msg>>>) {
    forall r :: r in realms ==> r in listing && (listing[r].Ok? ==> listing[r].value == Bags(h, r))
  }

  // The first n realms were listed; the next one, if any, failed.
  predicate Reached(realms: seq<Realm>, listing: map<Realm, Result<seq<Msg>>>, n: nat) {
    && n <= |realms|
    && (forall i :: 0 <= i < n ==> realms[i] in listing && listing[realms[i]].Ok?)
    && (n < |realms| ==> realms[n] in listing && listing[realms[n]].Err?)
  }

  // The realms are listed one after the other, each from the start, up to the
  // first one that fails.
  method ListRealms(store: ClientStore, realms: seq<Realm>, listing: map<Realm, Result<seq<Msg>>>, t0: Task, ghost h: Host,
                    ghost c0: Client, ghost id: nat)
    returns (t: Task, n: nat, ghost moves: seq<Move>, ghost c: Client)
    requires store.Holds(c0) && id in c0.tasks && c0.tasks[id] == t0
    requires Idle(t0) && t0.inv == map[] && t0.left == {} && t0.todo == AsSet(realms)
    requires forall i, j :: 0 <= i < j < |realms| ==> realms[i] != realms[j]
    requires Answers(h, realms, listing)
    modifies store.hosts
    ensures store.Holds(c) && Came(h, c0, id, moves, c, t) && Reached(realms, listing, n)
    ensures ListedSoFar(h, c0, t0, c, t, AsSet(realms[..n]))
  {
    t, n, moves, c := t0, 0, [], c0;
    assert c0.tasks[id := t0] == c0.tasks;
    while n < |realms| && listing[realms[n]].Ok?
      invariant n <= |realms| && forall i :: 0 <= i < n ==> listing[realms[i]].Ok?
      invariant store.Holds(c) && Came(h, c0, id, moves, c, t)
      invariant ListedSoFar(h, c0, t0, c, t, AsSet(realms[..n]))
    {
      RealmsSplit(realms, n);
      ghost var before := (c, t);
      t, moves, c := ListRealm(store, t, realms[n], listing[realms[n]].value, h, c0, id, moves, c);
      ListedMore(h, c0, t0, before.0, before.1, AsSet(realms[..n]), realms[n], c);
      n := n + 1;
    }
  }

  /* ---- The lookups ---- */

  // What the lookups so far have dropped from the upload queue and collected.
  ghost predicate SoFar(c1: Client, t1: Task, c: Client, t: Task)
    requires t1.Recon?
  {
    && t.Recon? && t == t1.(left := t.left, dls := t.dls) && t.left <= t1.inv.Keys
    && c.archive == c1.archive && c.downloads == c1.downloads && c.cursor == c1.cursor
    && c.uploads == c1.uploads - (t1.inv.Keys - t.left) * c1.archive.Keys
    && MsgsOf(t.dls) == (if t1.pull then t1.inv.Keys - t.left - c1.archive.Keys else {})
    && forall d :: d in t.dls ==> d.msg in t1.inv && t1.inv[d.msg] == (d.realm, d.seqno)
  }

  lemma SoFarStep(c1: Client, t1: Task, c: Client, t: Task, m: Msg, known: bool, c': Client)
    requires t1.Recon? && SoFar(c1, t1, c, t) && LookingUp(t, m) && known == (m in c.archive)
    requires c'.archive == c.archive && c'.downloads == c.downloads && c'.cursor == c.cursor
    requires c'.uploads == if known then c.uploads - {m} else c.uploads
    ensures SoFar(c1, t1, c', LookedUp(t, m, known))
  {
    var t' := LookedUp(t, m, known);
    assert t1.inv.Keys - t'.left == (t1.inv.Keys - t.left) + {m};
    assert MsgsOf(t.dls + [Dl(t.inv[m].0, t.inv[m].1, m)]) == MsgsOf(t.dls) + {m};
  }

  method LookUpOne(store: ClientStore, t: Task, m: Msg, ghost h: Host, ghost c0: Client, ghost id: nat,
                   ghost moves0: seq<Move>, ghost c1: Client)
    returns (t': Task, ghost known: bool, ghost moves: seq<Move>, ghost c: Client)
    requires store.Holds(c1) && Came(h, c0, id, moves0, c1, t) && LookingUp(t, m)
    modifies store.uploads
    ensures known == (m in c1.archive) && t' == LookedUp(t, m, known)
    ensures store.Holds(c) && Came(h, c0, id, moves, c, t')
    ensures c.archive == c1.archive && c.downloads == c1.downloads && c.cursor == c1.cursor
    ensures c.uploads == if known then c1.uploads - {m} else c1.uploads
  {
    var has := store.messages.Has(m);
    known := has;
    c := LookUpMove(h, c0, id, moves0, c1, t, m, has);
    moves := moves0 + [Reconciling(LookUp(m, has))];
    t' := t.(left := t.left - {m});
    if has {
      store.uploads.Deq([m]);
      assert (set x | x in [m]) == {m};
      return;
    }
    if !t.pull { return; }
    t' := t'.(dls := t.dls + [Dl(t.inv[m].0, t.inv[m].1, m)]);
  }

  method LookUpEach(store: ClientStore, t1: Task, ghost h: Host, ghost c0: Client, ghost id: nat, ghost moves1: seq<Move>,
                    ghost c1: Client)
    returns (t: Task, ghost moves: seq<Move>, ghost c: Client)
    requires Idle(t1) && t1.todo == {} && t1.left == t1.inv.Keys && t1.dls == []
    requires store.Holds(c1) && Came(h, c0, id, moves1, c1, t1)
    modifies store.uploads
    ensures SoFar(c1, t1, c, t) && t.left == {} && store.Holds(c) && Came(h, c0, id, moves, c, t)
  {
    t, moves, c := t1, moves1, c1;
    assert t1.inv.Keys - t1.left == {};
    while t.left != {}
      invariant SoFar(c1, t1, c, t) && store.Holds(c) && Came(h, c0, id, moves, c, t)
      decreases |t.left|
    {
      var m :| m in t.left;
      ghost var known;
      ghost var before := (c, t);
      t, known, moves, c := LookUpOne(store, t, m, h, c0, id, moves, c);
      SoFarStep(c1, t1, before.0, before.1, m, known, c);
    }
  }

  /* ---- The whole handler ---- */

  // Queued downloads cover every listed message that is not archived.
  lemma PullsMissing(h: Host, c: Client, rows: seq<Dl>, inv: map<Msg, (Realm, nat)>, realms: set<Realm>)
    requires QueueInv(h, c) && Lists(h, inv, realms) && inv.Keys - c.archive.Keys <= MsgsOf(rows)
    requires forall d :: d in rows ==> d.msg in inv && inv[d.msg] == (d.realm, d.seqno)
    ensures forall m :: m in HostMsgs(h, realms) ==> m in c.archive || m in Enqueue(c.downloads, rows).Values
  {
    forall d | d in rows
      ensures OnHostAs(h, d)
    {
      assert d == Dl(inv[d.msg].0, inv[d.msg].1, d.msg);
    }
    EnqueueBags(h, c, rows);
  }

  // Enqueues the keys of a set, in any order.
  method EnqueueKeys(store: ClientStore, keys: set<Msg>)
    modifies store.uploads
    ensures store.uploads.queue == old(store.uploads.queue) + keys
  {
    var left := keys;
    var list: seq<Msg> := [];
    while left != {}
      invariant left <= keys && forall m :: m in list <==> m in keys - left
    {
      var m :| m in left;
      left, list := left - {m}, list + [m];
    }
    assert (set m | m in list) == keys;
    if |list| > 0 { store.uploads.Enq(list); }
  }

  // What the host lacks goes to the upload queue.
  method PushRest(store: ClientStore, hostKeys: set<Msg>, ghost h: Host, ghost c0: Client, ghost id: nat,
                  ghost moves0: seq<Move>, ghost c1: Client)
    returns (ghost moves: seq<Move>, ghost c: Client)
    requires store.Holds(c1) && Came(h, c0, id, moves0, c1, ReconPush(hostKeys))
    modifies store.uploads
    ensures Over(h, c0, id, moves, c) && store.Holds(c)
    ensures c.archive == c1.archive && c.cursor == c1.cursor && c.downloads == c1.downloads
    ensures c.uploads == c1.uploads + (c1.archive.Keys - hostKeys)
  {
    EnqueueKeys(store, store.messages.messages.Keys - hostKeys);
    moves, c := PushMissing(h, c0, id, moves0, c1, hostKeys);
  }

  // Enqueue what is to be pulled and, with push on, what the host lacks.
  method Finish(store: ClientStore, t: Task, ghost h: Host, ghost c0: Client, ghost id: nat, ghost moves0: seq<Move>,
                ghost c1: Client)
    returns (ghost moves: seq<Move>, ghost c: Client)
    requires AllLookedUp(t) && store.Holds(c1) && Came(h, c0, id, moves0, c1, t)
    modifies store.uploads, store.downloads
    ensures Over(h, c0, id, moves, c) && store.Holds(c)
    ensures c.archive == c1.archive && c.cursor == c1.cursor && c.downloads == Enqueue(c1.downloads, t.dls)
    ensures c.uploads == c1.uploads + if t.push then c1.archive.Keys - t.inv.Keys else {}
  {
    store.downloads.Enq(t.dls);
    c := EnqMove(h, c0, id, moves0, c1, t);
    moves := moves0 + [Reconciling(EnqMissing)];
    if t.push {
      moves, c := PushRest(store, t.inv.Keys, h, c0, id, moves, c);
    } else {
      assert c.tasks == c0.tasks - {id};
    }
  }

  // What a full inventory does to a client: each listed realm's cursor ends at
  // the top; the upload queue loses what the host has and, with push on, gains
  // all that it lacks; with pull on no message of a listed realm is left out,
  // and nothing but bags of messages that are not archived is queued.
  ghost predicate Reconciled(h: Host, c0: Client, c: Client, realms: set<Realm>, pull: bool, push: bool) {
    var there := HostMsgs(h, realms);
    && AtTop(h, c0, c, realms) && c.archive == c0.archive
    && c.uploads == (c0.uploads - there * c0.archive.Keys) + (if push then c0.archive.Keys - there else {})
    && (pull && QueueInv(h, c0) ==> forall m :: m in there ==> m in c.archive || m in c.downloads.Values)
    && (!pull ==> c.downloads == c0.downloads)
    && forall k :: k in c.downloads ==>
         || (k in c0.downloads && c.downloads[k] == c0.downloads[k])
         || (c.downloads[k] in there - c0.archive.Keys && OnHostAs(h, Dl(k.0, k.1, c.downloads[k])))
  }

  // Only bags of listed messages that are not archived come in.
  lemma PullsOnlyMissing(h: Host, downloads: map<(Realm, nat), Msg>, archived: set<Msg>, rows: seq<Dl>,
                         inv: map<Msg, (Realm, nat)>, realms: set<Realm>, k: (Realm, nat))
    requires Lists(h, inv, realms) && MsgsOf(rows) !! archived && k in Enqueue(downloads, rows)
    requires forall d :: d in rows ==> d.msg in inv && inv[d.msg] == (d.realm, d.seqno)
    ensures var m := Enqueue(downloads, rows)[k];
            || (k in downloads && m == downloads[k])
            || (m in HostMsgs(h, realms) - archived && OnHostAs(h, Dl(k.0, k.1, m)))
  {
    EnqueueAdds(downloads, rows);
    var d := Dl(k.0, k.1, Enqueue(downloads, rows)[k]);
    if d in rows { assert d.msg in MsgsOf(rows) && d == Dl(inv[d.msg].0, inv[d.msg].1, d.msg); }
  }

  lemma NoRows(rows: seq<Dl>)
    ensures rows != [] ==> MsgsOf(rows) != {}
  {
    if rows != [] { assert rows[0].msg in MsgsOf(rows); }
  }

  lemma InventoryReconciles(h: Host, c0: Client, t0: Task, c1: Client, t1: Task, c2: Client, t2: Task, c: Client, realms: set<Realm>)
    requires ListedSoFar(h, c0, t0, c1, t1, realms)
    requires SoFar(c1, t1, c2, t2) && t2.left == {}
    requires c.archive == c2.archive && c.cursor == c2.cursor && c.downloads == Enqueue(c2.downloads, t2.dls)
    requires c.uploads == c2.uploads + if t1.push then c2.archive.Keys - t1.inv.Keys else {}
    ensures Reconciled(h, c0, c, realms, t1.pull, t1.push)
  {
    assert t1.inv.Keys - t2.left == t1.inv.Keys;
    forall k | k in c.downloads
      ensures || (k in c0.downloads && c.downloads[k] == c0.downloads[k])
              || (c.downloads[k] in HostMsgs(h, realms) - c0.archive.Keys && OnHostAs(h, Dl(k.0, k.1, c.downloads[k])))
    {
      PullsOnlyMissing(h, c0.downloads, c0.archive.Keys, t2.dls, t1.inv, realms, k);
    }
    if t1.pull {
      if QueueInv(h, c0) { PullsMissing(h, c1, t2.dls, t1.inv, realms); }
    } else {
      NoRows(t2.dls);
    }
  }

  lemma GiveUp(h: Host, c0: Client, id: nat, moves: seq<Move>, c: Client, t: Task) returns (c': Client)
    requires Idle(t) && t.todo != {} && Came(h, c0, id, moves, c, t)
    ensures Over(h, c0, id, moves + [Reconciling(ListLost)], c') && c' == End(c, id)
  {
    AfterSnoc(h, c0, id, moves, h, c, Reconciling(ListLost));
    c' := End(c, id);
    assert c'.tasks == c0.tasks - {id};
  }

  // An inventory that failed has moved the cursors of the realms before.
  ghost predicate GaveUp(h: Host, c0: Client, c: Client, realms: set<Realm>) {
    && c.archive == c0.archive && c.uploads == c0.uploads && c.downloads == c0.downloads
    && AtTop(h, c0, c, realms)
  }

  lemma StillTodo(realms: seq<Realm>, n: nat)
    requires n < |realms| && forall i, j :: 0 <= i < j < |realms| ==> realms[i] != realms[j]
    ensures AsSet(realms) - AsSet(realms[..n]) != {}
  {
    RealmsSplit(realms, n);
  }

  // A full inventory of the host.
  method ReconcileHost(store: ClientStore, realms: seq<Realm>, listing: map<Realm, Result<seq<Msg>>>, pull: bool, push: bool,
                       ghost h: Host, ghost c0: Client, ghost id: nat)
    returns (status: Status, ghost n: nat, ghost moves: seq<Move>, ghost c: Client)
    requires store.Holds(c0) && id in c0.tasks
    requires c0.tasks[id] == Recon(AsSet(realms), None, map[], {}, [], pull, push)
    requires forall i, j :: 0 <= i < j < |realms| ==> realms[i] != realms[j]
    requires Answers(h, realms, listing)
    modifies store.hosts, store.uploads, store.downloads
    ensures Over(h, c0, id, moves, c) && store.Holds(c) && Reached(realms, listing, n)
    ensures n == |realms| ==> status == Success && Reconciled(h, c0, c, AsSet(realms), pull, push)
    ensures n < |realms| ==> status == listing[realms[n]].status && GaveUp(h, c0, c, AsSet(realms[..n]))
  {
    var t0 := Recon(AsSet(realms), None, map[], {}, [], pull, push);
    var t, reached;
    t, reached, moves, c := ListRealms(store, realms, listing, t0, h, c0, id);
    n := reached;
    if reached < |realms| {
      StillTodo(realms, reached);
      c := GiveUp(h, c0, id, moves, c, t);
      return listing[realms[reached]].status, n, moves + [Reconciling(ListLost)], c;
    }
    assert realms[..reached] == realms;
    ghost var c1, t1 := c, t;
    t, moves, c := LookUpEach(store, t, h, c0, id, moves, c);
    ghost var c2 := c;
    moves, c := Finish(store, t, h, c0, id, moves, c);
    InventoryReconciles(h, c0, t0, c1, t1, c2, t, c, AsSet(realms));
    status := Success;
  }
}
