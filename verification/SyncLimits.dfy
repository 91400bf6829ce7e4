// Where the promises of the sync protocol stop: runs on which they fail, and
// exactly when an inventory that queues nothing skips bags.

module SyncLimits {
  import opened Basics
  import opened Lww
  import opened Messages
  import opened SyncState
  import opened SyncInv
  import opened SyncSafe
  import opened SyncTheorems
  import opened SyncRuns

  const SOME_EID := Eid([0], At(1))
  const BROKEN := Msg(SOME_EID, 0, 0, "", BadBody([0], InvalidMessage))
  const FINE := Msg(SOME_EID, 1, 0, "", NoBody)

  /* ---- A write whose statuses are misaligned ---- */

  lemma BatchFacts()
    ensures OpsOf([BROKEN, FINE]) == OpsOf([FINE]) == [Op(SOME_EID, 1, 0, None)]
    ensures AckedOf([BROKEN, FINE]) == {} && AckedOf([FINE]) == {FINE}
  {
    assert [BROKEN, FINE][..1] == [BROKEN] && [BROKEN][..0] == [] && [FINE][..0] == [];
    assert !Good(BROKEN) && MsgToOp(FINE) == Ok(Op(SOME_EID, 1, 0, None));
    assert OpsOf([BROKEN]) == [];
    assert Acked([FINE], 0);
    assert forall i: nat :: !Acked([BROKEN, FINE], i);
  }

  const MIXED := Written(NewClient, [BROKEN, FINE], 0)

  lemma MixedWrite()
    ensures MIXED.archive == map[BROKEN := ArchRow(Failed, 0), FINE := ArchRow(Pending, 0)]
    ensures MIXED.uploads == {} && MIXED.ents != map[]
  {
    BatchFacts();
    var parts := [BROKEN, FINE];
    var rows := AsRows(parts, 0);
    assert rows == [Dl(0, 0, BROKEN), Dl(0, 0, FINE)];
    assert rows[..1] == [Dl(0, 0, BROKEN)] && rows[..1][..0] == [];
    assert Archive(map[], rows[..1]) == map[BROKEN := ArchRow(Pending, 0)];
    assert Archive(map[], rows) == map[BROKEN := ArchRow(Pending, 0), FINE := ArchRow(Pending, 0)];
    assert [Op(SOME_EID, 1, 0, None)][..0] == [];
    assert SOME_EID in ApplyAll(map[], [Op(SOME_EID, 1, 0, None)]);
  }

  lemma MixedDrain()
    ensures QuietClient(map[], Drained(MIXED, [FINE])) && Drained(MIXED, [FINE]).ents != map[]
  {
    MixedWrite();
    BatchFacts();
    var c := Drained(MIXED, [FINE]);
    assert c.archive == map[BROKEN := ArchRow(Failed, 0), FINE := ArchRow(Applied, 0)];
    NoResurrection(MIXED.ents, OpsOf([FINE]), SOME_EID) by { RowThere(); }
  }

  lemma RowThere()
    ensures SOME_EID in MIXED.ents
  {
    BatchFacts();
    assert [Op(SOME_EID, 1, 0, None)][..0] == [];
  }

  // Nothing is left to do, yet the two clients disagree about FINE.
  ghost predicate Diverged(s: System) {
    && |s.clients| == 2 && Quiescent(s)
    && s.clients[0].ents != s.clients[1].ents
    && FINE in s.clients[0].archive && FINE !in s.clients[1].archive
  }

  const MIXED_END := System(map[], [Drained(MIXED, [FINE]), NewClient])

  lemma MixedEnd()
    ensures Diverged(MIXED_END)
  {
    MixedWrite();
    MixedDrain();
  }

  lemma StartAlone(n: nat, who: nat, id: nat, moves: seq<Move>, h: Host, c: Client) returns (states: seq<System>)
    requires who < n && After(map[], NewClient, id, moves) == Some((h, c))
    ensures Run(n, states, EventsOf(who, id, moves)) && |states| == |moves| + 1
    ensures states[|moves|] == With(Start(n), who, h, c)
  {
    states := Alone(n, [Start(n)], [], who, id, moves);
    assert [] + EventsOf(who, id, moves) == EventsOf(who, id, moves);
  }

  lemma ThenAlone(n: nat, states: seq<System>, events: seq<Event>, s: System, who: nat, id: nat, moves: seq<Move>, h: Host, c: Client)
    returns (states': seq<System>)
    requires Run(n, states, events) && states[|events|] == s && who < |s.clients|
    requires After(s.host, s.clients[who], id, moves) == Some((h, c))
    ensures Run(n, states', events + EventsOf(who, id, moves))
    ensures |states'| == |events| + |moves| + 1 && states'[|events| + |moves|] == With(s, who, h, c)
  {
    states' := Alone(n, states, events, who, id, moves);
  }

  lemma WriteThorough(states: seq<System>, parts: seq<Msg>, batch: seq<Msg>)
    ensures ThoroughRun(states, EventsOf(0, 0, WriteMoves(parts, 0)) + EventsOf(0, 0, DrainMoves(batch)))
  {
  }

  // One client writes [BROKEN, FINE] as one batch and drains; the run ends
  // with nothing left to do, but the other client never hears of FINE.
  lemma LostWrite() returns (states: seq<System>, events: seq<Event>)
    ensures Run(2, states, events) && ThoroughRun(states, events) && Diverged(states[|events|])
  {
    WriteAlone(map[], NewClient, 0, [BROKEN, FINE], 0);
    var write, drain := WriteMoves([BROKEN, FINE], 0), DrainMoves([FINE]);
    var s1 := StartAlone(2, 0, 0, write, map[], MIXED);
    var mid := With(Start(2), 0, map[], MIXED);
    MixedWrite();
    DrainAlone(map[], MIXED, 0, [FINE]);
    states := ThenAlone(2, s1, EventsOf(0, 0, write), mid, 0, 0, drain, map[], Drained(MIXED, [FINE]));
    events := EventsOf(0, 0, write) + EventsOf(0, 0, drain);
    assert With(mid, 0, map[], Drained(MIXED, [FINE])) == MIXED_END;
    MixedEnd();
    WriteThorough(states, [BROKEN, FINE], [FINE]);
  }

  /* ---- An inventory that queues nothing ---- */

  // The inventory at one of its pauses, as far as the rest of it can tell.
  ghost predicate Paused(h: Host, c: Client, id: nat, moves: seq<Move>, c1: Client, t: Task) {
    && t.Recon? && t.asked.None? && t.left <= t.inv.Keys
    && After(h, c, id, moves) == Some((h, c1))
    && id !in c.tasks && c1.tasks == c.tasks[id := t]
    && c1.archive == c.archive && c1.downloads == c.downloads
  }

  // The listing of one realm asked for and answered.
  lemma ListMoves(h: Host, c1: Client, id: nat, t: Task, r: Realm)
    requires id in c1.tasks && c1.tasks[id] == t && t.Recon? && t.asked.None? && r in t.todo
    ensures ReconEnabled(h, c1, id, Listed(r))
    ensures var c2 := ReconAct(h, c1, id, Listed(r));
            var inv := Inventory(t.inv, r, Bags(h, r));
            && ReconEnabled(h, c2, id, SetCursor)
            && ReconAct(h, c2, id, SetCursor) ==
               To(c1.(cursor := c1.cursor[r := |Bags(h, r)|]), id, t.(todo := t.todo - {r}, inv := inv, left := inv.Keys))
  {
    var asked := t.(asked := Some((r, |Bags(h, r)|)));
    SetMove(h, To(c1, id, asked), id, asked, r);
  }

  lemma SetMove(h: Host, c: Client, id: nat, t: Task, r: Realm)
    requires id in c.tasks && c.tasks[id] == t && t.Recon? && t.asked == Some((r, |Bags(h, r)|))
    ensures ReconEnabled(h, c, id, SetCursor)
    ensures var inv := Inventory(t.inv, r, Bags(h, r));
            ReconAct(h, c, id, SetCursor) ==
            To(c.(cursor := c.cursor[r := |Bags(h, r)|]), id,
               t.(todo := t.todo - {r}, asked := None, inv := inv, left := inv.Keys))
  {
    assert Bags(h, r)[..|Bags(h, r)|] == Bags(h, r);
  }

  lemma ListOne(h: Host, c: Client, id: nat, moves: seq<Move>, c1: Client, t: Task, r: Realm)
    returns (moves': seq<Move>, c2: Client, t': Task)
    requires Paused(h, c, id, moves, c1, t) && r in t.todo
    ensures Paused(h, c, id, moves', c2, t') && t' == t.(todo := t.todo - {r}, inv := t'.inv, left := t'.left)
    ensures c2.cursor == c1.cursor[r := |Bags(h, r)|]
  {
    ListMoves(h, c1, id, t, r);
    var inv := Inventory(t.inv, r, Bags(h, r));
    t' := t.(todo := t.todo - {r}, inv := inv, left := inv.Keys);
    c2 := To(c1.(cursor := c1.cursor[r := |Bags(h, r)|]), id, t');
    moves' := moves + [Reconciling(Listed(r))] + [Reconciling(SetCursor)];
    TwoMoves(h, c, id, moves, c1, Reconciling(Listed(r)), Reconciling(SetCursor));
  }

  lemma TwoMoves(h: Host, c: Client, id: nat, moves: seq<Move>, c1: Client, a: Move, b: Move)
    requires After(h, c, id, moves) == Some((h, c1)) && a.Reconciling? && b.Reconciling?
    requires ReconEnabled(h, c1, id, a.q) && ReconEnabled(h, ReconAct(h, c1, id, a.q), id, b.q)
    ensures After(h, c, id, moves + [a] + [b]) == Some((h, ReconAct(h, ReconAct(h, c1, id, a.q), id, b.q)))
  {
    AfterSnoc(h, c, id, moves, h, c1, a);
    AfterSnoc(h, c, id, moves + [a], h, ReconAct(h, c1, id, a.q), b);
  }

  // These realms are listed, one after the other.
  lemma {:induction false} ListSome(h: Host, c: Client, id: nat, moves: seq<Move>, c1: Client, t: Task, realms: set<Realm>)
    returns (moves': seq<Move>, c2: Client, t': Task)
    requires Paused(h, c, id, moves, c1, t) && realms <= t.todo
    ensures Paused(h, c, id, moves', c2, t') && t' == t.(todo := t.todo - realms, inv := t'.inv, left := t'.left)
    ensures forall r :: CursorOf(c2.cursor, r) == if r in realms then |Bags(h, r)| else CursorOf(c1.cursor, r)
    decreases |realms|
  {
    if realms == {} {
      moves', c2, t' := moves, c1, t;
    } else {
      var r :| r in realms;
      var m1, k1, t1 := ListOne(h, c, id, moves, c1, t, r);
      moves', c2, t' := ListSome(h, c, id, m1, k1, t1, realms - {r});
      assert t.todo - {r} - (realms - {r}) == t.todo - realms;
    }
  }

  lemma LookMove(h: Host, c1: Client, id: nat, t: Task, m: Msg)
    requires id in c1.tasks && c1.tasks[id] == t && t.Recon? && t.asked.None? && t.todo == {} && !t.pull
    requires m in t.left && t.left <= t.inv.Keys
    ensures ReconEnabled(h, c1, id, LookUp(m, m in c1.archive))
    ensures var c2 := ReconAct(h, c1, id, LookUp(m, m in c1.archive));
            c2 == To(c1.(uploads := c2.uploads), id, t.(left := t.left - {m}))
  {
  }

  lemma {:induction false} LookUpAll(h: Host, c: Client, id: nat, moves: seq<Move>, c1: Client, t: Task)
    returns (moves': seq<Move>, c2: Client)
    requires Paused(h, c, id, moves, c1, t) && t.todo == {} && !t.pull
    ensures Paused(h, c, id, moves', c2, t.(left := {})) && c2.cursor == c1.cursor
    decreases |t.left|
  {
    if t.left == {} {
      moves', c2 := moves, c1;
    } else {
      var m :| m in t.left;
      var q := LookUp(m, m in c1.archive);
      LookMove(h, c1, id, t, m);
      AfterSnoc(h, c, id, moves, h, c1, Reconciling(q));
      moves', c2 := LookUpAll(h, c, id, moves + [Reconciling(q)], ReconAct(h, c1, id, q), t.(left := t.left - {m}));
    }
  }

  // An inventory that has listed some of its realms.
  lemma Listing(h: Host, c: Client, id: nat, realms: set<Realm>, listed: set<Realm>, pull: bool, push: bool)
    returns (moves: seq<Move>, c': Client, t: Task)
    requires Fresh(c, id) && listed <= realms
    ensures Paused(h, c, id, moves, c', t) && t == Recon(realms - listed, None, t.inv, t.left, [], pull, push)
    ensures forall r :: CursorOf(c'.cursor, r) == if r in listed then |Bags(h, r)| else CursorOf(c.cursor, r)
  {
    var ask := Reconciling(AskAll(realms, pull, push));
    AfterSnoc(h, c, id, [], h, c, ask);
    var t0 := Recon(realms, None, map[], {}, [], pull, push);
    moves, c', t := ListSome(h, c, id, [] + [ask], To(c, id, t0), t0, listed);
  }

  // A client that only moved the cursors of these realms to the top.
  ghost predicate OnlyTopped(h: Host, c: Client, c': Client, realms: set<Realm>) {
    && c'.archive == c.archive && c'.downloads == c.downloads && c'.tasks == c.tasks
    && forall r :: CursorOf(c'.cursor, r) == if r in realms then |Bags(h, r)| else CursorOf(c.cursor, r)
  }

  // Every bag of these realms was archived, queued or held.
  ghost predicate AllCovered(h: Host, c: Client, realms: set<Realm>) {
    forall r, q :: r in realms && 0 <= q < |Bags(h, r)| ==> Covered(c, Bags(h, r)[q])
  }

  lemma ToppedSkips(h: Host, c: Client, c': Client, realms: set<Realm>)
    requires CursorsInv(h, c) && OnlyTopped(h, c, c', realms)
    ensures CursorsInv(h, c') <==> AllCovered(h, c, realms)
  {
    assert forall m :: Covered(c, m) <==> Covered(c', m);
    if CursorsInv(h, c') {
      forall r, q | r in realms && 0 <= q < |Bags(h, r)|
        ensures Covered(c, Bags(h, r)[q])
      {
        assert SafeUpTo(h, c', r, CursorOf(c'.cursor, r));
      }
    }
    if AllCovered(h, c, realms) {
      forall r
        ensures SafeUpTo(h, c', r, CursorOf(c'.cursor, r))
      {
        assert SafeUpTo(h, c, r, CursorOf(c.cursor, r));
      }
    }
  }

  // reconcileHost({pull: false}) alone: every listed realm's cursor goes to the
  // top, and nothing is archived or queued.
  lemma InventoryAlone(h: Host, c: Client, id: nat, realms: set<Realm>) returns (moves: seq<Move>, c': Client)
    requires Fresh(c, id)
    ensures After(h, c, id, moves) == Some((h, c')) && OnlyTopped(h, c, c', realms)
  {
    var m1, c1, t := Listing(h, c, id, realms, realms, false, false);
    var m2, c2 := LookUpAll(h, c, id, m1, c1, t);
    AfterSnoc(h, c, id, m2, h, c2, Reconciling(EnqMissing));
    moves, c' := m2 + [Reconciling(EnqMissing)], ReconAct(h, c2, id, EnqMissing);
    assert c'.tasks == c.tasks;
  }

  // Such an inventory skips no bag exactly when every bag it lists was
  // archived, queued or held before it began.
  lemma InventorySkips(h: Host, c: Client, id: nat, realms: set<Realm>) returns (moves: seq<Move>, c': Client)
    requires Fresh(c, id) && CursorsInv(h, c)
    ensures After(h, c, id, moves) == Some((h, c')) && OnlyTopped(h, c, c', realms)
    ensures CursorsInv(h, c') <==> AllCovered(h, c, realms)
  {
    moves, c' := InventoryAlone(h, c, id, realms);
    ToppedSkips(h, c, c', realms);
  }

  // An inventory that fails before its last realm, whether or not it pulls,
  // leaves the cursors of the realms it listed at their tops. It skips no bag
  // exactly when every bag of those realms was archived, queued or held.
  lemma InventoryStops(h: Host, c: Client, id: nat, realms: set<Realm>, listed: set<Realm>, pull: bool, push: bool)
    returns (moves: seq<Move>, c': Client)
    requires Fresh(c, id) && CursorsInv(h, c) && listed < realms
    ensures After(h, c, id, moves) == Some((h, c')) && OnlyTopped(h, c, c', listed)
    ensures CursorsInv(h, c') <==> AllCovered(h, c, listed)
  {
    var m1, c1, t := Listing(h, c, id, realms, listed, pull, push);
    var r :| r in realms && r !in listed;
    assert r in realms - listed;
    AfterSnoc(h, c, id, m1, h, c1, Reconciling(ListLost));
    moves, c' := m1 + [Reconciling(ListLost)], End(c1, id);
    assert c'.tasks == c.tasks;
    ToppedSkips(h, c, c', listed);
  }

  // A bag its new client never heard of: the inventory skips it for good,
  // since the next peek asks only for bags above the cursor.
  ghost predicate SkipsFirst(h: Host, r: Realm, c: Client) {
    && Bags(h, r) != [] && !Covered(c, Bags(h, r)[0])
    && PeekEnabled(h, c, 0, Ask(r, |Bags(h, r)|))
    && PeekAct(h, To(c, 0, PeekSent(r, |Bags(h, r)|)), 0, Reply) == c
  }

  lemma ToppedForGood(h: Host, r: Realm, c: Client)
    requires Bags(h, r) != [] && OnlyTopped(h, NewClient, c, {r})
    ensures SkipsFirst(h, r, c)
  {
    assert c.tasks == map[];
  }

  lemma SkippedBag(h: Host, r: Realm) returns (moves: seq<Move>, c': Client)
    requires Bags(h, r) != []
    ensures After(h, NewClient, 0, moves) == Some((h, c')) && SkipsFirst(h, r, c')
  {
    moves, c' := InventoryAlone(h, NewClient, 0, {r});
    ToppedForGood(h, r, c');
  }

  // The same with pull on, when the listing of a second realm fails.
  lemma StoppedBag(h: Host, r: Realm, other: Realm) returns (moves: seq<Move>, c': Client)
    requires Bags(h, r) != [] && other != r
    ensures After(h, NewClient, 0, moves) == Some((h, c')) && SkipsFirst(h, r, c')
  {
    assert other in {r, other} && other !in {r};
    moves, c' := InventoryStops(h, NewClient, 0, {r, other}, {r}, true, true);
    ToppedForGood(h, r, c');
  }
}
