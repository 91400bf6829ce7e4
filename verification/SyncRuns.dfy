// A handler running alone: a sequence of moves of one client with nothing in
// between, and how such a sequence extends a run of the whole system.

module SyncRuns {
  import opened Basics
  import opened Lww
  import opened Messages
  import opened SyncState
  import opened SyncInv
  import opened SyncSteps
  import opened SyncTheorems

  // The host and the client after these moves of handler id; None if one of
  // them was not enabled.
  function After(h: Host, c: Client, id: nat, moves: seq<Move>): Option<(Host, Client)>
    decreases |moves|
  {
    if moves == [] then Some((h, c))
    else
      match After(h, c, id, moves[..|moves| - 1])
      case None => None
      case Some((h1, c1)) =>
        var step := Step(id, moves[|moves| - 1]);
        if Enabled(h1, c1, step) then Some((HostAfter(h1, c1, step), Act(h1, c1, step))) else None
  }

  lemma AfterSnoc(h: Host, c: Client, id: nat, moves: seq<Move>, h1: Host, c1: Client, move: Move)
    requires After(h, c, id, moves) == Some((h1, c1)) && Enabled(h1, c1, Step(id, move))
    ensures After(h, c, id, moves + [move]) ==
            Some((HostAfter(h1, c1, Step(id, move)), Act(h1, c1, Step(id, move))))
  {
    assert (moves + [move])[..|moves|] == moves;
  }

  // A handler that runs alone keeps its client's invariant, wherever it stops.
  lemma {:induction false} AloneKeeps(h: Host, c: Client, id: nat, moves: seq<Move>)
    requires ClientInv(h, c) && After(h, c, id, moves).Some?
    ensures Kept(h, c, After(h, c, id, moves).value.0, After(h, c, id, moves).value.1)
    decreases |moves|
  {
    if moves != [] {
      var init := moves[..|moves| - 1];
      AloneKeeps(h, c, id, init);
      var (h1, c1) := After(h, c, id, init).value;
      var step := Step(id, moves[|moves| - 1]);
      StepKeeps(h1, c1, step);
      LaterTrans(h, c, h1, c1, HostAfter(h1, c1, step), Act(h1, c1, step));
    }
  }

  lemma Extend(n: nat, states: seq<System>, events: seq<Event>, e: Event) returns (states': seq<System>)
    requires Run(n, states, events) && CanStep(states[|events|], e)
    ensures Run(n, states', events + [e])
    ensures states' == states + [StepTo(states[|events|], e)]
  {
    states' := states + [StepTo(states[|events|], e)];
  }

  function EventsOf(who: nat, id: nat, moves: seq<Move>): seq<Event> {
    seq(|moves|, k requires 0 <= k < |moves| => Event(who, Step(id, moves[k])))
  }

  function With(s: System, who: nat, h: Host, c: Client): System
    requires who < |s.clients|
  {
    System(h, s.clients[who := c])
  }

  lemma EventAct(s: System, who: nat, h: Host, c: Client, step: Step)
    requires who < |s.clients| && Enabled(h, c, step)
    ensures CanStep(With(s, who, h, c), Event(who, step))
    ensures StepTo(With(s, who, h, c), Event(who, step)) == With(s, who, HostAfter(h, c, step), Act(h, c, step))
  {
  }

  lemma EventsSnoc(events: seq<Event>, who: nat, id: nat, moves: seq<Move>)
    requires moves != []
    ensures var m := |moves| - 1;
            events + EventsOf(who, id, moves) ==
            events + EventsOf(who, id, moves[..m]) + [Event(who, Step(id, moves[m]))]
  {
  }

  // Client who's next moves, put at the end of a run.
  lemma {:induction false} Alone(n: nat, states: seq<System>, events: seq<Event>, who: nat, id: nat, moves: seq<Move>)
    returns (states': seq<System>)
    requires Run(n, states, events) && who < |states[|events|].clients|
    requires After(states[|events|].host, states[|events|].clients[who], id, moves).Some?
    ensures Run(n, states', events + EventsOf(who, id, moves))
    ensures var (h, c) := After(states[|events|].host, states[|events|].clients[who], id, moves).value;
            states'[|events| + |moves|] == With(states[|events|], who, h, c)
    decreases |moves|
  {
    var s := states[|events|];
    if moves == [] {
      states' := states;
      assert events + EventsOf(who, id, moves) == events;
      assert s.clients[who := s.clients[who]] == s.clients;
    } else {
      var m := |moves| - 1;
      var before := Alone(n, states, events, who, id, moves[..m]);
      var (h1, c1) := After(s.host, s.clients[who], id, moves[..m]).value;
      EventAct(s, who, h1, c1, Step(id, moves[m]));
      states' := Extend(n, before, events + EventsOf(who, id, moves[..m]), Event(who, Step(id, moves[m])));
      EventsSnoc(events, who, id, moves);
    }
  }

  /* ---- A write and a drain that run alone ---- */

  function WriteMoves(parts: seq<Msg>, r: Realm): seq<Move> {
    [Writing(Kick(parts, r)), Writing(RunOps), Writing(Add), Writing(MarkStats), Writing(QueueUpload)]
  }

  // What a local write leaves behind.
  function Written(c: Client, parts: seq<Msg>, r: Realm): Client {
    Exec(c, parts).(
      archive := Mark(Archive(c.archive, AsRows(parts, r)), parts),
      uploads := c.uploads + AckedOf(parts),
      stranded := c.stranded + ((set m | m in parts) - AckedOf(parts)))
  }

  // The write after its first n moves.
  function WriteUpTo(c: Client, id: nat, parts: seq<Msg>, r: Realm, n: nat): Client
    requires n <= 4
  {
    var ran := if n < 2 then c else Exec(c, parts);
    var rows := Archive(c.archive, AsRows(parts, r));
    match n
    case 0 => c
    case 1 => To(c, id, Write(parts, r, false, Kicked))
    case 2 => To(ran, id, Write(parts, r, true, Kicked))
    case 3 => To(ran.(archive := rows), id, Write(parts, r, true, Archived))
    case _ => To(ran.(archive := Mark(rows, parts)), id, Write(parts, r, true, Marked))
  }

  // One move of the write, from one of its pauses to the next.
  ghost predicate Moves(c1: Client, id: nat, w: WriteMove, c2: Client) {
    WriteEnabled(c1, id, w) && WriteAct(c1, id, w) == c2
  }

  lemma RunMove(c: Client, c1: Client, id: nat, parts: seq<Msg>, r: Realm)
    requires c1 == To(c, id, Write(parts, r, false, Kicked))
    ensures Moves(c1, id, RunOps, To(Exec(c, parts), id, Write(parts, r, true, Kicked)))
  {
  }

  lemma AddMove(c1: Client, id: nat, parts: seq<Msg>, r: Realm)
    requires id in c1.tasks && c1.tasks[id] == Write(parts, r, true, Kicked)
    ensures Moves(c1, id, Add, To(c1.(archive := Archive(c1.archive, AsRows(parts, r))), id, Write(parts, r, true, Archived)))
  {
  }

  lemma MarkMove(c1: Client, id: nat, parts: seq<Msg>, r: Realm)
    requires id in c1.tasks && c1.tasks[id] == Write(parts, r, true, Archived)
    ensures Moves(c1, id, MarkStats, To(c1.(archive := Mark(c1.archive, parts)), id, Write(parts, r, true, Marked)))
  {
  }

  lemma WriteLast(c: Client, id: nat, parts: seq<Msg>, r: Realm)
    requires WriteEnabled(c, id, Kick(parts, r))
    ensures WriteEnabled(WriteUpTo(c, id, parts, r, 4), id, QueueUpload)
    ensures WriteAct(WriteUpTo(c, id, parts, r, 4), id, QueueUpload) == Written(c, parts, r)
  {
    var last := WriteAct(WriteUpTo(c, id, parts, r, 4), id, QueueUpload);
    assert last.tasks == c.tasks;
  }

  lemma WriteHalfWay(h: Host, c: Client, id: nat, parts: seq<Msg>, r: Realm)
    requires WriteEnabled(c, id, Kick(parts, r))
    ensures After(h, c, id, WriteMoves(parts, r)[..2]) == Some((h, WriteUpTo(c, id, parts, r, 2)))
  {
    var (moves, c1) := (WriteMoves(parts, r), WriteUpTo(c, id, parts, r, 1));
    WriteOne(h, c, id, [], c, Kick(parts, r), c1);
    RunMove(c, c1, id, parts, r);
    WriteOne(h, c, id, [moves[0]], c1, RunOps, WriteUpTo(c, id, parts, r, 2));
    assert [] + [moves[0]] == [moves[0]] && [moves[0]] + [moves[1]] == moves[..2];
  }

  lemma AddsRows(c: Client, id: nat, parts: seq<Msg>, r: Realm)
    requires WriteEnabled(c, id, Kick(parts, r))
    ensures Moves(WriteUpTo(c, id, parts, r, 2), id, Add, WriteUpTo(c, id, parts, r, 3))
  {
    AddMove(WriteUpTo(c, id, parts, r, 2), id, parts, r);
  }

  lemma MarksRows(c: Client, id: nat, parts: seq<Msg>, r: Realm)
    requires WriteEnabled(c, id, Kick(parts, r))
    ensures Moves(WriteUpTo(c, id, parts, r, 3), id, MarkStats, WriteUpTo(c, id, parts, r, 4))
  {
    MarkMove(WriteUpTo(c, id, parts, r, 3), id, parts, r);
  }

  lemma WriteSoFar(h: Host, c: Client, id: nat, parts: seq<Msg>, r: Realm)
    requires WriteEnabled(c, id, Kick(parts, r))
    ensures After(h, c, id, WriteMoves(parts, r)[..2] + [Writing(Add)] + [Writing(MarkStats)]) ==
            Some((h, WriteUpTo(c, id, parts, r, 4)))
  {
    var moves := WriteMoves(parts, r)[..2];
    WriteHalfWay(h, c, id, parts, r);
    AddsRows(c, id, parts, r);
    WriteOne(h, c, id, moves, WriteUpTo(c, id, parts, r, 2), Add, WriteUpTo(c, id, parts, r, 3));
    MarksRows(c, id, parts, r);
    WriteOne(h, c, id, moves + [Writing(Add)], WriteUpTo(c, id, parts, r, 3), MarkStats, WriteUpTo(c, id, parts, r, 4));
  }

  lemma WriteOne(h: Host, c: Client, id: nat, moves: seq<Move>, c1: Client, w: WriteMove, c2: Client)
    requires After(h, c, id, moves) == Some((h, c1)) && Moves(c1, id, w, c2)
    ensures After(h, c, id, moves + [Writing(w)]) == Some((h, c2))
  {
    AfterSnoc(h, c, id, moves, h, c1, Writing(w));
  }

  lemma WriteAlone(h: Host, c: Client, id: nat, parts: seq<Msg>, r: Realm)
    requires WriteEnabled(c, id, Kick(parts, r))
    ensures After(h, c, id, WriteMoves(parts, r)) == Some((h, Written(c, parts, r)))
  {
    var moves := WriteMoves(parts, r);
    WriteSoFar(h, c, id, parts, r);
    WriteLast(c, id, parts, r);
    assert moves[..2] + [Writing(Add)] + [Writing(MarkStats)] == moves[..4];
    assert moves[..4] + [moves[4]] == moves;
    AfterSnoc(h, c, id, moves[..4], h, WriteUpTo(c, id, parts, r, 4), moves[4]);
  }

  // A write queues every message that parses exactly when its failures come
  // last. Messages of one write are distinct: each has its own eid and ctr.
  lemma WriteQueuesAll(c: Client, parts: seq<Msg>, r: Realm)
    requires forall i, j :: 0 <= i < j < |parts| ==> parts[i] != parts[j]
    requires forall m :: m in parts ==> m !in c.uploads
    ensures (forall m :: m in parts && Good(m) ==> m in Written(c, parts, r).uploads) <==> FailuresLast(parts)
  {
    AllAckedExactly(parts);
    if FailuresLast(parts) {
      forall m | m in parts && Good(m)
        ensures m in AckedOf(parts)
      {
        var i :| 0 <= i < |parts| && parts[i] == m;
        assert Acked(parts, i);
      }
    } else {
      var i: nat :| i < |parts| && Good(parts[i]) && !Acked(parts, i);
      assert parts[i] !in AckedOf(parts);
    }
  }

  function DrainMoves(batch: seq<Msg>): seq<Move> { [Draining(ListPending(batch)), Draining(RunDrain), Draining(MarkDrain)] }

  function Drained(c: Client, batch: seq<Msg>): Client { Exec(c, batch).(archive := Mark(c.archive, batch)) }

  lemma DrainAlone(h: Host, c: Client, id: nat, batch: seq<Msg>)
    requires DrainEnabled(c, id, ListPending(batch))
    ensures After(h, c, id, DrainMoves(batch)) == Some((h, Drained(c, batch)))
  {
    var moves := DrainMoves(batch);
    var c1 := To(c, id, Drain(batch, false));
    var c2 := To(Exec(c, batch), id, Drain(batch, true));
    AfterSnoc(h, c, id, [], h, c, moves[0]);
    assert [] + [moves[0]] == moves[..1];
    assert DrainAct(c1, id, RunDrain) == c2;
    AfterSnoc(h, c, id, moves[..1], h, c1, moves[1]);
    assert moves[..1] + [moves[1]] == moves[..2];
    assert DrainAct(c2, id, MarkDrain).tasks == c.tasks;
    AfterSnoc(h, c, id, moves[..2], h, c2, moves[2]);
    assert moves[..2] + [moves[2]] == moves;
  }
}
