// CoalesceTail (web/src/coalesce.ts) as an event-step machine: callers ask
// for work, passes of work begin and end, and a history says which pass each
// caller was answered with.

module Coalesce {
  import opened Basics

  // A caller of run(): when it called, and the drain whose promise it holds.
  datatype Caller = Caller(at: nat, drain: nat)

  datatype Tail = Tail(
    inflight: bool,
    again: bool,
    // The first pass of a drain has been called, but has not yet yielded; the
    // promise is stored only then.
    starting: bool,
    // Passes running now.
    active: nat,
    // History: the clock, when each pass began and in which drain, and the
    // callers so far; for each drain that is over, the pass it ended with.
    clock: nat,
    drain: nat,
    begun: seq<nat>,
    callers: seq<Caller>,
    ended: map<nat, nat>)

  const IDLE := Tail(false, false, false, 0, 1, 0, [], [], map[])

  datatype Event =
    | Call
    | Yield
    | PassOk
    | PassFail

  predicate CanHappen(t: Tail, e: Event) {
    match e
    case Call => true
    case Yield => t.starting
    case PassOk => t.active > 0 && !t.starting && t.begun != []
    case PassFail => t.active > 0 && !t.starting
  }

  function Begin(t: Tail): Tail { t.(again := false, active := t.active + 1, begun := t.begun + [t.clock]) }

  function Act(t0: Tail, e: Event): Tail
    requires CanHappen(t0, e)
  {
    var t := t0.(clock := t0.clock + 1);
    match e
    case Call =>
      // Demand is marked first; a drain that begins takes it at once.
      if t.inflight then t.(again := true, callers := t.callers + [Caller(t.clock, t.drain)])
      else Begin(t.(starting := true, drain := t.drain + 1, callers := t.callers + [Caller(t.clock, t.drain + 1)]))
    case Yield => t.(starting := false, inflight := true)
    case PassOk =>
      var t1 := t.(active := t.active - 1);
      if t1.again then Begin(t1)
      else t1.(inflight := false, ended := t1.ended[t1.drain := |t1.begun| - 1])
    case PassFail => t.(active := t.active - 1, inflight := false)
  }

  ghost predicate Run(states: seq<Tail>, events: seq<Event>) {
    && |states| == |events| + 1 && states[0] == IDLE
    && forall i :: 0 <= i < |events| ==> CanHappen(states[i], events[i]) && states[i + 1] == Act(states[i], events[i])
  }

  // Work yields before it calls back: no call comes while one is starting.
  predicate YieldsFirst(states: seq<Tail>, events: seq<Event>)
    requires |states| == |events| + 1
  {
    forall i :: 0 <= i < |events| && events[i] == Call ==> !states[i].starting
  }

  /* ---- Invariant ---- */

  ghost predicate Inv(t: Tail) {
    && t.active <= 1
    && (t.active == 1 <==> t.inflight || t.starting)
    && !(t.inflight && t.starting)
    && (t.starting ==> !t.again)
    && (forall i :: 0 <= i < |t.begun| ==> t.begun[i] <= t.clock)
    && (forall i, j :: 0 <= i < j < |t.begun| ==> t.begun[i] < t.begun[j])
    && (t.active == 1 ==> t.begun != [])
    && (forall c :: c in t.callers ==> c.at <= t.clock && c.drain <= t.drain)
    // Callers of the drain under way: the current pass is late enough, or
    // there will be another.
    && (t.active == 1 ==> forall c :: c in t.callers && c.drain == t.drain ==> c.at <= t.begun[|t.begun| - 1] || t.again)
    // Each pass answers a call that came after the pass before it began.
    && (forall i :: 1 <= i < |t.begun| ==> Demanded(t, t.begun[i - 1], t.begun[i]))
    && (t.again && t.active == 1 ==> Demanded(t, t.begun[|t.begun| - 1], t.clock))
    // Drains that are over ended with a pass no older than any of their calls.
    && (forall d :: d in t.ended ==> d <= t.drain && t.ended[d] < |t.begun| && (t.active == 1 ==> d < t.drain))
    && (forall c :: c in t.callers && c.drain in t.ended ==> c.at <= t.begun[t.ended[c.drain]])
  }

  // Some call came after from, and by to.
  ghost predicate Demanded(t: Tail, from: nat, to: nat) {
    exists k :: 0 <= k < |t.callers| && from < t.callers[k].at <= to
  }

  lemma DemandedLater(t: Tail, t': Tail, from: nat, to: nat, to': nat)
    requires Demanded(t, from, to) && t.callers <= t'.callers && to <= to'
    ensures Demanded(t', from, to')
  {
    var k :| 0 <= k < |t.callers| && from < t.callers[k].at <= to;
    assert t'.callers[k] == t.callers[k];
  }

  lemma CallKeeps(t: Tail)
    requires Inv(t) && !t.starting
    ensures Inv(Act(t, Call))
  {
    if t.inflight {
      CallJoins(t);
    } else {
      CallBegins(t);
    }
  }

  // A call during a pass asks for another one.
  lemma CallJoins(t: Tail)
    requires Inv(t) && t.inflight
    ensures Inv(Act(t, Call))
  {
    var t' := Act(t, Call);
    assert t'.callers[|t.callers|].at == t'.clock;
    forall i | 1 <= i < |t.begun|
      ensures Demanded(t', t.begun[i - 1], t.begun[i])
    {
      DemandedLater(t, t', t.begun[i - 1], t.begun[i], t.begun[i]);
    }
  }

  // A call when nothing runs begins a pass.
  lemma CallBegins(t: Tail)
    requires Inv(t) && !t.inflight && !t.starting
    ensures Inv(Act(t, Call))
  {
    var t' := Act(t, Call);
    assert t'.callers[|t.callers|].at == t'.clock;
    forall i | 1 <= i < |t'.begun|
      ensures Demanded(t', t'.begun[i - 1], t'.begun[i])
    {
      if i < |t.begun| { DemandedLater(t, t', t.begun[i - 1], t.begun[i], t.begun[i]); }
    }
  }

  lemma PassOkKeeps(t: Tail)
    requires Inv(t) && CanHappen(t, PassOk)
    ensures Inv(Act(t, PassOk))
  {
    var t' := Act(t, PassOk);
    if t.again { DemandedLater(t, t', t.begun[|t.begun| - 1], t.clock, t'.clock); }
    forall i | 1 <= i < |t'.begun|
      ensures Demanded(t', t'.begun[i - 1], t'.begun[i])
    {
      if i < |t.begun| { DemandedLater(t, t', t.begun[i - 1], t.begun[i], t.begun[i]); }
    }
  }

  lemma RestKeeps(t: Tail, e: Event)
    requires Inv(t) && CanHappen(t, e) && (e == Yield || e == PassFail)
    ensures Inv(Act(t, e))
  {
    var t' := Act(t, e);
    forall i | 1 <= i < |t'.begun|
      ensures Demanded(t', t'.begun[i - 1], t'.begun[i])
    {
      DemandedLater(t, t', t.begun[i - 1], t.begun[i], t.begun[i]);
    }
  }

  lemma EventKeeps(t: Tail, e: Event)
    requires Inv(t) && CanHappen(t, e) && (e == Call ==> !t.starting)
    ensures Inv(Act(t, e))
  {
    match e
    case Call => CallKeeps(t);
    case PassOk => PassOkKeeps(t);
    case Yield => RestKeeps(t, e);
    case PassFail => RestKeeps(t, e);
  }

  lemma {:induction false} RunKeeps(states: seq<Tail>, events: seq<Event>, i: nat)
    requires Run(states, events) && YieldsFirst(states, events) && i < |states|
    ensures Inv(states[i])
    decreases i
  {
    if i > 0 {
      RunKeeps(states, events, i - 1);
      EventKeeps(states[i - 1], events[i - 1]);
    }
  }

  /* ---- Along every run ---- */

  // At most one pass runs at any time.
  lemma OnePassAtATime(states: seq<Tail>, events: seq<Event>, i: nat)
    requires Run(states, events) && YieldsFirst(states, events) && i < |states|
    ensures states[i].active <= 1
  {
    RunKeeps(states, events, i);
  }

  // A caller whose drain is over was answered by a pass that began no earlier
  // than the call.
  lemma AnswerIsFresh(states: seq<Tail>, events: seq<Event>, i: nat, c: Caller)
    requires Run(states, events) && YieldsFirst(states, events) && i < |states|
    requires c in states[i].callers && c.drain in states[i].ended
    ensures states[i].ended[c.drain] < |states[i].begun|
    ensures c.at <= states[i].begun[states[i].ended[c.drain]]
  {
    RunKeeps(states, events, i);
  }

  predicate NeverFails(events: seq<Event>) { forall i :: 0 <= i < |events| ==> events[i] != PassFail }

  // With nothing running and no failure, every caller has been answered.
  lemma {:induction false} EveryoneAnswered(states: seq<Tail>, events: seq<Event>, i: nat)
    requires Run(states, events) && YieldsFirst(states, events) && NeverFails(events) && i < |states|
    ensures forall c :: c in states[i].callers ==>
              c.drain in states[i].ended || (states[i].active == 1 && c.drain == states[i].drain)
    decreases i
  {
    if i > 0 {
      EveryoneAnswered(states, events, i - 1);
      RunKeeps(states, events, i - 1);
    }
  }

  // However many calls come during one pass, they cause at most one more: a
  // pass begins only if a call came since the pass before it began.
  lemma OneFurtherPass(states: seq<Tail>, events: seq<Event>, i: nat, p: nat)
    requires Run(states, events) && YieldsFirst(states, events) && i < |states| && p + 1 < |states[i].begun|
    ensures states[i].begun[p] < states[i].begun[p + 1]
    ensures exists k :: 0 <= k < |states[i].callers| && states[i].begun[p] < states[i].callers[k].at <= states[i].begun[p + 1]
  {
    RunKeeps(states, events, i);
    assert Demanded(states[i], states[i].begun[p + 1 - 1], states[i].begun[p + 1]);
  }

  // The first call that comes while a drain is starting begins a second pass.
  lemma CallBackTooSoon(states: seq<Tail>, events: seq<Event>, i: nat)
    requires Run(states, events) && i < |events| && events[i] == Call && states[i].starting
    requires forall k :: 0 <= k < i && events[k] == Call ==> !states[k].starting
    ensures states[i + 1].active == 2
  {
    var before, calls := states[..i + 1], events[..i];
    assert Run(before, calls) && YieldsFirst(before, calls);
    RunKeeps(before, calls, i);
  }

  lemma {:induction false} FirstTooSoon(states: seq<Tail>, events: seq<Event>, n: nat) returns (i: nat)
    requires |states| == |events| + 1 && n < |events| && events[n] == Call && states[n].starting
    ensures i <= n && events[i] == Call && states[i].starting
    ensures forall k :: 0 <= k < i && events[k] == Call ==> !states[k].starting
    decreases n
  {
    if k :| 0 <= k < n && events[k] == Call && states[k].starting {
      i := FirstTooSoon(states, events, k);
    } else {
      i := n;
    }
  }

  // At most one pass runs at a time exactly when the work never calls back
  // before it has yielded.
  lemma OverlapExactly(states: seq<Tail>, events: seq<Event>)
    requires Run(states, events)
    ensures (forall i :: 0 <= i < |states| ==> states[i].active <= 1) <==> YieldsFirst(states, events)
  {
    if YieldsFirst(states, events) {
      forall i | 0 <= i < |states|
        ensures states[i].active <= 1
      {
        OnePassAtATime(states, events, i);
      }
    } else {
      var n :| 0 <= n < |events| && events[n] == Call && states[n].starting;
      var i := FirstTooSoon(states, events, n);
      CallBackTooSoon(states, events, i);
    }
  }

  /* ---- The object ---- */

  // The two fields and their updates between awaits. answered: what the
  // stretch of code does next.
  datatype Next = BeginPass | Resolve | Reject | Join

  class CoalesceTail {
    var inflight: bool
    var again: bool

    constructor ()
      ensures !inflight && !again
    {
      inflight, again := false, false;
    }

    ghost predicate Shows(t: Tail)
      reads this
    {
      inflight == t.inflight && again == t.again
    }

    // run(), up to the work it may call.
    method Run(ghost t: Tail) returns (next: Next)
      requires Shows(t)
      modifies this
      ensures Shows(Act(t, Call)) && next == (if t.inflight then Join else BeginPass)
      ensures next.BeginPass? <==> |Act(t, Call).begun| == |t.begun| + 1
    {
      again := true;
      if inflight { return Join; }
      again := false;
      next := BeginPass;
    }

    // The promise of the drain is stored once the first pass has yielded.
    method Yielded(ghost t: Tail)
      requires Shows(t) && CanHappen(t, Event.Yield)
      modifies this
      ensures Shows(Act(t, Event.Yield))
    {
      inflight := true;
    }

    // drain, when a pass is over.
    method PassDone(ghost t: Tail, ok: bool) returns (next: Next)
      requires Shows(t) && CanHappen(t, PassOk)
      modifies this
      ensures Shows(Act(t, if ok then PassOk else PassFail))
      ensures next == if !ok then Reject else if t.again then BeginPass else Resolve
    {
      if ok && again {
        again := false;
        return BeginPass;
      }
      inflight := false;
      next := if ok then Resolve else Reject;
    }
  }
}
