// Messages, the ops they stand for, and how a batch of apply statuses is laid
// back over a batch of messages (web/src/state.ts).

module Messages {
  import opened Basics
  import opened Lww

  // A message body as entCodec reads it. An empty body is a missing one.
  datatype Body =
    | NoBody
    | EntBody(raw: seq<byte>, pid: Option<seq<byte>>, tags: seq<string>, bytes: Option<seq<byte>>)
    | BadBody(raw: seq<byte>, status: Failure)

  datatype Msg = Msg(eid: Eid, off: nat, ctr: nat, typ: string, body: Body)

  // A missing body is a delete.
  function MsgToOp(m: Msg): Result<Op> {
    match m.body
    case NoBody => Ok(Op(m.eid, m.off, m.ctr, None))
    case EntBody(_, pid, tags, bytes) => Ok(Op(m.eid, m.off, m.ctr, Some(Content(m.typ, pid, tags, bytes))))
    case BadBody(_, status) => Err(status)
  }

  predicate Good(m: Msg) { MsgToOp(m).Ok? }

  // The op has the message's eid, offset and counter, and is a delete exactly
  // when the message has no body; else its content is the message's type and
  // what its body parsed to.
  predicate Carries(op: Op, m: Msg) {
    && op.eid == m.eid && op.off == m.off && op.ctr == m.ctr
    && (op.mutation.None? <==> m.body.NoBody?)
    && (op.mutation.Some? ==>
          && m.body.EntBody? && op.mutation.value.typ == m.typ && op.mutation.value.pid == m.body.pid
          && op.mutation.value.tags == m.body.tags && op.mutation.value.body == m.body.bytes)
  }

  // A message gives an op exactly when its body parses, and the op carries it.
  lemma OpCarries(m: Msg)
    ensures MsgToOp(m).Ok? <==> !m.body.BadBody?
    ensures MsgToOp(m).Ok? ==> Carries(MsgToOp(m).value, m)
    ensures MsgToOp(m).Err? ==> MsgToOp(m).status == m.body.status
  {
  }

  // The ops handed to the applier: the messages that parse, in order.
  function OpsOf(msgs: seq<Msg>): (ops: seq<Op>)
    ensures |ops| == Rank(msgs, |msgs|)
    decreases |msgs|
  {
    if msgs == [] then []
    else
      var init, m := msgs[..|msgs| - 1], msgs[|msgs| - 1];
      RankPrefix(msgs, |msgs| - 1);
      OpsOf(init) + (if Good(m) then [MsgToOp(m).value] else [])
  }

  // How many of the first i messages parse.
  function Rank(msgs: seq<Msg>, i: nat): (n: nat)
    requires i <= |msgs|
    ensures n <= i
  {
    if i == 0 then 0 else Rank(msgs, i - 1) + (if Good(msgs[i - 1]) then 1 else 0)
  }

  lemma {:induction false} RankPrefix(msgs: seq<Msg>, i: nat)
    requires i <= |msgs|
    ensures forall n :: i <= n <= |msgs| ==> Rank(msgs[..n], i) == Rank(msgs, i)
  {
    if i > 0 { RankPrefix(msgs, i - 1); }
  }

  lemma {:induction false} RankMonotone(msgs: seq<Msg>, i: nat, j: nat)
    requires i <= j <= |msgs|
    ensures Rank(msgs, i) <= Rank(msgs, j)
    ensures j - i >= Rank(msgs, j) - Rank(msgs, i)
    decreases j
  {
    if i < j { RankMonotone(msgs, i, j - 1); }
  }

  lemma {:induction false} OpAtRank(msgs: seq<Msg>, i: nat)
    requires i < |msgs| && Good(msgs[i])
    ensures Rank(msgs, i) < |OpsOf(msgs)| && OpsOf(msgs)[Rank(msgs, i)] == MsgToOp(msgs[i]).value
    decreases |msgs|
  {
    var init := msgs[..|msgs| - 1];
    if i < |init| {
      OpAtRank(init, i);
      RankPrefix(msgs, i);
    } else {
      RankPrefix(msgs, i);
    }
  }

  // StateManager.apply: a message that does not parse reports its parse
  // status; every other one reads the applier's statuses at its own index in
  // the batch of messages, not in the batch of ops. None: no such status.
  function Align(msgs: seq<Msg>, stats: seq<Status>): (out: seq<Option<Status>>)
  {
    seq(|msgs|, i requires 0 <= i < |msgs| =>
      match MsgToOp(msgs[i])
      case Err(status) => Some(status)
      case Ok(_) => if i < |stats| then Some(stats[i]) else None)
  }

  // The parse loop and the alignment loop around the applier call.
  method CollectOps(msgs: seq<Msg>) returns (ops: seq<Op>, parseStats: seq<Status>)
    ensures ops == OpsOf(msgs)
    ensures forall i: nat :: i < |msgs| && !msgs[i].body.BadBody? ==>
              Rank(msgs, i) < |ops| && Carries(ops[Rank(msgs, i)], msgs[i])
    ensures |parseStats| == |msgs|
    ensures forall i :: 0 <= i < |msgs| ==> parseStats[i] == (match MsgToOp(msgs[i]) case Ok(_) => Success case Err(st) => st)
  {
    ops, parseStats := [], [];
    for n := 0 to |msgs|
      invariant ops == OpsOf(msgs[..n])
      invariant |parseStats| == n
      invariant forall i :: 0 <= i < n ==> parseStats[i] == (match MsgToOp(msgs[i]) case Ok(_) => Success case Err(st) => st)
    {
      assert msgs[..n + 1][..n] == msgs[..n];
      match MsgToOp(msgs[n])
      case Err(status) =>
        parseStats := parseStats + [status];
      case Ok(op) =>
        parseStats := parseStats + [Success];
        ops := ops + [op];
    }
    assert msgs[..|msgs|] == msgs;
    forall i: nat | i < |msgs| && !msgs[i].body.BadBody?
      ensures Rank(msgs, i) < |ops| && Carries(ops[Rank(msgs, i)], msgs[i])
    {
      OpAtRank(msgs, i);
      OpCarries(msgs[i]);
    }
  }

  method AlignStats(msgs: seq<Msg>, parseStats: seq<Status>, applyStats: seq<Status>) returns (results: seq<Option<Status>>)
    requires |parseStats| == |msgs|
    requires forall i :: 0 <= i < |msgs| ==> parseStats[i] == (match MsgToOp(msgs[i]) case Ok(_) => Success case Err(st) => st)
    ensures results == Align(msgs, applyStats)
    ensures |results| == |msgs|
    ensures forall i :: 0 <= i < |msgs| ==>
              results[i] == if msgs[i].body.BadBody? then Some(msgs[i].body.status)
                            else if i < |applyStats| then Some(applyStats[i]) else None
  {
    results := [];
    for i := 0 to |msgs|
      invariant results == Align(msgs, applyStats)[..i]
    {
      var applyStat := if i < |applyStats| then Some(applyStats[i]) else None;
      if parseStats[i] != Success {
        results := results + [Some(parseStats[i])];
      } else if applyStat != Some(Success) {
        results := results + [applyStat];
      } else {
        results := results + [Some(Success)];
      }
    }
  }

  // No message that parses comes after one that does not.
  predicate FailuresLast(msgs: seq<Msg>) {
    forall i, j :: 0 <= i < j < |msgs| && Good(msgs[j]) ==> Good(msgs[i])
  }

  lemma {:induction false} FailuresLastRank(msgs: seq<Msg>, i: nat)
    requires FailuresLast(msgs) && i <= |msgs| && (i == 0 || Good(msgs[i - 1]))
    ensures Rank(msgs, i) == i
  {
    if i > 0 { FailuresLastRank(msgs, i - 1); }
  }

  // Every message reports its own op's status, whatever the statuses are,
  // exactly when the failures come last in the batch.
  lemma AlignedExactly(msgs: seq<Msg>)
    ensures (forall stats: seq<Status>, i: nat ::
               |stats| == |OpsOf(msgs)| && i < |msgs| && Good(msgs[i]) ==>
                 Rank(msgs, i) < |stats| && Align(msgs, stats)[i] == Some(stats[Rank(msgs, i)]))
            <==> FailuresLast(msgs)
  {
    if FailuresLast(msgs) {
      forall stats: seq<Status>, i: nat | |stats| == |OpsOf(msgs)| && i < |msgs| && Good(msgs[i])
        ensures Rank(msgs, i) < |stats| && Align(msgs, stats)[i] == Some(stats[Rank(msgs, i)])
      {
        OpAtRank(msgs, i);
        FailuresLastRank(msgs, i + 1);
      }
    } else {
      var i, j :| 0 <= i < j < |msgs| && Good(msgs[j]) && !Good(msgs[i]);
      OpAtRank(msgs, j);
      BadBeforeGood(msgs, i, j);
      var n := |OpsOf(msgs)|;
      var stats := seq(n, k => if k == Rank(msgs, j) then Success else NoChange);
      assert Align(msgs, stats)[j] != Some(stats[Rank(msgs, j)]);
    }
  }

  lemma BadBeforeGood(msgs: seq<Msg>, i: nat, j: nat)
    requires i < j < |msgs| && !Good(msgs[i]) && Good(msgs[j])
    ensures Rank(msgs, j) < j
  {
    RankMonotone(msgs, 0, i);
    RankMonotone(msgs, i + 1, j);
  }

  // Positions whose status is Success or NoChange when the applier succeeds.
  predicate Acked(msgs: seq<Msg>, i: nat) {
    i < |msgs| && Good(msgs[i]) && i < |OpsOf(msgs)|
  }

  lemma AckedIsOkStatus(msgs: seq<Msg>, stats: seq<Status>, i: nat)
    requires |stats| == |OpsOf(msgs)| && i < |msgs|
    requires forall k :: 0 <= k < |stats| ==> stats[k] == Success || stats[k] == NoChange
    requires forall m :: m in msgs && MsgToOp(m).Err? ==> MsgToOp(m).status != NoChange
    ensures Acked(msgs, i) <==> Align(msgs, stats)[i] == Some(Success) || Align(msgs, stats)[i] == Some(NoChange)
  {
    assert msgs[i] in msgs;
  }

  // A batch acknowledges every message that parses exactly when its failures
  // come last; the others are neither marked applied nor queued for upload.
  lemma AllAckedExactly(msgs: seq<Msg>)
    ensures (forall i: nat :: i < |msgs| && Good(msgs[i]) ==> Acked(msgs, i)) <==> FailuresLast(msgs)
  {
    if FailuresLast(msgs) {
      forall i: nat | i < |msgs| && Good(msgs[i])
        ensures Acked(msgs, i)
      {
        OpAtRank(msgs, i);
        FailuresLastRank(msgs, i + 1);
      }
    } else {
      var i, j :| 0 <= i < j < |msgs| && Good(msgs[j]) && !Good(msgs[i]);
      // The last message that parses has at most |OpsOf| - 1 parsing before it.
      var last := LastGood(msgs, j);
      BadBeforeGood(msgs, i, last);
      RankTail(msgs, last + 1);
    }
  }

  lemma {:induction false} RankTail(msgs: seq<Msg>, i: nat)
    requires i <= |msgs| && forall k :: i <= k < |msgs| ==> !Good(msgs[k])
    ensures Rank(msgs, |msgs|) == Rank(msgs, i)
    decreases |msgs| - i
  {
    if i < |msgs| { RankTail(msgs, i + 1); }
  }

  lemma {:induction false} LastGood(msgs: seq<Msg>, j: nat) returns (last: nat)
    requires j < |msgs| && Good(msgs[j])
    ensures j <= last < |msgs| && Good(msgs[last]) && forall k :: last < k < |msgs| ==> !Good(msgs[k])
    decreases |msgs| - j
  {
    if k :| j < k < |msgs| && Good(msgs[k]) {
      last := LastGood(msgs, k);
    } else {
      last := j;
    }
  }
}
