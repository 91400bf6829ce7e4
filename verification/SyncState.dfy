// The sync protocol as a step system: one honest host and any number of
// clients (web/src/sync.ts, web/src/client.ts). Every handler is split at its
// awaits, so the steps of several handlers of one client interleave freely.
// A message stands for its own archive key: with a collision-free hash the
// two determine each other (KeyIsIdentity in module Sealing).

module SyncState {
  import opened Basics
  import opened Lww
  import opened Messages
  import opened PushItems

  type Realm = nat

  datatype Apld = Pending | Applied | Failed
  datatype ArchRow = ArchRow(apld: Apld, realm: Realm)

  // A download-queue row, or one item of a peek: a bag and its message.
  datatype Dl = Dl(realm: Realm, seqno: nat, msg: Msg)

  // One bag of a notification. inline: the body came along, or is empty.
  datatype Notice = Notice(realm: Realm, seqno: nat, inline: bool)

  // Host bags per realm, in sequence order: the bag with seq n is at n - 1.
  type Host = map<Realm, seq<Msg>>

  // A running handler, at one of its awaits.
  datatype Task =
    // SyncClient.apply: state.apply was kicked; archive, mark and enqueue follow.
    | Write(parts: seq<Msg>, realm: Realm, ran: bool, at: WriteAt)
    // doDrainApplyQueue: the pending rows were listed.
    | Drain(listed: seq<Msg>, drained: bool)
    // syncPeek: the request for seqs after `from` is out.
    | PeekSent(realm: Realm, from: nat)
    // syncPeek: items from+1..hi came back; those up to `done` are handled.
    | Peek(realm: Realm, from: nat, hi: nat, done: nat, dls: seq<Dl>, deq: bool)
    // pushBatch: the host answered; the first `acked` items are handled.
    | Push(realm: Realm, batch: seq<Msg>, items: seq<PushItem>, acked: nat)
    // Any handler about to advance the cursor to v.
    | Touch(realm: Realm, v: nat)
    // syncPull: these rows were listed and their bodies asked for.
    | Pull(rows: seq<Dl>)
    // openPulled: the messages are archived; these rows are still to be dequeued.
    | OpenDeq(rows: seq<Dl>)
    // handleNotif: the first `seen` notices are handled.
    | Notif(notices: seq<Notice>, seen: nat, snap: map<Realm, nat>, runs: map<Realm, nat>, complete: map<Msg, Realm>)
    // reconcileHost: realms still to list, the listing under way, the host's
    // inventory, the messages still to look up, and the downloads to enqueue.
    | Recon(todo: set<Realm>, asked: Option<(Realm, nat)>, inv: map<Msg, (Realm, nat)>, left: set<Msg>, dls: seq<Dl>,
            pull: bool, push: bool)
    | ReconPush(hostKeys: set<Msg>)

  datatype WriteAt = Kicked | Archived | Marked

  datatype Client = Client(
    archive: map<Msg, ArchRow>,
    uploads: set<Msg>,
    downloads: map<(Realm, nat), Msg>,
    cursor: map<Realm, nat>,
    ents: Store,
    tasks: map<nat, Task>,
    // History, read by no step: the messages applied to ents so far, and
    // those a finished write archived without queueing them for upload.
    execd: set<Msg>,
    stranded: set<Msg>)

  datatype System = System(host: Host, clients: seq<Client>)

  const NewClient := Client(map[], {}, map[], map[], map[], map[], {}, {})

  function Bags(h: Host, r: Realm): seq<Msg> { if r in h then h[r] else [] }

  // A missing cursor is 0 (cursorOf).
  function CursorOf(cursor: map<Realm, nat>, r: Realm): nat { if r in cursor then cursor[r] else 0 }

  // nextCursor with lastSeq: a cursor only advances.
  function Advanced(cursor: map<Realm, nat>, r: Realm, v: nat): map<Realm, nat> {
    if v > CursorOf(cursor, r) then cursor[r := v] else cursor
  }

  // messages.add overwrites: an archived row goes back to pending.
  function Archive(archive: map<Msg, ArchRow>, rows: seq<Dl>): map<Msg, ArchRow>
    decreases |rows|
  {
    if rows == [] then archive
    else Archive(archive, rows[..|rows| - 1])[rows[|rows| - 1].msg := ArchRow(Pending, rows[|rows| - 1].realm)]
  }

  function Enqueue(downloads: map<(Realm, nat), Msg>, rows: seq<Dl>): map<(Realm, nat), Msg>
    decreases |rows|
  {
    if rows == [] then downloads
    else Enqueue(downloads, rows[..|rows| - 1])[(rows[|rows| - 1].realm, rows[|rows| - 1].seqno) := rows[|rows| - 1].msg]
  }

  function AsRows(parts: seq<Msg>, r: Realm): seq<Dl> { seq(|parts|, i requires 0 <= i < |parts| => Dl(r, 0, parts[i])) }

  function MsgsOf(rows: seq<Dl>): set<Msg> { set d | d in rows :: d.msg }

  function GoodOf(msgs: seq<Msg>): set<Msg> { set m | m in msgs && Good(m) }

  // Messages whose status slot says Success or NoChange.
  function AckedOf(msgs: seq<Msg>): set<Msg> { set i: nat | i < |msgs| && Acked(msgs, i) :: msgs[i] }

  // markApplyStats: acknowledged rows become applied, unparsable ones failed;
  // a row whose status slot is missing keeps its state.
  function Mark(archive: map<Msg, ArchRow>, msgs: seq<Msg>): map<Msg, ArchRow> {
    var acked := AckedOf(msgs);
    map m | m in archive ::
      if m in acked then archive[m].(apld := Applied)
      else if m in msgs && !Good(m) then archive[m].(apld := Failed)
      else archive[m]
  }

  // Sequence numbers of the successful items, sorted as pushBatch sorts them.
  function Insert(x: nat, s: seq<nat>): seq<nat> {
    if s == [] || x <= s[0] then [x] + s else [s[0]] + Insert(x, s[1..])
  }

  function SortedSeqs(items: seq<PushItem>): seq<nat> {
    if items == [] then []
    else
      var rest := SortedSeqs(items[1..]);
      if items[0].outcome.Ok? then Insert(items[0].outcome.value, rest) else rest
  }

  // The cursor steps through the successes that follow it without a gap.
  function Contiguous(cur: nat, seqs: seq<nat>): nat
    decreases |seqs|
  {
    if seqs == [] then cur else Contiguous(if seqs[0] == cur + 1 then seqs[0] else cur, seqs[1..])
  }

  // Accepted bags of a push, and their outcomes, for a realm of `base` bags.
  function Stored(batch: seq<Msg>, valid: seq<bool>): seq<Msg>
    requires |valid| == |batch|
  {
    seq(|Accepted(valid)|, i requires 0 <= i < |Accepted(valid)| => batch[Accepted(valid)[i]])
  }

  function Seqs(n: nat, base: nat): seq<Result<nat>> { seq(n, i => Ok(base + i + 1)) }

  function PutHost(h: Host, r: Realm, bags: seq<Msg>): Host { h[r := Bags(h, r) + bags] }

  // First bag of each message, as reconcileHost keeps it.
  function Inventory(inv: map<Msg, (Realm, nat)>, r: Realm, bags: seq<Msg>): map<Msg, (Realm, nat)>
    decreases |bags|
  {
    if bags == [] then inv
    else
      var before := Inventory(inv, r, bags[..|bags| - 1]);
      var m := bags[|bags| - 1];
      if m in before then before else before[m := (r, |bags|)]
  }

  /* ---- Moves of one handler ---- */

  predicate Fresh(c: Client, id: nat) { id !in c.tasks }

  function End(c: Client, id: nat): Client { c.(tasks := c.tasks - {id}) }

  function To(c: Client, id: nat, t: Task): Client { c.(tasks := c.tasks[id := t]) }

  predicate OnHostAt(h: Host, r: Realm, seqno: nat) { 1 <= seqno <= |Bags(h, r)| }

  // The message of the bag with this sequence number.
  function BagAt(h: Host, r: Realm, seqno: nat): Msg
    requires OnHostAt(h, r, seqno)
  {
    Bags(h, r)[seqno - 1]
  }

  // Applies the messages of a batch that parse, in order.
  function Exec(c: Client, msgs: seq<Msg>): Client {
    c.(ents := ApplyAll(c.ents, OpsOf(msgs)), execd := c.execd + GoodOf(msgs))
  }

  // Local write: SyncClient.apply and doApply.
  datatype WriteMove =
    | Kick(parts: seq<Msg>, realm: Realm)
    | RunOps
    | Add
    | DropDownload(key: (Realm, nat))
    | MarkStats
    | QueueUpload

  predicate WriteEnabled(c: Client, id: nat, w: WriteMove) {
    match w
    case Kick(parts, _) => Fresh(c, id) && parts != [] && forall m :: m in parts ==> m.eid.time.At?
    case RunOps => id in c.tasks && c.tasks[id].Write? && !c.tasks[id].ran
    case Add => id in c.tasks && c.tasks[id].Write? && c.tasks[id].at == Kicked
    case DropDownload(key) =>
      && id in c.tasks && c.tasks[id].Write? && c.tasks[id].at == Archived
      && key in c.downloads && c.downloads[key] in c.tasks[id].parts
    case MarkStats => id in c.tasks && c.tasks[id].Write? && c.tasks[id].at == Archived && c.tasks[id].ran
    case QueueUpload => id in c.tasks && c.tasks[id].Write? && c.tasks[id].at == Marked
  }

  function WriteAct(c: Client, id: nat, w: WriteMove): Client
    requires WriteEnabled(c, id, w)
  {
    match w
    case Kick(parts, r) => To(c, id, Write(parts, r, false, Kicked))
    case RunOps => To(Exec(c, c.tasks[id].parts), id, c.tasks[id].(ran := true))
    case Add =>
      var t := c.tasks[id];
      To(c.(archive := Archive(c.archive, AsRows(t.parts, t.realm))), id, t.(at := Archived))
    case DropDownload(key) => c.(downloads := c.downloads - {key})
    case MarkStats => To(c.(archive := Mark(c.archive, c.tasks[id].parts)), id, c.tasks[id].(at := Marked))
    case QueueUpload =>
      var acked := AckedOf(c.tasks[id].parts);
      End(c.(uploads := c.uploads + acked, stranded := c.stranded + ((set m | m in c.tasks[id].parts) - acked)), id)
  }

  // doDrainApplyQueue and applyStored.
  datatype DrainMove = ListPending(batch: seq<Msg>) | RunDrain | MarkDrain

  predicate DrainEnabled(c: Client, id: nat, d: DrainMove) {
    match d
    case ListPending(batch) => Fresh(c, id) && forall m :: m in batch ==> m in c.archive && c.archive[m].apld == Pending
    case RunDrain => id in c.tasks && c.tasks[id].Drain? && !c.tasks[id].drained
    case MarkDrain => id in c.tasks && c.tasks[id].Drain? && c.tasks[id].drained
  }

  function DrainAct(c: Client, id: nat, d: DrainMove): Client
    requires DrainEnabled(c, id, d)
  {
    match d
    case ListPending(batch) => To(c, id, Drain(batch, false))
    case RunDrain => To(Exec(c, c.tasks[id].listed), id, c.tasks[id].(drained := true))
    case MarkDrain => End(c.(archive := Mark(c.archive, c.tasks[id].listed)), id)
  }

  // syncPeek. known: the archive lookup said yes. An archived message stays
  // archived, so a yes still holds when it is used; a no may be out of date.
  datatype PeekMove = Ask(realm: Realm, from: nat) | PeekLost | Reply | Item(known: bool) | Deq | Enq

  predicate PeekEnabled(h: Host, c: Client, id: nat, p: PeekMove) {
    match p
    case Ask(r, from) => Fresh(c, id) && from <= CursorOf(c.cursor, r)
    case PeekLost => id in c.tasks && c.tasks[id].PeekSent?
    case Reply => id in c.tasks && c.tasks[id].PeekSent?
    case Item(known) =>
      && id in c.tasks && c.tasks[id].Peek? && !c.tasks[id].deq && c.tasks[id].done < c.tasks[id].hi
      && OnHostAt(h, c.tasks[id].realm, c.tasks[id].done + 1)
      && (known ==> BagAt(h, c.tasks[id].realm, c.tasks[id].done + 1) in c.archive)
    case Deq => id in c.tasks && c.tasks[id].Peek? && c.tasks[id].deq
    case Enq => id in c.tasks && c.tasks[id].Peek? && !c.tasks[id].deq && c.tasks[id].done == c.tasks[id].hi
  }

  function PeekAct(h: Host, c: Client, id: nat, p: PeekMove): Client
    requires PeekEnabled(h, c, id, p)
  {
    match p
    case Ask(r, from) => To(c, id, PeekSent(r, from))
    case PeekLost => End(c, id)
    case Reply =>
      var t := c.tasks[id];
      var hi := |Bags(h, t.realm)|;
      if hi <= t.from then End(c, id) else To(c, id, Peek(t.realm, t.from, hi, t.from, [], false))
    case Item(known) =>
      var t := c.tasks[id];
      var m := BagAt(h, t.realm, t.done + 1);
      if known then To(c.(uploads := c.uploads - {m}), id, t.(deq := true))
      else if m in MsgsOf(t.dls) then To(c, id, t.(deq := true))
      else To(c, id, t.(dls := t.dls + [Dl(t.realm, t.done + 1, m)], done := t.done + 1))
    case Deq =>
      var t := c.tasks[id];
      To(c.(downloads := c.downloads - {(t.realm, t.done + 1)}), id, t.(deq := false, done := t.done + 1))
    case Enq =>
      var t := c.tasks[id];
      To(c.(downloads := Enqueue(c.downloads, t.dls)), id, Touch(t.realm, t.hi))
  }

  // pushBatch. Send is the one move that changes the host: it stores the
  // accepted bags in one turn and answers one item per bag. The answer may be
  // lost; an item whose index names no bag of the batch is skipped.
  datatype PushMove = Send(realm: Realm, batch: seq<Msg>, valid: seq<bool>) | PushLost | Ack | ReadCursor

  predicate PushEnabled(c: Client, id: nat, p: PushMove) {
    match p
    case Send(r, batch, valid) =>
      && Fresh(c, id) && batch != [] && |valid| == |batch|
      && forall m :: m in batch ==> m in c.archive && c.archive[m].realm == r
    case PushLost => id in c.tasks && c.tasks[id].Push? && c.tasks[id].acked == 0
    case Ack => id in c.tasks && c.tasks[id].Push? && c.tasks[id].acked < |c.tasks[id].items|
    case ReadCursor => id in c.tasks && c.tasks[id].Push? && c.tasks[id].acked == |c.tasks[id].items|
  }

  function PushHost(h: Host, p: PushMove): Host
    requires p.Send? ==> |p.valid| == |p.batch|
  {
    if p.Send? then PutHost(h, p.realm, Stored(p.batch, p.valid)) else h
  }

  // The message that an answer item acknowledges, if any.
  function Acknowledged(item: PushItem, batch: seq<Msg>): set<Msg> {
    if item.outcome.Ok? && item.idx < |batch| then {batch[item.idx]} else {}
  }

  function PushAct(h: Host, c: Client, id: nat, p: PushMove): Client
    requires PushEnabled(c, id, p)
  {
    match p
    case Send(r, batch, valid) =>
      To(c, id, Push(r, batch, Items(valid, Seqs(|Stored(batch, valid)|, |Bags(h, r)|)), 0))
    case PushLost => End(c, id)
    case Ack =>
      var t := c.tasks[id];
      To(c.(uploads := c.uploads - Acknowledged(t.items[t.acked], t.batch)), id, t.(acked := t.acked + 1))
    case ReadCursor =>
      var t := c.tasks[id];
      var cur := CursorOf(c.cursor, t.realm);
      var v := Contiguous(cur, SortedSeqs(t.items));
      if v > cur then To(c, id, Touch(t.realm, v)) else End(c, id)
  }

  // syncPull and openPulled.
  datatype PullMove = AskBodies(rows: seq<Dl>) | PullLost | OpenAdd | OpenDrop

  predicate PullEnabled(c: Client, id: nat, p: PullMove) {
    match p
    case AskBodies(rows) =>
      Fresh(c, id) && forall d :: d in rows ==> (d.realm, d.seqno) in c.downloads && c.downloads[(d.realm, d.seqno)] == d.msg
    case PullLost => id in c.tasks && c.tasks[id].Pull?
    case OpenAdd => id in c.tasks && c.tasks[id].Pull?
    case OpenDrop => id in c.tasks && c.tasks[id].OpenDeq?
  }

  function PullAct(c: Client, id: nat, p: PullMove): Client
    requires PullEnabled(c, id, p)
  {
    match p
    case AskBodies(rows) => To(c, id, Pull(rows))
    case PullLost => End(c, id)
    case OpenAdd => To(c.(archive := Archive(c.archive, c.tasks[id].rows)), id, OpenDeq(c.tasks[id].rows))
    case OpenDrop =>
      var rows := c.tasks[id].rows;
      if rows == [] then End(c, id)
      else To(c.(downloads := c.downloads - {(rows[0].realm, rows[0].seqno)}), id, OpenDeq(rows[1..]))
  }

  // handleNotif.
  datatype NotifMove = Arrive(notices: seq<Notice>) | Take(known: bool) | TouchRun(realm: Realm) | AddComplete

  predicate NotifEnabled(h: Host, c: Client, id: nat, n: NotifMove) {
    match n
    case Arrive(notices) => Fresh(c, id) && forall x :: x in notices ==> OnHostAt(h, x.realm, x.seqno)
    case Take(known) =>
      && id in c.tasks && c.tasks[id].Notif? && c.tasks[id].seen < |c.tasks[id].notices|
      && var x := c.tasks[id].notices[c.tasks[id].seen];
         OnHostAt(h, x.realm, x.seqno) && (known ==> BagAt(h, x.realm, x.seqno) in c.archive)
    case TouchRun(r) =>
      id in c.tasks && c.tasks[id].Notif? && c.tasks[id].seen == |c.tasks[id].notices| && r in c.tasks[id].runs
    case AddComplete =>
      id in c.tasks && c.tasks[id].Notif? && c.tasks[id].seen == |c.tasks[id].notices| && c.tasks[id].runs == map[]
  }

  // A run follows the cursor that was read when the notification arrived; an
  // item out of sequence leaves it where it is.
  function NotifRun(t: Task, n: Notice): map<Realm, nat>
    requires t.Notif?
  {
    var run := if n.realm in t.runs then t.runs[n.realm] else CursorOf(t.snap, n.realm);
    t.runs[n.realm := if n.seqno == run + 1 then n.seqno else run]
  }

  function NotifAct(h: Host, c: Client, id: nat, n: NotifMove): Client
    requires NotifEnabled(h, c, id, n)
  {
    match n
    case Arrive(notices) => To(c, id, Notif(notices, 0, c.cursor, map[], map[]))
    case Take(known) =>
      var t := c.tasks[id];
      var x := t.notices[t.seen];
      var m := BagAt(h, x.realm, x.seqno);
      if known then To(c, id, t.(seen := t.seen + 1))
      else if x.inline then
        To(c, id, t.(seen := t.seen + 1, runs := NotifRun(t, x), complete := t.complete[m := x.realm]))
      else
        To(c.(downloads := c.downloads[(x.realm, x.seqno) := m]), id, t.(seen := t.seen + 1, runs := NotifRun(t, x)))
    case TouchRun(r) =>
      var t := c.tasks[id];
      To(if t.runs[r] > CursorOf(t.snap, r) then c.(cursor := Advanced(c.cursor, r, t.runs[r])) else c,
         id, t.(runs := t.runs - {r}))
    case AddComplete =>
      var complete := c.tasks[id].complete;
      End(c.(archive := c.archive + map m | m in complete :: ArchRow(Pending, complete[m])), id)
  }

  // reconcileHost. A listing that fails ends it, with the cursors of the
  // realms listed before already at their tops.
  datatype ReconMove =
    | AskAll(realms: set<Realm>, pull: bool, push: bool)
    | ListLost
    | Listed(realm: Realm)
    | SetCursor
    | LookUp(msg: Msg, known: bool)
    | EnqMissing
    | QueueMissing(keys: set<Msg>)

  predicate ReconEnabled(h: Host, c: Client, id: nat, q: ReconMove) {
    match q
    case AskAll(_, _, _) => Fresh(c, id)
    case ListLost => id in c.tasks && c.tasks[id].Recon? && c.tasks[id].todo != {} && c.tasks[id].asked.None?
    case Listed(r) => id in c.tasks && c.tasks[id].Recon? && r in c.tasks[id].todo && c.tasks[id].asked.None?
    case SetCursor =>
      && id in c.tasks && c.tasks[id].Recon? && c.tasks[id].asked.Some?
      && c.tasks[id].asked.value.1 <= |Bags(h, c.tasks[id].asked.value.0)|
    case LookUp(m, known) =>
      && id in c.tasks && c.tasks[id].Recon? && c.tasks[id].todo == {} && c.tasks[id].asked.None?
      && m in c.tasks[id].left && m in c.tasks[id].inv && (known ==> m in c.archive)
    case EnqMissing =>
      id in c.tasks && c.tasks[id].Recon? && c.tasks[id].todo == {} && c.tasks[id].asked.None? && c.tasks[id].left == {}
    case QueueMissing(keys) => id in c.tasks && c.tasks[id].ReconPush? && keys <= c.archive.Keys - c.tasks[id].hostKeys
  }

  function ReconAct(h: Host, c: Client, id: nat, q: ReconMove): Client
    requires ReconEnabled(h, c, id, q)
  {
    match q
    case AskAll(realms, pull, push) => To(c, id, Recon(realms, None, map[], {}, [], pull, push))
    case ListLost => End(c, id)
    case Listed(r) => To(c, id, c.tasks[id].(asked := Some((r, |Bags(h, r)|))))
    case SetCursor =>
      var t := c.tasks[id];
      var (r, hi) := t.asked.value;
      var inv := Inventory(t.inv, r, Bags(h, r)[..hi]);
      To(c.(cursor := c.cursor[r := hi]), id, t.(todo := t.todo - {r}, asked := None, inv := inv, left := inv.Keys))
    case LookUp(m, known) =>
      var t := c.tasks[id];
      var t' := t.(left := t.left - {m});
      if known then To(c.(uploads := c.uploads - {m}), id, t')
      else if t.pull then To(c, id, t'.(dls := t.dls + [Dl(t.inv[m].0, t.inv[m].1, m)]))
      else To(c, id, t')
    case EnqMissing =>
      var t := c.tasks[id];
      var c' := c.(downloads := Enqueue(c.downloads, t.dls));
      if t.push then To(c', id, ReconPush(t.inv.Keys)) else End(c', id)
    case QueueMissing(keys) => End(c.(uploads := c.uploads + keys), id)
  }

  /* ---- Steps of one client ---- */

  datatype Move =
    | Writing(w: WriteMove)
    | Draining(d: DrainMove)
    | Peeking(p: PeekMove)
    | Pushing(s: PushMove)
    | Pulling(b: PullMove)
    | Notifying(n: NotifMove)
    | Reconciling(q: ReconMove)
    | TouchCursor

  // A move of the handler id.
  datatype Step = Step(id: nat, move: Move)

  predicate Enabled(h: Host, c: Client, step: Step) {
    match step.move
    case Writing(w) => WriteEnabled(c, step.id, w)
    case Draining(d) => DrainEnabled(c, step.id, d)
    case Peeking(p) => PeekEnabled(h, c, step.id, p)
    case Pushing(s) => PushEnabled(c, step.id, s)
    case Pulling(b) => PullEnabled(c, step.id, b)
    case Notifying(n) => NotifEnabled(h, c, step.id, n)
    case Reconciling(q) => ReconEnabled(h, c, step.id, q)
    case TouchCursor => step.id in c.tasks && c.tasks[step.id].Touch?
  }

  function HostAfter(h: Host, c: Client, step: Step): Host
    requires Enabled(h, c, step)
  {
    if step.move.Pushing? then PushHost(h, step.move.s) else h
  }

  function Act(h: Host, c: Client, step: Step): Client
    requires Enabled(h, c, step)
  {
    match step.move
    case Writing(w) => WriteAct(c, step.id, w)
    case Draining(d) => DrainAct(c, step.id, d)
    case Peeking(p) => PeekAct(h, c, step.id, p)
    case Pushing(s) => PushAct(h, c, step.id, s)
    case Pulling(b) => PullAct(c, step.id, b)
    case Notifying(n) => NotifAct(h, c, step.id, n)
    case Reconciling(q) => ReconAct(h, c, step.id, q)
    case TouchCursor =>
      End(c.(cursor := Advanced(c.cursor, c.tasks[step.id].realm, c.tasks[step.id].v)), step.id)
  }

  /* ---- Runs ---- */

  datatype Event = Event(who: nat, step: Step)

  predicate CanStep(s: System, e: Event) {
    e.who < |s.clients| && Enabled(s.host, s.clients[e.who], e.step)
  }

  function StepTo(s: System, e: Event): System
    requires CanStep(s, e)
  {
    var c := s.clients[e.who];
    System(HostAfter(s.host, c, e.step), s.clients[e.who := Act(s.host, c, e.step)])
  }

  // Nothing written, nothing stored yet.
  function Start(n: nat): System { System(map[], seq(n, _ => NewClient)) }

  // states[i + 1] follows states[i] by events[i], from n new clients on.
  ghost predicate Run(n: nat, states: seq<System>, events: seq<Event>) {
    && |states| == |events| + 1
    && states[0] == Start(n)
    && forall i :: 0 <= i < |events| ==> CanStep(states[i], events[i]) && states[i + 1] == StepTo(states[i], events[i])
  }
}
