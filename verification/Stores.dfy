// The client's in-memory stores (web/src/stores/memory): message archive,
// download queue, upload queue of one host, and that host's cursors
// (web/src/stores/cursor.ts).

module Stores {
  import opened Basics
  import opened Messages
  import opened SyncState

  class MemoryMessageStore {
    var messages: map<Msg, ArchRow>

    // Overwrites: a row that is there already goes back to pending.
    method Add(rows: seq<Dl>)
      modifies this
      ensures messages == Archive(old(messages), rows)
    {
      for i := 0 to |rows|
        invariant messages == Archive(old(messages), rows[..i])
      {
        assert rows[..i + 1][..i] == rows[..i];
        messages := messages[rows[i].msg := ArchRow(Pending, rows[i].realm)];
      }
      assert rows[..|rows|] == rows;
    }

    method Has(m: Msg) returns (r: bool)
      ensures r <==> m in messages
    {
      r := m in messages;
    }

    method MarkApplied(keys: seq<Msg>)
      modifies this
      ensures messages == map m | m in old(messages) :: if m in keys then old(messages)[m].(apld := Applied) else old(messages)[m]
    {
      for i := 0 to |keys|
        invariant messages == map m | m in old(messages) ::
                    if m in keys[..i] then old(messages)[m].(apld := Applied) else old(messages)[m]
      {
        assert keys[..i + 1] == keys[..i] + [keys[i]];
        if keys[i] in messages { messages := messages[keys[i] := messages[keys[i]].(apld := Applied)]; }
      }
      assert keys[..|keys|] == keys;
    }

    method MarkFailed(keys: seq<Msg>)
      modifies this
      ensures messages == map m | m in old(messages) :: if m in keys then old(messages)[m].(apld := Failed) else old(messages)[m]
    {
      for i := 0 to |keys|
        invariant messages == map m | m in old(messages) ::
                    if m in keys[..i] then old(messages)[m].(apld := Failed) else old(messages)[m]
      {
        assert keys[..i + 1] == keys[..i] + [keys[i]];
        if keys[i] in messages { messages := messages[keys[i] := messages[keys[i]].(apld := Failed)]; }
      }
      assert keys[..|keys|] == keys;
    }
  }

  class MemoryDownloadQueue {
    var queue: map<(Realm, nat), Msg>

    method Enq(rows: seq<Dl>)
      modifies this
      ensures queue == Enqueue(old(queue), rows)
    {
      for i := 0 to |rows|
        invariant queue == Enqueue(old(queue), rows[..i])
      {
        assert rows[..i + 1][..i] == rows[..i];
        queue := queue[(rows[i].realm, rows[i].seqno) := rows[i].msg];
      }
      assert rows[..|rows|] == rows;
    }

    method Deq(realm: Realm, seqs: seq<nat>)
      modifies this
      ensures queue == old(queue) - set q | q in seqs :: (realm, q)
    {
      for i := 0 to |seqs|
        invariant queue == old(queue) - set q | q in seqs[..i] :: (realm, q)
      {
        assert seqs[..i + 1] == seqs[..i] + [seqs[i]];
        queue := queue - {(realm, seqs[i])};
      }
      assert seqs[..|seqs|] == seqs;
    }
  }

  class MemoryUploadQueue {
    var queue: set<Msg>

    method Enq(keys: seq<Msg>)
      modifies this
      ensures queue == old(queue) + set m | m in keys
    {
      for i := 0 to |keys|
        invariant queue == old(queue) + set m | m in keys[..i]
      {
        assert keys[..i + 1] == keys[..i] + [keys[i]];
        queue := queue + {keys[i]};
      }
      assert keys[..|keys|] == keys;
    }

    method Deq(keys: seq<Msg>)
      modifies this
      ensures queue == old(queue) - set m | m in keys
    {
      for i := 0 to |keys|
        invariant queue == old(queue) - set m | m in keys[..i]
      {
        assert keys[..i + 1] == keys[..i] + [keys[i]];
        queue := queue - {keys[i]};
      }
      assert keys[..|keys|] == keys;
    }
  }

  // An update of a cursor: set it, or move it forward only.
  datatype SeqsUpdate = SetLast(v: nat) | Last(v: nat)

  function NextCursor(cur: nat, u: SeqsUpdate): Option<nat> {
    match u
    case SetLast(v) => Some(v)
    case Last(v) => if v > cur then Some(v) else None
  }

  class MemoryHostStore {
    var cursors: map<Realm, nat>

    method RecordSeqs(u: SeqsUpdate, realm: Realm)
      modifies this
      ensures cursors == match u
                         case SetLast(v) => old(cursors)[realm := v]
                         case Last(v) => if v > CursorOf(old(cursors), realm) then old(cursors)[realm := v] else old(cursors)
    {
      var cur := CursorOf(cursors, realm);
      var next := NextCursor(cur, u);
      if next.None? { return; }
      cursors := cursors[realm := next.value];
    }

    // Concurrent peek, push and notifications must not move a cursor back.
    method Touch(v: nat, realm: Realm)
      modifies this
      ensures cursors == Advanced(old(cursors), realm, v)
      ensures var cur := CursorOf(old(cursors), realm);
              CursorOf(cursors, realm) == if v > cur then v else cur
      ensures forall r :: r != realm ==> CursorOf(cursors, r) == CursorOf(old(cursors), r)
    {
      RecordSeqs(Last(v), realm);
    }
  }

  class ClientStore {
    const messages: MemoryMessageStore
    const downloads: MemoryDownloadQueue
    const uploads: MemoryUploadQueue
    const hosts: MemoryHostStore

    constructor ()
      ensures fresh(messages) && fresh(downloads) && fresh(uploads) && fresh(hosts)
      ensures messages.messages == map[] && downloads.queue == map[] && uploads.queue == {} && hosts.cursors == map[]
    {
      messages := new MemoryMessageStore;
      downloads := new MemoryDownloadQueue;
      uploads := new MemoryUploadQueue;
      hosts := new MemoryHostStore;
      new;
      messages.messages, downloads.queue, uploads.queue, hosts.cursors := map[], map[], {}, map[];
    }

    // The stores hold what client c of the protocol holds.
    ghost predicate Holds(c: Client)
      reads messages, downloads, uploads, hosts
    {
      && messages.messages == c.archive && downloads.queue == c.downloads
      && uploads.queue == c.uploads && hosts.cursors == c.cursor
    }
  }
}
