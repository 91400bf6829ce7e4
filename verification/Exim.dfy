// The signed, encrypted export file of several realms
// (shared/crypto/exim.ts): printer, parser, and their round trip.

module Exim {
  import opened Basics
  import opened Codec
  import opened Structs
  import opened Coder
  import opened Sealing

  datatype ExportRealm = ExportRealm(realm: Kdm, msgs: seq<Message>)

  const NULL_KDM := Kdm([], 0)

  // The bag managers of one file key, by realm.
  type Ring = Kdm -> Manager

  ghost predicate IdealRing(ring: Ring) { forall realm: Kdm :: IdealManager(ring(realm)) }

  // The body goes into the file if the head says there is one.
  predicate HasBody(m: Message) { m.body.Some? && m.head.len > 0 && m.head.hsh.Some? }

  function BoxedLen(m: Message): nat { if HasBody(m) then |m.body.value| + BOX_OVER else 0 }

  /* ---- What a file is ---- */

  function ItemOf(k: Manager, m: Message): Result<IndexItem> {
    var headEnc :- PutHead(m.head);
    var kdm := k.bagKdm(headEnc);
    Ok(IndexItem(kdm, k.seal(kdm, headEnc), BoxedLen(m)))
  }

  function PutItem(k: Manager, m: Message): Result<bytes> {
    var item :- ItemOf(k, m);
    PutIndexItem(item)
  }

  function Heads(k: Manager, msgs: seq<Message>): Result<bytes> {
    if msgs == [] then Ok([])
    else
      var first :- PutItem(k, msgs[0]);
      var rest :- Heads(k, msgs[1..]);
      Ok(first + rest)
  }

  function BoxOf(k: Manager, m: Message): bytes {
    if HasBody(m) && PutHead(m.head).Ok? then k.seal(k.bagKdm(PutHead(m.head).value), m.body.value) else []
  }

  function Boxes(k: Manager, msgs: seq<Message>): bytes {
    if msgs == [] then [] else BoxOf(k, msgs[0]) + Boxes(k, msgs[1..])
  }

  // Directory and chunks, realm after realm.
  function Parts(ring: Ring, hash: bytes -> bytes, realms: seq<ExportRealm>): Result<(seq<FileRealm>, bytes)> {
    if realms == [] then Ok(([], []))
    else
      var part := realms[0];
      if part.msgs == [] then Err(InvalidMessage)
      else
        var heads :- Heads(ring(part.realm), part.msgs);
        var rest :- Parts(ring, hash, realms[1..]);
        Ok(([FileRealm(part.realm, |part.msgs|, hash(heads))] + rest.0,
            heads + (Boxes(ring(part.realm), part.msgs) + rest.1)))
  }

  function FileOf(ring: Ring, hash: bytes -> bytes, nonce: bytes, realms: seq<ExportRealm>): Result<bytes> {
    if |nonce| != HASH_BYTES then Err(InvalidParam)
    else
      var parts :- Parts(ring, hash, realms);
      var pre :- Preimage(nonce, parts.0);
      var head :- PutFileHead(FileHead(nonce, parts.0, hash(pre), ring(NULL_KDM).sign(hash(pre))));
      Ok(head + parts.1)
  }

  /* ---- What a file says ---- */

  function Items(s: bytes, n: nat): Read<seq<IndexItem>>
    decreases n
  {
    if n == 0 then Got([], s)
    else
      var (first, s1) :- GetIndexItem(s);
      var (more, s2) :- Items(s1, n - 1);
      Got([first] + more, s2)
  }

  function OpenItem(k: Manager, hash: bytes -> bytes, item: IndexItem, s: bytes): Read<Message> {
    match k.unseal(item.kdm, item.headCph)
    case None => Fail(DecryptionError)
    case Some(headEnc) =>
      var (head, _) :- GetHead(headEnc);
      if item.lenBody < 0 then Fail(InvalidMessage)
      else if item.lenBody == 0 then Got(Message(head, None), s)
      else if head.hsh.None? then Fail(InvalidMessage)
      else
        var (box, s1) :- GetBytes(s, item.lenBody);
        match k.unseal(item.kdm, box)
        case None => Fail(DecryptionError)
        case Some(body) =>
          if hash(body) != head.hsh.value then Fail(HashMismatch) else Got(Message(head, Some(body)), s1)
  }

  function OpenItems(k: Manager, hash: bytes -> bytes, items: seq<IndexItem>, s: bytes): Read<seq<Message>> {
    if items == [] then Got([], s)
    else
      var (first, s1) :- OpenItem(k, hash, items[0], s);
      var (more, s2) :- OpenItems(k, hash, items[1..], s1);
      Got([first] + more, s2)
  }

  function OpenRealm(k: Manager, hash: bytes -> bytes, row: FileRealm, s: bytes): Read<ExportRealm>
    requires row.num >= 0
  {
    var (items, s1) :- Items(s, row.num);
    if |s1| > |s| || hash(s[..|s| - |s1|]) != row.hsh then Fail(HashMismatch)
    else
      var (msgs, s2) :- OpenItems(k, hash, items, s1);
      Got(ExportRealm(row.realm, msgs), s2)
  }

  function OpenRealms(ring: Ring, hash: bytes -> bytes, rows: seq<FileRealm>, s: bytes): Read<seq<ExportRealm>>
    requires forall r :: r in rows ==> r.num >= 0
  {
    if rows == [] then Got([], s)
    else
      var (first, s1) :- OpenRealm(ring(rows[0].realm), hash, rows[0], s);
      var (more, s2) :- OpenRealms(ring, hash, rows[1..], s1);
      Got([first] + more, s2)
  }

  lemma {:induction false} RowsCount(s: bytes, n: nat)
    ensures GetRows(s, n).Got? ==> forall r :: r in GetRows(s, n).value ==> r.num >= 1
    decreases n
  {
    if n > 0 && GetFileRealm(s).Got? { RowsCount(GetFileRealm(s).rest, n - 1); }
  }

  lemma HeadCounts(s: bytes)
    ensures GetFileHead(s).Got? ==> forall r :: r in GetFileHead(s).value.realms ==> r.num >= 1
  {
    if GetFileHead(s).Got? {
      var s1 := GetBytes(s, HASH_BYTES).rest;
      RowsCount(GetVarInt(s1).rest, GetVarInt(s1).value);
    }
  }

  // The signature is checked before the directory is believed, and nothing
  // may be left over.
  function RealmsOf(ring: Ring, hash: bytes -> bytes, file: bytes): Result<seq<ExportRealm>> {
    HeadCounts(file);
    match GetFileHead(file)
    case Fail(st) => Err(st)
    case Got(head, chunks) =>
      if !ring(NULL_KDM).check(head.sig, head.hsh) then Err(InvalidSignature)
      else
        var pre :- Preimage(head.nonce, head.realms);
        if hash(pre) != head.hsh then Err(HashMismatch)
        else
          match OpenRealms(ring, hash, head.realms, chunks)
          case Fail(st) => Err(st)
          case Got(realms, rest) => if rest != [] then Err(InvalidMessage) else Ok(realms)
  }

  /* ---- What the signature and the hashes vouch for ---- */

  // The check accepts only hashes of a nonce with a directory, for one of these.
  ghost predicate OnlyFiles(check: (bytes, bytes) -> bool, hash: bytes -> bytes, signed: iset<(bytes, seq<FileRealm>)>) {
    forall sig: bytes, h: bytes :: check(sig, h) ==> exists nonce, rows, pre :: Vouched(hash, signed, h, nonce, rows, pre)
  }

  ghost predicate Vouched(hash: bytes -> bytes, signed: iset<(bytes, seq<FileRealm>)>, h: bytes, nonce: bytes,
                          rows: seq<FileRealm>, pre: bytes)
  {
    (nonce, rows) in signed && Covers(pre, nonce, rows) && h == hash(pre)
  }

  // These bytes collide with none that was signed.
  ghost predicate Distinct(hash: bytes -> bytes, signed: iset<(bytes, seq<FileRealm>)>, x: bytes) {
    forall nonce, rows, pre :: Vouched(hash, signed, hash(pre), nonce, rows, pre) ==> NoCollision(hash, x, pre)
  }

  // A file that decodes has the nonce and the realm directory of one that was
  // signed: no row can be cut, added or changed.
  lemma FileVouched(ring: Ring, hash: bytes -> bytes, file: bytes, signed: iset<(bytes, seq<FileRealm>)>)
    requires Fits(file) && RealmsOf(ring, hash, file).Ok? && OnlyFiles(ring(NULL_KDM).check, hash, signed)
    requires var head := GetFileHead(file).value;
             Preimage(head.nonce, head.realms).Ok? ==> Distinct(hash, signed, Preimage(head.nonce, head.realms).value)
    ensures (GetFileHead(file).value.nonce, GetFileHead(file).value.realms) in signed
  {
    var head := GetFileHead(file).value;
    var mine := Preimage(head.nonce, head.realms).value;
    HeadNonce(file);
    RealmsRead(file[HASH_BYTES..]);
    PreimageCovers(head.nonce, head.realms);
    var nonce, rows, pre :| Vouched(hash, signed, head.hsh, nonce, rows, pre);
    assert NoCollision(hash, mine, pre);
    assert mine == pre;
  }

  lemma HeadNonce(file: bytes)
    requires GetFileHead(file).Got?
    ensures HASH_BYTES <= |file| && |GetFileHead(file).value.nonce| == HASH_BYTES
    ensures GetRealms(file[HASH_BYTES..]).Got? && GetRealms(file[HASH_BYTES..]).value == GetFileHead(file).value.realms
  {
  }

  // A realm that opens has as many messages as its row says, heads that hash
  // to what the row says, and only bodies that their heads announce.
  lemma RealmVouches(k: Manager, hash: bytes -> bytes, row: FileRealm, s: bytes)
    requires row.num >= 0 && OpenRealm(k, hash, row, s).Got?
    ensures Items(s, row.num).Got? && |Items(s, row.num).rest| <= |s|
    ensures hash(s[..|s| - |Items(s, row.num).rest|]) == row.hsh
    ensures var part := OpenRealm(k, hash, row, s).value;
            && part.realm == row.realm && |part.msgs| == row.num
            && forall m :: m in part.msgs && m.body.Some? ==>
                 m.head.hsh.Some? && hash(m.body.value) == m.head.hsh.value
  {
    ItemsCount(s, row.num);
    ItemsVouch(k, hash, Items(s, row.num).value, Items(s, row.num).rest);
  }

  lemma {:induction false} ItemsCount(s: bytes, n: nat)
    ensures Items(s, n).Got? ==> |Items(s, n).value| == n
    decreases n
  {
    if n > 0 && GetIndexItem(s).Got? { ItemsCount(GetIndexItem(s).rest, n - 1); }
  }

  lemma {:induction false} ItemsVouch(k: Manager, hash: bytes -> bytes, items: seq<IndexItem>, s: bytes)
    requires OpenItems(k, hash, items, s).Got?
    ensures var msgs := OpenItems(k, hash, items, s).value;
            && |msgs| == |items|
            && forall m :: m in msgs && m.body.Some? ==> m.head.hsh.Some? && hash(m.body.value) == m.head.hsh.value
    decreases |items|
  {
    if items != [] { ItemsVouch(k, hash, items[1..], OpenItem(k, hash, items[0], s).rest); }
  }

  // The message is what these ciphertexts hold: the head decrypts to its head,
  // and a body is there exactly when the index says that it has bytes.
  ghost predicate Unsealed(k: Manager, item: IndexItem, m: Message) {
    && k.unseal(item.kdm, item.headCph).Some?
    && GetHead(k.unseal(item.kdm, item.headCph).value).Got?
    && GetHead(k.unseal(item.kdm, item.headCph).value).value == m.head
    && (m.body.None? <==> item.lenBody == 0)
    && (m.body.Some? ==> exists box: bytes :: |box| == item.lenBody && k.unseal(item.kdm, box) == m.body)
  }

  lemma ItemUnseals(k: Manager, hash: bytes -> bytes, item: IndexItem, s: bytes)
    requires OpenItem(k, hash, item, s).Got?
    ensures Unsealed(k, item, OpenItem(k, hash, item, s).value)
  {
    if item.lenBody > 0 {
      var box := s[..item.lenBody];
      assert |box| == item.lenBody;
    }
  }

  lemma {:induction false} ItemsUnseal(k: Manager, hash: bytes -> bytes, items: seq<IndexItem>, s: bytes, i: nat)
    requires OpenItems(k, hash, items, s).Got? && i < |items|
    ensures |OpenItems(k, hash, items, s).value| == |items| && Unsealed(k, items[i], OpenItems(k, hash, items, s).value[i])
    decreases |items|
  {
    ItemsVouch(k, hash, items, s);
    if i == 0 {
      ItemUnseals(k, hash, items[0], s);
    } else {
      ItemsUnseal(k, hash, items[1..], OpenItem(k, hash, items[0], s).rest, i - 1);
    }
  }

  // These bytes begin with the heads that the row's hash is of, and the
  // realm's messages are what they and the bodies after them hold.
  ghost predicate HeldBy(k: Manager, hash: bytes -> bytes, row: FileRealm, part: ExportRealm, s: bytes)
    requires row.num >= 0
  {
    && part.realm == row.realm && |part.msgs| == row.num
    && Items(s, row.num).Got? && |Items(s, row.num).rest| <= |s| && |Items(s, row.num).value| == row.num
    && hash(s[..|s| - |Items(s, row.num).rest|]) == row.hsh
    && (forall i :: 0 <= i < row.num ==> Unsealed(k, Items(s, row.num).value[i], part.msgs[i]))
    && (forall m :: m in part.msgs && m.body.Some? ==> m.head.hsh.Some? && hash(m.body.value) == m.head.hsh.value)
  }

  lemma RealmHeld(k: Manager, hash: bytes -> bytes, row: FileRealm, s: bytes)
    requires row.num >= 0 && OpenRealm(k, hash, row, s).Got?
    ensures HeldBy(k, hash, row, OpenRealm(k, hash, row, s).value, s)
  {
    RealmVouches(k, hash, row, s);
    ItemsCount(s, row.num);
    var items := Items(s, row.num);
    forall i | 0 <= i < row.num
      ensures Unsealed(k, items.value[i], OpenRealm(k, hash, row, s).value.msgs[i])
    {
      ItemsUnseal(k, hash, items.value, items.rest, i);
    }
  }

  // Part i is held by what follows the parts before it, under its own realm's
  // keys.
  ghost predicate OpenedAs(ring: Ring, hash: bytes -> bytes, row: FileRealm, part: ExportRealm) {
    row.num >= 0 && exists s: bytes :: HeldBy(ring(row.realm), hash, row, part, s)
  }

  lemma {:induction false} RealmsHeld(ring: Ring, hash: bytes -> bytes, rows: seq<FileRealm>, s: bytes)
    requires (forall r :: r in rows ==> r.num >= 0) && OpenRealms(ring, hash, rows, s).Got?
    ensures var parts := OpenRealms(ring, hash, rows, s).value;
            |parts| == |rows| && forall i :: 0 <= i < |rows| ==> OpenedAs(ring, hash, rows[i], parts[i])
    decreases |rows|
  {
    if rows != [] {
      var first := OpenRealm(ring(rows[0].realm), hash, rows[0], s);
      RealmHeld(ring(rows[0].realm), hash, rows[0], s);
      RealmsHeld(ring, hash, rows[1..], first.rest);
      var more := OpenRealms(ring, hash, rows[1..], first.rest).value;
      var parts := [first.value] + more;
      assert OpenRealms(ring, hash, rows, s).value == parts;
      forall i | 0 <= i < |rows|
        ensures OpenedAs(ring, hash, rows[i], parts[i])
      {
        if i > 0 { assert rows[i] == rows[1..][i - 1] && parts[i] == more[i - 1]; }
      }
    }
  }

  // A file that decodes gives one realm for each row of its directory, in
  // order: its messages, counted and hashed as the row says, unsealed with
  // that realm's keys.
  lemma FileHeld(ring: Ring, hash: bytes -> bytes, file: bytes)
    requires RealmsOf(ring, hash, file).Ok?
    ensures var (rows, parts) := (GetFileHead(file).value.realms, RealmsOf(ring, hash, file).value);
            |parts| == |rows| && forall i :: 0 <= i < |rows| ==> OpenedAs(ring, hash, rows[i], parts[i])
  {
    HeadCounts(file);
    RealmsHeld(ring, hash, GetFileHead(file).value.realms, GetFileHead(file).rest);
  }

  /* ---- Round trip ---- */

  // Sealed head and body fit, and the body is the one the head names.
  predicate MsgOk(hash: bytes -> bytes, m: Message) {
    && HeadOk(m.head)
    && (PutHead(m.head).Ok? ==> |PutHead(m.head).value| + BOX_OVER < EXACT)
    && (HasBody(m) ==> |m.body.value| + BOX_OVER < EXACT && hash(m.body.value) == m.head.hsh.value)
  }

  // A body the head does not announce is not written.
  function Kept(m: Message): Message { if HasBody(m) then m else m.(body := None) }

  function KeptAll(msgs: seq<Message>): (kept: seq<Message>)
    ensures |kept| == |msgs| && forall i :: 0 <= i < |msgs| ==> kept[i] == Kept(msgs[i])
  {
    if msgs == [] then [] else [Kept(msgs[0])] + KeptAll(msgs[1..])
  }

  function KeptRealms(realms: seq<ExportRealm>): (kept: seq<ExportRealm>)
    ensures |kept| == |realms|
    ensures forall i :: 0 <= i < |realms| ==> kept[i] == ExportRealm(realms[i].realm, KeptAll(realms[i].msgs))
  {
    if realms == [] then []
    else [ExportRealm(realms[0].realm, KeptAll(realms[0].msgs))] + KeptRealms(realms[1..])
  }

  predicate RealmOk(hash: bytes -> bytes, r: ExportRealm) {
    KdmOk(r.realm) && 0 < |r.msgs| < EXACT && forall m :: m in r.msgs ==> MsgOk(hash, m)
  }

  predicate RealmsOk(hash: bytes -> bytes, realms: seq<ExportRealm>) {
    |realms| < EXACT && forall r :: r in realms ==> RealmOk(hash, r)
  }

  lemma ItemRoundTrip(k: Manager, hash: bytes -> bytes, m: Message, t: bytes)
    requires IdealManager(k) && MsgOk(hash, m)
    ensures ItemOf(k, m).Ok? && PutItem(k, m).Ok? && GetIndexItem(PutItem(k, m).value + t) == Got(ItemOf(k, m).value, t)
  {
    HeadReads(m.head, []);
    ToNumberExactly(BoxedLen(m));
    IndexItemRoundTrip(ItemOf(k, m).value, t);
  }

  lemma ItemOpens(k: Manager, hash: bytes -> bytes, m: Message, t: bytes)
    requires IdealManager(k) && MsgOk(hash, m)
    ensures ItemOf(k, m).Ok? && OpenItem(k, hash, ItemOf(k, m).value, BoxOf(k, m) + t) == Got(Kept(m), t)
  {
    HeadReads(m.head, []);
    assert PutHead(m.head).value + [] == PutHead(m.head).value;
    if HasBody(m) { BytesRoundTrip(BoxOf(k, m), t); } else { assert [] + t == t; }
  }

  lemma ItemsStep(s: bytes, n: nat, item: IndexItem, rest: bytes)
    requires GetIndexItem(s) == Got(item, rest)
    ensures Items(s, n + 1) == match Items(rest, n) case Got(more, s2) => Got([item] + more, s2) case Fail(st) => Fail(st)
  {
  }

  lemma OpenItemsStep(k: Manager, hash: bytes -> bytes, items: seq<IndexItem>, s: bytes, m: Message, rest: bytes)
    requires items != [] && OpenItem(k, hash, items[0], s) == Got(m, rest)
    ensures OpenItems(k, hash, items, s) ==
            match OpenItems(k, hash, items[1..], rest) case Got(more, s2) => Got([m] + more, s2) case Fail(st) => Fail(st)
  {
  }

  lemma OpenRealmsStep(ring: Ring, hash: bytes -> bytes, rows: seq<FileRealm>, s: bytes, part: ExportRealm, rest: bytes)
    requires rows != [] && (forall r :: r in rows ==> r.num >= 0)
    requires OpenRealm(ring(rows[0].realm), hash, rows[0], s) == Got(part, rest)
    ensures OpenRealms(ring, hash, rows, s) ==
            match OpenRealms(ring, hash, rows[1..], rest) case Got(more, s2) => Got([part] + more, s2) case Fail(st) => Fail(st)
  {
  }

  function ItemsOf(k: Manager, msgs: seq<Message>): seq<IndexItem>
    requires forall m :: m in msgs ==> ItemOf(k, m).Ok?
  {
    if msgs == [] then [] else [ItemOf(k, msgs[0]).value] + ItemsOf(k, msgs[1..])
  }

  lemma ItemsCons(first: bytes, item: IndexItem, rest: bytes, t: bytes, n: nat, items: seq<IndexItem>)
    requires GetIndexItem(first + (rest + t)) == Got(item, rest + t) && Items(rest + t, n) == Got(items, t)
    ensures Items((first + rest) + t, n + 1) == Got([item] + items, t)
  {
    Regroup(first, rest, t);
    ItemsStep(first + (rest + t), n, item, rest + t);
  }

  lemma ItemsThere(k: Manager, hash: bytes -> bytes, msgs: seq<Message>)
    requires IdealManager(k) && forall m :: m in msgs ==> MsgOk(hash, m)
    ensures forall m :: m in msgs ==> ItemOf(k, m).Ok?
  {
    forall m | m in msgs
      ensures ItemOf(k, m).Ok?
    {
      ItemRoundTrip(k, hash, m, []);
    }
  }

  lemma {:induction false} HeadsRoundTrip(k: Manager, hash: bytes -> bytes, msgs: seq<Message>, t: bytes)
    requires IdealManager(k) && forall m :: m in msgs ==> MsgOk(hash, m)
    ensures Heads(k, msgs).Ok? && forall m :: m in msgs ==> ItemOf(k, m).Ok?
    ensures Items(Heads(k, msgs).value + t, |msgs|) == Got(ItemsOf(k, msgs), t)
    decreases |msgs|
  {
    ItemsThere(k, hash, msgs);
    if msgs == [] {
      assert [] + t == t;
    } else {
      var (m, more) := (msgs[0], msgs[1..]);
      HeadsRoundTrip(k, hash, more, t);
      ItemRoundTrip(k, hash, m, Heads(k, more).value + t);
      ItemsCons(PutItem(k, m).value, ItemOf(k, m).value, Heads(k, more).value, t, |more|, ItemsOf(k, more));
    }
  }

  lemma BoxesCons(k: Manager, hash: bytes -> bytes, item: IndexItem, items: seq<IndexItem>, box: bytes, rest: bytes, t: bytes,
                  m: Message, msgs: seq<Message>)
    requires OpenItem(k, hash, item, box + (rest + t)) == Got(m, rest + t)
    requires OpenItems(k, hash, items, rest + t) == Got(msgs, t)
    ensures OpenItems(k, hash, [item] + items, (box + rest) + t) == Got([m] + msgs, t)
  {
    Regroup(box, rest, t);
    assert ([item] + items)[1..] == items;
    OpenItemsStep(k, hash, [item] + items, box + (rest + t), m, rest + t);
  }

  lemma {:induction false} BoxesRoundTrip(k: Manager, hash: bytes -> bytes, msgs: seq<Message>, t: bytes)
    requires IdealManager(k) && forall m :: m in msgs ==> MsgOk(hash, m) && ItemOf(k, m).Ok?
    ensures OpenItems(k, hash, ItemsOf(k, msgs), Boxes(k, msgs) + t) == Got(KeptAll(msgs), t)
    decreases |msgs|
  {
    if msgs == [] {
      assert [] + t == t;
    } else {
      var (m, more) := (msgs[0], msgs[1..]);
      BoxesRoundTrip(k, hash, more, t);
      ItemOpens(k, hash, m, Boxes(k, more) + t);
      BoxesCons(k, hash, ItemOf(k, m).value, ItemsOf(k, more), BoxOf(k, m), Boxes(k, more), t, Kept(m), KeptAll(more));
    }
  }

  lemma RealmRoundTrip(k: Manager, hash: bytes -> bytes, r: ExportRealm, t: bytes)
    requires IdealManager(k) && IdealHash(hash) && RealmOk(hash, r)
    ensures Heads(k, r.msgs).Ok?
    ensures var row := FileRealm(r.realm, |r.msgs|, hash(Heads(k, r.msgs).value));
            && FileRealmOk(row)
            && OpenRealm(k, hash, row, Heads(k, r.msgs).value + (Boxes(k, r.msgs) + t)) ==
               Got(ExportRealm(r.realm, KeptAll(r.msgs)), t)
  {
    var tail := Boxes(k, r.msgs) + t;
    HeadsRoundTrip(k, hash, r.msgs, tail);
    var heads := Heads(k, r.msgs).value;
    assert (heads + tail)[..|heads|] == heads;
    BoxesRoundTrip(k, hash, r.msgs, t);
    ToNumberExactly(|r.msgs|);
  }

  lemma PartsCons(ring: Ring, hash: bytes -> bytes, row: FileRealm, rows: seq<FileRealm>, chunk: bytes, chunks: bytes,
                  part: ExportRealm, parts: seq<ExportRealm>)
    requires row.num >= 0 && forall r :: r in rows ==> r.num >= 0
    requires OpenRealm(ring(row.realm), hash, row, chunk) == Got(part, chunks)
    requires OpenRealms(ring, hash, rows, chunks) == Got(parts, [])
    ensures OpenRealms(ring, hash, [row] + rows, chunk) == Got([part] + parts, [])
  {
    assert ([row] + rows)[1..] == rows;
    OpenRealmsStep(ring, hash, [row] + rows, chunk, part, chunks);
  }

  lemma {:induction false} PartsRoundTrip(ring: Ring, hash: bytes -> bytes, realms: seq<ExportRealm>)
    requires IdealRing(ring) && IdealHash(hash) && forall r :: r in realms ==> RealmOk(hash, r)
    ensures Parts(ring, hash, realms).Ok?
    ensures var (rows, chunks) := Parts(ring, hash, realms).value;
            && |rows| == |realms| && (forall r :: r in rows ==> FileRealmOk(r))
            && OpenRealms(ring, hash, rows, chunks) == Got(KeptRealms(realms), [])
    decreases |realms|
  {
    if realms == [] {
    } else {
      var (r, more) := (realms[0], realms[1..]);
      PartsRoundTrip(ring, hash, more);
      var (rows, chunks) := Parts(ring, hash, more).value;
      var k := ring(r.realm);
      RealmRoundTrip(k, hash, r, chunks);
      var row := FileRealm(r.realm, |r.msgs|, hash(Heads(k, r.msgs).value));
      PartsCons(ring, hash, row, rows, Heads(k, r.msgs).value + (Boxes(k, r.msgs) + chunks), chunks,
                ExportRealm(r.realm, KeptAll(r.msgs)), KeptRealms(more));
    }
  }

  // A file gives back its realms, heads and bodies, in order, and is read to
  // its last byte.
  lemma FileRoundTrip(ring: Ring, hash: bytes -> bytes, nonce: bytes, realms: seq<ExportRealm>)
    requires IdealRing(ring) && IdealHash(hash) && |nonce| == HASH_BYTES && RealmsOk(hash, realms)
    ensures FileOf(ring, hash, nonce, realms).Ok?
    ensures RealmsOf(ring, hash, FileOf(ring, hash, nonce, realms).value) == Ok(KeptRealms(realms))
  {
    PartsRoundTrip(ring, hash, realms);
    var (rows, chunks) := Parts(ring, hash, realms).value;
    RealmsRoundTrip(rows, []);
    var pre := Preimage(nonce, rows).value;
    FileHeadRoundTrip(FileHead(nonce, rows, hash(pre), ring(NULL_KDM).sign(hash(pre))), chunks);
  }

  // Nothing is lost exactly when each body is announced by its head.
  lemma KeptExactly(realms: seq<ExportRealm>)
    ensures KeptRealms(realms) == realms <==>
            forall r, m :: r in realms && m in r.msgs ==> m.body.None? || (m.head.len > 0 && m.head.hsh.Some?)
  {
    if KeptRealms(realms) == realms {
      forall r, m | r in realms && m in r.msgs
        ensures m.body.None? || HasBody(m)
      {
        var i :| 0 <= i < |realms| && realms[i] == r;
        var j :| 0 <= j < |r.msgs| && r.msgs[j] == m;
        assert KeptRealms(realms)[i].msgs == KeptAll(r.msgs);
        assert KeptAll(r.msgs)[j] == Kept(m);
      }
    }
    if forall r, m :: r in realms && m in r.msgs ==> m.body.None? || HasBody(m) {
      forall i | 0 <= i < |realms|
        ensures KeptRealms(realms)[i] == realms[i]
      {
        var r := realms[i];
        assert r in realms;
        assert forall j :: 0 <= j < |r.msgs| ==> Kept(r.msgs[j]) == r.msgs[j];
        assert KeptAll(r.msgs) == r.msgs;
      }
    }
  }

  /* ---- The imperative form ---- */

  // sealChunk: the head section first, then each body.
  method SealChunk(enc: Encoder, part: ExportRealm, k: Manager) returns (r: Result<bytes>)
    modifies enc
    ensures part.msgs == [] ==> r == Err(InvalidMessage)
    ensures part.msgs != [] ==> r == Heads(k, part.msgs)
    ensures r.Ok? ==> enc.Written() == old(enc.Written()) + (r.value + Boxes(k, part.msgs))
  {
    if |part.msgs| < 1 { return Err(InvalidMessage); }
    var encHeads := new Encoder();
    r := SealHeads(encHeads, part.msgs, k);
    if r.Err? { return; }
    enc.WriteBytes(r.value);
    ghost var base := enc.Written();
    for i := 0 to |part.msgs|
      invariant enc.Written() + Boxes(k, part.msgs[i..]) == base + Boxes(k, part.msgs)
    {
      var m := part.msgs[i];
      HeadsEach(k, part.msgs, i);
      assert part.msgs[i..][1..] == part.msgs[i + 1..];
      Regroup(enc.Written(), BoxOf(k, m), Boxes(k, part.msgs[i + 1..]));
      if m.body.None? || m.head.len <= 0 || m.head.hsh.None? {
        assert enc.Written() + [] == enc.Written();
        continue;
      }
      enc.WriteBytes(k.seal(k.bagKdm(PutHead(m.head).value), m.body.value));
    }
    assert enc.Written() + [] == enc.Written();
    Regroup(old(enc.Written()), r.value, Boxes(k, part.msgs));
  }

  lemma {:induction false} HeadsEach(k: Manager, msgs: seq<Message>, i: nat)
    requires i < |msgs| && Heads(k, msgs).Ok?
    ensures PutHead(msgs[i].head).Ok?
    decreases i
  {
    if i > 0 { HeadsEach(k, msgs[1..], i - 1); }
  }

  method SealHeads(enc: Encoder, msgs: seq<Message>, k: Manager) returns (r: Result<bytes>)
    requires enc.Written() == []
    modifies enc
    ensures r == Heads(k, msgs)
  {
    assert msgs[0..] == msgs;
    for i := 0 to |msgs|
      invariant Heads(k, msgs).Ok? <==> Heads(k, msgs[i..]).Ok?
      invariant Heads(k, msgs).Err? ==> Heads(k, msgs[i..]) == Heads(k, msgs)
      invariant Heads(k, msgs).Ok? ==> enc.Written() + Heads(k, msgs[i..]).value == Heads(k, msgs).value
    {
      ghost var before := enc.Written();
      assert msgs[i..][1..] == msgs[i + 1..];
      var st := SealHead(enc, msgs[i], k);
      if st != Success { return Err(st); }
      if Heads(k, msgs).Ok? { Regroup(before, PutItem(k, msgs[i]).value, Heads(k, msgs[i + 1..]).value); }
    }
    assert enc.Written() + [] == enc.Written();
    var heads := enc.Result();
    r := Ok(heads[..]);
  }

  method SealHead(enc: Encoder, m: Message, k: Manager) returns (st: Status)
    modifies enc
    ensures Wrote(PutItem(k, m), st, old(enc.Written()), enc.Written())
  {
    var encHead := new Encoder();
    st := EncodeHead(encHead, m.head);
    if st != Success { return; }
    assert [] + PutHead(m.head).value == PutHead(m.head).value;
    var out := encHead.Result();
    var headEnc := out[..];
    var kdm := k.bagKdm(headEnc);
    st := EncodeIndexItem(enc, IndexItem(kdm, k.seal(kdm, headEnc), BoxedLen(m)));
  }

  method HeadBytesOf(h: FileHead) returns (r: Result<bytes>)
    ensures r == PutFileHead(h)
  {
    var encHead := new Encoder();
    var st := EncodeFileHead(encHead, h);
    if st != Success { return Err(st); }
    assert [] + PutFileHead(h).value == PutFileHead(h).value;
    var head := encHead.Result();
    r := Ok(head[..]);
  }

  method EncodeFile(realms: seq<ExportRealm>, ring: Ring, hash: bytes -> bytes, nonce: bytes) returns (r: Result<bytes>)
    ensures r == FileOf(ring, hash, nonce, realms)
  {
    if |nonce| != HASH_BYTES { return Err(InvalidParam); }
    var enc := new Encoder();
    var parts := EncodeParts(enc, realms, ring, hash);
    if parts.Err? { return Err(parts.status); }
    var dir := parts.value;
    var pre :- Preimage(nonce, dir);
    var hsh := hash(pre);
    var sig := ring(NULL_KDM).sign(hsh);
    var head :- HeadBytesOf(FileHead(nonce, dir, hsh, sig));
    enc.PrependBytes(head);
    var out := enc.Result();
    r := Ok(out[..]);
  }

  // What is done so far, followed by the parts still to do, is the whole.
  ghost predicate PartsLeft(all: Result<(seq<FileRealm>, bytes)>, rest: Result<(seq<FileRealm>, bytes)>, dir: seq<FileRealm>,
                            written: bytes)
  {
    match rest
    case Err(st) => all == Err(st)
    case Ok((rows, chunks)) => all == Ok((dir + rows, written + chunks))
  }

  lemma {:induction false} PartDone(all: Result<(seq<FileRealm>, bytes)>, ring: Ring, hash: bytes -> bytes, realms: seq<ExportRealm>,
                 dir: seq<FileRealm>, written: bytes, heads: bytes)
    requires realms != [] && realms[0].msgs != [] && Heads(ring(realms[0].realm), realms[0].msgs) == Ok(heads)
    requires PartsLeft(all, Parts(ring, hash, realms), dir, written)
    ensures PartsLeft(all, Parts(ring, hash, realms[1..]), dir + [FileRealm(realms[0].realm, |realms[0].msgs|, hash(heads))],
                      written + (heads + Boxes(ring(realms[0].realm), realms[0].msgs)))
  {
    var row, boxes := FileRealm(realms[0].realm, |realms[0].msgs|, hash(heads)), Boxes(ring(realms[0].realm), realms[0].msgs);
    match Parts(ring, hash, realms[1..])
    case Err(_) =>
    case Ok((rows, chunks)) =>
      Regroup(heads, boxes, chunks);
      Regroup(written, heads + boxes, chunks);
      assert dir + ([row] + rows) == dir + [row] + rows;
  }

  method EncodeParts(enc: Encoder, realms: seq<ExportRealm>, ring: Ring, hash: bytes -> bytes)
    returns (r: Result<seq<FileRealm>>)
    requires enc.Written() == []
    modifies enc
    ensures match Parts(ring, hash, realms)
            case Err(st) => r == Err(st)
            case Ok((rows, chunks)) => r == Ok(rows) && enc.Written() == chunks
  {
    var dir: seq<FileRealm> := [];
    ghost var all := Parts(ring, hash, realms);
    assert realms[0..] == realms;
    assert all.Ok? ==> [] + all.value.0 == all.value.0 && [] + all.value.1 == all.value.1;
    for i := 0 to |realms|
      invariant PartsLeft(all, Parts(ring, hash, realms[i..]), dir, enc.Written())
    {
      var part := realms[i];
      ghost var written := enc.Written();
      assert realms[i..][1..] == realms[i + 1..];
      if |part.msgs| < 1 { return Err(InvalidMessage); }
      var heads := SealChunk(enc, part, ring(part.realm));
      if heads.Err? { return Err(heads.status); }
      PartDone(all, ring, hash, realms[i..], dir, written, heads.value);
      dir := dir + [FileRealm(part.realm, |part.msgs|, hash(heads.value))];
    }
    assert dir + [] == dir && enc.Written() + [] == enc.Written();
    r := Ok(dir);
  }

  // openChunk: the head section is checked before the bodies are read.
  method OpenChunk(dec: Decoder, row: FileRealm, hash: bytes -> bytes, k: Manager) returns (r: Result<seq<Message>>)
    requires dec.Valid() && row.num >= 0
    modifies dec
    ensures dec.Valid()
    ensures match OpenRealm(k, hash, row, old(dec.Tail()))
            case Fail(st) => r == Err(st)
            case Got(part, rest) => r == Ok(part.msgs) && dec.Tail() == rest && part.realm == row.realm
  {
    ghost var s := dec.Tail();
    var start := dec.pos;
    var items :- ReadItems(dec, row.num);
    assert |dec.Tail()| <= |s|;
    assert dec.data[start..dec.pos] == s[..|s| - |dec.Tail()|];
    if hash(dec.data[start..dec.pos]) != row.hsh { return Err(HashMismatch); }
    r := ReadMsgs(dec, items, hash, k);
  }

  method ReadItems(dec: Decoder, n: nat) returns (r: Result<seq<IndexItem>>)
    requires dec.Valid()
    modifies dec
    ensures dec.Valid() && Took(Items(old(dec.Tail()), n), r, dec.Tail())
    ensures r.Ok? ==> dec.pos >= old(dec.pos)
  {
    var items: seq<IndexItem> := [];
    var left := n;
    AfterNone(Items(dec.Tail(), n));
    while left > 0
      invariant dec.Valid() && dec.pos >= old(dec.pos)
      invariant Items(old(dec.Tail()), n) == After(items, Items(dec.Tail(), left))
    {
      ghost var (s, p) := (dec.Tail(), dec.pos);
      var item :- DecodeIndexItem(dec);
      ItemShorter(s);
      left := left - 1;
      ItemsStep(s, left, item, dec.Tail());
      AfterOne(items, item, Items(dec.Tail(), left));
      items := items + [item];
    }
    assert items + [] == items;
    r := Ok(items);
  }

  lemma {:induction false} DecShorter(s: bytes, k: nat)
    ensures Dec(s, k).Got? ==> |Dec(s, k).rest| < |s|
    decreases |s|
  {
    if s != [] && s[0] >= 128 && k + 1 < MAX_BYTES { DecShorter(s[1..], k + 1); }
  }

  lemma ItemShorter(s: bytes)
    ensures GetIndexItem(s).Got? ==> |GetIndexItem(s).rest| <= |s|
  {
    if GetIndexItem(s).Got? {
      var s1 := GetBytes(s, KDM_BYTES).rest;
      DecShorter(s1, 0);
      DecShorter(GetVarBytes(s1).rest, 0);
    }
  }

  method ReadMsgs(dec: Decoder, items: seq<IndexItem>, hash: bytes -> bytes, k: Manager) returns (r: Result<seq<Message>>)
    requires dec.Valid()
    modifies dec
    ensures dec.Valid() && Took(OpenItems(k, hash, items, old(dec.Tail())), r, dec.Tail())
  {
    var msgs: seq<Message> := [];
    AfterNone(OpenItems(k, hash, items, dec.Tail()));
    assert items[0..] == items;
    for i := 0 to |items|
      invariant dec.Valid()
      invariant OpenItems(k, hash, items, old(dec.Tail())) == After(msgs, OpenItems(k, hash, items[i..], dec.Tail()))
    {
      assert items[i..][1..] == items[i + 1..];
      var m :- ReadMsg(dec, items[i], hash, k);
      AfterOne(msgs, m, OpenItems(k, hash, items[i + 1..], dec.Tail()));
      msgs := msgs + [m];
    }
    assert msgs + [] == msgs;
    r := Ok(msgs);
  }

  method ReadMsg(dec: Decoder, item: IndexItem, hash: bytes -> bytes, k: Manager) returns (r: Result<Message>)
    requires dec.Valid()
    modifies dec
    ensures dec.Valid() && Took(OpenItem(k, hash, item, old(dec.Tail())), r, dec.Tail())
  {
    var headEnc := k.unseal(item.kdm, item.headCph);
    if headEnc.None? { return Err(DecryptionError); }
    var inner := new Decoder(headEnc.value);
    var head :- DecodeHead(inner);
    if item.lenBody < 0 { return Err(InvalidMessage); }
    if item.lenBody == 0 { return Ok(Message(head, None)); }
    if head.hsh.None? { return Err(InvalidMessage); }
    var box :- dec.ReadBytes(item.lenBody);
    var body := k.unseal(item.kdm, box);
    if body.None? { return Err(DecryptionError); }
    if hash(body.value) != head.hsh.value { return Err(HashMismatch); }
    r := Ok(Message(head, Some(body.value)));
  }

  method DecodeFile(file: bytes, ring: Ring, hash: bytes -> bytes) returns (r: Result<seq<ExportRealm>>)
    ensures r == RealmsOf(ring, hash, file)
  {
    HeadCounts(file);
    var dec := new Decoder(file);
    var head :- DecodeFileHead(dec);
    var chunks := dec.ReadRest();
    if !ring(NULL_KDM).check(head.sig, head.hsh) { return Err(InvalidSignature); }
    var pre :- Preimage(head.nonce, head.realms);
    if hash(pre) != head.hsh { return Err(HashMismatch); }
    var body := new Decoder(chunks);
    var realms :- ReadParts(body, head.realms, ring, hash);
    var done := body.Done();
    if !done { return Err(InvalidMessage); }
    r := Ok(realms);
  }

  method ReadParts(dec: Decoder, rows: seq<FileRealm>, ring: Ring, hash: bytes -> bytes) returns (r: Result<seq<ExportRealm>>)
    requires dec.Valid() && forall row :: row in rows ==> row.num >= 0
    modifies dec
    ensures dec.Valid() && Took(OpenRealms(ring, hash, rows, old(dec.Tail())), r, dec.Tail())
  {
    var realms: seq<ExportRealm> := [];
    AfterNone(OpenRealms(ring, hash, rows, dec.Tail()));
    assert rows[0..] == rows;
    for i := 0 to |rows|
      invariant dec.Valid()
      invariant OpenRealms(ring, hash, rows, old(dec.Tail())) == After(realms, OpenRealms(ring, hash, rows[i..], dec.Tail()))
    {
      var row := rows[i];
      assert rows[i..][1..] == rows[i + 1..];
      var msgs :- OpenChunk(dec, row, hash, ring(row.realm));
      AfterOne(realms, ExportRealm(row.realm, msgs), OpenRealms(ring, hash, rows[i + 1..], dec.Tail()));
      realms := realms + [ExportRealm(row.realm, msgs)];
    }
    assert realms + [] == realms;
    r := Ok(realms);
  }

  method MigrateFile(file: bytes, ringIn: Ring, ringOut: Ring, hash: bytes -> bytes, nonce: bytes,
                     transform: seq<ExportRealm> -> seq<ExportRealm>)
    returns (r: Result<bytes>)
    ensures match RealmsOf(ringIn, hash, file)
            case Err(st) => r == Err(st)
            case Ok(realms) => r == FileOf(ringOut, hash, nonce, transform(realms))
  {
    var realms :- DecodeFile(file, ringIn, hash);
    r := EncodeFile(transform(realms), ringOut, hash, nonce);
  }

  lemma KeptTwice(realms: seq<ExportRealm>)
    ensures KeptRealms(KeptRealms(realms)) == KeptRealms(realms)
  {
    forall i | 0 <= i < |realms|
      ensures KeptAll(KeptAll(realms[i].msgs)) == KeptAll(realms[i].msgs)
    {
    }
  }

  // Migrating a file unchanged keeps its content under the new key.
  lemma MigrateKeeps(ringIn: Ring, ringOut: Ring, hash: bytes -> bytes, nonce: bytes, nonce': bytes, realms: seq<ExportRealm>)
    requires IdealRing(ringIn) && IdealRing(ringOut) && IdealHash(hash)
    requires |nonce| == HASH_BYTES == |nonce'| && RealmsOk(hash, realms)
    ensures FileOf(ringIn, hash, nonce, realms).Ok?
    ensures var content := RealmsOf(ringIn, hash, FileOf(ringIn, hash, nonce, realms).value);
            && content.Ok? && FileOf(ringOut, hash, nonce', content.value).Ok?
            && RealmsOf(ringOut, hash, FileOf(ringOut, hash, nonce', content.value).value) == content
  {
    FileRoundTrip(ringIn, hash, nonce, realms);
    KeptRealmsOk(hash, realms);
    FileRoundTrip(ringOut, hash, nonce', KeptRealms(realms));
    KeptTwice(realms);
  }

  lemma KeptRealmsOk(hash: bytes -> bytes, realms: seq<ExportRealm>)
    requires RealmsOk(hash, realms)
    ensures RealmsOk(hash, KeptRealms(realms))
  {
    forall r' | r' in KeptRealms(realms)
      ensures RealmOk(hash, r')
    {
      var i :| 0 <= i < |realms| && KeptRealms(realms)[i] == r';
      assert realms[i] in realms;
      forall m' | m' in r'.msgs
        ensures MsgOk(hash, m')
      {
        var j :| 0 <= j < |r'.msgs| && r'.msgs[j] == m';
        assert realms[i].msgs[j] in realms[i].msgs;
        assert MsgOk(hash, realms[i].msgs[j]);
      }
    }
  }
}
