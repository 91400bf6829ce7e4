// From a message to its sealed bag, over the wire and the host, and back
// (shared/bag.ts, shared/sync.ts), and the archive row a message is rebuilt
// from (web/src/types.ts). Cryptography is ideal: unsealing inverts sealing,
// a signature checks for what was signed, sizes are as published.

module Sealing {
  import opened Basics
  import opened Codec
  import opened Structs

  // One bag manager: the ciphers of one realm under one identity.
  datatype Manager = Manager(
    rlm: bytes,
    bagKdm: bytes -> bytes,
    seal: (bytes, bytes) -> bytes,
    unseal: (bytes, bytes) -> Option<bytes>,
    sign: bytes -> bytes,
    check: (bytes, bytes) -> bool)

  // Nonce and tag of a sealed text.
  const BOX_OVER := 40

  ghost predicate IdealManager(m: Manager) {
    && |m.rlm| == HASH_BYTES
    && (forall head: bytes :: |m.bagKdm(head)| == KDM_BYTES)
    && (forall kdm: bytes, text: bytes :: m.unseal(kdm, m.seal(kdm, text)) == Some(text))
    && (forall kdm: bytes, text: bytes :: |m.seal(kdm, text)| == |text| + BOX_OVER)
    && (forall msg: bytes :: |m.sign(msg)| == SIG_BYTES && m.check(m.sign(msg), msg))
  }

  ghost predicate IdealHash(hash: bytes -> bytes) { forall x: bytes :: |hash(x)| == HASH_BYTES }

  // The assumptions can be met together.
  lemma IdealExists() returns (m: Manager, hash: bytes -> bytes)
    ensures IdealManager(m) && IdealHash(hash)
  {
    var zeros := (n: nat) => seq(n, _ => 0 as byte);
    m := Manager(zeros(HASH_BYTES), _ => zeros(KDM_BYTES), (_, text) => text + zeros(BOX_OVER),
                 (_, box: bytes) => if |box| < BOX_OVER then None else Some(box[..|box| - BOX_OVER]),
                 _ => zeros(SIG_BYTES), (_, _) => true);
    hash := _ => zeros(HASH_BYTES);
    forall kdm: bytes, text: bytes
      ensures m.unseal(kdm, m.seal(kdm, text)) == Some(text)
    {
      assert (text + zeros(BOX_OVER))[..|text|] == text;
    }
  }

  /* ---- Messages and their archive rows ---- */

  datatype Message = Message(head: Head, body: Option<bytes>)

  function HashOf(hash: bytes -> bytes, body: Option<bytes>): Option<bytes> {
    if body.Some? && body.value != [] then Some(hash(body.value)) else None
  }

  function LenOf(body: Option<bytes>): nat { if body.Some? then |body.value| else 0 }

  // The head's length and hash are those of the body.
  predicate Describes(hash: bytes -> bytes, m: Message) {
    m.head.len == LenOf(m.body) && m.head.hsh == HashOf(hash, m.body)
  }

  // The archive row: zero counters and an empty type are left out.
  datatype StoredMsg = StoredMsg(eid: bytes, off: Option<int>, ctr: Option<int>, typ: Option<bytes>, body: Option<bytes>)

  function ToStored(m: Message): StoredMsg {
    StoredMsg(m.head.eid,
              if m.head.off != 0 then Some(m.head.off) else None,
              if m.head.ctr != 0 then Some(m.head.ctr) else None,
              if m.head.typ != [] then Some(m.head.typ) else None,
              m.body)
  }

  function FromStored(hash: bytes -> bytes, row: StoredMsg): Message {
    Message(Head(if row.typ.Some? then row.typ.value else [], row.eid,
                 if row.off.Some? then row.off.value else 0,
                 if row.ctr.Some? then row.ctr.value else 0,
                 LenOf(row.body), HashOf(hash, row.body)),
            row.body)
  }

  // A message rebuilt from its row is the message exactly when its head
  // describes its body: its length is the body's, and it has the hash of a body
  // that is not empty and no other.
  lemma Rebuilt(hash: bytes -> bytes, m: Message)
    ensures FromStored(hash, ToStored(m)) == m <==> Describes(hash, m)
    ensures Describes(hash, m) <==>
            match m.body
            case None => m.head.len == 0 && m.head.hsh.None?
            case Some(body) =>
              m.head.len == |body| && m.head.hsh == (if body == [] then None else Some(hash(body)))
  {
  }

  /* ---- Sealing and opening ---- */

  function BagSigMsg(rlm: bytes, headCph: bytes): bytes { rlm + headCph }

  // The head is encoded with a hash made from the body; a body that is there
  // is sealed, even an empty one.
  function SealBag(k: Manager, hash: bytes -> bytes, m: Message): Result<Bag> {
    var hsh := if m.body.Some? && m.head.len > 0 then Some(hash(m.body.value)) else None;
    var headEnc :- PutHead(m.head.(hsh := hsh));
    var kdm := k.bagKdm(headEnc);
    var headCph := k.seal(kdm, headEnc);
    var bodyCph := if m.body.Some? then k.seal(kdm, m.body.value) else [];
    Ok(Bag(k.rlm, k.sign(BagSigMsg(k.rlm, headCph)), kdm, headCph, bodyCph))
  }

  datatype Opened = Opened(msg: Message, headHash: bytes)

  // known: the head hash, when the caller has computed it already.
  function OpenBagBody(hash: bytes -> bytes, headEnc: bytes, bodyCph: Option<bytes>, unseal: bytes -> Option<bytes>,
                       known: Option<bytes>): Result<Opened>
  {
    match GetHead(headEnc)
    case Fail(_) => Err(InvalidMessage)
    case Got(head, _) =>
      var body :- OpenBody(bodyCph, unseal);
      if head.hsh.Some? != body.Some? then Err(HashMismatch)
      else if head.hsh.Some? && hash(body.value) != head.hsh.value then Err(HashMismatch)
      else Ok(Opened(Message(head, body), if known.Some? then known.value else hash(headEnc)))
  }

  function OpenBody(bodyCph: Option<bytes>, unseal: bytes -> Option<bytes>): Result<Option<bytes>> {
    if bodyCph.Some? && bodyCph.value != [] then
      match unseal(bodyCph.value)
      case None => Err(DecryptionError)
      case Some(body) => Ok(Some(body))
    else Ok(None)
  }

  function OpenBag(k: Manager, hash: bytes -> bytes, bag: Bag): Result<Opened> {
    if |bag.rlm| != HASH_BYTES || !k.check(bag.sig, BagSigMsg(bag.rlm, bag.headCph)) then Err(InvalidSignature)
    else if bag.rlm != k.rlm then Err(NotFound)
    else
      match k.unseal(bag.kdm, bag.headCph)
      case None => Err(DecryptionError)
      case Some(headEnc) => OpenBagBody(hash, headEnc, Some(bag.bodyCph), box => k.unseal(bag.kdm, box), None)
  }

  // The head as its bag carries it.
  lemma SealedHead(k: Manager, hash: bytes -> bytes, m: Message)
    requires IdealHash(hash) && HeadOk(m.head) && Describes(hash, m)
    ensures PutHead(m.head).Ok? && GetHead(PutHead(m.head).value) == Got(m.head, [])
    ensures SealBag(k, hash, m).Ok?
    ensures var bag := SealBag(k, hash, m).value;
            && bag.kdm == k.bagKdm(PutHead(m.head).value)
            && bag.headCph == k.seal(bag.kdm, PutHead(m.head).value)
            && bag.bodyCph == (if m.body.Some? then k.seal(bag.kdm, m.body.value) else [])
            && bag.rlm == k.rlm && bag.sig == k.sign(BagSigMsg(k.rlm, bag.headCph))
  {
    HeadReads(m.head, []);
    assert PutHead(m.head).value + [] == PutHead(m.head).value;
    assert m.head.(hsh := m.head.hsh) == m.head;
  }

  // What openBagBody makes of a sealed body.
  lemma OpenSealed(k: Manager, hash: bytes -> bytes, m: Message, unseal: bytes -> Option<bytes>, known: Option<bytes>)
    requires IdealManager(k) && IdealHash(hash) && HeadOk(m.head) && Describes(hash, m)
    requires SealBag(k, hash, m).Ok?
    requires forall box: bytes :: unseal(box) == k.unseal(SealBag(k, hash, m).value.kdm, box)
    requires known.Some? ==> known.value == hash(PutHead(m.head).value)
    ensures PutHead(m.head).Ok?
    ensures var headEnc := PutHead(m.head).value;
            OpenBagBody(hash, headEnc, Some(SealBag(k, hash, m).value.bodyCph), unseal, known) ==
              if m.body == Some([]) then Err(HashMismatch) else Ok(Opened(m, hash(headEnc)))
  {
    SealedHead(k, hash, m);
    var bag := SealBag(k, hash, m).value;
    if m.body.Some? {
      assert |bag.bodyCph| == |m.body.value| + BOX_OVER;
      assert unseal(bag.bodyCph) == Some(m.body.value);
    }
  }

  // Opening a sealed message gives it back, with its archive key, exactly when
  // its body is not empty.
  lemma SealOpen(k: Manager, hash: bytes -> bytes, m: Message)
    requires IdealManager(k) && IdealHash(hash) && HeadOk(m.head) && Describes(hash, m)
    ensures SealBag(k, hash, m).Ok? && PutHead(m.head).Ok?
    ensures OpenBag(k, hash, SealBag(k, hash, m).value) == Ok(Opened(m, hash(PutHead(m.head).value)))
            <==> m.body != Some([])
  {
    SealedHead(k, hash, m);
    var bag := SealBag(k, hash, m).value;
    OpenSealed(k, hash, m, box => k.unseal(bag.kdm, box), None);
  }

  // hash tells x and y apart.
  predicate NoCollision(hash: bytes -> bytes, x: bytes, y: bytes) { hash(x) == hash(y) ==> x == y }

  function BodyBytes(m: Message): bytes { if m.body.Some? then m.body.value else [] }

  // Two messages have one archive key exactly when they are the same message.
  lemma KeyIsIdentity(hash: bytes -> bytes, a: Message, b: Message)
    requires HeadOk(a.head) && Describes(hash, a) && a.body != Some([])
    requires HeadOk(b.head) && Describes(hash, b) && b.body != Some([])
    ensures PutHead(a.head).Ok? && PutHead(b.head).Ok?
    ensures NoCollision(hash, PutHead(a.head).value, PutHead(b.head).value) && NoCollision(hash, BodyBytes(a), BodyBytes(b)) ==>
              (hash(PutHead(a.head).value) == hash(PutHead(b.head).value) <==> a == b)
  {
    HeadReads(a.head, []);
    HeadReads(b.head, []);
    if PutHead(a.head).value == PutHead(b.head).value && NoCollision(hash, BodyBytes(a), BodyBytes(b)) {
      assert a.head == b.head;
      assert BodyBytes(a) == BodyBytes(b);
    }
  }

  /* ---- What a signature and a hash vouch for ---- */

  // The signed bytes tell realms and heads apart.
  lemma SignedBytes(rlm: bytes, headCph: bytes, rlm': bytes, headCph': bytes)
    requires |rlm| == HASH_BYTES && |rlm'| == HASH_BYTES
    ensures BagSigMsg(rlm, headCph) == BagSigMsg(rlm', headCph') <==> rlm == rlm' && headCph == headCph'
  {
    assert BagSigMsg(rlm, headCph)[..HASH_BYTES] == rlm && BagSigMsg(rlm, headCph)[HASH_BYTES..] == headCph;
    assert BagSigMsg(rlm', headCph')[..HASH_BYTES] == rlm' && BagSigMsg(rlm', headCph')[HASH_BYTES..] == headCph';
  }

  // The check accepts only signatures over a realm of 32 bytes followed by a
  // head ciphertext, for one of these pairs.
  ghost predicate OnlyThese(check: (bytes, bytes) -> bool, authored: iset<(bytes, bytes)>) {
    forall sig: bytes, msg: bytes :: check(sig, msg) ==>
      exists rlm: bytes, headCph: bytes :: (rlm, headCph) in authored && |rlm| == HASH_BYTES && msg == rlm + headCph
  }

  // A signature that checks for a realm and a head was made for just these.
  lemma Authored(check: (bytes, bytes) -> bool, authored: iset<(bytes, bytes)>, sig: bytes, rlm: bytes, headCph: bytes)
    requires OnlyThese(check, authored) && |rlm| == HASH_BYTES && check(sig, BagSigMsg(rlm, headCph))
    ensures (rlm, headCph) in authored
  {
    var rlm': bytes, headCph': bytes :|
      (rlm', headCph') in authored && |rlm'| == HASH_BYTES && BagSigMsg(rlm, headCph) == rlm' + headCph';
    SignedBytes(rlm, headCph, rlm', headCph');
  }

  // Sealing signs the bag's realm followed by its head ciphertext.
  lemma SealSigns(k: Manager, hash: bytes -> bytes, m: Message)
    requires SealBag(k, hash, m).Ok?
    ensures var bag := SealBag(k, hash, m).value;
            bag.rlm == k.rlm && bag.sig == k.sign(bag.rlm + bag.headCph)
  {
  }

  // Whatever opens was signed for its own realm and head, decrypts to the head
  // it comes with, and has the body that the head announces.
  lemma OpenVouches(k: Manager, hash: bytes -> bytes, bag: Bag, authored: iset<(bytes, bytes)>)
    requires OnlyThese(k.check, authored) && OpenBag(k, hash, bag).Ok?
    ensures (bag.rlm, bag.headCph) in authored && bag.rlm == k.rlm
    ensures var (got, headEnc) := (OpenBag(k, hash, bag).value, k.unseal(bag.kdm, bag.headCph));
            && headEnc.Some? && GetHead(headEnc.value).Got? && GetHead(headEnc.value).value == got.msg.head
            && got.headHash == hash(headEnc.value)
            && got.msg.body == (if bag.bodyCph == [] then None else k.unseal(bag.kdm, bag.bodyCph))
            && (got.msg.body.Some? <==> got.msg.head.hsh.Some?)
            && (got.msg.body.Some? ==> hash(got.msg.body.value) == got.msg.head.hsh.value)
  {
    Authored(k.check, authored, bag.sig, bag.rlm, bag.headCph);
  }

  /* ---- Over the wire and the host ---- */

  // What the host keeps of an accepted bag, under some sequence number.
  datatype HostItem = HostItem(headCph: bytes, bodyCph: bytes)

  function HostItemOf(bag: Bag): Result<HostItem> {
    var head :- PutPeekHead(PeekHead(bag.sig, bag.kdm, bag.headCph));
    Ok(HostItem(head, bag.bodyCph))
  }

  predicate BagSigValid(k: Manager, bag: Bag) {
    |bag.rlm| == HASH_BYTES && k.check(bag.sig, BagSigMsg(bag.rlm, bag.headCph))
  }

  function DecryptPeekItem(k: Manager, item: PeekItem): Result<(bytes, bytes)> {
    if |k.rlm| != HASH_BYTES then Err(InvalidParam)
    else
      match GetPeekHead(item.headCph)
      case Fail(st) => Err(st)
      case Got(head, _) =>
        if !k.check(head.sig, BagSigMsg(k.rlm, head.headCph)) then Err(InvalidSignature)
        else
          match k.unseal(head.kdm, head.headCph)
          case None => Err(DecryptionError)
          case Some(headEnc) => Ok((head.kdm, headEnc))
  }

  // A listed item that decrypts was signed for the reader's realm.
  lemma PeekVouches(k: Manager, item: PeekItem, authored: iset<(bytes, bytes)>)
    requires OnlyThese(k.check, authored) && DecryptPeekItem(k, item).Ok?
    ensures GetPeekHead(item.headCph).Got?
    ensures var head := GetPeekHead(item.headCph).value;
            && (k.rlm, head.headCph) in authored
            && k.unseal(head.kdm, head.headCph) == Some(DecryptPeekItem(k, item).value.1)
            && head.kdm == DecryptPeekItem(k, item).value.0
  {
    Authored(k.check, authored, GetPeekHead(item.headCph).value.sig, k.rlm, GetPeekHead(item.headCph).value.headCph);
  }

  // The author's push, as the host reads it off the wire: the same bag, which
  // it accepts.
  lemma PushedBag(k: Manager, hash: bytes -> bytes, m: Message, t: bytes)
    requires IdealManager(k) && IdealHash(hash) && HeadOk(m.head) && Describes(hash, m)
    requires SmallEnough(k, m)
    ensures SealBag(k, hash, m).Ok? && PutBag(SealBag(k, hash, m).value).Ok?
    ensures var bag := SealBag(k, hash, m).value;
            GetBag(PutBag(bag).value + t) == Got(bag, t) && BagSigValid(k, bag) && HostItemOf(bag).Ok?
  {
    SealedHead(k, hash, m);
    var bag := SealBag(k, hash, m).value;
    BagRoundTrip(bag, t);
    PeekHeadRoundTrip(PeekHead(bag.sig, bag.kdm, bag.headCph), []);
  }

  // Sealed head and body, and the host item around them, fit a buffer.
  predicate SmallEnough(k: Manager, m: Message) {
    && (PutHead(m.head).Ok? ==> |PutHead(m.head).value| + 1000 < EXACT)
    && (m.body.Some? ==> |m.body.value| + 1000 < EXACT)
  }

  // The reader's peek gives the head back, and its key is the author's.
  lemma PeekedItem(k: Manager, hash: bytes -> bytes, m: Message, seqno: int, t: bytes)
    requires IdealManager(k) && IdealHash(hash) && HeadOk(m.head) && Describes(hash, m)
    requires SmallEnough(k, m) && Num(seqno)
    ensures SealBag(k, hash, m).Ok? && HostItemOf(SealBag(k, hash, m).value).Ok? && PutHead(m.head).Ok?
    ensures var bag := SealBag(k, hash, m).value;
            var item := PeekItem(seqno, HostItemOf(bag).value.headCph);
            && PutPeekItem(item).Ok? && GetPeekItem(PutPeekItem(item).value + t) == Got(item, t)
            && DecryptPeekItem(k, item) == Ok((bag.kdm, PutHead(m.head).value))
  {
    SealedHead(k, hash, m);
    var bag := SealBag(k, hash, m).value;
    var head := PeekHead(bag.sig, bag.kdm, bag.headCph);
    PeekHeadRoundTrip(head, []);
    assert PutPeekHead(head).value + [] == PutPeekHead(head).value;
    PeekHeadSize(head);
    PeekItemRoundTrip(PeekItem(seqno, PutPeekHead(head).value), t);
  }

  lemma PeekHeadSize(p: PeekHead)
    requires |p.sig| == SIG_BYTES && |p.kdm| == KDM_BYTES && PutPeekHead(p).Ok?
    ensures |PutPeekHead(p).value| <= |p.headCph| + 80
  {
  }

  // Seal, push, store, peek, pull, open: from the archive row of the author
  // to the same message under the same key at the reader.
  lemma EndToEnd(k: Manager, hash: bytes -> bytes, row: StoredMsg, seqno: int, t: bytes)
    requires IdealManager(k) && IdealHash(hash) && Num(seqno)
    requires var m := FromStored(hash, row); HeadOk(m.head) && SmallEnough(k, m) && m.body != Some([])
    ensures var m := FromStored(hash, row);
            && PutHead(m.head).Ok? && SealBag(k, hash, m).Ok?
            && var (key, bag) := (hash(PutHead(m.head).value), SealBag(k, hash, m).value);
               // push
               && PutBag(bag).Ok? && GetBag(PutBag(bag).value + t) == Got(bag, t)
               && BagSigValid(k, bag) && HostItemOf(bag).Ok?
               && var item := HostItemOf(bag).value;
                  // peek
                  && PutPeekItem(PeekItem(seqno, item.headCph)).Ok?
                  && GetPeekItem(PutPeekItem(PeekItem(seqno, item.headCph)).value + t) == Got(PeekItem(seqno, item.headCph), t)
                  && DecryptPeekItem(k, PeekItem(seqno, item.headCph)) == Ok((bag.kdm, PutHead(m.head).value))
                  // pull and open
                  && PutPullItem(PullItem(seqno, item.bodyCph)).Ok?
                  && GetPullItem(PutPullItem(PullItem(seqno, item.bodyCph)).value + t) == Got(PullItem(seqno, item.bodyCph), t)
                  && OpenBagBody(hash, PutHead(m.head).value, Some(item.bodyCph), box => k.unseal(bag.kdm, box), Some(key))
                     == Ok(Opened(m, key))
                  && ToStored(m) == row.(off := if m.head.off != 0 then Some(m.head.off) else None,
                                         ctr := if m.head.ctr != 0 then Some(m.head.ctr) else None,
                                         typ := if m.head.typ != [] then Some(m.head.typ) else None)
  {
    var m := FromStored(hash, row);
    PushedBag(k, hash, m, t);
    PeekedItem(k, hash, m, seqno, t);
    var bag := SealBag(k, hash, m).value;
    PullItemRoundTrip(PullItem(seqno, bag.bodyCph), t);
    OpenSealed(k, hash, m, box => k.unseal(bag.kdm, box), Some(hash(PutHead(m.head).value)));
  }
}
