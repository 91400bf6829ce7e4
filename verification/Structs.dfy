// The records that messages, bags and export files are made of, as bytes
// (shared/codecs). Each Put writes what its Get reads back.

module Structs {
  import opened Basics
  import opened Codec

  const HASH_BYTES := 32
  const SIG_BYTES := 64
  const KDM_BYTES := 8

  // A number that is written in full and read back as itself.
  predicate Num(n: int) { 0 <= n < LIMIT && IsDouble(n) }

  lemma NumRoundTrip(n: int, t: bytes)
    requires Num(n)
    ensures PutVarInt(n).Ok? && GetVarInt(PutVarInt(n).value + t) == Got(n, t)
  {
    PutVarIntExactly(n);
    VarIntRoundTrip(n, t);
  }

  lemma BytesRoundTrip(b: bytes, t: bytes)
    ensures GetBytes(b + t, |b|) == Got(b, t)
  {
    assert (b + t)[..|b|] == b && (b + t)[|b|..] == t;
  }

  /* ---- Entity ids ---- */

  datatype EidRec = EidRec(id: bytes, ts: int)

  function PutEid(e: EidRec): Result<bytes> {
    var id :- PutVarBytes(e.id);
    var ts :- PutVarInt(e.ts);
    Ok(id + ts)
  }

  function GetEid(s: bytes): Read<EidRec> {
    var (id, s1) :- GetVarBytes(s);
    var (ts, s2) :- GetVarInt(s1);
    Got(EidRec(id, ts), s2)
  }

  predicate EidOk(e: EidRec) { Fits(e.id) && Num(e.ts) }

  lemma EidRoundTrip(e: EidRec, t: bytes)
    requires EidOk(e)
    ensures PutEid(e).Ok? && GetEid(PutEid(e).value + t) == Got(e, t)
  {
    NumRoundTrip(e.ts, t);
    var ts := PutVarInt(e.ts).value;
    VarBytesRoundTrip(e.id, ts + t);
    Regroup(PutVarBytes(e.id).value, ts, t);
  }

  /* ---- Entity bodies ---- */

  datatype EntBody = EntBody(pid: Option<bytes>, tags: seq<bytes>, body: Option<bytes>)

  function PutEnt(ent: EntBody): Result<bytes> {
    var pid :- PutVarBytes(if ent.pid.Some? then ent.pid.value else []);
    var tags :- PutVarStrings(ent.tags);
    Ok(pid + (tags + (if ent.body.Some? then ent.body.value else [])))
  }

  // A parent must parse as an eid, to its last byte; it is kept re-encoded.
  function GetPid(s: bytes): Result<Option<bytes>> {
    if s == [] then Ok(None)
    else
      match GetEid(s)
      case Fail(st) => Err(st)
      case Got(eid, rest) =>
        if rest != [] then Err(InvalidMessage)
        else
          var again :- PutEid(eid);
          Ok(Some(again))
  }

  // The body is whatever follows the tags.
  function GetEnt(s: bytes): Read<EntBody> {
    var (pidBytes, s1) :- GetVarBytes(s);
    match GetPid(pidBytes)
    case Err(st) => Fail(st)
    case Ok(pid) =>
      var (tags, s2) :- GetVarStrings(s1);
      Got(EntBody(pid, tags, if s2 == [] then None else Some(s2)), [])
  }

  // A parent in the one form that makeEID gives it.
  predicate PidOk(pid: bytes) {
    Fits(pid) && match GetEid(pid) case Got(eid, rest) => rest == [] && PutEid(eid) == Ok(pid) case Fail(_) => false
  }

  predicate EntOk(ent: EntBody) {
    && (ent.pid.Some? && ent.pid.value != [] ==> PidOk(ent.pid.value))
    && |ent.tags| < EXACT && forall tag :: tag in ent.tags ==> Fits(tag)
  }

  // An empty parent or body is the same as none.
  function Plain(b: Option<bytes>): Option<bytes> { if b == Some([]) then None else b }

  lemma EntRoundTrip(ent: EntBody)
    requires EntOk(ent)
    ensures PutEnt(ent).Ok?
    ensures GetEnt(PutEnt(ent).value) == Got(EntBody(Plain(ent.pid), ent.tags, Plain(ent.body)), [])
  {
    var pid := if ent.pid.Some? then ent.pid.value else [];
    var body := if ent.body.Some? then ent.body.value else [];
    assert Fits(pid);
    VarStringsRoundTrip(ent.tags, body);
    VarBytesRoundTrip(pid, PutVarStrings(ent.tags).value + body);
  }

  lemma MadeEidIsOk(e: EidRec)
    requires EidOk(e) && PutEid(e).Ok? && Fits(PutEid(e).value)
    ensures PidOk(PutEid(e).value)
  {
    EidRoundTrip(e, []);
    assert PutEid(e).value + [] == PutEid(e).value;
  }

  /* ---- Message heads ---- */

  datatype Head = Head(typ: bytes, eid: bytes, off: int, ctr: int, len: int, hsh: Option<bytes>)

  function PutHead(h: Head): Result<bytes> {
    var typ :- PutVarBytes(h.typ);
    var eid :- PutVarBytes(h.eid);
    var off :- PutVarInt(h.off);
    var ctr :- PutVarInt(h.ctr);
    var len :- PutVarInt(h.len);
    Ok(typ + (eid + (off + (ctr + (len + (if h.hsh.Some? then h.hsh.value else []))))))
  }

  // The hash is there exactly when the length is positive.
  function GetHsh(s: bytes, len: nat): Read<Option<bytes>> {
    if len > 0 then
      var (hsh, rest) :- GetBytes(s, HASH_BYTES);
      Got(Some(hsh), rest)
    else Got(None, s)
  }

  function GetHead(s: bytes): Read<Head> {
    var (typ, s1) :- GetVarBytes(s);
    var (eid, s2) :- GetVarBytes(s1);
    if GetEid(eid).Fail? then Fail(GetEid(eid).status)
    else
      GetHeadRest(typ, eid, s2)
  }

  function GetHeadRest(typ: bytes, eid: bytes, s: bytes): Read<Head> {
    var (off, s1) :- GetVarInt(s);
    var (ctr, s2) :- GetVarInt(s1);
    var (len, s3) :- GetVarInt(s2);
    var (hsh, s4) :- GetHsh(s3, len);
    Got(Head(typ, eid, off, ctr, len, hsh), s4)
  }

  predicate HeadFits(h: Head) { Fits(h.typ) && Fits(h.eid) && Num(h.off) && Num(h.ctr) && Num(h.len) }

  // The length and the hash tell the same story.
  predicate HshOk(h: Head) {
    match h.hsh
    case None => h.len == 0
    case Some(hsh) => h.len > 0 && |hsh| == HASH_BYTES
  }

  predicate HeadOk(h: Head) { HeadFits(h) && GetEid(h.eid).Got? && HshOk(h) }

  lemma HeadPrefix(h: Head, t: bytes)
    requires HeadFits(h)
    ensures PutHead(h).Ok?
    ensures GetHead(PutHead(h).value + t) ==
            if GetEid(h.eid).Fail? then Fail(GetEid(h.eid).status)
            else
              match GetHsh((if h.hsh.Some? then h.hsh.value else []) + t, h.len)
              case Fail(st) => Fail(st)
              case Got(hsh, rest) => Got(h.(hsh := hsh), rest)
  {
    var tail := (if h.hsh.Some? then h.hsh.value else []) + t;
    NumRoundTrip(h.len, tail);
    var s3 := PutVarInt(h.len).value + tail;
    NumRoundTrip(h.ctr, s3);
    var s2 := PutVarInt(h.ctr).value + s3;
    NumRoundTrip(h.off, s2);
    var s1 := PutVarInt(h.off).value + s2;
    VarBytesRoundTrip(h.eid, s1);
    VarBytesRoundTrip(h.typ, PutVarBytes(h.eid).value + s1);
    HeadBytes(h, t);
  }

  lemma HeadBytes(h: Head, t: bytes)
    requires PutHead(h).Ok?
    ensures PutHead(h).value + t ==
            PutVarBytes(h.typ).value + (PutVarBytes(h.eid).value + (PutVarInt(h.off).value + (PutVarInt(h.ctr).value +
            (PutVarInt(h.len).value + ((if h.hsh.Some? then h.hsh.value else []) + t)))))
  {
  }

  // A head reads back as itself, whatever follows it, exactly when its eid
  // parses and its hash is there if and only if its length is positive.
  lemma HeadRoundTrip(h: Head)
    requires HeadFits(h)
    ensures PutHead(h).Ok?
    ensures (forall t: bytes :: GetHead(PutHead(h).value + t) == Got(h, t)) <==> HeadOk(h)
  {
    HeadPrefix(h, []);
    if HeadOk(h) {
      forall t: bytes
        ensures GetHead(PutHead(h).value + t) == Got(h, t)
      {
        HeadReads(h, t);
      }
    } else if HshOk(h) {
      assert GetHead(PutHead(h).value + []) != Got(h, []);
    } else {
      HshStrays(h);
    }
  }

  lemma HeadReads(h: Head, t: bytes)
    requires HeadOk(h)
    ensures PutHead(h).Ok? && GetHead(PutHead(h).value + t) == Got(h, t)
  {
    HeadPrefix(h, t);
    if h.hsh.Some? { BytesRoundTrip(h.hsh.value, t); }
    assert [] + t == t;
  }

  lemma HshStrays(h: Head)
    requires HeadFits(h) && !HshOk(h)
    ensures PutHead(h).Ok?
    ensures exists t: bytes :: GetHead(PutHead(h).value + t) != Got(h, t)
  {
    var t := seq(HASH_BYTES, _ => 0);
    HeadPrefix(h, t);
    var tail := (if h.hsh.Some? then h.hsh.value else []) + t;
    assert |GetBytes(tail, HASH_BYTES).value| == HASH_BYTES;
    assert GetHead(PutHead(h).value + t) != Got(h, t);
  }

  /* ---- Key derivation material, bags and what the host sends back ---- */

  datatype Kdm = Kdm(name: bytes, index: int)

  function PutKdm(k: Kdm): Result<bytes> {
    var name :- PutVarBytes(k.name);
    var index :- PutVarInt(k.index);
    Ok(name + index)
  }

  function GetKdm(s: bytes): Read<Kdm> {
    var (name, s1) :- GetVarBytes(s);
    var (index, s2) :- GetVarInt(s1);
    Got(Kdm(name, index), s2)
  }

  predicate KdmOk(k: Kdm) { Fits(k.name) && Num(k.index) }

  lemma KdmRoundTrip(k: Kdm, t: bytes)
    requires KdmOk(k)
    ensures PutKdm(k).Ok? && GetKdm(PutKdm(k).value + t) == Got(k, t)
  {
    NumRoundTrip(k.index, t);
    var index := PutVarInt(k.index).value;
    VarBytesRoundTrip(k.name, index + t);
    Regroup(PutVarBytes(k.name).value, index, t);
  }

  datatype Bag = Bag(rlm: bytes, sig: bytes, kdm: bytes, headCph: bytes, bodyCph: bytes)

  function PutBag(b: Bag): Result<bytes> {
    if |b.rlm| != HASH_BYTES || |b.sig| != SIG_BYTES then Err(InvalidParam)
    else
      var head :- PutVarBytes(b.headCph);
      var body :- PutVarBytes(b.bodyCph);
      Ok(b.sig + (b.rlm + (b.kdm + (head + body))))
  }

  function GetBag(s: bytes): Read<Bag> {
    var (sig, s1) :- GetBytes(s, SIG_BYTES);
    var (rlm, s2) :- GetBytes(s1, HASH_BYTES);
    var (kdm, s3) :- GetBytes(s2, KDM_BYTES);
    var (headCph, s4) :- GetVarBytes(s3);
    var (bodyCph, s5) :- GetVarBytes(s4);
    Got(Bag(rlm, sig, kdm, headCph, bodyCph), s5)
  }

  predicate BagOk(b: Bag) {
    |b.rlm| == HASH_BYTES && |b.sig| == SIG_BYTES && |b.kdm| == KDM_BYTES && Fits(b.headCph) && Fits(b.bodyCph)
  }

  lemma BagRoundTrip(b: Bag, t: bytes)
    requires BagOk(b)
    ensures PutBag(b).Ok? && GetBag(PutBag(b).value + t) == Got(b, t)
  {
    VarBytesRoundTrip(b.bodyCph, t);
    var s4 := PutVarBytes(b.bodyCph).value + t;
    VarBytesRoundTrip(b.headCph, s4);
    var s3 := PutVarBytes(b.headCph).value + s4;
    BytesRoundTrip(b.kdm, s3);
    BytesRoundTrip(b.rlm, b.kdm + s3);
    BytesRoundTrip(b.sig, b.rlm + (b.kdm + s3));
    var (head, body) := (PutVarBytes(b.headCph).value, PutVarBytes(b.bodyCph).value);
    Regroup(head, body, t);
    Regroup(b.kdm, head + body, t);
    Regroup(b.rlm, b.kdm + (head + body), t);
    Regroup(b.sig, b.rlm + (b.kdm + (head + body)), t);
  }

  datatype PeekHead = PeekHead(sig: bytes, kdm: bytes, headCph: bytes)

  function PutPeekHead(p: PeekHead): Result<bytes> {
    var head :- PutVarBytes(p.headCph);
    Ok(p.sig + (p.kdm + head))
  }

  function GetPeekHead(s: bytes): Read<PeekHead> {
    var (sig, s1) :- GetBytes(s, SIG_BYTES);
    var (kdm, s2) :- GetBytes(s1, KDM_BYTES);
    var (headCph, s3) :- GetVarBytes(s2);
    Got(PeekHead(sig, kdm, headCph), s3)
  }

  lemma PeekHeadRoundTrip(p: PeekHead, t: bytes)
    requires |p.sig| == SIG_BYTES && |p.kdm| == KDM_BYTES && Fits(p.headCph)
    ensures PutPeekHead(p).Ok? && GetPeekHead(PutPeekHead(p).value + t) == Got(p, t)
  {
    VarBytesRoundTrip(p.headCph, t);
    var s2 := PutVarBytes(p.headCph).value + t;
    BytesRoundTrip(p.kdm, s2);
    BytesRoundTrip(p.sig, p.kdm + s2);
    var head := PutVarBytes(p.headCph).value;
    Regroup(p.kdm, head, t);
    Regroup(p.sig, p.kdm + head, t);
  }

  // One item of a PEEK answer, and one of a PULL answer.
  datatype PeekItem = PeekItem(seqno: int, headCph: bytes)
  datatype PullItem = PullItem(seqno: int, bodyCph: bytes)

  function PutPeekItem(p: PeekItem): Result<bytes> {
    var head :- PutVarBytes(p.headCph);
    var n :- PutVarInt(p.seqno);
    Ok(head + n)
  }

  function GetPeekItem(s: bytes): Read<PeekItem> {
    var (headCph, s1) :- GetVarBytes(s);
    var (n, s2) :- GetVarInt(s1);
    Got(PeekItem(n, headCph), s2)
  }

  lemma PeekItemRoundTrip(p: PeekItem, t: bytes)
    requires Num(p.seqno) && Fits(p.headCph)
    ensures PutPeekItem(p).Ok? && GetPeekItem(PutPeekItem(p).value + t) == Got(p, t)
  {
    NumRoundTrip(p.seqno, t);
    VarBytesRoundTrip(p.headCph, PutVarInt(p.seqno).value + t);
    Regroup(PutVarBytes(p.headCph).value, PutVarInt(p.seqno).value, t);
  }

  function PutPullItem(p: PullItem): Result<bytes> {
    var n :- PutVarInt(p.seqno);
    var body :- PutVarBytes(p.bodyCph);
    Ok(n + body)
  }

  function GetPullItem(s: bytes): Read<PullItem> {
    var (n, s1) :- GetVarInt(s);
    var (bodyCph, s2) :- GetVarBytes(s1);
    Got(PullItem(n, bodyCph), s2)
  }

  lemma PullItemRoundTrip(p: PullItem, t: bytes)
    requires Num(p.seqno) && Fits(p.bodyCph)
    ensures PutPullItem(p).Ok? && GetPullItem(PutPullItem(p).value + t) == Got(p, t)
  {
    VarBytesRoundTrip(p.bodyCph, t);
    NumRoundTrip(p.seqno, PutVarBytes(p.bodyCph).value + t);
    Regroup(PutVarInt(p.seqno).value, PutVarBytes(p.bodyCph).value, t);
  }

  /* ---- Export files ---- */

  datatype FileRealm = FileRealm(realm: Kdm, num: int, hsh: bytes)

  function PutFileRealm(r: FileRealm): Result<bytes> {
    if r.num < 1 then Err(InvalidMessage)
    else if |r.hsh| != HASH_BYTES then Err(InvalidParam)
    else
      var realm :- PutKdm(r.realm);
      var num :- PutVarInt(r.num);
      Ok(realm + (num + r.hsh))
  }

  function GetFileRealm(s: bytes): Read<FileRealm> {
    var (realm, s1) :- GetKdm(s);
    var (num, s2) :- GetVarInt(s1);
    if num < 1 then Fail(InvalidMessage)
    else
      var (hsh, s3) :- GetBytes(s2, HASH_BYTES);
      Got(FileRealm(realm, num, hsh), s3)
  }

  predicate FileRealmOk(r: FileRealm) { KdmOk(r.realm) && r.num >= 1 && Num(r.num) && |r.hsh| == HASH_BYTES }

  lemma FileRealmRoundTrip(r: FileRealm, t: bytes)
    requires FileRealmOk(r)
    ensures PutFileRealm(r).Ok? && |PutFileRealm(r).value| >= 1
    ensures GetFileRealm(PutFileRealm(r).value + t) == Got(r, t)
  {
    BytesRoundTrip(r.hsh, t);
    NumRoundTrip(r.num, r.hsh + t);
    var s1 := PutVarInt(r.num).value + (r.hsh + t);
    KdmRoundTrip(r.realm, s1);
    Regroup(PutVarInt(r.num).value, r.hsh, t);
    Regroup(PutKdm(r.realm).value, PutVarInt(r.num).value + r.hsh, t);
  }

  datatype IndexItem = IndexItem(kdm: bytes, headCph: bytes, lenBody: int)

  function PutIndexItem(i: IndexItem): Result<bytes> {
    var head :- PutVarBytes(i.headCph);
    var len :- PutVarInt(i.lenBody);
    Ok(i.kdm + (head + len))
  }

  function GetIndexItem(s: bytes): Read<IndexItem> {
    var (kdm, s1) :- GetBytes(s, KDM_BYTES);
    var (headCph, s2) :- GetVarBytes(s1);
    var (lenBody, s3) :- GetVarInt(s2);
    Got(IndexItem(kdm, headCph, lenBody), s3)
  }

  predicate IndexItemOk(i: IndexItem) { |i.kdm| == KDM_BYTES && Fits(i.headCph) && Num(i.lenBody) }

  lemma IndexItemRoundTrip(i: IndexItem, t: bytes)
    requires IndexItemOk(i)
    ensures PutIndexItem(i).Ok? && GetIndexItem(PutIndexItem(i).value + t) == Got(i, t)
  {
    NumRoundTrip(i.lenBody, t);
    VarBytesRoundTrip(i.headCph, PutVarInt(i.lenBody).value + t);
    var s1 := PutVarBytes(i.headCph).value + (PutVarInt(i.lenBody).value + t);
    BytesRoundTrip(i.kdm, s1);
    Regroup(PutVarBytes(i.headCph).value, PutVarInt(i.lenBody).value, t);
    Regroup(i.kdm, PutVarBytes(i.headCph).value + PutVarInt(i.lenBody).value, t);
  }

  datatype FileHead = FileHead(nonce: bytes, realms: seq<FileRealm>, hsh: bytes, sig: bytes)

  function PutRows(rows: seq<FileRealm>): Result<bytes> {
    if rows == [] then Ok([])
    else
      var first :- PutFileRealm(rows[0]);
      var rest :- PutRows(rows[1..]);
      Ok(first + rest)
  }

  function GetRows(s: bytes, n: nat): Read<seq<FileRealm>>
    decreases n
  {
    if n == 0 then Got([], s)
    else
      var (first, s1) :- GetFileRealm(s);
      var (more, s2) :- GetRows(s1, n - 1);
      Got([first] + more, s2)
  }

  function PutRealms(rows: seq<FileRealm>): Result<bytes> {
    var n :- PutVarInt(|rows|);
    var all :- PutRows(rows);
    Ok(n + all)
  }

  function GetRealms(s: bytes): Read<seq<FileRealm>> {
    var (n, s1) :- GetVarInt(s);
    if n > |s1| then Fail(InvalidMessage) else GetRows(s1, n)
  }

  predicate RowsOk(rows: seq<FileRealm>) { |rows| < EXACT && forall r :: r in rows ==> FileRealmOk(r) }

  // One row in front of rows that read back.
  lemma OneRowMore(first: FileRealm, rows: seq<FileRealm>, rest: bytes, t: bytes)
    requires FileRealmOk(first) && PutRows(rows) == Ok(rest) && GetRows(rest + t, |rows|) == Got(rows, t)
    ensures PutFileRealm(first).Ok? && |PutFileRealm(first).value| >= 1
    ensures GetRows(PutFileRealm(first).value + rest + t, |rows| + 1) == Got([first] + rows, t)
  {
    FileRealmRoundTrip(first, rest + t);
    Regroup(PutFileRealm(first).value, rest, t);
  }

  lemma {:induction false} RowsRoundTrip(rows: seq<FileRealm>, t: bytes)
    requires forall r :: r in rows ==> FileRealmOk(r)
    ensures PutRows(rows).Ok? && |PutRows(rows).value| >= |rows|
    ensures GetRows(PutRows(rows).value + t, |rows|) == Got(rows, t)
    decreases |rows|
  {
    if rows == [] {
      assert [] + t == t;
    } else {
      RowsRoundTrip(rows[1..], t);
      OneRowMore(rows[0], rows[1..], PutRows(rows[1..]).value, t);
      assert rows == [rows[0]] + rows[1..];
    }
  }

  lemma RealmsRoundTrip(rows: seq<FileRealm>, t: bytes)
    requires RowsOk(rows)
    ensures PutRealms(rows).Ok? && GetRealms(PutRealms(rows).value + t) == Got(rows, t)
  {
    RowsRoundTrip(rows, t);
    ToNumberExactly(|rows|);
    NumRoundTrip(|rows|, PutRows(rows).value + t);
    Regroup(PutVarInt(|rows|).value, PutRows(rows).value, t);
  }

  // Nonce, then the realm directory: what the file hash covers.
  function Preimage(nonce: bytes, rows: seq<FileRealm>): Result<bytes> {
    if |nonce| != HASH_BYTES then Err(InvalidParam)
    else
      var realms :- PutRealms(rows);
      Ok(nonce + realms)
  }

  // These bytes are the nonce followed by the directory, and nothing else.
  predicate Covers(pre: bytes, nonce: bytes, rows: seq<FileRealm>) {
    && |nonce| == HASH_BYTES <= |pre| && pre[..HASH_BYTES] == nonce
    && GetRealms(pre[HASH_BYTES..]) == Got(rows, [])
  }

  lemma PreimageCovers(nonce: bytes, rows: seq<FileRealm>)
    requires RowsOk(rows) && |nonce| == HASH_BYTES
    ensures Preimage(nonce, rows).Ok? && Covers(Preimage(nonce, rows).value, nonce, rows)
  {
    RealmsRoundTrip(rows, []);
    var realms := PutRealms(rows).value;
    assert realms + [] == realms;
    assert (nonce + realms)[..HASH_BYTES] == nonce && (nonce + realms)[HASH_BYTES..] == realms;
  }

  // Two preimages are equal exactly when nonce and directory are.
  lemma PreimageExactly(nonce: bytes, rows: seq<FileRealm>, nonce': bytes, rows': seq<FileRealm>)
    requires |nonce| == HASH_BYTES && RowsOk(rows) && |nonce'| == HASH_BYTES && RowsOk(rows')
    ensures Preimage(nonce, rows) == Preimage(nonce', rows') <==> nonce == nonce' && rows == rows'
  {
    PreimageCovers(nonce, rows);
    PreimageCovers(nonce', rows');
  }

  // What is read out of a buffer can be written back.
  lemma VarBytesFit(s: bytes)
    requires Fits(s) && GetVarBytes(s).Got?
    ensures Fits(GetVarBytes(s).value) && Fits(GetVarBytes(s).rest)
  {
    VarIntShrinks(s);
  }

  lemma VarIntShrinks(s: bytes)
    requires GetVarInt(s).Got?
    ensures |GetVarInt(s).rest| < |s| && IsDouble(GetVarInt(s).value)
  {
    DecShrinks(s, 0);
    ReadsDouble(Dec(s, 0).value);
  }

  lemma {:induction false} DecShrinks(s: bytes, k: nat)
    requires Dec(s, k).Got?
    ensures |Dec(s, k).rest| < |s|
    decreases |s|
  {
    if s[0] >= 128 { DecShrinks(s[1..], k + 1); }
  }

  lemma FileRealmReads(s: bytes)
    requires Fits(s) && GetFileRealm(s).Got? && PutFileRealm(GetFileRealm(s).value).Ok?
    ensures FileRealmOk(GetFileRealm(s).value) && |GetFileRealm(s).rest| < |s|
  {
    var r := GetFileRealm(s).value;
    var s1 := GetVarBytes(s).rest;
    VarBytesFit(s);
    VarIntShrinks(s);
    VarIntShrinks(s1);
    VarIntShrinks(GetVarInt(s1).rest);
    PutVarIntExactly(r.num);
    PutVarIntExactly(r.realm.index);
  }

  lemma {:induction false} RowsRead(s: bytes, n: nat)
    requires Fits(s) && GetRows(s, n).Got? && PutRows(GetRows(s, n).value).Ok?
    ensures |GetRows(s, n).value| == n && forall r :: r in GetRows(s, n).value ==> FileRealmOk(r)
    decreases n
  {
    if n > 0 {
      FirstRow(GetFileRealm(s).value, GetRows(GetFileRealm(s).rest, n - 1).value);
      FileRealmReads(s);
      RowsRead(GetFileRealm(s).rest, n - 1);
    }
  }

  lemma FirstRow(first: FileRealm, more: seq<FileRealm>)
    requires PutRows([first] + more).Ok?
    ensures PutFileRealm(first).Ok? && PutRows(more).Ok?
  {
    assert ([first] + more)[1..] == more;
  }

  // A directory that was read, and can be written, reads back.
  lemma RealmsRead(s: bytes)
    requires Fits(s) && GetRealms(s).Got? && PutRealms(GetRealms(s).value).Ok?
    ensures RowsOk(GetRealms(s).value)
  {
    VarIntShrinks(s);
    RowsRead(GetVarInt(s).rest, GetVarInt(s).value);
  }

  function PutFileHead(h: FileHead): Result<bytes> {
    if |h.nonce| != HASH_BYTES || |h.hsh| != HASH_BYTES || |h.sig| != SIG_BYTES then Err(InvalidParam)
    else
      var realms :- PutRealms(h.realms);
      Ok(h.nonce + (realms + (h.hsh + h.sig)))
  }

  function GetFileHead(s: bytes): Read<FileHead> {
    var (nonce, s1) :- GetBytes(s, HASH_BYTES);
    var (realms, s2) :- GetRealms(s1);
    var (hsh, s3) :- GetBytes(s2, HASH_BYTES);
    var (sig, s4) :- GetBytes(s3, SIG_BYTES);
    Got(FileHead(nonce, realms, hsh, sig), s4)
  }

  lemma FileHeadRoundTrip(h: FileHead, t: bytes)
    requires |h.nonce| == HASH_BYTES && |h.hsh| == HASH_BYTES && |h.sig| == SIG_BYTES && RowsOk(h.realms)
    ensures PutFileHead(h).Ok? && GetFileHead(PutFileHead(h).value + t) == Got(h, t)
  {
    BytesRoundTrip(h.sig, t);
    BytesRoundTrip(h.hsh, h.sig + t);
    RealmsRoundTrip(h.realms, h.hsh + (h.sig + t));
    var s1 := PutRealms(h.realms).value + (h.hsh + (h.sig + t));
    BytesRoundTrip(h.nonce, s1);
    var realms := PutRealms(h.realms).value;
    Regroup(h.hsh, h.sig, t);
    Regroup(realms, h.hsh + h.sig, t);
    Regroup(h.nonce, realms + (h.hsh + h.sig), t);
  }
}
