// The records of the wire and file formats byte for byte (shared/codecs), with
// the values that can be written at all.

module Layout {
  import opened Basics
  import opened Codec
  import opened Structs
  import Checksum

  // An integer that can be written.
  predicate Writes(n: int) { 0 <= n < LIMIT }

  lemma IntIs(n: int)
    ensures PutVarInt(n).Ok? <==> Writes(n)
    ensures PutVarInt(n).Ok? ==> PutVarInt(n).value == Leb(n)
  {
    PutVarIntExactly(n);
  }

  lemma BytesAre(b: bytes)
    ensures PutVarBytes(b).Ok? <==> Writes(|b|)
    ensures PutVarBytes(b).Ok? ==> PutVarBytes(b).value == Leb(|b|) + b
  {
    IntIs(|b|);
  }

  // Strings one after the other, each after its length.
  lemma {:induction false} StringsAre(a: seq<bytes>, x: bytes)
    ensures PutAll([]) == Ok([])
    ensures PutAll(a + [x]).Ok? <==> PutAll(a).Ok? && Writes(|x|)
    ensures PutAll(a + [x]).Ok? ==> PutAll(a + [x]).value == PutAll(a).value + (Leb(|x|) + x)
    decreases |a|
  {
    BytesAre(x);
    if a == [] {
      assert a + [x] == [x] && [x][1..] == [];
      assert (Leb(|x|) + x) + [] == Leb(|x|) + x == [] + (Leb(|x|) + x);
    } else {
      assert (a + [x])[1..] == a[1..] + [x];
      StringsAre(a[1..], x);
      if PutAll(a + [x]).Ok? { Regroup(PutVarBytes(a[0]).value, PutAll(a[1..]).value, Leb(|x|) + x); }
    }
  }

  lemma EidIs(e: EidRec)
    ensures PutEid(e).Ok? <==> Writes(|e.id|) && Writes(e.ts)
    ensures PutEid(e).Ok? ==> PutEid(e).value == Leb(|e.id|) + e.id + Leb(e.ts)
  {
    BytesAre(e.id);
    IntIs(e.ts);
  }

  // None is written as nothing.
  function OrNone(b: Option<bytes>): bytes { if b.Some? then b.value else [] }

  // Parent, tags, then the body as it is.
  lemma EntIs(ent: EntBody)
    ensures PutEnt(ent).Ok? <==> Writes(|OrNone(ent.pid)|) && Writes(|ent.tags|) && PutAll(ent.tags).Ok?
    ensures PutEnt(ent).Ok? ==>
              PutEnt(ent).value ==
              Leb(|OrNone(ent.pid)|) + OrNone(ent.pid) + Leb(|ent.tags|) + PutAll(ent.tags).value + OrNone(ent.body)
  {
    BytesAre(OrNone(ent.pid));
    IntIs(|ent.tags|);
  }

  // Type, entity id, offset, counter, body length, then the hash if there is one.
  lemma HeadIs(h: Head)
    ensures PutHead(h).Ok? <==> Writes(|h.typ|) && Writes(|h.eid|) && Writes(h.off) && Writes(h.ctr) && Writes(h.len)
    ensures PutHead(h).Ok? ==>
              PutHead(h).value ==
              Leb(|h.typ|) + h.typ + Leb(|h.eid|) + h.eid + Leb(h.off) + Leb(h.ctr) + Leb(h.len) + OrNone(h.hsh)
  {
    BytesAre(h.typ);
    BytesAre(h.eid);
    IntIs(h.off);
    IntIs(h.ctr);
    IntIs(h.len);
  }

  // Signature, realm, key derivation material, head and body.
  lemma BagIs(b: Bag)
    ensures PutBag(b).Ok? <==> |b.rlm| == 32 && |b.sig| == 64 && Writes(|b.headCph|) && Writes(|b.bodyCph|)
    ensures PutBag(b).Ok? ==>
              PutBag(b).value == b.sig + b.rlm + b.kdm + Leb(|b.headCph|) + b.headCph + Leb(|b.bodyCph|) + b.bodyCph
  {
    BytesAre(b.headCph);
    BytesAre(b.bodyCph);
  }

  lemma PeekHeadIs(p: PeekHead)
    ensures PutPeekHead(p).Ok? <==> Writes(|p.headCph|)
    ensures PutPeekHead(p).Ok? ==> PutPeekHead(p).value == p.sig + p.kdm + Leb(|p.headCph|) + p.headCph
  {
    BytesAre(p.headCph);
  }

  lemma PeekItemIs(p: PeekItem)
    ensures PutPeekItem(p).Ok? <==> Writes(|p.headCph|) && Writes(p.seqno)
    ensures PutPeekItem(p).Ok? ==> PutPeekItem(p).value == Leb(|p.headCph|) + p.headCph + Leb(p.seqno)
  {
    BytesAre(p.headCph);
    IntIs(p.seqno);
  }

  lemma PullItemIs(p: PullItem)
    ensures PutPullItem(p).Ok? <==> Writes(p.seqno) && Writes(|p.bodyCph|)
    ensures PutPullItem(p).Ok? ==> PutPullItem(p).value == Leb(p.seqno) + Leb(|p.bodyCph|) + p.bodyCph
  {
    IntIs(p.seqno);
    BytesAre(p.bodyCph);
  }

  lemma IndexItemIs(i: IndexItem)
    ensures PutIndexItem(i).Ok? <==> Writes(|i.headCph|) && Writes(i.lenBody)
    ensures PutIndexItem(i).Ok? ==> PutIndexItem(i).value == i.kdm + Leb(|i.headCph|) + i.headCph + Leb(i.lenBody)
  {
    BytesAre(i.headCph);
    IntIs(i.lenBody);
  }

  // One row of the realm directory: name and index of the realm, the number of
  // its messages, which is not nought, and the hash of their heads.
  lemma FileRealmIs(r: FileRealm)
    ensures PutFileRealm(r).Ok? <==>
            Writes(|r.realm.name|) && Writes(r.realm.index) && 1 <= r.num < LIMIT && |r.hsh| == 32
    ensures PutFileRealm(r).Ok? ==>
              PutFileRealm(r).value == Leb(|r.realm.name|) + r.realm.name + Leb(r.realm.index) + Leb(r.num) + r.hsh
  {
    BytesAre(r.realm.name);
    IntIs(r.realm.index);
    IntIs(r.num);
  }

  lemma {:induction false} RowsAre(a: seq<FileRealm>, r: FileRealm)
    ensures PutRows([]) == Ok([])
    ensures PutRows(a + [r]).Ok? <==> PutRows(a).Ok? && PutFileRealm(r).Ok?
    ensures PutRows(a + [r]).Ok? ==> PutRows(a + [r]).value == PutRows(a).value + PutFileRealm(r).value
    decreases |a|
  {
    if a == [] {
      assert a + [r] == [r] && [r][1..] == [];
      if PutFileRealm(r).Ok? { assert PutFileRealm(r).value + [] == PutFileRealm(r).value == [] + PutFileRealm(r).value; }
    } else {
      assert (a + [r])[1..] == a[1..] + [r];
      RowsAre(a[1..], r);
      if PutRows(a + [r]).Ok? { Regroup(PutFileRealm(a[0]).value, PutRows(a[1..]).value, PutFileRealm(r).value); }
    }
  }

  // Nonce, directory with its length, hash, signature.
  lemma FileHeadIs(h: FileHead)
    ensures PutFileHead(h).Ok? <==>
            |h.nonce| == 32 && |h.hsh| == 32 && |h.sig| == 64 && Writes(|h.realms|) && PutRows(h.realms).Ok?
    ensures PutFileHead(h).Ok? ==>
              PutFileHead(h).value == h.nonce + Leb(|h.realms|) + PutRows(h.realms).value + h.hsh + h.sig
  {
    IntIs(|h.realms|);
  }

  // Entity id, update time, counter.
  lemma RevIs(r: Checksum.Rev)
    ensures Checksum.PutRev(r).Ok? <==> Writes(|r.eid|) && Writes(r.updatedAt) && Writes(r.ctr)
    ensures Checksum.PutRev(r).Ok? ==>
              Checksum.PutRev(r).value == Leb(|r.eid|) + r.eid + Leb(r.updatedAt) + Leb(r.ctr)
  {
    BytesAre(r.eid);
    IntIs(r.updatedAt);
    IntIs(r.ctr);
  }
}
