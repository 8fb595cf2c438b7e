/** `codec.rs`: builders that write a message in place, and readers. */
module Codec {
  import opened Basics
  import opened Messages
  import opened Words
  import opened Wire
  import opened Layout
  import opened RoundTrip

  /** A message under construction. A list that is too long or a message too
      large, for which Rust panics, is remembered and reported by `Finish`. */
  class Builder {
    var seg: Seg
    var tooLong: bool

    constructor ()
      ensures seg == NEW_MESSAGE && !tooLong
    {
      seg, tooLong := NEW_MESSAGE, false;
    }

    method InitStruct(slot: nat, data: nat, ptrs: nat) returns (at: nat)
      requires slot < |seg| && data < TWO16 && ptrs < TWO16
      modifies this`seg
      ensures at == |old(seg)| && seg == AddStruct(old(seg), slot, data, ptrs)
    {
      at := |seg|;
      seg := AddStruct(seg, slot, data, ptrs);
    }

    method InitList(slot: nat, count: nat, data: nat, ptrs: nat) returns (first: nat)
      requires slot < |seg| && data < TWO16 && ptrs < TWO16
      modifies this`seg
      ensures first == |old(seg)| + 1 && seg == AddList(old(seg), slot, count, data, ptrs)
    {
      first := |seg| + 1;
      seg := AddList(seg, slot, count, data, ptrs);
    }

    method SetBytes(slot: nat, b: Bytes)
      requires slot < |seg|
      modifies this
      ensures seg == AddBytes(old(seg), slot, b) && tooLong == (old(tooLong) || !BytesFit(b))
    {
      seg, tooLong := AddBytes(seg, slot, b), tooLong || |b| >= LIMIT;
    }

    method SetText(slot: nat, t: Text)
      requires slot < |seg|
      modifies this
      ensures seg == AddText(old(seg), slot, t) && tooLong == (old(tooLong) || !TextFits(t))
    {
      seg, tooLong := AddText(seg, slot, t), tooLong || |t| + 1 >= LIMIT;
    }

    method SetTag(at: nat, tag: nat)
      requires at < |seg| && tag < TWO16
      modifies this`seg
      ensures seg == PutTag(old(seg), at, tag)
    {
      seg := PutTag(seg, at, tag);
    }

    method SetWord(at: nat, w: u64)
      requires at < |seg|
      modifies this`seg
      ensures seg == old(seg)[at := w]
    {
      seg := seg[at := w];
    }

    method SetValue(at: nat, val: Value)
      requires at + 3 <= |seg|
      modifies this
      ensures seg == BuildValue(old(seg), at, val) && tooLong == (old(tooLong) || !ValueFits(val))
    {
      match val
      case Null =>
        SetTag(at, 0);
      case Integer(i) =>
        SetTag(at, 1);
        SetWord(at + 1, BitsOf(i));
      case Real(bits) =>
        SetTag(at, 2);
        SetWord(at + 1, bits);
      case TextValue(t) =>
        SetTag(at, 3);
        SetText(at + 2, t);
      case Blob(b) =>
        SetTag(at, 4);
        SetBytes(at + 2, b);
    }

    method SetChange(at: nat, c: Change)
      requires at + 9 <= |seg|
      modifies this
      ensures seg == BuildChange(old(seg), at, c) && tooLong == (old(tooLong) || !ChangeFits(c))
    {
      SetText(at + 4, c.table);
      SetBytes(at + 5, c.pk);
      SetText(at + 6, c.cid);
      SetWord(at, BitsOf(c.colVersion));
      SetWord(at + 1, BitsOf(c.dbVersion));
      SetWord(at + 2, BitsOf(c.cl));
      SetWord(at + 3, BitsOf(c.seqNo));
      var v := InitStruct(at + 7, 2, 1);
      SetValue(v, c.val);
    }

    /** The index loop of `Response::encode`, over a list made for `count`
        elements: when the cast to `u32` truncated the length, it runs off. */
    method SetChanges(first: nat, count: nat, changes: seq<Change>) returns (inRange: bool)
      requires count == AsU32(|changes|) && first + 9 * count <= |seg|
      modifies this
      ensures inRange <==> |changes| < TWO32
      ensures inRange ==> seg == BuildChanges(old(seg), first, changes)
      ensures inRange ==> tooLong == (old(tooLong) || !AllFit(changes))
    {
      hide BuildChange, BuildChanges, ChangeFits, AllFit, AsU32;
      ghost var start, long := seg, tooLong;
      BuildNone(start, first, changes);
      for i := 0 to |changes|
        invariant i <= count && |seg| >= |start|
        invariant seg == BuildChanges(start, first, changes[..i])
        invariant tooLong == (long || !AllFit(changes[..i]))
      {
        if AsU32(i) >= count {
          return false;
        }
        AllFitOneMore(changes, i);
        BuildOneMore(start, first, changes, i);
        SetChange(first + 9 * AsU32(i), changes[i]);
      }
      assert changes[..|changes|] == changes;
      return true;
    }

    method Finish() returns (r: Result<Bytes, Error>)
      ensures !tooLong && |seg| <= LIMIT ==> r == Ok(Frame(seg))
      ensures tooLong || |seg| > LIMIT ==> r.Err?
    {
      if tooLong || |seg| > LIMIT {
        return Err(TooLarge);
      }
      return Ok(Frame(seg));
    }
  }

  predicate AllFit(changes: seq<Change>) {
    forall i :: 0 <= i < |changes| ==> ChangeFits(changes[i])
  }

  lemma AllFitOneMore(changes: seq<Change>, i: nat)
    requires i < |changes|
    ensures AllFit(changes[..i + 1]) <==> AllFit(changes[..i]) && ChangeFits(changes[i])
  {
    hide ChangeFits;
    var longer := changes[..i + 1];
    assert longer[i] == changes[i];
    assert forall k :: 0 <= k < i ==> longer[k] == changes[..i][k];
  }

  /** The cast `as u32`. */
  function AsU32(n: nat): (r: nat)
    ensures r < TWO32 && (r == n <==> n < TWO32)
  {
    n % TWO32
  }

  lemma BuildNone(seg: Seg, first: nat, changes: seq<Change>)
    requires first <= |seg|
    ensures BuildChanges(seg, first, changes[..0]) == seg && AllFit(changes[..0])
  {
  }

  lemma BuildOneMore(seg: Seg, first: nat, changes: seq<Change>, i: nat)
    requires i < |changes| && first + 9 * (i + 1) <= |seg|
    ensures BuildChanges(seg, first, changes[..i + 1]) ==
      BuildChange(BuildChanges(seg, first, changes[..i]), first + 9 * i, changes[i])
  {
    hide BuildChange;
    assert changes[..i + 1][..i] == changes[..i];
  }

  lemma ChangesFitIff(siteId: SiteId, changes: seq<Change>)
    ensures ResponseFits(Changes(ChangesResponse(siteId, changes))) <==>
      && BytesFit(siteId) && AllFit(changes)
      && |BuildChanges(BuildChangesHeader(siteId, |changes|), 6 + WordCount(|siteId|), changes)| <= LIMIT
    ensures |changes| >= TWO32 ==> !ResponseFits(Changes(ChangesResponse(siteId, changes)))
  {
    hide ChangeFits;
  }

  method EncodeChanges(siteId: SiteId, changes: seq<Change>) returns (bytes: Result<Bytes, Error>)
    ensures bytes.Ok? <==> ResponseFits(Changes(ChangesResponse(siteId, changes)))
    ensures bytes.Ok? ==>
      var seg := SegOfResponse(Changes(ChangesResponse(siteId, changes)));
      |seg| <= LIMIT && bytes.value == Frame(seg)
  {
    ChangesFitIff(siteId, changes);
    hide BuildChanges, AllFit, ResponseFits, PutTag, AddStruct, AddBytes, AddList, Frame, AsU32;
    var builder := new Builder();
    var root := builder.InitStruct(0, 1, 1);
    builder.SetTag(root, 1);
    var result := builder.InitStruct(root + 1, 0, 2);
    builder.SetBytes(result, siteId);
    var count := AsU32(|changes|);
    var first := builder.InitList(result + 1, count, 4, 5);
    assert builder.seg == BuildChangesHeader(siteId, count);
    var inRange := builder.SetChanges(first, count, changes);
    if !inRange {
      return Err(Panicked);
    }
    bytes := builder.Finish();
  }

  method EncodeStatus(siteId: SiteId, dbVersion: i64) returns (bytes: Result<Bytes, Error>)
    ensures bytes.Ok? <==> ResponseFits(StatusResponse(siteId, dbVersion))
    ensures bytes.Ok? ==>
      var seg := SegOfResponse(StatusResponse(siteId, dbVersion));
      |seg| <= LIMIT && bytes.value == Frame(seg)
  {
    var builder := new Builder();
    var root := builder.InitStruct(0, 1, 1);
    builder.SetTag(root, 0);
    var status := builder.InitStruct(root + 1, 1, 1);
    builder.SetBytes(status + 1, siteId);
    builder.SetWord(status, BitsOf(dbVersion));
    bytes := builder.Finish();
  }

  /** `encode` of a response succeeds exactly when it fits. */
  method EncodeResponse(r: Response) returns (bytes: Result<Bytes, Error>)
    ensures bytes.Ok? <==> ResponseFits(r)
    ensures bytes.Ok? ==> |SegOfResponse(r)| <= LIMIT && bytes.value == Frame(SegOfResponse(r))
  {
    match r
    case Changes(ChangesResponse(siteId, changes)) =>
      bytes := EncodeChanges(siteId, changes);
    case StatusResponse(siteId, dbVersion) =>
      bytes := EncodeStatus(siteId, dbVersion);
  }

  method EncodeRequest(q: Request) returns (bytes: Result<Bytes, Error>)
    ensures |SegOfRequest(q)| <= LIMIT && bytes == Ok(Frame(SegOfRequest(q)))
  {
    var builder := new Builder();
    var root := builder.InitStruct(0, 1, 1);
    match q {
      case StatusRequest =>
        builder.SetTag(root, 0);
      case ChangesRequest(since) =>
        builder.SetTag(root, 1);
        var params := builder.InitStruct(root + 1, 1, 0);
        builder.SetWord(params, BitsOf(since));
    }
    bytes := builder.Finish();
  }

  method EncodeNodeStatus(s: NodeStatus) returns (bytes: Result<Bytes, Error>)
    ensures bytes.Ok? <==> NodeStatusFits(s)
    ensures bytes.Ok? ==> |SegOfNodeStatus(s)| <= LIMIT && bytes.value == Frame(SegOfNodeStatus(s))
  {
    var builder := new Builder();
    var root := builder.InitStruct(0, 0, 3);
    var db := builder.InitStruct(root, 1, 1);
    builder.SetBytes(db + 1, s.siteId);
    builder.SetWord(db, BitsOf(s.dbVersion));
    builder.SetText(root + 1, s.key);
    builder.SetBytes(root + 2, s.route);
    bytes := builder.Finish();
  }

  method EncodeEnvelope(e: Envelope) returns (bytes: Result<Bytes, Error>)
    ensures bytes.Ok? <==> EnvelopeFits(e)
    ensures bytes.Ok? ==> |SegOfEnvelope(e)| <= LIMIT && bytes.value == Frame(SegOfEnvelope(e))
  {
    var builder := new Builder();
    var root := builder.InitStruct(0, 0, 2);
    builder.SetText(root, e.sender);
    builder.SetBytes(root + 1, e.contents);
    bytes := builder.Finish();
  }

  // --------------------------------------------------------------- decoding

  lemma {:induction false} FirstErrorWins(seg: Seg, l: StructList, i: nat, n: nat)
    requires l.In(seg) && i <= n <= l.count && DecodeChanges(seg, l, i).Err?
    ensures DecodeChanges(seg, l, n) == DecodeChanges(seg, l, i)
  {
    hide DecodeChange;
    if i == n {
    } else {
      FirstErrorWins(seg, l, i, n - 1);
    }
  }

  /** The loop of `Response::decode`. */
  method ReadChanges(seg: Seg, l: StructList) returns (r: Result<seq<Change>, Error>)
    requires l.In(seg)
    ensures r == DecodeChanges(seg, l, l.count)
  {
    hide DecodeChange;
    var changes := [];
    for i := 0 to l.count
      invariant DecodeChanges(seg, l, i) == Ok(changes)
    {
      var change := DecodeChange(seg, l.Element(seg, i));
      if change.Err? {
        FirstErrorWins(seg, l, i + 1, l.count);
        return Err(change.error);
      }
      changes := changes + [change.value];
    }
    return Ok(changes);
  }

  method ReadResponse(b: Bytes) returns (r: Result<Response, Error>)
    ensures r == DecodeResponse(b)
  {
    var message :- RootOf(b);
    var seg, root := message.0, message.1;
    match root.Tag(seg)
    case 0 =>
      var s :- ReadStruct(seg, root.PtrAt(seg, 0));
      var siteId :- ReadBytes(seg, s.PtrAt(seg, 0));
      r := Ok(StatusResponse(siteId, s.I64At(seg, 0)));
    case 1 =>
      var s :- ReadStruct(seg, root.PtrAt(seg, 0));
      var l :- ReadList(seg, s.PtrAt(seg, 1));
      var changes :- ReadChanges(seg, l);
      var siteId :- ReadBytes(seg, s.PtrAt(seg, 0));
      r := Ok(Changes(ChangesResponse(siteId, changes)));
    case _ =>
      r := Err(NotInSchema);
  }

  /** What was encoded is what is decoded, by the methods themselves. */
  method EncodeThenDecode(r: Response) returns (back: Result<Response, Error>)
    ensures ResponseFits(r) ==> back == Ok(r)
    ensures !ResponseFits(r) ==> back.Err?
  {
    var bytes := EncodeResponse(r);
    if bytes.Err? {
      return Err(bytes.error);
    }
    ResponseRoundTrip(r);
    back := ReadResponse(bytes.value);
  }
}
