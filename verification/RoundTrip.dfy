/** Every message decodes to what was encoded. */
module RoundTrip {
  import opened Basics
  import opened Messages
  import opened Words
  import opened Wire
  import opened Layout

  // ------------------------------------------------------- one object added

  /** `seg'` extends `seg` and differs below it at most in `[lo, hi)`. */
  ghost predicate Extends(seg: Seg, seg': Seg, lo: nat, hi: nat) {
    |seg| <= |seg'| && forall i :: 0 <= i < |seg| && !(lo <= i < hi) ==> seg'[i] == seg[i]
  }

  lemma BytesAdded(seg: Seg, slot: nat, b: Bytes)
    requires slot < |seg|
    ensures BytesAt(AddBytes(seg, slot, b), slot, |seg|, b)
    ensures Extends(seg, AddBytes(seg, slot, b), slot, slot + 1)
  {
  }

  lemma StructAdded(seg: Seg, slot: nat, data: nat, ptrs: nat)
    requires slot < |seg| && data < TWO16 && ptrs < TWO16
    ensures StructAt(AddStruct(seg, slot, data, ptrs), slot, |seg|, data, ptrs)
    ensures Extends(seg, AddStruct(seg, slot, data, ptrs), slot, slot + 1)
    ensures forall i :: |seg| <= i < |seg| + data + ptrs ==> AddStruct(seg, slot, data, ptrs)[i] == 0
  {
  }

  lemma ListAdded(seg: Seg, slot: nat, count: nat, data: nat, ptrs: nat)
    requires slot < |seg| && data < TWO16 && ptrs < TWO16
    ensures ListAt(AddList(seg, slot, count, data, ptrs), slot, |seg|, count, data, ptrs)
    ensures Extends(seg, AddList(seg, slot, count, data, ptrs), slot, slot + 1)
  {
  }

  /** An object stays readable while its pointer and its words stay. */
  lemma BytesKept(seg: Seg, seg': Seg, slot: nat, at: nat, b: Bytes, lo: nat, hi: nat)
    requires BytesAt(seg, slot, at, b) && Extends(seg, seg', lo, hi)
    requires !(lo <= slot < hi) && (hi <= at || at + WordCount(|b|) <= lo)
    ensures BytesAt(seg', slot, at, b)
  {
    forall i | 0 <= i < WordCount(|b|) ensures seg'[at + i] == Pack(b)[i] {
      assert seg[at + i] == Pack(b)[i];
    }
  }

  lemma TagIsRead(seg: Seg, at: nat, tag: nat)
    requires at < |seg| && tag < TWO16
    ensures PutTag(seg, at, tag)[at] % TWO16 == tag
    ensures Extends(seg, PutTag(seg, at, tag), at, at + 1)
  {
    SplitAt16(PutTag(seg, at, tag)[at], seg[at] / TWO16, tag);
  }

  lemma SignedBits(x: i64)
    ensures SignedOf(BitsOf(x)) == x
  {
  }

  // ----------------------------------------------------------------- values

  /** The value struct at `at`, its bytes, if any, at `heap`. */
  ghost predicate ValueAt(seg: Seg, at: nat, heap: nat, val: Value) {
    at + 3 <= heap && heap <= |seg| &&
    match val
    case Null => seg[at] % TWO16 == 0
    case Integer(i) => seg[at] % TWO16 == 1 && seg[at + 1] == BitsOf(i)
    case Real(bits) => seg[at] % TWO16 == 2 && seg[at + 1] == bits
    case TextValue(t) => seg[at] % TWO16 == 3 && BytesAt(seg, at + 2, heap, t + [0])
    case Blob(b) => seg[at] % TWO16 == 4 && BytesAt(seg, at + 2, heap, b)
  }

  lemma ValueBuilt(seg: Seg, at: nat, val: Value)
    requires at + 3 <= |seg|
    ensures ValueAt(BuildValue(seg, at, val), at, |seg|, val)
    ensures Extends(seg, BuildValue(seg, at, val), at, at + 3)
  {
    match val
    case Null => TagIsRead(seg, at, 0);
    case Integer(_) => TagIsRead(seg, at, 1);
    case Real(_) => TagIsRead(seg, at, 2);
    case TextValue(t) =>
      TagIsRead(seg, at, 3);
      BytesAdded(PutTag(seg, at, 3), at + 2, t + [0]);
    case Blob(b) =>
      TagIsRead(seg, at, 4);
      BytesAdded(PutTag(seg, at, 4), at + 2, b);
  }

  lemma ValueKept(seg: Seg, seg': Seg, at: nat, heap: nat, val: Value, lo: nat, hi: nat)
    requires ValueAt(seg, at, heap, val) && Extends(seg, seg', lo, hi) && hi <= at
    ensures ValueAt(seg', at, heap, val)
  {
    match val
    case TextValue(t) => BytesKept(seg, seg', at + 2, heap, t + [0], lo, hi);
    case Blob(b) => BytesKept(seg, seg', at + 2, heap, b, lo, hi);
    case _ =>
  }

  lemma ValueIsRead(seg: Seg, at: nat, heap: nat, val: Value)
    requires ValueAt(seg, at, heap, val) && |seg| <= LIMIT && ValueFits(val)
    ensures DecodeValue(seg, Struct(at, 2, at + 2, 1)) == Ok(val)
  {
    match val
    case Integer(i) => SignedBits(i);
    case TextValue(t) => TextIsRead(seg, at + 2, heap, t);
    case Blob(b) => BytesAreRead(seg, at + 2, heap, b);
    case _ =>
  }

  // ---------------------------------------------------------------- changes

  /** The strings of a change at `at`, starting at `heap`. */
  ghost predicate StringsAt(seg: Seg, at: nat, heap: nat, c: Change) {
    && BytesAt(seg, at + 4, heap, c.table + [0])
    && BytesAt(seg, at + 5, heap + WordCount(|c.table| + 1), c.pk)
    && BytesAt(seg, at + 6, heap + WordCount(|c.table| + 1) + WordCount(|c.pk|), c.cid + [0])
  }

  ghost predicate NumbersAt(seg: Seg, at: nat, c: Change) {
    && at + 4 <= |seg|
    && seg[at] == BitsOf(c.colVersion) && seg[at + 1] == BitsOf(c.dbVersion)
    && seg[at + 2] == BitsOf(c.cl) && seg[at + 3] == BitsOf(c.seqNo)
  }

  /** Change `c`: its struct at `at`, everything else from `heap` on. */
  ghost predicate ChangeAt(seg: Seg, at: nat, heap: nat, c: Change) {
    var v := heap + StringWords(c);
    && at + 9 <= heap
    && StringsAt(seg, at, heap, c) && NumbersAt(seg, at, c)
    && StructAt(seg, at + 7, v, 2, 1) && ValueAt(seg, v, v + 3, c.val)
  }

  lemma StringsBuilt(seg: Seg, at: nat, c: Change)
    requires at + 9 <= |seg|
    ensures StringsAt(BuildStrings(seg, at, c), at, |seg|, c)
    ensures Extends(seg, BuildStrings(seg, at, c), at + 4, at + 7)
  {
    var s1 := AddText(seg, at + 4, c.table);
    var s2 := AddBytes(s1, at + 5, c.pk);
    var s3 := AddText(s2, at + 6, c.cid);
    BytesAdded(seg, at + 4, c.table + [0]);
    BytesAdded(s1, at + 5, c.pk);
    BytesAdded(s2, at + 6, c.cid + [0]);
    BytesKept(s1, s2, at + 4, |seg|, c.table + [0], at + 5, at + 6);
    BytesKept(s2, s3, at + 4, |seg|, c.table + [0], at + 6, at + 7);
    BytesKept(s2, s3, at + 5, |s1|, c.pk, at + 6, at + 7);
  }

  lemma StringsKept(seg: Seg, seg': Seg, at: nat, heap: nat, c: Change, lo: nat, hi: nat)
    requires StringsAt(seg, at, heap, c) && Extends(seg, seg', lo, hi) && hi <= heap
    requires hi <= at + 4 || at + 7 <= lo
    ensures StringsAt(seg', at, heap, c)
  {
    var h1 := heap + WordCount(|c.table| + 1);
    BytesKept(seg, seg', at + 4, heap, c.table + [0], lo, hi);
    BytesKept(seg, seg', at + 5, h1, c.pk, lo, hi);
    BytesKept(seg, seg', at + 6, h1 + WordCount(|c.pk|), c.cid + [0], lo, hi);
  }

  lemma ChangeBuilt(seg: Seg, at: nat, c: Change)
    requires at + 9 <= |seg|
    ensures ChangeAt(BuildChange(seg, at, c), at, |seg|, c)
    ensures Extends(seg, BuildChange(seg, at, c), at, at + 9)
  {
    hide StringsAt, ValueAt, BuildStrings, BuildValue;
    var s1 := BuildStrings(seg, at, c);
    var s2 := PutNumbers(s1, at, c);
    var s3 := AddStruct(s2, at + 7, 2, 1);
    var s4 := BuildValue(s3, |s2|, c.val);
    StringsBuilt(seg, at, c);
    assert Extends(s1, s2, at, at + 4) && NumbersAt(s2, at, c);
    StringsKept(s1, s2, at, |seg|, c, at, at + 4);
    StructAdded(s2, at + 7, 2, 1);
    StringsKept(s2, s3, at, |seg|, c, at + 7, at + 8);
    ValueBuilt(s3, |s2|, c.val);
    StringsKeptAbove(s3, s4, at, |seg|, c, |s2|);
    assert BuildChange(seg, at, c) == s4;
  }

  lemma StringsKeptAbove(seg: Seg, seg': Seg, at: nat, heap: nat, c: Change, lo: nat)
    requires StringsAt(seg, at, heap, c) && Extends(seg, seg', lo, lo + 3)
    requires heap + StringWords(c) <= lo
    ensures StringsAt(seg', at, heap, c)
  {
    var h1 := heap + WordCount(|c.table| + 1);
    BytesKept(seg, seg', at + 4, heap, c.table + [0], lo, lo + 3);
    BytesKept(seg, seg', at + 5, h1, c.pk, lo, lo + 3);
    BytesKept(seg, seg', at + 6, h1 + WordCount(|c.pk|), c.cid + [0], lo, lo + 3);
  }

  /** Building another element leaves a change as it is. */
  lemma ChangeKept(seg: Seg, seg': Seg, at: nat, heap: nat, c: Change, lo: nat, hi: nat)
    requires ChangeAt(seg, at, heap, c) && Extends(seg, seg', lo, hi)
    requires hi <= heap && (hi <= at || at + 9 <= lo)
    ensures ChangeAt(seg', at, heap, c)
  {
    StringsKept(seg, seg', at, heap, c, lo, hi);
    ValueKept(seg, seg', heap + StringWords(c), heap + StringWords(c) + 3, c.val, lo, hi);
  }

  lemma StringsAreRead(seg: Seg, at: nat, heap: nat, c: Change)
    requires StringsAt(seg, at, heap, c) && |seg| <= LIMIT && ChangeFits(c) && at + 9 <= |seg|
    ensures ReadText(seg, Ptr(at + 4, seg[at + 4])) == Ok(c.table)
    ensures ReadBytes(seg, Ptr(at + 5, seg[at + 5])) == Ok(c.pk)
    ensures ReadText(seg, Ptr(at + 6, seg[at + 6])) == Ok(c.cid)
  {
    hide BytesAt, ReadBytes, ReadText;
    var h1 := heap + WordCount(|c.table| + 1);
    TextIsRead(seg, at + 4, heap, c.table);
    BytesAreRead(seg, at + 5, h1, c.pk);
    TextIsRead(seg, at + 6, h1 + WordCount(|c.pk|), c.cid);
  }

  lemma NumbersAreRead(seg: Seg, at: nat, c: Change)
    requires NumbersAt(seg, at, c) && at + 9 <= |seg|
    ensures var s := Struct(at, 4, at + 4, 5);
      && s.I64At(seg, 0) == c.colVersion && s.I64At(seg, 1) == c.dbVersion
      && s.I64At(seg, 2) == c.cl && s.I64At(seg, 3) == c.seqNo
  {
    SignedBits(c.colVersion);
    SignedBits(c.dbVersion);
    SignedBits(c.cl);
    SignedBits(c.seqNo);
  }

  /** The value a change points to. */
  lemma ValuePartIsRead(seg: Seg, at: nat, v: nat, c: Change)
    requires StructAt(seg, at + 7, v, 2, 1) && ValueAt(seg, v, v + 3, c.val)
    requires |seg| <= LIMIT && ValueFits(c.val)
    ensures ReadStruct(seg, Ptr(at + 7, seg[at + 7])) == Ok(Struct(v, 2, v + 2, 1))
    ensures DecodeValue(seg, Struct(v, 2, v + 2, 1)) == Ok(c.val)
  {
    StructIsRead(seg, at + 7, v, 2, 1);
    ValueIsRead(seg, v, v + 3, c.val);
  }

  lemma ChangeIsRead(seg: Seg, at: nat, heap: nat, c: Change)
    requires ChangeAt(seg, at, heap, c) && |seg| <= LIMIT && ChangeFits(c)
    ensures at + 9 <= |seg| && DecodeChange(seg, Struct(at, 4, at + 4, 5)) == Ok(c)
  {
    hide StringsAt, NumbersAt, ReadText, ReadBytes, ReadStruct, DecodeValue, DecodeChange;
    StringsAreRead(seg, at, heap, c);
    NumbersAreRead(seg, at, c);
    ValuePartIsRead(seg, at, heap + StringWords(c), c);
    FieldsMakeChange(seg, at, heap + StringWords(c), c);
  }

  lemma FieldsMakeChange(seg: Seg, at: nat, v: nat, c: Change)
    requires at + 9 <= |seg| && v + 3 <= |seg|
    requires ReadText(seg, Ptr(at + 4, seg[at + 4])) == Ok(c.table)
    requires ReadBytes(seg, Ptr(at + 5, seg[at + 5])) == Ok(c.pk)
    requires ReadText(seg, Ptr(at + 6, seg[at + 6])) == Ok(c.cid)
    requires ReadStruct(seg, Ptr(at + 7, seg[at + 7])) == Ok(Struct(v, 2, v + 2, 1))
    requires DecodeValue(seg, Struct(v, 2, v + 2, 1)) == Ok(c.val)
    requires var s := Struct(at, 4, at + 4, 5);
      && s.I64At(seg, 0) == c.colVersion && s.I64At(seg, 1) == c.dbVersion
      && s.I64At(seg, 2) == c.cl && s.I64At(seg, 3) == c.seqNo
    ensures DecodeChange(seg, Struct(at, 4, at + 4, 5)) == Ok(c)
  {
  }

  // ------------------------------------------------------- the list of them

  /** All elements of the list at `first` hold their changes, in order. */
  ghost predicate ChangesAt(seg: Seg, first: nat, heap: nat, changes: seq<Change>) {
    forall i :: 0 <= i < |changes| ==> ChangeAt(seg, first + 9 * i, heap + AllChangeWords(changes[..i]), changes[i])
  }

  lemma OneMoreChange(seg: Seg, first: nat, heap: nat, changes: seq<Change>)
    requires changes != [] && first + 9 * |changes| <= heap && heap <= |seg|
    requires |seg| == heap + AllChangeWords(changes[..|changes| - 1])
    requires ChangesAt(seg, first, heap, changes[..|changes| - 1])
    ensures var n := |changes| - 1;
      ChangesAt(BuildChange(seg, first + 9 * n, changes[n]), first, heap, changes)
  {
    hide ChangeAt, BuildChange, AllChangeWords, Extends;
    var n := |changes| - 1;
    var init := changes[..n];
    var seg' := BuildChange(seg, first + 9 * n, changes[n]);
    ChangeBuilt(seg, first + 9 * n, changes[n]);
    forall i | 0 <= i < |changes|
      ensures ChangeAt(seg', first + 9 * i, heap + AllChangeWords(changes[..i]), changes[i])
    {
      if i < n {
        assert init[..i] == changes[..i] && init[i] == changes[i];
        assert ChangeAt(seg, first + 9 * i, heap + AllChangeWords(init[..i]), init[i]);
        ChangeKept(
          seg, seg', first + 9 * i, heap + AllChangeWords(changes[..i]), changes[i],
          first + 9 * n, first + 9 * n + 9);
      } else {
        assert changes[..i] == init && i == n;
      }
    }
  }

  lemma {:induction false} ChangesBuilt(seg: Seg, first: nat, limit: nat, changes: seq<Change>)
    requires first + 9 * |changes| <= limit && limit <= |seg|
    ensures ChangesAt(BuildChanges(seg, first, changes), first, |seg|, changes)
    ensures Extends(seg, BuildChanges(seg, first, changes), first, first + 9 * |changes|)
  {
    hide ChangeAt, BuildChange, AllChangeWords, Extends;
    if changes == [] {
      ExtendsItself(seg, first);
    } else {
      var n := |changes| - 1;
      var init := BuildChanges(seg, first, changes[..n]);
      ChangesBuilt(seg, first, limit, changes[..n]);
      SizeOfChanges(seg, first, changes[..n]);
      OneMoreChange(init, first, |seg|, changes);
      ChangeBuilt(init, first + 9 * n, changes[n]);
      ExtendsOn(seg, init, BuildChange(init, first + 9 * n, changes[n]), first, first + 9 * n, first + 9 * |changes|);
    }
  }

  lemma SizeOfChanges(seg: Seg, first: nat, changes: seq<Change>)
    requires first + 9 * |changes| <= |seg|
    ensures |BuildChanges(seg, first, changes)| == |seg| + AllChangeWords(changes)
  {
  }

  lemma ExtendsItself(seg: Seg, lo: nat)
    ensures Extends(seg, seg, lo, lo)
  {
  }

  lemma ExtendsOn(seg: Seg, seg': Seg, seg'': Seg, lo: nat, mid: nat, hi: nat)
    requires lo <= mid <= hi && Extends(seg, seg', lo, mid) && Extends(seg', seg'', mid, hi)
    ensures Extends(seg, seg'', lo, hi)
  {
  }

  lemma ElementAt(seg: Seg, first: nat, count: nat, i: nat)
    requires i < count && first + 9 * count <= |seg|
    ensures StructList(first, count, 4, 5).Element(seg, i) == Struct(first + 9 * i, 4, first + 9 * i + 4, 5)
  {
  }

  lemma {:induction false} ChangesAreRead(seg: Seg, first: nat, heap: nat, changes: seq<Change>, n: nat)
    requires ChangesAt(seg, first, heap, changes) && |seg| <= LIMIT && n <= |changes|
    requires forall i :: 0 <= i < |changes| ==> ChangeFits(changes[i])
    requires first + 9 * |changes| <= |seg|
    ensures DecodeChanges(seg, StructList(first, |changes|, 4, 5), n) == Ok(changes[..n])
  {
    hide ChangeAt, DecodeChange, ChangeFits, AllChangeWords;
    if n == 0 {
    } else {
      ChangesAreRead(seg, first, heap, changes, n - 1);
      ChangeIsRead(seg, first + 9 * (n - 1), heap + AllChangeWords(changes[..n - 1]), changes[n - 1]);
      ElementAt(seg, first, |changes|, n - 1);
      assert changes[..n] == changes[..n - 1] + [changes[n - 1]];
    }
  }

  // ---------------------------------------------------------- whole messages

  /** The first word of a message is the pointer to its root struct. */
  lemma RootIsRead(seg: Seg, data: nat, ptrs: nat)
    requires StructAt(seg, 0, 1, data, ptrs) && data + ptrs > 0 && |seg| <= LIMIT
    ensures RootOf(Frame(seg)) == Ok((seg, Struct(1, data, 1 + data, ptrs)))
  {
    FrameRoundTrip(seg);
    StructIsRead(seg, 0, 1, data, ptrs);
  }

  /** The words of a response in front of its list elements. */
  ghost predicate ChangesHeaderAt(seg: Seg, siteId: SiteId, count: nat) {
    var w := WordCount(|siteId|);
    && StructAt(seg, 0, 1, 1, 1) && seg[1] % TWO16 == 1 && StructAt(seg, 2, 3, 0, 2)
    && BytesAt(seg, 3, 5, siteId) && ListAt(seg, 4, 5 + w, count, 4, 5)
  }

  lemma ChangesHeaderBuilt(siteId: SiteId, count: nat)
    ensures ChangesHeaderAt(BuildChangesHeader(siteId, count), siteId, count)
  {
    var m1 := AddStruct(NEW_MESSAGE, 0, 1, 1);
    var m2 := PutTag(m1, 1, 1);
    var m3 := AddStruct(m2, 2, 0, 2);
    var m4 := AddBytes(m3, 3, siteId);
    StructAdded(NEW_MESSAGE, 0, 1, 1);
    TagIsRead(m1, 1, 1);
    StructAdded(m2, 2, 0, 2);
    BytesAdded(m3, 3, siteId);
    ListAdded(m4, 4, count, 4, 5);
    BytesKept(m4, BuildChangesHeader(siteId, count), 3, 5, siteId, 4, 5);
  }

  lemma ChangesHeaderKept(seg: Seg, seg': Seg, siteId: SiteId, count: nat, hi: nat)
    requires ChangesHeaderAt(seg, siteId, count) && Extends(seg, seg', 6 + WordCount(|siteId|), hi)
    ensures ChangesHeaderAt(seg', siteId, count)
  {
    BytesKept(seg, seg', 3, 5, siteId, 6 + WordCount(|siteId|), hi);
  }

  lemma ChangesMessageBuilt(siteId: SiteId, changes: seq<Change>)
    ensures var n, first := |changes|, 6 + WordCount(|siteId|);
      var seg := SegOfResponse(Changes(ChangesResponse(siteId, changes)));
      && |seg| == first + 9 * n + AllChangeWords(changes)
      && ChangesHeaderAt(seg, siteId, n) && ChangesAt(seg, first, first + 9 * n, changes)
  {
    hide ChangesHeaderAt, ChangesAt, BuildChanges, BuildChangesHeader, Extends;
    var n, first := |changes|, 6 + WordCount(|siteId|);
    var head := BuildChangesHeader(siteId, n);
    ChangesHeaderBuilt(siteId, n);
    ChangesBuilt(head, first, |head|, changes);
    ChangesHeaderKept(head, BuildChanges(head, first, changes), siteId, n, first + 9 * n);
  }

  lemma ChangesResultIsRead(seg: Seg, siteId: SiteId, changes: seq<Change>)
    requires ChangesHeaderAt(seg, siteId, |changes|) && |seg| <= LIMIT
    requires ChangesAt(seg, 6 + WordCount(|siteId|), 6 + WordCount(|siteId|) + 9 * |changes|, changes)
    requires BytesFit(siteId) && forall i :: 0 <= i < |changes| ==> ChangeFits(changes[i])
    ensures ReadStruct(seg, Ptr(2, seg[2])) == Ok(Struct(3, 0, 3, 2))
    ensures DecodeChangesResult(seg, Struct(3, 0, 3, 2)) == Ok(Changes(ChangesResponse(siteId, changes)))
  {
    hide ChangesAt, ChangeFits, BytesAt, DecodeChanges, ReadBytes, ReadList;
    var n, first := |changes|, 6 + WordCount(|siteId|);
    StructIsRead(seg, 2, 3, 0, 2);
    BytesAreRead(seg, 3, 5, siteId);
    ListIsRead(seg, 4, first - 1, n, 4, 5);
    ChangesAreRead(seg, first, first + 9 * n, changes, n);
    assert changes[..n] == changes;
  }

  lemma ChangesRoundTrip(siteId: SiteId, changes: seq<Change>)
    requires ResponseFits(Changes(ChangesResponse(siteId, changes)))
    ensures var r := Changes(ChangesResponse(siteId, changes));
      |SegOfResponse(r)| <= LIMIT && DecodeResponse(Frame(SegOfResponse(r))) == Ok(r)
  {
    hide ChangesAt, ChangeFits, BytesAt, ListAt, SegOfResponse, RootOf, DecodeChangesResult, ReadStruct;
    var seg := SegOfResponse(Changes(ChangesResponse(siteId, changes)));
    ChangesMessageBuilt(siteId, changes);
    RootIsRead(seg, 1, 1);
    ChangesResultIsRead(seg, siteId, changes);
  }

  /** A status response: `d_b_status` (1, 1) behind the root, its version in word
      0 and its site id behind pointer 0. */
  ghost predicate StatusAt(seg: Seg, siteId: SiteId, dbVersion: i64) {
    && StructAt(seg, 0, 1, 1, 1) && seg[1] % TWO16 == 0 && StructAt(seg, 2, 3, 1, 1)
    && seg[3] == BitsOf(dbVersion) && BytesAt(seg, 4, 5, siteId)
  }

  lemma StatusBuilt(siteId: SiteId, dbVersion: i64)
    ensures StatusAt(SegOfResponse(StatusResponse(siteId, dbVersion)), siteId, dbVersion)
  {
    var m1 := AddStruct(NEW_MESSAGE, 0, 1, 1);
    var m2 := PutTag(m1, 1, 0);
    var m3 := AddStruct(m2, 2, 1, 1);
    var m4 := AddBytes(m3, 4, siteId);
    var seg := m4[3 := BitsOf(dbVersion)];
    StructAdded(NEW_MESSAGE, 0, 1, 1);
    TagIsRead(m1, 1, 0);
    StructAdded(m2, 2, 1, 1);
    BytesAdded(m3, 4, siteId);
    assert Extends(m4, seg, 3, 4);
    BytesKept(m4, seg, 4, 5, siteId, 3, 4);
  }

  lemma StatusRoundTrip(siteId: SiteId, dbVersion: i64)
    requires ResponseFits(StatusResponse(siteId, dbVersion))
    ensures var r := StatusResponse(siteId, dbVersion);
      |SegOfResponse(r)| <= LIMIT && DecodeResponse(Frame(SegOfResponse(r))) == Ok(r)
  {
    var seg := SegOfResponse(StatusResponse(siteId, dbVersion));
    StatusBuilt(siteId, dbVersion);
    RootIsRead(seg, 1, 1);
    StructIsRead(seg, 2, 3, 1, 1);
    BytesAreRead(seg, 4, 5, siteId);
    SignedBits(dbVersion);
  }

  /** Response round trip, for both kinds of response, every site id and every
      list of changes that fits: all fields, all five kinds of value, in order. */
  lemma ResponseRoundTrip(r: Response)
    requires ResponseFits(r)
    ensures |SegOfResponse(r)| <= LIMIT && DecodeResponse(Frame(SegOfResponse(r))) == Ok(r)
  {
    match r
    case Changes(ChangesResponse(siteId, changes)) => ChangesRoundTrip(siteId, changes);
    case StatusResponse(siteId, dbVersion) => StatusRoundTrip(siteId, dbVersion);
  }

  /** A request: its discriminant in the root, and for `changes` the version in
      word 0 of `changes_params` (1, 0). */
  ghost predicate RequestAt(seg: Seg, q: Request) {
    StructAt(seg, 0, 1, 1, 1) &&
    match q
    case StatusRequest => seg[1] % TWO16 == 0
    case ChangesRequest(since) => seg[1] % TWO16 == 1 && StructAt(seg, 2, 3, 1, 0) && seg[3] == BitsOf(since)
  }

  lemma RequestBuilt(q: Request)
    ensures RequestAt(SegOfRequest(q), q)
  {
    var m1 := AddStruct(NEW_MESSAGE, 0, 1, 1);
    StructAdded(NEW_MESSAGE, 0, 1, 1);
    match q
    case StatusRequest =>
      TagIsRead(m1, 1, 0);
    case ChangesRequest(since) =>
      TagIsRead(m1, 1, 1);
      StructAdded(PutTag(m1, 1, 1), 2, 1, 0);
  }

  lemma RequestRoundTrip(q: Request)
    ensures |SegOfRequest(q)| <= LIMIT && DecodeRequest(Frame(SegOfRequest(q))) == Ok(q)
  {
    var seg := SegOfRequest(q);
    RequestBuilt(q);
    RootIsRead(seg, 1, 1);
    match q
    case StatusRequest =>
    case ChangesRequest(since) =>
      StructIsRead(seg, 2, 3, 1, 0);
      SignedBits(since);
  }

  /** An announcement: the status (1, 1) behind pointer 0 of the root, the key
      behind pointer 1, the route behind pointer 2. */
  ghost predicate NodeStatusAt(seg: Seg, s: NodeStatus) {
    var h := 6 + WordCount(|s.siteId|);
    && StructAt(seg, 0, 1, 0, 3) && StructAt(seg, 1, 4, 1, 1)
    && seg[4] == BitsOf(s.dbVersion) && BytesAt(seg, 5, 6, s.siteId)
    && BytesAt(seg, 2, h, s.key + [0]) && BytesAt(seg, 3, h + WordCount(|s.key| + 1), s.route)
  }

  lemma NodeStatusBuilt(s: NodeStatus)
    ensures NodeStatusAt(SegOfNodeStatus(s), s)
  {
    hide BytesAt;
    var m1 := AddStruct(NEW_MESSAGE, 0, 0, 3);
    var m2 := AddStruct(m1, 1, 1, 1);
    var m3 := AddBytes(m2, 5, s.siteId);
    var m4 := m3[4 := BitsOf(s.dbVersion)];
    var m5 := AddText(m4, 2, s.key);
    var seg := AddBytes(m5, 3, s.route);
    StructAdded(NEW_MESSAGE, 0, 0, 3);
    StructAdded(m1, 1, 1, 1);
    BytesAdded(m2, 5, s.siteId);
    assert Extends(m3, m4, 4, 5);
    BytesKept(m3, m4, 5, 6, s.siteId, 4, 5);
    BytesAdded(m4, 2, s.key + [0]);
    BytesKept(m4, m5, 5, 6, s.siteId, 2, 3);
    BytesAdded(m5, 3, s.route);
    BytesKept(m5, seg, 5, 6, s.siteId, 3, 4);
    BytesKept(m5, seg, 2, |m4|, s.key + [0], 3, 4);
  }

  lemma NodeStatusSize(s: NodeStatus)
    ensures |SegOfNodeStatus(s)| == 6 + WordCount(|s.siteId|) + WordCount(|s.key| + 1) + WordCount(|s.route|)
  {
  }

  lemma NodeStatusRoundTrip(s: NodeStatus)
    requires NodeStatusFits(s)
    ensures |SegOfNodeStatus(s)| <= LIMIT && DecodeNodeStatus(Frame(SegOfNodeStatus(s))) == Ok(s)
  {
    hide BytesAt, ReadBytes, ReadText, ReadStruct, RootOf, SegOfNodeStatus;
    var seg, h := SegOfNodeStatus(s), 6 + WordCount(|s.siteId|);
    NodeStatusBuilt(s);
    NodeStatusSize(s);
    RootIsRead(seg, 0, 3);
    StructIsRead(seg, 1, 4, 1, 1);
    BytesAreRead(seg, 5, 6, s.siteId);
    TextIsRead(seg, 2, h, s.key);
    BytesAreRead(seg, 3, h + WordCount(|s.key| + 1), s.route);
    SignedBits(s.dbVersion);
  }

  /** An envelope: the sender behind pointer 0 of the root, the contents behind
      pointer 1. */
  ghost predicate EnvelopeAt(seg: Seg, e: Envelope) {
    && StructAt(seg, 0, 1, 0, 2)
    && BytesAt(seg, 1, 3, e.sender + [0]) && BytesAt(seg, 2, 3 + WordCount(|e.sender| + 1), e.contents)
  }

  lemma EnvelopeBuilt(e: Envelope)
    ensures EnvelopeAt(SegOfEnvelope(e), e)
  {
    hide BytesAt;
    var m1 := AddStruct(NEW_MESSAGE, 0, 0, 2);
    var m2 := AddText(m1, 1, e.sender);
    var seg := AddBytes(m2, 2, e.contents);
    StructAdded(NEW_MESSAGE, 0, 0, 2);
    BytesAdded(m1, 1, e.sender + [0]);
    BytesAdded(m2, 2, e.contents);
    BytesKept(m2, seg, 1, 3, e.sender + [0], 2, 3);
  }

  lemma EnvelopeRoundTrip(e: Envelope)
    requires EnvelopeFits(e)
    ensures |SegOfEnvelope(e)| <= LIMIT && DecodeEnvelope(Frame(SegOfEnvelope(e))) == Ok(e)
  {
    hide BytesAt, ReadBytes, ReadText;
    var seg := SegOfEnvelope(e);
    EnvelopeBuilt(e);
    RootIsRead(seg, 0, 2);
    TextIsRead(seg, 1, 3, e.sender);
    BytesAreRead(seg, 2, 3 + WordCount(|e.sender| + 1), e.contents);
  }

  // ------------------------------------------ what is decoded was there

  /** Exactly which structs are read as a value: the discriminant says the kind,
      and what is read is the payload of that kind. Any other discriminant is an
      error. */
  lemma DecodeValueIff(seg: Seg, s: Struct, val: Value)
    requires s.In(seg)
    ensures DecodeValue(seg, s) == Ok(val) <==>
      match val
      case Null => s.Tag(seg) == 0
      case Integer(i) => s.Tag(seg) == 1 && s.I64At(seg, 1) == i
      case Real(bits) => s.Tag(seg) == 2 && s.WordAt(seg, 1) == bits
      case TextValue(t) => s.Tag(seg) == 3 && ReadText(seg, s.PtrAt(seg, 0)) == Ok(t)
      case Blob(b) => s.Tag(seg) == 4 && ReadBytes(seg, s.PtrAt(seg, 0)) == Ok(b)
    ensures s.Tag(seg) > 4 ==> DecodeValue(seg, s) == Err(NotInSchema)
  {
    hide ReadText, ReadBytes;
  }

  /** A message whose discriminant its schema does not have is an error. */
  lemma UnknownMessagesAreErrors(b: Bytes)
    requires RootOf(b).Ok? && RootOf(b).value.1.Tag(RootOf(b).value.0) > 1
    ensures DecodeRequest(b) == Err(NotInSchema) && DecodeResponse(b) == Err(NotInSchema)
  {
    hide RootOf;
  }

  // ---------------------------------------------------------- what fits

  /** The sizes that fit, in numbers: lists have fewer than 2^29 bytes, counting the
      NUL of a text, and the whole message at most 2^29 words. */
  lemma EnvelopeFitsIff(e: Envelope)
    ensures EnvelopeFits(e) <==>
      && |e.sender| + 1 < 0x2000_0000 && |e.contents| < 0x2000_0000
      && |SegOfEnvelope(e)| <= 0x2000_0000
  {
  }

  lemma NodeStatusFitsIff(s: NodeStatus)
    ensures NodeStatusFits(s) <==>
      && |s.siteId| < 0x2000_0000 && |s.key| + 1 < 0x2000_0000 && |s.route| < 0x2000_0000
      && |SegOfNodeStatus(s)| <= 0x2000_0000
  {
  }

  lemma StatusFitsIff(siteId: SiteId, dbVersion: i64)
    ensures ResponseFits(StatusResponse(siteId, dbVersion)) <==> |siteId| < 0x2000_0000
  {
  }

  lemma ChangesFit(siteId: SiteId, changes: seq<Change>)
    ensures ResponseFits(Changes(ChangesResponse(siteId, changes))) <==>
      && |siteId| < 0x2000_0000
      && (forall i :: 0 <= i < |changes| ==>
            && |changes[i].table| + 1 < 0x2000_0000 && |changes[i].pk| < 0x2000_0000
            && |changes[i].cid| + 1 < 0x2000_0000
            && (changes[i].val.TextValue? ==> |changes[i].val.t| + 1 < 0x2000_0000)
            && (changes[i].val.Blob? ==> |changes[i].val.b| < 0x2000_0000))
      && |SegOfResponse(Changes(ChangesResponse(siteId, changes)))| <= 0x2000_0000
  {
    hide ChangesHeaderAt, ChangesAt, SegOfResponse, AllChangeWords, WordCount;
    ChangesMessageBuilt(siteId, changes);
  }
}
