/** The layout of every message: which words the accessors of the generated code
    write and read. Section sizes, offsets and discriminants are those of
    `ddcp_capnp.rs`. */
module Layout {
  import opened Basics
  import opened Messages
  import opened Words
  import opened Wire

  // ---------------------------------------------------------------- writing

  /** A new message: the null root pointer. */
  const NEW_MESSAGE: Seg := [0]

  /** `change_value` (2 data words, 1 pointer) at `at`. */
  function BuildValue(seg: Seg, at: nat, val: Value): (r: Seg)
    requires at + 3 <= |seg|
    ensures |r| == |seg| + ValueWords(val)
  {
    match val
    case Null => PutTag(seg, at, 0)
    case Integer(i) => PutTag(seg, at, 1)[at + 1 := BitsOf(i)]
    case Real(bits) => PutTag(seg, at, 2)[at + 1 := bits]
    case TextValue(t) => AddText(PutTag(seg, at, 3), at + 2, t)
    case Blob(b) => AddBytes(PutTag(seg, at, 4), at + 2, b)
  }

  /** The words a value needs behind its struct. */
  function ValueWords(val: Value): nat {
    match val
    case TextValue(t) => WordCount(|t| + 1)
    case Blob(b) => WordCount(|b|)
    case _ => 0
  }

  /** The strings of a change, in the order they are written. */
  function BuildStrings(seg: Seg, at: nat, c: Change): (r: Seg)
    requires at + 9 <= |seg|
    ensures |r| == |seg| + StringWords(c)
  {
    AddText(AddBytes(AddText(seg, at + 4, c.table), at + 5, c.pk), at + 6, c.cid)
  }

  function StringWords(c: Change): nat {
    WordCount(|c.table| + 1) + WordCount(|c.pk|) + WordCount(|c.cid| + 1)
  }

  function PutNumbers(seg: Seg, at: nat, c: Change): (r: Seg)
    requires at + 9 <= |seg|
    ensures |r| == |seg|
  {
    seg[at := BitsOf(c.colVersion)][at + 1 := BitsOf(c.dbVersion)][at + 2 := BitsOf(c.cl)][at + 3 := BitsOf(c.seqNo)]
  }

  /** `change` (4 data words, 5 pointers) at `at`. */
  function BuildChange(seg: Seg, at: nat, c: Change): (r: Seg)
    requires at + 9 <= |seg|
    ensures |r| == |seg| + ChangeWords(c)
  {
    var s := PutNumbers(BuildStrings(seg, at, c), at, c);
    BuildValue(AddStruct(s, at + 7, 2, 1), |s|, c.val)
  }

  /** The words a change needs behind its element of the list. */
  function ChangeWords(c: Change): nat {
    StringWords(c) + 3 + ValueWords(c.val)
  }

  function AllChangeWords(changes: seq<Change>): nat {
    if changes == [] then 0
    else AllChangeWords(changes[..|changes| - 1]) + ChangeWords(changes[|changes| - 1])
  }

  /** The elements of the list, whose first one is at `first`. */
  function BuildChanges(seg: Seg, first: nat, changes: seq<Change>): (r: Seg)
    requires first + 9 * |changes| <= |seg|
    ensures |r| == |seg| + AllChangeWords(changes)
  {
    if changes == [] then seg
    else
      var n := |changes| - 1;
      BuildChange(BuildChanges(seg, first, changes[..n]), first + 9 * n, changes[n])
  }

  /** `response` (1, 1) with `changes_result` (0, 2), up to the list. */
  function BuildChangesHeader(siteId: SiteId, count: nat): (r: Seg)
    ensures |r| == 6 + WordCount(|siteId|) + count * 9
  {
    var root := PutTag(AddStruct(NEW_MESSAGE, 0, 1, 1), 1, 1);
    var result := AddStruct(root, 2, 0, 2);
    AddList(AddBytes(result, 3, siteId), 4, count, 4, 5)
  }

  function SegOfResponse(r: Response): (seg: Seg)
    ensures |seg| > 0
  {
    match r
    case Changes(ChangesResponse(siteId, changes)) =>
      BuildChanges(BuildChangesHeader(siteId, |changes|), 6 + WordCount(|siteId|), changes)
    case StatusResponse(siteId, dbVersion) =>
      var root := PutTag(AddStruct(NEW_MESSAGE, 0, 1, 1), 1, 0);
      AddBytes(AddStruct(root, 2, 1, 1), 4, siteId)[3 := BitsOf(dbVersion)]
  }

  function SegOfRequest(q: Request): (seg: Seg)
    ensures |seg| > 0
  {
    var root := AddStruct(NEW_MESSAGE, 0, 1, 1);
    match q
    case StatusRequest => PutTag(root, 1, 0)
    case ChangesRequest(since) => AddStruct(PutTag(root, 1, 1), 2, 1, 0)[3 := BitsOf(since)]
  }

  function SegOfNodeStatus(s: NodeStatus): (seg: Seg)
    ensures |seg| > 0
  {
    var root := AddStruct(NEW_MESSAGE, 0, 0, 3);
    var db := AddBytes(AddStruct(root, 1, 1, 1), 5, s.siteId)[4 := BitsOf(s.dbVersion)];
    AddBytes(AddText(db, 2, s.key), 3, s.route)
  }

  function SegOfEnvelope(e: Envelope): (seg: Seg)
    ensures |seg| > 0
  {
    AddBytes(AddText(AddStruct(NEW_MESSAGE, 0, 0, 2), 1, e.sender), 2, e.contents)
  }

  // ------------------------------------------------------------- size limits

  /** A byte list the format can hold; a text also needs its NUL. */
  predicate BytesFit(b: Bytes) {
    |b| < LIMIT
  }

  predicate TextFits(t: Bytes) {
    |t| + 1 < LIMIT
  }

  predicate ValueFits(v: Value) {
    (v.TextValue? ==> TextFits(v.t)) && (v.Blob? ==> BytesFit(v.b))
  }

  predicate ChangeFits(c: Change) {
    TextFits(c.table) && BytesFit(c.pk) && TextFits(c.cid) && ValueFits(c.val)
  }

  predicate ResponseFits(r: Response) {
    match r
    case Changes(ChangesResponse(siteId, changes)) =>
      && BytesFit(siteId) && (forall i :: 0 <= i < |changes| ==> ChangeFits(changes[i]))
      && 6 + WordCount(|siteId|) + 9 * |changes| + AllChangeWords(changes) <= LIMIT
    case StatusResponse(siteId, _) => BytesFit(siteId)
  }

  predicate NodeStatusFits(s: NodeStatus) {
    && BytesFit(s.siteId) && TextFits(s.key) && BytesFit(s.route)
    && 6 + WordCount(|s.siteId|) + WordCount(|s.key| + 1) + WordCount(|s.route|) <= LIMIT
  }

  predicate EnvelopeFits(e: Envelope) {
    && TextFits(e.sender) && BytesFit(e.contents)
    && 3 + WordCount(|e.sender| + 1) + WordCount(|e.contents|) <= LIMIT
  }

  // ---------------------------------------------------------------- reading

  function DecodeValue(seg: Seg, s: Struct): Result<Value, Error>
    requires s.In(seg)
  {
    match s.Tag(seg)
    case 0 => Ok(Null)
    case 1 => Ok(Integer(s.I64At(seg, 1)))
    case 2 => Ok(Real(s.WordAt(seg, 1)))
    case 3 =>
      var t :- ReadText(seg, s.PtrAt(seg, 0));
      Ok(TextValue(t))
    case 4 =>
      var b :- ReadBytes(seg, s.PtrAt(seg, 0));
      Ok(Blob(b))
    case _ => Err(NotInSchema)
  }

  function DecodeChange(seg: Seg, s: Struct): Result<Change, Error>
    requires s.In(seg)
  {
    var table :- ReadText(seg, s.PtrAt(seg, 0));
    var pk :- ReadBytes(seg, s.PtrAt(seg, 1));
    var cid :- ReadText(seg, s.PtrAt(seg, 2));
    var v :- ReadStruct(seg, s.PtrAt(seg, 3));
    var val :- DecodeValue(seg, v);
    Ok(Change(table, pk, cid, val, s.I64At(seg, 0), s.I64At(seg, 1), s.I64At(seg, 2), s.I64At(seg, 3)))
  }

  /** The first `n` elements of the list; the first bad one is the error. */
  function DecodeChanges(seg: Seg, l: StructList, n: nat): Result<seq<Change>, Error>
    requires l.In(seg) && n <= l.count
  {
    if n == 0 then Ok([])
    else
      var init :- DecodeChanges(seg, l, n - 1);
      var last :- DecodeChange(seg, l.Element(seg, n - 1));
      Ok(init + [last])
  }

  function RootOf(b: Bytes): (r: Result<(Seg, Struct), Error>)
    ensures r.Ok? ==> r.value.1.In(r.value.0)
  {
    var seg :- Unframe(b);
    var root :- ReadStruct(seg, Ptr(0, seg[0]));
    Ok((seg, root))
  }

  function DecodeChangesResult(seg: Seg, s: Struct): Result<Response, Error>
    requires s.In(seg)
  {
    var l :- ReadList(seg, s.PtrAt(seg, 1));
    var changes :- DecodeChanges(seg, l, l.count);
    var siteId :- ReadBytes(seg, s.PtrAt(seg, 0));
    Ok(Changes(ChangesResponse(siteId, changes)))
  }

  function DecodeResponse(b: Bytes): Result<Response, Error> {
    var (seg, root) :- RootOf(b);
    match root.Tag(seg)
    case 0 =>
      var s :- ReadStruct(seg, root.PtrAt(seg, 0));
      var siteId :- ReadBytes(seg, s.PtrAt(seg, 0));
      Ok(StatusResponse(siteId, s.I64At(seg, 0)))
    case 1 =>
      var s :- ReadStruct(seg, root.PtrAt(seg, 0));
      DecodeChangesResult(seg, s)
    case _ => Err(NotInSchema)
  }

  function DecodeRequest(b: Bytes): Result<Request, Error> {
    var (seg, root) :- RootOf(b);
    match root.Tag(seg)
    case 0 => Ok(StatusRequest)
    case 1 =>
      var s :- ReadStruct(seg, root.PtrAt(seg, 0));
      Ok(ChangesRequest(s.I64At(seg, 0)))
    case _ => Err(NotInSchema)
  }

  function DecodeNodeStatus(b: Bytes): Result<NodeStatus, Error> {
    var (seg, root) :- RootOf(b);
    var db :- ReadStruct(seg, root.PtrAt(seg, 0));
    var siteId :- ReadBytes(seg, db.PtrAt(seg, 0));
    var key :- ReadText(seg, root.PtrAt(seg, 1));
    var route :- ReadBytes(seg, root.PtrAt(seg, 2));
    Ok(NodeStatus(siteId, db.I64At(seg, 0), key, route))
  }

  function DecodeEnvelope(b: Bytes): Result<Envelope, Error> {
    var (seg, root) :- RootOf(b);
    var sender :- ReadText(seg, root.PtrAt(seg, 0));
    var contents :- ReadBytes(seg, root.PtrAt(seg, 1));
    Ok(Envelope(sender, contents))
  }
}
