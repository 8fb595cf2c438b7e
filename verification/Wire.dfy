/** Cap'n Proto messages of one segment: pointers, structs, lists, and the
    framing of a stream (Cap'n Proto encoding, sections "Structs", "Lists" and
    "Serialization Over a Stream").

    Offsets are in words. A builder only ever appends objects, so every pointer
    it writes points forward. */
module Wire {
  import opened Basics
  import opened Messages
  import opened Words

  /** List sizes have 29 bits, and so have forward offsets. */
  const LIMIT := 0x2000_0000

  const TWO16 := 0x1_0000
  const TWO32 := 0x1_0000_0000
  const TWO35 := 0x8_0000_0000
  const TWO48 := 0x1_0000_0000_0000

  /** Element size codes of the two kinds of list in use. */
  const BYTE_LIST := 2
  const STRUCT_LIST := 7

  // --------------------------------------------------------------- pointers

  function StructPtr(offset: nat, data: nat, ptrs: nat): u64
    requires data < TWO16 && ptrs < TWO16
  {
    4 * (offset % LIMIT) + TWO32 * data + TWO48 * ptrs
  }

  function ListPtr(offset: nat, code: nat, count: nat): u64
    requires code < 8
  {
    1 + 4 * (offset % LIMIT) + TWO32 * code + TWO35 * (count % LIMIT)
  }

  /** The word in front of the elements of a list of structs: a struct pointer
      with the number of elements where the offset would be. */
  function ListTag(count: nat, data: nat, ptrs: nat): u64
    requires data < TWO16 && ptrs < TWO16
  {
    StructPtr(count, data, ptrs)
  }

  function KindOf(w: u64): int {
    w % 4
  }

  /** The signed 30-bit offset. */
  function OffsetOf(w: u64): int {
    var o := w % TWO32 / 4;
    if o >= LIMIT then o - 2 * LIMIT else o
  }

  function DataSizeOf(w: u64): nat {
    w / TWO32 % TWO16
  }

  function PtrCountOf(w: u64): nat {
    w / TWO48
  }

  function CodeOf(w: u64): nat {
    w / TWO32 % 8
  }

  function CountOf(w: u64): nat {
    w / TWO35
  }

  function TagCountOf(w: u64): nat {
    w % TWO32 / 4
  }

  lemma SplitAt32(w: int, high: int, low: int)
    requires w == TWO32 * high + low && 0 <= low < TWO32
    ensures w / TWO32 == high && w % TWO32 == low
  {
  }

  lemma SplitAt48(w: int, high: int, low: int)
    requires w == TWO48 * high + low && 0 <= low < TWO48
    ensures w / TWO48 == high
  {
  }

  lemma SplitKind(w: int, high: int, kind: int)
    requires w == 4 * high + kind && 0 <= kind < 4
    ensures w % 4 == kind
  {
  }

  lemma StructPtrFields(offset: nat, data: nat, ptrs: nat)
    requires offset < LIMIT && data < TWO16 && ptrs < TWO16
    ensures var w := StructPtr(offset, data, ptrs);
      KindOf(w) == 0 && OffsetOf(w) == offset && DataSizeOf(w) == data && PtrCountOf(w) == ptrs
  {
    var w := 4 * offset + TWO32 * data + TWO48 * ptrs;
    assert offset % LIMIT == offset;
    SplitKind(w, offset + TWO32 / 4 * data + TWO48 / 4 * ptrs, 0);
    SplitAt32(w, data + TWO16 * ptrs, 4 * offset);
    SplitAt48(w, ptrs, TWO32 * data + 4 * offset);
    SplitAt16(data + TWO16 * ptrs, ptrs, data);
  }

  lemma SplitAt16(w: int, high: int, low: int)
    requires w == TWO16 * high + low && 0 <= low < TWO16
    ensures w % TWO16 == low
  {
  }

  lemma ListPtrFields(offset: nat, code: nat, count: nat)
    requires offset < LIMIT && code < 8 && count < LIMIT
    ensures var w := ListPtr(offset, code, count);
      KindOf(w) == 1 && OffsetOf(w) == offset && CodeOf(w) == code && CountOf(w) == count
  {
    var w := ListPtr(offset, code, count);
    SplitAt32(w, code + 8 * count, 1 + 4 * offset);
    SplitAt35(w, count, TWO32 * code + 1 + 4 * offset);
  }

  lemma SplitAt35(w: int, high: int, low: int)
    requires w == TWO35 * high + low && 0 <= low < TWO35
    ensures w / TWO35 == high
  {
  }

  lemma ListTagFields(count: nat, data: nat, ptrs: nat)
    requires count < LIMIT && data < TWO16 && ptrs < TWO16
    ensures var w := ListTag(count, data, ptrs);
      KindOf(w) == 0 && TagCountOf(w) == count && DataSizeOf(w) == data && PtrCountOf(w) == ptrs
  {
    StructPtrFields(count, data, ptrs);
  }

  // ------------------------------------------------- pointers, byte by byte

  lemma Pow256Of4()
    ensures Pow256(2) == TWO16 && Pow256(4) == 0x1_0000_0000
  {
  }

  /** A struct pointer: 30 bits of offset above a zero kind, then the two section
      sizes, 16 bits each (Cap'n Proto encoding, section "Structs"). */
  lemma StructPtrBytes(offset: nat, data: nat, ptrs: nat)
    requires offset < 0x2000_0000 && data < 0x1_0000 && ptrs < 0x1_0000
    ensures BytesOfWord(StructPtr(offset, data, ptrs)) ==
      LittleEndian(4 * offset, 4) + LittleEndian(data, 2) + LittleEndian(ptrs, 2)
  {
    hide LittleEndian;
    Pow256Of4();
    assert StructPtr(offset, data, ptrs) == Pow256(4) * (Pow256(2) * ptrs + data) + 4 * offset;
    LittleEndianSplit(4 * offset, Pow256(2) * ptrs + data, 4, 4);
    LittleEndianSplit(data, ptrs, 2, 2);
  }

  /** A list pointer: offset above kind 1, then 29 bits of length above the element
      size code: 2 for bytes, 7 for structs, whose length counts words (section
      "Lists"). */
  lemma ListPtrBytes(offset: nat, count: nat)
    requires offset < 0x2000_0000 && count < 0x2000_0000
    ensures BytesOfWord(ListPtr(offset, BYTE_LIST, count)) ==
      LittleEndian(4 * offset + 1, 4) + LittleEndian(8 * count + 2, 4)
    ensures BytesOfWord(ListPtr(offset, STRUCT_LIST, count)) ==
      LittleEndian(4 * offset + 1, 4) + LittleEndian(8 * count + 7, 4)
  {
    hide LittleEndian;
    Pow256Of4();
    assert ListPtr(offset, BYTE_LIST, count) == Pow256(4) * (8 * count + 2) + (4 * offset + 1);
    LittleEndianSplit(4 * offset + 1, 8 * count + 2, 4, 4);
    assert ListPtr(offset, STRUCT_LIST, count) == Pow256(4) * (8 * count + 7) + (4 * offset + 1);
    LittleEndianSplit(4 * offset + 1, 8 * count + 7, 4, 4);
  }

  /** The tag word of a list of structs is a struct pointer that has the number of
      elements in place of its offset. */
  lemma ListTagBytes(count: nat, data: nat, ptrs: nat)
    requires count < 0x2000_0000 && data < 0x1_0000 && ptrs < 0x1_0000
    ensures BytesOfWord(ListTag(count, data, ptrs)) ==
      LittleEndian(4 * count, 4) + LittleEndian(data, 2) + LittleEndian(ptrs, 2)
  {
    StructPtrBytes(count, data, ptrs);
  }

  /** Offsets read are signed 30-bit numbers. */
  lemma OffsetIsSigned(w: u64, offset: int)
    requires -0x2000_0000 <= offset < 0x2000_0000
    ensures OffsetOf(w) == offset <==> (w / 4 - offset) % 0x4000_0000 == 0
  {
    assert w % TWO32 / 4 == w / 4 % 0x4000_0000;
  }

  // --------------------------------------------------------------- building

  function Zeros(n: nat): (z: Seg)
    ensures |z| == n && forall i :: 0 <= i < n ==> z[i] == 0
  {
    seq(n, _ => 0)
  }

  /** `set_data_field::<u16>(0, tag)`: the low 16 bits of the first word. */
  function PutTag(seg: Seg, at: nat, tag: nat): (r: Seg)
    requires at < |seg| && tag < TWO16
    ensures |r| == |seg|
  {
    seg[at := seg[at] - seg[at] % TWO16 + tag]
  }

  /** A new struct at the end, pointed to from `slot`. */
  function AddStruct(seg: Seg, slot: nat, data: nat, ptrs: nat): (r: Seg)
    requires slot < |seg| && data < TWO16 && ptrs < TWO16
    ensures |r| == |seg| + data + ptrs
  {
    seg[slot := StructPtr(|seg| - slot - 1, data, ptrs)] + Zeros(data + ptrs)
  }

  /** `set_data`: a byte list at the end. */
  function AddBytes(seg: Seg, slot: nat, b: Bytes): (r: Seg)
    requires slot < |seg|
    ensures |r| == |seg| + WordCount(|b|)
  {
    seg[slot := ListPtr(|seg| - slot - 1, BYTE_LIST, |b|)] + Pack(b)
  }

  /** `set_text`: the bytes and a NUL. */
  function AddText(seg: Seg, slot: nat, t: Bytes): (r: Seg)
    requires slot < |seg|
    ensures |r| == |seg| + WordCount(|t| + 1)
  {
    AddBytes(seg, slot, t + [0])
  }

  /** `init` of a list of structs: tag word, then the zeroed elements. */
  function AddList(seg: Seg, slot: nat, count: nat, data: nat, ptrs: nat): (r: Seg)
    requires slot < |seg| && data < TWO16 && ptrs < TWO16
    ensures |r| == |seg| + 1 + count * (data + ptrs)
  {
    seg[slot := ListPtr(|seg| - slot - 1, STRUCT_LIST, count * (data + ptrs))]
      + [ListTag(count, data, ptrs)] + Zeros(count * (data + ptrs))
  }

  // ---------------------------------------------------------------- reading

  /** A struct a reader has found: where its two sections are. */
  datatype Struct = Struct(data: nat, dataWords: nat, ptrs: nat, ptrCount: nat) {
    predicate In(seg: Seg) {
      data + dataWords <= |seg| && ptrs + ptrCount <= |seg|
    }

    /** A data word; past the section it reads as 0. */
    function WordAt(seg: Seg, i: nat): u64
      requires In(seg)
    {
      if i < dataWords then seg[data + i] else 0
    }

    function Tag(seg: Seg): int
      requires In(seg)
    {
      WordAt(seg, 0) % TWO16
    }

    function I64At(seg: Seg, i: nat): i64
      requires In(seg)
    {
      SignedOf(WordAt(seg, i))
    }

    /** A pointer; past the section it reads as null. */
    function PtrAt(seg: Seg, i: nat): Ptr
      requires In(seg)
    {
      if i < ptrCount then Ptr(ptrs + i, seg[ptrs + i]) else Ptr(0, 0)
    }
  }

  /** A pointer word and where it stands. */
  datatype Ptr = Ptr(slot: nat, word: u64) {
    function Target(): int {
      slot + 1 + OffsetOf(word)
    }
  }

  datatype StructList = StructList(first: nat, count: nat, dataWords: nat, ptrCount: nat) {
    predicate In(seg: Seg) {
      first + count * (dataWords + ptrCount) <= |seg|
    }

    function Element(seg: Seg, i: nat): (s: Struct)
      requires In(seg) && i < count
      ensures s.In(seg)
    {
      var at := first + i * (dataWords + ptrCount);
      ElementFits(i, count, dataWords + ptrCount);
      Struct(at, dataWords, at + dataWords, ptrCount)
    }
  }

  lemma ElementFits(i: nat, count: nat, step: nat)
    requires i < count
    ensures i * step + step <= count * step
  {
    assert (i + 1) * step <= count * step;
  }

  function ReadStruct(seg: Seg, p: Ptr): (r: Result<Struct, Error>)
    ensures r.Ok? ==> r.value.In(seg)
  {
    if p.word == 0 then Ok(Struct(0, 0, 0, 0))
    else if KindOf(p.word) != 0 then Err(Capnp)
    else
      var at, d, n := p.Target(), DataSizeOf(p.word), PtrCountOf(p.word);
      if at < 0 || at + d + n > |seg| then Err(Capnp) else Ok(Struct(at, d, at + d, n))
  }

  function ReadBytes(seg: Seg, p: Ptr): Result<Bytes, Error> {
    if p.word == 0 then Ok([])
    else if KindOf(p.word) != 1 || CodeOf(p.word) != BYTE_LIST then Err(Capnp)
    else
      var at, n := p.Target(), CountOf(p.word);
      if at < 0 || at + WordCount(n) > |seg| then Err(Capnp)
      else Ok(BytesOf(seg[at..at + WordCount(n)])[..n])
  }

  /** `get_*` of a text, then `to_string`. */
  function ReadText(seg: Seg, p: Ptr): Result<Text, Error> {
    if p.word == 0 then Ok([])
    else
      match ReadBytes(seg, p)
      case Err(e) => Err(e)
      case Ok(b) =>
        if b == [] || b[|b| - 1] != 0 then Err(Capnp)
        else if !ValidUtf8(b[..|b| - 1]) then Err(Utf8)
        else Ok(b[..|b| - 1])
  }

  function ReadList(seg: Seg, p: Ptr): (r: Result<StructList, Error>)
    ensures r.Ok? ==> r.value.In(seg)
  {
    if p.word == 0 then Ok(StructList(0, 0, 0, 0))
    else if KindOf(p.word) != 1 || CodeOf(p.word) != STRUCT_LIST then Err(Capnp)
    else
      var at, words := p.Target(), CountOf(p.word);
      if at < 0 || at + 1 + words > |seg| then Err(Capnp)
      else
        var tag := seg[at];
        var count, d, n := TagCountOf(tag), DataSizeOf(tag), PtrCountOf(tag);
        if KindOf(tag) != 0 || count * (d + n) > words then Err(Capnp)
        else Ok(StructList(at + 1, count, d, n))
  }

  // ------------------------------------------------- what was built is read

  ghost predicate StructAt(seg: Seg, slot: nat, at: nat, data: nat, ptrs: nat) {
    && slot < at && at + data + ptrs <= |seg| && data < TWO16 && ptrs < TWO16
    && seg[slot] == StructPtr(at - slot - 1, data, ptrs)
  }

  ghost predicate BytesAt(seg: Seg, slot: nat, at: nat, b: Bytes) {
    && slot < at && at + WordCount(|b|) <= |seg|
    && seg[slot] == ListPtr(at - slot - 1, BYTE_LIST, |b|)
    && forall i :: 0 <= i < WordCount(|b|) ==> seg[at + i] == Pack(b)[i]
  }

  ghost predicate ListAt(seg: Seg, slot: nat, at: nat, count: nat, data: nat, ptrs: nat) {
    && slot < at && at + 1 + count * (data + ptrs) <= |seg| && data < TWO16 && ptrs < TWO16
    && seg[slot] == ListPtr(at - slot - 1, STRUCT_LIST, count * (data + ptrs))
    && seg[at] == ListTag(count, data, ptrs)
  }

  lemma StructIsRead(seg: Seg, slot: nat, at: nat, data: nat, ptrs: nat)
    requires StructAt(seg, slot, at, data, ptrs) && |seg| <= LIMIT && data + ptrs > 0
    ensures ReadStruct(seg, Ptr(slot, seg[slot])) == Ok(Struct(at, data, at + data, ptrs))
  {
    StructPtrFields(at - slot - 1, data, ptrs);
  }

  lemma BytesAreRead(seg: Seg, slot: nat, at: nat, b: Bytes)
    requires BytesAt(seg, slot, at, b) && |seg| <= LIMIT && |b| < LIMIT
    ensures seg[slot] != 0
    ensures ReadBytes(seg, Ptr(slot, seg[slot])) == Ok(b)
  {
    ListPtrFields(at - slot - 1, BYTE_LIST, |b|);
    assert seg[at..at + WordCount(|b|)] == Pack(b);
    UnpackPack(b);
  }

  lemma TextIsRead(seg: Seg, slot: nat, at: nat, t: Text)
    requires BytesAt(seg, slot, at, t + [0]) && |seg| <= LIMIT && |t| + 1 < LIMIT
    ensures ReadText(seg, Ptr(slot, seg[slot])) == Ok(t)
  {
    BytesAreRead(seg, slot, at, t + [0]);
    assert (t + [0])[..|t|] == t;
  }

  lemma ListIsRead(seg: Seg, slot: nat, at: nat, count: nat, data: nat, ptrs: nat)
    requires ListAt(seg, slot, at, count, data, ptrs) && |seg| <= LIMIT && data + ptrs > 0
    ensures ReadList(seg, Ptr(slot, seg[slot])) == Ok(StructList(at + 1, count, data, ptrs))
  {
    CountIsSmall(count, data + ptrs);
    ListPtrFields(at - slot - 1, STRUCT_LIST, count * (data + ptrs));
    ListTagFields(count, data, ptrs);
  }

  lemma CountIsSmall(count: nat, step: nat)
    requires step > 0
    ensures count <= count * step
  {
  }

  // ---------------------------------------------------------------- framing

  /** `write_message_segments_to_words` for one segment. */
  function Frame(seg: Seg): Bytes
    requires |seg| <= LIMIT
  {
    BytesOf([TWO32 * |seg|] + seg)
  }

  /** `read_message`, one segment only. */
  function Unframe(b: Bytes): Result<Seg, Error> {
    if |b| < 8 then Err(Capnp)
    else
      var header := WordOf(b[..8]);
      var words := header / TWO32;
      if header % TWO32 != 0 || words == 0 || |b| < 8 + 8 * words then Err(Capnp)
      else Ok(Pack(b[8..8 + 8 * words]))
  }

  lemma FrameRoundTrip(seg: Seg)
    requires 0 < |seg| <= LIMIT
    ensures Unframe(Frame(seg)) == Ok(seg)
  {
    var header: u64 := TWO32 * |seg|;
    var all := [header] + seg;
    assert all[1..] == seg;
    var b := Frame(seg);
    assert b == BytesOfWord(header) + BytesOf(seg);
    assert b[..8] == BytesOfWord(header);
    assert b[8..8 + 8 * |seg|] == BytesOf(seg);
    WordRoundTrip(header);
    PackBytesOf(seg);
  }

  /** On the wire: a count of zero further segments and the number of words, 32 bits
      each, then the words (section "Serialization Over a Stream"). */
  lemma FrameBytes(seg: Seg)
    requires |seg| <= LIMIT
    ensures |Frame(seg)| == 8 + 8 * |seg|
    ensures Frame(seg)[..8] == LittleEndian(0, 4) + LittleEndian(|seg|, 4)
    ensures forall k :: 0 <= k < |seg| ==> Frame(seg)[8 + 8 * k..16 + 8 * k] == LittleEndian(seg[k], 8)
  {
    var header: u64 := TWO32 * |seg|;
    hide LittleEndian, BytesOf, Frame;
    FrameIsHeaderAndWords(seg, header);
    HeaderBytes(|seg|);
    assert Frame(seg)[..8] == BytesOfWord(header);
    forall k | 0 <= k < |seg| ensures Frame(seg)[8 + 8 * k..16 + 8 * k] == LittleEndian(seg[k], 8) {
      WordBytes(seg, k);
      SliceOfRest(Frame(seg), 8, 8 * k, 8 * k + 8);
    }
  }

  lemma SliceOfRest(b: Bytes, n: nat, lo: nat, hi: nat)
    requires lo <= hi && n + hi <= |b|
    ensures b[n..][lo..hi] == b[n + lo..n + hi]
  {
  }

  lemma FrameIsHeaderAndWords(seg: Seg, header: u64)
    requires |seg| <= LIMIT && header == TWO32 * |seg|
    ensures |Frame(seg)| == 8 + 8 * |seg|
    ensures Frame(seg)[..8] == BytesOfWord(header) && Frame(seg)[8..] == BytesOf(seg)
  {
    assert ([header] + seg)[1..] == seg;
  }

  lemma HeaderBytes(n: nat)
    requires n < TWO32
    ensures BytesOfWord(TWO32 * n) == LittleEndian(0, 4) + LittleEndian(n, 4)
  {
    Pow256Of4();
    LittleEndianSplit(0, n, 4, 4);
  }

  lemma {:induction false} WordBytes(seg: Seg, k: nat)
    requires k < |seg|
    ensures BytesOf(seg)[8 * k..8 * k + 8] == LittleEndian(seg[k], 8)
  {
    hide LittleEndian;
    var first, rest := BytesOfWord(seg[0]), BytesOf(seg[1..]);
    if k == 0 {
      assert (first + rest)[..8] == first;
    } else {
      WordBytes(seg[1..], k - 1);
      assert (first + rest)[8 * k..8 * k + 8] == rest[8 * (k - 1)..8 * (k - 1) + 8];
    }
  }

  lemma HeaderIff(h: Bytes, n: nat)
    requires |h| == 8 && n < TWO32
    ensures WordOf(h) % TWO32 == 0 && WordOf(h) / TWO32 == n <==> h == LittleEndian(0, 4) + LittleEndian(n, 4)
  {
    ByteRoundTrip(h);
    HeaderBytes(n);
    WordRoundTrip(TWO32 * n);
    SplitAt32(TWO32 * n, n, 0);
    hide LittleEndian, FromLittleEndian;
    assert BytesOfWord(WordOf(h)) == h;
  }

  lemma WordsIff(b: Bytes, seg: Seg)
    requires |b| == 8 * |seg|
    ensures |Pack(b)| == |seg|
    ensures Pack(b) == seg <==> b == BytesOf(seg)
  {
    UnpackPack(b);
    assert BytesOf(Pack(b))[..|b|] == BytesOf(Pack(b));
    PackBytesOf(seg);
  }

  /** Exactly which bytes are a message, and what it holds: the header of a single
      non-empty segment, then all its words; whatever follows is not looked at. */
  lemma UnframeIff(b: Bytes, seg: Seg)
    ensures Unframe(b) == Ok(seg) <==>
      && 0 < |seg| < 0x1_0000_0000 && 8 + 8 * |seg| <= |b|
      && b[..8] == LittleEndian(0, 4) + LittleEndian(|seg|, 4)
      && b[8..8 + 8 * |seg|] == BytesOf(seg)
  {
    hide LittleEndian, BytesOf, Pack, WordOf;
    if |b| >= 8 && |seg| < TWO32 {
      HeaderIff(b[..8], |seg|);
      if 8 + 8 * |seg| <= |b| {
        WordsIff(b[8..8 + 8 * |seg|], seg);
      }
    }
    if Unframe(b).Ok? {
      HeaderIsSmall(WordOf(b[..8]));
    }
  }

  lemma HeaderIsSmall(w: u64)
    ensures 0 <= w / TWO32 < TWO32
  {
  }

  // -------------------------------------------------- what is read was there

  /** Exactly when a pointer word is read as bytes: it is null and there are none,
      or it is a list of bytes inside the message and these are the bytes. */
  lemma ReadBytesIff(seg: Seg, p: Ptr, b: Bytes)
    ensures ReadBytes(seg, p) == Ok(b) <==>
      || (p.word == 0 && b == [])
      || (&& p.word != 0 && p.word % 4 == 1 && p.word / 0x1_0000_0000 % 8 == 2
          && |b| == p.word / 0x8_0000_0000 && 0 <= p.Target() && p.Target() + WordCount(|b|) <= |seg|
          && forall i :: 0 <= i < |b| ==> b[i] == BytesOfWord(seg[p.Target() + i / 8])[i % 8])
  {
    var at, n := p.Target(), CountOf(p.word);
    if p.word != 0 && KindOf(p.word) == 1 && CodeOf(p.word) == BYTE_LIST && at >= 0 && at + WordCount(n) <= |seg| {
      var ws := seg[at..at + WordCount(n)];
      forall i | 0 <= i < n ensures BytesOf(ws)[i] == BytesOfWord(seg[at + i / 8])[i % 8] {
        BytesOfAt(ws, i);
        assert ws[i / 8] == seg[at + i / 8];
      }
      assert ReadBytes(seg, p) == Ok(BytesOf(ws)[..n]);
      if |b| == n && forall i :: 0 <= i < n ==> b[i] == BytesOf(ws)[i] {
        assert b == BytesOf(ws)[..n];
      }
    }
  }

  /** Exactly when it is read as a text: null is the empty one, and otherwise the
      bytes end in a NUL and what stands before it is UTF-8. */
  lemma ReadTextIff(seg: Seg, p: Ptr, t: Text)
    ensures ReadText(seg, p) == Ok(t) <==>
      if p.word == 0 then t == [] else ReadBytes(seg, p) == Ok(t + [0])
  {
    hide ReadBytes;
    if p.word != 0 && ReadBytes(seg, p).Ok? {
      var b := ReadBytes(seg, p).value;
      assert b != [] && b[|b| - 1] == 0 ==> b == b[..|b| - 1] + [0];
      assert (t + [0])[..|t|] == t;
    }
  }

  /** A pointer of another kind, or one that points outside of the message, is an
      error and not a value. */
  lemma OnlyGoodPointersAreRead(seg: Seg, p: Ptr)
    requires p.word != 0
    ensures ReadStruct(seg, p).Ok? ==>
      && p.word % 4 == 0 && p.Target() >= 0
      && p.Target() + DataSizeOf(p.word) + PtrCountOf(p.word) <= |seg|
    ensures ReadList(seg, p).Ok? ==>
      && p.word % 4 == 1 && p.word / 0x1_0000_0000 % 8 == 7 && p.Target() >= 0
      && p.Target() + 1 + p.word / 0x8_0000_0000 <= |seg|
  {
  }
}
