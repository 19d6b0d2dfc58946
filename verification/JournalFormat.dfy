/** A writer of journal files, byte by byte as sections "Objects", "Data Objects"
    and "Entry Objects" of systemd's Journal File Format lay them out, and the
    round trip: the reader (internal/modules/logs/journalfile.go) gets back exactly
    what was written. */
module JournalFormat {
  import opened Wrappers
  import opened Journal

  /** The byte that stands for a number below 256. */
  function ByteOf(n: nat): (b: Byte)
    requires n < 256
    ensures b as nat == n
  {
    if n == 0 then 0 else ByteOf(n - 1) + 1
  }

  function LowByte(n: nat): (b: Byte)
    ensures b as nat == n % 256
  {
    ByteOf(n % 256)
  }

  /** A number in `width` bytes, the lowest first. */
  function Le(n: nat, width: nat): (s: Bytes)
    ensures |s| == width
  {
    if width == 0 then [] else [LowByte(n)] + Le(n / 256, width - 1)
  }

  function Power256(w: nat): nat {
    if w == 0 then 1 else 256 * Power256(w - 1)
  }

  function Zeros(n: nat): (s: Bytes)
    ensures |s| == n
  {
    seq(n, _ => 0)
  }

  /** What was written, one object after the other: a field, which may be
      compressed, or an entry that refers to fields by their places in the list. */
  datatype Obj = DataObj(flags: Byte, key: Bytes, val: Bytes) | EntryObj(realtime: nat, refs: seq<nat>)

  datatype Log = Log(headerSize: nat, compact: bool, objs: seq<Obj>)

  function SizeOf(o: Obj, compact: bool): nat {
    match o
    case DataObj(_, key, val) => (if compact then 72 else 64) + |key| + 1 + |val|
    case EntryObj(_, refs) => 64 + |refs| * (if compact then 4 else 16)
  }

  /** Where the `i`-th object begins: each is padded to a multiple of eight bytes. */
  function Offset(j: Log, i: nat): (o: nat)
    requires i <= |j.objs|
    ensures o >= j.headerSize
  {
    if i == 0 then j.headerSize else Offset(j, i - 1) + (SizeOf(j.objs[i-1], j.compact) + 7) / 8 * 8
  }

  function ObjectHeader(typ: Byte, flags: Byte, size: nat): (s: Bytes)
    ensures |s| == 16
  {
    [typ, flags] + Zeros(6) + Le(size, 8)
  }

  function Item(offset: nat, compact: bool): (s: Bytes)
    ensures |s| == if compact then 4 else 16
  {
    if compact then Le(offset, 4) else Le(offset, 8) + Zeros(8)
  }

  predicate RefsAreFields(j: Log, refs: seq<nat>) {
    forall n :: 0 <= n < |refs| ==> refs[n] < |j.objs| && j.objs[refs[n]].DataObj?
  }

  predicate RefsKnown(j: Log) {
    forall n :: 0 <= n < |j.objs| && j.objs[n].EntryObj? ==> RefsAreFields(j, j.objs[n].refs)
  }

  function ItemsOf(j: Log, refs: seq<nat>): (s: Bytes)
    requires RefsAreFields(j, refs)
    ensures |s| == |refs| * (if j.compact then 4 else 16)
  {
    if refs == [] then []
    else
      ItemsOf(j, refs[..|refs|-1]) + Item(Offset(j, refs[|refs|-1]), j.compact)
  }

  /** One object's bytes, without the padding behind it. */
  function ObjectBytes(j: Log, i: nat): (s: Bytes)
    requires i < |j.objs| && (j.objs[i].EntryObj? ==> RefsAreFields(j, j.objs[i].refs))
    ensures |s| == SizeOf(j.objs[i], j.compact)
  {
    var size := SizeOf(j.objs[i], j.compact);
    match j.objs[i]
    case DataObj(flags, key, val) =>
      ObjectHeader(1, flags, size) + Zeros(if j.compact then 56 else 48) + (key + [61] + val)
    case EntryObj(realtime, refs) =>
      ObjectHeader(3, 0, size) + (Zeros(8) + Le(realtime, 8) + Zeros(32) + ItemsOf(j, refs))
  }

  /** What a journal may hold for the reader to take it whole. */
  ghost predicate WellFormed(j: Log) {
    && Offset(j, |j.objs|) < (if j.compact then 0x1_0000_0000 else 0x8000_0000_0000_0000)
    && forall i :: 0 <= i < |j.objs| ==> ObjectFits(j, j.objs[i])
  }

  ghost predicate ObjectFits(j: Log, o: Obj) {
    && SizeOf(o, j.compact) <= 8388608
    && (o.DataObj? ==> o.key != [] && 61 !in o.key && |o.key| < 65536)
    && (o.EntryObj? ==> o.realtime < 0x1_0000_0000_0000_0000 && RefsAreFields(j, o.refs))
  }

  function Body(j: Log, k: nat): (s: Bytes)
    requires k <= |j.objs| && RefsKnown(j)
    ensures |s| == Offset(j, k) - j.headerSize
  {
    if k == 0 then []
    else
      var size := SizeOf(j.objs[k-1], j.compact);
      Body(j, k - 1) + ObjectBytes(j, k - 1) + Zeros((size + 7) / 8 * 8 - size)
  }

  function File(j: Log): Bytes
    requires RefsKnown(j)
  {
    Zeros(j.headerSize) + Body(j, |j.objs|)
  }

  function HeaderOf(j: Log): Header {
    Header(j.headerSize, Offset(j, |j.objs|) - j.headerSize, j.compact)
  }

  // ---- what a reader should find ----

  /** A value as it is read: a field is cut off after 65536 bytes. */
  function ValueRead(key: Bytes, val: Bytes): Bytes
    requires |key| < 65536
  {
    if |key| + 1 + |val| > 65536 then val[..65535 - |key|] else val
  }

  /** The wanted fields among `refs`, the later winning, and whether one was compressed. */
  ghost function FieldsOf(j: Log, refs: seq<nat>, want: set<Bytes>): (map<Bytes, Bytes>, bool)
    requires WellFormed(j) && RefsAreFields(j, refs)
  {
    if refs == [] then (map[], false)
    else
      assert ObjectFits(j, j.objs[refs[|refs|-1]]);
      var before := FieldsOf(j, refs[..|refs|-1], want);
      var o := j.objs[refs[|refs|-1]];
      if o.flags & 7 != 0 then (before.0, true)
      else if o.key in want then (before.0[o.key := ValueRead(o.key, o.val)], before.1)
      else before
  }

  function FirstRefs(refs: seq<nat>): seq<nat> {
    if |refs| > 128 then refs[..128] else refs
  }

  /** The word MESSAGE, in ASCII. */
  function MessageKey(): Bytes {
    [77, 69, 83, 83, 65, 71, 69]
  }

  /** The records from object `i` on, and how many were lost to compression: an
      entry is a record if it has a message. */
  ghost function RecordsFrom(j: Log, i: nat, want: set<Bytes>): (seq<Entry>, nat)
    requires WellFormed(j) && i <= |j.objs|
    decreases |j.objs| - i
  {
    if i == |j.objs| then ([], 0)
    else
      var rest := RecordsFrom(j, i + 1, want);
      match j.objs[i]
      case DataObj(_, _, _) => rest
      case EntryObj(realtime, refs) =>
        assert ObjectFits(j, j.objs[i]);
        var fields := FieldsOf(j, FirstRefs(refs), want);
        if MessageKey() in fields.0 then ([Entry(realtime, fields.0)] + rest.0, rest.1)
        else (rest.0, rest.1 + if fields.1 then 1 else 0)
  }

  // ---- numbers ----

  lemma {:induction false} LeRoundTrip(n: nat, w: nat)
    requires n < Power256(w)
    ensures LittleEndian(Le(n, w)) == n
  {
    hide Le;
    if w > 0 {
      assert n / 256 < Power256(w - 1);
      LeRoundTrip(n / 256, w - 1);
      LeStep(n, w);
    } else {
      LeNothing(n);
    }
  }

  lemma LeStep(n: nat, w: nat)
    requires w > 0
    ensures Le(n, w)[0] as nat == n % 256 && Le(n, w)[1..] == Le(n / 256, w - 1)
  {
    assert [LowByte(n)] + Le(n / 256, w - 1) == Le(n, w);
  }

  lemma LeNothing(n: nat)
    ensures Le(n, 0) == []
  {
  }

  lemma Powers()
    ensures Power256(4) == 0x1_0000_0000 && Power256(8) == 0x1_0000_0000_0000_0000
  {
    assert Power256(4) == 256 * Power256(3) == 256 * (256 * Power256(2));
    assert Power256(8) == 256 * (256 * (256 * (256 * Power256(4))));
  }

  // ---- the bytes at each place ----

  /** The bytes from `a` to `b` of the object that begins at `off`. */
  lemma Slice(f: Bytes, off: nat, obj: Bytes, a: nat, b: nat)
    requires off + |obj| <= |f| && f[off..off + |obj|] == obj && a <= b <= |obj|
    ensures f[off + a..off + b] == obj[a..b]
  {
    SameSlice(obj, f, off, a, b - a);
  }

  lemma {:induction false} OffsetsGrow(j: Log, i: nat, k: nat)
    requires i < k <= |j.objs|
    ensures Offset(j, i) + SizeOf(j.objs[i], j.compact) <= Offset(j, k)
    ensures Offset(j, i + 1) == Offset(j, i) + Align8(SizeOf(j.objs[i], j.compact))
  {
    if k > i + 1 { OffsetsGrow(j, i, k - 1); }
  }

  lemma SliceOfSum(a: Bytes, b: Bytes, c: Bytes, at: nat, size: nat)
    ensures (a + b + c)[|a|..|a| + |b|] == b
    ensures at + size <= |a| ==> (a + b + c)[at..at + size] == a[at..at + size]
  {
  }

  /** The body up to object `k` begins with the body before it, then the object. */
  lemma BodyStep(j: Log, k: nat, at: nat, size: nat)
    requires 0 < k <= |j.objs| && RefsKnown(j)
    ensures var before, obj, body := Body(j, k - 1), ObjectBytes(j, k - 1), Body(j, k);
      && |before| + |obj| <= |body| && body[|before|..|before| + |obj|] == obj
      && (at + size <= |before| ==> at + size <= |body| && body[at..at + size] == before[at..at + size])
  {
    hide ObjectBytes, SizeOf;
    var size' := SizeOf(j.objs[k-1], j.compact);
    SliceOfSum(Body(j, k - 1), ObjectBytes(j, k - 1), Zeros((size' + 7) / 8 * 8 - size'), at, size);
  }

  lemma {:induction false} BodyHas(j: Log, k: nat, i: nat)
    requires i < k <= |j.objs| && RefsKnown(j)
    ensures Offset(j, i) + SizeOf(j.objs[i], j.compact) <= Offset(j, k)
    ensures Body(j, k)[Offset(j, i) - j.headerSize..Offset(j, i) - j.headerSize + SizeOf(j.objs[i], j.compact)] == ObjectBytes(j, i)
  {
    hide ObjectBytes, SizeOf, Body, Offset, RefsKnown, Align8;
    OffsetsGrow(j, i, k);
    RefsAt(j, i);
    BodyStep(j, k, Offset(j, i) - j.headerSize, SizeOf(j.objs[i], j.compact));
    if i < k - 1 {
      OffsetsGrow(j, i, k - 1);
      BodyHas(j, k - 1, i);
    }
  }

  lemma RefsOf(j: Log)
    requires WellFormed(j)
    ensures RefsKnown(j)
  {
    forall n | 0 <= n < |j.objs| && j.objs[n].EntryObj? ensures RefsAreFields(j, j.objs[n].refs) { assert ObjectFits(j, j.objs[n]); }
  }

  lemma FileHas(j: Log, i: nat)
    requires WellFormed(j) && i < |j.objs|
    ensures RefsKnown(j)
    ensures |File(j)| == Offset(j, |j.objs|) && Offset(j, i) + SizeOf(j.objs[i], j.compact) <= |File(j)|
    ensures File(j)[Offset(j, i)..Offset(j, i) + SizeOf(j.objs[i], j.compact)] == ObjectBytes(j, i)
  {
    hide ObjectBytes, SizeOf, Body, Offset, RefsKnown, WellFormed;
    RefsOf(j);
    BodyHas(j, |j.objs|, i);
    var at, size := Offset(j, i) - j.headerSize, SizeOf(j.objs[i], j.compact);
    assert File(j)[j.headerSize + at..j.headerSize + at + size] == Body(j, |j.objs|)[at..at + size];
  }

  /** Type, flags and size of the object at `i`. */
  lemma HeaderBytes(j: Log, i: nat)
    requires i < |j.objs| && (j.objs[i].EntryObj? ==> RefsAreFields(j, j.objs[i].refs))
    ensures var b, o := ObjectBytes(j, i), j.objs[i];
      && |b| >= 16 && b[0] == (if o.DataObj? then 1 else 3) && b[1] == (if o.DataObj? then o.flags else 0)
      && b[8..16] == Le(SizeOf(o, j.compact), 8)
  {
    var o, size := j.objs[i], SizeOf(j.objs[i], j.compact);
    var head := ObjectHeader(if o.DataObj? then 1 else 3, if o.DataObj? then o.flags else 0, size);
    assert head[8..16] == Le(size, 8);
    assert ObjectBytes(j, i)[..16] == head;
  }

  lemma ReadsSize(j: Log, i: nat)
    requires WellFormed(j) && i < |j.objs|
    ensures RefsKnown(j)
    ensures var f, off, o := File(j), Offset(j, i), j.objs[i];
      && off + 16 <= |f| && ObjectSize(f, off) == SizeOf(o, j.compact)
      && f[off] == (if o.DataObj? then 1 else 3) && f[off + 1] == (if o.DataObj? then o.flags else 0)
  {
    hide LittleEndian, Le, File, ObjectBytes, Offset, WellFormed, RefsKnown, RefsAreFields;
    FileHas(j, i);
    RefsAt(j, i);
    HeaderBytes(j, i);
    var f, off, b, size := File(j), Offset(j, i), ObjectBytes(j, i), SizeOf(j.objs[i], j.compact);
    Slice(f, off, b, 8, 16);
    Slice(f, off, b, 0, 2);
    assert b[0..2][0] == b[0] && b[0..2][1] == b[1] && f[off + 0..off + 2][0] == f[off] && f[off + 0..off + 2][1] == f[off + 1];
    Powers();
    FitsAt(j, i);
    LeRoundTrip(size, 8);
  }

  lemma RefsAt(j: Log, i: nat)
    requires RefsKnown(j) && i < |j.objs|
    ensures j.objs[i].EntryObj? ==> RefsAreFields(j, j.objs[i].refs)
  {
  }

  lemma FitsAt(j: Log, i: nat)
    requires WellFormed(j) && i < |j.objs|
    ensures ObjectFits(j, j.objs[i])
  {
  }

  lemma IsThere(j: Log, i: nat)
    requires WellFormed(j) && i < |j.objs|
    ensures RefsKnown(j) && IsObject(File(j), HeaderOf(j), Offset(j, i)) && Offset(j, i) < End(HeaderOf(j))
  {
    ReadsSize(j, i);
    FileHas(j, i);
    assert ObjectFits(j, j.objs[i]);
    hide ObjectSize, File, Offset;
  }

  lemma NothingAfter(j: Log)
    requires WellFormed(j)
    ensures RefsKnown(j) && !IsObject(File(j), HeaderOf(j), Offset(j, |j.objs|))
  {
    RefsOf(j);
  }

  // ---- a field is read back ----

  lemma FirstEquals(key: Bytes, rest: Bytes)
    requires 61 !in key
    ensures IndexOf(key + [61] + rest, 61) == |key|
  {
    var s := key + [61] + rest;
    var i := IndexOf(s, 61);
    assert s[|key|] == 61;
    assert forall k :: 0 <= k < |key| ==> s[k] == key[k];
  }

  lemma SplitsBack(key: Bytes, val: Bytes, want: set<Bytes>)
    requires key != [] && 61 !in key && |key| < 65536
    ensures var payload := key + [61] + val;
      Split(payload[..if |payload| > 65536 then 65536 else |payload|], want) ==
        if key in want then Field(key, ValueRead(key, val)) else Unwanted
  {
    var payload, cut := key + [61] + val, ValueRead(key, val);
    var buf := payload[..if |payload| > 65536 then 65536 else |payload|];
    assert buf == key + [61] + cut;
    FirstEquals(key, cut);
    assert buf[..|key|] == key && buf[|key| + 1..] == cut;
  }

  lemma PayloadBytes(j: Log, i: nat)
    requires i < |j.objs| && j.objs[i].DataObj?
    ensures var b, at := ObjectBytes(j, i), if j.compact then 72 else 64;
      |b| > at && b[at..] == j.objs[i].key + [61] + j.objs[i].val
  {
  }

  lemma FieldReadsBack(j: Log, i: nat, want: set<Bytes>)
    requires WellFormed(j) && i < |j.objs| && j.objs[i].DataObj?
    ensures RefsKnown(j)
    ensures var o := j.objs[i];
      DataField(File(j), HeaderOf(j), Offset(j, i), want) ==
        if o.flags & 7 != 0 then Compressed
        else if o.key in want then Field(o.key, ValueRead(o.key, o.val)) else Unwanted
  {
    hide ObjectSize, File, Offset, Split, ObjectBytes, WellFormed, Le, ValueRead, RefsKnown, LittleEndian;
    ReadsSize(j, i);
    FileHas(j, i);
    FitsAt(j, i);
    var f, h, off, o := File(j), HeaderOf(j), Offset(j, i), j.objs[i];
    var payload, at := o.key + [61] + o.val, if j.compact then 72 else 64;
    var n := if |payload| > 65536 then 65536 else |payload|;
    PayloadBytes(j, i);
    Slice(f, off, ObjectBytes(j, i), at, at + n);
    assert ObjectBytes(j, i)[at..at + n] == payload[..n];
    SplitsBack(o.key, o.val, want);
    assert PayloadAt(h) == at && PayloadLen(h, ObjectSize(f, off)) == n;
  }

  // ---- an entry is read back ----

  lemma {:induction false} ItemBytes(j: Log, refs: seq<nat>, k: nat)
    requires RefsAreFields(j, refs) && k < |refs|
    ensures var w := if j.compact then 4 else 16;
      k * w + w <= |ItemsOf(j, refs)| && ItemsOf(j, refs)[k * w..k * w + w] == Item(Offset(j, refs[k]), j.compact)
  {
    hide Item, Offset;
    var w, rest := if j.compact then 4 else 16, refs[..|refs|-1];
    if k < |rest| {
      ItemBytes(j, rest, k);
      var s := Item(Offset(j, refs[|refs|-1]), j.compact);
      assert (ItemsOf(j, rest) + s)[k * w..k * w + w] == ItemsOf(j, rest)[k * w..k * w + w];
    }
  }

  lemma ItemReadsBack(j: Log, refs: seq<nat>, k: nat)
    requires WellFormed(j) && RefsAreFields(j, refs) && k < |refs|
    ensures (k + 1) * Stride(HeaderOf(j)) <= |ItemsOf(j, refs)|
    ensures ItemAt(ItemsOf(j, refs), HeaderOf(j), k) == Offset(j, refs[k])
  {
    hide LittleEndian, Le, ItemsOf, WellFormed;
    ItemBytes(j, refs, k);
    OffsetFits(j, refs[k]);
    Powers();
    var o, items := Offset(j, refs[k]), ItemsOf(j, refs);
    if j.compact {
      LeRoundTrip(o, 4);
    } else {
      LeRoundTrip(o, 8);
      assert items[k * 16..k * 16 + 8] == items[k * 16..k * 16 + 16][..8];
      assert (Le(o, 8) + Zeros(8))[..8] == Le(o, 8);
    }
  }

  lemma OffsetFits(j: Log, i: nat)
    requires WellFormed(j) && i < |j.objs|
    ensures Offset(j, i) < (if j.compact then 0x1_0000_0000 else 0x8000_0000_0000_0000)
    ensures InArena(HeaderOf(j), Offset(j, i))
  {
    OffsetsGrow(j, i, |j.objs|);
  }

  lemma PrefixOfRefs(j: Log, refs: seq<nat>, k: nat)
    requires RefsAreFields(j, refs) && k <= |refs|
    ensures RefsAreFields(j, refs[..k])
  {
  }

  lemma {:induction false} FieldsReadBack(j: Log, refs: seq<nat>, k: nat, want: set<Bytes>)
    requires WellFormed(j) && RefsAreFields(j, refs) && k <= |refs|
    ensures RefsKnown(j) && RefsAreFields(j, refs[..k]) && k * Stride(HeaderOf(j)) <= |ItemsOf(j, refs)|
    ensures var found := FieldsOf(j, refs[..k], want);
      ItemFields(File(j), HeaderOf(j), ItemsOf(j, refs), k, want) == Fields(found.0, found.1)
  {
    hide WellFormed, RefsKnown, ItemsOf, File, Offset, DataField, ItemAt, InArena, ValueRead;
    RefsOf(j);
    PrefixOfRefs(j, refs, k);
    if k > 0 {
      var r := refs[k-1];
      FieldsReadBack(j, refs, k - 1, want);
      assert refs[..k][..k-1] == refs[..k-1];
      ItemReadsBack(j, refs, k - 1);
      OffsetFits(j, r);
      FieldReadsBack(j, r, want);
      ItemsShrink(k, Stride(HeaderOf(j)));
    }
  }

  lemma {:induction false} ItemsFirst(j: Log, refs: seq<nat>, n: nat)
    requires RefsAreFields(j, refs) && n <= |refs|
    ensures var w := if j.compact then 4 else 16;
      RefsAreFields(j, refs[..n]) && n * w <= |ItemsOf(j, refs)| && ItemsOf(j, refs)[..n * w] == ItemsOf(j, refs[..n])
  {
    if n == |refs| {
      assert refs[..n] == refs;
    } else {
      var rest := refs[..|refs|-1];
      ItemsFirst(j, rest, n);
      assert rest[..n] == refs[..n];
    }
  }

  lemma EntryBytes(j: Log, i: nat)
    requires i < |j.objs| && j.objs[i].EntryObj? && RefsAreFields(j, j.objs[i].refs)
    ensures var b, o := ObjectBytes(j, i), j.objs[i];
      |b| >= 64 && b[24..32] == Le(o.realtime, 8) && b[64..] == ItemsOf(j, o.refs)
  {
    hide Le, ItemsOf, ObjectHeader, Offset;
    var o := j.objs[i];
    var head, body := ObjectHeader(3, 0, SizeOf(o, j.compact)), Zeros(8) + Le(o.realtime, 8) + Zeros(32) + ItemsOf(j, o.refs);
    assert ObjectBytes(j, i) == head + body;
    assert body[8..16] == Le(o.realtime, 8) && body[48..] == ItemsOf(j, o.refs);
    assert (head + body)[24..32] == body[8..16] && (head + body)[64..] == body[48..];
  }

  lemma CountOfItems(j: Log, refs: seq<nat>)
    ensures ItemCount(HeaderOf(j), SizeOf(EntryObj(0, refs), j.compact)) == |FirstRefs(refs)|
  {
    if j.compact { assert |refs| * 4 / 4 == |refs|; } else { assert |refs| * 16 / 16 == |refs|; }
  }

  lemma EntryReadsBack(j: Log, i: nat, want: set<Bytes>)
    requires WellFormed(j) && i < |j.objs| && j.objs[i].EntryObj?
    ensures RefsKnown(j) && RefsAreFields(j, FirstRefs(j.objs[i].refs))
    ensures var o, found := j.objs[i], FieldsOf(j, FirstRefs(j.objs[i].refs), want);
      ReadEntryAt(File(j), HeaderOf(j), Offset(j, i), SizeOf(o, j.compact), want) ==
        if MessageKey() in found.0 then Record(Entry(o.realtime, found.0)) else NoRecord(found.1)
  {
    hide WellFormed, RefsKnown, ItemsOf, File, Offset, LittleEndian, Le, FieldsOf, ItemFields, ObjectBytes, RefsAreFields, ItemCount;
    RefsOf(j);
    RefsAt(j, i);
    FitsAt(j, i);
    FileHas(j, i);
    var f, h, off, o := File(j), HeaderOf(j), Offset(j, i), j.objs[i];
    var first, b := FirstRefs(o.refs), ObjectBytes(j, i);
    var n, w := |first|, if j.compact then 4 else 16;
    CountOfItems(j, o.refs);
    EntryBytes(j, i);
    ItemsFirst(j, o.refs, n);
    assert first == o.refs[..n];
    Slice(f, off, b, 24, 32);
    Slice(f, off, b, 64, 64 + n * w);
    assert b[64..64 + n * w] == b[64..][..n * w];
    Powers();
    LeRoundTrip(o.realtime, 8);
    FieldsReadBack(j, first, n, want);
    assert first[..n] == first;
    if n == 0 { NoFields(j, first, want); }
  }

  lemma NoFields(j: Log, refs: seq<nat>, want: set<Bytes>)
    requires WellFormed(j) && RefsAreFields(j, refs) && refs == []
    ensures FieldsOf(j, refs, want) == (map[], false)
  {
  }

  // ---- the whole file is read back ----

  lemma {:induction false} WalkReadsBack(j: Log, i: nat, want: set<Bytes>)
    requires WellFormed(j) && i <= |j.objs|
    ensures RefsKnown(j)
    ensures var found := RecordsFrom(j, i, want);
      Walk(File(j), HeaderOf(j), Offset(j, i), want, -1) == Walked(found.0, Offset(j, |j.objs|), found.1)
    decreases |j.objs| - i
  {
    hide WellFormed, RefsKnown, File, Offset, FieldsOf, ReadEntryAt, ObjectSize, IsObject, FirstRefs;
    if i == |j.objs| {
      NothingAfter(j);
    } else {
      WalkReadsBack(j, i + 1, want);
      IsThere(j, i);
      ReadsSize(j, i);
      OffsetsGrow(j, i, i + 1);
      if j.objs[i].EntryObj? { EntryReadsBack(j, i, want); }
    }
  }

  /** A read that may return `room` entries returns the first `room` of the whole
      pass; if there are fewer it is the whole pass. */
  lemma {:induction false} RoomCuts(f: Bytes, h: Header, off: nat, want: set<Bytes>, room: nat)
    ensures var all, cut := Walk(f, h, off, want, -1), Walk(f, h, off, want, room);
      && cut.entries == (if |all.entries| < room then all.entries else all.entries[..room])
      && (|all.entries| < room ==> cut == all)
    decreases End(h) - off
  {
    hide ObjectAt, ObjectSize;
    if room > 0 && IsObject(f, h, off) {
      AtMostOne(f, h, off, want);
      RoomCuts(f, h, off + Align8(ObjectSize(f, off)), want, room - |ObjectAt(f, h, off, want).0|);
    }
  }

  lemma AtMostOne(f: Bytes, h: Header, off: nat, want: set<Bytes>)
    requires IsObject(f, h, off)
    ensures |ObjectAt(f, h, off, want).0| <= 1
  {
    hide ReadEntryAt;
  }

  /** Reading a written file from its header returns exactly the first records that
      were written, as many as one read may return, with their time stamps and
      wanted fields; if that is all of them, it has come to the end, and has counted
      those lost to compression. */
  method ReadsWhatWasWritten(j: Log, want: set<Bytes>, max: int) returns (out: seq<Entry>, next: nat, compressed: nat)
    requires WellFormed(j)
    ensures var all, most := RecordsFrom(j, 0, want), if 0 < max <= 2048 then max else 2048;
      && out == (if |all.0| < most then all.0 else all.0[..most])
      && (|all.0| < most ==> next == Offset(j, |j.objs|) && compressed == all.1)
  {
    RefsOf(j);
    WalkReadsBack(j, 0, want);
    RoomCuts(File(j), HeaderOf(j), j.headerSize, want, if 0 < max <= 2048 then max else 2048);
    out, next, compressed := ReadJournalEntries(File(j), HeaderOf(j), 0, want, max);
  }
}
