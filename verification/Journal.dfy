/** Reading entries out of a systemd journal file
    (internal/modules/logs/journalfile.go): a walk over the arena of objects that
    stops at the first thing it cannot trust, and can be resumed. */
module Journal {
  import opened Wrappers

  type Byte = bv8
  type Bytes = seq<Byte>

  // Layout, as sections "Objects", "Data Objects" and "Entry Objects" of
  // systemd's Journal File Format give it.
  const ObjHeaderLen := 16
  const TypeData: Byte := 1
  const TypeEntry: Byte := 3
  const DataPayload := 64
  const DataPayloadCompact := 72
  const EntryItems := 64
  const EntryRealtime := 24
  const ItemLen := 16
  const ItemLenCompact := 4

  const MaxEntriesPerRead := 2048
  const MaxItemsPerEntry := 128
  const MaxFieldLen := 65536
  const MaxObjectSize := 8388608

  const Equals: Byte := 61
  const Message: Bytes := [77, 69, 83, 83, 65, 71, 69]

  datatype Header = Header(headerSize: int, arenaSize: int, compact: bool)

  function End(h: Header): int {
    h.headerSize + h.arenaSize
  }

  datatype Entry = Entry(realtime: nat, fields: map<Bytes, Bytes>)

  function LittleEndian(s: Bytes): nat {
    if s == [] then 0 else s[0] as nat + 256 * LittleEndian(s[1..])
  }

  /** An unsigned 64-bit value converted to a signed one. */
  function AsInt64(n: nat): int {
    if n < 0x8000_0000_0000_0000 then n else n - 0x1_0000_0000_0000_0000
  }

  /** Round up to the arena's 8-byte alignment. */
  function Align8(size: nat): (r: nat)
    ensures size <= r < size + 8 && r % 8 == 0
  {
    (size + 7) / 8 * 8
  }

  function Stride(h: Header): nat { if h.compact then ItemLenCompact else ItemLen }

  function PayloadAt(h: Header): nat { if h.compact then DataPayloadCompact else DataPayload }

  // ---- one DATA object ----

  function IndexOf(s: Bytes, b: Byte): (i: int)
    ensures -1 <= i < |s|
    ensures i >= 0 ==> s[i] == b
    ensures forall j :: 0 <= j < (if i < 0 then |s| else i) ==> s[j] != b
  {
    if s == [] then -1
    else if s[0] == b then 0
    else
      var i := IndexOf(s[1..], b);
      if i < 0 then -1 else i + 1
  }

  datatype DataRead = Field(key: Bytes, val: Bytes) | Unwanted | Compressed

  /** How much of a data object's payload is read: none if the object is not sane. */
  function PayloadLen(h: Header, size: int): nat {
    if size <= PayloadAt(h) || size > MaxObjectSize then 0
    else if size - PayloadAt(h) > MaxFieldLen then MaxFieldLen
    else size - PayloadAt(h)
  }

  function ObjectSize(f: Bytes, off: nat): int
    requires off + ObjHeaderLen <= |f|
  {
    AsInt64(LittleEndian(f[off + 8..off + 16]))
  }

  /** A data object's payload: nothing readable, compressed, or its bytes. */
  datatype Payload = NotData | Packed | Plain(bytes: Bytes)

  function PayloadOf(f: Bytes, h: Header, off: nat): Payload {
    if off + ObjHeaderLen > |f| || f[off] != TypeData then NotData
    else if f[off + 1] & 7 != 0 then Packed
    else
      var n, at := PayloadLen(h, ObjectSize(f, off)), off + PayloadAt(h);
      if n == 0 || at + n > |f| then NotData else Plain(f[at..at + n])
  }

  /** Split "KEY=value", if the key is wanted. */
  function Split(buf: Bytes, want: set<Bytes>): DataRead {
    var eq := IndexOf(buf, Equals);
    if eq <= 0 || buf[..eq] !in want then Unwanted else Field(buf[..eq], buf[eq + 1..])
  }

  function DataField(f: Bytes, h: Header, off: nat, want: set<Bytes>): DataRead {
    match PayloadOf(f, h, off)
    case NotData => Unwanted
    case Packed => Compressed
    case Plain(bytes) => Split(bytes, want)
  }

  // ---- one ENTRY object ----

  datatype EntryRead = Record(entry: Entry) | NoRecord(compressed: bool)

  function ItemCount(h: Header, size: int): nat {
    if size < EntryItems then 0
    else if (size - EntryItems) / Stride(h) > MaxItemsPerEntry then MaxItemsPerEntry
    else (size - EntryItems) / Stride(h)
  }

  /** The data offset in the `i`-th item. */
  function ItemAt(items: Bytes, h: Header, i: nat): int
    requires (i + 1) * Stride(h) <= |items|
  {
    if h.compact then LittleEndian(items[i * Stride(h)..i * Stride(h) + 4])
    else AsInt64(LittleEndian(items[i * Stride(h)..i * Stride(h) + 8]))
  }

  predicate InArena(h: Header, off: int) {
    h.headerSize <= off < End(h)
  }

  datatype Fields = Fields(found: map<Bytes, Bytes>, sawCompressed: bool)

  function AddItem(f: Bytes, h: Header, off: int, want: set<Bytes>, acc: Fields): Fields {
    if !InArena(h, off) || off < 0 then acc
    else
      match DataField(f, h, off, want)
      case Field(k, v) => acc.(found := acc.found[k := v])
      case Unwanted => acc
      case Compressed => acc.(sawCompressed := true)
  }

  function ItemFields(f: Bytes, h: Header, items: Bytes, n: nat, want: set<Bytes>): Fields
    requires n * Stride(h) <= |items|
  {
    if n == 0 then Fields(map[], false)
    else
      ItemsShrink(n, Stride(h));
      AddItem(f, h, ItemAt(items, h, n - 1), want, ItemFields(f, h, items, n - 1, want))
  }

  lemma ItemsShrink(n: nat, stride: nat)
    requires n > 0
    ensures (n - 1) * stride <= n * stride
  {
  }

  /** The bytes of an entry's first `n` items. */
  function Items(f: Bytes, h: Header, off: nat, n: nat): Bytes
    requires off + EntryItems + n * Stride(h) <= |f|
  {
    f[off + EntryItems..off + EntryItems + n * Stride(h)]
  }

  function ReadEntryAt(f: Bytes, h: Header, off: nat, size: int, want: set<Bytes>): EntryRead {
    var n := ItemCount(h, size);
    if n == 0 || off + EntryRealtime + 8 > |f| || off + EntryItems + n * Stride(h) > |f| then NoRecord(false)
    else
      var fs := ItemFields(f, h, Items(f, h, off, n), n, want);
      if Message in fs.found
      then Record(Entry(LittleEndian(f[off + EntryRealtime..off + EntryRealtime + 8]), fs.found))
      else NoRecord(fs.sawCompressed)
  }

  // ---- the walk ----

  datatype Walked = Walked(entries: seq<Entry>, next: nat, compressed: nat)

  /** There is a whole, sane object at `off`. */
  predicate IsObject(f: Bytes, h: Header, off: nat) {
    && off + ObjHeaderLen <= End(h) && off + ObjHeaderLen <= |f|
    && ObjHeaderLen <= ObjectSize(f, off) <= MaxObjectSize && off + ObjectSize(f, off) <= End(h)
  }

  /** What the object at `off` contributes. */
  function ObjectAt(f: Bytes, h: Header, off: nat, want: set<Bytes>): (seq<Entry>, nat)
    requires IsObject(f, h, off)
  {
    if f[off] != TypeEntry then ([], 0)
    else
      match ReadEntryAt(f, h, off, ObjectSize(f, off), want)
      case Record(e) => ([e], 0)
      case NoRecord(c) => ([], if c then 1 else 0)
  }

  /** The walk from `off`, for `room` more entries, or for all if it is negative. */
  function Walk(f: Bytes, h: Header, off: nat, want: set<Bytes>, room: int): Walked
    decreases End(h) - off
  {
    if room == 0 || !IsObject(f, h, off) then Walked([], off, 0)
    else
      var here := ObjectAt(f, h, off, want);
      var rest := Walk(f, h, off + Align8(ObjectSize(f, off)), want, if room < 0 then room else room - |here.0|);
      Walked(here.0 + rest.entries, rest.next, here.1 + rest.compressed)
  }

  /** One walk after another. */
  function Then(a: Walked, b: Walked): Walked {
    Walked(a.entries + b.entries, b.next, a.compressed + b.compressed)
  }

  lemma ThenJoins(a: Walked, b: Walked, c: Walked)
    ensures Then(Then(a, b), c) == Then(a, Then(b, c))
  {
    assert a.entries + b.entries + c.entries == a.entries + (b.entries + c.entries);
  }

  /** A walk goes forward, or stays where it cannot begin. */
  lemma {:induction false} WalkAdvances(f: Bytes, h: Header, off: nat, want: set<Bytes>, room: int)
    ensures Walk(f, h, off, want, room).next >= off
    ensures room >= 0 ==> |Walk(f, h, off, want, room).entries| <= room
    decreases End(h) - off
  {
    if room != 0 && IsObject(f, h, off) {
      var here := ObjectAt(f, h, off, want);
      WalkAdvances(f, h, off + Align8(ObjectSize(f, off)), want, if room < 0 then room else room - |here.0|);
    }
  }

  // ---- a file that grows ----

  function NextOff(f: Bytes, off: nat): nat
    requires off + ObjHeaderLen <= |f| && ObjectSize(f, off) >= 0
  {
    off + Align8(ObjectSize(f, off))
  }

  /** A walk from `a` comes to `o`. */
  predicate Reaches(f: Bytes, h: Header, a: nat, o: nat)
    decreases End(h) - a
  {
    a == o || (IsObject(f, h, a) && Reaches(f, h, NextOff(f, a), o))
  }

  /** One of the file's objects begins at `o`. */
  predicate HasObject(f: Bytes, h: Header, o: nat)
    requires h.headerSize >= 0
  {
    Reaches(f, h, h.headerSize, o) && IsObject(f, h, o)
  }

  /** What a later file keeps of the object at `o`: type and size of every object,
      the whole of an entry, and the flags and payload of a data object. The links
      inside data objects, the hash tables and the entry arrays may be rewritten. */
  predicate Kept(f: Bytes, h: Header, f': Bytes, o: nat)
    requires IsObject(f, h, o)
  {
    var size := ObjectSize(f, o);
    && o + ObjHeaderLen <= |f'| && f'[o] == f[o] && f'[o + 8..o + 16] == f[o + 8..o + 16]
    && (f[o] in {TypeEntry, TypeData} ==> o + size <= |f| && o + size <= |f'|)
    && (f[o] == TypeEntry ==> f'[o + 16..o + size] == f[o + 16..o + size])
    && (f[o] == TypeData ==> f'[o + 1] == f[o + 1])
    && (f[o] == TypeData && size > PayloadAt(h) ==> f'[o + PayloadAt(h)..o + size] == f[o + PayloadAt(h)..o + size])
  }

  /** Every object is kept; what follows the last one, inside the arena or beyond
      its old end, is anything. */
  ghost predicate Grown(f: Bytes, h: Header, f': Bytes, h': Header) {
    && 0 <= h.headerSize == h'.headerSize && h.compact == h'.compact && End(h) <= End(h')
    && forall o: nat :: HasObject(f, h, o) ==> Kept(f, h, f', o)
  }

  lemma {:induction false} ReachesForward(f: Bytes, h: Header, a: nat, o: nat)
    requires Reaches(f, h, a, o)
    ensures a <= o
    decreases End(h) - a
  {
    if a != o { ReachesForward(f, h, NextOff(f, a), o); }
  }

  lemma {:induction false} ReachesNext(f: Bytes, h: Header, a: nat, o: nat)
    requires Reaches(f, h, a, o) && IsObject(f, h, o)
    ensures Reaches(f, h, a, NextOff(f, o))
    decreases End(h) - a
  {
    hide ObjectSize;
    if a == o {
      assert Reaches(f, h, NextOff(f, o), NextOff(f, o));
    } else {
      ReachesNext(f, h, NextOff(f, a), o);
    }
  }

  /** A walk comes to the end of the objects past every one of them. */
  lemma {:induction false} ReachesPast(f: Bytes, h: Header, a: nat, o: nat, t: nat)
    requires Reaches(f, h, a, o) && IsObject(f, h, o) && Reaches(f, h, a, t) && !IsObject(f, h, t)
    ensures NextOff(f, o) <= t
    decreases End(h) - a
  {
    if a == o {
      ReachesForward(f, h, NextOff(f, o), t);
    } else {
      ReachesPast(f, h, NextOff(f, a), o, t);
    }
  }

  /** Appending is growing, also where the last read stopped inside the arena: it
      is enough that the bytes up to there stay. */
  lemma AppendIsGrowth(f: Bytes, h: Header, f': Bytes, h': Header, t: nat)
    requires 0 <= h.headerSize == h'.headerSize && h.compact == h'.compact && End(h) <= End(h')
    requires Reaches(f, h, h.headerSize, t) && !IsObject(f, h, t) && t <= |f| && t <= |f'|
    requires forall i :: h.headerSize <= i < t ==> f'[i] == f[i]
    ensures Grown(f, h, f', h')
  {
    forall o: nat | HasObject(f, h, o) ensures Kept(f, h, f', o) {
      ReachesPast(f, h, h.headerSize, o, t);
      ReachesForward(f, h, h.headerSize, o);
      hide LittleEndian, Reaches;
    }
  }

  lemma SameObject(f: Bytes, h: Header, f': Bytes, h': Header, o: nat)
    requires IsObject(f, h, o) && Kept(f, h, f', o) && End(h) <= End(h')
    ensures IsObject(f', h', o) && f'[o] == f[o] && ObjectSize(f', o) == ObjectSize(f, o)
  {
  }

  lemma {:induction false} SameReach(f: Bytes, h: Header, f': Bytes, h': Header, a: nat, o: nat)
    requires Grown(f, h, f', h') && Reaches(f, h, h.headerSize, a) && Reaches(f, h, a, o)
    ensures Reaches(f', h', a, o)
    decreases End(h) - a
  {
    hide Kept, ObjectSize;
    if a != o {
      assert HasObject(f, h, a);
      SameObject(f, h, f', h', a);
      ReachesNext(f, h, h.headerSize, a);
      SameReach(f, h, f', h', NextOff(f, a), o);
    }
  }

  lemma KeptAgain(f: Bytes, h: Header, f': Bytes, h': Header, f'': Bytes, o: nat)
    requires IsObject(f, h, o) && Kept(f, h, f', o) && h.compact == h'.compact
    requires IsObject(f', h', o) && Kept(f', h', f'', o)
    ensures Kept(f, h, f'', o)
  {
    assert ObjectSize(f', o) == ObjectSize(f, o);
    hide LittleEndian, ObjectSize;
  }

  /** Growing is transitive. */
  lemma GrownTrans(a: Read, b: Read, c: Read)
    requires Grown(a.file, a.header, b.file, b.header) && Grown(b.file, b.header, c.file, c.header)
    ensures Grown(a.file, a.header, c.file, c.header)
  {
    hide IsObject, Kept, Reaches;
    forall o: nat | HasObject(a.file, a.header, o) ensures Kept(a.file, a.header, c.file, o) {
      SameObject(a.file, a.header, b.file, b.header, o);
      SameReach(a.file, a.header, b.file, b.header, a.header.headerSize, o) by { ReachesAtOnce(a.file, a.header); }
      assert HasObject(b.file, b.header, o);
      KeptAgain(a.file, a.header, b.file, b.header, c.file, o);
    }
  }

  lemma ReachesAtOnce(f: Bytes, h: Header)
    requires h.headerSize >= 0
    ensures Reaches(f, h, h.headerSize, h.headerSize)
  {
  }

  /** The payload of a kept object is the same. */
  lemma SameData(f: Bytes, h: Header, f': Bytes, h': Header, o: nat, want: set<Bytes>)
    requires Grown(f, h, f', h') && HasObject(f, h, o)
    ensures DataField(f', h', o, want) == DataField(f, h, o, want)
  {
    hide IsObject, Kept, PayloadOf, Reaches, Split;
    SamePayload(f, h, f', h', o);
  }

  lemma SamePayload(f: Bytes, h: Header, f': Bytes, h': Header, o: nat)
    requires IsObject(f, h, o) && Kept(f, h, f', o) && h.compact == h'.compact && End(h) <= End(h')
    ensures PayloadOf(f', h', o) == PayloadOf(f, h, o)
  {
    hide ObjectSize, LittleEndian;
    SameObject(f, h, f', h', o);
    var size, at := ObjectSize(f, o), o + PayloadAt(h);
    if f[o] == TypeData && size > PayloadAt(h) {
      var n := PayloadLen(h, size);
      SameSlice(f[at..o + size], f, at, 0, n);
      SameSlice(f'[at..o + size], f', at, 0, n);
    }
  }

  /** A slice of a slice. */
  lemma SameSlice(s: Bytes, f: Bytes, at: nat, from: nat, n: nat)
    requires at + |s| <= |f| && s == f[at..at + |s|] && from + n <= |s|
    ensures f[at + from..at + from + n] == s[from..from + n]
  {
    var a, b := f[at + from..at + from + n], s[from..from + n];
    forall i | 0 <= i < n ensures a[i] == b[i] { assert s[from + i] == f[at + (from + i)]; }
  }

  /** Everything the entry refers to was written before it was read. */
  predicate EntrySettled(f: Bytes, h: Header, off: nat)
    requires IsObject(f, h, off) && off + ObjectSize(f, off) <= |f| && h.headerSize >= 0
  {
    var n := ItemCount(h, ObjectSize(f, off));
    ItemsFit(h, ObjectSize(f, off));
    n > 0 ==> forall i: nat :: i < n ==> ItemSettled(f, h, Items(f, h, off, n), i)
  }

  predicate ItemSettled(f: Bytes, h: Header, items: Bytes, i: nat)
    requires h.headerSize >= 0
  {
    (i + 1) * Stride(h) <= |items| && (ItemAt(items, h, i) < h.headerSize || HasObject(f, h, ItemAt(items, h, i)))
  }

  lemma ItemsFit(h: Header, size: int)
    ensures size >= EntryItems ==> EntryItems + ItemCount(h, size) * Stride(h) <= size
    ensures size < EntryItems ==> ItemCount(h, size) == 0
    ensures ItemCount(h, size) * Stride(h) >= 0
  {
    if size >= EntryItems {
      var s, n := Stride(h), (size - EntryItems) / Stride(h);
      assert n * s <= size - EntryItems;
      assert ItemCount(h, size) * s <= n * s;
    }
  }

  lemma {:induction false} SameFields(f: Bytes, h: Header, f': Bytes, h': Header, items: Bytes, n: nat, want: set<Bytes>)
    requires Grown(f, h, f', h') && n * Stride(h) <= |items|
    requires forall i: nat :: i < n ==> ItemSettled(f, h, items, i)
    ensures ItemFields(f', h', items, n, want) == ItemFields(f, h, items, n, want)
  {
    hide DataField, LittleEndian, AsInt64, Kept, Reaches;
    if n > 0 {
      ItemsShrink(n, Stride(h));
      SameFields(f, h, f', h', items, n - 1, want);
      assert ItemSettled(f, h, items, n - 1);
      var o := ItemAt(items, h, n - 1);
      if o >= h.headerSize { SameData(f, h, f', h', o, want); }
    }
  }

  lemma SameEntry(f: Bytes, h: Header, f': Bytes, h': Header, off: nat, want: set<Bytes>)
    requires Grown(f, h, f', h') && HasObject(f, h, off) && f[off] == TypeEntry
    requires off + ObjectSize(f, off) <= |f| && EntrySettled(f, h, off)
    ensures ReadEntryAt(f', h', off, ObjectSize(f, off), want) == ReadEntryAt(f, h, off, ObjectSize(f, off), want)
  {
    hide ItemFields, LittleEndian, ItemSettled, AsInt64, Reaches, ObjectSize;
    var size := ObjectSize(f, off);
    var n := ItemCount(h, size);
    ItemsFit(h, size);
    assert Kept(f, h, f', off);
    if n > 0 {
      var body, body' := f[off + 16..off + size], f'[off + 16..off + size];
      SameSlice(body, f, off + 16, EntryItems - 16, n * Stride(h));
      SameSlice(body', f', off + 16, EntryItems - 16, n * Stride(h));
      SameSlice(body, f, off + 16, EntryRealtime - 16, 8);
      SameSlice(body', f', off + 16, EntryRealtime - 16, 8);
      SameFields(f, h, f', h', Items(f, h, off, n), n, want);
    }
  }

  /** Every entry the walk reads was settled, and whole, when it was read. */
  predicate WalkSettled(f: Bytes, h: Header, off: nat, want: set<Bytes>, room: int)
    requires h.headerSize >= 0
    decreases End(h) - off
  {
    room != 0 && IsObject(f, h, off) ==>
      && (f[off] == TypeEntry ==> off + ObjectSize(f, off) <= |f| && EntrySettled(f, h, off))
      && WalkSettled(f, h, off + Align8(ObjectSize(f, off)), want,
           if room < 0 then room else room - |ObjectAt(f, h, off, want).0|)
  }

  /** A bounded walk over an earlier file is the beginning of the full walk over
      the later one, and the full walk goes on where it stopped. */
  lemma {:induction false} WalkGrows(f: Bytes, h: Header, f': Bytes, h': Header, off: nat, want: set<Bytes>, room: int)
    requires Grown(f, h, f', h') && Reaches(f, h, h.headerSize, off) && WalkSettled(f, h, off, want, room)
    ensures Walk(f', h', off, want, -1) ==
      Then(Walk(f, h, off, want, room), Walk(f', h', Walk(f, h, off, want, room).next, want, -1))
    ensures Reaches(f, h, h.headerSize, Walk(f, h, off, want, room).next)
    decreases End(h) - off
  {
    hide ObjectAt, ObjectSize, Grown, EntrySettled, Reaches, WalkSettled, RoomAfter;
    SameStart(f, h, f', h');
    if room != 0 && IsObject(f, h, off) {
      SameStep(f, h, f', h', off, want, room);
      WalkStep(f, h, off, want, room);
      WalkStep(f', h', off, want, -1);
      ReachesNext(f, h, h.headerSize, off);
      var next, left := NextOff(f, off), RoomAfter(f, h, off, want, room);
      WalkGrows(f, h, f', h', next, want, left);
      var part := Walk(f, h, next, want, left);
      ThenJoins(Here(f, h, off, want), part, Walk(f', h', part.next, want, -1));
    }
  }

  function RoomAfter(f: Bytes, h: Header, off: nat, want: set<Bytes>, room: int): int
    requires IsObject(f, h, off)
  {
    if room < 0 then room else room - |ObjectAt(f, h, off, want).0|
  }

  /** What the object at `off` alone adds to a walk. */
  function Here(f: Bytes, h: Header, off: nat, want: set<Bytes>): Walked
    requires IsObject(f, h, off)
  {
    Walked(ObjectAt(f, h, off, want).0, NextOff(f, off), ObjectAt(f, h, off, want).1)
  }

  lemma WalkStep(f: Bytes, h: Header, off: nat, want: set<Bytes>, room: int)
    requires room != 0 && IsObject(f, h, off)
    ensures Walk(f, h, off, want, room) == Then(Here(f, h, off, want), Walk(f, h, NextOff(f, off), want, RoomAfter(f, h, off, want, room)))
    ensures h.headerSize >= 0 && WalkSettled(f, h, off, want, room) ==>
      WalkSettled(f, h, NextOff(f, off), want, RoomAfter(f, h, off, want, room))
    ensures NextOff(f, off) > off
    ensures room < 0 ==> RoomAfter(f, h, off, want, room) == room
  {
    hide ObjectAt, EntrySettled;
  }

  lemma SameStep(f: Bytes, h: Header, f': Bytes, h': Header, off: nat, want: set<Bytes>, room: int)
    requires Grown(f, h, f', h') && Reaches(f, h, h.headerSize, off) && IsObject(f, h, off)
    requires room != 0 && WalkSettled(f, h, off, want, room)
    ensures IsObject(f', h', off) && Here(f', h', off, want) == Here(f, h, off, want) && NextOff(f', off) == NextOff(f, off)
  {
    assert HasObject(f, h, off);
    SameObject(f, h, f', h', off);
    if f[off] == TypeEntry { SameEntry(f, h, f', h', off, want); }
    hide EntrySettled, ReadEntryAt, ObjectSize, Grown;
  }

  // ---- any sequence of reads ----

  /** One read: the file as it was then, and how many entries were asked for. */
  datatype Read = Read(file: Bytes, header: Header, limit: int)

  function Room(limit: int): int {
    if limit <= 0 || limit > MaxEntriesPerRead then MaxEntriesPerRead else limit
  }

  function Start(h: Header, from: nat): nat
    requires h.headerSize >= 0
  {
    if from < h.headerSize then h.headerSize else from
  }

  /** What one read returns. */
  function ReadFrom(r: Read, from: nat, want: set<Bytes>): Walked
    requires r.header.headerSize >= 0
  {
    Walk(r.file, r.header, Start(r.header, from), want, Room(r.limit))
  }

  /** Each read resumes where the one before stopped. */
  function Resumed(rs: seq<Read>, from: nat, want: set<Bytes>): Walked
    requires forall r :: r in rs ==> r.header.headerSize >= 0
  {
    if rs == [] then Walked([], from, 0)
    else
      var first := ReadFrom(rs[0], from, want);
      Then(first, Resumed(rs[1..], first.next, want))
  }

  /** From each read to the next, and to `last`, the file only grew. */
  ghost predicate GrowsTo(rs: seq<Read>, last: Read) {
    rs == [] ||
    (var next := if |rs| > 1 then rs[1] else last;
     Grown(rs[0].file, rs[0].header, next.file, next.header) && GrowsTo(rs[1..], last))
  }

  /** The reading starts at one of the file's objects, or where the next one will be. */
  predicate StartsAt(r: Read, from: nat) {
    r.header.headerSize >= 0 && Reaches(r.file, r.header, r.header.headerSize, Start(r.header, from))
  }

  /** Every read found its entries settled. */
  predicate ReadsSettled(rs: seq<Read>, from: nat, want: set<Bytes>)
    requires forall r :: r in rs ==> r.header.headerSize >= 0
  {
    rs == [] ||
    (&& WalkSettled(rs[0].file, rs[0].header, Start(rs[0].header, from), want, Room(rs[0].limit))
     && ReadsSettled(rs[1..], ReadFrom(rs[0], from, want).next, want))
  }

  lemma {:induction false} GrowsToLast(rs: seq<Read>, last: Read)
    requires GrowsTo(rs, last) && rs != []
    ensures Grown(rs[0].file, rs[0].header, last.file, last.header)
    decreases |rs|
  {
    hide Grown;
    if |rs| > 1 {
      GrowsToLast(rs[1..], last);
      GrownTrans(rs[0], rs[1], last);
    }
  }

  lemma FirstRead(rs: seq<Read>, last: Read, from: nat, want: set<Bytes>)
    requires rs != [] && GrowsTo(rs, last) && StartsAt(rs[0], from)
    requires forall r :: r in rs ==> r.header.headerSize >= 0
    requires ReadsSettled(rs, from, want)
    ensures var F, H, first := last.file, last.header, ReadFrom(rs[0], from, want);
      && H.headerSize == rs[0].header.headerSize
      && Walk(F, H, Start(H, from), want, -1) == Then(first, Walk(F, H, Start(H, first.next), want, -1))
      && StartsAt(if |rs| > 1 then rs[1] else last, first.next)
  {
    var r := rs[0];
    var next := if |rs| > 1 then rs[1] else last;
    var s, first := Start(r.header, from), ReadFrom(r, from, want);
    hide Walk, Grown, WalkSettled, Reaches;
    GrowsToLast(rs, last);
    SameStart(r.file, r.header, last.file, last.header);
    SameStart(r.file, r.header, next.file, next.header);
    WalkGrows(r.file, r.header, last.file, last.header, s, want, Room(r.limit));
    WalkAdvances(r.file, r.header, s, want, Room(r.limit));
    ReachesAtOnce(r.file, r.header);
    SameReach(r.file, r.header, next.file, next.header, r.header.headerSize, first.next);
  }

  lemma SameStart(f: Bytes, h: Header, f': Bytes, h': Header)
    requires Grown(f, h, f', h')
    ensures 0 <= h.headerSize == h'.headerSize
  {
  }

  /** Reads of a growing file, each resumed at the offset the last one returned,
      together return exactly the first entries of one pass over the final file;
      the pass goes on where they stopped.  None is lost and none repeated. */
  lemma {:induction false} ReadsResume(rs: seq<Read>, last: Read, from: nat, want: set<Bytes>)
    requires GrowsTo(rs, last) && StartsAt(if rs == [] then last else rs[0], from)
    requires last.header.headerSize >= 0 && forall r :: r in rs ==> r.header.headerSize >= 0
    requires ReadsSettled(rs, from, want)
    ensures var F, H := last.file, last.header;
      Walk(F, H, Start(H, from), want, -1) ==
        Then(Resumed(rs, from, want), Walk(F, H, Start(H, Resumed(rs, from, want).next), want, -1))
    decreases |rs|
  {
    hide Walk, Grown, WalkSettled, StartsAt, ReadFrom, Start;
    if rs != [] {
      var first := ReadFrom(rs[0], from, want);
      FirstRead(rs, last, from, want);
      ReadsResume(rs[1..], last, first.next, want);
      var rest := Resumed(rs[1..], first.next, want);
      ThenJoins(first, rest, Walk(last.file, last.header, Start(last.header, rest.next), want, -1));
    }
  }

  /** Once the reads have caught up with the final file, what they returned is
      the whole pass. */
  lemma ReadsCatchUp(rs: seq<Read>, last: Read, from: nat, want: set<Bytes>)
    requires GrowsTo(rs, last) && StartsAt(if rs == [] then last else rs[0], from)
    requires last.header.headerSize >= 0 && forall r :: r in rs ==> r.header.headerSize >= 0
    requires ReadsSettled(rs, from, want)
    requires !IsObject(last.file, last.header, Start(last.header, Resumed(rs, from, want).next))
    ensures var whole := Walk(last.file, last.header, Start(last.header, from), want, -1);
      Resumed(rs, from, want).entries == whole.entries && Resumed(rs, from, want).compressed == whole.compressed
  {
    ReadsResume(rs, last, from, want);
  }

  // ---- the reader, with its reused buffers ----

  /** Fill the first `n` bytes of `a` from `off`; short of bytes, the read fails. */
  method ReadAt(f: Bytes, a: array<Byte>, n: nat, off: nat) returns (ok: bool)
    requires n <= a.Length
    modifies a
    ensures ok <==> off + n <= |f|
    ensures ok ==> a[..n] == f[off..off + n]
  {
    var i := 0;
    while i < n && off + i < |f|
      invariant 0 <= i <= n && (i > 0 ==> off + i <= |f|)
      invariant forall j :: 0 <= j < i ==> a[j] == f[off + j]
    {
      a[i] := f[off + i];
      i := i + 1;
    }
    ok := off + n <= |f|;
  }

  class Scratch {
    const hdr: array<Byte>
    var items: array<Byte>
    var buf: array<Byte>

    constructor ()
      ensures Valid() && fresh(hdr) && fresh(items) && fresh(buf)
    {
      hdr := new Byte[ObjHeaderLen](_ => 0);
      items := new Byte[0](_ => 0);
      buf := new Byte[0](_ => 0);
      new;
      assert hdr != items && hdr != buf && items != buf;
    }

    ghost predicate Valid()
      reads this
    {
      hdr.Length == ObjHeaderLen && hdr != items && hdr != buf && items != buf
    }

    /** A buffer of at least `n` bytes for one field. */
    method Field(n: nat)
      requires Valid()
      modifies this`buf
      ensures Valid() && n <= buf.Length && (buf == old(buf) || fresh(buf))
    {
      if buf.Length < n { buf := new Byte[n](_ => 0); }
    }

    method ItemBuf(n: nat)
      requires Valid()
      modifies this`items
      ensures Valid() && n <= items.Length && (items == old(items) || fresh(items))
    {
      if items.Length < n { items := new Byte[n](_ => 0); }
    }
  }

  /** Split one DATA object's payload, if it is one that is wanted. */
  method ReadDataField(f: Bytes, h: Header, off: nat, want: set<Bytes>, scratch: Scratch) returns (r: DataRead)
    requires scratch.Valid()
    modifies scratch`buf, scratch.hdr, scratch.buf
    ensures scratch.Valid() && (scratch.buf == old(scratch.buf) || fresh(scratch.buf))
    ensures r == DataField(f, h, off, want)
  {
    hide ObjectSize, Split;
    var ok, typ, flags, size := ReadObjectHeader(f, off, scratch.hdr);
    if !ok || typ != TypeData { return Unwanted; }
    if flags & 7 != 0 { return Compressed; }
    var payloadAt := PayloadAt(h);
    if size <= payloadAt || size > MaxObjectSize { return Unwanted; }
    var length := size - payloadAt;
    if length > MaxFieldLen { length := MaxFieldLen; }
    scratch.Field(length);
    ok := ReadAt(f, scratch.buf, length, off + payloadAt);
    if !ok { return Unwanted; }
    r := SplitField(scratch.buf[..length], want);
  }

  /** An object's type, flags and size. */
  method ReadObjectHeader(f: Bytes, off: nat, hdr: array<Byte>) returns (ok: bool, typ: Byte, flags: Byte, size: int)
    requires hdr.Length == ObjHeaderLen
    modifies hdr
    ensures ok <==> off + ObjHeaderLen <= |f|
    ensures ok ==> typ == f[off] && flags == f[off + 1] && size == ObjectSize(f, off)
  {
    hide LittleEndian, AsInt64;
    typ, flags, size := 0, 0, 0;
    ok := ReadAt(f, hdr, ObjHeaderLen, off);
    if ok {
      assert hdr[..ObjHeaderLen][0] == f[off] && hdr[..ObjHeaderLen][1] == f[off + 1];
      assert hdr[8..16] == hdr[..ObjHeaderLen][8..16] == f[off + 8..off + 16];
      typ, flags, size := hdr[0], hdr[1], AsInt64(LittleEndian(hdr[8..16]));
    }
  }

  method SplitField(buf: Bytes, want: set<Bytes>) returns (r: DataRead)
    ensures r == Split(buf, want)
  {
    var eq := 0;
    while eq < |buf| && buf[eq] != Equals
      invariant 0 <= eq <= |buf| && forall j :: 0 <= j < eq ==> buf[j] != Equals
    {
      eq := eq + 1;
    }
    if eq == |buf| || eq == 0 { return Unwanted; }
    var key := buf[..eq];
    if key !in want { return Unwanted; }
    return Field(key, buf[eq + 1..]);
  }

  /** Read one entry by following its items; an entry without a message is not a
      record, and says whether an unreadable field may be the reason. */
  method ReadEntry(f: Bytes, h: Header, off: nat, size: nat, want: set<Bytes>, scratch: Scratch) returns (r: EntryRead)
    requires scratch.Valid()
    modifies scratch`buf, scratch`items, scratch.hdr, scratch.items, scratch.buf
    ensures scratch.Valid() && (scratch.buf == old(scratch.buf) || fresh(scratch.buf))
    ensures scratch.items == old(scratch.items) || fresh(scratch.items)
    ensures r == ReadEntryAt(f, h, off, size, want)
  {
    hide LittleEndian, AsInt64, ItemFields;
    if size < EntryItems { return NoRecord(false); }
    var stride := Stride(h);
    var n := (size - EntryItems) / stride;
    if n <= 0 { return NoRecord(false); }
    if n > MaxItemsPerEntry { n := MaxItemsPerEntry; }
    var stamp := new Byte[8](_ => 0);
    var ok := ReadAt(f, stamp, 8, off + EntryRealtime);
    if !ok { return NoRecord(false); }
    var realtime := LittleEndian(stamp[..8]);
    scratch.ItemBuf(n * stride);
    ok := ReadAt(f, scratch.items, n * stride, off + EntryItems);
    if !ok { return NoRecord(false); }
    ghost var items := Items(f, h, off, n);
    assert scratch.items[..n * stride] == items;
    var fields, sawCompressed := ReadItems(f, h, n, want, scratch, items);
    if Message !in fields { return NoRecord(sawCompressed); }
    return Record(Entry(realtime, fields));
  }

  method ReadItems(f: Bytes, h: Header, n: nat, want: set<Bytes>, scratch: Scratch, ghost items: Bytes)
    returns (fields: map<Bytes, Bytes>, sawCompressed: bool)
    requires scratch.Valid() && |items| == n * Stride(h) <= scratch.items.Length && scratch.items[..n * Stride(h)] == items
    modifies scratch`buf, scratch.hdr, scratch.buf
    ensures scratch.Valid() && (scratch.buf == old(scratch.buf) || fresh(scratch.buf))
    ensures Fields(fields, sawCompressed) == ItemFields(f, h, items, n, want)
  {
    fields, sawCompressed := map[], false;
    var stride := Stride(h);
    for i := 0 to n
      invariant scratch.Valid() && scratch.items == old(scratch.items) && (scratch.buf == old(scratch.buf) || fresh(scratch.buf))
      invariant scratch.items[..n * stride] == items
      invariant i * stride <= |items| && Fields(fields, sawCompressed) == ItemFields(f, h, items, i, want)
    {
      hide LittleEndian, AsInt64, DataField;
      ItemInside(i, n, stride);
      var dataOff := ItemOffset(h, scratch.items, i, items);
      ItemFieldsStep(f, h, items, i, want);
      if dataOff < h.headerSize || dataOff >= End(h) || dataOff < 0 { continue; }
      var data := ReadDataField(f, h, dataOff, want, scratch);
      match data
      case Compressed => sawCompressed := true;
      case Unwanted =>
      case Field(key, val) => fields := fields[key := val];
    }
  }

  lemma ItemInside(i: nat, n: nat, stride: nat)
    requires i < n
    ensures (i + 1) * stride <= n * stride && (i + 1) * stride == i * stride + stride
  {
  }

  lemma ItemFieldsStep(f: Bytes, h: Header, items: Bytes, i: nat, want: set<Bytes>)
    requires (i + 1) * Stride(h) <= |items|
    ensures i * Stride(h) <= |items|
    ensures ItemFields(f, h, items, i + 1, want) == AddItem(f, h, ItemAt(items, h, i), want, ItemFields(f, h, items, i, want))
  {
    hide AddItem, ItemAt;
    ItemsShrink(i + 1, Stride(h));
  }

  lemma SubSlice(s: Bytes, n: nat, a: nat, b: nat)
    requires a <= b <= n <= |s|
    ensures s[..n][a..b] == s[a..b]
  {
  }

  /** The offset in the `i`-th item, from the buffer. */
  method ItemOffset(h: Header, buf: array<Byte>, i: nat, ghost items: Bytes) returns (off: int)
    requires |items| <= buf.Length && buf[..|items|] == items && (i + 1) * Stride(h) <= |items|
    ensures off == ItemAt(items, h, i)
  {
    hide LittleEndian, AsInt64;
    var at := i * Stride(h);
    assert (i + 1) * Stride(h) == at + Stride(h);
    if h.compact {
      SubSlice(buf[..], |items|, at, at + 4);
      off := LittleEndian(buf[at..at + 4]);
    } else {
      SubSlice(buf[..], |items|, at, at + 8);
      off := AsInt64(LittleEndian(buf[at..at + 8]));
    }
  }

  /** Walk objects from `from`: the entries found, where to resume, and how many
      records were dropped because a field of theirs was compressed. */
  method ReadJournalEntries(f: Bytes, h: Header, from: nat, want: set<Bytes>, max: int)
    returns (out: seq<Entry>, next: nat, compressed: nat)
    requires h.headerSize >= 0
    ensures Walked(out, next, compressed) == ReadFrom(Read(f, h, max), from, want)
  {
    var limit := if max <= 0 || max > MaxEntriesPerRead then MaxEntriesPerRead else max;
    var off := from;
    if off < h.headerSize { off := h.headerSize; }
    var scratch := new Scratch();
    var hdr := new Byte[ObjHeaderLen](_ => 0);
    out, next, compressed := WalkObjects(f, h, off, want, limit, hdr, scratch);
  }

  method WalkObjects(f: Bytes, h: Header, start: nat, want: set<Bytes>, limit: nat, hdr: array<Byte>, scratch: Scratch)
    returns (out: seq<Entry>, next: nat, compressed: nat)
    requires scratch.Valid() && hdr.Length == ObjHeaderLen && hdr != scratch.hdr && hdr != scratch.items && hdr != scratch.buf
    modifies hdr, scratch`buf, scratch`items, scratch.hdr, scratch.items, scratch.buf
    ensures Walked(out, next, compressed) == Walk(f, h, start, want, limit)
  {
    hide Walk, Then, ObjectAt, IsObject, NextOff;
    out, next, compressed := [], start, 0;
    NothingYet(f, h, start, want, limit);
    while next + ObjHeaderLen <= End(h) && |out| < limit
      invariant scratch.Valid() && (scratch.buf == old(scratch.buf) || fresh(scratch.buf)) && (scratch.items == old(scratch.items) || fresh(scratch.items))
      invariant hdr != scratch.items && hdr != scratch.buf && |out| <= limit
      invariant Walk(f, h, start, want, limit) == Then(Walked(out, next, compressed), Walk(f, h, next, want, limit - |out|))
      decreases End(h) - next
    {
      var ok, found, dropped, after := Advance(f, h, next, want, hdr, scratch);
      if !ok { break; }
      Absorb(f, h, next, want, limit - |out|, Walked(out, next, compressed));
      out, compressed, next := out + found, compressed + dropped, after;
    }
    Stopped(f, h, next, want, limit - |out|, Walked(out, next, compressed));
  }

  lemma Stopped(f: Bytes, h: Header, off: nat, want: set<Bytes>, room: int, sofar: Walked)
    requires room == 0 || off + ObjHeaderLen > End(h) || !IsObject(f, h, off)
    requires sofar.next == off
    ensures Then(sofar, Walk(f, h, off, want, room)) == sofar
  {
    hide ObjectAt;
  }

  lemma NothingYet(f: Bytes, h: Header, off: nat, want: set<Bytes>, room: int)
    ensures Then(Walked([], off, 0), Walk(f, h, off, want, room)) == Walk(f, h, off, want, room)
  {
    hide Walk;
  }

  /** Read one whole object, if a sane one stands at `off`. */
  method Advance(f: Bytes, h: Header, off: nat, want: set<Bytes>, hdr: array<Byte>, scratch: Scratch)
    returns (ok: bool, found: seq<Entry>, dropped: nat, next: nat)
    requires scratch.Valid() && hdr.Length == ObjHeaderLen && hdr != scratch.hdr && hdr != scratch.items && hdr != scratch.buf
    requires off + ObjHeaderLen <= End(h)
    modifies hdr, scratch`buf, scratch`items, scratch.hdr, scratch.items, scratch.buf
    ensures scratch.Valid() && (scratch.buf == old(scratch.buf) || fresh(scratch.buf))
    ensures scratch.items == old(scratch.items) || fresh(scratch.items)
    ensures ok <==> IsObject(f, h, off)
    ensures ok ==> (found, dropped) == ObjectAt(f, h, off, want) && |found| <= 1 && next == NextOff(f, off)
  {
    hide ObjectAt, ObjectSize, LittleEndian;
    found, dropped, next := [], 0, off;
    var typ, flags, size;
    ok, typ, flags, size := ReadObjectHeader(f, off, hdr);
    // A size that is not sane ends the walk.
    if !ok || size < ObjHeaderLen || size > MaxObjectSize || off + size > End(h) { return false, [], 0, off; }
    found, dropped := ReadObject(f, h, off, typ, size, want, scratch);
    next := off + (size + 7) / 8 * 8;
  }

  /** One more object is one more step of the walk. */
  lemma Absorb(f: Bytes, h: Header, off: nat, want: set<Bytes>, room: int, sofar: Walked)
    requires IsObject(f, h, off) && room > 0 && sofar.next == off
    ensures var here := ObjectAt(f, h, off, want);
      Then(sofar, Walk(f, h, off, want, room)) ==
        Then(Walked(sofar.entries + here.0, NextOff(f, off), sofar.compressed + here.1),
          Walk(f, h, NextOff(f, off), want, room - |here.0|))
    ensures NextOff(f, off) > off
  {
    WalkStep(f, h, off, want, room);
    hide Walk, ObjectAt, ObjectSize, IsObject;
    var rest := Walk(f, h, NextOff(f, off), want, RoomAfter(f, h, off, want, room));
    ThenJoins(sofar, Here(f, h, off, want), rest);
  }

  /** What one object contributes: an entry, a dropped record, or nothing. */
  method ReadObject(f: Bytes, h: Header, off: nat, typ: Byte, size: nat, want: set<Bytes>, scratch: Scratch)
    returns (found: seq<Entry>, dropped: nat)
    requires scratch.Valid() && IsObject(f, h, off) && typ == f[off] && size == ObjectSize(f, off)
    modifies scratch`buf, scratch`items, scratch.hdr, scratch.items, scratch.buf
    ensures scratch.Valid() && (scratch.buf == old(scratch.buf) || fresh(scratch.buf))
    ensures scratch.items == old(scratch.items) || fresh(scratch.items)
    ensures (found, dropped) == ObjectAt(f, h, off, want) && |found| <= 1
  {
    hide IsObject, ObjectSize, ReadEntryAt, Scratch.Valid;
    found, dropped := [], 0;
    if typ == TypeEntry {
      var r := ReadEntry(f, h, off, size, want, scratch);
      match r
      case Record(e) => found := [e];
      case NoRecord(c) => if c { dropped := 1; }
    }
  }
}
