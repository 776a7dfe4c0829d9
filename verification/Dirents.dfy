/**
 Directory entries: KernelGetdirentries (src/kernel/fileSystem.cpp) packs a directory into
 512-byte blocks of variable-length records, and hands the blocks out over several calls.
 */
module Dirents {
  type byte = x: int | 0 <= x < 256
  type u32 = x: int | 0 <= x < 0x1_0000_0000

  datatype Entry = Entry(name: seq<byte>, isFile: bool)

  /** The name hash stored in each record; nothing here depends on what it computes. */
  type NameHash = seq<byte> -> u32

  /** Names the record format can hold: the length is one byte, and zero ends the directory. */
  predicate Packable(es: seq<Entry>) {
    forall i | 0 <= i < |es| :: 1 <= |es[i].name| <= 255
  }

  // ---------------------------------------------------------------------------------------------
  // Bytes

  function AlignDown(value: nat, alignment: nat): nat {
    if alignment != 0 then value / alignment * alignment else value
  }

  function AlignUp(value: nat, alignment: nat): nat {
    if alignment != 0 then (value + alignment - 1) / alignment * alignment else value
  }

  /** Rounding down and up: to the largest multiple that is not above, and the smallest that is not below. */
  lemma AlignBounds(value: nat)
    ensures var down := AlignDown(value, 512); down % 512 == 0 && down <= value < down + 512
    ensures var up := AlignUp(value, 4); up % 4 == 0 && value <= up < value + 4
  {
  }

  /** On 64-bit words, clearing the low bits with a mask is the rounding AlignDown states. */
  lemma AlignDownMask(value: bv64)
    ensures value & !(512 - 1) == value / 512 * 512
    ensures value & !(4 - 1) == value / 4 * 4
  {
  }

  function Zeros(n: nat): (z: seq<byte>)
    ensures |z| == n
  {
    seq(n, i => 0)
  }

  function LE16(v: int): (b: seq<byte>)
    requires 0 <= v < 0x1_0000
    ensures |b| == 2
  {
    [v % 256, v / 256]
  }

  function LE32(v: u32): (b: seq<byte>)
    ensures |b| == 4
  {
    [v % 256, v / 256 % 256, v / 0x1_0000 % 256, v / 0x100_0000]
  }

  function Get16(d: seq<byte>, pos: nat): (v: int)
    requires pos + 2 <= |d|
    ensures 0 <= v < 0x1_0000
  {
    d[pos] as int + 256 * (d[pos + 1] as int)
  }

  /** A store of several bytes at pos. */
  function Store(d: seq<byte>, pos: nat, bytes: seq<byte>): (r: seq<byte>)
    requires pos + |bytes| <= |d|
    ensures |r| == |d|
  {
    d[..pos] + bytes + d[pos + |bytes|..]
  }

  /** The length of a record before it is stretched to the end of its block. */
  function Natural(e: Entry): (n: nat)
    ensures 1 <= |e.name| <= 255 ==> 12 <= n <= 264 && |e.name| + 9 <= n
  {
    AlignUp(8 + |e.name| + 1, 4)
  }

  /** A record: an entry and the length it is given, once stretched to the end of its block. */
  datatype RawSlot = Slot(entry: Entry, length: nat)

  type Slot = s: RawSlot | 1 <= |s.entry.name| <= 255 && Natural(s.entry) <= s.length <= 512
    witness Slot(Entry([0], true), 12)

  /** The part of a record after its length field: type, name length, name, and zeros to the end. */
  function Body(e: Entry, length: nat): (b: seq<byte>)
    requires 1 <= |e.name| <= 255 && |e.name| + 8 <= length
    ensures |b| == length - 6
  {
    [if e.isFile then 8 else 4] + [|e.name|] + e.name + Zeros(length - 8 - |e.name|)
  }

  function Record(hash: NameHash, s: Slot): (r: seq<byte>)
    ensures |r| == s.length
  {
    LE32(hash(s.entry.name)) + LE16(s.length) + Body(s.entry, s.length)
  }

  // ---------------------------------------------------------------------------------------------
  // The packed directory, record by record

  /** The records of a directory, when the first one starts at off within its block. */
  function Layout(es: seq<Entry>, off: nat): (ss: seq<Slot>)
    requires Packable(es)
    requires es != [] ==> off + Natural(es[0]) <= 512
    ensures |ss| == |es|
    decreases |es|
  {
    if es == [] then []
    else if |es| == 1 then [Slot(es[0], 512 - off)]
    else if off + Natural(es[0]) + Natural(es[1]) > 512 then
      [Slot(es[0], 512 - off)] + Layout(es[1..], 0)
    else
      [Slot(es[0], Natural(es[0]))] + Layout(es[1..], off + Natural(es[0]))
  }

  function Entries(ss: seq<Slot>): (es: seq<Entry>)
    ensures |es| == |ss|
  {
    if ss == [] then [] else [ss[0].entry] + Entries(ss[1..])
  }

  function Size(ss: seq<Slot>): nat {
    if ss == [] then 0 else ss[0].length + Size(ss[1..])
  }

  function Bytes(hash: NameHash, ss: seq<Slot>): (d: seq<byte>)
    ensures |d| == Size(ss)
  {
    if ss == [] then [] else Record(hash, ss[0]) + Bytes(hash, ss[1..])
  }

  /** The directory as one buffer. */
  function Packed(hash: NameHash, es: seq<Entry>): (d: seq<byte>)
    requires Packable(es)
    ensures |d| == Size(Layout(es, 0))
  {
    Bytes(hash, Layout(es, 0))
  }

  lemma {:induction false} LayoutEntries(es: seq<Entry>, off: nat)
    requires Packable(es)
    requires es != [] ==> off + Natural(es[0]) <= 512
    ensures Entries(Layout(es, off)) == es
    decreases |es|
  {
    if |es| > 1 {
      var off' := if off + Natural(es[0]) + Natural(es[1]) > 512 then 0 else off + Natural(es[0]);
      LayoutEntries(es[1..], off');
      assert Layout(es, off)[1..] == Layout(es[1..], off');
    }
  }

  // ---------------------------------------------------------------------------------------------
  // Blocks

  /** Where the record after s starts within its block. */
  function Next(s: Slot, off: nat): nat {
    if off + s.length == 512 then 0 else off + s.length
  }

  /** Starting at off within a block, records fill each block exactly and never cross its end. */
  ghost predicate Blocked(ss: seq<Slot>, off: nat) {
    if ss == [] then off == 0
    else off + ss[0].length <= 512 && Blocked(ss[1..], Next(ss[0], off))
  }

  lemma {:induction false} LayoutBlocked(es: seq<Entry>, off: nat)
    requires Packable(es)
    requires if es == [] then off == 0 else off + Natural(es[0]) <= 512
    ensures Blocked(Layout(es, off), off)
    decreases |es|
  {
    if |es| > 1 {
      var off' := if off + Natural(es[0]) + Natural(es[1]) > 512 then 0 else off + Natural(es[0]);
      LayoutBlocked(es[1..], off');
      assert Layout(es, off)[1..] == Layout(es[1..], off');
    }
  }

  lemma NextBound(s: Slot, off: nat)
    requires off + s.length <= 512
    ensures Next(s, off) < 512
  {
  }

  lemma NextOffset(s: Slot, off: nat, n: nat)
    requires off + s.length <= 512
    ensures (off + (s.length + n)) % 512 == (Next(s, off) + n) % 512
  {
    hide Natural;
    var to := off + s.length;
    assert off + (s.length + n) == to + n;
    if to == 512 {
      BlockLater(n);
    }
  }

  lemma BlockLater(n: nat)
    ensures (512 + n) % 512 == n % 512
  {
  }

  /** Record k of a blocked sequence stays inside one block. */
  lemma {:induction false} RecordInBlock(ss: seq<Slot>, off: nat, k: nat)
    requires Blocked(ss, off) && k < |ss| && off < 512
    ensures (off + Size(ss[..k])) % 512 + ss[k].length <= 512
    decreases k
  {
    if k == 0 {
      assert ss[..0] == [];
    } else {
      hide Next;
      NextBound(ss[0], off);
      RecordInBlock(ss[1..], Next(ss[0], off), k - 1);
      SizePrefix(ss, k);
      NextOffset(ss[0], off, Size(ss[1..][..k - 1]));
    }
  }

  lemma SizePrefix(ss: seq<Slot>, k: nat)
    requires 0 < k <= |ss|
    ensures Size(ss[..k]) == ss[0].length + Size(ss[1..][..k - 1])
  {
    assert ss[..k] == [ss[0]] + ss[1..][..k - 1];
  }

  /** Every block boundary up to the total is the start of a record, or the end. */
  lemma {:induction false} BlockStartIsRecordStart(ss: seq<Slot>, off: nat, pos: nat) returns (k: nat)
    requires Blocked(ss, off) && off < 512
    requires pos <= Size(ss) && (off + pos) % 512 == 0
    ensures k <= |ss| && Size(ss[..k]) == pos
    decreases |ss|
  {
    if pos == 0 {
      k := 0;
    } else {
      assert off + pos >= 512;
      var n := ss[0].length;
      var off' := Next(ss[0], off);
      assert (off' + (pos - n)) % 512 == 0;
      var k' := BlockStartIsRecordStart(ss[1..], off', pos - n);
      k := k' + 1;
      assert ss[..k] == [ss[0]] + ss[1..][..k'];
    }
  }

  lemma {:induction false} BlockedTotal(ss: seq<Slot>, off: nat)
    requires Blocked(ss, off) && off < 512
    ensures (off + Size(ss)) % 512 == 0
    decreases |ss|
  {
    if ss != [] {
      BlockedTotal(ss[1..], Next(ss[0], off));
    }
  }

  /** The position is where a record starts, or the end of the last one. */
  ghost predicate IsRecordStart(ss: seq<Slot>, pos: nat) {
    exists k :: 0 <= k <= |ss| && Size(ss[..k]) == pos
  }

  /**
   The layout of a packed directory: a whole number of blocks, no record across a block boundary,
   and every block boundary a record boundary, so the records of each block sum to 512.
   */
  lemma PackedLayout(hash: NameHash, es: seq<Entry>)
    requires Packable(es)
    ensures var ss := Layout(es, 0);
            && |Packed(hash, es)| % 512 == 0
            && (forall k | 0 <= k < |ss| :: Size(ss[..k]) % 512 + ss[k].length <= 512)
            && (forall pos: nat | pos <= |Packed(hash, es)| && pos % 512 == 0 ::
                  IsRecordStart(ss, pos))
  {
    var ss := Layout(es, 0);
    LayoutBlocked(es, 0);
    BlockedTotal(ss, 0);
    forall k | 0 <= k < |ss| ensures Size(ss[..k]) % 512 + ss[k].length <= 512 {
      RecordInBlock(ss, 0, k);
    }
    forall pos: nat | pos <= |Packed(hash, es)| && pos % 512 == 0
      ensures IsRecordStart(ss, pos)
    {
      var k := BlockStartIsRecordStart(ss, 0, pos);
    }
  }

  lemma BlocksTotal(hash: NameHash, es: seq<Entry>)
    requires Packable(es)
    ensures |Packed(hash, es)| % 512 == 0
  {
    PackedLayout(hash, es);
  }

  // ---------------------------------------------------------------------------------------------
  // Reading a buffer back

  /** What a guest does with the buffer: walk it by record length. */
  function Walk(d: seq<byte>): seq<Entry>
    decreases |d|
  {
    if |d| < 8 then []
    else
      var reclen := Get16(d, 4);
      var namlen: int := d[7];
      if reclen < 8 + namlen || reclen > |d| then []
      else [Entry(d[8..8 + namlen], d[6] == 8)] + Walk(d[reclen..])
  }

  lemma RecordFields(hash: NameHash, s: Slot, rest: seq<byte>)
    ensures var d := Record(hash, s) + rest;
            Get16(d, 4) == s.length && (d[6] == 8 <==> s.entry.isFile) && d[7] == |s.entry.name|
            && d[8..8 + |s.entry.name|] == s.entry.name && d[s.length..] == rest
  {
    var d := Record(hash, s) + rest;
    assert d[8..8 + |s.entry.name|] == s.entry.name;
  }

  /** The format of a record, byte by byte. */
  lemma RecordFormat(hash: NameHash, s: Slot)
    ensures var r, n := Record(hash, s), |s.entry.name|;
            && |r| == s.length
            && r[0] as int + 0x100 * r[1] as int + 0x1_0000 * r[2] as int + 0x100_0000 * r[3] as int
               == hash(s.entry.name)
            && r[4] as int + 0x100 * r[5] as int == s.length
            && r[6] == (if s.entry.isFile then 8 else 4)
            && r[7] == n && r[8..8 + n] == s.entry.name
            && forall i | 8 + n <= i < s.length :: r[i] == 0
  {
    hide Natural, LE16, LE32;
    var r, a, l := Record(hash, s), LE32(hash(s.entry.name)), LE16(s.length);
    var body := Body(s.entry, s.length);
    assert r == a + l + body;
    assert r[0] == a[0] && r[1] == a[1] && r[2] == a[2] && r[3] == a[3] && r[4] == l[0] && r[5] == l[1];
    WordBytes(hash(s.entry.name), s.length);
    BodyFormat(s);
    assert r[6] == body[0] && r[7] == body[1];
    assert r[8..8 + |s.entry.name|] == body[2..2 + |s.entry.name|];
  }

  lemma WordBytes(v: u32, w: int)
    requires 0 <= w < 0x1_0000
    ensures var b := LE32(v);
            b[0] as int + 0x100 * b[1] as int + 0x1_0000 * b[2] as int + 0x100_0000 * b[3] as int == v
    ensures LE16(w)[0] as int + 0x100 * LE16(w)[1] as int == w
  {
    Digits(v);
    Digits(v / 0x100);
    Digits(v / 0x1_0000);
    DivideTwice(v);
    DivideTwice(v / 0x100);
    Digits(w);
  }

  lemma Digits(n: nat)
    ensures n == 0x100 * (n / 0x100) + n % 0x100
  {
  }

  lemma DivideTwice(n: nat)
    ensures n / 0x100 / 0x100 == n / 0x1_0000
    ensures n / 0x1_0000 / 0x100 == n / 0x100_0000
  {
  }

  lemma BodyFormat(s: Slot)
    ensures var b, n := Body(s.entry, s.length), |s.entry.name|;
            && b[0] == (if s.entry.isFile then 8 else 4) && b[1] == n && b[2..2 + n] == s.entry.name
            && forall i | 2 + n <= i < |b| :: b[i] == 0
  {
    hide Natural;
  }

  /** A record before it is stretched: room for the header, the name and a zero, rounded up to four. */
  lemma NaturalLength(e: Entry)
    ensures Natural(e) % 4 == 0 && |e.name| + 9 <= Natural(e) < |e.name| + 13
  {
  }

  /** No space is wasted: a record is stretched only when the next one does not fit, or when it is the last. */
  lemma {:induction false} LayoutIsDense(es: seq<Entry>, off: nat, k: nat)
    requires Packable(es) && es != [] && off + Natural(es[0]) <= 512 && k < |es|
    ensures var ss := Layout(es, off);
            var at := (off + Size(ss[..k])) % 512;
            ss[k].length == if k + 1 < |es| && at + Natural(es[k]) + Natural(es[k + 1]) <= 512 then Natural(es[k])
                            else 512 - at
    decreases |es|
  {
    hide Layout, Natural;
    var ss := Layout(es, off);
    LayoutFirst(es, off);
    if k == 0 {
      assert ss[..0] == [] && Size([]) == 0;
    } else {
      hide Size;
      var off' := AfterFirst(es, off);
      LayoutIsDense(es[1..], off', k - 1);
      SizePrefix(ss, k);
      OffsetLater(off, ss[0].length, off', Size(ss[1..][..k - 1]));
    }
  }

  /** Where the second record starts within its block. */
  function AfterFirst(es: seq<Entry>, off: nat): nat
    requires |es| > 1
  {
    var fits := off + Natural(es[0]) + Natural(es[1]) <= 512;
    if fits then off + Natural(es[0]) else 0
  }

  lemma LayoutFirst(es: seq<Entry>, off: nat)
    requires Packable(es) && es != [] && off + Natural(es[0]) <= 512
    ensures Layout(es, off)[0].length
            == if |es| > 1 && off + Natural(es[0]) + Natural(es[1]) <= 512 then Natural(es[0]) else 512 - off
    ensures off < 512
    ensures |es| > 1 ==>
              && AfterFirst(es, off) + Natural(es[1]) <= 512
              && Layout(es, off)[1..] == Layout(es[1..], AfterFirst(es, off))
              && (AfterFirst(es, off) == off + Layout(es, off)[0].length
                  || (off + Layout(es, off)[0].length == 512 && AfterFirst(es, off) == 0))
  {
  }

  lemma OffsetLater(off: nat, length: nat, off': nat, n: nat)
    requires off' == off + length || (off + length == 512 && off' == 0)
    ensures (off + (length + n)) % 512 == (off' + n) % 512
  {
    if off' != off + length {
      BlockLater(n);
    }
  }

  lemma WalkRecord(hash: NameHash, s: Slot, rest: seq<byte>)
    ensures Walk(Record(hash, s) + rest) == [s.entry] + Walk(rest)
  {
    RecordFields(hash, s, rest);
    hide Record;
  }

  /** Walking packed records yields their entries, and then whatever follows. */
  lemma {:induction false} WalkBytes(hash: NameHash, ss: seq<Slot>, rest: seq<byte>)
    ensures Walk(Bytes(hash, ss) + rest) == Entries(ss) + Walk(rest)
    decreases |ss|
  {
    hide Record, Walk;
    if ss == [] {
      assert Bytes(hash, ss) + rest == rest;
    } else {
      var tail := Bytes(hash, ss[1..]) + rest;
      assert Bytes(hash, ss) + rest == Record(hash, ss[0]) + tail;
      WalkRecord(hash, ss[0], tail);
      WalkBytes(hash, ss[1..], rest);
    }
  }

  /** Walking a packed directory recovers exactly the names and types, in order. */
  lemma RoundTrip(hash: NameHash, es: seq<Entry>)
    requires Packable(es)
    ensures Walk(Packed(hash, es)) == es
  {
    WalkBytes(hash, Layout(es, 0), []);
    LayoutEntries(es, 0);
    assert Packed(hash, es) + [] == Packed(hash, es);
  }

  /** Records in two groups: sizes, bytes and entries add up. */
  lemma {:induction false} Split(hash: NameHash, s1: seq<Slot>, s2: seq<Slot>)
    ensures Size(s1 + s2) == Size(s1) + Size(s2)
    ensures Bytes(hash, s1 + s2) == Bytes(hash, s1) + Bytes(hash, s2)
    ensures Entries(s1 + s2) == Entries(s1) + Entries(s2)
    decreases |s1|
  {
    hide Record;
    if s1 == [] {
      assert s1 + s2 == s2;
    } else {
      assert (s1 + s2)[1..] == s1[1..] + s2;
      Split(hash, s1[1..], s2);
      SplitFirst(hash, s1 + s2);
      SplitFirst(hash, s1);
      hide Bytes, Entries, Size;
    }
  }

  lemma SplitFirst(hash: NameHash, ss: seq<Slot>)
    requires ss != []
    ensures Size(ss) == ss[0].length + Size(ss[1..])
    ensures Bytes(hash, ss) == Record(hash, ss[0]) + Bytes(hash, ss[1..])
    ensures Entries(ss) == [ss[0].entry] + Entries(ss[1..])
  {
  }

  // ---------------------------------------------------------------------------------------------
  // Chunked reads

  function Min(a: nat, b: nat): nat { if a <= b then a else b }

  /** The bytes one call returns when the saved offset is off. */
  function Chunk(d: seq<byte>, off: nat, nbytes: nat): seq<byte>
    requires off <= |d|
  {
    d[off..off + Min(AlignDown(nbytes, 512), |d| - off)]
  }

  /** The chunks a series of calls returns, starting at offset off. */
  function Chunks(d: seq<byte>, off: nat, sizes: seq<nat>): (cs: seq<seq<byte>>)
    requires off <= |d|
    ensures |cs| == |sizes|
    decreases |sizes|
  {
    if sizes == [] then []
    else
      var c := Chunk(d, off, sizes[0]);
      [c] + Chunks(d, off + |c|, sizes[1..])
  }

  function Concat<T>(parts: seq<seq<T>>): seq<T> {
    if parts == [] then [] else parts[0] + Concat(parts[1..])
  }

  /** Parsing each chunk on its own. */
  function WalkAll(parts: seq<seq<byte>>): seq<Entry> {
    if parts == [] then [] else Walk(parts[0]) + WalkAll(parts[1..])
  }

  /** The guest passes buffers of at least one block. */
  ghost predicate BlockSized(sizes: seq<nat>) {
    forall i | 0 <= i < |sizes| :: sizes[i] >= 512
  }

  /**
   Nothing is lost or repeated: the chunks concatenate to a prefix of the buffer that ends on a
   block boundary, and every call makes progress until the whole buffer has been returned.
   */
  lemma {:induction false} ChunksArePrefix(d: seq<byte>, off: nat, sizes: seq<nat>)
    requires off <= |d| && off % 512 == 0 && |d| % 512 == 0
    requires BlockSized(sizes)
    ensures var all := Concat(Chunks(d, off, sizes));
            && off + |all| <= |d| && all == d[off..off + |all|]
            && |all| % 512 == 0
            && |all| >= Min(|sizes| * 512, |d| - off)
    decreases |sizes|
  {
    hide AlignDown, Chunks, Concat, Chunk, Min;
    if sizes != [] {
      var c := Chunk(d, off, sizes[0]);
      ChunkFacts(d, off, sizes[0]);
      ChunksArePrefix(d, off + |c|, sizes[1..]);
      FirstConcat(d, off, sizes);
      var rest := Concat(Chunks(d, off + |c|, sizes[1..]));
      BlockSum(|c|, |rest|);
      Glue(d, off, |c|, |rest|);
      MinStep(|c|, |rest|, |sizes|, |d| - off);
    } else {
      NoChunks(d, off);
      MinStep(0, 0, 0, |d| - off);
    }
  }

  lemma ChunkFacts(d: seq<byte>, off: nat, nbytes: nat)
    requires off <= |d| && off % 512 == 0 && |d| % 512 == 0 && nbytes >= 512
    ensures var c := Chunk(d, off, nbytes);
            && off + |c| <= |d| && c == d[off..off + |c|] && |c| % 512 == 0 && (off + |c|) % 512 == 0
            && (off < |d| ==> |c| >= 512)
  {
    hide AlignDown, Min;
    BlockMultiple(nbytes, |d| - off);
    MinBound(AlignDown(nbytes, 512), |d| - off);
    BlockSum(off, Min(AlignDown(nbytes, 512), |d| - off));
  }

  lemma MinBound(a: nat, b: nat)
    ensures Min(a, b) <= a && Min(a, b) <= b
  {
  }

  /** Progress adds up over the first call and the rest. */
  lemma MinStep(first: nat, rest: nat, calls: nat, left: nat)
    requires first <= left
    requires calls > 0 ==> rest >= Min((calls - 1) * 512, left - first) && (left > 0 ==> first >= 512)
    requires calls == 0 ==> first == rest == 0
    ensures first + rest >= Min(calls * 512, left)
  {
  }

  lemma NoChunks(d: seq<byte>, off: nat)
    requires off <= |d|
    ensures Concat(Chunks(d, off, [])) == []
  {
  }

  lemma FirstConcat(d: seq<byte>, off: nat, sizes: seq<nat>)
    requires off <= |d| && sizes != []
    ensures var c := Chunk(d, off, sizes[0]);
            Concat(Chunks(d, off, sizes)) == c + Concat(Chunks(d, off + |c|, sizes[1..]))
  {
    hide AlignDown;
    assert Chunks(d, off, sizes)[1..] == Chunks(d, off + |Chunk(d, off, sizes[0])|, sizes[1..]);
  }

  lemma Glue(d: seq<byte>, off: nat, m: nat, n: nat)
    requires off + m + n <= |d|
    ensures d[off..off + m] + d[off + m..off + m + n] == d[off..off + (m + n)]
  {
  }

  lemma BlockSum(a: nat, b: nat)
    requires a % 512 == 0 && b % 512 == 0
    ensures (a + b) % 512 == 0
  {
  }

  lemma BlockMultiple(nbytes: nat, left: nat)
    requires nbytes >= 512 && left % 512 == 0
    ensures AlignDown(nbytes, 512) % 512 == 0 && 512 <= AlignDown(nbytes, 512) <= nbytes
    ensures Min(AlignDown(nbytes, 512), left) % 512 == 0
    ensures left > 0 ==> Min(AlignDown(nbytes, 512), left) >= 512
  {
  }

  /**
   Any series of calls with buffers of at least a block, long enough to reach the end, returns the
   whole buffer, and a client that parses each chunk on its own gets the directory, in order.
   */
  lemma ChunkedWalk(hash: NameHash, es: seq<Entry>, sizes: seq<nat>)
    requires Packable(es) && BlockSized(sizes)
    requires |sizes| * 512 >= |Packed(hash, es)|
    ensures Concat(Chunks(Packed(hash, es), 0, sizes)) == Packed(hash, es)
    ensures WalkAll(Chunks(Packed(hash, es), 0, sizes)) == es
  {
    var d, ss := Packed(hash, es), Layout(es, 0);
    LayoutBlocked(es, 0);
    LayoutEntries(es, 0);
    ChunkedWhole(hash, es, sizes);
    assert Size([]) == 0;
    hide Size, Bytes, Blocked, Layout, Chunks, Concat, WalkAll, Entries, Natural;
    assert [] + ss == ss;
    WalkChunks(hash, [], ss, sizes);
  }

  lemma ChunkedWhole(hash: NameHash, es: seq<Entry>, sizes: seq<nat>)
    requires Packable(es) && BlockSized(sizes)
    requires |sizes| * 512 >= |Packed(hash, es)|
    ensures Concat(Chunks(Packed(hash, es), 0, sizes)) == Packed(hash, es)
  {
    hide Packed, Chunks, Concat, Natural;
    var d := Packed(hash, es);
    BlocksTotal(hash, es);
    ChunksArePrefix(d, 0, sizes);
    assert d[0..|d|] == d;
  }

  /** The chunk read at a block boundary is a whole number of records. */
  lemma ChunkOfRecords(hash: NameHash, done: seq<Slot>, todo: seq<Slot>, nbytes: nat) returns (k: nat)
    requires nbytes >= 512 && Blocked(todo, 0)
    ensures k <= |todo|
    ensures |Bytes(hash, done + todo)| == Size(done) + Size(todo)
    ensures Chunk(Bytes(hash, done + todo), Size(done), nbytes) == Bytes(hash, todo[..k])
    ensures Size(todo[..k]) % 512 == 0 && Blocked(todo[k..], 0)
    ensures Size(todo) > 0 ==> Size(todo[..k]) >= 512
  {
    hide Record, Entries, AlignDown, Size, Bytes, Blocked;
    Split(hash, done, todo);
    BlockedTotal(todo, 0);
    BlockMultiple(nbytes, Size(todo));
    var n := Min(AlignDown(nbytes, 512), Size(todo));
    k := BlockStartIsRecordStart(todo, 0, n);
    BlockedDrop(todo, 0, k);
    assert todo[..k] + todo[k..] == todo;
    Split(hash, todo[..k], todo[k..]);
    Middle(Bytes(hash, done), Bytes(hash, todo[..k]), Bytes(hash, todo[k..]));
  }

  lemma Middle(a: seq<byte>, b: seq<byte>, c: seq<byte>)
    ensures (a + (b + c))[|a|..|a| + |b|] == b
  {
  }

  /** Each chunk parses to the entries it holds, so the parses add up from any block boundary. */
  lemma {:induction false} WalkChunks(hash: NameHash, done: seq<Slot>, todo: seq<Slot>, sizes: seq<nat>)
    requires BlockSized(sizes) && Blocked(todo, 0)
    requires |sizes| * 512 >= Size(todo)
    ensures Size(done) <= |Bytes(hash, done + todo)|
    ensures WalkAll(Chunks(Bytes(hash, done + todo), Size(done), sizes)) == Entries(todo)
    decreases |sizes|
  {
    hide Record, Walk, Layout, Bytes, Size, Entries, Blocked, Chunk, Chunks, WalkAll;
    Split(hash, done, todo);
    if sizes != [] {
      var k := ChunkOfRecords(hash, done, todo, sizes[0]);
      var now, later := todo[..k], todo[k..];
      assert todo == now + later;
      Split(hash, now, later);
      Split(hash, done, now);
      assert done + todo == (done + now) + later;
      WalkChunks(hash, done + now, later, sizes[1..]);
      WalkBytes(hash, now, []);
      assert Bytes(hash, now) + [] == Bytes(hash, now);
      WalkEmpty();
      assert Entries(now) + [] == Entries(now);
      FirstChunk(Bytes(hash, done + todo), Size(done), sizes);
    } else {
      NothingLeft(Bytes(hash, done + todo), Size(done), todo);
    }
  }

  lemma NothingLeft(d: seq<byte>, off: nat, todo: seq<Slot>)
    requires off <= |d|
    ensures Size(todo) == 0 ==> WalkAll(Chunks(d, off, [])) == Entries(todo)
  {
  }

  lemma WalkEmpty()
    ensures Walk([]) == []
  {
  }

  lemma FirstChunk(d: seq<byte>, off: nat, sizes: seq<nat>)
    requires off <= |d| && sizes != []
    ensures var c := Chunk(d, off, sizes[0]);
            WalkAll(Chunks(d, off, sizes)) == Walk(c) + WalkAll(Chunks(d, off + |c|, sizes[1..]))
  {
    hide Walk, AlignDown;
    assert Chunks(d, off, sizes)[1..] == Chunks(d, off + |Chunk(d, off, sizes[0])|, sizes[1..]);
  }

  lemma {:induction false} BlockedDrop(ss: seq<Slot>, off: nat, k: nat)
    requires Blocked(ss, off) && off < 512 && k <= |ss|
    ensures Blocked(ss[k..], (off + Size(ss[..k])) % 512)
    decreases k
  {
    if k == 0 {
      assert ss[..0] == [] && ss[0..] == ss;
    } else {
      hide Next, Natural;
      var off' := Next(ss[0], off);
      NextBound(ss[0], off);
      BlockedDrop(ss[1..], off', k - 1);
      assert ss[1..][k - 1..] == ss[k..];
      SizePrefix(ss, k);
      NextOffset(ss[0], off, Size(ss[1..][..k - 1]));
    }
  }

  // ---------------------------------------------------------------------------------------------
  // The packing loop

  /** What remains to be written, when the record of es[0] starts at off in its block. */
  function Tail(hash: NameHash, es: seq<Entry>, off: nat): seq<byte>
    requires Packable(es)
    requires es != [] ==> off + Natural(es[0]) <= 512
  {
    Bytes(hash, Layout(es, off))
  }

  /** The next record, and what follows it. */
  lemma TailStep(hash: NameHash, es: seq<Entry>, off: nat)
    requires Packable(es) && es != [] && off + Natural(es[0]) <= 512
    ensures |es| == 1 ==> Tail(hash, es, off) == Record(hash, Slot(es[0], 512 - off))
    ensures |es| > 1 && off + Natural(es[0]) + Natural(es[1]) > 512 ==>
              Tail(hash, es, off)
              == Record(hash, Slot(es[0], 512 - off)) + Tail(hash, es[1..], 0)
    ensures |es| > 1 && off + Natural(es[0]) + Natural(es[1]) <= 512 ==>
              Tail(hash, es, off)
              == Record(hash, Slot(es[0], Natural(es[0]))) + Tail(hash, es[1..], off + Natural(es[0]))
  {
    hide Record, Natural;
    var ss := Layout(es, off);
    if |es| == 1 {
      assert Bytes(hash, ss[1..]) == [];
    } else {
      assert ss[1..] == Layout(es[1..], if off + Natural(es[0]) + Natural(es[1]) > 512
                                        then 0 else off + Natural(es[0]));
    }
  }

  /** The stores made for one entry at position p. */
  function StoreEntry(hash: NameHash, d: seq<byte>, p: nat, e: Entry): (r: seq<byte>)
    requires 1 <= |e.name| <= 255 && p + Natural(e) <= |d|
    ensures |r| == |d|
  {
    var d := Store(d, p, LE32(hash(e.name)));
    var d := Store(d, p + 4, LE16(Natural(e)));
    var d := Store(d, p + 6, [if e.isFile then 8 else 4]);
    var d := Store(d, p + 7, [|e.name|]);
    var d := Store(d, p + 8, e.name);
    Store(d, p + 8 + |e.name|, [0])
  }

  lemma StoreZeros(head: seq<byte>, a: seq<byte>, b: seq<byte>, room: nat)
    requires |b| <= room
    ensures Store(head + a + Zeros(room), |head| + |a|, b) == head + (a + b) + Zeros(room - |b|)
  {
  }

  /** Into zeroed bytes, those stores produce the unstretched record. */
  lemma StoredRecord(hash: NameHash, head: seq<byte>, e: Entry, room: nat)
    requires 1 <= |e.name| <= 255 && Natural(e) <= room
    ensures StoreEntry(hash, head + Zeros(room), |head|, e)
            == head + (Record(hash, Slot(e, Natural(e))) + Zeros(room - Natural(e)))
  {
    hide Natural, AlignUp, Store, LE16, LE32, Zeros;
    var n := Natural(e);
    var h, l, t, z, m := LE32(hash(e.name)), LE16(n), [if e.isFile then 8 else 4], [|e.name|], e.name;
    assert head + [] + Zeros(room) == head + Zeros(room);
    StoreZeros(head, [], h, room);
    assert [] + h == h;
    StoreZeros(head, h, l, room - 4);
    StoreZeros(head, h + l, t, room - 6);
    StoreZeros(head, h + l + t, z, room - 7);
    StoreZeros(head, h + l + t + z, m, room - 8);
    StoreZeros(head, h + l + t + z + m, [0], room - 8 - |m|);
    RecordZeros(h + l, [if e.isFile then 8 else 4], e, n, room, head);
  }

  lemma RecordZeros(a: seq<byte>, t: seq<byte>, e: Entry, n: nat, room: nat, head: seq<byte>)
    requires 1 <= |e.name| <= 255 && |e.name| + 9 <= n <= room && t == [if e.isFile then 8 else 4]
    ensures head + (a + t + [|e.name|] + e.name + [0]) + Zeros(room - 9 - |e.name|)
            == head + (a + Body(e, n) + Zeros(room - n))
  {
    assert [0] + Zeros(room - 9 - |e.name|) == Zeros(n - 8 - |e.name|) + Zeros(room - n);
    var c := a + t + [|e.name|] + e.name;
    assert head + (c + [0]) + Zeros(room - 9 - |e.name|) == head + c + ([0] + Zeros(room - 9 - |e.name|));
    assert a + Body(e, n) == c + Zeros(n - 8 - |e.name|);
  }

  lemma Patched(head: seq<byte>, a: seq<byte>, v: int, w: int, b: seq<byte>)
    requires 0 <= v < 0x1_0000 && 0 <= w < 0x1_0000
    ensures Get16(head + (a + LE16(v) + b), |head| + |a|) == v
    ensures Store(head + (a + LE16(v) + b), |head| + |a|, LE16(w)) == head + (a + LE16(w) + b)
  {
  }

  /** Adding to the stored length stretches the last record over the zeros that follow it. */
  lemma StretchedRecord(hash: NameHash, head: seq<byte>, e: Entry, pad: nat)
    requires 1 <= |e.name| <= 255 && Natural(e) + pad <= 512
    ensures var d := head + (Record(hash, Slot(e, Natural(e))) + Zeros(pad));
            && Get16(d, |head| + 4) == Natural(e)
            && Store(d, |head| + 4, LE16(Natural(e) + pad)) == head + Record(hash, Slot(e, Natural(e) + pad))
  {
    var n := Natural(e);
    BodyStretches(e, n, pad);
    hide Natural, AlignUp, Body, Store, Get16, LE16, LE32;
    var a := LE32(hash(e.name));
    Patched(head, a, n, n + pad, Body(e, n + pad));
    assert Record(hash, Slot(e, n)) + Zeros(pad) == a + LE16(n) + Body(e, n + pad);
  }

  lemma BodyStretches(e: Entry, n: nat, pad: nat)
    requires 1 <= |e.name| <= 255 && |e.name| + 8 <= n
    ensures Body(e, n) + Zeros(pad) == Body(e, n + pad)
  {
  }

  /** The loop state after some entries: the last record still unstretched, zeros up to the ceiling. */
  ghost predicate Packing(hash: NameHash, all: seq<Entry>, i: nat, d: seq<byte>, ceiling: int, off: int,
                          lastOff: int)
    requires Packable(all) && i <= |all|
  {
    if i == 0 then d == [] && ceiling == 0 && off == 0 && lastOff == -1
    else
      var p, e := lastOff - 4, all[i - 1];
      && 0 <= ceiling - 512 <= p < ceiling && off == p + Natural(e) <= ceiling && |d| == ceiling
      && d[p..] == Record(hash, Slot(e, Natural(e))) + Zeros(ceiling - off)
      && d[..p] + Tail(hash, all[i - 1..], p - (ceiling - 512)) == Packed(hash, all)
  }

  /** Room for entry i: zeros from off to the ceiling, and everything before it final. */
  ghost predicate Ready(hash: NameHash, all: seq<Entry>, i: nat, d: seq<byte>, ceiling: int, off: int)
    requires Packable(all) && i < |all|
  {
    && 0 <= ceiling - 512 <= off && off + Natural(all[i]) <= ceiling && |d| == ceiling
    && d == d[..off] + Zeros(ceiling - off)
    && d[..off] + Tail(hash, all[i..], off - (ceiling - 512)) == Packed(hash, all)
  }

  /** Fixing the last record's length, either as it stands or stretched to the ceiling. */
  lemma CloseLast(hash: NameHash, all: seq<Entry>, i: nat, d: seq<byte>, ceiling: int, off: int, lastOff: int)
    requires Packable(all) && 0 < i <= |all|
    requires Packing(hash, all, i, d, ceiling, off, lastOff)
    ensures 0 <= lastOff && lastOff + 2 <= |d| == ceiling && 0 <= ceiling - off
    ensures Get16(d, lastOff) + (ceiling - off) < 0x1_0000
    ensures var stretched := Store(d, lastOff, LE16(Get16(d, lastOff) + (ceiling - off)));
            && (i == |all| ==> stretched == Packed(hash, all))
            && (i < |all| && off + Natural(all[i]) > ceiling ==>
                  stretched + Tail(hash, all[i..], 0) == Packed(hash, all))
    ensures i < |all| && off + Natural(all[i]) <= ceiling ==> Ready(hash, all, i, d, ceiling, off)
  {
    hide Record, Layout, Bytes, AlignUp, Store, LE16, LE32, Get16, Natural, Packed, Tail;
    var p, e := lastOff - 4, all[i - 1];
    var head, pad := d[..p], ceiling - off;
    StretchedRecord(hash, head, e, pad);
    assert d == head + d[p..];
    TailStep(hash, all[i - 1..], p - (ceiling - 512));
    assert all[i - 1..][1..] == all[i..];
    var r := Record(hash, Slot(e, Natural(e)));
    assert d == head + r + Zeros(pad);
    assert d[..off] == head + r;
  }

  /** A new block of zeros, once the last record has been stretched over the rest of the old one. */
  lemma NewBlock(hash: NameHash, all: seq<Entry>, i: nat, d: seq<byte>)
    requires Packable(all) && i < |all|
    requires d + Tail(hash, all[i..], 0) == Packed(hash, all)
    ensures Ready(hash, all, i, d + Zeros(512), |d| + 512, |d|)
  {
    hide Layout, Bytes, Packed, Tail;
  }

  /** Storing entry i makes it the last record. */
  lemma Placed(hash: NameHash, all: seq<Entry>, i: nat, d: seq<byte>, ceiling: int, off: int)
    requires Packable(all) && i < |all| && Ready(hash, all, i, d, ceiling, off)
    ensures Packing(hash, all, i + 1, StoreEntry(hash, d, off, all[i]), ceiling, off + Natural(all[i]), off + 4)
  {
    hide Record, Layout, Bytes, AlignUp, StoreEntry, Natural, Packed, Tail;
    var head := d[..off];
    StoredRecord(hash, head, all[i], ceiling - off);
    assert StoreEntry(hash, d, off, all[i])[..off] == head;
  }

  /** The packing loop of KernelGetdirentries builds the packed directory. */
  method Pack(hash: NameHash, es: seq<Entry>) returns (dirents: seq<byte>)
    requires Packable(es)
    ensures dirents == Packed(hash, es)
  {
    hide Record, Layout, Bytes, StoreEntry, AlignUp, Store, LE16, LE32, Get16, Tail, Packed;
    dirents := [];
    var nextCeiling, direntOffset := 0, 0;
    var lastReclenOffset: int := -1;
    for i := 0 to |es|
      invariant Packing(hash, es, i, dirents, nextCeiling, direntOffset, lastReclenOffset)
    {
      if i > 0 {
        CloseLast(hash, es, i, dirents, nextCeiling, direntOffset, lastReclenOffset);
      } else {
        FirstBlock(hash, es);
      }
      hide Packing, Ready;
      var reclen := Natural(es[i]);
      if direntOffset + reclen > nextCeiling {
        if lastReclenOffset >= 0 {
          var newLength := Get16(dirents, lastReclenOffset) + (nextCeiling - direntOffset);
          dirents := Store(dirents, lastReclenOffset, LE16(newLength));
        }
        NewBlock(hash, es, i, dirents);
        direntOffset := nextCeiling;
        nextCeiling := nextCeiling + 512;
        dirents := dirents + Zeros(512);
      }
      Placed(hash, es, i, dirents, nextCeiling, direntOffset);
      dirents := StoreEntry(hash, dirents, direntOffset, es[i]);
      lastReclenOffset := direntOffset + 4;
      direntOffset := direntOffset + reclen;
    }
    if lastReclenOffset >= 0 {
      CloseLast(hash, es, |es|, dirents, nextCeiling, direntOffset, lastReclenOffset);
      var newLength := Get16(dirents, lastReclenOffset) + (nextCeiling - direntOffset);
      dirents := Store(dirents, lastReclenOffset, LE16(newLength));
    } else {
      EmptyDirectory(hash);
    }
  }

  lemma FirstBlock(hash: NameHash, all: seq<Entry>)
    requires Packable(all) && all != []
    ensures [] + Tail(hash, all[0..], 0) == Packed(hash, all)
  {
    assert all[0..] == all;
  }

  lemma EmptyDirectory(hash: NameHash)
    ensures Packed(hash, []) == []
  {
  }

  // ---------------------------------------------------------------------------------------------
  // Directory files

  datatype ReadResult = EFAULT | EINVAL | Count(count: nat)

  /** An open file: its directory entries, fixed at open, and the offset the next call resumes from. */
  class File {
    const directory: bool
    const dents: seq<Entry>
    var dentsOffset: nat

    /** The saved offset is a block boundary of the packed directory. */
    ghost predicate Valid(hash: NameHash)
      reads this
    {
      && Packable(dents)
      && dentsOffset <= |Packed(hash, dents)|
      && dentsOffset % 512 == 0
    }

    constructor (directory: bool, dents: seq<Entry>)
      ensures this.directory == directory && this.dents == dents && dentsOffset == 0
      ensures Packable(dents) ==> forall hash: NameHash :: Valid(hash)
    {
      this.directory, this.dents, dentsOffset := directory, dents, 0;
    }

    /** KernelGetdirentries, once the descriptor has been resolved. */
    method Getdirentries(hash: NameHash, buf: array?<byte>, nbytes: int) returns (r: ReadResult, base: nat)
      requires Valid(hash)
      requires buf != null ==> buf.Length >= nbytes
      modifies this, buf
      ensures Valid(hash)
      ensures r.EFAULT? <==> buf == null
      ensures r.EINVAL? <==> buf != null && (!directory || nbytes < 512)
      ensures !r.Count? ==> dentsOffset == old(dentsOffset)
      ensures r.Count? ==> base == old(dentsOffset) && dentsOffset == old(dentsOffset) + r.count
      ensures r.Count? ==>
        var chunk := Chunk(Packed(hash, dents), old(dentsOffset), nbytes);
        |chunk| == r.count <= nbytes && buf[..] == Store(old(buf[..]), 0, chunk)
      ensures buf != null && !r.Count? ==> buf[..] == old(buf[..])
    {
      hide Packed, AlignDown, Layout, Natural, Packable, Store;
      base := 0;
      if buf == null {
        return EFAULT, base;
      }
      if !directory || nbytes < 512 {
        return EINVAL, base;
      }
      base := dentsOffset;
      var dirents := Pack(hash, dents);
      BlocksTotal(hash, dents);
      if dentsOffset >= |dirents| {
        r := Count(0);
        StoreNothing(buf[..], dirents, dentsOffset);
        return;
      }
      BlockMultiple(nbytes, |dirents| - dentsOffset);
      var written := CopyOut(hash, dents, dentsOffset, dirents, buf, AlignDown(nbytes, 512));
      BlockSum(dentsOffset, written);
      dentsOffset := dentsOffset + written;
      r := Count(written);
    }
  }

  /** One record further: the bytes copied so far, and the position in the packed buffer. */
  lemma CopyStep(old_: seq<byte>, d: seq<byte>, off: nat, written: nat, count: nat)
    requires off + written + count <= |d| && written + count <= |old_|
    ensures Store(Store(old_, 0, d[off..off + written]), written, d[off + written..off + written + count])
            == Store(old_, 0, d[off..off + (written + count)])
  {
    Glue(d, off, written, count);
    StoreMore(old_, d[off..off + written], d[off + written..off + written + count]);
  }

  predicate BlockAligned(n: nat) { n % 512 == 0 }

  /** The copy loop's variables at position pos: what lies between the saved offset and pos is copied. */
  predicate Cursor(total: nat, saved: nat, room: nat, pos: nat, working: int, written: nat) {
    && saved % 512 == 0 && room % 512 == 0
    && saved <= total && saved + written <= total && written <= room && pos <= total
    && working == (if pos <= saved then saved - pos else 0)
    && (if pos <= saved then written == 0 else saved + written == pos)
  }

  /** The position is that of record k. */
  ghost predicate Copying(hash: NameHash, es: seq<Entry>, k: nat, saved: nat, room: nat, pos: nat,
                          working: int, written: nat)
    requires Packable(es)
  {
    && Cursor(|Packed(hash, es)|, saved, room, pos, working, written)
    && k <= |es| && pos == Size(Layout(es, 0)[..k])
  }

  /** A record that lies within its block is skipped, copied, or the one that finds the buffer full. */
  lemma CursorStep(total: nat, saved: nat, room: nat, pos: nat, working: int, written: nat, n: nat)
    requires Cursor(total, saved, room, pos, working, written)
    requires pos % 512 + n <= 512 && 0 < n && pos + n <= total
    ensures working >= n ==>
              && Cursor(total, saved, room, pos + n, working - n, written)
              && (pos + n == total ==> saved + written == total)
    ensures working < n ==> working == 0 && pos == saved + written
    ensures working < n && written + n > room ==> written == room
    ensures working < n && written + n <= room ==>
              && Cursor(total, saved, room, pos + n, 0, written + n)
              && (pos + n == total ==> saved + (written + n) == total)
  {
    SameBlock(pos, n, saved);
    if pos >= saved && written + n > room {
      NoRoom(written, n, room, pos, saved);
    }
  }

  /** What the loop does at record k: skip it, copy it, or stop because the buffer is full. */
  lemma CopyRecord(hash: NameHash, es: seq<Entry>, k: nat, saved: nat, room: nat, pos: nat, working: int,
                   written: nat)
    requires Packable(es) && Copying(hash, es, k, saved, room, pos, working, written)
    requires pos < |Packed(hash, es)|
    ensures pos + 8 <= |Packed(hash, es)|
    ensures var d := Packed(hash, es);
            var reclen := Get16(d, pos + 4);
            && d[pos + 7] != 0 && reclen != 0 && pos + reclen <= |d|
            && (working >= reclen ==>
                  && Copying(hash, es, k + 1, saved, room, pos + reclen, working - reclen, written)
                  && (pos + reclen == |d| ==> saved + written == |d|))
            && (working < reclen ==> working == 0 && pos == saved + written)
            && (working < reclen && written + reclen > room ==> written == room)
            && (working < reclen && written + reclen <= room ==>
                  && Copying(hash, es, k + 1, saved, room, pos + reclen, 0, written + reclen)
                  && (pos + reclen == |d| ==> saved + (written + reclen) == |d|))
  {
    hide Layout, Packed, Get16, Size, Blocked, Cursor;
    AtRecord(hash, es, k);
    LayoutBlocked(es, 0);
    RecordInBlock(Layout(es, 0), 0, k);
    hide Natural, Packable;
    CursorStep(|Packed(hash, es)|, saved, room, pos, working, written, Layout(es, 0)[k].length);
  }

  lemma CopyStart(hash: NameHash, es: seq<Entry>, saved: nat, room: nat)
    requires Packable(es) && BlockAligned(saved) && BlockAligned(room) && saved <= |Packed(hash, es)|
    ensures Copying(hash, es, 0, saved, room, 0, saved, 0)
    ensures |Packed(hash, es)| == 0 ==> saved == 0
  {
  }

  /** The resumable copy loop: whole records from the saved offset, as many as fit. */
  method CopyOut(hash: NameHash, es: seq<Entry>, dentsOffset: nat, dirents: seq<byte>, buf: array<byte>,
                 alignedCount: nat)
    returns (bytesWritten: nat)
    requires Packable(es) && dirents == Packed(hash, es)
    requires BlockAligned(dentsOffset) && BlockAligned(alignedCount)
    requires dentsOffset <= |dirents| && alignedCount <= buf.Length
    modifies buf
    ensures bytesWritten == Min(alignedCount, |dirents| - dentsOffset)
    ensures buf[..] == Store(old(buf[..]), 0, dirents[dentsOffset..dentsOffset + bytesWritten])
  {
    hide BlockAligned, Get16, Packed, Packable, Store, Copying;
    ghost var k := 0;
    bytesWritten := 0;
    var workingOffset, bufferOffset := dentsOffset, 0;
    CopyStart(hash, es, dentsOffset, alignedCount);
    StoreNothing(buf[..], dirents, dentsOffset);
    while bufferOffset < |dirents|
      invariant Copying(hash, es, k, dentsOffset, alignedCount, bufferOffset, workingOffset, bytesWritten)
      invariant dentsOffset + bytesWritten <= |dirents| && bytesWritten <= alignedCount
      invariant bufferOffset <= |dirents|
      invariant bufferOffset == |dirents| ==> dentsOffset + bytesWritten == |dirents|
      invariant buf[..] == Store(old(buf[..]), 0, dirents[dentsOffset..dentsOffset + bytesWritten])
      decreases |dirents| - bufferOffset
    {
      CopyRecord(hash, es, k, dentsOffset, alignedCount, bufferOffset, workingOffset, bytesWritten);
      var reclen := Get16(dirents, bufferOffset + 4);
      var namlen := dirents[bufferOffset + 7];
      if namlen == 0 || reclen == 0 {
        break;
      }
      k := k + 1;
      if workingOffset >= reclen {
        bufferOffset := bufferOffset + reclen;
        workingOffset := workingOffset - reclen;
        continue;
      }
      if bytesWritten + reclen > alignedCount {
        break;
      }
      var count := reclen - workingOffset;
      CopyStep(old(buf[..]), dirents, dentsOffset, bytesWritten, count);
      Memcpy(buf, bytesWritten, dirents, bufferOffset + workingOffset, count);
      bytesWritten := bytesWritten + count;
      bufferOffset := bufferOffset + reclen;
      workingOffset := 0;
    }
  }

  lemma StoreNothing(d: seq<byte>, src: seq<byte>, from: nat)
    requires from <= |src|
    ensures Store(d, 0, src[from..from + 0]) == d
  {
  }

  lemma StoreMore(d: seq<byte>, a: seq<byte>, b: seq<byte>)
    requires |a| + |b| <= |d|
    ensures Store(Store(d, 0, a), |a|, b) == Store(d, 0, a + b)
  {
  }

  method Memcpy(buf: array<byte>, at: nat, src: seq<byte>, from: nat, count: nat)
    requires at + count <= buf.Length && from + count <= |src|
    modifies buf
    ensures buf[..] == Store(old(buf[..]), at, src[from..from + count])
  {
    forall j | 0 <= j < count {
      buf[at + j] := src[from + j];
    }
  }

  /** The header read at record k. */
  lemma AtRecord(hash: NameHash, es: seq<Entry>, k: nat)
    requires Packable(es) && k <= |es|
    requires Size(Layout(es, 0)[..k]) < |Packed(hash, es)|
    ensures var d, ss := Packed(hash, es), Layout(es, 0);
            && k < |es|
            && Size(ss[..k + 1]) == Size(ss[..k]) + ss[k].length <= |d|
            && Get16(d, Size(ss[..k]) + 4) == ss[k].length >= 12
            && d[Size(ss[..k]) + 7] == |ss[k].entry.name|
  {
    hide Layout, Record, AlignUp;
    var d, ss := Packed(hash, es), Layout(es, 0);
    assert ss[..k] + ss[k..] == ss;
    Split(hash, ss[..k], ss[k..]);
    var head, rest := Bytes(hash, ss[..k]), Bytes(hash, ss[k..]);
    assert rest == Record(hash, ss[k]) + Bytes(hash, ss[k..][1..]);
    RecordFields(hash, ss[k], Bytes(hash, ss[k..][1..]));
    assert d[|head| + 4] == rest[4] && d[|head| + 5] == rest[5] && d[|head| + 7] == rest[7];
    assert ss[..k + 1] == ss[..k] + [ss[k]];
    Split(hash, ss[..k], [ss[k]]);
    assert [ss[k]][1..] == [];
  }

  /** The first record copied starts at the saved offset, not before it. */
  lemma SameBlock(pos: nat, reclen: nat, saved: nat)
    requires pos % 512 + reclen <= 512 && saved % 512 == 0
    ensures pos < saved ==> saved - pos >= reclen
  {
  }

  lemma NoRoom(written: nat, reclen: nat, room: nat, pos: nat, saved: nat)
    requires pos % 512 + reclen <= 512 && saved % 512 == 0 && room % 512 == 0
    requires pos == saved + written
    requires written <= room && written + reclen > room
    ensures written == room
  {
  }
}
