/**
 Images as the ROMFS format lays them out, and what the reader makes of them.

 The reader finds a file's data by aligning the address of the NUL that ends the name. The format pads the name
 with its NUL to 16 bytes, so the two agree unless the name's length is a multiple of 16; the same goes for the
 volume name and the first header.
 */
module RomfsImage {
  import opened Types
  import opened Romfs

  datatype File = File(name: seq<Byte>, attr: nat, spec: Word, checksum: Word, data: seq<Byte>)

  predicate NulFree(s: seq<Byte>) {
    forall i :: 0 <= i < |s| ==> s[i] != 0
  }

  function WordBytes(n: Word): (s: seq<Byte>)
    ensures |s| == 4
  {
    [n / 0x100_0000, n / 0x1_0000 % 0x100, n / 0x100 % 0x100, n % 0x100]
  }

  function Zeros(n: nat): (s: seq<Byte>)
    ensures |s| == n && forall i :: 0 <= i < n ==> s[i] == 0
  {
    seq(n, _ => 0)
  }

  /** A string with its NUL, padded to 16 bytes. */
  function Field(s: seq<Byte>): (r: seq<Byte>)
    ensures |r| == UpAlign16(|s| + 1)
  {
    s + Zeros(UpAlign16(|s| + 1) - |s|)
  }

  function Padded(d: seq<Byte>): (r: seq<Byte>)
    ensures |r| == UpAlign16(|d|)
  {
    d + Zeros(UpAlign16(|d|) - |d|)
  }

  function FileSize(f: File): (n: nat)
    ensures n % 16 == 0
  {
    SumAligned(16, UpAlign16(|f.name| + 1));
    SumAligned(16 + UpAlign16(|f.name| + 1), UpAlign16(|f.data|));
    16 + UpAlign16(|f.name| + 1) + UpAlign16(|f.data|)
  }

  predicate ValidFile(f: File) {
    NulFree(f.name) && f.attr < 16 && |f.data| < WORD
  }

  /** A place for a header that a next-header word can point to, or 0. */
  predicate Place16(n: nat) {
    n % 16 == 0 && n + 16 <= WORD
  }

  /** One file: next-header offset and attributes, three more words, name, data. */
  function FileBytes(f: File, next: nat): (s: seq<Byte>)
    requires ValidFile(f) && Place16(next)
    ensures |s| == FileSize(f)
  {
    WordBytes(next + f.attr) + WordBytes(f.spec) + WordBytes(|f.data|) + WordBytes(f.checksum)
    + Field(f.name) + Padded(f.data)
  }

  /** Where each file starts, and where the last one ends. */
  function Offsets(first: nat, files: seq<File>): (offs: seq<nat>)
    ensures |offs| == |files| + 1 && offs[0] == first
    ensures forall i {:trigger files[i]} :: 0 <= i < |files| ==> offs[i + 1] == offs[i] + FileSize(files[i])
    decreases |files|
  {
    if files == [] then [first] else [first] + Offsets(first + FileSize(files[0]), files[1..])
  }

  ghost predicate Layout(files: seq<File>, offs: seq<nat>) {
    && |offs| == |files| + 1
    && (forall i :: 0 <= i < |files| ==> ValidFile(files[i]))
    && (forall i, j :: 0 <= i < j < |offs| ==> offs[i] < offs[j])
    && (forall i :: 0 <= i < |offs| ==> Place16(offs[i]))
  }

  /** The next-header offset of file `i`: 0 in the last header. */
  function Next(offs: seq<nat>, i: nat): nat
    requires i + 1 < |offs|
  {
    if i + 2 == |offs| then 0 else offs[i + 1]
  }

  /** The files from number `k` on. */
  function PackFiles(files: seq<File>, offs: seq<nat>, k: nat): seq<Byte>
    requires Layout(files, offs) && k <= |files|
    decreases |files| - k
  {
    if k == |files| then [] else FileBytes(files[k], Next(offs, k)) + PackFiles(files, offs, k + 1)
  }

  const MAGIC: seq<Byte> := [0x2d, 0x72, 0x6f, 0x6d, 0x31, 0x66, 0x73, 0x2d]

  function FirstOffset(volume: seq<Byte>): (n: nat)
    ensures n % 16 == 0
  {
    16 + UpAlign16(|volume| + 1)
  }

  function Superblock(volume: seq<Byte>, size: Word, checksum: Word): seq<Byte> {
    MAGIC + WordBytes(size) + WordBytes(checksum) + Field(volume)
  }

  /** The image must be shorter than 2^32 bytes. */
  ghost predicate Packable(volume: seq<Byte>, files: seq<File>) {
    && NulFree(volume) && files != []
    && (forall i :: 0 <= i < |files| ==> ValidFile(files[i]))
    && Offsets(FirstOffset(volume), files)[|files|] < WORD
  }

  /** The superblock, then the files. */
  function Pack(volume: seq<Byte>, checksum: Word, files: seq<File>): seq<Byte>
    requires Packable(volume, files)
  {
    var offs := Offsets(FirstOffset(volume), files);
    OffsetsAreLayout(FirstOffset(volume), files);
    Superblock(volume, offs[|files|], checksum) + PackFiles(files, offs, 0)
  }

  /** The image holds just these files. */
  ghost predicate Packed(m: Image, volume: seq<Byte>, checksum: Word, files: seq<File>) {
    m.base % 16 == 0 && Packable(volume, files) && m.bytes == Pack(volume, checksum, files)
  }

  lemma {:induction false} OffsetsAligned(first: nat, files: seq<File>)
    requires first % 16 == 0
    ensures var offs := Offsets(first, files);
            && (forall i :: 0 <= i < |offs| ==> first <= offs[i] && offs[i] % 16 == 0)
            && (forall i, j :: 0 <= i < j < |offs| ==> offs[i] < offs[j])
    decreases |files|
  {
    if files != [] {
      var second := first + FileSize(files[0]);
      SumAligned(first, FileSize(files[0]));
      OffsetsAligned(second, files[1..]);
      assert Offsets(first, files) == [first] + Offsets(second, files[1..]);
      assert second > first;
    }
  }

  lemma SumAligned(a: nat, b: nat)
    requires a % 16 == 0 && b % 16 == 0
    ensures (a + b) % 16 == 0
  {
  }

  lemma OffsetsAreLayout(first: nat, files: seq<File>)
    requires first % 16 == 0 && Offsets(first, files)[|files|] < WORD
    requires forall i :: 0 <= i < |files| ==> ValidFile(files[i])
    ensures Layout(files, Offsets(first, files))
  {
    OffsetsAligned(first, files);
    var offs := Offsets(first, files);
    forall i | 0 <= i < |offs|
      ensures Place16(offs[i])
    {
      AlignedBelow(offs[i]);
    }
  }

  lemma AlignedBelow(n: nat)
    requires n % 16 == 0 && n < WORD
    ensures Place16(n)
  {
  }

  // ---------------------------------------------------------------------------------------------
  // Reading pieces of an image

  /** The bytes `s` lie at offset `off` of the image. */
  ghost predicate At(m: Image, off: nat, s: seq<Byte>) {
    off + |s| <= |m.bytes| && m.bytes[off..off + |s|] == s
  }

  lemma AtSplit(m: Image, off: nat, a: seq<Byte>, b: seq<Byte>)
    requires At(m, off, a + b)
    ensures At(m, off, a) && At(m, off + |a|, b)
  {
    var s := m.bytes[off..off + |a + b|];
    assert m.bytes[off..off + |a|] == s[..|a|] == a;
    assert m.bytes[off + |a|..off + |a| + |b|] == s[|a|..] == b;
  }

  function BigEndian(s: seq<Byte>): int
    requires |s| == 4
  {
    0x100_0000 * (s[0] as int) + 0x1_0000 * (s[1] as int) + 0x100 * (s[2] as int) + s[3]
  }

  /** The four bytes of a word, read as the reader does, give the word back. */
  lemma WordSplit(n: Word)
    ensures BigEndian(WordBytes(n)) == n
  {
    assert n / 0x100 / 0x100 == n / 0x1_0000;
    assert n / 0x1_0000 / 0x100 == n / 0x100_0000;
  }

  lemma WordRead(m: Image, off: nat, n: Word)
    requires At(m, off, WordBytes(n))
    ensures WordAt(m, m.base + off) == n
  {
    WordSplit(n);
    var s := m.bytes[off..off + 4];
    assert BigEndian(s) == n;
    assert s[0] == m.bytes[off] && s[1] == m.bytes[off + 1] && s[2] == m.bytes[off + 2] && s[3] == m.bytes[off + 3];
  }

  lemma {:induction false} StringRead(m: Image, off: nat, s: seq<Byte>)
    requires NulFree(s) && At(m, off, s + [0])
    ensures NulFrom(m, m.base + off) == Some(m.base + off + |s|)
    decreases |s|
  {
    var t := m.bytes[off..off + |s| + 1];
    assert t == s + [0];
    assert Get(m, m.base + off) == t[0];
    if s == [] {
      assert t[0] == 0;
    } else {
      assert t[0] == s[0] != 0;
      assert s + [0] == [s[0]] + (s[1..] + [0]);
      AtSplit(m, off, [s[0]], s[1..] + [0]);
      StringRead(m, off + 1, s[1..]);
    }
  }

  /** The string at `a` has `n` bytes before its NUL. */
  ghost predicate NulAfter(m: Image, a: nat, n: nat) {
    NulFrom(m, a) == Some(a + n)
  }

  lemma FieldRead(m: Image, off: nat, s: seq<Byte>)
    requires NulFree(s) && At(m, off, Field(s))
    ensures NulAfter(m, m.base + off, |s|)
    ensures CString(m, m.base + off) == s
  {
    var n := UpAlign16(|s| + 1) - |s|;
    assert Field(s) == (s + [0]) + Zeros(n - 1);
    AtSplit(m, off, s + [0], Zeros(n - 1));
    StringRead(m, off, s);
    AtSplit(m, off, s, [0]);
  }

  lemma UpAlignShift(base: nat, n: nat)
    requires base % 16 == 0
    ensures UpAlign16(base + n) == base + UpAlign16(n)
  {
    assert (base + n) % 16 == n % 16;
  }

  /** Aligning the end of a string meets the end of its field, except when its length is a multiple of 16. */
  lemma FieldEnd(n: nat)
    ensures UpAlign16(n) == UpAlign16(n + 1) <==> n % 16 != 0
  {
  }

  lemma LowBits(next: nat, attr: nat)
    requires next % 16 == 0 && attr < 16
    ensures (next + attr) - (next + attr) % 16 == next
  {
  }

  // ---------------------------------------------------------------------------------------------
  // One file, then all

  /** The entry of a file packed at `off`: where its data is. */
  function Stored(base: nat, off: nat, f: File): Entry
    requires ValidFile(f)
  {
    Entry(base + off, base + off + 16, base + off + 16 + UpAlign16(|f.name| + 1), |f.data|)
  }

  /** The entry that the reader makes of it: where it takes the data to be. */
  function Found(base: nat, off: nat, f: File): Entry
    requires ValidFile(f)
  {
    Entry(base + off, base + off + 16, base + off + 16 + UpAlign16(|f.name|), |f.data|)
  }

  ghost function AllStored(base: nat, files: seq<File>, offs: seq<nat>): (s: seq<Entry>)
    requires Layout(files, offs)
    ensures |s| == |files| && forall i {:trigger s[i]} :: 0 <= i < |files| ==> s[i] == Stored(base, offs[i], files[i])
  {
    seq(|files|, i requires 0 <= i < |files| && Layout(files, offs) => Stored(base, offs[i], files[i]))
  }

  ghost function AllFound(base: nat, files: seq<File>, offs: seq<nat>): (s: seq<Entry>)
    requires Layout(files, offs)
    ensures |s| == |files| && forall i {:trigger s[i]} :: 0 <= i < |files| ==> s[i] == Found(base, offs[i], files[i])
  {
    seq(|files|, i requires 0 <= i < |files| && Layout(files, offs) => Found(base, offs[i], files[i]))
  }

  /** The `n` bytes at an address. */
  function BytesAt(m: Image, a: nat, n: nat): seq<Byte> {
    if m.base <= a && a + n <= End(m) then m.bytes[a - m.base..a - m.base + n] else []
  }

  function DataOf(m: Image, e: Entry): seq<Byte> {
    BytesAt(m, e.data, e.size)
  }

  /** What the walk sees at the header of entry `e`; the next header is at offset `next`. */
  ghost predicate Seen(m: Image, e: Entry, next: nat) {
    && m.base <= e.header && e.header + 16 <= End(m) && NextOffset(m, e.header) == next
    && NulFrom(m, e.header + 16).Some? && EntryAt(m, e.header, NulFrom(m, e.header + 16).value) == e
  }

  /** File `f` can be read at offset `off`: the walk makes its entry there, and name and data are as stored. */
  ghost predicate FileAt(m: Image, off: nat, f: File, next: nat) {
    && ValidFile(f) && Seen(m, Found(m.base, off, f), next)
    && NameOf(m, Stored(m.base, off, f)) == f.name && DataOf(m, Stored(m.base, off, f)) == f.data
  }

  lemma SplitFile(m: Image, off: nat, w0: seq<Byte>, w1: seq<Byte>, w2: seq<Byte>, w3: seq<Byte>,
                  name: seq<Byte>, data: seq<Byte>)
    requires |w0| == |w1| == |w2| == |w3| == 4
    requires At(m, off, w0 + w1 + w2 + w3 + name + data)
    ensures At(m, off, w0) && At(m, off + 8, w2) && At(m, off + 16, name) && At(m, off + 16 + |name|, data)
  {
    AtSplit(m, off, w0 + w1 + w2 + w3 + name, data);
    AtSplit(m, off, w0 + w1 + w2 + w3, name);
    AtSplit(m, off, w0 + w1 + w2, w3);
    AtSplit(m, off, w0 + w1, w2);
    AtSplit(m, off, w0, w1);
  }

  /** The parts of a file in the image that the reader uses. */
  ghost predicate PartsAt(m: Image, off: nat, f: File, next: nat) {
    && ValidFile(f) && Place16(next)
    && At(m, off, WordBytes(next + f.attr)) && At(m, off + 8, WordBytes(|f.data|))
    && At(m, off + 16, Field(f.name)) && At(m, off + 16 + UpAlign16(|f.name| + 1), f.data)
  }

  lemma FileParts(m: Image, off: nat, f: File, next: nat)
    requires ValidFile(f) && Place16(next) && At(m, off, FileBytes(f, next))
    ensures PartsAt(m, off, f, next)
  {
    var name, data := Field(f.name), Padded(f.data);
    SplitFile(m, off, WordBytes(next + f.attr), WordBytes(f.spec), WordBytes(|f.data|), WordBytes(f.checksum),
              name, data);
    AtSplit(m, off + 16 + |name|, f.data, Zeros(|data| - |f.data|));
  }

  lemma PartsSeen(m: Image, off: nat, f: File, next: nat)
    requires m.base % 16 == 0 && off % 16 == 0 && PartsAt(m, off, f, next)
    ensures Seen(m, Found(m.base, off, f), next)
  {
    PartsHeader(m, off, f, next);
    FieldRead(m, off + 16, f.name);
    EntryRead(m, off, f);
    SeenFrom(m, m.base + off, |f.name|, Found(m.base, off, f), next);
  }

  lemma SeenFrom(m: Image, h: nat, n: nat, e: Entry, next: nat)
    requires m.base <= h && h + 16 <= End(m) && NextOffset(m, h) == next && NulAfter(m, h + 16, n)
    requires EntryAt(m, h, h + 16 + n) == e && e.header == h
    ensures Seen(m, e, next)
  {
  }

  lemma PartsHeader(m: Image, off: nat, f: File, next: nat)
    requires PartsAt(m, off, f, next)
    ensures off + 16 <= |m.bytes| && NextOffset(m, m.base + off) == next && WordAt(m, m.base + off + 8) == |f.data|
  {
    OffsetRead(m, off, f.attr, next);
    WordRead(m, off + 8, |f.data|);
  }

  lemma PartsRead(m: Image, off: nat, f: File, next: nat)
    requires PartsAt(m, off, f, next)
    ensures NameOf(m, Stored(m.base, off, f)) == f.name && DataOf(m, Stored(m.base, off, f)) == f.data
  {
    FieldRead(m, off + 16, f.name);
    DataRead(m, off, f);
  }

  lemma FileBytesAt(m: Image, off: nat, f: File, next: nat)
    requires m.base % 16 == 0 && off % 16 == 0
    requires ValidFile(f) && Place16(next) && At(m, off, FileBytes(f, next))
    ensures FileAt(m, off, f, next)
  {
    FileParts(m, off, f, next);
    PartsSeen(m, off, f, next);
    PartsRead(m, off, f, next);
  }

  lemma OffsetRead(m: Image, off: nat, attr: nat, next: nat)
    requires attr < 16 && Place16(next) && At(m, off, WordBytes(next + attr)) && off + 16 <= |m.bytes|
    ensures NextOffset(m, m.base + off) == next
  {
    WordRead(m, off, next + attr);
    LowBits(next, attr);
  }

  lemma EntryRead(m: Image, off: nat, f: File)
    requires m.base % 16 == 0 && off % 16 == 0 && ValidFile(f) && off + 16 <= |m.bytes|
    requires WordAt(m, m.base + off + 8) == |f.data|
    ensures EntryAt(m, m.base + off, m.base + off + 16 + |f.name|) == Found(m.base, off, f)
  {
    SumAligned(m.base, off);
    SumAligned(m.base + off, 16);
    UpAlignShift(m.base + off + 16, |f.name|);
  }

  lemma DataRead(m: Image, off: nat, f: File)
    requires ValidFile(f) && At(m, off + 16 + UpAlign16(|f.name| + 1), f.data)
    ensures DataOf(m, Stored(m.base, off, f)) == f.data
  {
  }

  ghost predicate FilesAt(m: Image, files: seq<File>, offs: seq<nat>) {
    && |offs| == |files| + 1
    && forall i {:trigger files[i]} :: 0 <= i < |files| ==> FileAt(m, offs[i], files[i], Next(offs, i))
  }

  lemma {:induction false} PackedFileAt(m: Image, files: seq<File>, offs: seq<nat>, k: nat, i: nat)
    requires m.base % 16 == 0 && Layout(files, offs) && k <= i < |files| && At(m, offs[k], PackFiles(files, offs, k))
    requires forall i {:trigger files[i]} :: 0 <= i < |files| ==> offs[i + 1] == offs[i] + FileSize(files[i])
    ensures FileAt(m, offs[i], files[i], Next(offs, i))
    decreases i - k
  {
    var file, rest := FileBytes(files[k], Next(offs, k)), PackFiles(files, offs, k + 1);
    AtSplit(m, offs[k], file, rest);
    if k == i {
      Placed(files, offs, i);
      FileBytesAt(m, offs[i], files[i], Next(offs, i));
    } else {
      assert offs[k + 1] == offs[k] + |file|;
      PackedFileAt(m, files, offs, k + 1, i);
    }
  }

  lemma Placed(files: seq<File>, offs: seq<nat>, i: nat)
    requires Layout(files, offs) && i < |files|
    ensures ValidFile(files[i]) && Place16(offs[i]) && Place16(Next(offs, i))
  {
    assert Place16(offs[i + 1]);
  }

  lemma PackedFilesAt(m: Image, files: seq<File>, offs: seq<nat>)
    requires m.base % 16 == 0 && Layout(files, offs) && At(m, offs[0], PackFiles(files, offs, 0))
    requires forall i {:trigger files[i]} :: 0 <= i < |files| ==> offs[i + 1] == offs[i] + FileSize(files[i])
    ensures FilesAt(m, files, offs)
  {
    forall i | 0 <= i < |files|
      ensures FileAt(m, offs[i], files[i], Next(offs, i))
    {
      PackedFileAt(m, files, offs, 0, i);
    }
  }

  lemma ChainEnds(m: Image, h: nat, e: Entry)
    requires Seen(m, e, 0) && e.header == h
    ensures Walks(m, h, [e])
  {
  }

  lemma ChainGoesOn(m: Image, h: nat, e: Entry, next: nat, rest: seq<Entry>)
    requires Seen(m, e, next) && next != 0 && m.base + next > e.header == h && Walks(m, m.base + next, rest)
    ensures Walks(m, h, [e] + rest)
  {
  }

  /** The walk sees each entry at its header, and from there the next one. */
  ghost predicate AllSeen(m: Image, entries: seq<Entry>, offs: seq<nat>) {
    && |offs| == |entries| + 1
    && forall i {:trigger entries[i]} :: 0 <= i < |entries| ==>
         offs[i] < offs[i + 1] && entries[i].header == m.base + offs[i] && Seen(m, entries[i], Next(offs, i))
  }

  lemma {:induction false} ChainSeen(m: Image, entries: seq<Entry>, offs: seq<nat>, i: nat)
    requires AllSeen(m, entries, offs) && i < |entries|
    ensures Walks(m, m.base + offs[i], entries[i..])
    decreases |entries| - i
  {
    var e := entries[i];
    assert Seen(m, e, Next(offs, i)) && offs[i] < offs[i + 1] && e.header == m.base + offs[i];
    if i + 1 == |entries| {
      assert entries[i..] == [e];
      ChainEnds(m, m.base + offs[i], e);
    } else {
      assert entries[i..] == [e] + entries[i + 1..];
      ChainSeen(m, entries, offs, i + 1);
      ChainGoesOn(m, m.base + offs[i], e, offs[i + 1], entries[i + 1..]);
    }
  }

  lemma ChainSeenAll(m: Image, h: nat, entries: seq<Entry>, offs: seq<nat>)
    requires AllSeen(m, entries, offs) && entries != [] && h == m.base + offs[0]
    ensures Walks(m, h, entries)
  {
    ChainSeen(m, entries, offs, 0);
    assert entries[0..] == entries;
  }

  lemma FoundSeen(m: Image, files: seq<File>, offs: seq<nat>)
    requires Layout(files, offs) && FilesAt(m, files, offs)
    ensures AllSeen(m, AllFound(m.base, files, offs), offs)
  {
    var all := AllFound(m.base, files, offs);
    forall i | 0 <= i < |files|
      ensures Seen(m, all[i], Next(offs, i))
    {
      assert FileAt(m, offs[i], files[i], Next(offs, i));
    }
  }

  // ---------------------------------------------------------------------------------------------
  // What the iteration reports

  /** The reader finds every non-empty file's data: no such file has a name whose length is a multiple of 16. */
  predicate GoodNames(files: seq<File>) {
    forall i :: 0 <= i < |files| && files[i].data != [] ==> |files[i].name| % 16 != 0
  }

  predicate AllEmpty(files: seq<File>) {
    forall i :: 0 <= i < |files| ==> files[i].data == []
  }

  ghost predicate SameSizes(a: seq<Entry>, b: seq<Entry>) {
    |a| == |b| && forall i :: 0 <= i < |a| ==> a[i].size == b[i].size
  }

  ghost predicate Agree(a: seq<Entry>, b: seq<Entry>, n: nat)
    requires n <= |a| && n <= |b|
  {
    forall i :: 0 <= i < n && a[i].size != 0 ==> a[i] == b[i]
  }

  /** Dropping the empty entries of two lists of equal sizes gives the same list exactly if the rest agree. */
  lemma {:induction false} NonEmptyAgree(a: seq<Entry>, b: seq<Entry>)
    requires SameSizes(a, b)
    ensures |NonEmpty(a)| == |NonEmpty(b)|
    ensures NonEmpty(a) == NonEmpty(b) <==> Agree(a, b, |a|)
    ensures NonEmpty(b) == [] <==> forall i :: 0 <= i < |b| ==> b[i].size == 0
  {
    if a != [] {
      var n := |a| - 1;
      NonEmptyAgree(a[..n], b[..n]);
      assert Agree(a, b, |a|) <==> Agree(a[..n], b[..n], n) && (a[n].size != 0 ==> a[n] == b[n]) by {
        forall i | 0 <= i < n ensures a[..n][i] == a[i] && b[..n][i] == b[i] {
        }
      }
      assert (forall i :: 0 <= i < |b| ==> b[i].size == 0)
        <==> (forall i :: 0 <= i < n ==> b[..n][i].size == 0) && b[n].size == 0 by {
        forall i | 0 <= i < n ensures b[..n][i] == b[i] {
        }
      }
      if a[n].size != 0 {
        SnocInjective(NonEmpty(a[..n]), a[n], NonEmpty(b[..n]), b[n]);
      } else {
        assert NonEmpty(a) == NonEmpty(a[..n]) && NonEmpty(b) == NonEmpty(b[..n]);
      }
    }
  }

  lemma SnocInjective(s: seq<Entry>, a: Entry, t: seq<Entry>, b: Entry)
    ensures s + [a] == t + [b] <==> s == t && a == b
  {
    if s + [a] == t + [b] {
      assert (s + [a])[..|s|] == s && (t + [b])[..|t|] == t;
      assert (s + [a])[|s|] == a && (t + [b])[|t|] == b;
    }
  }

  lemma FoundIsStored(base: nat, files: seq<File>, offs: seq<nat>)
    requires Layout(files, offs)
    ensures NonEmpty(AllFound(base, files, offs)) == NonEmpty(AllStored(base, files, offs)) <==> GoodNames(files)
    ensures NonEmpty(AllStored(base, files, offs)) == [] <==> AllEmpty(files)
    ensures AllEmpty(files) ==> GoodNames(files)
  {
    var found, stored := AllFound(base, files, offs), AllStored(base, files, offs);
    NonEmptyAgree(found, stored);
    forall i | 0 <= i < |files|
      ensures found[i] == stored[i] <==> |files[i].name| % 16 != 0
      ensures stored[i].size == 0 <==> files[i].data == []
    {
      FieldEnd(|files[i].name|);
    }
  }

  /** The whole image read: the volume name's end, and the files where the format puts them. */
  lemma ImageRead(m: Image, volume: seq<Byte>, checksum: Word, files: seq<File>)
    requires Packed(m, volume, checksum, files)
    ensures At(m, 16, Field(volume))
    ensures Layout(files, Offsets(FirstOffset(volume), files))
    ensures FilesAt(m, files, Offsets(FirstOffset(volume), files))
  {
    var offs := Offsets(FirstOffset(volume), files);
    OffsetsAreLayout(FirstOffset(volume), files);
    SplitImage(m, MAGIC, WordBytes(offs[|files|]), WordBytes(checksum), Field(volume), PackFiles(files, offs, 0));
    PackedFilesAt(m, files, offs);
  }

  lemma SplitImage(m: Image, magic: seq<Byte>, size: seq<Byte>, sum: seq<Byte>, volume: seq<Byte>, body: seq<Byte>)
    requires |magic| == 8 && |size| == |sum| == 4 && m.bytes == magic + size + sum + volume + body
    ensures At(m, 16, volume) && At(m, 16 + |volume|, body)
  {
    AtSplit(m, 0, magic + size + sum + volume, body);
    AtSplit(m, 0, magic + size + sum, volume);
  }

  /** The walk starts at the first file exactly if the volume name's length is not a multiple of 16. */
  lemma StartsAt(m: Image, n: nat, first: nat)
    requires m.base % 16 == 0 && NulAfter(m, m.base + 16, n)
    requires n % 16 != 0 ==> first == m.base + (16 + UpAlign16(n + 1))
    requires n % 16 == 0 ==> first == m.base + 16 + n
    ensures Entries(m) == Chain(m, first)
  {
    FirstHeader(m.base, n);
  }

  lemma FirstHeader(base: nat, n: nat)
    requires base % 16 == 0
    ensures n % 16 != 0 ==> UpAlign16(base + 16 + n) == base + (16 + UpAlign16(n + 1))
    ensures n % 16 == 0 ==> UpAlign16(base + 16 + n) == base + 16 + n
  {
    SumAligned(base, 16);
    UpAlignShift(base + 16, n);
    FieldEnd(n);
  }

  lemma {:induction false} NulEarlier(m: Image, a: nat, b: nat)
    requires m.base <= a <= b && NulFrom(m, b).Some?
    ensures NulFrom(m, a).Some?
    decreases b - a
  {
    if a < b {
      NulEarlier(m, a + 1, b);
    }
  }

  lemma ZeroHeader(m: Image, off: nat)
    requires At(m, off, Zeros(16))
    ensures WordAt(m, m.base + off) == 0 && WordAt(m, m.base + off + 8) == 0
  {
    assert Zeros(16) == WordBytes(0) + Zeros(4) + WordBytes(0) + Zeros(4) + [] + [];
    SplitFile(m, off, WordBytes(0), Zeros(4), WordBytes(0), Zeros(4), [], []);
    WordRead(m, off, 0);
    WordRead(m, off + 8, 0);
  }

  lemma PaddingRead(m: Image, volume: seq<Byte>)
    requires At(m, 16, Field(volume))
    ensures var h := m.base + 16 + |volume|;
            |volume| % 16 == 0 ==> h + 16 <= End(m) && WordAt(m, h) == 0 && WordAt(m, h + 8) == 0
  {
    if |volume| % 16 == 0 {
      assert Field(volume) == volume + Zeros(16);
      AtSplit(m, 16, volume, Zeros(16));
      ZeroHeader(m, 16 + |volume|);
    }
  }

  /** With such a volume name the reader takes the 16 bytes of padding for the first and last header. */
  lemma EmptyChain(m: Image, h: nat)
    requires m.base <= h && h + 16 <= End(m) && NulFrom(m, h + 16).Some?
    requires WordAt(m, h) == 0 && WordAt(m, h + 8) == 0
    ensures Chain(m, h).Some? && NonEmpty(Chain(m, h).value) == []
  {
    var e := EntryAt(m, h, NulFrom(m, h + 16).value);
    assert NextOffset(m, h) == 0;
    ChainEnds(m, h, e);
    assert [e] == [] + [e];
    NonEmptySnoc([], e);
  }

  lemma PaddingWalked(m: Image, h: nat)
    requires m.base <= h && h + 16 <= End(m) && WordAt(m, h) == 0 && WordAt(m, h + 8) == 0
    requires Chain(m, h + 16).Some?
    ensures Chain(m, h).Some? && NonEmpty(Chain(m, h).value) == []
  {
    ChainStep(m, h + 16, Chain(m, h + 16).value);
    NulEarlier(m, h + 16, h + 16 + 16);
    EmptyChain(m, h);
  }

  lemma VolumeRead(m: Image, volume: seq<Byte>, checksum: Word, files: seq<File>)
    requires Packed(m, volume, checksum, files)
    ensures NulAfter(m, m.base + 16, |volume|)
    ensures var h := m.base + 16 + |volume|;
            |volume| % 16 == 0 ==> h + 16 <= End(m) && WordAt(m, h) == 0 && WordAt(m, h + 8) == 0
  {
    ImageRead(m, volume, checksum, files);
    FieldRead(m, 16, volume);
    PaddingRead(m, volume);
  }

  lemma FilesRead(m: Image, volume: seq<Byte>, checksum: Word, files: seq<File>)
    requires Packed(m, volume, checksum, files)
    ensures Layout(files, Offsets(FirstOffset(volume), files))
    ensures var offs := Offsets(FirstOffset(volume), files); AllSeen(m, AllFound(m.base, files, offs), offs)
  {
    ImageRead(m, volume, checksum, files);
    FoundSeen(m, files, Offsets(FirstOffset(volume), files));
  }

  /**
   On any packed image the walk ends inside the image. It reports every non-empty file at the address where its
   data is stored, in order and once each, if and only if no length that matters is a multiple of 16: neither
   the volume name's nor any non-empty file's name's (or if there is no non-empty file).
   */
  lemma IterationReportsFiles(m: Image, volume: seq<Byte>, checksum: Word, files: seq<File>)
    requires Packed(m, volume, checksum, files)
    ensures Entries(m).Some? && Layout(files, Offsets(FirstOffset(volume), files))
    ensures NonEmpty(Entries(m).value) == NonEmpty(AllStored(m.base, files, Offsets(FirstOffset(volume), files)))
            <==> (|volume| % 16 != 0 && GoodNames(files)) || AllEmpty(files)
  {
    VolumeRead(m, volume, checksum, files);
    FilesRead(m, volume, checksum, files);
    Reported(m, |volume|, files, FirstOffset(volume), Offsets(FirstOffset(volume), files));
  }

  lemma Reported(m: Image, n: nat, files: seq<File>, first: nat, offs: seq<nat>)
    requires m.base % 16 == 0 && NulAfter(m, m.base + 16, n) && first == 16 + UpAlign16(n + 1)
    requires n % 16 == 0 ==> var h := m.base + 16 + n; h + 16 <= End(m) && WordAt(m, h) == 0 && WordAt(m, h + 8) == 0
    requires files != [] && Layout(files, offs) && offs[0] == first && AllSeen(m, AllFound(m.base, files, offs), offs)
    ensures Entries(m).Some?
    ensures NonEmpty(Entries(m).value) == NonEmpty(AllStored(m.base, files, offs))
            <==> (n % 16 != 0 && GoodNames(files)) || AllEmpty(files)
  {
    var good, empty := GoodNames(files), AllEmpty(files);
    var found, stored := AllFound(m.base, files, offs), AllStored(m.base, files, offs);
    FoundIsStored(m.base, files, offs);
    ChainSeenAll(m, m.base + first, found, offs);
    Outcome(m, n, first, found, stored, good, empty);
  }

  lemma Outcome(m: Image, n: nat, first: nat, found: seq<Entry>, stored: seq<Entry>, good: bool, empty: bool)
    requires m.base % 16 == 0 && NulAfter(m, m.base + 16, n) && first == 16 + UpAlign16(n + 1)
    requires n % 16 == 0 ==> var h := m.base + 16 + n; h + 16 <= End(m) && WordAt(m, h) == 0 && WordAt(m, h + 8) == 0
    requires Walks(m, m.base + first, found)
    requires NonEmpty(found) == NonEmpty(stored) <==> good
    requires (NonEmpty(stored) == [] <==> empty) && (empty ==> good)
    ensures Entries(m).Some?
    ensures NonEmpty(Entries(m).value) == NonEmpty(stored) <==> (n % 16 != 0 && good) || empty
  {
    var h := m.base + 16 + n;
    if n % 16 != 0 {
      StartsAt(m, n, m.base + first);
    } else {
      FirstAfterPadding(n);
      assert h + 16 == m.base + first;
      StartsAt(m, n, h);
      PaddingWalked(m, h);
    }
  }

  lemma FirstAfterPadding(n: nat)
    requires n % 16 == 0
    ensures UpAlign16(n + 1) == n + 16
  {
  }

  // ---------------------------------------------------------------------------------------------
  // Names and contents

  /** Name and content of each reported file, read from the image. */
  function Contents(m: Image, calls: seq<Entry>): seq<(seq<Byte>, seq<Byte>)> {
    seq(|calls|, i requires 0 <= i < |calls| => (NameOf(m, calls[i]), DataOf(m, calls[i])))
  }

  function NonEmptyFiles(files: seq<File>): seq<(seq<Byte>, seq<Byte>)> {
    if files == [] then [] else
      var f := files[|files| - 1];
      NonEmptyFiles(files[..|files| - 1]) + if f.data != [] then [(f.name, f.data)] else []
  }

  lemma {:induction false} StoredContents(m: Image, entries: seq<Entry>, files: seq<File>)
    requires |entries| == |files|
    requires forall i :: 0 <= i < |files| ==> entries[i].size == |files[i].data|
    requires forall i :: 0 <= i < |files| ==> NameOf(m, entries[i]) == files[i].name
    requires forall i :: 0 <= i < |files| ==> DataOf(m, entries[i]) == files[i].data
    ensures Contents(m, NonEmpty(entries)) == NonEmptyFiles(files)
  {
    if files != [] {
      var n := |files| - 1;
      StoredContents(m, entries[..n], files[..n]);
      ContentsSnoc(m, NonEmpty(entries[..n]), entries[n]);
    }
  }

  lemma ContentsSnoc(m: Image, calls: seq<Entry>, e: Entry)
    ensures Contents(m, calls + [e]) == Contents(m, calls) + [(NameOf(m, e), DataOf(m, e))]
  {
  }

  /**
   Round trip: packing files and iterating gives back the non-empty files' names and contents, in order, once each.
   */
  lemma RoundTrip(m: Image, volume: seq<Byte>, checksum: Word, files: seq<File>)
    requires Packed(m, volume, checksum, files)
    requires |volume| % 16 != 0 && GoodNames(files)
    ensures Entries(m).Some? && Contents(m, NonEmpty(Entries(m).value)) == NonEmptyFiles(files)
  {
    IterationReportsFiles(m, volume, checksum, files);
    ImageRead(m, volume, checksum, files);
    AllContents(m, files, Offsets(FirstOffset(volume), files));
  }

  lemma AllContents(m: Image, files: seq<File>, offs: seq<nat>)
    requires Layout(files, offs) && FilesAt(m, files, offs)
    ensures Contents(m, NonEmpty(AllStored(m.base, files, offs))) == NonEmptyFiles(files)
  {
    var stored := AllStored(m.base, files, offs);
    forall i | 0 <= i < |files|
      ensures NameOf(m, stored[i]) == files[i].name && DataOf(m, stored[i]) == files[i].data
    {
      assert FileAt(m, offs[i], files[i], Next(offs, i));
    }
    StoredContents(m, stored, files);
  }
}
