/** Looking a file up by name in an image as the ROMFS format lays it out. */
module RomfsLookup {
  import opened Types
  import opened Romfs
  import opened RomfsImage

  /** Of the non-empty files, number `i` is the last one of that name. */
  predicate LastFile(files: seq<File>, name: seq<Byte>, i: nat) {
    && i < |files| && HasName(files[i], name)
    && forall j :: i < j < |files| ==> !HasName(files[j], name)
  }

  predicate HasName(f: File, name: seq<Byte>) {
    f.data != [] && f.name == name
  }

  /** How far before the data the reader takes the data to be. */
  function Short(name: seq<Byte>): nat {
    if |name| % 16 == 0 then 16 else 0
  }

  /** What the walk sees of a packed image: every file at its own header, or nothing to report. */
  lemma PackedEntries(m: Image, volume: seq<Byte>, checksum: Word, files: seq<File>)
    requires Packed(m, volume, checksum, files)
    ensures Entries(m).Some? && Layout(files, Offsets(FirstOffset(volume), files))
    ensures |volume| % 16 != 0 ==> Entries(m).value == AllFound(m.base, files, Offsets(FirstOffset(volume), files))
    ensures |volume| % 16 == 0 ==> NonEmpty(Entries(m).value) == []
  {
    var offs := Offsets(FirstOffset(volume), files);
    VolumeRead(m, volume, checksum, files);
    FilesRead(m, volume, checksum, files);
    SeenOrPads(m, |volume|, FirstOffset(volume), AllFound(m.base, files, offs), offs);
  }

  lemma SeenOrPads(m: Image, n: nat, first: nat, found: seq<Entry>, offs: seq<nat>)
    requires m.base % 16 == 0 && NulAfter(m, m.base + 16, n) && first == 16 + UpAlign16(n + 1)
    requires n % 16 == 0 ==> var h := m.base + 16 + n; h + 16 <= End(m) && WordAt(m, h) == 0 && WordAt(m, h + 8) == 0
    requires AllSeen(m, found, offs) && found != [] && offs[0] == first
    ensures Entries(m).Some?
    ensures n % 16 != 0 ==> Entries(m).value == found
    ensures n % 16 == 0 ==> NonEmpty(Entries(m).value) == []
  {
    ChainSeenAll(m, m.base + first, found, offs);
    StartsOrPads(m, n, first, found);
  }

  lemma StartsOrPads(m: Image, n: nat, first: nat, found: seq<Entry>)
    requires m.base % 16 == 0 && NulAfter(m, m.base + 16, n) && first == 16 + UpAlign16(n + 1)
    requires n % 16 == 0 ==> var h := m.base + 16 + n; h + 16 <= End(m) && WordAt(m, h) == 0 && WordAt(m, h + 8) == 0
    requires Walks(m, m.base + first, found)
    ensures Entries(m).Some?
    ensures n % 16 != 0 ==> Entries(m).value == found
    ensures n % 16 == 0 ==> NonEmpty(Entries(m).value) == []
  {
    if n % 16 != 0 {
      StartsAt(m, n, m.base + first);
    } else {
      var h := m.base + 16 + n;
      FirstAfterPadding(n);
      assert h + 16 == m.base + first;
      StartsAt(m, n, h);
      PaddingWalked(m, h);
    }
  }

  /** The entry carries name and size of the file, and the data is found but for the shortfall. */
  ghost predicate Reads(m: Image, e: Entry, f: File) {
    NameOf(m, e) == f.name && e.size == |f.data| && BytesAt(m, e.data + Short(f.name), e.size) == f.data
  }

  ghost predicate ReadsAll(m: Image, entries: seq<Entry>, files: seq<File>) {
    |entries| == |files| && forall i {:trigger entries[i]} :: 0 <= i < |files| ==> Reads(m, entries[i], files[i])
  }

  lemma FoundFile(m: Image, off: nat, f: File, next: nat)
    requires FileAt(m, off, f, next)
    ensures Reads(m, Found(m.base, off, f), f)
  {
    NameLength(|f.name|);
    assert Found(m.base, off, f).data + Short(f.name) == Stored(m.base, off, f).data;
  }

  lemma NameLength(n: nat)
    ensures UpAlign16(n + 1) == UpAlign16(n) + if n % 16 == 0 then 16 else 0
  {
  }

  lemma FoundFiles(m: Image, files: seq<File>, offs: seq<nat>)
    requires Layout(files, offs) && FilesAt(m, files, offs)
    ensures ReadsAll(m, AllFound(m.base, files, offs), files)
  {
    var found := AllFound(m.base, files, offs);
    forall i | 0 <= i < |files| ensures Reads(m, found[i], files[i]) {
      assert FileAt(m, offs[i], files[i], RomfsImage.Next(offs, i));
      FoundFile(m, offs[i], files[i], RomfsImage.Next(offs, i));
    }
  }

  lemma SameName(m: Image, entries: seq<Entry>, files: seq<File>, name: seq<Byte>, i: nat)
    requires ReadsAll(m, entries, files) && i < |files|
    ensures Named(m, entries[i], name) <==> HasName(files[i], name)
  {
    assert Reads(m, entries[i], files[i]);
  }

  lemma SameLast(m: Image, entries: seq<Entry>, files: seq<File>, name: seq<Byte>, i: nat)
    requires ReadsAll(m, entries, files) && LastFile(files, name, i)
    ensures LastNamed(m, entries, name, i)
  {
    forall j | i <= j < |files| ensures Named(m, entries[j], name) <==> HasName(files[j], name) {
      SameName(m, entries, files, name, j);
    }
  }

  lemma SameAnswer(m: Image, entries: seq<Entry>, files: seq<File>, name: seq<Byte>)
    requires ReadsAll(m, entries, files)
    ensures AnyNamed(m, entries, name) <==> IsThere(files, name)
  {
    if i: nat :| i < |entries| && Named(m, entries[i], name) {
      SameName(m, entries, files, name, i);
    }
    if i: nat :| i < |files| && HasName(files[i], name) {
      SameName(m, entries, files, name, i);
    }
  }

  /** What a lookup in these entries that does as `FileFind` promises comes to in terms of the files. */
  lemma LookupGives(m: Image, entries: seq<Entry>, files: seq<File>, name: seq<Byte>, base: Option<nat>, len: Word)
    requires ReadsAll(m, entries, files)
    requires GivesLast(m, entries, name, base, len)
    ensures forall i: nat :: LastFile(files, name, i) ==> GivesFile(m, base, len, files[i])
  {
    forall i: nat | LastFile(files, name, i) ensures GivesFile(m, base, len, files[i]) {
      SameLast(m, entries, files, name, i);
      assert Reads(m, entries[i], files[i]);
    }
  }

  /** Some non-empty file has the name. */
  ghost predicate IsThere(files: seq<File>, name: seq<Byte>) {
    exists i :: 0 <= i < |files| && HasName(files[i], name)
  }

  /** The length is the file's, and its data are so many bytes at the base but for the shortfall. */
  ghost predicate GivesFile(m: Image, base: Option<nat>, len: Word, f: File) {
    base.Some? && len == |f.data| && BytesAt(m, base.value + Short(f.name), len) == f.data
  }

  /**
   `romfs_file_find` on every packed image. It succeeds if and only if the volume name's length is no multiple of 16
   and some non-empty file has the name. The length is then that of the last such file, and the base the address of its
   data, or 16 bytes before it if the name's length is a multiple of 16.
   */
  method FindPacked(cpu: Endian, m: Image, name: seq<Byte>, ghost volume: seq<Byte>, ghost checksum: Word,
                    ghost files: seq<File>)
    returns (result: int, base: Option<nat>, len: Word)
    requires Packed(m, volume, checksum, files)
    ensures result == 0 <==> |volume| % 16 != 0 && IsThere(files, name)
    ensures result == 0 ==> forall i: nat :: LastFile(files, name, i) ==> GivesFile(m, base, len, files[i])
    ensures result != 0 ==> result == -1 && base == None && len == 0
  {
    PackedEntries(m, volume, checksum, files);
    result, base, len := FileFind(cpu, m, name);
    PackedGives(m, volume, checksum, files, name, base, len);
  }

  lemma PackedGives(m: Image, volume: seq<Byte>, checksum: Word, files: seq<File>, name: seq<Byte>, base: Option<nat>,
                    len: Word)
    requires Packed(m, volume, checksum, files) && Entries(m).Some?
    requires GivesLast(m, Entries(m).value, name, base, len)
    ensures AnyNamed(m, Entries(m).value, name) <==> |volume| % 16 != 0 && IsThere(files, name)
    ensures |volume| % 16 != 0 ==> forall i: nat :: LastFile(files, name, i) ==> GivesFile(m, base, len, files[i])
  {
    PackedAnswer(m, volume, checksum, files, name);
    if |volume| % 16 != 0 {
      LookupGives(m, Entries(m).value, files, name, base, len);
    }
  }

  lemma PackedAnswer(m: Image, volume: seq<Byte>, checksum: Word, files: seq<File>, name: seq<Byte>)
    requires Packed(m, volume, checksum, files) && Entries(m).Some?
    ensures AnyNamed(m, Entries(m).value, name) <==> |volume| % 16 != 0 && IsThere(files, name)
    ensures |volume| % 16 != 0 ==> ReadsAll(m, Entries(m).value, files)
  {
    PackedEntries(m, volume, checksum, files);
    NonEmptySizes(Entries(m).value);
    if |volume| % 16 != 0 {
      ImageRead(m, volume, checksum, files);
      FoundFiles(m, files, Offsets(FirstOffset(volume), files));
      SameAnswer(m, Entries(m).value, files, name);
    }
  }

  /** And whenever some non-empty file has the name, there is a last one. */
  lemma {:induction false} LastIsThere(files: seq<File>, name: seq<Byte>)
    requires IsThere(files, name)
    ensures exists i: nat :: LastFile(files, name, i)
  {
    var i: nat :| i < |files| && HasName(files[i], name);
    LastFrom(files, name, i);
  }

  lemma {:induction false} LastFrom(files: seq<File>, name: seq<Byte>, i: nat)
    requires i < |files| && HasName(files[i], name)
    ensures exists k: nat :: LastFile(files, name, k)
    decreases |files| - i
  {
    if !LastFile(files, name, i) {
      var j :| i < j < |files| && HasName(files[j], name);
      LastFrom(files, name, j);
    }
  }
}
