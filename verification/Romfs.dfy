/**
 The ROMFS reader: a chain of file headers inside an image, walked by masked big-endian offsets.
 Addresses are absolute, because the source aligns absolute addresses.
 */
module Romfs {
  import opened Types

  const WORD: nat := 0x1_0000_0000

  type Word = n: nat | n < 0x1_0000_0000

  /** An image of bytes at an address. */
  datatype Image = Image(base: nat, bytes: seq<Byte>)

  function End(m: Image): nat {
    m.base + |m.bytes|
  }

  function Get(m: Image, a: nat): Byte
    requires m.base <= a < End(m)
  {
    m.bytes[a - m.base]
  }

  /** `UPALIGN_16B`: clearing the low four bits is subtracting the remainder by 16. */
  function UpAlign16(n: nat): (r: nat)
    ensures n <= r < n + 16 && r % 16 == 0
  {
    if n - n % 16 == n then n else n - n % 16 + 16
  }

  // ---------------------------------------------------------------------------------------------
  // Big-endian words

  /** What `test_byte[0]` tells: which byte of a word comes first in memory. */
  datatype Endian = Little | Big

  /** The CPU's own load of a 32-bit word. */
  function Load32(cpu: Endian, b0: Byte, b1: Byte, b2: Byte, b3: Byte): Word {
    match cpu
    case Little => b0 + 0x100 * b1 + 0x1_0000 * b2 + 0x100_0000 * b3
    case Big => b3 + 0x100 * b2 + 0x1_0000 * b1 + 0x100_0000 * b0
  }

  /** Byte `i` of a word, counted from the low end: `(n >> 8*i) & 0xff`. */
  function ByteOf(n: Word, i: nat): Byte
    requires i < 4
  {
    match i
    case 0 => n % 0x100
    case 1 => n / 0x100 % 0x100
    case 2 => n / 0x1_0000 % 0x100
    case _ => n / 0x100_0000 % 0x100
  }

  /** `be32`: on a little-endian CPU the four masked shifts move byte 3 to 0, 1 to 2, 2 to 1 and 0 to 3. */
  function Be32(cpu: Endian, n: Word): Word {
    match cpu
    case Little => ByteOf(n, 3) + 0x1_0000 * ByteOf(n, 1) + 0x100 * ByteOf(n, 2) + 0x100_0000 * ByteOf(n, 0)
    case Big => n
  }

  lemma LittleBytes(b0: Byte, b1: Byte, b2: Byte, b3: Byte)
    ensures var n := Load32(Little, b0, b1, b2, b3);
            ByteOf(n, 0) == b0 && ByteOf(n, 1) == b1 && ByteOf(n, 2) == b2 && ByteOf(n, 3) == b3
  {
    var n := Load32(Little, b0, b1, b2, b3);
    assert n / 0x100 == b1 + 0x100 * b2 + 0x1_0000 * b3;
    assert n / 0x1_0000 == b2 + 0x100 * b3;
    assert n / 0x100_0000 == b3;
  }

  /** On either kind of CPU, loading and converting reads the four bytes as a big-endian number. */
  lemma Be32ReadsBigEndian(cpu: Endian, b0: Byte, b1: Byte, b2: Byte, b3: Byte)
    ensures Be32(cpu, Load32(cpu, b0, b1, b2, b3)) == 0x100_0000 * b0 + 0x1_0000 * b1 + 0x100 * b2 + b3
  {
    LittleBytes(b0, b1, b2, b3);
  }

  /** The big-endian word at an address. */
  function WordAt(m: Image, a: nat): Word
    requires m.base <= a && a + 4 <= End(m)
  {
    0x100_0000 * Get(m, a) + 0x1_0000 * Get(m, a + 1) + 0x100 * Get(m, a + 2) + Get(m, a + 3)
  }

  method LoadBe32(cpu: Endian, m: Image, a: nat) returns (w: Word)
    requires m.base <= a && a + 4 <= End(m)
    ensures w == WordAt(m, a)
  {
    w := Be32(cpu, Load32(cpu, Get(m, a), Get(m, a + 1), Get(m, a + 2), Get(m, a + 3)));
    Be32ReadsBigEndian(cpu, Get(m, a), Get(m, a + 1), Get(m, a + 2), Get(m, a + 3));
  }

  // ---------------------------------------------------------------------------------------------
  // The chain of headers

  /** One header as the walk sees it: where it is, its name, its data as computed, and its size. */
  datatype Entry = Entry(header: nat, name: nat, data: nat, size: Word)

  /** The first NUL at or after `a`, if there is one in the image. */
  function NulFrom(m: Image, a: nat): (r: Option<nat>)
    ensures r.Some? ==> a <= r.value < End(m)
    decreases End(m) - a
  {
    if a < m.base || a >= End(m) then None
    else if Get(m, a) == 0 then Some(a)
    else NulFrom(m, a + 1)
  }

  /** The bytes before the first NUL. */
  function CString(m: Image, a: nat): seq<Byte> {
    var e := NulFrom(m, a);
    if a >= m.base && e.Some? then m.bytes[a - m.base..e.value - m.base] else []
  }

  function EntryAt(m: Image, h: nat, end: nat): Entry
    requires m.base <= h && h + 16 <= End(m)
  {
    Entry(h, h + 16, UpAlign16(end), WordAt(m, h + 8))
  }

  /** The next-header offset with its low four bits masked off. */
  function NextOffset(m: Image, h: nat): nat
    requires m.base <= h && h + 16 <= End(m)
  {
    var w := WordAt(m, h);
    w - w % 16
  }

  /**
   All entries from header `h` on; none if the walk would leave the image or come to a header it has passed,
   where the source would read foreign memory or loop for ever.
   */
  function Chain(m: Image, h: nat): (r: Option<seq<Entry>>)
    ensures r.Some? ==> r.value != [] && r.value[0].header == h
    decreases End(m) - h
  {
    if h < m.base || h + 16 > End(m) then None else
      var end := NulFrom(m, h + 16);
      if end.None? then None else
        var entry, next := EntryAt(m, h, end.value), NextOffset(m, h);
        if next == 0 then Some([entry])
        else if m.base + next <= h then None
        else
          var rest := Chain(m, m.base + next);
          if rest.None? then None else Some([entry] + rest.value)
  }

  /** All entries of the image. */
  function Entries(m: Image): Option<seq<Entry>> {
    var end := NulFrom(m, m.base + 16);
    if end.None? then None else Chain(m, UpAlign16(end.value))
  }

  /** The entries that the iteration reports: those with a size. */
  function NonEmpty(entries: seq<Entry>): seq<Entry> {
    if entries == [] then []
    else NonEmpty(entries[..|entries| - 1])
         + if entries[|entries| - 1].size != 0 then [entries[|entries| - 1]] else []
  }

  /** The walk visits headers at ever higher addresses, so each header once. */
  lemma {:induction false} HeadersIncrease(m: Image, h: nat, i: nat, j: nat)
    requires Chain(m, h).Some? && i < j < |Chain(m, h).value|
    ensures Chain(m, h).value[i].header < Chain(m, h).value[j].header
    ensures h <= Chain(m, h).value[i].header
    decreases j
  {
    var rest := Chain(m, m.base + NextOffset(m, h)).value;
    assert Chain(m, h).value[1..] == rest;
    assert Chain(m, h).value[j] == rest[j - 1];
    if i > 0 {
      HeadersIncrease(m, m.base + NextOffset(m, h), i - 1, j - 1);
    } else if j > 1 {
      HeadersIncrease(m, m.base + NextOffset(m, h), 0, j - 1);
    }
  }

  /** The loops that step over a string. */
  method SkipString(m: Image, a: nat) returns (end: nat)
    requires NulFrom(m, a).Some?
    ensures NulFrom(m, a) == Some(end)
  {
    end := a;
    ghost var nul := NulFrom(m, a).value;
    while Get(m, end) != 0
      invariant m.base <= end <= nul && NulFrom(m, end) == Some(nul)
      decreases nul - end
    {
      end := end + 1;
    }
  }

  /** The walk from header `h` meets exactly these entries. */
  ghost predicate Walks(m: Image, h: nat, entries: seq<Entry>) {
    Chain(m, h) == Some(entries)
  }

  /** What a walk that does not stray has before it at header `h`. */
  lemma ChainStep(m: Image, h: nat, entries: seq<Entry>)
    requires Walks(m, h, entries)
    ensures m.base <= h && h + 16 <= End(m) && NulFrom(m, h + 16).Some? && entries != []
    ensures entries[0] == EntryAt(m, h, NulFrom(m, h + 16).value)
    ensures NextOffset(m, h) == 0 ==> entries[1..] == []
    ensures NextOffset(m, h) != 0 ==> m.base + NextOffset(m, h) > h && Walks(m, m.base + NextOffset(m, h), entries[1..])
  {
  }

  lemma NonEmptySnoc(entries: seq<Entry>, e: Entry)
    ensures NonEmpty(entries + [e]) == NonEmpty(entries) + if e.size != 0 then [e] else []
  {
    assert (entries + [e])[..|entries|] == entries;
  }

  /** The fields of one header and the end of its name. */
  method ReadHeader(cpu: Endian, m: Image, h: nat) returns (entry: Entry, nextOff: nat)
    requires m.base <= h && h + 16 <= End(m) && NulFrom(m, h + 16).Some?
    ensures entry == EntryAt(m, h, NulFrom(m, h + 16).value) && nextOff == NextOffset(m, h)
  {
    var size := LoadBe32(cpu, m, h + 8);
    var next := LoadBe32(cpu, m, h);
    nextOff := next - next % 16;
    var endName := SkipString(m, h + 16);
    entry := Entry(h, h + 16, UpAlign16(endName), size);
  }

  lemma Regroup(a: seq<Entry>, b: seq<Entry>)
    requires b != []
    ensures a + b == (a + [b[0]]) + b[1..]
  {
  }

  /** `romfs_iterate_files`; the result is the list of calls that it makes to its callback. */
  method IterateFiles(cpu: Endian, m: Image) returns (calls: seq<Entry>)
    requires Entries(m).Some?
    ensures calls == NonEmpty(Entries(m).value)
  {
    var endHdr := SkipString(m, m.base + 16);
    var fhdr := UpAlign16(endHdr);
    var done := false;
    ghost var seen: seq<Entry> := [];
    ghost var rest := Entries(m).value;
    calls := [];
    assert seen + rest == Entries(m).value;
    while !done
      invariant seen + rest == Entries(m).value
      invariant if done then rest == [] else Walks(m, fhdr, rest)
      invariant calls == NonEmpty(seen)
      decreases !done, End(m) - fhdr
    {
      ChainStep(m, fhdr, rest);
      var entry, nextOff := ReadHeader(cpu, m, fhdr);
      NonEmptySnoc(seen, entry);
      Regroup(seen, rest);
      seen, rest := seen + [entry], rest[1..];
      if entry.size != 0 {
        calls := calls + [entry];
      }
      if nextOff == 0 {
        done := true;
      } else {
        fhdr := m.base + nextOff;
      }
    }
    assert seen + [] == seen;
  }

  // ---------------------------------------------------------------------------------------------
  // Lookup

  /** The helper struct of the lookup, and the callback that fills it. */
  class FileFinder {
    const name: seq<Byte>
    var base: Option<nat>
    var len: Word

    constructor (name: seq<Byte>)
      ensures this.name == name && base == None && len == 0
    {
      this.name := name;
      base, len := None, 0;
    }

    method Visit(entryName: seq<Byte>, entryBase: nat, length: Word)
      modifies this
      ensures base == if entryName == name then Some(entryBase) else old(base)
      ensures len == if entryName == name then length else old(len)
    {
      if entryName == name {
        base, len := Some(entryBase), length;
      }
    }
  }

  /** The name that a header carries. */
  function NameOf(m: Image, e: Entry): seq<Byte> {
    CString(m, e.name)
  }

  /** The entry is reported under this name. */
  predicate Named(m: Image, e: Entry, name: seq<Byte>) {
    e.size != 0 && NameOf(m, e) == name
  }

  /** Some entry is. */
  ghost predicate AnyNamed(m: Image, entries: seq<Entry>, name: seq<Byte>) {
    exists i :: 0 <= i < |entries| && Named(m, entries[i], name)
  }

  /** Of these entries, number `i` is the last one reported under the name. */
  predicate LastNamed(m: Image, entries: seq<Entry>, name: seq<Byte>, i: nat) {
    && i < |entries| && Named(m, entries[i], name)
    && forall j :: i < j < |entries| ==> !Named(m, entries[j], name)
  }

  /** Base and length are those of the last entry reported under the name. */
  ghost predicate GivesLast(m: Image, entries: seq<Entry>, name: seq<Byte>, base: Option<nat>, len: Word) {
    forall i: nat :: LastNamed(m, entries, name, i) ==> base == Some(entries[i].data) && len == entries[i].size
  }

  /**
   `romfs_file_find`: succeeds exactly if some non-empty file has the name, and then gives base and length of the last
   such file.
   */
  method FileFind(cpu: Endian, m: Image, name: seq<Byte>) returns (result: int, base: Option<nat>, len: Word)
    requires Entries(m).Some?
    ensures result == 0 <==> AnyNamed(m, Entries(m).value, name)
    ensures GivesLast(m, Entries(m).value, name, base, len)
    ensures result != 0 ==> result == -1 && base == None && len == 0
  {
    var calls := IterateFiles(cpu, m);
    ghost var entries := Entries(m).value;
    NonEmptySizes(entries);
    base, len := CallFinder(m, calls, name);
    forall i: nat | LastNamed(m, entries, name, i)
      ensures exists k: nat :: LastNamed(m, calls, name, k) && calls[k] == entries[i]
    {
      var k := LastReported(m, entries, name, i);
    }
    result := if len != 0 then 0 else -1;
  }

  /** The calls of the callback, one for each reported file. */
  method CallFinder(m: Image, calls: seq<Entry>, name: seq<Byte>) returns (base: Option<nat>, len: Word)
    requires forall i :: 0 <= i < |calls| ==> calls[i].size != 0
    ensures len == 0 <==> forall i :: 0 <= i < |calls| ==> !Named(m, calls[i], name)
    ensures len == 0 ==> base == None
    ensures forall k: nat :: LastNamed(m, calls, name, k) ==> base == Some(calls[k].data) && len == calls[k].size
  {
    var finder := new FileFinder(name);
    var k := 0;
    ghost var last: nat := 0;
    while k < |calls|
      invariant k <= |calls| && finder.name == name
      invariant finder.len == 0 ==> finder.base == None && forall j :: 0 <= j < k ==> !Named(m, calls[j], name)
      invariant finder.len != 0 ==>
        && LastNamed(m, calls[..k], name, last)
        && finder.base == Some(calls[last].data) && finder.len == calls[last].size
    {
      var entryName := NameOf(m, calls[k]);
      assert calls[..k + 1] == calls[..k] + [calls[k]];
      finder.Visit(entryName, calls[k].data, calls[k].size);
      if entryName == name {
        last := k;
      }
      k := k + 1;
    }
    assert calls[..|calls|] == calls;
    base, len := finder.base, finder.len;
  }

  lemma {:induction false} NonEmptySizes(entries: seq<Entry>)
    ensures forall i :: 0 <= i < |NonEmpty(entries)| ==> NonEmpty(entries)[i].size != 0
    ensures forall e :: e in NonEmpty(entries) <==> e in entries && e.size != 0
  {
    if entries != [] {
      NonEmptySizes(entries[..|entries| - 1]);
      assert entries == entries[..|entries| - 1] + [entries[|entries| - 1]];
    }
  }

  /** The last entry of a name is the last one of that name among the reported. */
  lemma {:induction false} LastReported(m: Image, entries: seq<Entry>, name: seq<Byte>, i: nat) returns (k: nat)
    requires LastNamed(m, entries, name, i)
    ensures LastNamed(m, NonEmpty(entries), name, k) && NonEmpty(entries)[k] == entries[i]
  {
    var n := |entries| - 1;
    var front := entries[..n];
    if i == n {
      k := |NonEmpty(front)|;
    } else {
      k := LastReported(m, front, name, i);
    }
  }
}
