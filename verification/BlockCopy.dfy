/**
 Copying kernel memory into an address space, block by block through its page map. Only the first byte of each
 block is translated, so the copy is right only where blocks do not straddle pages that are apart in memory.
 */
module BlockCopy {
  import opened Types

  const BLOCK: nat := 256

  /** A page map: the page frame of each mapped page. */
  datatype Paging = Paging(pageSize: nat, frames: map<nat, nat>)

  predicate Mapped(p: Paging, va: nat) {
    p.pageSize > 0 && va / p.pageSize in p.frames
  }

  /** The physical address of a virtual one; that of an unmapped one is never asked for. */
  function V2p(p: Paging, va: nat): nat {
    if Mapped(p, va) then p.frames[va / p.pageSize] * p.pageSize + va % p.pageSize else 0
  }

  /** The offset of the block that byte `i` is copied with. */
  function BlockOf(i: nat): (b: nat)
    ensures b <= i < b + BLOCK
  {
    i - i % BLOCK
  }

  /** Where the copy puts byte `i`. */
  function Target(p: Paging, va: nat, i: nat): nat {
    V2p(p, va + BlockOf(i)) + (i - BlockOf(i))
  }

  function Targets(p: Paging, va: nat, len: nat): (t: seq<nat>)
    ensures |t| == len && forall i :: 0 <= i < len ==> t[i] == Target(p, va, i)
  {
    seq(len, i requires 0 <= i < len => Target(p, va, i))
  }

  /** Where a byte by byte copy would put it. */
  function Addresses(p: Paging, va: nat, len: nat): (t: seq<nat>)
    ensures |t| == len && forall i :: 0 <= i < len ==> t[i] == V2p(p, va + i)
  {
    seq<nat>(len, i requires 0 <= i < len => V2p(p, va + i))
  }

  ghost predicate AllMapped(p: Paging, va: nat, len: nat) {
    forall a :: va <= a < va + len ==> Mapped(p, a)
  }

  /** The places are in memory, different from each other and outside the source. */
  ghost predicate Apart(places: seq<nat>, source: nat, size: nat) {
    && source + |places| <= size
    && (forall i :: 0 <= i < |places| ==> places[i] < size && !(source <= places[i] < source + |places|))
    && (forall i, j :: 0 <= i < j < |places| ==> places[i] != places[j])
  }

  /** The first `n` bytes are in their places, and nothing else in memory differs from `was`. */
  ghost predicate CopiedTo(places: seq<nat>, source: nat, n: nat, was: seq<Byte>, now: seq<Byte>) {
    && source + |places| <= |was| == |now| && n <= |places|
    && (forall i :: 0 <= i < n ==> places[i] < |now| && now[places[i]] == was[source + i])
    && (forall a :: 0 <= a < |was| && a !in places[..n] ==> now[a] == was[a])
  }

  // ---------------------------------------------------------------------------------------------
  // The code

  method Memcpy(mem: array<Byte>, dst: nat, src: nat, n: nat)
    requires dst + n <= mem.Length && src + n <= mem.Length
    requires dst + n <= src || src + n <= dst
    modifies mem
    ensures forall a :: 0 <= a < mem.Length ==>
                          mem[a] == if dst <= a < dst + n then old(mem[src + (a - dst)]) else old(mem[a])
  {
    for k := 0 to n
      invariant forall a :: 0 <= a < mem.Length ==>
                              mem[a] == if dst <= a < dst + k then old(mem[src + (a - dst)]) else old(mem[a])
    {
      mem[dst + k] := mem[src + k];
    }
  }

  /** `vmm_address_space_copy_in`, for any page map, alignment and length. */
  method CopyIn(mem: array<Byte>, p: Paging, source: nat, vadest: nat, length: nat)
    requires AllMapped(p, vadest, length) && Apart(Targets(p, vadest, length), source, mem.Length)
    modifies mem
    ensures CopiedTo(Targets(p, vadest, length), source, length, old(mem[..]), mem[..])
  {
    ghost var places := Targets(p, vadest, length);
    var src, va, len := source, vadest, length;
    var toCopy := if len < BLOCK then len else BLOCK;
    while len > 0
      invariant len <= length && src == source + (length - len) && va == vadest + (length - len)
      invariant toCopy == if len < BLOCK then len else BLOCK
      invariant len == 0 || BlockOf(length - len) == length - len
      invariant CopiedTo(places, source, length - len, old(mem[..]), mem[..])
    {
      ghost var done, before := length - len, mem[..];
      var dst := V2p(p, va);
      BlockTargets(p, vadest, length, done, toCopy);
      BlockFits(places, source, mem.Length, done, toCopy, dst);
      Memcpy(mem, dst, src, toCopy);
      CopyBlock(places, source, done, toCopy, dst, old(mem[..]), before, mem[..]);
      va := va + toCopy;
      src := src + toCopy;
      len := len - toCopy;
      toCopy := if len < BLOCK then len else BLOCK;
      NextBlock(done);
    }
  }

  lemma NextBlock(b: nat)
    requires BlockOf(b) == b
    ensures BlockOf(b + BLOCK) == b + BLOCK
  {
  }

  lemma InBlock(b: nat, j: nat)
    requires BlockOf(b) == b && j < BLOCK
    ensures BlockOf(b + j) == b
  {
  }

  /** `n` places from place `b` on follow each other in memory from `dst` on. */
  ghost predicate Run(places: seq<nat>, b: nat, n: nat, dst: nat) {
    b + n <= |places| && forall j :: b <= j < b + n ==> places[j] == dst + (j - b)
  }

  lemma BlockTargets(p: Paging, va: nat, len: nat, b: nat, n: nat)
    requires BlockOf(b) == b && n <= BLOCK && b + n <= len
    ensures Run(Targets(p, va, len), b, n, V2p(p, va + b))
  {
    forall j | b <= j < b + n
      ensures Target(p, va, j) == V2p(p, va + b) + (j - b)
    {
      InBlock(b, j - b);
    }
  }

  lemma RunAt(places: seq<nat>, b: nat, n: nat, dst: nat, a: nat)
    requires Run(places, b, n, dst)
    ensures dst <= a < dst + n ==> places[b + (a - dst)] == a && a in places[..b + n]
  {
    if dst <= a < dst + n {
      assert places[..b + n][b + (a - dst)] == places[b + (a - dst)];
    }
  }

  /** A block's source and destination do not overlap. */
  lemma BlockFits(places: seq<nat>, source: nat, size: nat, b: nat, n: nat, dst: nat)
    requires Apart(places, source, size) && n > 0 && Run(places, b, n, dst)
    ensures dst + n <= size && (dst + n <= source + b || source + b + n <= dst)
  {
    assert places[b] == dst && places[b + n - 1] == dst + n - 1;
    RunAt(places, b, n, dst, source + b);
  }

  lemma CopyBlock(places: seq<nat>, source: nat, b: nat, n: nat, dst: nat,
                  was: seq<Byte>, before: seq<Byte>, now: seq<Byte>)
    requires Apart(places, source, |was|) && n > 0 && Run(places, b, n, dst) && dst + n <= |was|
    requires CopiedTo(places, source, b, was, before) && |now| == |was|
    requires forall a {:trigger now[a]} :: 0 <= a < |was| ==>
                           now[a] == if dst <= a < dst + n then before[source + b + (a - dst)] else before[a]
    ensures CopiedTo(places, source, b + n, was, now)
  {
    forall i | 0 <= i < b + n
      ensures now[places[i]] == was[source + i]
    {
      if i < b {
        OutsideRun(places, b, n, dst, i);
        assert now[places[i]] == before[places[i]];
      } else {
        assert places[i] == dst + (i - b) && now[places[i]] == before[source + i];
        SourceIntact(places, source, b, i);
      }
    }
    forall a | 0 <= a < |was| && a !in places[..b + n]
      ensures now[a] == was[a]
    {
      RunAt(places, b, n, dst, a);
      assert places[..b + n][..b] == places[..b];
      assert a !in places[..b];
      assert before[a] == was[a];
      assert now[a] == before[a];
    }
  }

  lemma SourceIntact(places: seq<nat>, source: nat, b: nat, i: nat)
    requires b <= |places| && i < |places|
    requires forall k :: 0 <= k < |places| ==> !(source <= places[k] < source + |places|)
    ensures source + i !in places[..b]
  {
    forall k | 0 <= k < b
      ensures places[..b][k] != source + i
    {
      assert places[..b][k] == places[k];
    }
  }

  lemma OutsideRun(places: seq<nat>, b: nat, n: nat, dst: nat, i: nat)
    requires Run(places, b, n, dst) && i < b
    requires forall i, j :: 0 <= i < j < |places| ==> places[i] != places[j]
    ensures !(dst <= places[i] < dst + n)
  {
    RunAt(places, b, n, dst, places[i]);
  }

  // ---------------------------------------------------------------------------------------------
  // When the copy is right

  /** Different mapped pages have different frames. */
  ghost predicate Injective(p: Paging) {
    forall v, w :: v in p.frames && w in p.frames && p.frames[v] == p.frames[w] ==> v == w
  }

  /** A page starts at `va` inside a block, and its frame does not follow the frame of the page before. */
  predicate Torn(p: Paging, va: nat, i: nat)
    requires 0 < i && Mapped(p, va + i) && Mapped(p, va + i - 1)
  {
    i % BLOCK != 0 && (va + i) % p.pageSize == 0
    && p.frames[(va + i) / p.pageSize] != p.frames[(va + i - 1) / p.pageSize] + 1
  }

  lemma MulSign(m: int, d: int)
    requires m > 0
    ensures d >= 1 ==> m * d >= m
    ensures d <= -1 ==> m * d <= -m
  {
    if d >= 1 {
      assert m * (d - 1) >= 0;
    } else if d <= -1 {
      assert m * (-d - 1) >= 0;
      assert m * (-d - 1) == -(m * d) - m;
    }
  }

  lemma DivUnique(a: nat, m: nat, q: int, r: int)
    requires 0 <= r < m && a == m * q + r
    ensures a / m == q && a % m == r
  {
    var q', r' := a / m, a % m;
    assert a == m * q' + r';
    assert m * (q' - q) == m * q' - m * q;
    MulSign(m, q' - q);
  }

  lemma DivStep(a: nat, m: nat)
    requires m > 0
    ensures (a + 1) % m != 0 ==> (a + 1) / m == a / m && (a + 1) % m == a % m + 1
    ensures (a + 1) % m == 0 ==> (a + 1) / m == a / m + 1 && a % m == m - 1
  {
    var q, r := a / m, a % m;
    assert a == m * q + r;
    if r == m - 1 {
      assert m * (q + 1) == m * q + m;
      DivUnique(a + 1, m, q + 1, 0);
    } else {
      DivUnique(a + 1, m, q, r + 1);
    }
  }

  /** The next virtual byte is the next physical byte, unless a page starts there whose frame does not follow. */
  lemma V2pStep(p: Paging, va: nat)
    requires Mapped(p, va) && Mapped(p, va + 1)
    ensures V2p(p, va + 1) == V2p(p, va) + 1 <==>
              ((va + 1) % p.pageSize == 0 ==> p.frames[(va + 1) / p.pageSize] == p.frames[va / p.pageSize] + 1)
  {
    var m := p.pageSize;
    DivStep(va, m);
    if (va + 1) % m == 0 {
      SameFrame(p.frames[va / m], p.frames[(va + 1) / m], m);
    }
  }

  lemma SameFrame(f: nat, g: nat, m: nat)
    requires m > 0
    ensures g * m == f * m + (m - 1) + 1 <==> g == f + 1
  {
    assert m * (g - f - 1) == g * m - f * m - m;
    MulSign(m, g - f - 1);
  }

  lemma BlockStep(i: nat)
    ensures BlockOf(i + 1) == if (i + 1) % BLOCK == 0 then i + 1 else BlockOf(i)
  {
  }

  /** In a block the copy stays right from one byte to the next exactly if no tear lies between them. */
  lemma TargetStep(p: Paging, va: nat, i: nat)
    requires i > 0 && Mapped(p, va + i) && Mapped(p, va + i - 1)
    ensures Target(p, va, i - 1) == V2p(p, va + i - 1) ==>
              (Target(p, va, i) == V2p(p, va + i) <==> !Torn(p, va, i))
  {
    BlockStep(i - 1);
    V2pStep(p, va + i - 1);
  }

  lemma {:induction false} TargetsOfUntorn(p: Paging, va: nat, len: nat, i: nat)
    requires AllMapped(p, va, len) && i < len
    requires forall j :: 0 < j <= i ==> !Torn(p, va, j)
    ensures Target(p, va, i) == V2p(p, va + i)
  {
    if i > 0 {
      TargetsOfUntorn(p, va, len, i - 1);
      TargetStep(p, va, i);
    }
  }

  /** The copy puts every byte where its own virtual address is mapped exactly if no block is torn. */
  lemma TargetsExactly(p: Paging, va: nat, len: nat)
    requires AllMapped(p, va, len)
    ensures Targets(p, va, len) == Addresses(p, va, len) <==> forall i :: 0 < i < len ==> !Torn(p, va, i)
  {
    var targets, addresses := Targets(p, va, len), Addresses(p, va, len);
    if forall i :: 0 < i < len ==> !Torn(p, va, i) {
      forall i | 0 <= i < len ensures targets[i] == addresses[i] {
        TargetsOfUntorn(p, va, len, i);
      }
    }
    if targets == addresses {
      forall i | 0 < i < len ensures !Torn(p, va, i) {
        assert targets[i - 1] == addresses[i - 1] && targets[i] == addresses[i];
        TargetStep(p, va, i);
      }
    }
  }

  lemma SumMultiple(a: nat, b: nat, m: nat, k: nat)
    requires k > 0 && m > 0 && m % k == 0 && a % k == 0 && (a + b) % m == 0
    ensures b % k == 0
  {
    var q, r, s := (a + b) / m, m / k, a / k;
    assert a + b == m * q && m == k * r && a == k * s;
    assert (k * r) * q == k * (r * q);
    assert k * (r * q) - k * s == k * (r * q - s);
    DivUnique(b, k, r * q - s, 0);
  }

  /** With pages made of whole blocks and a block-aligned destination no block is torn. */
  lemma AlignedIsUntorn(p: Paging, va: nat, i: nat)
    requires 0 < i && Mapped(p, va + i) && Mapped(p, va + i - 1) && p.pageSize % BLOCK == 0 && va % BLOCK == 0
    ensures !Torn(p, va, i)
  {
    if (va + i) % p.pageSize == 0 {
      SumMultiple(va, i, p.pageSize, BLOCK);
    }
  }

  lemma V2pInjective(p: Paging, v: nat, w: nat)
    requires Injective(p) && Mapped(p, v) && Mapped(p, w)
    ensures V2p(p, v) == V2p(p, w) ==> v == w
  {
    var m := p.pageSize;
    DivUnique(V2p(p, v), m, p.frames[v / m], v % m);
    DivUnique(V2p(p, w), m, p.frames[w / m], w % m);
    assert v == m * (v / m) + v % m && w == m * (w / m) + w % m;
  }

  /**
   With an injective page map whose pages are made of whole blocks, a block-aligned destination and a source apart
   from it, the code may run, and it is the byte by byte copy: every virtual byte of the destination gets its
   source byte, and no other byte of memory changes.
   */
  lemma AlignedCopy(p: Paging, source: nat, va: nat, len: nat, size: nat)
    requires Injective(p) && p.pageSize > 0 && p.pageSize % BLOCK == 0 && va % BLOCK == 0
    requires AllMapped(p, va, len) && source + len <= size
    requires forall a :: va <= a < va + len ==> V2p(p, a) < size && !(source <= V2p(p, a) < source + len)
    ensures Targets(p, va, len) == Addresses(p, va, len)
    ensures Apart(Targets(p, va, len), source, size)
  {
    forall i | 0 < i < len ensures !Torn(p, va, i) {
      AlignedIsUntorn(p, va, i);
    }
    TargetsExactly(p, va, len);
    var places := Addresses(p, va, len);
    forall i, j | 0 <= i < j < len ensures places[i] != places[j] {
      V2pInjective(p, va + i, va + j);
    }
  }

  /** Not so in general: here the second of two bytes goes to the byte after the first page, not to the second page. */
  lemma UnalignedCopyStrays()
    ensures var p := Paging(4096, map[0 := 0, 1 := 5]);
            AllMapped(p, 4095, 2) && Target(p, 4095, 1) == 4096 && V2p(p, 4095 + 1) == 20480
  {
  }
}
