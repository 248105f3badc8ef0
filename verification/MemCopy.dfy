/**
 Copying and filling memory by words (memcpy.c).

 Memory is an array of bytes, of which the first has address base; pointers are indices, so
 source and destination may overlap in any way.
 */
module MemCopy {

  /** sizeof(word). */
  const WSIZE: nat := 4

  /** What copying n bytes leaves: the destination has the original bytes of the source, and
      nothing else has changed. */
  function Copied(was: seq<int>, dst: nat, src: nat, n: nat): (r: seq<int>)
    requires dst + n <= |was| && src + n <= |was|
    ensures |r| == |was|
  {
    was[..dst] + was[src..src + n] + was[dst + n..]
  }

  lemma CopiedAt(was: seq<int>, dst: nat, src: nat, n: nat, i: nat)
    requires dst + n <= |was| && src + n <= |was| && i < |was|
    ensures Copied(was, dst, src, n)[i] == was[if dst <= i < dst + n then src + (i - dst) else i]
  {
  }

  /** Bytes lo to hi of the copy have arrived. */
  ghost predicate Arrived(mem: array<int>, was: seq<int>, dst: nat, src: nat, lo: nat, hi: nat)
    requires mem.Length == |was| && dst + hi <= |was| && src + hi <= |was|
    reads mem
  {
    forall i :: 0 <= i < mem.Length ==> mem[i] == was[if dst + lo <= i < dst + hi then src + (i - dst) else i]
  }

  /** Copy one byte, or one word at aligned addresses, as a single step. */
  method CopyByte(mem: array<int>, d: nat, s: nat)
    requires d < mem.Length && s < mem.Length
    modifies mem
    ensures mem[..] == old(mem[..])[d := old(mem[s])]
  {
    mem[d] := mem[s];
  }

  method CopyWord(mem: array<int>, base: nat, d: nat, s: nat)
    requires d + WSIZE <= mem.Length && s + WSIZE <= mem.Length
    requires (base + d) % WSIZE == 0 && (base + s) % WSIZE == 0
    modifies mem
    ensures forall i :: 0 <= i < mem.Length ==> mem[i] == old(mem[if d <= i < d + WSIZE then s + (i - d) else i])
  {
    var w := mem[s..s + WSIZE];
    mem[d], mem[d + 1], mem[d + 2], mem[d + 3] := w[0], w[1], w[2], w[3];
  }

  method BytesForward(mem: array<int>, dst: nat, src: nat, done: nat, t: nat, ghost was: seq<int>)
    requires mem.Length == |was| && dst + done + t <= |was| && src + done + t <= |was| && dst < src
    requires Arrived(mem, was, dst, src, 0, done)
    modifies mem
    ensures Arrived(mem, was, dst, src, 0, done + t)
  {
    var k := 0;
    while k < t
      invariant k <= t && Arrived(mem, was, dst, src, 0, done + k)
    {
      CopyByte(mem, dst + done + k, src + done + k);
      k := k + 1;
    }
  }

  method WordsForward(mem: array<int>, base: nat, dst: nat, src: nat, done: nat, t: nat, ghost was: seq<int>)
    requires mem.Length == |was| && dst + done + WSIZE * t <= |was| && src + done + WSIZE * t <= |was| && dst < src
    requires t > 0 ==> (base + dst + done) % WSIZE == 0 && (base + src + done) % WSIZE == 0
    requires Arrived(mem, was, dst, src, 0, done)
    modifies mem
    ensures Arrived(mem, was, dst, src, 0, done + WSIZE * t)
  {
    var k := 0;
    while k < t
      invariant k <= t && Arrived(mem, was, dst, src, 0, done + WSIZE * k)
    {
      var at := done + WSIZE * k;
      CopyWord(mem, base, dst + at, src + at);
      k := k + 1;
    }
  }

  method BytesBackward(mem: array<int>, dst: nat, src: nat, left: nat, n: nat, t: nat, ghost was: seq<int>)
    requires mem.Length == |was| && t <= left <= n && dst + n <= |was| && src + n <= |was| && src < dst
    requires Arrived(mem, was, dst, src, left, n)
    modifies mem
    ensures Arrived(mem, was, dst, src, left - t, n)
  {
    var k := 0;
    while k < t
      invariant k <= t && Arrived(mem, was, dst, src, left - k, n)
    {
      CopyByte(mem, dst + left - k - 1, src + left - k - 1);
      k := k + 1;
    }
  }

  method WordBackward(mem: array<int>, base: nat, dst: nat, src: nat, at: nat, n: nat, ghost was: seq<int>)
    requires mem.Length == |was| && at + WSIZE <= n && dst + n <= |was| && src + n <= |was| && src < dst
    requires (base + dst + at) % WSIZE == 0 && (base + src + at) % WSIZE == 0
    requires Arrived(mem, was, dst, src, at + WSIZE, n)
    modifies mem
    ensures Arrived(mem, was, dst, src, at, n)
  {
    CopyWord(mem, base, dst + at, src + at);
  }

  method WordsBackward(mem: array<int>, base: nat, dst: nat, src: nat, left: nat, n: nat, t: nat, ghost was: seq<int>)
    requires mem.Length == |was| && WSIZE * t <= left <= n && dst + n <= |was| && src + n <= |was| && src < dst
    requires t > 0 ==> (base + dst + left) % WSIZE == 0 && (base + src + left) % WSIZE == 0
    requires Arrived(mem, was, dst, src, left, n)
    modifies mem
    ensures Arrived(mem, was, dst, src, left - WSIZE * t, n)
  {
    var k := 0;
    while k < t
      invariant k <= t && Arrived(mem, was, dst, src, left - WSIZE * k, n)
    {
      WordBackward(mem, base, dst, src, left - WSIZE * k - WSIZE, n, was);
      k := k + 1;
    }
  }

  /** How many bytes to move one by one before whole words can be: all of them if the two can
      never be aligned together, or there are few. */
  function Lead(d: nat, s: nat, length: nat): nat {
    if s % WSIZE == 0 && d % WSIZE == 0 then 0
    else if s % WSIZE != d % WSIZE || length < WSIZE then length
    else WSIZE - s % WSIZE
  }

  /** The same from the other end. */
  function Trail(d: nat, s: nat, length: nat): nat {
    if s % WSIZE == 0 && d % WSIZE == 0 then 0
    else if s % WSIZE != d % WSIZE || length <= WSIZE then length
    else s % WSIZE
  }

  method CopyForward(mem: array<int>, base: nat, dst: nat, src: nat, n: nat)
    requires dst + n <= mem.Length && src + n <= mem.Length && dst < src
    modifies mem
    ensures Arrived(mem, old(mem[..]), dst, src, 0, n)
  {
    ghost var was := mem[..];
    var t := Lead(base + dst, base + src, n);
    BytesForward(mem, dst, src, 0, t, was);
    var length := n - t;
    WordsForward(mem, base, dst, src, t, length / WSIZE, was);
    BytesForward(mem, dst, src, t + WSIZE * (length / WSIZE), length % WSIZE, was);
  }

  method CopyBackward(mem: array<int>, base: nat, dst: nat, src: nat, n: nat)
    requires dst + n <= mem.Length && src + n <= mem.Length && src < dst
    modifies mem
    ensures Arrived(mem, old(mem[..]), dst, src, 0, n)
  {
    ghost var was := mem[..];
    var t := Trail(base + dst + n, base + src + n, n);
    BytesBackward(mem, dst, src, n, n, t, was);
    var length := n - t;
    WordsBackward(mem, base, dst, src, length, n, length / WSIZE, was);
    BytesBackward(mem, dst, src, length - WSIZE * (length / WSIZE), n, length % WSIZE, was);
  }

  /** For every length, alignment and overlap. */
  method Memcpy(mem: array<int>, base: nat, dst: nat, src: nat, n: nat)
    requires dst + n <= mem.Length && src + n <= mem.Length
    modifies mem
    ensures mem[..] == Copied(old(mem[..]), dst, src, n)
  {
    ghost var was := mem[..];
    if n != 0 && dst != src {
      if dst < src {
        CopyForward(mem, base, dst, src, n);
      } else {
        CopyBackward(mem, base, dst, src, n);
      }
    }
    assert Arrived(mem, was, dst, src, 0, n);
    forall i | 0 <= i < mem.Length ensures mem[i] == Copied(was, dst, src, n)[i] {
      CopiedAt(was, dst, src, n, i);
    }
  }

  // ---------- filling ----------

  /** The value a byte gets from an int. */
  function AsByte(c: int): (b: int)
    ensures 0 <= b < 256
  {
    c % 256
  }

  /** n bytes from d on are b, and nothing else has changed. */
  function Filled(was: seq<int>, d: nat, n: nat, b: int): (r: seq<int>)
    requires d + n <= |was|
    ensures |r| == |was|
  {
    was[..d] + seq(n, i => b) + was[d + n..]
  }

  /** Only bytes of the region have changed, and only to b. */
  ghost predicate Partly(mem: array<int>, was: seq<int>, d: nat, n: nat, b: int)
    reads mem
  {
    && mem.Length == |was| && d + n <= |was|
    && forall i :: 0 <= i < mem.Length ==> mem[i] == was[i] || (d <= i < d + n && mem[i] == b)
  }

  /** Head and tail first, then whole words in between. */
  method Memset(mem: array<int>, base: nat, d: nat, c: int, n: nat)
    requires d + n <= mem.Length
    modifies mem
    ensures mem[..] == Filled(old(mem[..]), d, n, AsByte(c))
    ensures forall i :: 0 <= i < mem.Length ==> mem[i] == if d <= i < d + n then c % 256 else old(mem[i])
  {
    ghost var was := mem[..];
    var b := AsByte(c);
    SetEnds(mem, d, n, b, was);
    if n > 8 {
      var k := (WSIZE - (base + d) % WSIZE) % WSIZE;
      SetWords(mem, base, d, n, k, (n - k) / WSIZE, b, was);
    }
    forall i | d <= i < d + n ensures mem[i] == b {
    }
    assert mem[..] == Filled(was, d, n, b);
  }

  method SetEnds(mem: array<int>, d: nat, n: nat, b: int, ghost was: seq<int>)
    requires d + n <= mem.Length && was == mem[..]
    modifies mem
    ensures Partly(mem, was, d, n, b)
    ensures forall i :: d <= i < d + n && (i < d + 4 || i >= d + n - 4) ==> mem[i] == b
  {
    if n == 0 {
      return;
    }
    mem[d + n - 1] := b;
    mem[d] := b;
    if n <= 2 {
      return;
    }
    mem[d + n - 2] := b;
    mem[d + 1] := b;
    mem[d + n - 3] := b;
    mem[d + 2] := b;
    if n <= 6 {
      return;
    }
    mem[d + n - 4] := b;
    mem[d + 3] := b;
  }

  method SetWords(mem: array<int>, base: nat, d: nat, n: nat, k: nat, t: nat, b: int, ghost was: seq<int>)
    requires Partly(mem, was, d, n, b) && k < WSIZE && k + WSIZE * t <= n < k + WSIZE * t + WSIZE
    requires t > 0 && (base + d + k) % WSIZE == 0
    requires forall i :: d <= i < d + n && (i < d + 4 || i >= d + n - 4) ==> mem[i] == b
    modifies mem
    ensures Partly(mem, was, d, n, b) && forall i :: d <= i < d + n ==> mem[i] == b
  {
    var j := 0;
    while j < t
      invariant j <= t && Partly(mem, was, d, n, b)
      invariant forall i :: d <= i < d + n && (i < d + 4 || i >= d + n - 4 || i < d + k + WSIZE * j) ==> mem[i] == b
    {
      SetWord(mem, base, d + k + WSIZE * j, b);
      j := j + 1;
    }
  }

  method SetWord(mem: array<int>, base: nat, d: nat, b: int)
    requires d + WSIZE <= mem.Length && (base + d) % WSIZE == 0
    modifies mem
    ensures forall i :: 0 <= i < mem.Length ==> mem[i] == if d <= i < d + WSIZE then b else old(mem[i])
  {
    mem[d], mem[d + 1], mem[d + 2], mem[d + 3] := b, b, b, b;
  }
}
