/** C strings crossing the boundary of the native library: the copy goString makes and the
    copy-then-free discipline of takeString. */
module CStrings {
  type Ptr = nat

  /** The bytes of a C string from its first on; some byte of the allocation is NUL. */
  type Byte = b: nat | b < 256
  type Mem = m: seq<Byte> | 0 in m witness [0]

  /** The bytes before the first NUL. */
  function Text(m: seq<Byte>): seq<Byte>
  {
    if m == [] || m[0] == 0 then [] else [m[0]] + Text(m[1..])
  }

  lemma {:induction false} TextStopsAtNul(m: Mem, n: nat)
    requires n < |m| && m[n] == 0 && forall i :: 0 <= i < n ==> m[i] != 0
    ensures Text(m) == m[..n]
    decreases n
  {
    if n > 0 {
      assert m == [m[0]] + m[1..] && m[1..][n - 1] == 0;
      TextStopsAtNul(m[1..], n - 1);
      assert m[..n] == [m[0]] + m[1..][..n - 1];
    }
  }

  /** No byte of the copy is NUL, and the byte after it in memory is. */
  lemma {:induction false} TextIsMaximal(m: Mem)
    ensures 0 !in Text(m) && |Text(m)| < |m| && Text(m) == m[..|Text(m)|] && m[|Text(m)|] == 0
  {
    if m[0] != 0 {
      assert m == [m[0]] + m[1..];
      TextIsMaximal(m[1..]);
    }
  }

  /** The strings of the native library. A pointer that may be nil is a pair, false for nil. */
  class NativeHeap {
    var live: map<Ptr, Mem>         // owned strings handed over and not yet freed
    const fixed: map<Ptr, Mem>      // static strings, such as the build info, which are never freed
    ghost var freed: map<Ptr, nat>  // how often each pointer was freed

    constructor (fixed: map<Ptr, Mem>)
      ensures live == map[] && freed == map[] && this.fixed == fixed
    {
      live, freed := map[], map[];
      this.fixed := fixed;
    }

    predicate Readable(p: (bool, Ptr))
      reads this
    {
      !p.0 || p.1 in live || p.1 in fixed
    }

    /** The text behind a pointer, "" for nil. */
    function TextOf(p: (bool, Ptr)): seq<Byte>
      requires Readable(p)
      reads this
    {
      if !p.0 then [] else if p.1 in live then Text(live[p.1]) else Text(fixed[p.1])
    }

    /** Copies without freeing. Reading past the terminator is what the loop must not do. */
    method GoString(p: (bool, Ptr)) returns (s: seq<Byte>)
      requires Readable(p)
      ensures s == TextOf(p)
    {
      if !p.0 { return []; }
      var m := if p.1 in live then live[p.1] else fixed[p.1];
      var n := 0;
      while m[n] != 0
        invariant 0 <= n < |m| && forall i :: 0 <= i < n ==> m[i] != 0
        decreases |m| - n
      {
        if n + 1 == |m| { assert forall i :: 0 <= i < |m| ==> m[i] != 0; assert false; }
        n := n + 1;
      }
      TextStopsAtNul(m, n);
      s := if n == 0 then [] else m[..n];
    }

    method Free(p: Ptr)
      requires p in live
      modifies this
      ensures live == old(live) - {p}
      ensures freed == old(freed)[p := if p in old(freed) then old(freed)[p] + 1 else 1]
    {
      live := live - {p};
      freed := freed[p := if p in freed then freed[p] + 1 else 1];
    }

    /** Copies an owned string, then frees it. */
    method TakeString(p: (bool, Ptr)) returns (s: seq<Byte>)
      requires p.0 ==> p.1 in live
      modifies this
      ensures !p.0 ==> s == [] && live == old(live) && freed == old(freed)
      ensures p.0 ==> s == Text(old(live)[p.1]) && live == old(live) - {p.1}
      ensures p.0 ==> freed == old(freed)[p.1 := if p.1 in old(freed) then old(freed)[p.1] + 1 else 1]
    {
      if !p.0 { return []; }
      s := GoString(p);
      Free(p.1);
    }
  }
}
