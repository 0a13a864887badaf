/** Boolean-mask selection over a table, as pandas' `df[mask]` does it:
    the rows whose mask entry is true, in table order, unchanged. */
module Seqs {

  /** The elements of `s` that satisfy `p`, in their order in `s`. */
  function Mask<T>(s: seq<T>, p: T -> bool): (r: seq<T>)
    ensures |r| <= |s|
    ensures forall k :: 0 <= k < |r| ==> p(r[k])
    decreases |s|
  {
    if s == [] then []
    else Mask(s[..|s| - 1], p) + (if p(s[|s| - 1]) then [s[|s| - 1]] else [])
  }

  /** `idx` lists, in increasing order, the positions in `s` that `sub` was taken from. */
  ghost predicate Embeds<T>(idx: seq<nat>, sub: seq<T>, s: seq<T>)
  {
    && |idx| == |sub|
    && (forall k :: 0 <= k < |idx| ==> idx[k] < |s| && s[idx[k]] == sub[k])
    && (forall k, l :: 0 <= k < l < |idx| ==> idx[k] < idx[l])
  }

  /** The positions of `s` whose element satisfies `p`, in increasing order. */
  ghost function MaskIndices<T>(s: seq<T>, p: T -> bool): (idx: seq<nat>)
    decreases |s|
  {
    if s == [] then []
    else MaskIndices(s[..|s| - 1], p) + (if p(s[|s| - 1]) then [|s| - 1] else [])
  }

  /** The mask keeps its rows unchanged and in table order: `Mask(s, p)` is `s` read at the
      increasing positions `MaskIndices(s, p)`. */
  lemma {:induction false} MaskPreservesOrder<T>(s: seq<T>, p: T -> bool)
    ensures Embeds(MaskIndices(s, p), Mask(s, p), s)
    decreases |s|
  {
    if s != [] {
      var init, n := s[..|s| - 1], |s| - 1;
      MaskPreservesOrder(init, p);
      var prev, sub := MaskIndices(init, p), Mask(init, p);
      assert forall k :: 0 <= k < |prev| ==> s[prev[k]] == init[prev[k]];
      if p(s[n]) {
        var idx, r := prev + [n], sub + [s[n]];
        assert forall k :: 0 <= k < |prev| ==> idx[k] == prev[k] && r[k] == sub[k];
      }
    }
  }

  /** The mask keeps a position iff its row satisfies the mask. */
  lemma {:induction false} MaskKeepsExactly<T>(s: seq<T>, p: T -> bool)
    ensures forall i :: 0 <= i < |s| ==> (i in MaskIndices(s, p) <==> p(s[i]))
    decreases |s|
  {
    if s != [] {
      var init, n := s[..|s| - 1], |s| - 1;
      MaskKeepsExactly(init, p);
      MaskIndicesBound(init, p);
      assert forall i :: 0 <= i < n ==> s[i] == init[i];
    }
  }

  /** Every position `MaskIndices` lists lies inside the table. */
  lemma {:induction false} MaskIndicesBound<T>(s: seq<T>, p: T -> bool)
    ensures forall i :: i in MaskIndices(s, p) ==> i < |s|
    decreases |s|
  {
    if s != [] {
      MaskIndicesBound(s[..|s| - 1], p);
    }
  }

  /** An element is selected iff it occurs in the table and satisfies the mask. */
  lemma {:induction false} MaskMembership<T>(s: seq<T>, p: T -> bool, x: T)
    ensures x in Mask(s, p) <==> x in s && p(x)
    decreases |s|
  {
    if s != [] {
      var init, last := s[..|s| - 1], s[|s| - 1];
      MaskMembership(init, p, x);
      assert s == init + [last];
    }
  }

  /** Masking is decided row by row: it distributes over concatenation. */
  lemma {:induction false} MaskConcat<T>(a: seq<T>, b: seq<T>, p: T -> bool)
    ensures Mask(a + b, p) == Mask(a, p) + Mask(b, p)
    decreases |b|
  {
    if b == [] {
      assert a + b == a;
    } else {
      var c, init := a + b, b[..|b| - 1];
      var tail := if p(b[|b| - 1]) then [b[|b| - 1]] else [];
      assert c[..|c| - 1] == a + init;
      assert c[|c| - 1] == b[|b| - 1];
      assert Mask(c, p) == Mask(a + init, p) + tail;
      assert Mask(b, p) == Mask(init, p) + tail;
      MaskConcat(a, init, p);
    }
  }

  /** Two masks that agree on every row select the same rows. */
  lemma {:induction false} MaskExt<T>(s: seq<T>, p: T -> bool, q: T -> bool)
    requires forall i :: 0 <= i < |s| ==> p(s[i]) == q(s[i])
    ensures Mask(s, p) == Mask(s, q)
    decreases |s|
  {
    if s != [] {
      MaskExt(s[..|s| - 1], p, q);
    }
  }

  /** Masking twice, first by `p` and then by `q`, is masking once by their conjunction `pq`. */
  lemma {:induction false} MaskMask<T>(s: seq<T>, p: T -> bool, q: T -> bool, pq: T -> bool)
    requires forall i :: 0 <= i < |s| ==> pq(s[i]) == (p(s[i]) && q(s[i]))
    ensures Mask(Mask(s, p), q) == Mask(s, pq)
    decreases |s|
  {
    if s != [] {
      var init, last := s[..|s| - 1], s[|s| - 1];
      var tail := if p(last) then [last] else [];
      MaskMask(init, p, q, pq);
      MaskConcat(Mask(init, p), tail, q);
      if p(last) {
        assert tail[..0] == [];
      }
    }
  }
}
