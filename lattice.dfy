/**
 * The permutation table shared by the three noise kernels of noise2d/src.
 * `Value2d::new`, `Gradient2d::new` and `Simplex2d::new` each build it the
 * same way (the identity on 0..255, then `Rng::shuffle`), and each has the
 * same `idx` hash of a lattice point into the table. The code is repeated
 * in the three source files; it is modelled once here.
 */
module Lattice {
  import opened Numeric
  import opened Random

  /** The table length. */
  const SIZE: nat := 256

  /** `[0, 1, ..., n - 1]` as bytes. */
  function Identity(n: nat): (s: seq<u8>)
    requires n <= SIZE
    ensures |s| == n
    ensures forall i :: 0 <= i < n ==> s[i] as int == i
  {
    if n == 0 then [] else Identity(n - 1) + [(n - 1) as u8]
  }

  /** Every byte below `n` occurs once in `Identity(n)`, and no other byte occurs. */
  lemma {:induction false} IdentityCounts(n: nat, v: u8)
    requires n <= SIZE
    ensures multiset(Identity(n))[v] == if (v as int) < n then 1 else 0
  {
    if n > 0 {
      IdentityCounts(n - 1, v);
      var last := (n - 1) as u8;
      assert multiset(Identity(n)) == multiset(Identity(n - 1)) + multiset{last};
      assert multiset{last}[v] == if v == last then 1 else 0;
    }
  }

  /** The enumerate loop of `new`: every slot gets its own index. */
  method FillIdentity(perm: array<u8>)
    requires perm.Length == SIZE
    modifies perm
    ensures perm[..] == Identity(SIZE)
  {
    for i := 0 to SIZE
      invariant perm[..i] == Identity(i)
    {
      perm[i] := i as u8;
      assert perm[..i + 1] == perm[..i] + [i as u8];
    }
    assert perm[..] == perm[..SIZE];
  }

  /** Draw `k` as `gen_range(0, n + 1)`. */
  function PickAt(pick: (nat, nat) -> nat, k: nat, n: nat): (j: nat)
    requires IndexDraws(pick)
    ensures j <= n
  {
    pick(k, n)
  }

  /** `values.swap(i, j)`. */
  function SwapAt(s: seq<u8>, i: nat, j: nat): (r: seq<u8>)
    requires i < |s| && j < |s|
    ensures |r| == |s| && r[i] == s[j] && r[j] == s[i]
  {
    s[i := s[j]][j := s[i]]
  }

  /** A swap moves no entry other than the two swapped ones. */
  lemma SwapAtKeeps(s: seq<u8>, i: nat, j: nat, k: nat)
    requires i < |s| && j < |s| && k < |s| && k != i && k != j
    ensures SwapAt(s, i, j)[k] == s[k]
  {
  }

  /** A swap is a permutation. */
  lemma SwapAtPermutes(s: seq<u8>, i: nat, j: nat)
    requires i < |s| && j < |s|
    ensures multiset(SwapAt(s, i, j)) == multiset(s)
  {
  }

  /**
   * The rest of `Rng::shuffle` once `i` positions remain unfixed: while
   * two or more remain, the last of them is swapped with a position
   * picked among them by the next draw.
   */
  function ShuffleFrom(s: seq<u8>, i: nat, pick: (nat, nat) -> nat, next: nat): (r: seq<u8>)
    requires i <= |s| && IndexDraws(pick)
    ensures |r| == |s|
    decreases i
  {
    if i < 2 then s
    else ShuffleFrom(SwapAt(s, i - 1, PickAt(pick, next, i - 1)), i - 1, pick, next + 1)
  }

  /** The shuffle only moves entries: it is a permutation of its input. */
  lemma {:induction false} ShufflePermutes(s: seq<u8>, i: nat, pick: (nat, nat) -> nat, next: nat)
    requires i <= |s| && IndexDraws(pick)
    ensures multiset(ShuffleFrom(s, i, pick, next)) == multiset(s)
    decreases i
  {
    if i >= 2 {
      SwapAtPermutes(s, i - 1, PickAt(pick, next, i - 1));
      ShufflePermutes(SwapAt(s, i - 1, PickAt(pick, next, i - 1)), i - 1, pick, next + 1);
    }
  }

  /** The shuffle never touches the positions at or after `i`. */
  lemma {:induction false} ShuffleKeepsTail(s: seq<u8>, i: nat, pick: (nat, nat) -> nat, next: nat, k: nat)
    requires i <= k < |s| && IndexDraws(pick)
    ensures ShuffleFrom(s, i, pick, next)[k] == s[k]
    decreases i
  {
    if i >= 2 {
      var t := SwapAt(s, i - 1, PickAt(pick, next, i - 1));
      SwapAtKeeps(s, i - 1, PickAt(pick, next, i - 1), k);
      ShuffleKeepsTail(t, i - 1, pick, next + 1, k);
    }
  }

  /** `values.swap(i, j)` in place. */
  method Swap(perm: array<u8>, i: nat, j: nat)
    requires i < perm.Length && j < perm.Length
    modifies perm
    ensures perm[..] == SwapAt(old(perm[..]), i, j)
  {
    perm[i], perm[j] := perm[j], perm[i];
  }

  /** One pass of the shuffle loop: position `i - 1` is swapped with the picked one. */
  method ShuffleStep(perm: array<u8>, i: nat, pick: (nat, nat) -> nat, next: nat)
    requires 2 <= i <= perm.Length && IndexDraws(pick)
    modifies perm
    ensures ShuffleFrom(perm[..], i - 1, pick, next + 1) == ShuffleFrom(old(perm[..]), i, pick, next)
  {
    var j := PickAt(pick, next, i - 1);
    Swap(perm, i - 1, j);
  }

  /**
   * `Rng::shuffle`: from the end down to position 1, swap each position
   * with one picked at or before it; one draw per swap.
   */
  method Shuffle(perm: array<u8>, pick: (nat, nat) -> nat, next: nat) returns (next': nat)
    requires IndexDraws(pick)
    modifies perm
    ensures perm[..] == ShuffleFrom(old(perm[..]), perm.Length, pick, next)
    ensures next' == next + (if perm.Length < 2 then 0 else perm.Length - 1)
  {
    ghost var shuffled := ShuffleFrom(perm[..], perm.Length, pick, next);
    var i: nat := perm.Length;
    next' := next;
    while i >= 2
      invariant i <= perm.Length && (1 <= perm.Length ==> 1 <= i)
      invariant next' == next + (perm.Length - i)
      invariant ShuffleFrom(perm[..], i, pick, next') == shuffled
    {
      ShuffleStep(perm, i, pick, next');
      i := i - 1;
      next' := next' + 1;
    }
  }

  /** The table `new` builds from the draws starting at `next`. */
  function Permutations(pick: (nat, nat) -> nat, next: nat): (s: seq<u8>)
    requires IndexDraws(pick)
    ensures |s| == SIZE
  {
    ShuffleFrom(Identity(SIZE), SIZE, pick, next)
  }

  /** Whatever the draws, the table holds every byte exactly once. */
  lemma PermutationsArePermutation(pick: (nat, nat) -> nat, next: nat, v: u8)
    requires IndexDraws(pick)
    ensures multiset(Permutations(pick, next))[v] == 1
  {
    ShufflePermutes(Identity(SIZE), SIZE, pick, next);
    IdentityCounts(SIZE, v);
  }

  /**
   * The table part of `new`: fill a zeroed table with the identity and
   * shuffle it, reading `SIZE - 1` draws.
   */
  method NewPermutations(pick: (nat, nat) -> nat, next: nat) returns (perm: array<u8>, next': nat)
    requires IndexDraws(pick)
    ensures fresh(perm)
    ensures perm[..] == Permutations(pick, next)
    ensures next' == next + SIZE - 1
  {
    perm := new u8[SIZE];
    FillIdentity(perm);
    next' := Shuffle(perm, pick, next);
  }

  /** `x & 0xFF` is `x % 256` on a 64-bit word. */
  lemma MaskIsMod(x: bv64)
    ensures x & 0xFF == x % 256
  {
  }

  /**
   * `idx(x, y)`: the table entry at `(x + perm[y & 0xFF]) & 0xFF`; always
   * a valid index into a 256-entry table.
   */
  function Idx(perm: seq<u8>, x: nat, y: nat): (r: nat)
    requires |perm| == SIZE
    ensures r < SIZE
    ensures r as u8 in multiset(perm)
  {
    perm[(x + perm[y % SIZE] as int) % SIZE] as nat
  }

  /** `idx` repeats every 256 cells along x. */
  lemma IdxPeriodicX(perm: seq<u8>, x: nat, y: nat)
    requires |perm| == SIZE
    ensures Idx(perm, x + SIZE, y) == Idx(perm, x, y)
  {
    var p := perm[y % SIZE] as int;
    assert (x + SIZE + p) % SIZE == (x + p) % SIZE;
  }

  /** `idx` repeats every 256 cells along y. */
  lemma IdxPeriodicY(perm: seq<u8>, x: nat, y: nat)
    requires |perm| == SIZE
    ensures Idx(perm, x, y + SIZE) == Idx(perm, x, y)
  {
    assert (y + SIZE) % SIZE == y % SIZE;
  }
}
