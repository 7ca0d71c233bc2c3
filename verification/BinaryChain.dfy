/** The balanced chain of sample-group iterators that the macro generates. */
module BinaryChain {

  /** The generated expression: `empty()`, one iterator, or `left.chain(right)`. */
  datatype Chain<T> = Empty | One(items: seq<T>) | Both(left: Chain<T>, right: Chain<T>)

  function MakeBinaryTreeChain<T>(iterators: seq<seq<T>>): Chain<T> {
    if iterators == [] then Empty
    else if |iterators| == 1 then One(iterators[0])
    else
      var mid := |iterators| / 2;
      Both(MakeBinaryTreeChain(iterators[..mid]), MakeBinaryTreeChain(iterators[mid..]))
  }

  /** The elements the expression yields. */
  function Items<T>(c: Chain<T>): seq<T> {
    match c
    case Empty => []
    case One(items) => items
    case Both(l, r) => Items(l) + Items(r)
  }

  function Depth<T>(c: Chain<T>): nat {
    match c
    case Empty => 0
    case One(_) => 0
    case Both(l, r) => 1 + if Depth(l) > Depth(r) then Depth(l) else Depth(r)
  }

  /** Left-to-right concatenation. */
  function Flat<T>(iterators: seq<seq<T>>): seq<T> {
    if iterators == [] then [] else iterators[0] + Flat(iterators[1..])
  }

  function Pow2(k: nat): nat {
    if k == 0 then 1 else 2 * Pow2(k - 1)
  }

  lemma {:induction false} FlatSplit<T>(iterators: seq<seq<T>>, mid: nat)
    requires mid <= |iterators|
    ensures Flat(iterators) == Flat(iterators[..mid]) + Flat(iterators[mid..])
  {
    if mid > 0 {
      FlatSplit(iterators[1..], mid - 1);
      assert iterators[..mid][1..] == iterators[1..][..mid - 1];
      assert iterators[mid..] == iterators[1..][mid - 1..];
      assert iterators[0] + (Flat(iterators[1..][..mid - 1]) + Flat(iterators[mid..]))
          == (iterators[0] + Flat(iterators[1..][..mid - 1])) + Flat(iterators[mid..]);
    } else {
      assert iterators[..0] == [] && iterators[0..] == iterators;
      assert [] + Flat(iterators) == Flat(iterators);
    }
  }

  /** Balancing keeps the order of the elements. */
  lemma {:induction false} ChainKeepsOrder<T>(iterators: seq<seq<T>>)
    ensures Items(MakeBinaryTreeChain(iterators)) == Flat(iterators)
  {
    if |iterators| == 1 {
      assert iterators[1..] == [];
      assert iterators[0] + [] == iterators[0];
    } else if |iterators| > 1 {
      var mid := |iterators| / 2;
      ChainKeepsOrder(iterators[..mid]);
      ChainKeepsOrder(iterators[mid..]);
      FlatSplit(iterators, mid);
    }
  }

  /** The depth is the rounded-up binary logarithm of the number of iterators: a chain of
      depth k is possible, and is built, exactly for the numbers up to 2^k. */
  lemma {:induction false} ChainIsBalanced<T>(iterators: seq<seq<T>>, k: nat)
    requires iterators != []
    ensures Depth(MakeBinaryTreeChain(iterators)) <= k <==> |iterators| <= Pow2(k)
  {
    if |iterators| > 1 {
      var mid := |iterators| / 2;
      if k > 0 {
        ChainIsBalanced(iterators[..mid], k - 1);
        ChainIsBalanced(iterators[mid..], k - 1);
      }
    } else if k > 0 {
      ChainIsBalanced(iterators, k - 1);
    }
  }
}
