/** The membership circuit: walking an authentication path from leaf to root.

    `pair` is the two-element Pedersen hash and `single` the one-element one.
    Field elements are a type of their own; an index is a natural number. */
module Merkle {
  import opened Basics

  datatype Tree<F> = Leaf(value: F) | Node(left: Tree<F>, right: Tree<F>)

  ghost predicate Complete<F>(t: Tree<F>, depth: nat) {
    match t
    case Leaf(_) => depth == 0
    case Node(l, r) => depth > 0 && Complete(l, depth - 1) && Complete(r, depth - 1)
  }

  function Root<F>(pair: (F, F) -> F, t: Tree<F>): F {
    match t
    case Leaf(v) => v
    case Node(l, r) => pair(Root(pair, l), Root(pair, r))
  }

  /** The leaves, left to right. */
  function Leaves<F>(t: Tree<F>): seq<F> {
    match t
    case Leaf(v) => [v]
    case Node(l, r) => Leaves(l) + Leaves(r)
  }

  /** The siblings on the way from leaf `i` up to the root, leaf level first. */
  ghost function Path<F>(pair: (F, F) -> F, t: Tree<F>, depth: nat, i: nat): seq<F>
    requires Complete(t, depth) && i < Pow2(depth)
  {
    match t
    case Leaf(_) => []
    case Node(l, r) =>
      var half := Pow2(depth - 1);
      if i < half then Path(pair, l, depth - 1, i) + [Root(pair, r)]
      else Path(pair, r, depth - 1, i - half) + [Root(pair, l)]
  }

  // --- little-endian bits ------------------------------------------------------

  function FromBits(bits: seq<bool>): nat {
    if bits == [] then 0 else (if bits[0] then 1 else 0) + 2 * FromBits(bits[1..])
  }

  /** `to_le_bits` into exactly `depth` bits: unsatisfiable when the index needs
      more. */
  function ToLeBits(index: nat, depth: nat): Option<seq<bool>> {
    if depth == 0 then if index == 0 then Some([]) else None
    else
      match ToLeBits(index / 2, depth - 1)
      case None => None
      case Some(rest) => Some([index % 2 == 1] + rest)
  }

  /** The decomposition exists exactly for indices below 2^depth, and is the one
      bit string of that length with that value. */
  lemma {:induction false} BitsAreTheIndex(index: nat, depth: nat)
    ensures ToLeBits(index, depth).Some? <==> index < Pow2(depth)
    ensures ToLeBits(index, depth).Some? ==>
      |ToLeBits(index, depth).value| == depth && FromBits(ToLeBits(index, depth).value) == index
    ensures forall bits :: |bits| == depth && FromBits(bits) == index ==> ToLeBits(index, depth) == Some(bits)
  {
    if depth > 0 {
      BitsAreTheIndex(index / 2, depth - 1);
      forall bits: seq<bool> | |bits| == depth && FromBits(bits) == index
        ensures ToLeBits(index, depth) == Some(bits)
      {
        assert FromBits(bits[1..]) == index / 2;
        assert bits == [bits[0]] + bits[1..];
      }
    }
  }

  /** The last bit is the most significant: it chooses the half of the tree. */
  lemma {:induction false} TopBit(bits: seq<bool>)
    requires bits != []
    ensures var d := |bits| - 1;
      && FromBits(bits) == FromBits(bits[..d]) + (if bits[d] then Pow2(d) else 0)
      && FromBits(bits[..d]) < Pow2(d)
  {
    var d := |bits| - 1;
    if d > 0 {
      TopBit(bits[1..]);
      assert bits[1..][..d - 1] == bits[..d][1..];
    } else {
      assert bits[1..] == [];
    }
  }

  // --- the walk -----------------------------------------------------------------

  function Combine<F>(pair: (F, F) -> F, isRight: bool, node: F, sibling: F): F {
    if isRight then pair(sibling, node) else pair(node, sibling)
  }

  function Walk<F>(pair: (F, F) -> F, leaf: F, bits: seq<bool>, siblings: seq<F>): F
    requires |bits| == |siblings|
  {
    if siblings == [] then leaf
    else
      var d := |siblings| - 1;
      Combine(pair, bits[d], Walk(pair, leaf, bits[..d], siblings[..d]), siblings[d])
  }

  /** The circuit's loop. `None` is an unsatisfiable constraint. */
  method ComputeMerkleRoot<F>(pair: (F, F) -> F, leaf: F, index: nat, siblings: seq<F>) returns (root: Option<F>)
    ensures root.Some? <==> index < Pow2(|siblings|)
    ensures root.Some? ==>
      var bits := ToLeBits(index, |siblings|);
      bits.Some? && |bits.value| == |siblings| && root.value == Walk(pair, leaf, bits.value, siblings)
  {
    var decomposed := ToLeBits(index, |siblings|);
    BitsAreTheIndex(index, |siblings|);
    if decomposed.None? {
      return None;
    }
    var bits := decomposed.value;
    var node := leaf;
    for level := 0 to |siblings|
      invariant node == Walk(pair, leaf, bits[..level], siblings[..level])
    {
      var sibling := siblings[level];
      var (left, right) := if bits[level] then (sibling, node) else (node, sibling);
      node := pair(left, right);
      assert bits[..level + 1][..level] == bits[..level];
      assert siblings[..level + 1][..level] == siblings[..level];
    }
    assert bits[..|siblings|] == bits && siblings[..|siblings|] == siblings;
    return Some(node);
  }

  lemma {:induction false} LeavesCount<F>(t: Tree<F>, depth: nat)
    requires Complete(t, depth)
    ensures |Leaves(t)| == Pow2(depth)
  {
    match t
    case Leaf(_) =>
    case Node(l, r) =>
      LeavesCount(l, depth - 1);
      LeavesCount(r, depth - 1);
  }

  lemma {:induction false} PathLength<F>(pair: (F, F) -> F, t: Tree<F>, depth: nat, i: nat)
    requires Complete(t, depth) && i < Pow2(depth)
    ensures |Path(pair, t, depth, i)| == depth
  {
    match t
    case Leaf(_) =>
    case Node(l, r) =>
      var half := Pow2(depth - 1);
      if i < half {
        PathLength(pair, l, depth - 1, i);
      } else {
        PathLength(pair, r, depth - 1, i - half);
      }
  }

  /** Leaf `bits` of a node is leaf `bits` without the last of the chosen half. */
  lemma LeafOfTheHalf<F>(l: Tree<F>, r: Tree<F>, bits: seq<bool>)
    requires bits != [] && Complete(l, |bits| - 1) && Complete(r, |bits| - 1)
    ensures var d, whole := |bits| - 1, Leaves(Node(l, r));
      var half := Leaves(if bits[d] then r else l);
      && FromBits(bits[..d]) < |half| == Pow2(d) && FromBits(bits) < |whole| == Pow2(|bits|)
      && whole[FromBits(bits)] == half[FromBits(bits[..d])]
  {
    TopBit(bits);
    LeavesCount(l, |bits| - 1);
    LeavesCount(r, |bits| - 1);
  }

  /** Every leaf's own path walks to the root. */
  lemma {:induction false} PathsReachTheRoot<F>(pair: (F, F) -> F, t: Tree<F>, bits: seq<bool>)
    requires Complete(t, |bits|)
    ensures FromBits(bits) < Pow2(|bits|) == |Leaves(t)|
    ensures |Path(pair, t, |bits|, FromBits(bits))| == |bits|
    ensures Walk(pair, Leaves(t)[FromBits(bits)], bits, Path(pair, t, |bits|, FromBits(bits))) == Root(pair, t)
  {
    LeavesCount(t, |bits|);
    match t
    case Leaf(_) =>
    case Node(l, r) =>
      var d := |bits| - 1;
      TopBit(bits);
      LeafOfTheHalf(l, r, bits);
      PathLength(pair, t, |bits|, FromBits(bits));
      var path := Path(pair, t, |bits|, FromBits(bits));
      var child := if bits[d] then r else l;
      PathsReachTheRoot(pair, child, bits[..d]);
      assert path[..d] == Path(pair, child, d, FromBits(bits[..d]));
  }

  /** Two different pairs with one hash. */
  predicate Collide<F(==)>(pair: (F, F) -> F, x: (F, F), y: (F, F)) {
    x != y && pair(x.0, x.1) == pair(y.0, y.1)
  }

  /** A pair the walk hashes at some level. */
  predicate WalkHashes<F(==)>(pair: (F, F) -> F, leaf: F, bits: seq<bool>, siblings: seq<F>, x: (F, F))
    requires |bits| == |siblings|
  {
    siblings != []
    && var d := |siblings| - 1;
       var below := Walk(pair, leaf, bits[..d], siblings[..d]);
       || x == (if bits[d] then (siblings[d], below) else (below, siblings[d]))
       || WalkHashes(pair, leaf, bits[..d], siblings[..d], x)
  }

  /** The roots of the two children of some node of the tree. */
  predicate TreeHashes<F(==)>(pair: (F, F) -> F, t: Tree<F>, x: (F, F)) {
    match t
    case Leaf(_) => false
    case Node(l, r) => x == (Root(pair, l), Root(pair, r)) || TreeHashes(pair, l, x) || TreeHashes(pair, r, x)
  }

  /** The walk and the tree hash two different pairs to one value: a collision
      that a forger would have had to find, not one that merely exists. */
  predicate ForgesAt<F(==)>(
    pair: (F, F) -> F, t: Tree<F>, leaf: F, bits: seq<bool>, siblings: seq<F>, x: (F, F), y: (F, F))
    requires |bits| == |siblings|
  {
    Collide(pair, x, y) && WalkHashes(pair, leaf, bits, siblings, x) && TreeHashes(pair, t, y)
  }

  /** Whatever reaches the root is a leaf of the tree at that index, with that
      leaf's own path; or the walk holds a pair that collides with one of the
      tree's. */
  lemma {:induction false} RootsFixTheWalk<F>(pair: (F, F) -> F, t: Tree<F>, leaf: F, bits: seq<bool>, siblings: seq<F>)
    returns (x: (F, F), y: (F, F))
    requires |bits| == |siblings| && Complete(t, |bits|)
    requires Walk(pair, leaf, bits, siblings) == Root(pair, t)
    ensures FromBits(bits) < Pow2(|bits|) == |Leaves(t)|
    ensures (leaf == Leaves(t)[FromBits(bits)] && siblings == Path(pair, t, |bits|, FromBits(bits)))
            || ForgesAt(pair, t, leaf, bits, siblings, x, y)
  {
    LeavesCount(t, |bits|);
    match t
    case Leaf(_) =>
      x, y := (leaf, leaf), (leaf, leaf);
    case Node(l, r) =>
      var d := |bits| - 1;
      TopBit(bits);
      LeavesCount(l, d);
      LeavesCount(r, d);
      var below := Walk(pair, leaf, bits[..d], siblings[..d]);
      x := if bits[d] then (siblings[d], below) else (below, siblings[d]);
      y := (Root(pair, l), Root(pair, r));
      if x == y {
        x, y := RootsFixTheWalk(pair, if bits[d] then r else l, leaf, bits[..d], siblings[..d]);
        assert siblings == siblings[..d] + [siblings[d]];
      }
  }

  // --- the circuit ----------------------------------------------------------------

  /** `main`: the published nullifier, or `None` when a constraint fails. */
  method ProveMembership<F(==)>(
    single: F -> F, pair: (F, F) -> F, domain: F, root: F, secret: F, index: nat, siblings: seq<F>)
    returns (nullifier: Option<F>)
    ensures nullifier == Accepts(single, pair, domain, root, secret, index, siblings)
  {
    var leaf := single(secret);
    var computed := ComputeMerkleRoot(pair, leaf, index, siblings);
    BitsAreTheIndex(index, |siblings|);
    if computed.None? || computed.value != root {
      return None;
    }
    return Some(pair(secret, domain));
  }

  function Accepts<F(==)>(
    single: F -> F, pair: (F, F) -> F, domain: F, root: F, secret: F, index: nat, siblings: seq<F>): Option<F>
  {
    BitsAreTheIndex(index, |siblings|);
    match ToLeBits(index, |siblings|)
    case None => None
    case Some(bits) =>
      if Walk(pair, single(secret), bits, siblings) == root then Some(pair(secret, domain)) else None
  }

  /** The witness names a leaf of the tree: its commitment stands at the index,
      and the siblings are that leaf's own path. */
  ghost predicate NamesALeaf<F>(single: F -> F, pair: (F, F) -> F, t: Tree<F>, secret: F, index: nat, siblings: seq<F>)
    requires Complete(t, |siblings|) && |Leaves(t)| == Pow2(|siblings|)
  {
    && index < Pow2(|siblings|)
    && Leaves(t)[index] == single(secret)
    && siblings == Path(pair, t, |siblings|, index)
  }

  /** The witness's own walk collides with the tree. */
  predicate Forges<F(==)>(
    single: F -> F, pair: (F, F) -> F, t: Tree<F>, secret: F, index: nat, siblings: seq<F>, x: (F, F), y: (F, F))
  {
    BitsAreTheIndex(index, |siblings|);
    var bits := ToLeBits(index, |siblings|);
    bits.Some? && ForgesAt(pair, t, single(secret), bits.value, siblings, x, y)
  }

  /** MAIN. For every depth, every complete tree and every hash: the circuit
      accepts every witness that names a leaf of the tree, below 2^depth; and in
      any other witness it accepts, the walk holds a pair that collides with one
      of the tree's. */
  lemma MembershipIsExact<F>(
    single: F -> F, pair: (F, F) -> F, domain: F, t: Tree<F>, secret: F, index: nat, siblings: seq<F>)
    returns (x: (F, F), y: (F, F))
    requires Complete(t, |siblings|)
    ensures |Leaves(t)| == Pow2(|siblings|)
    ensures NamesALeaf(single, pair, t, secret, index, siblings) ==>
      Accepts(single, pair, domain, Root(pair, t), secret, index, siblings) == Some(pair(secret, domain))
    ensures Accepts(single, pair, domain, Root(pair, t), secret, index, siblings).Some? ==>
      NamesALeaf(single, pair, t, secret, index, siblings) || Forges(single, pair, t, secret, index, siblings, x, y)
  {
    LeavesCount(t, |siblings|);
    BitsAreTheIndex(index, |siblings|);
    x, y := (secret, secret), (secret, secret);
    if index < Pow2(|siblings|) {
      var bits := ToLeBits(index, |siblings|).value;
      PathsReachTheRoot(pair, t, bits);
      if Walk(pair, single(secret), bits, siblings) == Root(pair, t) {
        x, y := RootsFixTheWalk(pair, t, single(secret), bits, siblings);
      }
    }
  }

  /** MAIN. One member, one nullifier: in a tree whose leaves are distinct, two
      accepted witnesses publish one nullifier exactly when they are the same
      secret at the same index with the same path; or one of their walks collides
      with the tree, or their two nullifier pairs with each other. */
  lemma NullifiersIdentifyMembers<F>(
    single: F -> F, pair: (F, F) -> F, domain: F, t: Tree<F>,
    secret: F, index: nat, siblings: seq<F>, secret': F, index': nat, siblings': seq<F>)
    returns (x: (F, F), y: (F, F))
    requires Complete(t, |siblings|) && |siblings'| == |siblings|
    requires forall i, j :: 0 <= i < j < |Leaves(t)| ==> Leaves(t)[i] != Leaves(t)[j]
    requires Accepts(single, pair, domain, Root(pair, t), secret, index, siblings).Some?
    requires Accepts(single, pair, domain, Root(pair, t), secret', index', siblings').Some?
    ensures (Accepts(single, pair, domain, Root(pair, t), secret, index, siblings)
             == Accepts(single, pair, domain, Root(pair, t), secret', index', siblings')
             <==> secret == secret' && index == index' && siblings == siblings')
            || Forges(single, pair, t, secret, index, siblings, x, y)
            || Forges(single, pair, t, secret', index', siblings', x, y)
            || (Collide(pair, x, y) && x == (secret, domain) && y == (secret', domain))
  {
    x, y := MembershipIsExact(single, pair, domain, t, secret, index, siblings);
    if !Forges(single, pair, t, secret, index, siblings, x, y) {
      x, y := MembershipIsExact(single, pair, domain, t, secret', index', siblings');
      if !Forges(single, pair, t, secret', index', siblings', x, y) {
        x, y := (secret, domain), (secret', domain);
      }
    }
  }
}
