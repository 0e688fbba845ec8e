/** What the account trie means: the canonical path-compressed tree of a finite map, and the
    digest that tree is committed by. */
module TrieSpec {
  import opened Bytes

  const KEY_BYTES := 32
  const KEY_BITS := 256

  /** A trie key as the path it denotes: 256 bits, most significant first. */
  type Key = k: seq<bool> | |k| == KEY_BITS witness seq(KEY_BITS, _ => false)

  /** Eight path bits as the byte that stores them. */
  function ByteOf(k: Key, j: nat): (b: Byte)
    requires j < KEY_BYTES
  {
    (if k[8 * j] then 128 else 0) + (if k[8 * j + 1] then 64 else 0) +
    (if k[8 * j + 2] then 32 else 0) + (if k[8 * j + 3] then 16 else 0) +
    (if k[8 * j + 4] then 8 else 0) + (if k[8 * j + 5] then 4 else 0) +
    (if k[8 * j + 6] then 2 else 0) + (if k[8 * j + 7] then 1 else 0)
  }

  /** The 32 stored bytes of a key. */
  function Pack(k: Key): (b: Bytes)
    ensures |b| == KEY_BYTES
  {
    seq(KEY_BYTES, j requires 0 <= j < KEY_BYTES => ByteOf(k, j))
  }

  lemma ByteOfUnique(a: Key, b: Key, j: nat)
    requires j < KEY_BYTES && ByteOf(a, j) == ByteOf(b, j)
    ensures forall i :: 8 * j <= i < 8 * j + 8 ==> a[i] == b[i]
  {
    assert a[8 * j] == b[8 * j] && a[8 * j + 1] == b[8 * j + 1];
    assert a[8 * j + 2] == b[8 * j + 2] && a[8 * j + 3] == b[8 * j + 3];
    assert a[8 * j + 4] == b[8 * j + 4] && a[8 * j + 5] == b[8 * j + 5];
    assert a[8 * j + 6] == b[8 * j + 6] && a[8 * j + 7] == b[8 * j + 7];
  }

  lemma PackUnique(a: Key, b: Key)
    requires Pack(a) == Pack(b)
    ensures a == b
  {
    forall i | 0 <= i < KEY_BITS
      ensures a[i] == b[i]
    {
      assert Pack(a)[i / 8] == Pack(b)[i / 8];
      ByteOfUnique(a, b, i / 8);
    }
  }

  ghost predicate Agree(ks: set<Key>, d: nat)
    requires d <= KEY_BITS
  {
    forall a, b :: a in ks && b in ks ==> a[..d] == b[..d]
  }

  type Entries = map<Key, Bytes>

  /** The entries whose key takes side `b` at depth `d`. */
  ghost function Side(m: Entries, d: nat, b: bool): (r: Entries)
    requires d < KEY_BITS
    ensures forall k :: k in r <==> k in m && k[d] == b
    ensures forall k :: k in r ==> r[k] == m[k]
    ensures Agree(m.Keys, d) ==> Agree(r.Keys, d + 1)
  {
    var r := map k | k in m && k[d] == b :: m[k];
    assert Agree(m.Keys, d) ==> Agree(r.Keys, d + 1) by {
      if Agree(m.Keys, d) {
        forall x, y | x in r.Keys && y in r.Keys
          ensures x[..d + 1] == y[..d + 1]
        {
          assert x[..d + 1] == x[..d] + [b] && y[..d + 1] == y[..d] + [b];
        }
      }
    }
    r
  }

  ghost predicate Single(m: Entries) {
    exists k :: k in m && m.Keys == {k}
  }

  ghost function OnlyKey(m: Entries): (k: Key)
    requires Single(m)
    ensures m.Keys == {k}
  {
    var k :| k in m && m.Keys == {k};
    k
  }

  lemma TwoKeysDiverge(m: Entries, d: nat)
    requires d <= KEY_BITS && Agree(m.Keys, d)
    requires m != map[] && !Single(m)
    ensures d < KEY_BITS
  {
    var k :| k in m;
    assert m.Keys == {k} + (m.Keys - {k});
    var j :| j in m.Keys - {k};
    assert k[..d] == j[..d] && k[..|k|] == k && j[..|j|] == j;
  }

  datatype Tree = Empty | Leaf(key: Key, value: Bytes) | Branch(left: Tree, right: Tree)

  /** The canonical tree of a map whose keys agree on their first `d` bits: a subtree holding
      one key is that leaf, and inner nodes appear wherever two keys are still together.  Two
      distinct keys cannot agree on all 256 bits, so the depth limit is never what decides. */
  ghost function Canon(m: Entries, d: nat): (t: Tree)
    decreases KEY_BITS - d
  {
    if m == map[] then Empty
    else if Single(m) then Leaf(OnlyKey(m), m[OnlyKey(m)])
    else if d >= KEY_BITS then Empty
    else Branch(Canon(Side(m, d, false), d + 1), Canon(Side(m, d, true), d + 1))
  }

  /** The ASCII bytes of `dnas-trie-empty`. */
  const EMPTY_TAG: Bytes := [100, 110, 97, 115, 45, 116, 114, 105, 101, 45, 101, 109, 112, 116, 121]

  /** The node forms a store holds, with children named by digest. */
  datatype Node = LeafNode(key: Key, value: Bytes) | InnerNode(left: Digest, right: Digest)

  /** The bytes a node's content address is the hash of.  The inner form carries no length
      prefix: it is unambiguous only because both children are digests of fixed width. */
  function Preimage(n: Node): (b: Bytes) {
    match n
    case LeafNode(k, v) => [0] + Pack(k) + v
    case InnerNode(l, r) => [1] + l + r
  }

  /** Distinct nodes, and the empty marker, have distinct preimages. */
  lemma PreimageUnique(a: Node, b: Node)
    ensures Preimage(a) != EMPTY_TAG
    ensures Preimage(a) == Preimage(b) ==> a == b
  {
    assert Preimage(a)[0] < 2 && EMPTY_TAG[0] == 100;
    if Preimage(a) == Preimage(b) {
      assert Preimage(a)[0] == Preimage(b)[0];
      match a {
        case LeafNode(k, v) =>
          assert b.LeafNode?;
          SplitUnique([0] + Pack(k), v, [0] + Pack(b.key), b.value);
          SplitUnique([0], Pack(k), [0], Pack(b.key));
          PackUnique(k, b.key);
        case InnerNode(l, r) =>
          assert b.InnerNode?;
          SplitUnique([1] + l, r, [1] + b.left, b.right);
          SplitUnique([1], l, [1], b.left);
      }
    }
  }

  /** The digest that commits a whole tree. */
  ghost function Root(h: HashFn, t: Tree): (d: Digest)
    decreases t, 2
  {
    h(TopPreimage(h, t))
  }

  ghost function TopPreimage(h: HashFn, t: Tree): (b: Bytes)
    decreases t, 1
  {
    if t.Empty? then EMPTY_TAG else Preimage(TopNode(h, t))
  }

  ghost function TopNode(h: HashFn, t: Tree): (n: Node)
    requires !t.Empty?
    decreases t, 0
  {
    match t
    case Leaf(k, v) => LeafNode(k, v)
    case Branch(l, r) => InnerNode(Root(h, l), Root(h, r))
  }

  /** Every preimage hashed on the way to the root of `t` lies in `u`. */
  ghost predicate HashedIn(h: HashFn, t: Tree, u: iset<Bytes>) {
    && TopPreimage(h, t) in u
    && (t.Branch? ==> HashedIn(h, t.left, u) && HashedIn(h, t.right, u))
  }
}
