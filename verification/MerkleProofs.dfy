/**
 Merkle inclusion proofs (sdk/src/ProofOfReserves.ts, `verifyMerkleProof`). SHA-256 is a parameter `sha`, any
 function whose digests have one length.
 */
module MerkleProofs {
  import opened ByteLayout
  import opened Sequences

  /** `indices[i]` says that the sibling at level i stands on the left. */
  datatype MerkleProof = MerkleProof(leaf: string, siblings: seq<string>, indices: seq<bool>)

  const DIGEST_SIZE := 32

  ghost predicate IsDigest(sha: Bytes -> Bytes) {
    forall b :: |sha(b)| == DIGEST_SIZE
  }

  function Combined(current: Bytes, sibling: Bytes, siblingIsLeft: bool): Bytes {
    if siblingIsLeft then sibling + current else current + sibling
  }

  function Twice(sha: Bytes -> Bytes, b: Bytes): Bytes {
    sha(sha(b))
  }

  /** The node reached from `current` by hashing it with its siblings, level by level. */
  function Climb(sha: Bytes -> Bytes, current: Bytes, siblings: seq<Bytes>, indices: seq<bool>): Bytes
    requires |siblings| == |indices|
    decreases |siblings|
  {
    if siblings == [] then current
    else Climb(sha, Twice(sha, Combined(current, siblings[0], indices[0])), siblings[1..], indices[1..])
  }

  /** Everything that is put through `sha` on the way. */
  function Hashed(sha: Bytes -> Bytes, current: Bytes, siblings: seq<Bytes>, indices: seq<bool>): seq<Bytes>
    requires |siblings| == |indices|
    decreases |siblings|
  {
    if siblings == [] then []
    else
      var combined := Combined(current, siblings[0], indices[0]);
      [combined, sha(combined)] + Hashed(sha, Twice(sha, combined), siblings[1..], indices[1..])
  }

  function Decoded(texts: seq<string>): (r: seq<Bytes>)
    ensures |r| == |texts|
  {
    seq(|texts|, i requires 0 <= i < |texts| => FromHex(texts[i]))
  }

  function HashedBy(sha: Bytes -> Bytes, proof: MerkleProof): seq<Bytes>
    requires |proof.siblings| == |proof.indices|
  {
    Hashed(sha, FromHex(proof.leaf), Decoded(proof.siblings), proof.indices)
  }

  predicate Verifies(sha: Bytes -> Bytes, proof: MerkleProof, root: string) {
    && |proof.siblings| == |proof.indices|
    && ToHex(Climb(sha, FromHex(proof.leaf), Decoded(proof.siblings), proof.indices)) == LowerCase(root)
  }

  method VerifyMerkleProof(sha: Bytes -> Bytes, proof: MerkleProof, root: string) returns (ok: bool)
    ensures ok == Verifies(sha, proof, root)
  {
    if |proof.siblings| != |proof.indices| {
      return false;
    }
    ghost var siblings := Decoded(proof.siblings);
    var current := FromHex(proof.leaf);
    for i := 0 to |proof.siblings|
      invariant Climb(sha, current, siblings[i..], proof.indices[i..])
             == Climb(sha, FromHex(proof.leaf), siblings, proof.indices)
    {
      var sibling := FromHex(proof.siblings[i]);
      var siblingIsLeft := proof.indices[i];
      assert siblings[i..][1..] == siblings[i + 1..] && proof.indices[i..][1..] == proof.indices[i + 1..];
      var combined := if siblingIsLeft then sibling + current else current + sibling;
      var first := sha(combined);
      current := sha(first);
    }
    return ToHex(current) == LowerCase(root);
  }

  // ----- Soundness -----

  ghost predicate Collision(sha: Bytes -> Bytes, x: Bytes, y: Bytes) {
    x != y && sha(x) == sha(y)
  }

  /** Whatever the siblings are, nodes of one length stay apart when they are combined on the same side. */
  lemma {:induction false} CombinedApart(a: Bytes, b: Bytes, s: Bytes, t: Bytes, left: bool)
    requires |a| == |b| && a != b
    ensures Combined(a, s, left) != Combined(b, t, left)
  {
    if left {
      var x, y := s + a, t + b;
      assert x[|x| - |a|..] == a && y[|y| - |b|..] == b;
    } else {
      assert (a + s)[..|a|] == a && (b + t)[..|b|] == b;
    }
  }

  /** Two climbs from different nodes of one length to one place have hashed a collision. */
  lemma {:induction false} ClimbsCollide(
    sha: Bytes -> Bytes, a: Bytes, b: Bytes, s: seq<Bytes>, t: seq<Bytes>, indices: seq<bool>)
      returns (x: Bytes, y: Bytes)
    requires IsDigest(sha) && |s| == |t| == |indices|
    requires |a| == |b| && a != b && Climb(sha, a, s, indices) == Climb(sha, b, t, indices)
    ensures Collision(sha, x, y) && x in Hashed(sha, a, s, indices) && y in Hashed(sha, b, t, indices)
    decreases |s|
  {
    var ca, cb := Combined(a, s[0], indices[0]), Combined(b, t[0], indices[0]);
    CombinedApart(a, b, s[0], t[0], indices[0]);
    if sha(ca) == sha(cb) {
      x, y := ca, cb;
    } else if sha(sha(ca)) == sha(sha(cb)) {
      x, y := sha(ca), sha(cb);
    } else {
      x, y := ClimbsCollide(sha, Twice(sha, ca), Twice(sha, cb), s[1..], t[1..], indices[1..]);
    }
  }

  /**
   Two proofs with the same directions and different leaves of one length cannot both verify against one root
   unless checking them has put two distinct inputs with one digest through SHA-256.
   */
  lemma {:induction false} TwoLeavesNeedACollision(sha: Bytes -> Bytes, p: MerkleProof, q: MerkleProof, root: string)
    returns (x: Bytes, y: Bytes)
    requires IsDigest(sha) && Verifies(sha, p, root) && Verifies(sha, q, root) && p.indices == q.indices
    requires |FromHex(p.leaf)| == |FromHex(q.leaf)| && FromHex(p.leaf) != FromHex(q.leaf)
    ensures Collision(sha, x, y) && x in HashedBy(sha, p) && y in HashedBy(sha, q)
  {
    var a, b := FromHex(p.leaf), FromHex(q.leaf);
    ToHexInjective(Climb(sha, a, Decoded(p.siblings), p.indices), Climb(sha, b, Decoded(q.siblings), q.indices));
    x, y := ClimbsCollide(sha, a, b, Decoded(p.siblings), Decoded(q.siblings), p.indices);
  }

  function OneLevel(leaf: Bytes, sibling: Bytes): MerkleProof {
    MerkleProof(ToHex(leaf), [ToHex(sibling)], [false])
  }

  lemma {:induction false} OneLevelClimb(sha: Bytes -> Bytes, a: Bytes, b: Bytes, left: bool)
    ensures Climb(sha, FromHex(ToHex(a)), Decoded([ToHex(b)]), [left]) == sha(sha(if left then b + a else a + b))
  {
    FromToHex(a);
    FromToHex(b);
    assert Decoded([ToHex(b)]) == [b];
    assert [b][1..] == [] && [left][1..] == [];
  }

  lemma {:induction false} NoLevelClimb(sha: Bytes -> Bytes, a: Bytes)
    ensures Climb(sha, FromHex(ToHex(a)), Decoded([]), []) == a
  {
    FromToHex(a);
  }

  /** Without siblings the leaf is the root; with one, the root is the double digest of both, the left one first. */
  lemma {:induction false} OneLevelIsDoubleHash(sha: Bytes -> Bytes, a: Bytes, b: Bytes, root: string)
    ensures var leaf, sibling, text := ToHex(a), ToHex(b), LowerCase(root);
      && (Verifies(sha, MerkleProof(leaf, [], []), root) <==> text == ToHex(a))
      && (Verifies(sha, MerkleProof(leaf, [sibling], [false]), root) <==> text == ToHex(sha(sha(a + b))))
      && (Verifies(sha, MerkleProof(leaf, [sibling], [true]), root) <==> text == ToHex(sha(sha(b + a))))
  {
    NoLevelClimb(sha, a);
    OneLevelClimb(sha, a, b, false);
    OneLevelClimb(sha, a, b, true);
  }

  /**
   The lengths do matter: for every `sha`, bytes moved from the end of a leaf to the front of its sibling leave the
   proof valid, because nothing marks where a leaf ends.
   */
  lemma {:induction false} LeafLengthsMatter(sha: Bytes -> Bytes, a: Bytes, b: Bytes, c: Bytes)
    requires b != []
    ensures var root := ToHex(sha(sha(a + b + c)));
      && Verifies(sha, OneLevel(a + b, c), root) && Verifies(sha, OneLevel(a, b + c), root)
      && FromHex(OneLevel(a + b, c).leaf) != FromHex(OneLevel(a, b + c).leaf)
  {
    var whole := a + b + c;
    OneLevelVerifies(sha, a + b, c, whole);
    assert whole == a + (b + c);
    OneLevelVerifies(sha, a, b + c, whole);
    LongerLeafDiffers(a, b, c);
  }

  lemma {:induction false} LongerLeafDiffers(a: Bytes, b: Bytes, c: Bytes)
    requires b != []
    ensures FromHex(OneLevel(a + b, c).leaf) != FromHex(OneLevel(a, b + c).leaf)
  {
    FromToHex(a + b);
    FromToHex(a);
    assert |a + b| != |a|;
  }

  lemma {:induction false} OneLevelVerifies(sha: Bytes -> Bytes, leaf: Bytes, sibling: Bytes, whole: Bytes)
    requires whole == leaf + sibling
    ensures Verifies(sha, OneLevel(leaf, sibling), ToHex(sha(sha(whole))))
  {
    assert Climb(sha, FromHex(ToHex(leaf)), Decoded([ToHex(sibling)]), [false]) == sha(sha(whole)) by {
      OneLevelClimb(sha, leaf, sibling, false);
    }
    HexIsLowerCase(sha(sha(whole)));
  }

  lemma {:induction false} HexIsLowerCase(b: Bytes)
    ensures LowerCase(ToHex(b)) == ToHex(b)
  {
    if b != [] {
      HexIsLowerCase(b[1..]);
      LowerCasePairs(ToHex(b));
      assert ToHex(b)[2..] == ToHex(b[1..]);
    }
  }

  // ----- Completeness -----

  datatype Tree = Leaf(data: Bytes) | Node(left: Tree, right: Tree)

  /** A parent is the double SHA-256 of its children, left before right. */
  function RootOf(sha: Bytes -> Bytes, t: Tree): Bytes {
    match t
    case Leaf(data) => data
    case Node(left, right) => sha(sha(RootOf(sha, left) + RootOf(sha, right)))
  }

  /** `path` leads from the root of `t` to a leaf; true turns right. */
  predicate LeadsToLeaf(t: Tree, path: seq<bool>) {
    match t
    case Leaf(_) => path == []
    case Node(left, right) => path != [] && LeadsToLeaf(if path[0] then right else left, path[1..])
  }

  function LeafAt(t: Tree, path: seq<bool>): Bytes
    requires LeadsToLeaf(t, path)
  {
    match t
    case Leaf(data) => data
    case Node(left, right) => LeafAt(if path[0] then right else left, path[1..])
  }

  /** The siblings along the path and their sides, from the leaf up. */
  function SiblingsOf(sha: Bytes -> Bytes, t: Tree, path: seq<bool>): (s: seq<Bytes>)
    requires LeadsToLeaf(t, path)
    ensures |s| == |path|
  {
    match t
    case Leaf(_) => []
    case Node(left, right) =>
      if path[0] then SiblingsOf(sha, right, path[1..]) + [RootOf(sha, left)]
      else SiblingsOf(sha, left, path[1..]) + [RootOf(sha, right)]
  }

  lemma {:induction false} ClimbOneMore(
    sha: Bytes -> Bytes, a: Bytes, siblings: seq<Bytes>, indices: seq<bool>, last: Bytes, lastIsLeft: bool)
    requires |siblings| == |indices|
    ensures Climb(sha, a, siblings + [last], indices + [lastIsLeft])
         == Twice(sha, Combined(Climb(sha, a, siblings, indices), last, lastIsLeft))
    decreases |siblings|
  {
    if siblings == [] {
      assert siblings + [last] == [last] && indices + [lastIsLeft] == [lastIsLeft];
      assert [last][1..] == [] && [lastIsLeft][1..] == [];
    } else {
      var parent := Twice(sha, Combined(a, siblings[0], indices[0]));
      ClimbOneMore(sha, parent, siblings[1..], indices[1..], last, lastIsLeft);
      assert (siblings + [last])[1..] == siblings[1..] + [last];
      assert (indices + [lastIsLeft])[1..] == indices[1..] + [lastIsLeft];
    }
  }

  lemma {:induction false} PathClimbsToRoot(sha: Bytes -> Bytes, t: Tree, path: seq<bool>)
    requires LeadsToLeaf(t, path)
    ensures Climb(sha, LeafAt(t, path), SiblingsOf(sha, t, path), Reversed(path)) == RootOf(sha, t)
    decreases t
  {
    match t
    case Leaf(_) =>
    case Node(left, right) =>
      var child, other := if path[0] then right else left, if path[0] then left else right;
      PathClimbsToRoot(sha, child, path[1..]);
      ClimbOneMore(sha, LeafAt(t, path), SiblingsOf(sha, child, path[1..]), Reversed(path[1..]),
                   RootOf(sha, other), path[0]);
  }

  function ProofOf(sha: Bytes -> Bytes, t: Tree, path: seq<bool>): MerkleProof
    requires LeadsToLeaf(t, path)
  {
    var siblings := SiblingsOf(sha, t, path);
    MerkleProof(ToHex(LeafAt(t, path)),
                seq(|siblings|, i requires 0 <= i < |siblings| => ToHex(siblings[i])),
                Reversed(path))
  }

  lemma {:induction false} ProofDecodes(sha: Bytes -> Bytes, t: Tree, path: seq<bool>)
    requires LeadsToLeaf(t, path)
    ensures Decoded(ProofOf(sha, t, path).siblings) == SiblingsOf(sha, t, path)
    ensures FromHex(ProofOf(sha, t, path).leaf) == LeafAt(t, path)
  {
    FromToHex(LeafAt(t, path));
    var siblings := SiblingsOf(sha, t, path);
    forall i | 0 <= i < |siblings| ensures FromHex(ToHex(siblings[i])) == siblings[i] { FromToHex(siblings[i]); }
  }

  /** Every leaf of every tree has a proof that verifies against the root, written in either case. */
  lemma {:induction false} EveryLeafVerifies(sha: Bytes -> Bytes, t: Tree, path: seq<bool>, root: string)
    requires LeadsToLeaf(t, path) && LowerCase(root) == ToHex(RootOf(sha, t))
    ensures Verifies(sha, ProofOf(sha, t, path), root)
  {
    ProofDecodes(sha, t, path);
    PathClimbsToRoot(sha, t, path);
  }

  /**
   Against the root of a tree, a proof along some path verifies only the leaf that is there, among leaves of its
   length, or else exposes a collision.
   */
  lemma {:induction false} OnlyTheLeafVerifies(
      sha: Bytes -> Bytes, t: Tree, path: seq<bool>, proof: MerkleProof, root: string)
    requires IsDigest(sha) && LeadsToLeaf(t, path) && LowerCase(root) == ToHex(RootOf(sha, t))
    requires Verifies(sha, proof, root) && proof.indices == Reversed(path)
    requires |FromHex(proof.leaf)| == |LeafAt(t, path)|
    ensures FromHex(proof.leaf) == LeafAt(t, path)
         || exists x, y ::
              Collision(sha, x, y) && x in HashedBy(sha, proof) && y in HashedBy(sha, ProofOf(sha, t, path))
  {
    EveryLeafVerifies(sha, t, path, root);
    ProofDecodes(sha, t, path);
    if FromHex(proof.leaf) != LeafAt(t, path) {
      var x, y := TwoLeavesNeedACollision(sha, proof, ProofOf(sha, t, path), root);
    }
  }

  /** The same proof and root up to the case of their hexadecimal digits. */
  predicate SameUpToCase(p: MerkleProof, q: MerkleProof) {
    && LowerCase(p.leaf) == LowerCase(q.leaf) && p.indices == q.indices && |p.siblings| == |q.siblings|
    && forall i :: 0 <= i < |p.siblings| ==> LowerCase(p.siblings[i]) == LowerCase(q.siblings[i])
  }

  lemma {:induction false} SameBytes(a: string, b: string)
    requires LowerCase(a) == LowerCase(b)
    ensures FromHex(a) == FromHex(b)
  {
    HexIgnoresCase(a);
    HexIgnoresCase(b);
  }

  /** Neither the case of the proof nor that of the root matters. */
  lemma {:induction false} CaseIsIgnored(sha: Bytes -> Bytes, p: MerkleProof, q: MerkleProof, r: string, root: string)
    requires SameUpToCase(p, q) && LowerCase(r) == LowerCase(root)
    ensures Verifies(sha, p, r) <==> Verifies(sha, q, root)
  {
    SameBytes(p.leaf, q.leaf);
    forall i | 0 <= i < |p.siblings| ensures FromHex(p.siblings[i]) == FromHex(q.siblings[i]) {
      SameBytes(p.siblings[i], q.siblings[i]);
    }
    assert Decoded(p.siblings) == Decoded(q.siblings);
  }
}
