// packages/evidence/src/merkle.ts: the level-by-level Merkle loop.
// SHA-256 is an arbitrary function to 32-byte digests; every binding statement
// therefore ends in "or here are two inputs with the same digest".
module Merkle {
  import opened Wrappers
  import opened Sorting
  import opened Text

  newtype byte = x: int | 0 <= x < 256

  type Bytes = seq<byte>
  type Hash = Bytes -> Bytes

  const DIGEST_BYTES := 32

  ghost predicate Digests(sha: Hash) {
    forall x :: |sha(x)| == DIGEST_BYTES
  }

  // ----- lowercase hexadecimal -----

  predicate IsSha256Hex(h: string) {
    |h| == 2 * DIGEST_BYTES && forall i :: 0 <= i < |h| ==> IsHexChar(h[i])
  }

  // Buffer.from(h, 'hex')
  function FromHex(h: string): (b: Bytes)
    requires |h| % 2 == 0 && forall i :: 0 <= i < |h| ==> IsHexChar(h[i])
    ensures |b| == |h| / 2
  {
    if h == [] then [] else [(16 * Nibble(h[0]) + Nibble(h[1])) as byte] + FromHex(h[2..])
  }

  // root.toString('hex')
  function ToHex(b: Bytes): (h: string)
    ensures |h| == 2 * |b|
    ensures forall i :: 0 <= i < |h| ==> IsHexChar(h[i])
  {
    if b == [] then [] else [HexChar(b[0] as int / 16), HexChar(b[0] as int % 16)] + ToHex(b[1..])
  }

  lemma {:induction false} HexRoundTrip(b: Bytes)
    ensures FromHex(ToHex(b)) == b
  {
    if b != [] {
      HexRoundTrip(b[1..]);
      assert ToHex(b)[2..] == ToHex(b[1..]);
    }
  }

  lemma {:induction false} HexInjective(g: string, h: string)
    requires IsSha256Hex(g) && IsSha256Hex(h)
    requires FromHex(g) == FromHex(h)
    ensures g == h
  {
    HexPairsInjective(g, h);
  }

  lemma {:induction false} HexPairsInjective(g: string, h: string)
    requires |g| == |h| && |g| % 2 == 0
    requires forall i :: 0 <= i < |g| ==> IsHexChar(g[i]) && IsHexChar(h[i])
    requires FromHex(g) == FromHex(h)
    ensures g == h
  {
    if g != [] {
      assert FromHex(g)[0] == FromHex(h)[0];
      assert FromHex(g)[1..] == FromHex(g[2..]) && FromHex(h)[1..] == FromHex(h[2..]);
      assert Nibble(g[0]) == Nibble(h[0]) && Nibble(g[1]) == Nibble(h[1]);
      HexPairsInjective(g[2..], h[2..]);
      assert g == g[..2] + g[2..] && h == h[..2] + h[2..];
    }
  }

  // ----- the tree of section 2.1 of RFC 6962, without its prefix bytes -----

  // The largest power of two below n.
  function Split(n: nat): (k: nat)
    requires n >= 2
    ensures 0 < k < n
  {
    if n == 2 then 1 else 2 * Split((n + 1) / 2)
  }

  function Pow2(e: nat): (p: nat)
    ensures p >= 1
  {
    if e == 0 then 1 else 2 * Pow2(e - 1)
  }

  lemma {:induction false} SplitIsLargestPowerOfTwo(n: nat) returns (e: nat)
    requires n >= 2
    ensures Split(n) == Pow2(e)
    ensures Split(n) < n <= 2 * Split(n)
  {
    if n == 2 {
      e := 0;
    } else {
      e := SplitIsLargestPowerOfTwo((n + 1) / 2);
      e := e + 1;
    }
  }

  function TreeHash(sha: Hash, leaves: seq<Bytes>): Bytes
    requires leaves != []
  {
    if |leaves| == 1 then
      leaves[0]
    else
      var k := Split(|leaves|);
      sha(TreeHash(sha, leaves[..k]) + TreeHash(sha, leaves[k..]))
  }

  // ----- one level of the loop -----

  function NextLevel(sha: Hash, level: seq<Bytes>): (next: seq<Bytes>)
    ensures |next| == (|level| + 1) / 2
  {
    if |level| < 2 then level else [sha(level[0] + level[1])] + NextLevel(sha, level[2..])
  }

  lemma {:induction false} NextLevelConcat(sha: Hash, a: seq<Bytes>, b: seq<Bytes>)
    requires |a| % 2 == 0
    ensures NextLevel(sha, a + b) == NextLevel(sha, a) + NextLevel(sha, b)
  {
    if a == [] {
      assert a + b == b;
    } else {
      var c := a + b;
      NextLevelConcat(sha, a[2..], b);
      assert c[0] == a[0] && c[1] == a[1] && c[2..] == a[2..] + b;
      var node := [sha(a[0] + a[1])];
      assert NextLevel(sha, c) == node + NextLevel(sha, c[2..]);
      assert NextLevel(sha, a) == node + NextLevel(sha, a[2..]);
    }
  }

  // Pairing neighbours and promoting an odd last node leaves the tree hash as it was.
  lemma {:induction false} NextLevelKeepsRoot(sha: Hash, s: seq<Bytes>)
    requires s != []
    ensures TreeHash(sha, NextLevel(sha, s)) == TreeHash(sha, s)
    decreases |s|
  {
    if |s| == 2 {
      assert NextLevel(sha, s) == [sha(s[0] + s[1])];
    } else if |s| > 2 {
      var k := Split(|s|);
      var left, right := s[..k], s[k..];
      assert s == left + right;
      NextLevelConcat(sha, left, right);
      NextLevelKeepsRoot(sha, left);
      NextLevelKeepsRoot(sha, right);
      RootOfHalves(sha, s);
      hide TreeHash, NextLevel;
      var l, r := NextLevel(sha, left), NextLevel(sha, right);
      SplitOfPaired(|s|);
      assert (l + r)[..|l|] == l && (l + r)[|l|..] == r;
      RootOfHalves(sha, l + r);
    }
  }

  lemma SplitOfPaired(n: nat)
    requires n > 2
    ensures Split(n) % 2 == 0 && Split((n + 1) / 2) == Split(n) / 2
  {
  }

  lemma RootOfHalves(sha: Hash, s: seq<Bytes>)
    requires |s| > 1
    ensures var k := Split(|s|);
            TreeHash(sha, s) == sha(TreeHash(sha, s[..k]) + TreeHash(sha, s[k..]))
  {
  }

  predicate AllHashes(hashes: seq<string>) {
    forall i :: 0 <= i < |hashes| ==> IsSha256Hex(hashes[i])
  }

  function Decoded(hashes: seq<string>): (leaves: seq<Bytes>)
    requires AllHashes(hashes)
    ensures |leaves| == |hashes|
    ensures forall i :: 0 <= i < |hashes| ==> |leaves[i]| == DIGEST_BYTES && leaves[i] == FromHex(hashes[i])
  {
    seq(|hashes|, i requires 0 <= i < |hashes| => FromHex(hashes[i]))
  }

  function Root(sha: Hash, hashes: seq<string>): string
    requires AllHashes(hashes)
  {
    ToHex(if hashes == [] then sha([]) else TreeHash(sha, Decoded(hashes)))
  }

  datatype MerkleError = NotAHash(index: nat)

  method PairUp(sha: Hash, level: seq<Bytes>) returns (next: seq<Bytes>)
    ensures next == NextLevel(sha, level)
  {
    next := [];
    var i := 0;
    assert level[0..] == level;
    while i < |level|
      invariant 0 <= i <= |level| + 1
      invariant NextLevel(sha, level) == next + NextLevel(sha, Rest(level, i))
    {
      NextLevelStep(sha, level, i, next);
      next := next + [if i + 1 < |level| then sha(level[i] + level[i + 1]) else level[i]];
      i := i + 2;
    }
  }

  function Rest(level: seq<Bytes>, i: nat): seq<Bytes> {
    if i <= |level| then level[i..] else []
  }

  lemma NextLevelStep(sha: Hash, level: seq<Bytes>, i: nat, done: seq<Bytes>)
    requires i < |level|
    ensures var node := if i + 1 < |level| then sha(level[i] + level[i + 1]) else level[i];
            done + NextLevel(sha, Rest(level, i)) == (done + [node]) + NextLevel(sha, Rest(level, i + 2))
  {
    var rest := level[i..];
    if i + 1 < |level| {
      assert rest[2..] == level[i + 2..];
    } else {
      assert rest == [level[i]];
    }
  }

  method MerkleRoot(sha: Hash, hashes: seq<string>) returns (r: Result<string, MerkleError>)
    ensures r.Ok? <==> AllHashes(hashes)
    ensures r.Ok? ==> r.value == Root(sha, hashes)
    ensures r.Err? ==> r.error.index < |hashes| && !IsSha256Hex(hashes[r.error.index])
                       && AllHashes(hashes[..r.error.index])
  {
    for n := 0 to |hashes|
      invariant AllHashes(hashes[..n])
    {
      if !IsSha256Hex(hashes[n]) {
        return Err(NotAHash(n));
      }
    }
    assert hashes[..|hashes|] == hashes;
    if hashes == [] {
      return Ok(ToHex(sha([])));
    }
    var level := Decoded(hashes);
    while |level| > 1
      invariant level != []
      invariant TreeHash(sha, level) == TreeHash(sha, Decoded(hashes))
      decreases |level|
    {
      NextLevelKeepsRoot(sha, level);
      level := PairUp(sha, level);
    }
    return Ok(ToHex(level[0]));
  }

  // ----- binding -----

  ghost predicate Collision(sha: Hash, x: Bytes, y: Bytes) {
    x != y && sha(x) == sha(y)
  }

  lemma {:induction false} TreeHashLength(sha: Hash, s: seq<Bytes>)
    requires Digests(sha) && s != []
    requires forall i :: 0 <= i < |s| ==> |s[i]| == DIGEST_BYTES
    ensures |TreeHash(sha, s)| == DIGEST_BYTES
  {
  }

  lemma {:induction false} TreeHashBinds(sha: Hash, a: seq<Bytes>, b: seq<Bytes>) returns (x: Bytes, y: Bytes)
    requires Digests(sha) && |a| == |b| > 0
    requires forall i :: 0 <= i < |a| ==> |a[i]| == |b[i]| == DIGEST_BYTES
    requires TreeHash(sha, a) == TreeHash(sha, b)
    ensures a == b || Collision(sha, x, y)
    decreases |a|
  {
    if |a| == 1 {
      x, y := [], [];
    } else {
      var k := Split(|a|);
      var la, ra, lb, rb := TreeHash(sha, a[..k]), TreeHash(sha, a[k..]), TreeHash(sha, b[..k]), TreeHash(sha, b[k..]);
      x, y := la + ra, lb + rb;
      if x == y {
        TreeHashLength(sha, a[..k]);
        TreeHashLength(sha, b[..k]);
        assert la == x[..DIGEST_BYTES] == y[..DIGEST_BYTES] == lb;
        assert ra == x[DIGEST_BYTES..] == y[DIGEST_BYTES..] == rb;
        x, y := TreeHashBinds(sha, a[..k], b[..k]);
        if a[..k] == b[..k] {
          x, y := TreeHashBinds(sha, a[k..], b[k..]);
          assert a == a[..k] + a[k..] && b == b[..k] + b[k..];
        }
      }
    }
  }

  // The pairs of list lengths between which the root binds.
  predicate LengthsBind(m: nat, n: nat) {
    m == n || (m == 0 && n >= 2) || (n == 0 && m >= 2)
  }

  // Two hash lists of such lengths with the same root are the same list, or the two returned byte
  // strings collide.
  lemma RootBinds(sha: Hash, g: seq<string>, h: seq<string>) returns (x: Bytes, y: Bytes)
    requires Digests(sha) && LengthsBind(|g|, |h|)
    requires AllHashes(g) && AllHashes(h)
    requires Root(sha, g) == Root(sha, h)
    ensures g == h || Collision(sha, x, y)
  {
    x, y := [], [];
    if |g| != |h| {
      y := PairBelowRoot(sha, if g == [] then h else g);
    } else if g != [] {
      HexRoundTrip(TreeHash(sha, Decoded(g)));
      HexRoundTrip(TreeHash(sha, Decoded(h)));
      x, y := TreeHashBinds(sha, Decoded(g), Decoded(h));
      if Decoded(g) == Decoded(h) {
        forall i | 0 <= i < |g|
          ensures g[i] == h[i]
        {
          assert Decoded(g)[i] == Decoded(h)[i];
          HexInjective(g[i], h[i]);
        }
      }
    }
  }

  // Of two leaves and more, the root is the digest of two digests, which are not the empty string.
  lemma PairBelowRoot(sha: Hash, h: seq<string>) returns (y: Bytes)
    requires Digests(sha) && AllHashes(h) && |h| >= 2
    ensures y != [] && (Root(sha, h) == Root(sha, []) ==> sha(y) == sha([]))
  {
    var leaves := Decoded(h);
    var k := Split(|leaves|);
    y := TreeHash(sha, leaves[..k]) + TreeHash(sha, leaves[k..]);
    TreeHashLength(sha, leaves[..k]);
    RootOfHalves(sha, leaves);
    HexRoundTrip(sha(y));
    HexRoundTrip(sha([]));
  }

  function Encoded(leaves: seq<Bytes>): (hashes: seq<string>)
    ensures |hashes| == |leaves|
  {
    seq(|leaves|, i requires 0 <= i < |leaves| => ToHex(leaves[i]))
  }

  predicate AreDigests(leaves: seq<Bytes>) {
    forall i :: 0 <= i < |leaves| ==> |leaves[i]| == DIGEST_BYTES
  }

  lemma DecodedEncoded(leaves: seq<Bytes>)
    requires AreDigests(leaves)
    ensures AllHashes(Encoded(leaves)) && Decoded(Encoded(leaves)) == leaves
  {
    forall i | 0 <= i < |leaves|
      ensures FromHex(Encoded(leaves)[i]) == leaves[i]
    {
      HexRoundTrip(leaves[i]);
    }
  }

  // Leaves and inner nodes are hashed alike: the one leaf that is the root of a list has that root too,
  // and so has the hash of the empty string the root of the empty list.
  lemma RootIsALeaf(sha: Hash, h: seq<string>)
    requires Digests(sha) && AllHashes(h)
    ensures AllHashes([Root(sha, h)]) && Root(sha, [Root(sha, h)]) == Root(sha, h)
  {
    var d := if h == [] then sha([]) else TreeHash(sha, Decoded(h));
    if h != [] { TreeHashLength(sha, Decoded(h)); }
    DecodedEncoded([d]);
    assert Encoded([d]) == [ToHex(d)];
  }

  // For any two lengths from 1 on, leaf lists of these lengths with one tree hash.
  lemma {:induction false} SameTreeHash(sha: Hash, m: nat, n: nat) returns (a: seq<Bytes>, b: seq<Bytes>)
    requires Digests(sha) && m >= 1 && n >= 1
    ensures |a| == m && |b| == n && AreDigests(a) && AreDigests(b) && TreeHash(sha, a) == TreeHash(sha, b)
  {
    if m == 1 {
      b := seq(n, _ => sha([]));
      TreeHashLength(sha, b);
      a := [TreeHash(sha, b)];
    } else if n == 1 {
      b, a := SameTreeHash(sha, n, m);
    } else {
      var la, lb := SameTreeHash(sha, Split(m), Split(n));
      var ra, rb := SameTreeHash(sha, m - Split(m), n - Split(n));
      a, b := la + ra, lb + rb;
      assert a[..Split(m)] == la && a[Split(m)..] == ra && b[..Split(n)] == lb && b[Split(n)..] == rb;
      RootOfHalves(sha, a);
      RootOfHalves(sha, b);
    }
  }

  // Between all other lengths it does not bind: there are two lists with one root.
  lemma OtherLengthsDoNotBind(sha: Hash, m: nat, n: nat) returns (g: seq<string>, h: seq<string>)
    requires Digests(sha) && !LengthsBind(m, n)
    ensures |g| == m && |h| == n && g != h && AllHashes(g) && AllHashes(h) && Root(sha, g) == Root(sha, h)
  {
    if m == 0 {
      RootIsALeaf(sha, []);
      g, h := [], [Root(sha, [])];
    } else if n == 0 {
      RootIsALeaf(sha, []);
      g, h := [Root(sha, [])], [];
    } else {
      var a, b := SameTreeHash(sha, m, n);
      g, h := Encoded(a), Encoded(b);
      DecodedEncoded(a);
      DecodedEncoded(b);
    }
  }

  // ----- sortedMerkleRoot -----

  method SortedMerkleRoot(sha: Hash, hashes: seq<string>) returns (r: Result<string, MerkleError>)
    ensures r.Ok? <==> AllHashes(hashes)
    ensures r.Ok? ==> AllHashes(SortBy(hashes, AtMost)) && r.value == Root(sha, SortBy(hashes, AtMost))
  {
    var sorted := SortBy(hashes, AtMost);
    MultisetMembers(hashes, sorted);
    assert forall i :: 0 <= i < |sorted| ==> sorted[i] in hashes;
    assert forall i :: 0 <= i < |hashes| ==> hashes[i] in sorted;
    r := MerkleRoot(sha, sorted);
  }

  // The sorted list, and so the sorted root, is the same exactly for the same multiset of hashes.
  lemma SortedInputIsTheMultiset(g: seq<string>, h: seq<string>)
    ensures SortBy(g, AtMost) == SortBy(h, AtMost) <==> multiset(g) == multiset(h)
  {
    AtMostOrders();
    if multiset(g) == multiset(h) {
      assert Separates(g, AtMost);
      SortByOrderFree(g, h, AtMost);
    }
  }
}
