/**
 The tree of stored block headers and the path from genesis to any of them.  A header's hash is a
 field; a store never holds two headers under one hash.
 */
module HeaderTree {

  type Hash = nat

  datatype Header = Header(
    hash: Hash,
    height: nat,
    prevHash: Hash,
    work: nat,       // total difficulty
    prevRoot: Hash,  // root of the header MMR before this header
    timestamp: nat,
    scaling: nat,       // secondary scaling
    isSecondary: bool)  // mined with the secondary proof of work

  type Headers = map<Hash, Header>

  // Every header but genesis hangs under a stored header one lower.
  ghost predicate WellFormed(m: Headers, g: Hash) {
    && g in m && m[g].height == 0
    && (forall k :: k in m ==> m[k].hash == k)
    && (forall k {:trigger m[k].prevHash} :: k in m && k != g ==>
          m[k].prevHash in m && m[k].height == m[m[k].prevHash].height + 1)
  }

  // Along every path, timestamps and work rise; genesis follows no stored header.
  ghost predicate Climbs(m: Headers, g: Hash) {
    && g in m && m[g].prevHash !in m
    && forall k {:trigger m[k].prevHash} :: k in m && k != g && m[k].prevHash in m ==>
         m[k].timestamp > m[m[k].prevHash].timestamp && m[k].work > m[m[k].prevHash].work
  }

  ghost function Path(m: Headers, g: Hash, k: Hash): seq<Hash>
    requires WellFormed(m, g) && k in m
    decreases m[k].height
  {
    if k == g then [g] else Path(m, g, m[k].prevHash) + [k]
  }

  // m' holds all of m.
  ghost predicate Within(m: Headers, m': Headers) {
    forall k :: k in m ==> k in m' && m'[k] == m[k]
  }

  lemma {:induction false} PathWithin(m: Headers, m': Headers, g: Hash, k: Hash)
    requires WellFormed(m, g) && WellFormed(m', g) && Within(m, m') && k in m
    ensures k in m' && Path(m', g, k) == Path(m, g, k)
    decreases m[k].height
  {
    if k != g { PathWithin(m, m', g, m[k].prevHash); }
  }

  lemma {:induction false} PathShape(m: Headers, g: Hash, k: Hash)
    requires WellFormed(m, g) && k in m
    ensures |Path(m, g, k)| == m[k].height + 1
    ensures Path(m, g, k)[m[k].height] == k
    ensures Path(m, g, k)[0] == g
    decreases m[k].height
  {
    if k != g { PathShape(m, g, m[k].prevHash); }
  }

  // The hash at height i of a path is a stored header of that height, and the path to it is
  // the prefix of the path.
  lemma {:induction false} PathPrefix(m: Headers, g: Hash, k: Hash, i: nat)
    requires WellFormed(m, g) && k in m && i <= m[k].height
    ensures |Path(m, g, k)| == m[k].height + 1
    ensures Path(m, g, k)[i] in m && m[Path(m, g, k)[i]].height == i
    ensures Path(m, g, Path(m, g, k)[i]) == Path(m, g, k)[..i + 1]
    decreases m[k].height
  {
    PathShape(m, g, k);
    var p := Path(m, g, k);
    if i == m[k].height {
      assert p[..i + 1] == p;
    } else {
      var q := Path(m, g, m[k].prevHash);
      PathPrefix(m, g, m[k].prevHash, i);
      assert p[..i + 1] == q[..i + 1];
    }
  }

  // Adding a header that is new, and hangs under a stored one, keeps every path.
  lemma Grows(m: Headers, g: Hash, h: Header)
    requires WellFormed(m, g)
    requires h.hash in m ==> m[h.hash] == h
    requires h.hash !in m ==> h.prevHash in m && h.height == m[h.prevHash].height + 1
    ensures WellFormed(m[h.hash := h], g)
  {
  }

  lemma {:induction false} PathKept(m: Headers, g: Hash, h: Header, k: Hash)
    requires WellFormed(m, g) && k in m
    requires h.hash in m ==> m[h.hash] == h
    requires WellFormed(m[h.hash := h], g)
    ensures Path(m[h.hash := h], g, k) == Path(m, g, k)
    decreases m[k].height
  {
    if k != g { PathKept(m, g, h, m[k].prevHash); }
  }

  // ----- common prefixes -----

  // How many leading elements two paths share.
  function Common(p: seq<Hash>, q: seq<Hash>): (n: nat)
    ensures n <= |p| && n <= |q|
    ensures p[..n] == q[..n]
    ensures n < |p| && n < |q| ==> p[n] != q[n]
  {
    if p == [] || q == [] || p[0] != q[0] then 0 else
      var n := Common(p[1..], q[1..]);
      assert p[..1 + n] == [p[0]] + p[1..][..n];
      assert q[..1 + n] == [q[0]] + q[1..][..n];
      1 + n
  }

  lemma {:induction false} CommonOf(p: seq<Hash>, q: seq<Hash>, n: nat)
    requires n <= |p| && n <= |q| && p[..n] == q[..n]
    requires n < |p| && n < |q| ==> p[n] != q[n]
    ensures Common(p, q) == n
  {
    if n > 0 {
      assert p[0] == p[..n][0] == q[..n][0] == q[0];
      assert p[1..][..n - 1] == p[..n][1..] && q[1..][..n - 1] == q[..n][1..];
      CommonOf(p[1..], q[1..], n - 1);
    }
  }

  // The two differ wherever both reach beyond position i.
  ghost predicate Apart(p: seq<Hash>, q: seq<Hash>, i: nat) {
    forall j :: i < j < |p| && j < |q| ==> p[j] != q[j]
  }

  lemma ApartStep(p: seq<Hash>, q: seq<Hash>, i: nat)
    requires 0 < i && Apart(p, q, i)
    requires i < |p| && i < |q| ==> p[i] != q[i]
    ensures Apart(p, q, i - 1)
  {
  }

  // Two paths that agree at a height agree below it, so the last agreement is where they fork.
  lemma CommonIs(m: Headers, g: Hash, a: Hash, b: Hash, i: nat)
    requires WellFormed(m, g) && a in m && b in m
    requires i <= m[a].height && |Path(m, g, a)| == m[a].height + 1
    requires i < |Path(m, g, b)| && Path(m, g, a)[i] == Path(m, g, b)[i]
    requires Apart(Path(m, g, a), Path(m, g, b), i)
    ensures Common(Path(m, g, a), Path(m, g, b)) == i + 1
  {
    var p, q := Path(m, g, a), Path(m, g, b);
    PathShape(m, g, b);
    assert p[..i + 1] == q[..i + 1] by {
      PathPrefix(m, g, a, i);
      PathPrefix(m, g, b, i);
    }
    CommonOf(p, q, i + 1);
  }
}
