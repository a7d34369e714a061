/**
Message ancestry: what `backend/context_capture.py` has to list, stated with paths and nothing of
the algorithm.
*/
module MessageGraph {
  import opened Common

  type Node = nat

  datatype Message = Message(parents: seq<Node>, stamp: int)

  /** The stored messages of a session; a parent may be missing. */
  type Graph = map<Node, Message>

  /** A walk from a message to one of its ancestors. */
  ghost predicate Walk(g: Graph, p: seq<Node>) {
    && p != []
    && forall i :: 0 <= i < |p| - 1 ==> p[i] in g && p[i + 1] in g[p[i]].parents
  }

  /** `a` is `n` or lies behind it. */
  ghost predicate Ancestor(g: Graph, n: Node, a: Node) {
    exists p :: Walk(g, p) && p[0] == n && p[|p| - 1] == a
  }

  /** A walk of at least one step inside `s` that comes back to where it began. */
  ghost predicate CycleIn(g: Graph, s: set<Node>) {
    exists p :: Cycle(g, s, p)
  }

  ghost predicate Cycle(g: Graph, s: set<Node>, p: seq<Node>) {
    Walk(g, p) && |p| >= 2 && p[0] == p[|p| - 1] && forall i :: 0 <= i < |p| ==> p[i] in s
  }

  ghost predicate Distinct(l: seq<Node>) {
    forall i, j :: 0 <= i < j < |l| ==> l[i] != l[j]
  }

  /** Every message in the list is stored, and each of its parents comes earlier. */
  ghost predicate ParentsFirst(g: Graph, l: seq<Node>) {
    forall i :: 0 <= i < |l| ==> l[i] in g && forall q :: q in g[l[i]].parents ==> q in l[..i]
  }

  /** The list holds exactly the ancestors of the head, each once, parents before children. */
  ghost predicate Certified(g: Graph, head: Option<Node>, l: seq<Node>) {
    && Distinct(l)
    && ParentsFirst(g, l)
    && forall x :: x in l <==> head.Some? && Ancestor(g, head.value, x)
  }

  /** Every ancestor of the head is stored, and none is its own proper ancestor. */
  ghost predicate Sound(g: Graph, head: Option<Node>) {
    head.Some? ==>
      && (forall a :: Ancestor(g, head.value, a) ==> a in g)
      && (forall s :: (forall x :: x in s ==> Ancestor(g, head.value, x)) ==> !CycleIn(g, s))
  }

  // ---- walks ---------------------------------------------------------------------------------

  lemma AncestorSelf(g: Graph, n: Node)
    ensures Ancestor(g, n, n)
  {
    assert Walk(g, [n]) && [n][0] == n;
  }

  lemma AncestorParent(g: Graph, n: Node, a: Node, q: Node)
    requires Ancestor(g, n, a) && a in g && q in g[a].parents
    ensures Ancestor(g, n, q)
  {
    var p :| Walk(g, p) && p[0] == n && p[|p| - 1] == a;
    var p' := p + [q];
    assert Walk(g, p') && p'[0] == n && p'[|p'| - 1] == q;
  }

  /** Two walks that meet can be joined. */
  lemma Joined(g: Graph, p: seq<Node>, r: seq<Node>)
    requires Walk(g, p) && Walk(g, r) && p[|p| - 1] == r[0]
    ensures Walk(g, p + r[1..])
    ensures (p + r[1..])[0] == p[0] && (p + r[1..])[|p + r[1..]| - 1] == r[|r| - 1]
  {
    var j := p + r[1..];
    forall i | 0 <= i < |j| - 1
      ensures j[i] in g && j[i + 1] in g[j[i]].parents
    {
      if i >= |p| - 1 {
        assert j[i] == r[i - |p| + 1] && j[i + 1] == r[i - |p| + 2];
      }
    }
  }

  lemma AncestorTransitive(g: Graph, n: Node, a: Node, b: Node)
    requires Ancestor(g, n, a) && Ancestor(g, a, b)
    ensures Ancestor(g, n, b)
  {
    var p :| Walk(g, p) && p[0] == n && p[|p| - 1] == a;
    var r :| Walk(g, r) && r[0] == a && r[|r| - 1] == b;
    Joined(g, p, r);
  }

  lemma WalkPart(g: Graph, p: seq<Node>, i: nat, j: nat)
    requires Walk(g, p) && i <= j < |p|
    ensures Walk(g, p[i..j + 1]) && p[i..j + 1][0] == p[i] && p[i..j + 1][j - i] == p[j]
  {
    var r := p[i..j + 1];
    forall k | 0 <= k < |r| - 1
      ensures r[k] in g && r[k + 1] in g[r[k]].parents
    {
      assert r[k] == p[i + k] && r[k + 1] == p[i + k + 1];
    }
  }

  /** A set that contains the parents of its members contains every walk that starts in it. */
  lemma {:induction false} WalkStays(g: Graph, s: set<Node>, p: seq<Node>, i: nat)
    requires Walk(g, p) && p[0] in s && i < |p|
    requires forall x, q :: x in s && x in g && q in g[x].parents ==> q in s
    ensures p[i] in s
  {
    if i > 0 {
      WalkStays(g, s, p, i - 1);
    }
  }

  // ---- ordered lists and cycles ----------------------------------------------------------------

  /** Along a walk inside a list that puts parents first, positions only go down. */
  lemma {:induction false} WalkDescends(g: Graph, l: seq<Node>, p: seq<Node>, i: nat, k: nat)
    requires ParentsFirst(g, l) && Walk(g, p) && i < |p| && k < |l| && l[k] == p[0]
    ensures exists m :: 0 <= m <= k - i && m < |l| && l[m] == p[i]
  {
    if i > 0 {
      WalkDescends(g, l, p, i - 1, k);
      var m :| 0 <= m <= k - (i - 1) && m < |l| && l[m] == p[i - 1];
      assert p[i] in g[l[m]].parents;
      var m' :| 0 <= m' < m && l[..m][m'] == p[i];
    }
  }

  /** A list that puts parents first holds no cycle. */
  lemma OrderedHasNoCycle(g: Graph, l: seq<Node>, s: set<Node>)
    requires Distinct(l) && ParentsFirst(g, l) && forall x :: x in s ==> x in l
    ensures !CycleIn(g, s)
  {
    if p :| Cycle(g, s, p) {
      var k :| 0 <= k < |l| && l[k] == p[0];
      WalkDescends(g, l, p, |p| - 1, k);
    }
  }

  /** A list of members of `s` that is longer than `s` repeats one. */
  lemma {:induction false} Pigeonhole(s: set<Node>, p: seq<Node>)
    requires |p| > |s| && forall i :: 0 <= i < |p| ==> p[i] in s
    ensures exists i, j :: 0 <= i < j < |p| && p[i] == p[j]
  {
    var last := p[|p| - 1];
    if j :| 0 <= j < |p| - 1 && p[j] == last {
      assert p[j] == p[|p| - 1];
    } else {
      Pigeonhole(s - {last}, p[..|p| - 1]);
      var i, j :| 0 <= i < j < |p| - 1 && p[..|p| - 1][i] == p[..|p| - 1][j];
      assert p[i] == p[j];
    }
  }

  ghost predicate ParentIn(g: Graph, s: set<Node>, x: Node) {
    x in g && exists q :: q in g[x].parents && q in s
  }

  /** Inside a set where everyone has a parent there are walks of any length. */
  lemma {:induction false} LongWalk(g: Graph, s: set<Node>, n: nat) returns (p: seq<Node>)
    requires s != {} && forall x :: x in s ==> ParentIn(g, s, x)
    ensures Walk(g, p) && |p| == n + 1 && forall i :: 0 <= i < |p| ==> p[i] in s
  {
    if n == 0 {
      var x :| x in s;
      p := [x];
    } else {
      var r := LongWalk(g, s, n - 1);
      assert ParentIn(g, s, r[n - 1]);
      var q :| q in g[r[n - 1]].parents && q in s;
      p := r + [q];
    }
  }

  /** A nonempty set in which everyone has a parent contains a cycle. */
  lemma StuckHasCycle(g: Graph, s: set<Node>)
    requires s != {} && forall x :: x in s ==> ParentIn(g, s, x)
    ensures CycleIn(g, s)
  {
    var p := LongWalk(g, s, |s|);
    Pigeonhole(s, p);
    var i, j :| 0 <= i < j < |p| && p[i] == p[j];
    WalkPart(g, p, i, j);
    assert Cycle(g, s, p[i..j + 1]);
  }

  lemma CycleInLarger(g: Graph, s: set<Node>, t: set<Node>)
    requires s <= t && CycleIn(g, s)
    ensures CycleIn(g, t)
  {
    var p :| Cycle(g, s, p);
    assert Cycle(g, t, p);
  }

  /** A list certified for a head shows that its ancestry is sound. */
  lemma CertifiedIsSound(g: Graph, head: Option<Node>, l: seq<Node>)
    requires Certified(g, head, l)
    ensures Sound(g, head)
  {
    if head.Some? {
      forall s | forall x :: x in s ==> Ancestor(g, head.value, x)
        ensures !CycleIn(g, s)
      {
        OrderedHasNoCycle(g, l, s);
      }
    }
  }

  lemma AncestorAlong(g: Graph, p: seq<Node>, i: nat, j: nat)
    requires Walk(g, p) && i <= j < |p|
    ensures Ancestor(g, p[i], p[j])
  {
    WalkPart(g, p, i, j);
  }

  /** Two different messages behind a head that lie behind each other form a cycle. */
  lemma MutualIsUnsound(g: Graph, n: Node, a: Node, b: Node)
    requires Ancestor(g, n, a) && Ancestor(g, a, b) && Ancestor(g, b, a) && a != b
    ensures !Sound(g, Some(n))
  {
    var p :| Walk(g, p) && p[0] == a && p[|p| - 1] == b;
    var r :| Walk(g, r) && r[0] == b && r[|r| - 1] == a;
    Joined(g, p, r);
    var loop := p + r[1..];
    var s := set k | 0 <= k < |loop| :: loop[k];
    forall x | x in s
      ensures Ancestor(g, n, x)
    {
      var k :| 0 <= k < |loop| && loop[k] == x;
      AncestorAlong(g, loop, 0, k);
      AncestorTransitive(g, n, a, x);
    }
    assert Cycle(g, s, loop) && CycleIn(g, s);
  }

  // ---- growth ------------------------------------------------------------------------------------

  /** Messages are only ever added. */
  ghost predicate Extends(g: Graph, h: Graph) {
    forall x :: x in g ==> x in h && h[x] == g[x]
  }

  /** New messages do not change what lies behind an old head. */
  lemma CertifiedStays(g: Graph, h: Graph, head: Option<Node>, l: seq<Node>)
    requires Extends(g, h) && Certified(g, head, l)
    ensures Certified(h, head, l)
  {
    if head.Some? {
      var n := head.value;
      forall x
        ensures x in l <==> Ancestor(h, n, x)
      {
        if x in l {
          var p :| Walk(g, p) && p[0] == n && p[|p| - 1] == x;
          assert Walk(h, p);
        }
        if p :| Walk(h, p) && p[0] == n && p[|p| - 1] == x {
          AncestorSelf(g, n);
          var s := set y | y in l;
          WalkStays(h, s, p, |p| - 1);
        }
      }
    }
  }
}
