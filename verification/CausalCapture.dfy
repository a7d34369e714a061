/**
`canonical` of `backend/context_capture.py`: the ancestry of a head is captured incrementally into
append-only streams, reusing the previous capture where it can and forking where history diverged.
A record is identified with the message it describes.
*/
module CausalCapture {
  import opened Common
  import opened MessageGraph

  type Conversation = nat
  type StreamId = nat

  /** A stream prefix recorded for a head. */
  datatype Prefix = Prefix(head: Option<Node>, stream: StreamId, count: nat)

  /** `ORDER BY stamp, node_id`. */
  predicate Before(g: Graph, a: Node, b: Node)
    requires a in g && b in g
  {
    g[a].stamp < g[b].stamp || (g[a].stamp == g[b].stamp && a < b)
  }

  /** From position `from` on, each entry is the first in order among those whose parents were all listed. */
  ghost predicate EarliestFirst(g: Graph, l: seq<Node>, from: nat)
    requires ParentsFirst(g, l)
  {
    forall i, j :: from <= i < j < |l| && (forall q :: q in g[l[j]].parents ==> q in l[..i]) ==> Before(g, l[i], l[j])
  }

  /** The edges table holds exactly the parent links of the pending messages. */
  ghost predicate EdgesOf(g: Graph, pending: set<Node>, edges: set<(Node, Node)>) {
    && pending <= g.Keys
    && forall q, c :: (q, c) in edges <==> c in pending && q in g[c].parents
  }

  /** The parents of `n` that are still pending. */
  function Blockers(rest: set<Node>, edges: set<(Node, Node)>, n: Node): set<Node> {
    set q | q in rest && (q, n) in edges
  }

  /** What one backward walk from `node` that stops at the messages of `known` has collected. */
  ghost predicate Collected(g: Graph, node: Option<Node>, known: seq<Node>, pending: set<Node>,
                            edges: set<(Node, Node)>) {
    && EdgesOf(g, pending, edges)
    && (forall x :: x in pending ==> x !in known && node.Some? && Ancestor(g, node.value, x))
    && (node.Some? ==> node.value in pending || node.value in known)
    && (forall c, q :: c in pending && q in g[c].parents ==> q in pending || q in known)
  }

  /** The walk met the message `h` where it stopped. */
  ghost predicate Met(g: Graph, node: Option<Node>, known: seq<Node>, pending: set<Node>, h: Option<Node>)
    requires pending <= g.Keys
  {
    && h.Some? && h.value in known
    && (node == h || Linked(g, pending, h.value))
  }

  /** The pending messages together with the known ones are the whole ancestry. */
  lemma CollectedIsAncestry(g: Graph, node: Option<Node>, known: seq<Node>, pending: set<Node>,
                            edges: set<(Node, Node)>, x: Node)
    requires Collected(g, node, known, pending, edges) && ParentsFirst(g, known)
    requires node.Some? && Ancestor(g, node.value, x)
    ensures x in pending || x in known
  {
    var p :| Walk(g, p) && p[0] == node.value && p[|p| - 1] == x;
    var s := pending + set y | y in known;
    forall y, q | y in s && y in g && q in g[y].parents
      ensures q in s
    {
      if y in known {
        var i :| 0 <= i < |known| && known[i] == y;
        assert q in known[..i];
      }
    }
    WalkStays(g, s, p, |p| - 1);
  }

  /** A walk from outside a set into it has a first member of the set. */
  lemma {:induction false} FirstInside(p: seq<Node>, known: seq<Node>) returns (i: nat)
    requires p != [] && p[|p| - 1] in known
    ensures i < |p| && p[i] in known && forall j :: 0 <= j < i ==> p[j] !in known
  {
    if p[0] in known {
      i := 0;
    } else {
      i := FirstInside(p[1..], known);
      i := i + 1;
      assert forall j :: 1 <= j < i ==> p[j] == p[1..][j - 1];
    }
  }

  /**
  If the old head lies behind the new one, the walk that stops at the old prefix meets the old head:
  meeting only another member would close a cycle.
  */
  lemma MeetsAncestor(g: Graph, node: Option<Node>, known: seq<Node>, pending: set<Node>,
                      edges: set<(Node, Node)>, h: Option<Node>)
    requires Collected(g, node, known, pending, edges) && Certified(g, h, known)
    requires node.Some? && h.Some? && Ancestor(g, node.value, h.value)
    requires Sound(g, node)
    ensures Met(g, node, known, pending, h)
  {
    var p :| Walk(g, p) && p[0] == node.value && p[|p| - 1] == h.value;
    AncestorSelf(g, h.value);
    var i := FirstInside(p, known);
    var y := p[i];
    AncestorAlong(g, p, 0, i);
    AncestorAlong(g, p, i, |p| - 1);
    if y != h.value {
      assert Ancestor(g, h.value, y);
      MutualIsUnsound(g, node.value, y, h.value);
    }
    if i > 0 {
      AncestorAlong(g, p, 0, i - 1);
      CollectedIsAncestry(g, node, known, pending, edges, p[i - 1]);
    }
  }

  /** Some pending message has `x` as a parent. */
  ghost predicate Linked(g: Graph, pending: set<Node>, x: Node)
    requires pending <= g.Keys
  {
    exists c :: c in pending && x in g[c].parents
  }

  /** `touched` are messages behind the head: the head itself and parents of pending messages. */
  ghost predicate Behind(g: Graph, node: Option<Node>, pending: set<Node>, touched: set<Node>)
    requires pending <= g.Keys
  {
    && (node.Some? ==> node.value in touched)
    && (forall x :: x in touched ==>
          node.Some? && Ancestor(g, node.value, x) && (node == Some(x) || Linked(g, pending, x)))
  }

  ghost predicate ParentsWithin(g: Graph, pending: set<Node>, touched: set<Node>)
    requires pending <= g.Keys
  {
    forall c, q :: c in pending && q in g[c].parents ==> q in touched
  }

  /** The loop of the backward walk: `seen` is settled, `frontier` is still to be visited. */
  ghost predicate Exploring(g: Graph, node: Option<Node>, known: seq<Node>, frontier: set<Node>, seen: set<Node>,
                            pending: set<Node>, edges: set<(Node, Node)>)
  {
    && seen <= g.Keys && pending <= seen
    && (forall x :: x in seen ==> (x in pending <==> x !in known))
    && EdgesOf(g, pending, edges)
    && Behind(g, node, pending, frontier + seen)
    && ParentsWithin(g, pending, frontier + seen)
  }

  /** The parents of a newly pending message join the messages behind the head. */
  lemma BehindOneMore(g: Graph, node: Option<Node>, pending: set<Node>, touched: set<Node>, current: Node)
    requires pending <= g.Keys && current in g && current in touched
    requires Behind(g, node, pending, touched) && ParentsWithin(g, pending, touched)
    ensures var touched' := touched + set q | q in g[current].parents;
            Behind(g, node, pending + {current}, touched') && ParentsWithin(g, pending + {current}, touched')
  {
    var pending' := pending + {current};
    forall x | Linked(g, pending, x)
      ensures Linked(g, pending', x)
    {
      var c :| c in pending && x in g[c].parents;
      assert c in pending';
    }
    forall q | q in g[current].parents
      ensures Ancestor(g, node.value, q) && Linked(g, pending', q)
    {
      AncestorParent(g, node.value, current, q);
      assert current in pending';
    }
  }

  function LinksTo(parents: seq<Node>, n: Node): (links: set<(Node, Node)>)
    ensures forall q, c :: (q, c) in links <==> c == n && q in parents
  {
    set q | q in parents :: (q, n)
  }

  lemma Visited(frontier: set<Node>, seen: set<Node>, parents: set<Node>, current: Node)
    requires current in frontier
    ensures frontier - {current} + (parents - (seen + {current})) + (seen + {current}) == frontier + seen + parents
  {
  }

  lemma EdgesOneMore(g: Graph, pending: set<Node>, edges: set<(Node, Node)>, current: Node)
    requires EdgesOf(g, pending, edges) && current in g
    ensures EdgesOf(g, pending + {current}, edges + LinksTo(g[current].parents, current))
  {
  }

  /** Visiting an unknown message makes it pending and its unseen parents the next to visit. */
  lemma ExploreOne(g: Graph, node: Option<Node>, known: seq<Node>, frontier: set<Node>, seen: set<Node>,
                   pending: set<Node>, edges: set<(Node, Node)>, current: Node, frontier': set<Node>)
    requires Exploring(g, node, known, frontier, seen, pending, edges)
    requires current in frontier && current in g && current !in known && current !in seen
    requires frontier' == frontier - {current} + set q | q in g[current].parents && q !in seen + {current}
    ensures Exploring(g, node, known, frontier', seen + {current}, pending + {current},
                      edges + LinksTo(g[current].parents, current))
  {
    EdgesOneMore(g, pending, edges, current);
    BehindOneMore(g, node, pending, frontier + seen, current);
    var parents := set q | q in g[current].parents;
    Visited(frontier, seen, parents, current);
    assert frontier' == frontier - {current} + (parents - (seen + {current}));
  }

  /** A known message is settled without looking further back. */
  lemma ExploreKnown(g: Graph, node: Option<Node>, known: seq<Node>, frontier: set<Node>, seen: set<Node>,
                     pending: set<Node>, edges: set<(Node, Node)>, current: Node)
    requires Exploring(g, node, known, frontier, seen, pending, edges)
    requires current in frontier && current in g && (current in known || current in seen)
    ensures Exploring(g, node, known, frontier - {current}, seen + {current}, pending, edges)
  {
    assert frontier - {current} + (seen + {current}) == frontier + seen;
  }

  /** When nothing is left to visit, everything the new head adds has been collected. */
  lemma ExploredAll(g: Graph, node: Option<Node>, known: seq<Node>, seen: set<Node>, pending: set<Node>,
                    edges: set<(Node, Node)>, h: Option<Node>)
    requires Exploring(g, node, known, {}, seen, pending, edges)
    ensures Collected(g, node, known, pending, edges)
    ensures h.Some? && h.value in known ==> (h.value in seen <==> Met(g, node, known, pending, h))
  {
    assert {} + seen == seen;
    if h.Some? && Linked(g, pending, h.value) {
      var c :| c in pending && h.value in g[c].parents;
    }
  }

  // ---- Kahn's ordering ---------------------------------------------------------------------------

  /** The in-degree table counts, for each remaining message, its remaining parents. */
  ghost predicate Counts(rest: set<Node>, edges: set<(Node, Node)>, indegree: map<Node, nat>) {
    forall n :: n in rest ==> n in indegree && indegree[n] == |Blockers(rest, edges, n)|
  }

  /** The `UPDATE` after one message was listed. */
  function Released(indegree: map<Node, nat>, edges: set<(Node, Node)>, ready: Node): map<Node, nat> {
    map n | n in indegree :: if (ready, n) in edges && indegree[n] > 0 then indegree[n] - 1 else indegree[n]
  }

  lemma CountsReleased(rest: set<Node>, edges: set<(Node, Node)>, indegree: map<Node, nat>, ready: Node)
    requires Counts(rest, edges, indegree) && ready in rest
    ensures Counts(rest - {ready}, edges, Released(indegree, edges, ready))
  {
    forall n | n in rest - {ready}
      ensures Released(indegree, edges, ready)[n] == |Blockers(rest - {ready}, edges, n)|
    {
      if (ready, n) in edges {
        assert ready in Blockers(rest, edges, n);
        assert Blockers(rest - {ready}, edges, n) == Blockers(rest, edges, n) - {ready};
      } else {
        assert Blockers(rest - {ready}, edges, n) == Blockers(rest, edges, n);
      }
    }
  }

  /** The state of the ordering loop: `l` is listed, `rest` still waits. */
  ghost predicate Ordering(g: Graph, l: seq<Node>, from: nat, rest: set<Node>) {
    && rest <= g.Keys
    && Distinct(l) && ParentsFirst(g, l)
    && (forall x :: x in rest ==> x !in l)
    && (forall c, q :: c in rest && q in g[c].parents ==> q in rest || q in l)
    && EarliestFirst(g, l, from)
    && (forall i, c :: from <= i < |l| && c in rest && (forall q :: q in g[c].parents ==> q in l[..i]) ==>
          Before(g, l[i], c))
  }

  /** A message without waiting parents, first among those, may be listed next. */
  lemma ListReady(g: Graph, l: seq<Node>, from: nat, rest: set<Node>, ready: Node)
    requires Ordering(g, l, from, rest) && ready in rest && from <= |l|
    requires forall q :: q in g[ready].parents ==> q !in rest
    requires forall c :: c in rest && c != ready && (forall q :: q in g[c].parents ==> q !in rest) ==>
               Before(g, ready, c)
    ensures Ordering(g, l + [ready], from, rest - {ready})
  {
    var l' := l + [ready];
    forall i | 0 <= i <= |l|
      ensures l'[..i] == l[..i]
    {
    }
    forall q | q in g[ready].parents
      ensures q in l
    {
    }
    assert ParentsFirst(g, l');
    forall i, c | from <= i < |l'| && c in rest - {ready} && (forall q :: q in g[c].parents ==> q in l'[..i])
      ensures Before(g, l'[i], c)
    {
      assert l'[..i] == l[..i];
      forall q | q in g[c].parents
        ensures q in l
      {
        assert q in l'[..i];
      }
    }
    forall i, j | from <= i < j < |l'| && (forall q :: q in g[l'[j]].parents ==> q in l'[..i])
      ensures Before(g, l'[i], l'[j])
    {
      assert l'[..i] == l[..i];
    }
  }

  lemma BlockersAreParents(g: Graph, pending: set<Node>, edges: set<(Node, Node)>, rest: set<Node>)
    requires EdgesOf(g, pending, edges) && rest <= pending
    ensures forall n :: n in rest ==> (Blockers(rest, edges, n) == {} <==> forall q :: q in g[n].parents ==> q !in rest)
  {
    forall n, q | n in rest && q in g[n].parents && q in rest
      ensures q in Blockers(rest, edges, n)
    {
      assert (q, n) in edges;
    }
  }

  /** The row with in-degree zero that comes first in order. */
  ghost predicate FirstOf(g: Graph, rest: set<Node>, indegree: map<Node, nat>, r: Option<Node>)
    requires rest <= g.Keys && rest <= indegree.Keys
  {
    && (r.None? <==> forall n :: n in rest ==> indegree[n] != 0)
    && (r.Some? ==>
          && r.value in rest && indegree[r.value] == 0
          && forall n :: n in rest && n != r.value && indegree[n] == 0 ==> Before(g, r.value, n))
  }

  /** The ordering loop has extended `base` to `l`; `rest` of the pending messages still waits. */
  ghost predicate Sorting(g: Graph, base: seq<Node>, l: seq<Node>, pending: set<Node>, edges: set<(Node, Node)>,
                          rest: set<Node>, indegree: map<Node, nat>)
  {
    && base <= l && rest <= pending && rest <= indegree.Keys
    && EdgesOf(g, pending, edges)
    && Ordering(g, l, |base|, rest) && Counts(rest, edges, indegree)
    && forall x :: x in l || x in rest <==> x in base || x in pending
  }

  /** Listing the first ready message keeps the order and the in-degree table. */
  lemma ListNext(g: Graph, base: seq<Node>, l: seq<Node>, pending: set<Node>, edges: set<(Node, Node)>, rest: set<Node>,
                 indegree: map<Node, nat>, n: Node)
    requires Sorting(g, base, l, pending, edges, rest, indegree) && FirstOf(g, rest, indegree, Some(n))
    ensures Sorting(g, base, l + [n], pending, edges, rest - {n}, Released(indegree, edges, n))
  {
    BlockersAreParents(g, pending, edges, rest);
    CountsReleased(rest, edges, indegree, n);
    forall c | c in rest && (forall q :: q in g[c].parents ==> q !in rest)
      ensures indegree[c] == 0
    {
      assert Blockers(rest, edges, c) == {};
    }
    assert Blockers(rest, edges, n) == {};
    ListReady(g, l, |base|, rest, n);
  }

  /** When no message is ready, all are listed or the waiting ones contain a cycle. */
  lemma SortingEnds(g: Graph, base: seq<Node>, l: seq<Node>, pending: set<Node>, edges: set<(Node, Node)>,
                    rest: set<Node>, indegree: map<Node, nat>)
    requires Sorting(g, base, l, pending, edges, rest, indegree) && FirstOf(g, rest, indegree, None)
    ensures rest == {} <==> !CycleIn(g, pending)
    ensures rest == {} ==> base <= l && Ordering(g, l, |base|, {}) && forall x :: x in l <==> x in base || x in pending
  {
    if rest == {} {
      OrderedHasNoCycle(g, l, pending);
    } else {
      NoneReady(g, rest, edges, pending);
    }
  }

  /** If nothing is ready while messages wait, they contain a cycle. */
  lemma NoneReady(g: Graph, rest: set<Node>, edges: set<(Node, Node)>, pending: set<Node>)
    requires EdgesOf(g, pending, edges) && rest <= pending && rest != {}
    requires forall n :: n in rest ==> Blockers(rest, edges, n) != {}
    ensures CycleIn(g, pending)
  {
    forall n | n in rest
      ensures ParentIn(g, rest, n)
    {
      var q :| q in Blockers(rest, edges, n);
      assert (q, n) in edges;
    }
    StuckHasCycle(g, rest);
    CycleInLarger(g, rest, pending);
  }

  /** The old prefix, or none, together with what the walk collected is ready to be ordered. */
  lemma ReadyToOrder(g: Graph, node: Option<Node>, known: seq<Node>, pending: set<Node>, edges: set<(Node, Node)>)
    requires Collected(g, node, known, pending, edges) && Distinct(known) && ParentsFirst(g, known)
    ensures Ordering(g, known, |known|, pending)
  {
  }

  /** What the ordering produced is certified for the new head. */
  lemma OrderedIsCertified(g: Graph, node: Option<Node>, known: seq<Node>, pending: set<Node>, edges: set<(Node, Node)>,
                           h: Option<Node>, l: seq<Node>)
    requires Collected(g, node, known, pending, edges) && ParentsFirst(g, known)
    requires known == [] || (Certified(g, h, known) && Met(g, node, known, pending, h))
    requires Distinct(l) && ParentsFirst(g, l) && forall x :: x in l <==> x in known || x in pending
    ensures Certified(g, node, l)
  {
    forall x
      ensures x in l <==> node.Some? && Ancestor(g, node.value, x)
    {
      if x in known {
        AncestorSelf(g, h.value);
        if node != h {
          var c :| c in pending && h.value in g[c].parents;
          AncestorParent(g, node.value, c, h.value);
        }
        AncestorTransitive(g, node.value, h.value, x);
      }
      if node.Some? && Ancestor(g, node.value, x) {
        CollectedIsAncestry(g, node, known, pending, edges, x);
      }
    }
  }

  /** A cycle among the pending messages makes the ancestry unsound. */
  lemma PendingCycleIsUnsound(g: Graph, node: Option<Node>, known: seq<Node>, pending: set<Node>,
                              edges: set<(Node, Node)>)
    requires Collected(g, node, known, pending, edges) && CycleIn(g, pending)
    ensures !Sound(g, node)
  {
    var p :| Cycle(g, pending, p);
    assert p[0] in pending;
  }

  /** Only the stream `except` may differ. */
  ghost predicate SameElsewhere(before: map<StreamId, seq<Node>>, after: map<StreamId, seq<Node>>, except: StreamId) {
    && after.Keys == before.Keys
    && forall s :: s in before && s != except ==> after[s] == before[s]
  }

  class SessionIndex {
    var graph: Graph
    var streams: map<StreamId, seq<Node>>
    var made: nat
    var heads: map<(Conversation, Option<Node>), (StreamId, nat)>
    var latest: map<Conversation, Prefix>

    ghost predicate Recorded(head: Option<Node>, stream: StreamId, count: nat)
      reads this
    {
      stream in streams && count <= |streams[stream]| && Certified(graph, head, streams[stream][..count])
    }

    ghost predicate Valid()
      reads this
    {
      && (forall s :: s in streams ==> s < made && Distinct(streams[s]))
      && (forall k :: k in heads ==> Recorded(k.1, heads[k].0, heads[k].1))
      && (forall c :: c in latest ==> Recorded(latest[c].head, latest[c].stream, latest[c].count))
    }

    /** The backward walk that stops at `known`, the prefix of `h`; it fails only where a message is missing. */
    method WalkBack(node: Option<Node>, known: seq<Node>, h: Option<Node>)
      returns (ok: bool, reached: bool, pending: set<Node>, edges: set<(Node, Node)>)
      requires forall x :: x in known ==> x in graph
      ensures !ok ==> !Sound(graph, node)
      ensures ok ==> Collected(graph, node, known, pending, edges)
      ensures ok && (h.Some? ==> h.value in known) ==> (reached <==> Met(graph, node, known, pending, h))
    {
      var frontier, seen: set<Node> := if node.Some? then {node.value} else {}, {};
      pending, edges, reached := {}, {}, false;
      if node.Some? {
        AncestorSelf(graph, node.value);
      }
      while frontier != {}
        invariant Exploring(graph, node, known, frontier, seen, pending, edges)
        invariant reached <==> h.Some? && h.value in known && h.value in seen
        decreases graph.Keys - seen, frontier
      {
        var current :| current in frontier;
        if current in seen {
          ExploreKnown(graph, node, known, frontier, seen, pending, edges, current);
          assert seen + {current} == seen;
          frontier := frontier - {current};
          continue;
        }
        if current in known {
          ExploreKnown(graph, node, known, frontier, seen, pending, edges, current);
          frontier, seen := frontier - {current}, seen + {current};
          reached := reached || Some(current) == h;
          continue;
        }
        if current !in graph {
          assert Ancestor(graph, node.value, current) by { assert current in frontier + seen; }
          return false, false, {}, {};
        }
        var parents := graph[current].parents;
        var frontier' := frontier - {current} + set q | q in parents && q !in seen + {current};
        ExploreOne(graph, node, known, frontier, seen, pending, edges, current, frontier');
        frontier, seen := frontier', seen + {current};
        pending, edges := pending + {current}, edges + LinksTo(parents, current);
      }
      ExploredAll(graph, node, known, seen, pending, edges, h);
      return true, reached, pending, edges;
    }

    /** `SELECT ... WHERE indegree=0 ORDER BY stamp, node_id LIMIT 1`. */
    method FirstReady(rest: set<Node>, indegree: map<Node, nat>) returns (r: Option<Node>)
      requires rest <= graph.Keys && rest <= indegree.Keys
      ensures FirstOf(graph, rest, indegree, r)
    {
      var left := rest;
      r := None;
      while left != {}
        invariant left <= rest
        invariant r.None? ==> forall n :: n in rest - left ==> indegree[n] != 0
        invariant r.Some? ==>
                    && r.value in rest - left && indegree[r.value] == 0
                    && forall n :: n in rest - left && n != r.value && indegree[n] == 0 ==> Before(graph, r.value, n)
        decreases left
      {
        var n :| n in left;
        left := left - {n};
        if indegree[n] == 0 && (r.None? || Before(graph, n, r.value)) {
          r := Some(n);
        }
      }
    }

    /** `append`: a stream never holds a record twice. */
    method Append(stream: StreamId, n: Node)
      requires stream in streams && n !in streams[stream]
      modifies this`streams
      ensures stream in streams && streams[stream] == old(streams)[stream] + [n]
      ensures SameElsewhere(old(streams), streams, stream)
    {
      streams := streams[stream := streams[stream] + [n]];
    }

    /** Append the pending messages, parents first; it fails exactly on a cycle among them. */
    method AppendOrdered(stream: StreamId, pending: set<Node>, edges: set<(Node, Node)>)
      returns (ok: bool, ghost l: seq<Node>)
      requires stream in streams && EdgesOf(graph, pending, edges)
      requires Ordering(graph, streams[stream], |streams[stream]|, pending)
      modifies this`streams
      ensures stream in streams && streams[stream] == l && SameElsewhere(old(streams), streams, stream)
      ensures old(streams)[stream] <= l
      ensures ok ==> Ordering(graph, l, |old(streams)[stream]|, {})
      ensures ok ==> forall x :: x in l <==> x in old(streams)[stream] || x in pending
      ensures ok <==> !CycleIn(graph, pending)
    {
      ghost var g, base := graph, streams[stream];
      l := base;
      var rest := pending;
      var indegree: map<Node, nat> := map n | n in rest :: |Blockers(rest, edges, n)|;
      while true
        invariant stream in streams && streams[stream] == l && SameElsewhere(old(streams), streams, stream)
        invariant Sorting(g, base, l, pending, edges, rest, indegree)
        decreases rest
      {
        var ready := FirstReady(rest, indegree);
        if ready.None? { break; }
        ListNext(g, base, l, pending, edges, rest, indegree, ready.value);
        l := l + [ready.value];
        Append(stream, ready.value);
        indegree, rest := Released(indegree, edges, ready.value), rest - {ready.value};
      }
      SortingEnds(g, base, l, pending, edges, rest, indegree);
      ok := rest == {};
    }

    /** Every stream only grew. */
    ghost predicate Grown(before: map<StreamId, seq<Node>>)
      reads this
    {
      forall s :: s in before ==> s in streams && before[s] <= streams[s]
    }

    /** `stream(..., fresh=True)`, filled with a copied prefix or empty. */
    method FreshStream(content: seq<Node>) returns (sid: StreamId)
      requires Valid() && Distinct(content)
      modifies this`streams, this`made
      ensures Valid()
      ensures sid !in old(streams) && streams == old(streams)[sid := content]
    {
      sid := made;
      streams, made := streams[sid := content], made + 1;
      forall s | s in old(streams)
        ensures streams[s] == old(streams)[s]
      {
      }
    }

    /** The stream to extend: the previous one, or a copy of its prefix if someone else extended it. */
    method Target(previous: Prefix) returns (sid: StreamId)
      requires Valid() && Recorded(previous.head, previous.stream, previous.count)
      modifies this`streams, this`made
      ensures Valid()
      ensures sid in streams && streams[sid] == old(streams)[previous.stream][..previous.count]
      ensures sid == previous.stream || sid !in old(streams)
      ensures forall s :: s in old(streams) ==> s in streams && streams[s] == old(streams)[s]
    {
      if |streams[previous.stream]| == previous.count {
        return previous.stream;
      }
      sid := FreshStream(streams[previous.stream][..previous.count]);
    }

    /** The previous head lies behind the new one, so its prefix can be extended. */
    ghost predicate Continues(node: Option<Node>, previous: Option<Prefix>)
      reads this
    {
      && node.Some? && previous.Some? && previous.value.head.Some?
      && Ancestor(graph, node.value, previous.value.head.value)
    }

    /** Collect what the new head adds, against the previous prefix or, where history diverged, against nothing. */
    method Collect(node: Option<Node>, previous: Option<Prefix>)
      returns (ok: bool, base: Option<Prefix>, pending: set<Node>, edges: set<(Node, Node)>, ghost known: seq<Node>)
      requires Valid()
      requires previous.Some? ==> Recorded(previous.value.head, previous.value.stream, previous.value.count)
      ensures !ok ==> !Sound(graph, node)
      ensures base.None? || base == previous
      ensures known == if base.Some? then streams[base.value.stream][..base.value.count] else []
      ensures ok ==> Collected(graph, node, known, pending, edges)
      ensures ok && base.Some? ==> Met(graph, node, known, pending, base.value.head)
      ensures ok && Sound(graph, node) ==> (base.Some? <==> Continues(node, previous))
    {
      var reached: bool;
      base, known := None, [];
      if previous.Some? {
        var h, prefix := previous.value.head, streams[previous.value.stream][..previous.value.count];
        if h.Some? {
          AncestorSelf(graph, h.value);
        }
        ok, reached, pending, edges := WalkBack(node, prefix, h);
        if !ok { return; }
        if Sound(graph, node) && Continues(node, previous) {
          MeetsAncestor(graph, node, prefix, pending, edges, h);
        }
        if reached {
          if node != h {
            var c :| c in pending && h.value in graph[c].parents;
            AncestorParent(graph, node.value, c, h.value);
          }
          return ok, previous, pending, edges, prefix;
        }
      }
      ok, reached, pending, edges := WalkBack(node, [], None);
    }

    /** Build the stream of a head that was not captured before. */
    method CaptureNew(node: Option<Node>, previous: Option<Prefix>)
      returns (sid: Option<StreamId>, ghost l: seq<Node>)
      requires Valid()
      requires previous.Some? ==> Recorded(previous.value.head, previous.value.stream, previous.value.count)
      modifies this`streams, this`made
      ensures sid.Some? <==> Sound(graph, node)
      ensures sid.Some? ==>
                && sid.value in streams && streams[sid.value] == l && Certified(graph, node, l)
                && (forall s :: s in streams ==> s < made && Distinct(streams[s]))
                && Grown(old(streams))
      ensures sid.Some? ==>
                if Continues(node, previous)
                then old(streams)[previous.value.stream][..previous.value.count] <= l
                else sid.value !in old(streams)
    {
      var ok, base, pending, edges;
      ghost var known;
      ok, base, pending, edges, known := Collect(node, previous);
      if !ok { return None, []; }
      var target;
      if base.Some? {
        target := Target(base.value);
      } else {
        target := FreshStream([]);
      }
      ReadyToOrder(graph, node, known, pending, edges);
      ok, l := AppendOrdered(target, pending, edges);
      if !ok {
        PendingCycleIsUnsound(graph, node, known, pending, edges);
        return None, [];
      }
      OrderedIsCertified(graph, node, known, pending, edges, if base.Some? then base.value.head else None, l);
      CertifiedIsSound(graph, node, l);
      return Some(target), l;
    }

    /** The head was captured before: its prefix becomes the latest. */
    method Reuse(conversation: Conversation, node: Option<Node>) returns (r: (StreamId, nat))
      requires Valid() && (conversation, node) in heads
      modifies this`latest
      ensures Valid() && Sound(graph, node) && Recorded(node, r.0, r.1) && r == heads[(conversation, node)]
      ensures latest == old(latest)[conversation := Prefix(node, r.0, r.1)]
    {
      r := heads[(conversation, node)];
      CertifiedIsSound(graph, node, streams[r.0][..r.1]);
      latest := latest[conversation := Prefix(node, r.0, r.1)];
    }

    /** Record the finished stream for its head. */
    method Register(conversation: Conversation, node: Option<Node>, sid: StreamId, count: nat)
      requires Valid() && Recorded(node, sid, count)
      modifies this`heads, this`latest
      ensures Valid() && Recorded(node, sid, count)
      ensures heads == old(heads)[(conversation, node) := (sid, count)]
      ensures latest == old(latest)[conversation := Prefix(node, sid, count)]
    {
      heads := heads[(conversation, node) := (sid, count)];
      latest := latest[conversation := Prefix(node, sid, count)];
    }

    /** `canonical`: the head's certified prefix, or nothing changed. */
    method Capture(conversation: Conversation, node: Option<Node>) returns (r: Option<(StreamId, nat)>)
      requires Valid()
      modifies this`streams, this`made, this`heads, this`latest
      ensures Valid() && Grown(old(streams))
      ensures r.Some? <==> Sound(graph, node)
      ensures r.Some? ==>
                && Recorded(node, r.value.0, r.value.1)
                && heads == old(heads)[(conversation, node) := r.value]
                && latest == old(latest)[conversation := Prefix(node, r.value.0, r.value.1)]
      ensures r.Some? && (conversation, node) !in old(heads) ==>
                if conversation in old(latest) && Continues(node, Some(old(latest)[conversation]))
                then
                  var prefix := old(latest)[conversation];
                  old(streams)[prefix.stream][..prefix.count] <= streams[r.value.0]
                else r.value.0 !in old(streams)
      ensures r.None? ==> streams == old(streams) && heads == old(heads) && latest == old(latest)
    {
      if (conversation, node) in heads {
        var exact := Reuse(conversation, node);
        assert heads == heads[(conversation, node) := exact];
        return Some(exact);
      }
      var sid := CaptureOrRollBack(node, if conversation in latest then Some(latest[conversation]) else None);
      if sid.None? { return None; }
      var count := |streams[sid.value]|;
      assert streams[sid.value][..count] == streams[sid.value];
      Register(conversation, node, sid.value, count);
      return Some((sid.value, count));
    }

    /** Part of the database transaction: a failed capture leaves no stream behind. */
    method CaptureOrRollBack(node: Option<Node>, previous: Option<Prefix>) returns (sid: Option<StreamId>)
      requires Valid()
      requires previous.Some? ==> Recorded(previous.value.head, previous.value.stream, previous.value.count)
      modifies this`streams, this`made
      ensures Valid() && Grown(old(streams))
      ensures sid.Some? <==> Sound(graph, node)
      ensures sid.Some? ==> sid.value in streams && Certified(graph, node, streams[sid.value])
      ensures sid.Some? ==>
                if Continues(node, previous)
                then old(streams)[previous.value.stream][..previous.value.count] <= streams[sid.value]
                else sid.value !in old(streams)
      ensures sid.None? ==> streams == old(streams)
    {
      var savedStreams, savedMade := streams, made;
      ghost var l;
      sid, l := CaptureNew(node, previous);
      if sid.None? {
        streams, made := savedStreams, savedMade;
      }
      AllRecordedStays();
    }

    /** What was recorded stays recorded while streams only grow. */
    twostate lemma AllRecordedStays()
      requires old(Valid()) && graph == old(graph) && heads == old(heads) && latest == old(latest)
      requires Grown(old(streams))
      ensures forall k :: k in heads ==> Recorded(k.1, heads[k].0, heads[k].1)
      ensures forall c :: c in latest ==> Recorded(latest[c].head, latest[c].stream, latest[c].count)
    {
      forall k | k in heads
        ensures Recorded(k.1, heads[k].0, heads[k].1)
      {
        var (stream, count) := heads[k];
        assert old(Recorded(k.1, heads[k].0, heads[k].1));
        assert streams[stream][..count] == old(streams)[stream][..count];
      }
      LatestStays();
    }

    twostate lemma LatestStays()
      requires old(Valid()) && graph == old(graph) && latest == old(latest) && Grown(old(streams))
      ensures forall c :: c in latest ==> Recorded(latest[c].head, latest[c].stream, latest[c].count)
    {
      forall c | c in latest
        ensures Recorded(latest[c].head, latest[c].stream, latest[c].count)
      {
        var Prefix(head, stream, count) := latest[c];
        assert old(Recorded(head, stream, count));
        assert streams[stream][..count] == old(streams)[stream][..count];
      }
    }

    /** New messages arrive; every recorded prefix stays certified. */
    method Receive(more: Graph)
      requires Valid() && more.Keys !! graph.Keys
      modifies this`graph
      ensures Valid() && graph == old(graph) + more
    {
      ghost var before := graph;
      graph := graph + more;
      forall head: Option<Node>, l: seq<Node> | Certified(before, head, l)
        ensures Certified(graph, head, l)
      {
        CertifiedStays(before, graph, head, l);
      }
    }
  }
}
