/**
Which legacy views `migrate` of `backend/context_index.py` puts into one stream: each kind of a view is
compared with the newest stream of its owner and kind only.
*/
module ContextSharing {
  import opened Common
  import opened ContextViews
  import opened ContextLegacy

  predicate Agree(a: seq<Key>, b: seq<Key>) {
    a <= b || b <= a
  }

  /** What the stream holds after rows that agree with it, or the rows alone. */
  function Longer(current: seq<Key>, rows: seq<Key>): seq<Key> {
    if rows <= current then current else rows
  }

  /** What the newest stream of an owner and kind holds after `n` views, if it held `start`. */
  function Current(start: seq<Key>, legacy: seq<LegacyView>, n: nat, owner: Owner, kind: Kind): seq<Key>
    requires n <= |legacy|
  {
    if n == 0 then start
    else
      var before := Current(start, legacy, n - 1, owner, kind);
      if legacy[n - 1].owner == owner then Longer(before, KeysOf(RowsOf(legacy[n - 1], kind))) else before
  }

  /** View `c` and the newest stream before it are not prefixes of one another. */
  predicate Diverges(start: seq<Key>, legacy: seq<LegacyView>, c: nat, kind: Kind)
    requires c < |legacy|
  {
    !Agree(Current(start, legacy, c, legacy[c].owner, kind), KeysOf(RowsOf(legacy[c], kind)))
  }

  /** No view of the owner from `a` up to `b` diverges. */
  ghost predicate NoneDiverges(start: seq<Key>, legacy: seq<LegacyView>, a: nat, b: nat, owner: Owner, kind: Kind)
    requires b <= |legacy|
  {
    forall c :: a <= c < b && legacy[c].owner == owner ==> !Diverges(start, legacy, c, kind)
  }

  type Newest = map<(Owner, Kind), StreamId>

  /** What the newest stream of an owner and kind holds. */
  ghost function Held(t: Tables, newest: Newest, owner: Owner, kind: Kind): seq<Key>
    requires StreamsOk(t)
  {
    if (owner, kind) in newest && newest[(owner, kind)] in t.streams then Keys(t, newest[(owner, kind)]) else []
  }

  /**
  Where one kind of a view went: into the newest stream if it and the rows are prefixes of one another,
  otherwise into a new one; that stream is the newest afterwards.
  */
  ghost predicate Placed(was: Tables, newestWas: Newest, t: Tables, newest: Newest, owner: Owner, kind: Kind,
                         rows: seq<Key>)
    requires StreamsOk(was) && StreamsOk(t)
  {
    var key, held := (owner, kind), Held(was, newestWas, owner, kind);
    && key in newest && newest[key] in t.streams && Held(t, newest, owner, kind) == Longer(held, rows)
    && (if key in newestWas && Agree(held, rows) then newest[key] == newestWas[key] else newest[key] !in was.streams)
  }

  /** The newest stream of an owner and kind is as it was. */
  predicate Waits(was: Tables, newestWas: Newest, t: Tables, newest: Newest, owner: Owner, kind: Kind) {
    var key := (owner, kind);
    && Get(newest, key) == Get(newestWas, key)
    && (key in newest && newest[key] in was.streams ==>
          newest[key] in t.streams && t.streams[newest[key]] == was.streams[newest[key]])
    && (key in newest ==> newest[key] in was.streams)
  }

  lemma HeldWaits(was: Tables, newestWas: Newest, t: Tables, newest: Newest, owner: Owner, kind: Kind)
    requires StreamsOk(was) && StreamsOk(t) && Extends(was, t)
    requires Waits(was, newestWas, t, newest, owner, kind)
    ensures Held(t, newest, owner, kind) == Held(was, newestWas, owner, kind)
  {
    if (owner, kind) in newest {
      KeysGrow(was, t, newest[(owner, kind)]);
    }
  }

  /** The first `n` kinds of a view have been placed; everything else waits. */
  ghost predicate KindsPlaced(was: Tables, newestWas: Newest, t: Tables, newest: Newest, view: LegacyView, n: nat)
    requires StreamsOk(was) && StreamsOk(t) && n <= |KINDS|
  {
    && (forall k :: 0 <= k < n ==> PlacedAt(was, newestWas, t, newest, view, k))
    && (forall owner, kind :: (owner == view.owner && Turn(kind) < n) || Waits(was, newestWas, t, newest, owner, kind))
  }

  ghost predicate PlacedAt(was: Tables, newestWas: Newest, t: Tables, newest: Newest, view: LegacyView, k: nat)
    requires StreamsOk(was) && StreamsOk(t) && k < |KINDS|
  {
    Placed(was, newestWas, t, newest, view.owner, KINDS[k], KeysOf(RowsOf(view, KINDS[k])))
  }

  lemma WaitsOn(was: Tables, newestWas: Newest, t: Tables, newest: Newest, after: Tables, newestAfter: Newest,
                owner: Owner, kind: Kind)
    requires Waits(was, newestWas, t, newest, owner, kind) && Waits(t, newest, after, newestAfter, owner, kind)
    ensures Waits(was, newestWas, after, newestAfter, owner, kind)
  {}

  /** What has been placed stays where it is while other kinds are placed. */
  lemma PlacedWaits(was: Tables, newestWas: Newest, t: Tables, newest: Newest, after: Tables, newestAfter: Newest,
                    owner: Owner, kind: Kind, rows: seq<Key>)
    requires StreamsOk(was) && StreamsOk(t) && StreamsOk(after) && Extends(t, after)
    requires Placed(was, newestWas, t, newest, owner, kind, rows) && Waits(t, newest, after, newestAfter, owner, kind)
    ensures Placed(was, newestWas, after, newestAfter, owner, kind, rows)
  {
    HeldWaits(t, newest, after, newestAfter, owner, kind);
  }

  /** What has waited is placed as if nothing had been placed before it. */
  lemma PlacedAfter(was: Tables, newestWas: Newest, t: Tables, newest: Newest, after: Tables, newestAfter: Newest,
                    owner: Owner, kind: Kind, rows: seq<Key>)
    requires StreamsOk(was) && StreamsOk(t) && StreamsOk(after) && Extends(was, t)
    requires Waits(was, newestWas, t, newest, owner, kind)
    requires Placed(t, newest, after, newestAfter, owner, kind, rows)
    ensures Placed(was, newestWas, after, newestAfter, owner, kind, rows)
  {
    HeldWaits(was, newestWas, t, newest, owner, kind);
    assert GrownAt(was.streams, t.streams, newestAfter[(owner, kind)]);
  }

  lemma KindsStep(was: Tables, newestWas: Newest, t: Tables, newest: Newest, after: Tables, newestAfter: Newest,
                  view: LegacyView, n: nat)
    requires StreamsOk(was) && StreamsOk(t) && StreamsOk(after) && Extends(was, t) && Extends(t, after)
    requires n < |KINDS| && KindsPlaced(was, newestWas, t, newest, view, n)
    requires Placed(t, newest, after, newestAfter, view.owner, KINDS[n], KeysOf(RowsOf(view, KINDS[n])))
    requires OnlyKind(t, newest, after, newestAfter, view.owner, KINDS[n])
    ensures KindsPlaced(was, newestWas, after, newestAfter, view, n + 1)
  {
    forall k | 0 <= k <= n ensures PlacedAt(was, newestWas, after, newestAfter, view, k) {
      var rows := KeysOf(RowsOf(view, KINDS[k]));
      assert Turn(KINDS[k]) == k && Turn(KINDS[n]) == n;
      if k < n {
        assert PlacedAt(was, newestWas, t, newest, view, k);
        assert Waits(t, newest, after, newestAfter, view.owner, KINDS[k]);
        PlacedWaits(was, newestWas, t, newest, after, newestAfter, view.owner, KINDS[k], rows);
      } else {
        assert Waits(was, newestWas, t, newest, view.owner, KINDS[n]);
        PlacedAfter(was, newestWas, t, newest, after, newestAfter, view.owner, KINDS[n], rows);
      }
    }
    forall owner, kind | !(owner == view.owner && Turn(kind) < n + 1)
      ensures Waits(was, newestWas, after, newestAfter, owner, kind)
    {
      assert Turn(KINDS[n]) == n;
      WaitsOn(was, newestWas, t, newest, after, newestAfter, owner, kind);
    }
  }

  /** Only the newest stream of this owner and kind may have changed. */
  ghost predicate OnlyKind(t: Tables, newest: Newest, after: Tables, newestAfter: Newest, owner: Owner, kind: Kind) {
    forall o, k :: (o == owner && k == kind) || Waits(t, newest, after, newestAfter, o, k)
  }

  // ---- the whole migration --------------------------------------------------------------------------------------

  /** The spans of a view whose kinds stand in the newest streams, each where the one before ends. */
  ghost function SpansAt(view: LegacyView, newest: Newest, n: nat): seq<Span>
    requires n <= |KINDS| && forall k :: 0 <= k < n ==> (view.owner, KINDS[k]) in newest
  {
    if n == 0 then []
    else
      var rows := RowsOf(view, KINDS[n - 1]);
      SpansAt(view, newest, n - 1)
        + if rows == [] then [] else [Span(newest[(view.owner, KINDS[n - 1])], |rows|, |LegacyContent(view, n - 1)|)]
  }

  /** Spans stay while later kinds are placed. */
  lemma {:induction false} SpansWait(view: LegacyView, newest: Newest, after: Newest, n: nat)
    requires n <= |KINDS|
    requires forall k :: 0 <= k < n ==>
               && (view.owner, KINDS[k]) in newest && (view.owner, KINDS[k]) in after
               && after[(view.owner, KINDS[k])] == newest[(view.owner, KINDS[k])]
    ensures SpansAt(view, after, n) == SpansAt(view, newest, n)
  {
    if n > 0 {
      SpansWait(view, newest, after, n - 1);
    }
  }

  /** Stream `s`, the newest before view `a`, is still the newest before view `n` exactly if none between diverges. */
  ghost predicate Linked(start: seq<Key>, legacy: seq<LegacyView>, s: StreamId, a: nat, n: nat, newest: Newest,
                         owner: Owner, kind: Kind)
    requires n <= |legacy|
  {
    && (owner, kind) in newest
    && (s == newest[(owner, kind)] <==> NoneDiverges(start, legacy, a, n, owner, kind))
  }

  /** Views `a` and `b` of one owner have this kind in one stream exactly if no view after `a` up to `b` diverges. */
  ghost predicate SharedExactly(start: seq<Key>, legacy: seq<LegacyView>, placed: seq<Newest>, a: nat, b: nat,
                                kind: Kind)
    requires a < b < |placed| && |placed| <= |legacy|
  {
    var key := (legacy[a].owner, kind);
    && key in placed[a] && key in placed[b]
    && (placed[a][key] == placed[b][key] <==> NoneDiverges(start, legacy, a + 1, b + 1, legacy[a].owner, kind))
  }

  /** After `n` views: what the newest streams hold, and which views share one. `placed` are the newest streams then. */
  ghost predicate Sharing(was: Tables, newestWas: Newest, legacy: seq<LegacyView>, n: nat, t: Tables, newest: Newest,
                          placed: seq<Newest>)
    requires StreamsOk(was) && StreamsOk(t)
  {
    && |placed| == n <= |legacy|
    && (forall owner, kind ::
          Held(t, newest, owner, kind) == Current(Held(was, newestWas, owner, kind), legacy, n, owner, kind))
    && (forall owner, kind :: (owner, kind) in newestWas ==>
          && newestWas[(owner, kind)] in t.streams
          && Linked(Held(was, newestWas, owner, kind), legacy, newestWas[(owner, kind)], 0, n, newest, owner, kind))
    && (forall a, kind :: 0 <= a < n ==> LastShared(was, newestWas, legacy, n, t, newest, placed, a, kind))
    && (forall a, b, kind :: 0 <= a < b < n && legacy[a].owner == legacy[b].owner ==>
          SharedExactly(Held(was, newestWas, legacy[a].owner, kind), legacy, placed, a, b, kind))
  }

  ghost predicate LastShared(was: Tables, newestWas: Newest, legacy: seq<LegacyView>, n: nat, t: Tables, newest: Newest,
                             placed: seq<Newest>, a: nat, kind: Kind)
    requires StreamsOk(was) && a < n == |placed| <= |legacy|
  {
    var key := (legacy[a].owner, kind);
    && key in placed[a] && placed[a][key] in t.streams
    && Linked(Held(was, newestWas, key.0, kind), legacy, placed[a][key], a + 1, n, newest, key.0, kind)
  }

  /** One more view: what the newest stream of an owner and kind holds. */
  lemma {:induction false} CurrentStep(start: seq<Key>, legacy: seq<LegacyView>, n: nat, t: Tables, newest: Newest,
                                       after: Tables, newestAfter: Newest, owner: Owner, kind: Kind)
    requires StreamsOk(t) && StreamsOk(after) && Extends(t, after) && n < |legacy|
    requires Held(t, newest, owner, kind) == Current(start, legacy, n, owner, kind)
    requires KindsPlaced(t, newest, after, newestAfter, legacy[n], |KINDS|)
    ensures Held(after, newestAfter, owner, kind) == Current(start, legacy, n + 1, owner, kind)
  {
    if owner == legacy[n].owner {
      assert PlacedAt(t, newest, after, newestAfter, legacy[n], Turn(kind));
    } else {
      assert Waits(t, newest, after, newestAfter, owner, kind);
      HeldWaits(t, newest, after, newestAfter, owner, kind);
    }
  }

  /** One more view: whether a stream is still the newest. */
  lemma {:induction false} LinkedStep(start: seq<Key>, legacy: seq<LegacyView>, s: StreamId, a: nat, n: nat,
                                      t: Tables, newest: Newest, after: Tables, newestAfter: Newest, owner: Owner,
                                      kind: Kind)
    requires StreamsOk(t) && StreamsOk(after) && Extends(t, after) && a <= n < |legacy| && s in t.streams
    requires Held(t, newest, owner, kind) == Current(start, legacy, n, owner, kind)
    requires KindsPlaced(t, newest, after, newestAfter, legacy[n], |KINDS|)
    requires Linked(start, legacy, s, a, n, newest, owner, kind)
    ensures s in after.streams && Linked(start, legacy, s, a, n + 1, newestAfter, owner, kind)
  {
    assert GrownAt(t.streams, after.streams, s);
    if owner == legacy[n].owner {
      assert PlacedAt(t, newest, after, newestAfter, legacy[n], Turn(kind));
      assert NoneDiverges(start, legacy, a, n + 1, owner, kind)
        <==> NoneDiverges(start, legacy, a, n, owner, kind) && !Diverges(start, legacy, n, kind);
    } else {
      assert Waits(t, newest, after, newestAfter, owner, kind);
    }
  }

  /** One more view is placed: two views share a stream exactly if none after the first, up to the second, diverges. */
  lemma {:induction false} SharingStep(was: Tables, newestWas: Newest, legacy: seq<LegacyView>, n: nat, t: Tables,
                                       newest: Newest, placed: seq<Newest>, after: Tables, newestAfter: Newest)
    requires StreamsOk(was) && StreamsOk(t) && StreamsOk(after) && Extends(t, after) && n < |legacy|
    requires Sharing(was, newestWas, legacy, n, t, newest, placed)
    requires KindsPlaced(t, newest, after, newestAfter, legacy[n], |KINDS|)
    ensures Sharing(was, newestWas, legacy, n + 1, after, newestAfter, placed + [newestAfter])
  {
    var more := placed + [newestAfter];
    forall owner, kind
      ensures Held(after, newestAfter, owner, kind)
           == Current(Held(was, newestWas, owner, kind), legacy, n + 1, owner, kind)
    {
      CurrentStep(Held(was, newestWas, owner, kind), legacy, n, t, newest, after, newestAfter, owner, kind);
    }
    forall owner, kind | (owner, kind) in newestWas
      ensures newestWas[(owner, kind)] in after.streams
      ensures Linked(Held(was, newestWas, owner, kind), legacy, newestWas[(owner, kind)], 0, n + 1, newestAfter, owner,
                     kind)
    {
      LinkedStep(Held(was, newestWas, owner, kind), legacy, newestWas[(owner, kind)], 0, n, t, newest, after,
                 newestAfter, owner, kind);
    }
    var m := n + 1;
    forall a, kind | 0 <= a <= n ensures LastShared(was, newestWas, legacy, m, after, newestAfter, more, a, kind) {
      if a < n {
        assert LastShared(was, newestWas, legacy, n, t, newest, placed, a, kind);
        LinkedStep(Held(was, newestWas, legacy[a].owner, kind), legacy, placed[a][(legacy[a].owner, kind)], a + 1, n, t,
                   newest, after, newestAfter, legacy[a].owner, kind);
      } else {
        assert PlacedAt(t, newest, after, newestAfter, legacy[n], Turn(kind));
      }
    }
    forall a, b, kind | 0 <= a < b <= n && legacy[a].owner == legacy[b].owner
      ensures SharedExactly(Held(was, newestWas, legacy[a].owner, kind), legacy, more, a, b, kind)
    {
      if b < n {
        assert SharedExactly(Held(was, newestWas, legacy[a].owner, kind), legacy, placed, a, b, kind);
      } else {
        assert LastShared(was, newestWas, legacy, m, after, newestAfter, more, a, kind);
      }
    }
  }

  lemma {:induction false} NothingShared(t: Tables, newest: Newest, legacy: seq<LegacyView>)
    requires StreamsOk(t) && forall key :: key in newest ==> newest[key] in t.streams
    ensures Sharing(t, newest, legacy, 0, t, newest, [])
  {}

  /** Two equal views do not share where a view between them diverges: only the newest stream is compared. */
  lemma {:induction false} SeparatedPrefixes(owner: Owner, kind: Kind, a: Record, b: Record, views: seq<LegacyView>)
    requires KeyOf(a) != KeyOf(b) && |views| == 3 && forall i :: 0 <= i < 3 ==> views[i].owner == owner
    requires RowsOf(views[0], kind) == RowsOf(views[2], kind) == [a] && RowsOf(views[1], kind) == [b]
    ensures Diverges([], views, 1, kind) && Diverges([], views, 2, kind)
    ensures !NoneDiverges([], views, 1, 3, owner, kind)
  {
    assert Current([], views, 0, owner, kind) == [];
    assert Current([], views, 1, owner, kind) == KeysOf([a]);
    assert KeysOf([a])[0] != KeysOf([b])[0];
    assert Current([], views, 2, owner, kind) == KeysOf([b]);
  }
}
