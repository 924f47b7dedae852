/** The depth-first walk that puts an imported conversation's messages in order. */
module ConversationImport {
  import opened Prelude

  /** The fields the walk looks at. A missing list of children is an empty one. */
  datatype Message = Message(id: Option<string>, parentId: Option<string>, children: seq<string>)

  type Messages = map<string, Message>

  /** The walk would enter the id. */
  predicate Enters(byId: Messages, seen: set<string>, id: string) {
    id != "" && id in byId && id !in seen
  }

  /** The walk with an explicit list of ids still to visit: the keys it lists from there. */
  function Walk(byId: Messages, ids: seq<string>, seen: set<string>): (listed: seq<string>)
    ensures forall k :: 0 <= k < |listed| ==> Enters(byId, seen, listed[k])
    decreases byId.Keys - seen, |ids|
  {
    if ids == [] then []
    else if Enters(byId, seen, ids[0]) then
      [ids[0]] + Walk(byId, byId[ids[0]].children + ids[1..], seen + {ids[0]})
    else Walk(byId, ids[1..], seen)
  }

  function Elements(s: seq<string>): set<string> {
    set x | x in s
  }

  /** Visiting two lists one after the other. */
  lemma {:induction false} WalkInTwo(byId: Messages, a: seq<string>, b: seq<string>, seen: set<string>)
    ensures var first := Walk(byId, a, seen);
            Walk(byId, a + b, seen) == first + Walk(byId, b, seen + Elements(first))
    decreases byId.Keys - seen, |a|
  {
    var first := Walk(byId, a, seen);
    if a == [] {
      assert a + b == b && seen + Elements([]) == seen;
    } else {
      var id := a[0];
      assert (a + b)[0] == id && (a + b)[1..] == a[1..] + b;
      if Enters(byId, seen, id) {
        var deeper := byId[id].children + a[1..];
        assert byId[id].children + (a[1..] + b) == deeper + b;
        WalkInTwo(byId, deeper, b, seen + {id});
        var rest := Walk(byId, deeper, seen + {id});
        assert Elements([id] + rest) == {id} + Elements(rest);
        assert seen + {id} + Elements(rest) == seen + Elements(first);
      } else {
        WalkInTwo(byId, a[1..], b, seen);
      }
    }
  }

  ghost predicate Distinct(s: seq<string>) {
    forall i, j :: 0 <= i < j < |s| ==> s[i] != s[j]
  }

  /** No key is listed twice. */
  lemma {:induction false} WalkListsOnce(byId: Messages, ids: seq<string>, seen: set<string>)
    ensures Distinct(Walk(byId, ids, seen))
    decreases byId.Keys - seen, |ids|
  {
    if ids != [] {
      if Enters(byId, seen, ids[0]) {
        var deeper := byId[ids[0]].children + ids[1..];
        WalkListsOnce(byId, deeper, seen + {ids[0]});
        var rest := Walk(byId, deeper, seen + {ids[0]});
        assert forall k :: 0 <= k < |rest| ==> rest[k] != ids[0];
        assert Distinct([ids[0]] + rest);
      } else {
        WalkListsOnce(byId, ids[1..], seen);
      }
    }
  }

  /** Every id to visit that names a message ends up listed. */
  lemma {:induction false} WalkListsAll(byId: Messages, ids: seq<string>, seen: set<string>, id: string)
    requires id in ids && Enters(byId, seen, id)
    ensures id in Walk(byId, ids, seen)
    decreases byId.Keys - seen, |ids|
  {
    var first := ids[0];
    if Enters(byId, seen, first) {
      if id != first {
        assert id in ids[1..];
        WalkListsAll(byId, byId[first].children + ids[1..], seen + {first}, id);
      }
    } else {
      WalkListsAll(byId, ids[1..], seen, id);
    }
  }

  /** The walk in progress: what `visit` closes over. */
  class Visitor {
    const byId: Messages
    var ordered: seq<string>
    var seen: set<string>

    constructor (byId: Messages)
      ensures this.byId == byId && ordered == [] && seen == {}
    {
      this.byId := byId;
      ordered, seen := [], {};
    }

    /** Terminates on every map, however its links run. */
    method Visit(id: string)
      modifies this
      ensures ordered == old(ordered) + Walk(byId, [id], old(seen))
      ensures seen == old(seen) + Elements(Walk(byId, [id], old(seen)))
      decreases byId.Keys - seen, 1
    {
      if id == "" || id !in byId || id in seen {
        assert Walk(byId, [id], seen) == [];
        return;
      }
      var children := byId[id].children;
      ghost var before, start := seen, ordered;
      seen := seen + {id};
      ordered := ordered + [id];
      assert [id][1..] == [] && children + [] == children;
      assert Walk(byId, [id], before) == [id] + Walk(byId, children, before + {id});
      VisitAll(children);
      assert Elements([id] + Walk(byId, children, before + {id})) == {id} + Elements(Walk(byId, children, before + {id}));
      assert start + [id] + Walk(byId, children, before + {id}) == start + ([id] + Walk(byId, children, before + {id}));
    }

    /** The loop over a list of ids. */
    method VisitAll(ids: seq<string>)
      modifies this
      ensures ordered == old(ordered) + Walk(byId, ids, old(seen))
      ensures seen == old(seen) + Elements(Walk(byId, ids, old(seen)))
      decreases byId.Keys - seen, 2
    {
      ghost var before, start := seen, ordered;
      for k := 0 to |ids|
        invariant ordered == start + Walk(byId, ids[..k], before)
        invariant seen == before + Elements(Walk(byId, ids[..k], before))
      {
        ghost var first := Walk(byId, ids[..k], before);
        WalkInTwo(byId, ids[..k], [ids[k]], before);
        assert ids[..k + 1] == ids[..k] + [ids[k]];
        ghost var more := Walk(byId, [ids[k]], seen);
        Visit(ids[k]);
        assert Elements(first + more) == Elements(first) + Elements(more);
        assert start + first + more == start + (first + more);
      }
      assert ids[..|ids|] == ids;
    }

    /** The two driving loops: first the messages without a parent, then whatever they did not
        reach. `order` is the order of the map's values. */
    method Collect(order: seq<string>)
      requires ordered == [] && seen == {} && forall k :: 0 <= k < |order| ==> order[k] in byId
      modifies this
      ensures ordered == Walk(byId, RootIds(byId, order) + AllIds(byId, order), {})
    {
      for k := 0 to |order|
        invariant ordered == Walk(byId, RootIds(byId, order[..k]), {}) && seen == Elements(ordered)
      {
        var m := byId[order[k]];
        RootIdsSnoc(byId, order[..k], order[k]);
        assert order[..k + 1] == order[..k] + [order[k]];
        if !HasParent(m) && m.id.Some? {
          VisitNext(RootIds(byId, order[..k]), m.id.value);
        } else {
          assert RootIds(byId, order[..k]) + [] == RootIds(byId, order[..k]);
        }
      }
      assert order[..|order|] == order;
      var roots := RootIds(byId, order);
      assert roots + [] == roots;
      for k := 0 to |order|
        invariant ordered == Walk(byId, roots + AllIds(byId, order[..k]), {}) && seen == Elements(ordered)
      {
        var m := byId[order[k]];
        AllIdsSnoc(byId, order[..k], order[k]);
        assert order[..k + 1] == order[..k] + [order[k]];
        if m.id.Some? {
          var ids := roots + AllIds(byId, order[..k]);
          assert ids + [m.id.value] == roots + AllIds(byId, order[..k + 1]);
          if m.id.value in seen {
            WalkInTwo(byId, ids, [m.id.value], {});
            assert {} + Elements(Walk(byId, ids, {})) == seen;
            NothingNew(byId, [m.id.value], seen);
            assert ordered + [] == ordered;
          } else {
            VisitNext(ids, m.id.value);
          }
        } else {
          assert AllIds(byId, order[..k]) + [] == AllIds(byId, order[..k]);
        }
      }
    }

    method VisitNext(ghost ids: seq<string>, id: string)
      requires ordered == Walk(byId, ids, {}) && seen == Elements(ordered)
      modifies this
      ensures ordered == Walk(byId, ids + [id], {}) && seen == Elements(ordered)
    {
      WalkInTwo(byId, ids, [id], {});
      assert {} + Elements(Walk(byId, ids, {})) == seen;
      ghost var first, more := ordered, Walk(byId, [id], seen);
      Visit(id);
      assert Elements(first + more) == Elements(first) + Elements(more);
    }
  }

  predicate HasParent(m: Message) {
    m.parentId.Some? && m.parentId.value != ""
  }

  /** The ids of the messages without a parent, in order. */
  function RootIds(byId: Messages, order: seq<string>): seq<string>
    requires forall k :: 0 <= k < |order| ==> order[k] in byId
  {
    if order == [] then []
    else
      var m := byId[order[0]];
      (if !HasParent(m) && m.id.Some? then [m.id.value] else []) + RootIds(byId, order[1..])
  }

  function AllIds(byId: Messages, order: seq<string>): seq<string>
    requires forall k :: 0 <= k < |order| ==> order[k] in byId
  {
    if order == [] then []
    else
      var m := byId[order[0]];
      (if m.id.Some? then [m.id.value] else []) + AllIds(byId, order[1..])
  }

  lemma {:induction false} RootIdsSnoc(byId: Messages, order: seq<string>, key: string)
    requires key in byId && forall k :: 0 <= k < |order| ==> order[k] in byId
    ensures RootIds(byId, order + [key]) ==
            RootIds(byId, order) + if !HasParent(byId[key]) && byId[key].id.Some? then [byId[key].id.value] else []
  {
    var all := order + [key];
    if order == [] {
      assert all[1..] == [];
    } else {
      RootIdsSnoc(byId, order[1..], key);
      assert all[1..] == order[1..] + [key] && all[0] == order[0];
    }
  }

  lemma {:induction false} AllIdsSnoc(byId: Messages, order: seq<string>, key: string)
    requires key in byId && forall k :: 0 <= k < |order| ==> order[k] in byId
    ensures AllIds(byId, order + [key]) == AllIds(byId, order) + if byId[key].id.Some? then [byId[key].id.value] else []
  {
    var all := order + [key];
    if order == [] {
      assert all[1..] == [];
    } else {
      AllIdsSnoc(byId, order[1..], key);
      assert all[1..] == order[1..] + [key] && all[0] == order[0];
    }
  }

  // ---------------------------------------------------------------------------------------
  // What is listed

  /** The export's own promise: each message is stored under its id. */
  ghost predicate KeyedById(byId: Messages, order: seq<string>) {
    && (forall id :: id in byId ==> byId[id].id == Some(id))
    && (forall id :: id in byId <==> id in order)
  }

  /** Whatever the links, cyclic and dangling ones too, every message is listed exactly once. */
  lemma EveryMessageOnce(byId: Messages, order: seq<string>)
    requires KeyedById(byId, order)
    ensures var listed := Walk(byId, RootIds(byId, order) + AllIds(byId, order), {});
            Distinct(listed) && forall id :: id in listed <==> id in byId && id != ""
  {
    var ids := RootIds(byId, order) + AllIds(byId, order);
    var listed := Walk(byId, ids, {});
    WalkListsOnce(byId, ids, {});
    forall id | id in byId && id != ""
      ensures id in listed
    {
      AllIdsHave(byId, order, id);
      WalkListsAll(byId, ids, {}, id);
    }
  }

  lemma {:induction false} AllIdsHave(byId: Messages, order: seq<string>, id: string)
    requires id in order && (forall k :: 0 <= k < |order| ==> order[k] in byId) && byId[id].id == Some(id)
    ensures id in AllIds(byId, order)
  {
    if order[0] != id {
      AllIdsHave(byId, order[1..], id);
    }
  }

  // ---------------------------------------------------------------------------------------
  // Forests

  datatype Tree = Tree(id: string, replies: seq<Tree>)

  function Ids(ts: seq<Tree>): (r: seq<string>)
    ensures |r| == |ts| && forall k :: 0 <= k < |ts| ==> r[k] == ts[k].id
  {
    seq(|ts|, k requires 0 <= k < |ts| => ts[k].id)
  }

  /** Each tree's root and then its subtrees, in order. */
  function Preorder(ts: seq<Tree>): seq<string> {
    if ts == [] then [] else [ts[0].id] + Preorder(ts[0].replies) + Preorder(ts[1..])
  }

  /** The map's child links draw the trees. */
  predicate Draws(byId: Messages, ts: seq<Tree>) {
    ts == []
    || (ts[0].id != "" && ts[0].id in byId && byId[ts[0].id].children == Ids(ts[0].replies)
        && Draws(byId, ts[0].replies) && Draws(byId, ts[1..]))
  }

  lemma DistinctParts(x: string, a: seq<string>, b: seq<string>)
    requires Distinct([x] + a + b)
    ensures Distinct(a) && Distinct(b) && x !in a && x !in b && forall y :: y in a ==> y !in b
  {
    var all := [x] + a + b;
    assert all[0] == x && all[1..1 + |a|] == a && all[1 + |a|..] == b;
    assert forall k :: 0 <= k < |a| ==> all[1 + k] == a[k];
    assert forall k :: 0 <= k < |b| ==> all[1 + |a| + k] == b[k];
  }

  lemma WalkOfFirst(byId: Messages, t: Tree, rest: seq<Tree>, seen: set<string>)
    requires Enters(byId, seen, t.id) && byId[t.id].children == Ids(t.replies)
    requires Walk(byId, Ids(t.replies), seen + {t.id}) == Preorder(t.replies)
    requires Walk(byId, Ids(rest), seen + {t.id} + Elements(Preorder(t.replies))) == Preorder(rest)
    ensures Walk(byId, Ids([t] + rest), seen) == Preorder([t] + rest)
  {
    assert ([t] + rest)[1..] == rest;
    var ids := Ids([t] + rest);
    assert ids[0] == t.id && ids[1..] == Ids(rest);
    assert Walk(byId, ids, seen) == [t.id] + Walk(byId, Ids(t.replies) + Ids(rest), seen + {t.id});
    assert Preorder([t] + rest) == [t.id] + Preorder(t.replies) + Preorder(rest);
    hide Walk, Preorder;
    WalkInTwo(byId, Ids(t.replies), Ids(rest), seen + {t.id});
    assert [t.id] + (Preorder(t.replies) + Preorder(rest)) == [t.id] + Preorder(t.replies) + Preorder(rest);
  }

  lemma {:induction false} WalkOfForest(byId: Messages, ts: seq<Tree>, seen: set<string>)
    requires Draws(byId, ts) && Distinct(Preorder(ts)) && forall id :: id in Preorder(ts) ==> id !in seen
    ensures Walk(byId, Ids(ts), seen) == Preorder(ts)
    decreases ts
  {
    if ts != [] {
      var id, replies, rest := ts[0].id, ts[0].replies, ts[1..];
      var below, after := Preorder(replies), Preorder(rest);
      assert Preorder(ts) == [id] + below + after;
      DistinctParts(id, below, after);
      hide Walk, Preorder;
      assert id in Preorder(ts) && forall x :: x in below || x in after ==> x in Preorder(ts);
      WalkOfForest(byId, replies, seen + {id});
      WalkOfForest(byId, rest, seen + {id} + Elements(below));
      WalkOfFirst(byId, ts[0], rest, seen);
      assert [ts[0]] + rest == ts;
    }
  }

  lemma {:induction false} NothingNew(byId: Messages, ids: seq<string>, seen: set<string>)
    requires forall id :: id in ids ==> !Enters(byId, seen, id)
    ensures Walk(byId, ids, seen) == []
  {
    if ids != [] {
      NothingNew(byId, ids[1..], seen);
    }
  }

  /** When the links agree, the messages without a parent being the roots of a forest that the
      child links draw, the list is that forest's preorder. */
  lemma ForestInPreorder(byId: Messages, order: seq<string>, forest: seq<Tree>)
    requires KeyedById(byId, order) && Draws(byId, forest) && Distinct(Preorder(forest))
    requires forall id :: id in byId <==> id in Preorder(forest)
    requires RootIds(byId, order) == Ids(forest)
    ensures Walk(byId, RootIds(byId, order) + AllIds(byId, order), {}) == Preorder(forest)
  {
    WalkOfForest(byId, forest, {});
    WalkInTwo(byId, Ids(forest), AllIds(byId, order), {});
    var seen := {} + Elements(Preorder(forest));
    NothingNew(byId, AllIds(byId, order), seen);
  }

  /** One id stands before the other. */
  ghost predicate Precedes(s: seq<string>, x: string, y: string) {
    exists i, j :: 0 <= i < j < |s| && s[i] == x && s[j] == y
  }

  lemma PrecedesIn(a: seq<string>, s: seq<string>, b: seq<string>, x: string, y: string)
    requires Precedes(s, x, y)
    ensures Precedes(a + s + b, x, y)
  {
    var i, j :| 0 <= i < j < |s| && s[i] == x && s[j] == y;
    var all := a + s + b;
    assert all[|a| + i] == x && all[|a| + j] == y;
  }

  /** The tree is one of the forest's, at any depth. */
  ghost predicate Within(t: Tree, ts: seq<Tree>) {
    ts != [] && (t == ts[0] || Within(t, ts[0].replies) || Within(t, ts[1..]))
  }

  lemma {:induction false} RootsListed(ts: seq<Tree>, k: nat)
    requires k < |ts|
    ensures ts[k].id in Preorder(ts)
  {
    if k > 0 {
      RootsListed(ts[1..], k - 1);
    }
  }

  lemma {:induction false} RootsInOrder(ts: seq<Tree>, j: nat, k: nat)
    requires j < k < |ts|
    ensures Precedes(Preorder(ts), ts[j].id, ts[k].id)
  {
    var first := [ts[0].id] + Preorder(ts[0].replies);
    if j == 0 {
      RootsListed(ts[1..], k - 1);
      var i :| 0 <= i < |Preorder(ts[1..])| && Preorder(ts[1..])[i] == ts[k].id;
      assert Preorder(ts)[0] == ts[0].id && Preorder(ts)[|first| + i] == ts[k].id;
    } else {
      RootsInOrder(ts[1..], j - 1, k - 1);
      PrecedesIn(first, Preorder(ts[1..]), [], ts[j].id, ts[k].id);
      assert first + Preorder(ts[1..]) + [] == Preorder(ts);
    }
  }

  /** In the preorder every message stands before its replies, and replies keep their order. */
  lemma {:induction false} ParentsFirst(ts: seq<Tree>, t: Tree, k: nat)
    requires Within(t, ts) && k < |t.replies|
    ensures Precedes(Preorder(ts), t.id, t.replies[k].id)
    ensures forall j: nat :: j < k ==> Precedes(Preorder(ts), t.replies[j].id, t.replies[k].id)
    decreases ts
  {
    var id, below, rest := ts[0].id, Preorder(ts[0].replies), Preorder(ts[1..]);
    assert Preorder(ts) == [id] + below + rest;
    if t == ts[0] {
      RootsListed(t.replies, k);
      var i :| 0 <= i < |below| && below[i] == t.replies[k].id;
      assert Preorder(ts)[0] == id && Preorder(ts)[1 + i] == t.replies[k].id;
      forall j: nat | j < k
        ensures Precedes(Preorder(ts), t.replies[j].id, t.replies[k].id)
      {
        RootsInOrder(t.replies, j, k);
        PrecedesIn([id], below, rest, t.replies[j].id, t.replies[k].id);
      }
    } else if Within(t, ts[0].replies) {
      ParentsFirst(ts[0].replies, t, k);
      PrecedesIn([id], below, rest, t.id, t.replies[k].id);
      forall j: nat | j < k
        ensures Precedes(Preorder(ts), t.replies[j].id, t.replies[k].id)
      {
        PrecedesIn([id], below, rest, t.replies[j].id, t.replies[k].id);
      }
    } else {
      ParentsFirst(ts[1..], t, k);
      assert Preorder(ts) == ([id] + below) + rest + [];
      PrecedesIn([id] + below, rest, [], t.id, t.replies[k].id);
      forall j: nat | j < k
        ensures Precedes(Preorder(ts), t.replies[j].id, t.replies[k].id)
      {
        PrecedesIn([id] + below, rest, [], t.replies[j].id, t.replies[k].id);
      }
    }
  }

  /** So every message is listed before its replies, and replies in their own order. */
  lemma ParentsListedFirst(byId: Messages, order: seq<string>, forest: seq<Tree>, t: Tree, k: nat)
    requires KeyedById(byId, order) && Draws(byId, forest) && Distinct(Preorder(forest))
    requires forall id :: id in byId <==> id in Preorder(forest)
    requires RootIds(byId, order) == Ids(forest)
    requires Within(t, forest) && k < |t.replies|
    ensures var listed := Walk(byId, RootIds(byId, order) + AllIds(byId, order), {});
            && Precedes(listed, t.id, t.replies[k].id)
            && forall j: nat :: j < k ==> Precedes(listed, t.replies[j].id, t.replies[k].id)
  {
    ForestInPreorder(byId, order, forest);
    ParentsFirst(forest, t, k);
  }

  // ---------------------------------------------------------------------------------------
  // Links that agree and have no cycle draw a forest

  predicate ParentLists(byId: Messages, c: string)
    requires c in byId
  {
    HasParent(byId[c]) ==> byId[c].parentId.value in byId && c in byId[byId[c].parentId.value].children
  }

  /** A message is among another's children exactly if it names that one as its parent, and
      nobody has a child twice. */
  ghost predicate LinksAgree(byId: Messages) {
    && "" !in byId
    && (forall p, c :: p in byId && c in byId[p].children ==> c in byId && byId[c].parentId == Some(p))
    && (forall c {:trigger ParentLists(byId, c)} :: c in byId ==> ParentLists(byId, c))
    && (forall p :: p in byId ==> Distinct(byId[p].children))
  }

  /** The message n parents up. */
  function Climb(byId: Messages, x: string, n: nat): Option<string>
    decreases n
  {
    if n == 0 then Some(x)
    else if x in byId && HasParent(byId[x]) then Climb(byId, byId[x].parentId.value, n - 1)
    else None
  }

  /** Nobody is its own ancestor. */
  ghost predicate NoCycle(byId: Messages) {
    forall x, n: nat :: x in byId && n > 0 ==> Climb(byId, x, n) != Some(x)
  }

  lemma {:induction false} ClimbOn(byId: Messages, x: string, m: nat, n: nat)
    requires Climb(byId, x, m).Some?
    ensures Climb(byId, x, m + n) == Climb(byId, Climb(byId, x, m).value, n)
    decreases m
  {
    if m > 0 {
      ClimbOn(byId, byId[x].parentId.value, m - 1, n);
    }
  }

  /** n parents up from the message there is one without a parent. */
  predicate EndsAfter(byId: Messages, id: string, n: nat)
    decreases n
  {
    id in byId && if HasParent(byId[id]) then n > 0 && EndsAfter(byId, byId[id].parentId.value, n - 1) else n == 0
  }

  lemma {:induction false} EndsOnce(byId: Messages, id: string, m: nat, n: nat)
    requires EndsAfter(byId, id, m) && EndsAfter(byId, id, n)
    ensures m == n
    decreases m
  {
    if HasParent(byId[id]) {
      EndsOnce(byId, byId[id].parentId.value, m - 1, n - 1);
    }
  }

  /** The message is an ancestor of all those seen on the way up to it. */
  ghost predicate AboveAll(byId: Messages, seen: set<string>, id: string) {
    forall s :: s in seen ==> exists n: nat :: n > 0 && Climb(byId, s, n) == Some(id)
  }

  lemma {:induction false} WayUpEnds(byId: Messages, id: string, seen: set<string>) returns (n: nat)
    requires LinksAgree(byId) && NoCycle(byId) && id in byId && id !in seen && AboveAll(byId, seen, id)
    ensures EndsAfter(byId, id, n)
    decreases byId.Keys - seen
  {
    assert ParentLists(byId, id);
    if HasParent(byId[id]) {
      var p := byId[id].parentId.value;
      assert Climb(byId, id, 1) == Some(p) by { assert Climb(byId, p, 0) == Some(p); }
      forall s | s in seen + {id}
        ensures exists n: nat :: n > 0 && Climb(byId, s, n) == Some(p)
      {
        if s in seen {
          var k: nat :| k > 0 && Climb(byId, s, k) == Some(id);
          ClimbOn(byId, s, k, 1);
          assert Climb(byId, s, k + 1) == Some(p);
        }
      }
      n := WayUpEnds(byId, p, seen + {id});
      n := n + 1;
    } else {
      n := 0;
    }
  }

  ghost predicate Rooted(byId: Messages) {
    forall id :: id in byId ==> exists n: nat :: EndsAfter(byId, id, n)
  }

  lemma EveryWayEnds(byId: Messages)
    requires LinksAgree(byId) && NoCycle(byId)
    ensures Rooted(byId)
  {
    forall id | id in byId
      ensures exists n: nat :: EndsAfter(byId, id, n)
    {
      var n := WayUpEnds(byId, id, {});
    }
  }

  ghost function Depth(byId: Messages, id: string): (n: nat)
    requires Rooted(byId) && id in byId
    ensures EndsAfter(byId, id, n)
  {
    var n: nat :| EndsAfter(byId, id, n);
    n
  }

  lemma DepthOf(byId: Messages, id: string)
    requires LinksAgree(byId) && Rooted(byId) && id in byId
    ensures if HasParent(byId[id]) then byId[id].parentId.value in byId && Depth(byId, id) == Depth(byId, byId[id].parentId.value) + 1
            else Depth(byId, id) == 0
  {
    hide Depth;
    assert ParentLists(byId, id);
    if HasParent(byId[id]) {
      EndsOnce(byId, byId[id].parentId.value, Depth(byId, id) - 1, Depth(byId, byId[id].parentId.value));
    }
  }

  /** The trees that hang on some ids. */
  function Grow(byId: Messages, ids: seq<string>, above: set<string>): seq<Tree>
    decreases byId.Keys - above, |ids|
  {
    if ids == [] then []
    else if ids[0] in byId && ids[0] !in above then
      [Tree(ids[0], Grow(byId, byId[ids[0]].children, above + {ids[0]}))] + Grow(byId, ids[1..], above)
    else Grow(byId, ids[1..], above)
  }

  /** The message has one of the ids, which are all d deep, for an ancestor, or is one of them. */
  ghost predicate Below(byId: Messages, ids: seq<string>, d: nat, x: string)
    requires Rooted(byId)
  {
    x in byId && Depth(byId, x) >= d && Climb(byId, x, Depth(byId, x) - d).Some? && Climb(byId, x, Depth(byId, x) - d).value in ids
  }

  lemma BelowChild(byId: Messages, id: string, d: nat, x: string)
    requires LinksAgree(byId) && Rooted(byId) && id in byId && Below(byId, byId[id].children, d + 1, x)
    ensures Below(byId, [id], d, x) && Depth(byId, x) > d
  {
    var n := Depth(byId, x) - d - 1;
    var c := Climb(byId, x, n).value;
    ParentIsUp(byId, id, c);
    hide LinksAgree, EndsAfter, Rooted;
    ClimbOn(byId, x, n, 1);
    hide Climb;
  }

  lemma ParentIsUp(byId: Messages, id: string, c: string)
    requires LinksAgree(byId) && id in byId && c in byId[id].children
    ensures Climb(byId, c, 1) == Some(id)
  {
    assert c in byId && byId[c].parentId == Some(id) && id != "";
    assert Climb(byId, id, 0) == Some(id);
  }

  lemma JoinDistinct(x: string, a: seq<string>, b: seq<string>)
    requires Distinct(a) && Distinct(b) && x !in a && x !in b && forall y :: y in a ==> y !in b
    ensures Distinct([x] + a + b)
  {
    var all := [x] + a + b;
    forall i, j | 0 <= i < j < |all|
      ensures all[i] != all[j]
    {
      if j <= |a| {
        assert all[j] == a[j - 1] && all[j] in a;
        assert i > 0 ==> all[i] == a[i - 1];
      } else {
        assert all[j] == b[j - 1 - |a|] && all[j] in b;
        assert i > |a| ==> all[i] == b[i - 1 - |a|];
        assert 0 < i <= |a| ==> all[i] == a[i - 1] && all[i] in a;
      }
    }
  }

  ghost predicate Level(byId: Messages, ids: seq<string>, d: nat)
    requires Rooted(byId)
  {
    forall id :: id in ids ==> id in byId && Depth(byId, id) == d
  }

  ghost predicate Shallower(byId: Messages, above: set<string>, d: nat)
    requires Rooted(byId)
  {
    forall a :: a in above ==> a in byId && Depth(byId, a) < d
  }

  lemma ChildrenLevel(byId: Messages, id: string)
    requires LinksAgree(byId) && Rooted(byId) && id in byId
    ensures Level(byId, byId[id].children, Depth(byId, id) + 1)
  {
    hide LinksAgree, Rooted, EndsAfter;
    forall c | c in byId[id].children
      ensures c in byId && Depth(byId, c) == Depth(byId, id) + 1
    {
      ChildDepth(byId, id, c);
    }
  }

  lemma ChildDepth(byId: Messages, id: string, c: string)
    requires LinksAgree(byId) && Rooted(byId) && id in byId && c in byId[id].children
    ensures c in byId && Depth(byId, c) == Depth(byId, id) + 1
  {
    assert c in byId && byId[c].parentId == Some(id) && id != "";
    DepthOf(byId, c);
    hide LinksAgree, Rooted, EndsAfter, Depth;
  }

  /** What grows on ids of one level is drawn by the links, and holds no message twice. */
  lemma {:induction false} Grown(byId: Messages, ids: seq<string>, above: set<string>, d: nat)
    requires LinksAgree(byId) && Rooted(byId) && Level(byId, ids, d) && Shallower(byId, above, d) && Distinct(ids)
    ensures var ts := Grow(byId, ids, above);
            && Ids(ts) == ids && Draws(byId, ts) && Distinct(Preorder(ts))
            && forall x :: x in Preorder(ts) ==> Below(byId, ids, d, x)
    decreases byId.Keys - above, |ids|
  {
    if ids != [] {
      var id, rest := ids[0], ids[1..];
      var children := byId[id].children;
      var replies, after := Grow(byId, children, above + {id}), Grow(byId, rest, above);
      var ts := [Tree(id, replies)] + after;
      assert Grow(byId, ids, above) == ts && ts[1..] == after && ids == [id] + rest;
      ChildrenLevel(byId, id);
      Grown(byId, children, above + {id}, d + 1);
      Grown(byId, rest, above, d);
      assert Ids(ts) == [id] + Ids(after);
      var p, q := Preorder(replies), Preorder(after);
      assert Preorder(ts) == [id] + p + q;
      assert "" !in byId;
      GrownApart(byId, ids, d, p, q);
      JoinDistinct(id, p, q);
    }
  }

  lemma GrownApart(byId: Messages, ids: seq<string>, d: nat, p: seq<string>, q: seq<string>)
    requires LinksAgree(byId) && Rooted(byId) && Level(byId, ids, d) && Distinct(ids) && ids != []
    requires forall x :: x in p ==> Below(byId, byId[ids[0]].children, d + 1, x)
    requires forall x :: x in q ==> Below(byId, ids[1..], d, x)
    ensures ids[0] !in p && ids[0] !in q && forall x :: x in p ==> x !in q
    ensures forall x :: x in [ids[0]] + p + q ==> Below(byId, ids, d, x)
  {
    var id := ids[0];
    assert id !in ids[1..] && Climb(byId, id, 0) == Some(id);
    forall x | x in p
      ensures Below(byId, [id], d, x) && Depth(byId, x) > d
    {
      BelowChild(byId, id, d, x);
    }
    hide Depth, Climb;
  }

  /** A listed message's children are listed, and it is a tree with them for replies. */
  lemma {:induction false} DrawnTree(byId: Messages, ts: seq<Tree>, p: string) returns (t: Tree)
    requires Draws(byId, ts) && p in Preorder(ts)
    ensures Within(t, ts) && t.id == p && p in byId && Ids(t.replies) == byId[p].children
    ensures forall c :: c in byId[p].children ==> c in Preorder(ts)
  {
    var id, below, rest := ts[0].id, Preorder(ts[0].replies), Preorder(ts[1..]);
    assert Preorder(ts) == [id] + below + rest;
    if p == id {
      t := ts[0];
      forall c | c in byId[p].children
        ensures c in Preorder(ts)
      {
        var k :| 0 <= k < |byId[p].children| && byId[p].children[k] == c;
        RootsListed(t.replies, k);
      }
    } else if p in below {
      t := DrawnTree(byId, ts[0].replies, p);
    } else {
      t := DrawnTree(byId, ts[1..], p);
    }
  }

  lemma {:induction false} AllGrown(byId: Messages, roots: seq<string>, x: string)
    requires LinksAgree(byId) && Rooted(byId) && x in byId
    requires forall r :: r in byId && !HasParent(byId[r]) ==> r in roots
    requires Draws(byId, Grow(byId, roots, {})) && Ids(Grow(byId, roots, {})) == roots
    ensures x in Preorder(Grow(byId, roots, {}))
    decreases Depth(byId, x)
  {
    var ts := Grow(byId, roots, {});
    hide Depth, Grow;
    assert ParentLists(byId, x);
    DepthOf(byId, x);
    if HasParent(byId[x]) {
      var p := byId[x].parentId.value;
      AllGrown(byId, roots, p);
      var t := DrawnTree(byId, ts, p);
    } else {
      var k :| 0 <= k < |roots| && roots[k] == x;
      RootsListed(ts, k);
    }
  }

  lemma {:induction false} RootsAre(byId: Messages, order: seq<string>)
    requires Distinct(order) && forall k :: 0 <= k < |order| ==> order[k] in byId && byId[order[k]].id == Some(order[k])
    ensures Distinct(RootIds(byId, order))
    ensures forall r :: r in RootIds(byId, order) <==> r in order && !HasParent(byId[r])
  {
    if order != [] {
      var first, rest := order[0], order[1..];
      assert order == [first] + rest && first !in rest;
      RootsAre(byId, rest);
    }
  }

  /** Links that agree and have no cycle draw exactly one forest on the roots, of all messages. */
  lemma ForestGrows(byId: Messages, order: seq<string>) returns (forest: seq<Tree>)
    requires KeyedById(byId, order) && Distinct(order) && LinksAgree(byId) && NoCycle(byId)
    ensures Draws(byId, forest) && Distinct(Preorder(forest)) && RootIds(byId, order) == Ids(forest)
    ensures forall id :: id in byId <==> id in Preorder(forest)
  {
    EveryWayEnds(byId);
    RootsAre(byId, order);
    var roots := RootIds(byId, order);
    assert forall r :: r in roots <==> r in byId && !HasParent(byId[r]);
    hide LinksAgree, NoCycle, Rooted, EndsAfter, Depth, KeyedById, RootIds, Draws, Preorder, Distinct;
    forall r | r in roots
      ensures r in byId && Depth(byId, r) == 0
    {
      DepthOf(byId, r);
    }
    Grown(byId, roots, {}, 0);
    forest := Grow(byId, roots, {});
    hide Grow;
    forall x | x in byId
      ensures x in Preorder(forest)
    {
      AllGrown(byId, roots, x);
    }
  }

  /** If parent and child links agree and nobody is its own ancestor, every message is listed
      before its replies, and the replies to one message in their own order. */
  lemma RepliesFollow(byId: Messages, order: seq<string>, p: string, k: nat)
    requires KeyedById(byId, order) && Distinct(order) && LinksAgree(byId) && NoCycle(byId)
    requires p in byId && k < |byId[p].children|
    ensures var listed, replies := Walk(byId, RootIds(byId, order) + AllIds(byId, order), {}), byId[p].children;
            && Precedes(listed, p, replies[k])
            && forall j: nat :: j < k ==> Precedes(listed, replies[j], replies[k])
  {
    var forest := ForestGrows(byId, order);
    var t := DrawnTree(byId, forest, p);
    ParentsListedFirst(byId, order, forest, t, k);
    assert forall j: nat :: j <= k ==> t.replies[j].id == byId[p].children[j];
  }

  /** And the whole list is the preorder of the one forest that the links draw. */
  lemma LinkedInPreorder(byId: Messages, order: seq<string>)
    requires KeyedById(byId, order) && Distinct(order) && LinksAgree(byId) && NoCycle(byId)
    ensures exists forest :: Draws(byId, forest) && RootIds(byId, order) == Ids(forest)
              && Walk(byId, RootIds(byId, order) + AllIds(byId, order), {}) == Preorder(forest)
  {
    var forest := ForestGrows(byId, order);
    ForestInPreorder(byId, order, forest);
  }

  /** The ids of messages without a parent keep the order of the map. */
  lemma {:induction false} RootAt(byId: Messages, order: seq<string>, i: nat) returns (a: nat)
    requires (forall k :: 0 <= k < |order| ==> order[k] in byId && byId[order[k]].id == Some(order[k]))
    requires i < |order| && byId[order[i]].parentId.None?
    ensures a < |RootIds(byId, order)| && RootIds(byId, order)[a] == order[i]
  {
    if i == 0 {
      a := 0;
    } else {
      a := RootAt(byId, order[1..], i - 1);
      a := a + |RootIds(byId, order)| - |RootIds(byId, order[1..])|;
    }
  }

  lemma {:induction false} RootsKeepOrder(byId: Messages, order: seq<string>, i: nat, j: nat) returns (a: nat, b: nat)
    requires (forall k :: 0 <= k < |order| ==> order[k] in byId && byId[order[k]].id == Some(order[k]))
    requires i < j < |order| && byId[order[i]].parentId.None? && byId[order[j]].parentId.None?
    ensures a < b < |RootIds(byId, order)| && RootIds(byId, order)[a] == order[i] && RootIds(byId, order)[b] == order[j]
  {
    if i == 0 {
      a := 0;
      b := RootAt(byId, order[1..], j - 1);
      b := b + 1;
    } else {
      a, b := RootsKeepOrder(byId, order[1..], i - 1, j - 1);
      var n := |RootIds(byId, order)| - |RootIds(byId, order[1..])|;
      a, b := a + n, b + n;
    }
  }

  /** Under the same condition, of two messages without a parent the one that comes first in the map
      is listed first. */
  lemma RootsInMapOrder(byId: Messages, order: seq<string>, i: nat, j: nat)
    requires KeyedById(byId, order) && Distinct(order) && LinksAgree(byId) && NoCycle(byId)
    requires i < j < |order| && byId[order[i]].parentId.None? && byId[order[j]].parentId.None?
    ensures Precedes(Walk(byId, RootIds(byId, order) + AllIds(byId, order), {}), order[i], order[j])
  {
    var forest := ForestGrows(byId, order);
    ForestInPreorder(byId, order, forest);
    var a, b := RootsKeepOrder(byId, order, i, j);
    hide LinksAgree, NoCycle, Walk, RootIds, AllIds, Draws, Preorder;
    assert forest[a].id == Ids(forest)[a] && forest[b].id == Ids(forest)[b];
    RootsInOrder(forest, a, b);
  }
}
