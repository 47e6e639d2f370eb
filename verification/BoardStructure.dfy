/** Tree walks over a board whose parent pointers may be damaged: pruning and subtree listing. */
module BoardStructure {
  import opened Common
  import opened BoardCascade

  // ----- What can be set aside -----

  /** Live eligible entries whose live children were all found prunable in fewer rounds. */
  ghost function Level(b: Board, eligible: Id -> bool, k: nat): set<Id> {
    if k == 0 then {}
    else set id | id in b.entries && Live(b, id) && eligible(id)
               && forall c :: c in Kids(b, id) ==> c in Level(b, eligible, k - 1)
  }

  ghost predicate Prunable(b: Board, eligible: Id -> bool, id: Id) {
    exists k: nat :: id in Level(b, eligible, k)
  }

  lemma {:induction false} LevelsGrow(b: Board, eligible: Id -> bool, k: nat, more: nat)
    requires k <= more
    ensures Level(b, eligible, k) <= Level(b, eligible, more)
    decreases k
  {
    if k != 0 {
      LevelsGrow(b, eligible, k - 1, more - 1);
    }
  }

  /** Finitely many prunable entries are all found within one number of rounds. */
  lemma {:induction false} CommonLevel(b: Board, eligible: Id -> bool, ids: seq<Id>) returns (k: nat)
    requires forall id :: id in ids ==> Prunable(b, eligible, id)
    ensures forall id :: id in ids ==> id in Level(b, eligible, k)
  {
    if ids == [] {
      k := 0;
    } else {
      var n := |ids| - 1;
      var rest := CommonLevel(b, eligible, ids[..n]);
      assert Prunable(b, eligible, ids[n]);
      var last: nat :| ids[n] in Level(b, eligible, last);
      k := rest + last;
      LevelsGrow(b, eligible, rest, k);
      LevelsGrow(b, eligible, last, k);
      assert forall id :: id in ids ==> id in ids[..n] || id == ids[n];
    }
  }

  /** An entry is prunable exactly when it is live, eligible and has only prunable live children. */
  lemma PrunableUnfolds(b: Board, eligible: Id -> bool, id: Id)
    requires WellFormed(b)
    ensures Prunable(b, eligible, id) <==>
      Live(b, id) && eligible(id) && forall c :: c in Kids(b, id) ==> Prunable(b, eligible, c)
  {
    if Prunable(b, eligible, id) {
      var k: nat :| id in Level(b, eligible, k);
      assert forall c :: c in Kids(b, id) ==> c in Level(b, eligible, k - 1);
    }
    if Live(b, id) && eligible(id) && forall c :: c in Kids(b, id) ==> Prunable(b, eligible, c) {
      var k := CommonLevel(b, eligible, Kids(b, id));
      assert id in Level(b, eligible, k + 1);
    }
  }

  /** Any set that takes in every eligible entry over its own members holds all prunable entries. */
  lemma {:induction false} PrunableIsLeast(b: Board, eligible: Id -> bool, s: set<Id>, k: nat)
    requires forall id :: Live(b, id) && eligible(id) && (forall c :: c in Kids(b, id) ==> c in s) ==> id in s
    ensures Level(b, eligible, k) <= s
  {
    if k != 0 {
      PrunableIsLeast(b, eligible, s, k - 1);
    }
  }

  /** `e` is found in an earlier round than `v`, whenever `v` is found at all. */
  ghost predicate Before(b: Board, eligible: Id -> bool, e: Id, v: Id) {
    forall k: nat :: v in Level(b, eligible, k) ==> k > 0 && e in Level(b, eligible, k - 1)
  }

  lemma ChildrenComeFirst(b: Board, eligible: Id -> bool, e: Id, c: Id, k: nat)
    requires c in Kids(b, e) && e in Level(b, eligible, k)
    ensures k > 0 && c in Level(b, eligible, k - 1)
  {
  }

  lemma BeforeExtends(b: Board, eligible: Id -> bool, e: Id, c: Id, v: Id)
    requires c in Kids(b, e) && (v == e || Before(b, eligible, e, v))
    ensures Before(b, eligible, c, v)
  {
    hide Level, Kids;
    forall k: nat | v in Level(b, eligible, k)
      ensures k > 0 && c in Level(b, eligible, k - 1)
    {
      ChildrenComeFirst(b, eligible, e, c, if v == e then k else k - 1);
      if v != e {
        LevelsGrow(b, eligible, k - 2, k - 1);
      }
    }
  }

  /** An entry that must be found strictly before itself is never found. */
  lemma {:induction false} NotBeforeItself(b: Board, eligible: Id -> bool, id: Id, k: nat)
    requires Before(b, eligible, id, id)
    ensures id !in Level(b, eligible, k)
  {
    if k != 0 {
      NotBeforeItself(b, eligible, id, k - 1);
    }
  }

  /** The memoised, cycle-tolerant walk. */
  class Pruner {
    const b: Board
    const eligible: Id -> bool
    var memo: map<Id, bool>
    var visiting: set<Id>

    constructor (b: Board, eligible: Id -> bool)
      ensures this.b == b && this.eligible == eligible && memo == map[] && visiting == {}
    {
      this.b, this.eligible := b, eligible;
      memo, visiting := map[], {};
    }

    ghost predicate MemoIsRight()
      reads this
    {
      forall id :: id in memo ==> (memo[id] <==> Prunable(b, eligible, id))
    }

    /** Every entry being visited can only be found after `e` has been. */
    ghost predicate OnPathTo(e: Id)
      reads this
    {
      forall v :: v in visiting ==> Before(b, eligible, e, v)
    }

    method CanPrune(e: Id) returns (result: bool)
      requires WellFormed(b) && Live(b, e) && MemoIsRight() && OnPathTo(e) && visiting <= b.entries.Keys
      modifies this
      ensures result <==> Prunable(b, eligible, e)
      ensures MemoIsRight() && visiting == old(visiting)
      decreases b.entries.Keys - visiting
    {
      if e in memo {
        return memo[e];
      }
      if e in visiting {
        forall k: nat ensures e !in Level(b, eligible, k) {
          NotBeforeItself(b, eligible, e, k);
        }
        return false;
      }
      visiting := visiting + {e};
      result := eligible(e);
      PrunableUnfolds(b, eligible, e);
      var kids := Kids(b, e);
      var i := 0;
      while result && i < |kids|
        invariant 0 <= i <= |kids| && visiting == old(visiting) + {e} && MemoIsRight()
        invariant eligible(e) && result ==> forall j :: 0 <= j < i ==> Prunable(b, eligible, kids[j])
        invariant !result ==> !Prunable(b, eligible, e)
        invariant result ==> eligible(e)
      {
        forall v | v in visiting ensures Before(b, eligible, kids[i], v) {
          BeforeExtends(b, eligible, e, kids[i], v);
        }
        result := CanPrune(kids[i]);
        i := i + 1;
      }
      visiting := visiting - {e};
      memo := memo[e := result];
    }

    /** Collects the prunable entries. */
    method PrunableSubtrees() returns (out: set<Id>)
      requires WellFormed(b) && memo == map[] && visiting == {}
      modifies this
      ensures out == set id | id in b.entries && Prunable(b, eligible, id)
    {
      out := {};
      for i := 0 to |b.order|
        invariant MemoIsRight() && visiting == {}
        invariant out == set id | id in b.order[..i] && Prunable(b, eligible, id)
      {
        var e := b.order[i];
        PrunableUnfolds(b, eligible, e);
        assert b.order[..i + 1] == b.order[..i] + [e];
        if Live(b, e) {
          var prune := CanPrune(e);
          if prune {
            out := out + {e};
          }
        }
      }
      assert b.order[..|b.order|] == b.order;
    }
  }

  /** No live entry that survives names a pruned parent. */
  lemma SurvivorsKeepTheirParents(b: Board, eligible: Id -> bool, id: Id)
    requires WellFormed(b) && Live(b, id) && b.entries[id].parent.Some?
    requires Prunable(b, eligible, b.entries[id].parent.value)
    ensures Prunable(b, eligible, id)
  {
    PrunableUnfolds(b, eligible, b.entries[id].parent.value);
    assert id in Kids(b, b.entries[id].parent.value);
  }

  // ----- Subtree listing -----

  predicate Under(b: Board, p: Id, id: Id) {
    id in b.entries && b.entries[id].parent == Some(p)
  }

  /** Entries among `ids`, trashed ones included, that name `p` as their parent. An empty parent id is no parent. */
  function ChildrenAmong(b: Board, ids: seq<Id>, p: Id): (r: seq<Id>)
    ensures forall c :: c in r <==> p != "" && c in ids && Under(b, p, c)
  {
    if ids == [] then []
    else
      var n := |ids| - 1;
      assert forall c :: c in ids <==> c in ids[..n] || c == ids[n];
      ChildrenAmong(b, ids[..n], p) + if p != "" && Under(b, p, ids[n]) then [ids[n]] else []
  }

  ghost function WithinSteps(b: Board, root: Id, k: nat): set<Id> {
    if k == 0 then {root}
    else
      var fewer := WithinSteps(b, root, k - 1);
      fewer + set id | id in b.entries && exists p :: p != "" && p in fewer && Under(b, p, id)
  }

  ghost predicate Reachable(b: Board, root: Id, id: Id) {
    exists k: nat :: id in WithinSteps(b, root, k)
  }

  lemma ReachableChild(b: Board, root: Id, p: Id, c: Id)
    requires p != "" && Reachable(b, root, p) && Under(b, p, c)
    ensures Reachable(b, root, c)
  {
    var k: nat :| p in WithinSteps(b, root, k);
    assert c in WithinSteps(b, root, k + 1);
  }

  lemma {:induction false} ClosedSetHoldsReachable(b: Board, root: Id, s: set<Id>, k: nat)
    requires root in s && forall p, c :: p in s && p != "" && Under(b, p, c) ==> c in s
    ensures WithinSteps(b, root, k) <= s
  {
    if k != 0 {
      ClosedSetHoldsReachable(b, root, s, k - 1);
    }
  }

  ghost predicate HasParentIn(b: Board, out: seq<Id>, id: Id) {
    id in b.entries && b.entries[id].parent.Some? && b.entries[id].parent.value in out
  }

  /** Each listed entry but the first comes after its parent. */
  ghost predicate ParentsFirst(b: Board, out: seq<Id>) {
    forall i :: 0 < i < |out| ==> HasParentIn(b, out[..i], out[i])
  }

  /** The parent of `x` was listed before that of `y`; children of one parent stand in table order. */
  ghost predicate ListedBefore(b: Board, out: seq<Id>, x: Id, y: Id) {
    && x in b.entries && y in b.entries && b.entries[x].parent.Some? && b.entries[y].parent.Some?
    && if b.entries[x].parent == b.entries[y].parent then Precedes(b.order, x, y)
       else Precedes(out, b.entries[x].parent.value, b.entries[y].parent.value)
  }

  /** Breadth first: from the second on, entries stand in the order of their parents. */
  ghost predicate BreadthFirst(b: Board, root: Id, out: seq<Id>, listed: seq<Id>) {
    forall i, j :: 0 <= i < j < |listed| && listed[i] != root && listed[j] != root ==> ListedBefore(b, out, listed[i], listed[j])
  }

  lemma {:induction false} ChildrenInOrder(b: Board, ids: seq<Id>, p: Id)
    ensures InOrder(ChildrenAmong(b, ids, p), ids)
  {
    if ids != [] {
      var n := |ids| - 1;
      ChildrenInOrder(b, ids[..n], p);
      InOrderMore(ChildrenAmong(b, ids[..n], p), ids[..n], ids[n]);
      assert ids == ids[..n] + [ids[n]];
    }
  }

  /** Visiting the head of the queue lists it and queues its children: the order goes on. */
  lemma VisitInOrder(b: Board, root: Id, out: seq<Id>, queue: seq<Id>)
    requires Walk(b, root, out, queue) && queue != [] && queue[0] !in out && BreadthFirst(b, root, out, out + queue)
    ensures BreadthFirst(b, root, out + [queue[0]], out + queue + ChildrenAmong(b, b.order, queue[0]))
  {
    hide ChildrenAmong, Reachable, Precedes;
    var id, before, children := queue[0], out + queue, ChildrenAmong(b, b.order, queue[0]);
    var out', all := out + [id], before + children;
    ChildrenInOrder(b, b.order, id);
    forall i, j | 0 <= i < j < |all| && all[i] != root && all[j] != root ensures ListedBefore(b, out', all[i], all[j]) {
      if j < |before| {
        assert ListedBefore(b, out, before[i], before[j]);
        ListedStays(b, out, id, all[i], all[j]);
      } else if i < |before| {
        ParentIsListed(b, root, out, queue, i);
        assert all[j] in children;
        PrecedesLast(out, b.entries[all[i]].parent.value, id);
      } else {
        assert all[i] in children && all[j] in children;
        assert Precedes(b.order, children[i - |before|], children[j - |before|]);
      }
    }
  }

  lemma ListedStays(b: Board, out: seq<Id>, id: Id, x: Id, y: Id)
    requires ListedBefore(b, out, x, y)
    ensures ListedBefore(b, out + [id], x, y)
  {
    hide Precedes;
    if b.entries[x].parent != b.entries[y].parent {
      PrecedesMore(out, id, b.entries[x].parent.value, b.entries[y].parent.value);
    }
  }

  lemma ParentIsListed(b: Board, root: Id, out: seq<Id>, queue: seq<Id>, i: nat)
    requires Walk(b, root, out, queue) && i < |out + queue| && (out + queue)[i] != root
    ensures HasParentIn(b, out, (out + queue)[i])
  {
    hide Reachable;
    if i < |out| {
      assert HasParentIn(b, out[..i], out[i]);
    } else {
      assert queue[i - |out|] in queue;
    }
  }

  /** What holds between two visits: `out` has been listed, `queue` is still to be looked at. */
  ghost predicate Walk(b: Board, root: Id, out: seq<Id>, queue: seq<Id>) {
    && Distinct(out) && ParentsFirst(b, out)
    && (if out == [] then queue == [root] else out[0] == root && forall id :: id in queue ==> HasParentIn(b, out, id))
    && (forall id :: id in out || id in queue ==> Reachable(b, root, id) && id in b.entries.Keys + {root})
    && (forall p, c :: p in out && p != "" && Under(b, p, c) ==> c in out || c in queue)
  }

  lemma ListNext(b: Board, out: seq<Id>, id: Id)
    requires ParentsFirst(b, out) && (out == [] || HasParentIn(b, out, id))
    ensures ParentsFirst(b, out + [id])
  {
    var out' := out + [id];
    forall i | 0 < i < |out'| ensures HasParentIn(b, out'[..i], out'[i]) {
      assert out'[..i] == if i < |out| then out[..i] else out;
    }
  }

  lemma VisitQueue(b: Board, out: seq<Id>, id: Id, rest: seq<Id>, children: seq<Id>)
    requires forall x :: x in rest ==> out == [] || HasParentIn(b, out, x)
    requires forall c :: c in children ==> Under(b, id, c)
    requires out == [] ==> rest == []
    ensures forall x :: x in rest + children ==> HasParentIn(b, out + [id], x)
  {
    forall x | x in rest + children ensures HasParentIn(b, out + [id], x) {
      assert x in rest || x in children;
    }
  }

  lemma VisitCloses(b: Board, out: seq<Id>, id: Id, rest: seq<Id>)
    requires WellFormed(b)
    requires forall p, c :: p in out && p != "" && Under(b, p, c) ==> c in out || c in [id] + rest
    ensures forall p, c :: p in out + [id] && p != "" && Under(b, p, c) ==>
      c in out + [id] || c in rest + ChildrenAmong(b, b.order, id)
  {
    hide ChildrenAmong;
    var children := ChildrenAmong(b, b.order, id);
    forall p, c | p in out + [id] && p != "" && Under(b, p, c)
      ensures c in out + [id] || c in rest + children
    {
      if p == id {
        assert c in children;
      } else {
        assert p in out;
        assert c in out || c in rest || c == id;
      }
    }
  }

  lemma Visit(b: Board, root: Id, out: seq<Id>, queue: seq<Id>)
    requires WellFormed(b) && Walk(b, root, out, queue) && queue != [] && queue[0] !in out
    ensures Walk(b, root, out + [queue[0]], queue[1..] + ChildrenAmong(b, b.order, queue[0]))
  {
    hide Reachable, ParentsFirst, HasParentIn, ChildrenAmong, WellFormed;
    var id, rest := queue[0], queue[1..];
    var children, out' := ChildrenAmong(b, b.order, id), out + [id];
    assert queue == [id] + rest;
    assert Distinct(out') && out'[0] == root;
    ListNext(b, out, id);
    VisitQueue(b, out, id, rest, children);
    VisitCloses(b, out, id, rest);
    forall x | x in out' || x in rest + children ensures Reachable(b, root, x) && x in b.entries.Keys + {root} {
      if x in children {
        ReachableChild(b, root, id, x);
      } else {
        assert x in out || x in queue;
      }
    }
  }

  /** The subtree of `rootId`, each entry once and after its parent, even when parents form a cycle. */
  method SubtreeIds(b: Board, rootId: Id) returns (out: seq<Id>)
    requires WellFormed(b)
    ensures Distinct(out) && |out| > 0 && out[0] == rootId
    ensures forall id :: id in out <==> Reachable(b, rootId, id)
    ensures ParentsFirst(b, out) && BreadthFirst(b, rootId, out, out)
  {
    hide ParentsFirst, Reachable, BreadthFirst, ChildrenAmong, Walk;
    out := [];
    var seen: set<Id>, queue := {}, [rootId];
    WalkStarts(b, rootId);
    while queue != []
      invariant Walk(b, rootId, out, queue) && forall id :: id in seen <==> id in out
      invariant BreadthFirst(b, rootId, out, out + queue)
      decreases b.entries.Keys + {rootId} - seen, |queue|
    {
      var id := queue[0];
      if id in seen {
        SkipWalk(b, rootId, out, queue);
        SkipInOrder(b, rootId, out, queue);
        queue := queue[1..];
      } else {
        Visit(b, rootId, out, queue);
        VisitInOrder(b, rootId, out, queue);
        assert out + queue + ChildrenAmong(b, b.order, id) == out + [id] + (queue[1..] + ChildrenAmong(b, b.order, id));
        HeadIsKnown(b, rootId, out, queue);
        seen := seen + {id};
        out := out + [id];
        queue := queue[1..] + ChildrenAmong(b, b.order, id);
      }
    }
    assert out + [] == out;
    WalkEnds(b, rootId, out);
  }

  /** An entry seen already is passed over. */
  lemma SkipInOrder(b: Board, root: Id, out: seq<Id>, queue: seq<Id>)
    requires queue != [] && BreadthFirst(b, root, out, out + queue)
    ensures BreadthFirst(b, root, out, out + queue[1..])
  {
    hide ListedBefore;
    var all, rest := out + queue, out + queue[1..];
    forall i, j | 0 <= i < j < |rest| && rest[i] != root && rest[j] != root ensures ListedBefore(b, out, rest[i], rest[j]) {
      assert rest[i] == all[if i < |out| then i else i + 1] && rest[j] == all[if j < |out| then j else j + 1];
    }
  }

  lemma SkipWalk(b: Board, root: Id, out: seq<Id>, queue: seq<Id>)
    requires Walk(b, root, out, queue) && queue != [] && queue[0] in out
    ensures Walk(b, root, out, queue[1..])
  {
    hide ParentsFirst, Reachable, HasParentIn;
    assert forall x :: x in queue <==> x == queue[0] || x in queue[1..];
  }

  lemma HeadIsKnown(b: Board, root: Id, out: seq<Id>, queue: seq<Id>)
    requires Walk(b, root, out, queue) && queue != []
    ensures queue[0] in b.entries.Keys + {root}
  {
    hide ParentsFirst, Reachable;
  }

  lemma WalkEnds(b: Board, root: Id, out: seq<Id>)
    requires Walk(b, root, out, [])
    ensures Distinct(out) && ParentsFirst(b, out) && |out| > 0 && out[0] == root
    ensures forall id :: id in out <==> Reachable(b, root, id)
  {
    hide ParentsFirst, Reachable;
    var seen := set id | id in out;
    forall id | Reachable(b, root, id) ensures id in out {
      ClosedSetIsAll(b, root, seen, id);
    }
  }

  lemma WalkStarts(b: Board, root: Id)
    ensures Walk(b, root, [], [root]) && BreadthFirst(b, root, [], [] + [root])
  {
    assert root in WithinSteps(b, root, 0);
  }

  lemma ClosedSetIsAll(b: Board, root: Id, s: set<Id>, id: Id)
    requires root in s && forall p, c :: p in s && p != "" && Under(b, p, c) ==> c in s
    requires Reachable(b, root, id)
    ensures id in s
  {
    var k: nat :| id in WithinSteps(b, root, k);
    ClosedSetHoldsReachable(b, root, s, k);
  }
}
