/**
 The task-board cascade: finished state is pushed down the tree, and parents are settled or
 reopened upwards, by a last-in-first-out worklist under a step ceiling.

 The shape of the board (titles, parents, trash marks) never changes during a cascade, so it is
 kept apart from the states, which the cascade rewrites.
 */
module BoardCascade {
  import opened Common

  type Id = string

  datatype State = Open | InProgress | Paused | Done | Cancelled

  datatype Entry = Entry(title: string, parent: Option<Id>, trashedAt: Option<int>)

  /** `order` is the insertion order of the entry table. */
  datatype Board = Board(order: seq<Id>, entries: map<Id, Entry>)

  type States = map<Id, State>

  datatype Reason = ChildrenFinished | ParentFinished | ChildReopened

  datatype Change = Change(id: Id, title: string, from: State, to: State, reason: Reason)

  /** Work item; `derive` permits the entry's own state to be derived from its children. */
  datatype Step = Step(id: Id, derive: bool)

  datatype Config = Config(state: States, queue: seq<Step>, changes: seq<Change>)

  predicate Terminal(s: State) {
    s.Done? || s.Cancelled?
  }

  ghost predicate WellFormed(b: Board) {
    && Distinct(b.order)
    && forall id :: id in b.order <==> id in b.entries
  }

  ghost predicate Fits(b: Board, st: States) {
    st.Keys == b.entries.Keys
  }

  predicate Live(b: Board, id: Id) {
    id in b.entries && b.entries[id].trashedAt.None?
  }

  predicate IsKid(b: Board, p: Id, id: Id) {
    Live(b, id) && b.entries[id].parent == Some(p)
  }

  /** The live children of `p` among `ids`, in order. */
  function KidsAmong(b: Board, ids: seq<Id>, p: Id): (kids: seq<Id>)
    ensures forall k :: k in kids <==> k in ids && IsKid(b, p, k)
    ensures Distinct(ids) ==> Distinct(kids)
  {
    if ids == [] then []
    else
      var last := ids[|ids| - 1];
      var kids := KidsAmong(b, ids[..|ids| - 1], p);
      assert forall k :: k in ids <==> k in ids[..|ids| - 1] || k == last;
      if IsKid(b, p, last) then kids + [last] else kids
  }

  function Kids(b: Board, p: Id): (kids: seq<Id>)
    ensures WellFormed(b) ==> Distinct(kids)
    ensures WellFormed(b) ==> forall k :: k in kids <==>
      k in b.entries && b.entries[k].trashedAt.None? && b.entries[k].parent == Some(p)
  {
    KidsAmong(b, b.order, p)
  }

  // ----- One step of the worklist -----

  /** The state its live children call for in `p`, if they call for one. */
  function SettledState(b: Board, st: States, p: Id): Option<State>
    requires WellFormed(b) && Fits(b, st) && p in st
  {
    var kids := Kids(b, p);
    if kids == [] then None
    else if forall k :: k in kids ==> Terminal(st[k]) then
      if Terminal(st[p]) then None
      else if exists k :: k in kids && st[k] == Done then Some(Done) else Some(Cancelled)
    else if Terminal(st[p]) then Some(Open) else None
  }

  function Unfinished(st: States, ids: seq<Id>): (r: seq<Id>)
    requires forall k :: k in ids ==> k in st
    ensures forall k :: k in r <==> k in ids && !Terminal(st[k])
    ensures Distinct(ids) ==> Distinct(r)
  {
    if ids == [] then []
    else
      var last := ids[|ids| - 1];
      var r := Unfinished(st, ids[..|ids| - 1]);
      assert forall k :: k in ids <==> k in ids[..|ids| - 1] || k == last;
      if Terminal(st[last]) then r else r + [last]
  }

  function Finish(st: States, ids: seq<Id>, to: State): States {
    map id | id in st :: if id in ids then to else st[id]
  }

  function Pushes(ids: seq<Id>): seq<Step> {
    seq(|ids|, i requires 0 <= i < |ids| => Step(ids[i], false))
  }

  function Finishes(b: Board, st: States, ids: seq<Id>, to: State): seq<Change>
    requires Fits(b, st)
    requires forall k :: k in ids ==> k in st
  {
    seq(|ids|, i requires 0 <= i < |ids| =>
      Change(ids[i], b.entries[ids[i]].title, st[ids[i]], to, ParentFinished))
  }

  function ParentStep(b: Board, id: Id): seq<Step>
    requires id in b.entries
  {
    match b.entries[id].parent
    case None => []
    case Some(p) => [Step(p, true)]
  }

  /** The unfinished live children a finished entry finishes; none for an unfinished entry. */
  function Downward(b: Board, st: States, id: Id): (u: seq<Id>)
    requires WellFormed(b) && Fits(b, st) && id in st
    ensures Distinct(u) && forall k :: k in u <==> Terminal(st[id]) && IsKid(b, id, k) && !Terminal(st[k])
  {
    if Terminal(st[id]) then Unfinished(st, Kids(b, id)) else []
  }

  function Take(b: Board, c: Config): (r: Config)
    requires WellFormed(b) && Fits(b, c.state) && c.queue != []
    ensures Fits(b, r.state)
  {
    var n := |c.queue| - 1;
    var id, rest := c.queue[n].id, c.queue[..n];
    if !Live(b, id) then c.(queue := rest)
    else if c.queue[n].derive then
      var settled := SettledState(b, c.state, id);
      if settled.None? || settled.value == c.state[id] then c.(queue := rest)
      else
        var reason := if Terminal(settled.value) then ChildrenFinished else ChildReopened;
        Config(c.state[id := settled.value],
               rest + [Step(id, false)],
               c.changes + [Change(id, b.entries[id].title, c.state[id], settled.value, reason)])
    else
      var u, to := Downward(b, c.state, id), c.state[id];
      Config(Finish(c.state, u, to),
             rest + Pushes(u) + ParentStep(b, id),
             c.changes + Finishes(b, c.state, u, to))
  }

  /** At most `fuel` steps, stopping when the worklist is empty. */
  function Run(b: Board, c: Config, fuel: nat): (r: Config)
    requires WellFormed(b) && Fits(b, c.state)
    ensures Fits(b, r.state)
    decreases fuel
  {
    if fuel == 0 || c.queue == [] then c else Run(b, Take(b, c), fuel - 1)
  }

  function Seeds(written: seq<Id>, orphaned: seq<Id>): (q: seq<Step>)
    ensures |q| == |written| + |orphaned|
    ensures forall id :: id in written ==> Step(id, false) in q
    ensures forall id :: id in orphaned ==> Step(id, true) in q
  {
    var w := seq(|written|, i requires 0 <= i < |written| => Step(written[i], false));
    var o := seq(|orphaned|, i requires 0 <= i < |orphaned| => Step(orphaned[i], true));
    assert forall i :: 0 <= i < |written| ==> w[i] == Step(written[i], false);
    assert forall i :: 0 <= i < |orphaned| ==> o[i] == Step(orphaned[i], true);
    w + o
  }

  function Ceiling(b: Board): nat {
    |b.entries| * 4 + 16
  }

  /** The whole cascade as the board service calls it. */
  function Cascade(b: Board, st: States, written: seq<Id>, orphaned: seq<Id>): Config
    requires WellFormed(b) && Fits(b, st)
  {
    Run(b, Config(st, Seeds(written, orphaned), []), Ceiling(b))
  }
}
