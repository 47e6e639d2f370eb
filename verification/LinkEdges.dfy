/** The compacted log of cross-domain link edges and revocations, against its full history. */
module LinkEdges {
  import opened Common

  datatype Edge = Edge(src: string, dst: string, issuedAt: int, nonce: string, signature: string)

  datatype Revocation = Revocation(src: string, dst: string, revokedAt: int, nonce: string, signature: string)

  datatype Statement = Link(edge: Edge) | Unlink(revocation: Revocation)

  /** Signature checks under the owner's key, and the domain this log belongs to. */
  datatype Authority = Authority(edgeSigned: Edge -> bool, revocationSigned: Revocation -> bool, domainId: string)

  datatype LinkState = LinkState(edges: seq<Edge>, revocations: seq<Revocation>)

  const EMPTY := LinkState([], [])

  /** The statement is signed by the owner and speaks for this domain. */
  predicate Admissible(a: Authority, s: Statement) {
    match s
    case Link(e) => a.edgeSigned(e) && e.src == a.domainId
    case Unlink(r) => a.revocationSigned(r) && r.src == a.domainId
  }

  predicate SamePair(e: Edge, r: Revocation) {
    e.src == r.src && e.dst == r.dst
  }

  // ----- The compacted log -----

  predicate Nullified(a: Authority, st: LinkState, e: Edge) {
    exists i :: 0 <= i < |st.revocations| && SamePair(e, st.revocations[i])
      && a.revocationSigned(st.revocations[i]) && st.revocations[i].revokedAt >= e.issuedAt
  }

  function AddEdge(a: Authority, st: LinkState, e: Edge): LinkState {
    if !Admissible(a, Link(e)) then st
    else if exists i :: 0 <= i < |st.edges| && st.edges[i].src == e.src && st.edges[i].nonce == e.nonce then st
    else if Nullified(a, st, e) then st
    else st.(edges := st.edges + [e])
  }

  /** Drops the edges a revocation covers. */
  function Newer(edges: seq<Edge>, r: Revocation): (kept: seq<Edge>)
    ensures forall e :: e in kept <==> e in edges && !(SamePair(e, r) && e.issuedAt <= r.revokedAt)
  {
    if edges == [] then []
    else
      var n := |edges| - 1;
      assert edges == edges[..n] + [edges[n]];
      Newer(edges[..n], r) + if SamePair(edges[n], r) && edges[n].issuedAt <= r.revokedAt then [] else [edges[n]]
  }

  function RemoveEdge(a: Authority, st: LinkState, r: Revocation): LinkState {
    if !Admissible(a, Unlink(r)) then st
    else
      var known := exists i :: 0 <= i < |st.revocations| && st.revocations[i].src == r.src
                               && st.revocations[i].dst == r.dst && st.revocations[i].nonce == r.nonce;
      LinkState(Newer(st.edges, r), if known then st.revocations else st.revocations + [r])
  }

  function Submit(a: Authority, st: LinkState, s: Statement): LinkState {
    match s
    case Link(e) => AddEdge(a, st, e)
    case Unlink(r) => RemoveEdge(a, st, r)
  }

  function Replay(a: Authority, h: seq<Statement>): LinkState {
    if h == [] then EMPTY else Submit(a, Replay(a, h[..|h| - 1]), h[|h| - 1])
  }

  /** A signed edge of the pair newer than every signed revocation of it. */
  ghost predicate Linked(a: Authority, st: LinkState, src: string, dst: string) {
    exists e :: e in st.edges && e.src == src && e.dst == dst && a.edgeSigned(e)
      && forall r :: r in st.revocations && r.src == src && r.dst == dst && a.revocationSigned(r) ==> r.revokedAt < e.issuedAt
  }

  // ----- The full history -----

  /** Some admissible edge ever submitted is newer than every admissible revocation ever submitted. */
  ghost predicate LinkedInHistory(a: Authority, h: seq<Statement>, src: string, dst: string) {
    exists e :: Link(e) in h && Admissible(a, Link(e)) && e.src == src && e.dst == dst
      && forall r :: Unlink(r) in h && Admissible(a, Unlink(r)) && r.src == src && r.dst == dst ==> r.revokedAt < e.issuedAt
  }

  ghost predicate Admitted(a: Authority, h: seq<Statement>, s: Statement) {
    s in h && Admissible(a, s)
  }

  /** A nonce names one admissible statement; what is turned away may use any. */
  ghost predicate NoncesAreUnique(a: Authority, h: seq<Statement>) {
    && (forall e, f :: Admitted(a, h, Link(e)) && Admitted(a, h, Link(f)) && e.src == f.src && e.nonce == f.nonce ==> e == f)
    && (forall q, r | Admitted(a, h, Unlink(q)) && Admitted(a, h, Unlink(r)) ::
         q.src == r.src && q.dst == r.dst && q.nonce == r.nonce ==> q == r)
  }

  ghost predicate Covers(revocations: seq<Revocation>, e: Edge) {
    exists r :: r in revocations && SamePair(e, r) && r.revokedAt >= e.issuedAt
  }

  /** The log holds exactly the admissible revocations, and the admissible edges no such revocation covers. */
  ghost predicate Represents(a: Authority, st: LinkState, h: seq<Statement>) {
    && (forall r :: r in st.revocations <==> Unlink(r) in h && Admissible(a, Unlink(r)))
    && (forall e :: e in st.edges <==> Admitted(a, h, Link(e)) && !Covers(st.revocations, e))
  }

  lemma AddRepresents(a: Authority, st: LinkState, h: seq<Statement>, e: Edge)
    requires Represents(a, st, h) && NoncesAreUnique(a, h + [Link(e)])
    ensures Represents(a, AddEdge(a, st, e), h + [Link(e)])
  {
    var h' := h + [Link(e)];
    assert forall s :: s in h' <==> s in h || s == Link(e);
    assert Link(e) in h' && forall i :: 0 <= i < |st.edges| ==> st.edges[i] in st.edges;
    assert forall s :: Admitted(a, h, s) ==> Admitted(a, h', s);
    assert Admissible(a, Link(e)) ==> Admitted(a, h', Link(e));
    assert forall i :: 0 <= i < |st.edges| ==> Admitted(a, h, Link(st.edges[i]));
    if Admissible(a, Link(e)) && e !in AddEdge(a, st, e).edges {
      assert Nullified(a, st, e);
      var i :| 0 <= i < |st.revocations| && SamePair(e, st.revocations[i]) && st.revocations[i].revokedAt >= e.issuedAt;
      assert st.revocations[i] in st.revocations;
    }
  }

  lemma RemoveRepresents(a: Authority, st: LinkState, h: seq<Statement>, r: Revocation)
    requires Represents(a, st, h) && NoncesAreUnique(a, h + [Unlink(r)])
    ensures Represents(a, RemoveEdge(a, st, r), h + [Unlink(r)])
  {
    var h', st' := h + [Unlink(r)], RemoveEdge(a, st, r);
    assert forall s :: s in h' <==> s in h || s == Unlink(r);
    if Admissible(a, Unlink(r)) {
      assert Unlink(r) in h' && forall i :: 0 <= i < |st.revocations| ==> st.revocations[i] in st.revocations;
      assert Admitted(a, h', Unlink(r));
      assert forall i :: 0 <= i < |st.revocations| ==> Admitted(a, h', Unlink(st.revocations[i]));
      assert r in st'.revocations;
      assert forall q :: q in st.revocations ==> q in st'.revocations;
      forall e | Link(e) in h' && Admissible(a, Link(e)) && e !in st'.edges
        ensures exists q :: q in st'.revocations && SamePair(e, q) && q.revokedAt >= e.issuedAt
      {
        if e in st.edges {
          assert SamePair(e, r) && r.revokedAt >= e.issuedAt;
        }
      }
    }
  }

  /** Whatever the log holds, repeats included, an admissible revocation takes effect at once on every edge it covers, and on no other. */
  lemma RevocationTakesEffect(a: Authority, st: LinkState, r: Revocation, e: Edge)
    requires Admissible(a, Unlink(r)) && e in st.edges
    ensures e in RemoveEdge(a, st, r).edges <==> e.src != r.src || e.dst != r.dst || r.revokedAt < e.issuedAt
  {
  }

  lemma {:induction false} ReplayRepresents(a: Authority, h: seq<Statement>)
    requires NoncesAreUnique(a, h)
    ensures Represents(a, Replay(a, h), h)
  {
    if h != [] {
      var n := |h| - 1;
      assert h == h[..n] + [h[n]];
      assert forall s :: Admitted(a, h[..n], s) ==> Admitted(a, h, s);
      ReplayRepresents(a, h[..n]);
      match h[n]
      case Link(e) => AddRepresents(a, Replay(a, h[..n]), h[..n], e);
      case Unlink(r) => RemoveRepresents(a, Replay(a, h[..n]), h[..n], r);
    }
  }

  lemma RepresentsAgrees(a: Authority, st: LinkState, h: seq<Statement>, src: string, dst: string)
    requires Represents(a, st, h)
    ensures Linked(a, st, src, dst) <==> LinkedInHistory(a, h, src, dst)
  {
    if LinkedInHistory(a, h, src, dst) {
      var e :| Link(e) in h && Admissible(a, Link(e)) && e.src == src && e.dst == dst
        && forall r :: Unlink(r) in h && Admissible(a, Unlink(r)) && r.src == src && r.dst == dst ==> r.revokedAt < e.issuedAt;
      assert e in st.edges;
    }
  }

  /** After any sequence of submissions the compacted log answers as the full history would. */
  lemma CompactionAgrees(a: Authority, h: seq<Statement>, src: string, dst: string)
    requires NoncesAreUnique(a, h)
    ensures Linked(a, Replay(a, h), src, dst) <==> LinkedInHistory(a, h, src, dst)
  {
    ReplayRepresents(a, h);
    RepresentsAgrees(a, Replay(a, h), h, src, dst);
  }

  /** Order and resubmission do not matter. */
  lemma SubmissionsConverge(a: Authority, h: seq<Statement>, k: seq<Statement>, src: string, dst: string)
    requires NoncesAreUnique(a, h) && forall s :: s in h <==> s in k
    ensures Linked(a, Replay(a, h), src, dst) <==> Linked(a, Replay(a, k), src, dst)
  {
    assert forall s :: Admitted(a, k, s) ==> Admitted(a, h, s);
    CompactionAgrees(a, h, src, dst);
    CompactionAgrees(a, k, src, dst);
  }

  // ----- When nonces are reused -----

  /** The log holds a different statement under the same nonce. */
  ghost predicate Repeats(st: LinkState, s: Statement) {
    match s
    case Link(e) => exists f :: f in st.edges && f != e && f.src == e.src && f.nonce == e.nonce
    case Unlink(r) => exists q :: q in st.revocations && q != r && q.src == r.src && q.dst == r.dst && q.nonce == r.nonce
  }

  /** Somewhere in the history this admissible statement was taken for a repeat of another. */
  ghost predicate Dropped(a: Authority, h: seq<Statement>, s: Statement) {
    exists i :: 0 <= i < |h| && h[i] == s && Admissible(a, s) && Repeats(Replay(a, h[..i]), s)
  }

  ghost predicate CoveredBy(a: Authority, h: seq<Statement>, e: Edge) {
    exists r :: Admitted(a, h, Unlink(r)) && SamePair(e, r) && r.revokedAt >= e.issuedAt
  }

  /** Without any condition on nonces: what is not in the log was revoked or taken for a repeat. */
  ghost predicate Accounts(a: Authority, st: LinkState, h: seq<Statement>) {
    && (forall e :: e in st.edges ==> Admitted(a, h, Link(e)))
    && (forall r :: r in st.revocations ==> Admitted(a, h, Unlink(r)))
    && (forall e :: Admitted(a, h, Link(e)) ==> e in st.edges || CoveredBy(a, h, e) || Dropped(a, h, Link(e)))
    && (forall r :: Admitted(a, h, Unlink(r)) ==> r in st.revocations || Dropped(a, h, Unlink(r)))
  }

  lemma HistoryGrows(a: Authority, h: seq<Statement>, s: Statement)
    ensures forall x :: Admitted(a, h + [s], x) <==> Admitted(a, h, x) || (x == s && Admissible(a, s))
    ensures forall x :: Dropped(a, h, x) ==> Dropped(a, h + [s], x)
    ensures Admissible(a, s) && Repeats(Replay(a, h), s) ==> Dropped(a, h + [s], s)
    ensures forall e :: CoveredBy(a, h, e) ==> CoveredBy(a, h + [s], e)
  {
    var h' := h + [s];
    assert h'[..|h|] == h && h'[|h|] == s;
    forall x ensures Admitted(a, h', x) <==> Admitted(a, h, x) || (x == s && Admissible(a, s)) {
      assert x in h' <==> x in h || x == s;
    }
    forall x | Dropped(a, h, x) ensures Dropped(a, h', x) {
      var i :| 0 <= i < |h| && h[i] == x && Admissible(a, x) && Repeats(Replay(a, h[..i]), x);
      assert h'[..i] == h[..i] && h'[i] == x;
    }
    forall e | CoveredBy(a, h, e) ensures CoveredBy(a, h', e) {
      var r :| Admitted(a, h, Unlink(r)) && SamePair(e, r) && r.revokedAt >= e.issuedAt;
      assert Admitted(a, h', Unlink(r));
    }
  }

  lemma AddAccounts(a: Authority, st: LinkState, h: seq<Statement>, e: Edge)
    requires Accounts(a, st, h) && st == Replay(a, h)
    ensures Accounts(a, AddEdge(a, st, e), h + [Link(e)])
  {
    hide Dropped, CoveredBy, Replay;
    var h' := h + [Link(e)];
    HistoryGrows(a, h, Link(e));
    if Admissible(a, Link(e)) && e !in AddEdge(a, st, e).edges {
      if Nullified(a, st, e) {
        NullifiedIsCovered(a, st, h, e);
      } else {
        var i :| 0 <= i < |st.edges| && st.edges[i].src == e.src && st.edges[i].nonce == e.nonce;
        assert st.edges[i] in st.edges && Repeats(st, Link(e));
      }
    }
    assert forall f :: f in AddEdge(a, st, e).edges ==> f in st.edges || (f == e && Admissible(a, Link(e)));
  }

  lemma NullifiedIsCovered(a: Authority, st: LinkState, h: seq<Statement>, e: Edge)
    requires Accounts(a, st, h) && Nullified(a, st, e)
    ensures CoveredBy(a, h, e)
  {
    hide Dropped;
    var i :| 0 <= i < |st.revocations| && SamePair(e, st.revocations[i]) && st.revocations[i].revokedAt >= e.issuedAt;
    assert st.revocations[i] in st.revocations;
    assert Admitted(a, h, Unlink(st.revocations[i]));
  }

  lemma RemoveAccounts(a: Authority, st: LinkState, h: seq<Statement>, r: Revocation)
    requires Accounts(a, st, h) && st == Replay(a, h)
    ensures Accounts(a, RemoveEdge(a, st, r), h + [Unlink(r)])
  {
    hide Dropped, Replay;
    var h', st' := h + [Unlink(r)], RemoveEdge(a, st, r);
    HistoryGrows(a, h, Unlink(r));
    if Admissible(a, Unlink(r)) {
      assert Admitted(a, h', Unlink(r));
      assert forall q :: q in st.revocations ==> q in st'.revocations;
      if r !in st'.revocations {
        var i :| 0 <= i < |st.revocations| && st.revocations[i].src == r.src
          && st.revocations[i].dst == r.dst && st.revocations[i].nonce == r.nonce;
        assert st.revocations[i] in st.revocations && Repeats(st, Unlink(r));
      }
      forall e | Admitted(a, h', Link(e)) ensures e in st'.edges || CoveredBy(a, h', e) || Dropped(a, h', Link(e)) {
        assert Admitted(a, h, Link(e));
        if e in st.edges && e !in st'.edges {
          assert SamePair(e, r) && r.revokedAt >= e.issuedAt;
        }
      }
    }
  }

  lemma {:induction false} ReplayAccounts(a: Authority, h: seq<Statement>)
    ensures Accounts(a, Replay(a, h), h)
  {
    if h != [] {
      var n := |h| - 1;
      assert h == h[..n] + [h[n]];
      ReplayAccounts(a, h[..n]);
      match h[n]
      case Link(e) => AddAccounts(a, Replay(a, h[..n]), h[..n], e);
      case Unlink(r) => RemoveAccounts(a, Replay(a, h[..n]), h[..n], r);
    }
  }

  ghost predicate OfPair(s: Statement, src: string, dst: string) {
    match s
    case Link(e) => e.src == src && e.dst == dst
    case Unlink(r) => r.src == src && r.dst == dst
  }

  /** No admissible edge of the pair is newer than `r`. */
  ghost predicate RevokesAll(a: Authority, h: seq<Statement>, r: Revocation) {
    forall e :: Admitted(a, h, Link(e)) && SamePair(e, r) ==> e.issuedAt <= r.revokedAt
  }

  /** `e` is newer than every admissible revocation of its pair. */
  ghost predicate Outlives(a: Authority, h: seq<Statement>, e: Edge) {
    forall r :: Admitted(a, h, Unlink(r)) && SamePair(e, r) ==> r.revokedAt < e.issuedAt
  }

  lemma {:induction false} NewestEdge(a: Authority, h: seq<Statement>, e: Edge) returns (m: Edge)
    requires Admitted(a, h, Link(e))
    ensures Admitted(a, h, Link(m)) && m.src == e.src && m.dst == e.dst
    ensures forall f :: Admitted(a, h, Link(f)) && f.src == e.src && f.dst == e.dst ==> f.issuedAt <= m.issuedAt
  {
    var n := |h| - 1;
    assert h == h[..n] + [h[n]];
    HistoryGrows(a, h[..n], h[n]);
    var last := h[n].Link? && Admissible(a, h[n]) && h[n].edge.src == e.src && h[n].edge.dst == e.dst;
    if f :| Admitted(a, h[..n], Link(f)) && f.src == e.src && f.dst == e.dst {
      m := NewestEdge(a, h[..n], f);
      if last && h[n].edge.issuedAt > m.issuedAt {
        m := h[n].edge;
      }
    } else {
      m := e;
    }
  }

  /**
   The exact price of reused nonces. The compacted log and the full history part exactly when a
   statement taken for a repeat would have decided: if the log says linked, a dropped revocation no
   older than any admissible edge of the pair; if it says not linked, a dropped edge newer than
   every admissible revocation of the pair.
   */
  lemma AnswersPartIff(a: Authority, h: seq<Statement>, src: string, dst: string)
    ensures var linked := Linked(a, Replay(a, h), src, dst);
      linked != LinkedInHistory(a, h, src, dst) <==>
        if linked then exists r :: Dropped(a, h, Unlink(r)) && OfPair(Unlink(r), src, dst) && RevokesAll(a, h, r)
        else exists e :: Dropped(a, h, Link(e)) && OfPair(Link(e), src, dst) && Outlives(a, h, e)
  {
    hide Replay, Repeats;
    var st := Replay(a, h);
    ReplayAccounts(a, h);
    DroppedIsAdmitted(a, h);
    if Linked(a, st, src, dst) {
      LinkedParts(a, st, h, src, dst);
    } else {
      UnlinkedParts(a, st, h, src, dst);
    }
  }

  lemma DroppedIsAdmitted(a: Authority, h: seq<Statement>)
    ensures forall s :: Dropped(a, h, s) ==> Admitted(a, h, s)
  {
    hide Replay, Repeats;
  }

  lemma LinkedParts(a: Authority, st: LinkState, h: seq<Statement>, src: string, dst: string)
    requires Accounts(a, st, h) && Linked(a, st, src, dst) && forall s :: Dropped(a, h, s) ==> Admitted(a, h, s)
    ensures !LinkedInHistory(a, h, src, dst) <==>
      exists r :: Dropped(a, h, Unlink(r)) && OfPair(Unlink(r), src, dst) && RevokesAll(a, h, r)
  {
    hide Dropped, CoveredBy;
    var e :| e in st.edges && e.src == src && e.dst == dst && a.edgeSigned(e)
      && forall r :: r in st.revocations && r.src == src && r.dst == dst && a.revocationSigned(r) ==> r.revokedAt < e.issuedAt;
    assert Admitted(a, h, Link(e));
    var m := NewestEdge(a, h, e);
    if !LinkedInHistory(a, h, src, dst) {
      assert Link(m) in h && Admissible(a, Link(m));
      var r :| Unlink(r) in h && Admissible(a, Unlink(r)) && r.src == src && r.dst == dst && r.revokedAt >= m.issuedAt;
      assert Admitted(a, h, Unlink(r)) && r !in st.revocations;
      assert RevokesAll(a, h, r) && OfPair(Unlink(r), src, dst);
    }
    if r :| Dropped(a, h, Unlink(r)) && OfPair(Unlink(r), src, dst) && RevokesAll(a, h, r) {
      assert Admitted(a, h, Unlink(r));
      forall f | Link(f) in h && Admissible(a, Link(f)) && f.src == src && f.dst == dst ensures f.issuedAt <= r.revokedAt {
        assert Admitted(a, h, Link(f));
      }
    }
  }

  lemma UnlinkedParts(a: Authority, st: LinkState, h: seq<Statement>, src: string, dst: string)
    requires Accounts(a, st, h) && !Linked(a, st, src, dst) && forall s :: Dropped(a, h, s) ==> Admitted(a, h, s)
    ensures LinkedInHistory(a, h, src, dst) <==>
      exists e :: Dropped(a, h, Link(e)) && OfPair(Link(e), src, dst) && Outlives(a, h, e)
  {
    hide Dropped;
    if LinkedInHistory(a, h, src, dst) {
      var e :| Link(e) in h && Admissible(a, Link(e)) && e.src == src && e.dst == dst
        && forall r :: Unlink(r) in h && Admissible(a, Unlink(r)) && r.src == src && r.dst == dst ==> r.revokedAt < e.issuedAt;
      assert Admitted(a, h, Link(e)) && Outlives(a, h, e) && OfPair(Link(e), src, dst);
      assert !CoveredBy(a, h, e);
      assert e !in st.edges;
    }
    if e :| Dropped(a, h, Link(e)) && OfPair(Link(e), src, dst) && Outlives(a, h, e) {
      assert Admitted(a, h, Link(e));
      forall r | Unlink(r) in h && Admissible(a, Unlink(r)) && r.src == src && r.dst == dst ensures r.revokedAt < e.issuedAt {
        assert Admitted(a, h, Unlink(r));
      }
    }
  }

  /** With a nonce used for two edges the second is lost, and the answers part. */
  lemma ReusedNonceDiverges(a: Authority, e: Edge, dst: string)
    requires Admissible(a, Link(e)) && e.dst != dst && Admissible(a, Link(e.(dst := dst)))
    ensures var h := [Link(e), Link(e.(dst := dst))];
      LinkedInHistory(a, h, e.src, dst) && !Linked(a, Replay(a, h), e.src, dst)
  {
    var f := e.(dst := dst);
    var h := [Link(e), Link(f)];
    assert h[..1] == [Link(e)] && h[..1][..0] == [];
    var st := Replay(a, h[..1]);
    assert Replay(a, []) == EMPTY && st == AddEdge(a, EMPTY, e);
    assert [] + [e] == [e];
    assert st == LinkState([e], []) && st.edges[0].nonce == f.nonce;
    assert Replay(a, h) == st;
    assert Link(f) in h;
  }

  // ----- The coordinator -----

  class Coordinator {
    const authority: Authority
    var rooted: bool
    var state: LinkState
    ghost var history: seq<Statement>

    constructor (authority: Authority, rooted: bool)
      ensures this.authority == authority && this.rooted == rooted && state == EMPTY && history == []
    {
      this.authority, this.rooted := authority, rooted;
      state, history := EMPTY, [];
    }

    ghost predicate Valid()
      reads this
    {
      state == Replay(authority, history)
    }

    /** None when the edge is taken, known or already revoked; otherwise the refusal. */
    method AddLinkEdge(e: Edge) returns (error: Option<string>)
      requires Valid()
      modifies this`state, this`history
      ensures Valid()
      ensures history == if rooted then old(history) + [Link(e)] else old(history)
      ensures error.None? <==> rooted && authority.edgeSigned(e) && e.src == authority.domainId
    {
      if !rooted {
        return Some("Domain not rooted");
      }
      history := history + [Link(e)];
      assert history[..|history| - 1] == old(history);
      if !authority.edgeSigned(e) {
        return Some("link edge not owner-signed");
      }
      if e.src != authority.domainId {
        return Some("link edge srcDomainId does not match this Domain");
      }
      for i := 0 to |state.edges|
        invariant forall j :: 0 <= j < i ==> !(state.edges[j].src == e.src && state.edges[j].nonce == e.nonce)
      {
        if state.edges[i].src == e.src && state.edges[i].nonce == e.nonce {
          return None;
        }
      }
      if Nullified(authority, state, e) {
        return None;
      }
      state := state.(edges := state.edges + [e]);
      return None;
    }

    method RemoveLinkEdge(r: Revocation) returns (error: Option<string>)
      requires Valid()
      modifies this`state, this`history
      ensures Valid()
      ensures history == if rooted then old(history) + [Unlink(r)] else old(history)
      ensures error.None? <==> rooted && authority.revocationSigned(r) && r.src == authority.domainId
    {
      if !rooted {
        return Some("Domain not rooted");
      }
      history := history + [Unlink(r)];
      assert history[..|history| - 1] == old(history);
      if !authority.revocationSigned(r) {
        return Some("revocation not owner-signed");
      }
      if r.src != authority.domainId {
        return Some("revocation srcDomainId does not match this Domain");
      }
      var known := exists i :: 0 <= i < |state.revocations| && state.revocations[i].src == r.src
                               && state.revocations[i].dst == r.dst && state.revocations[i].nonce == r.nonce;
      state := LinkState(Newer(state.edges, r), if known then state.revocations else state.revocations + [r]);
      return None;
    }

    /** The newest signed edge of the pair, unless a signed revocation is as new; equal to the full-history answer. */
    method HasLinkEdge(src: string, dst: string) returns (linked: bool)
      requires Valid()
      ensures linked <==> rooted && Linked(authority, state, src, dst)
      ensures NoncesAreUnique(authority, history) ==> (linked <==> rooted && LinkedInHistory(authority, history, src, dst))
    {
      if NoncesAreUnique(authority, history) {
        CompactionAgrees(authority, history, src, dst);
      }
      if !rooted {
        return false;
      }
      var newest: Option<Edge> := None;
      for i := 0 to |state.edges|
        invariant newest.Some? ==> newest.value in state.edges && newest.value.src == src && newest.value.dst == dst
                                   && authority.edgeSigned(newest.value)
        invariant forall j :: 0 <= j < i && state.edges[j].src == src && state.edges[j].dst == dst
                              && authority.edgeSigned(state.edges[j]) ==>
          newest.Some? && state.edges[j].issuedAt <= newest.value.issuedAt
      {
        var e := state.edges[i];
        if e.src == src && e.dst == dst && authority.edgeSigned(e) {
          if newest.None? || e.issuedAt > newest.value.issuedAt {
            newest := Some(e);
          }
        }
      }
      if newest.None? {
        return false;
      }
      for i := 0 to |state.revocations|
        invariant forall j :: 0 <= j < i && state.revocations[j].src == src && state.revocations[j].dst == dst
                              && authority.revocationSigned(state.revocations[j]) ==>
          state.revocations[j].revokedAt < newest.value.issuedAt
      {
        var r := state.revocations[i];
        if r.src == src && r.dst == dst && authority.revocationSigned(r) && r.revokedAt >= newest.value.issuedAt {
          assert r in state.revocations;
          return false;
        }
      }
      return true;
    }
  }
}
