/** Compare-and-swap over one shared file, with outside writers between the read and the write. */
module SecretStore {
  import opened Common

  const MAX_WRITE_RETRIES: nat := 5

  datatype Identity = Identity(key: string)

  datatype Enrollment = Enrollment(state: string)

  /** The file as stored; nonces and enrolment may be absent in an old file. */
  datatype Raw = Raw(identity: Identity, enrollment: Option<map<string, Enrollment>>, seenAdminNonces: Option<seq<string>>)

  /** What a mutation is shown. */
  datatype Base = Base(enrollment: map<string, Enrollment>, seenAdminNonces: seq<string>, identity: Identity)

  datatype Decision<T> =
    | Commit(enrollment: map<string, Enrollment>, seenAdminNonces: seq<string>, value: T)
    | Keep(value: T)

  /** The content of the file; None when it does not exist. */
  type Content = Option<Raw>

  /** The base a mutation sees: the file with defaults filled in, or an empty one under the cached identity. */
  function BaseOf(file: Content, cached: Identity): Base {
    match file
    case Some(raw) =>
      Base(if raw.enrollment.Some? then raw.enrollment.value else map[],
           if raw.seenAdminNonces.Some? then raw.seenAdminNonces.value else [], raw.identity)
    case None => Base(map[], [], cached)
  }

  function Written<T>(b: Base, d: Decision<T>): Raw
    requires d.Commit?
  {
    Raw(b.identity, Some(d.enrollment), Some(d.seenAdminNonces))
  }

  // ----- The life of the file -----

  /** One of our writes, with the content it replaced and the base it was computed from; or someone else's. */
  datatype Event = Ours(replaced: Content, base: Base, written: Raw) | Outside(content: Content)

  function After(e: Event): Content {
    match e
    case Ours(_, _, written) => Some(written)
    case Outside(content) => content
  }

  /** The file is the last write, ours or not. */
  function FileAfter(initial: Content, log: seq<Event>): Content {
    if log == [] then initial else After(log[|log| - 1])
  }

  /** Each of our writes replaced exactly the content it names. */
  ghost predicate WritesAreConditional(initial: Content, log: seq<Event>) {
    forall i :: 0 <= i < |log| && log[i].Ours? ==> log[i].replaced == FileAfter(initial, log[..i])
  }

  function OursIn(log: seq<Event>): seq<Event> {
    if log == [] then []
    else OursIn(log[..|log| - 1]) + if log[|log| - 1].Ours? then [log[|log| - 1]] else []
  }

  lemma LogSnoc(initial: Content, log: seq<Event>, e: Event)
    requires WritesAreConditional(initial, log) && (e.Ours? ==> e.replaced == FileAfter(initial, log))
    ensures WritesAreConditional(initial, log + [e]) && FileAfter(initial, log + [e]) == After(e)
    ensures OursIn(log + [e]) == OursIn(log) + if e.Ours? then [e] else []
  {
    var log' := log + [e];
    assert log'[..|log|] == log;
    forall i | 0 <= i < |log'| && log'[i].Ours? ensures log'[i].replaced == FileAfter(initial, log'[..i]) {
      if i < |log| {
        assert log'[..i] == log[..i];
      }
    }
  }

  /** A file that others write too; its log is what really happened to it. */
  class SharedFile {
    var content: Content
    ghost const initial: Content
    ghost var log: seq<Event>

    constructor (content: Content)
      ensures Valid() && this.content == content && initial == content && log == []
    {
      this.content, this.initial := content, content;
      log := [];
    }

    ghost predicate Valid()
      reads this
    {
      content == FileAfter(initial, log) && WritesAreConditional(initial, log)
    }

    /** Other writers may step in, any number of times. */
    method Interfere()
      requires Valid()
      modifies this
      ensures Valid() && old(log) <= log && OursIn(log) == OursIn(old(log))
      ensures log == old(log) ==> content == old(content)
    {
      var steps: int := *;
      for i := 0 to if steps < 0 then 0 else steps
        invariant Valid() && old(log) <= log && OursIn(log) == OursIn(old(log))
        invariant log == old(log) ==> content == old(content)
      {
        var c: Content := *;
        LogSnoc(initial, log, Outside(c));
        log := log + [Outside(c)];
        content := c;
      }
    }

    /** Writes only if the content still has the version that was named. */
    method WriteIf(value: Raw, seen: Content, ghost base: Base) returns (ok: bool)
      requires Valid()
      modifies this
      ensures Valid() && ok == (old(content) == seen)
      ensures ok ==> content == Some(value) && log == old(log) + [Ours(seen, base, value)]
      ensures ok ==> OursIn(log) == OursIn(old(log)) + [Ours(seen, base, value)]
      ensures !ok ==> content == old(content) && log == old(log)
    {
      ok := content == seen;
      if ok {
        LogSnoc(initial, log, Ours(seen, base, value));
        log := log + [Ours(seen, base, value)];
        content := Some(value);
      }
    }
  }

  // ----- One attempt, and a call's attempts in turn -----

  /** The version a write names: that of the content read, or the cached one when there was no file. */
  function VersionNamed(seen: Content, cached: Content): Content {
    if seen.Some? then seen else cached
  }

  /** What one attempt comes to: nothing to write, a write that went through, or a lost race. */
  datatype Attempted<T> = Kept(value: T) | Wrote(write: Event, value: T) | Lost

  /** Read `seen`, decide, and write if the file, `found` by then, still has the version named. */
  function Attempt<T>(seen: Content, found: Content, cached: Content, identity: Identity, mutator: Base -> Decision<T>): Attempted<T> {
    var base := BaseOf(seen, identity);
    var d := mutator(base);
    if d.Keep? then Kept(d.value)
    else if found == VersionNamed(seen, cached) then Wrote(Ours(found, base, Written(base, d)), d.value)
    else Lost
  }

  /** What a call met: at each attempt, the content read and the content found at the write. */
  type Meetings = seq<(Content, Content)>

  /** The first attempt that is not lost. */
  function Cas<T>(met: Meetings, cached: Content, identity: Identity, mutator: Base -> Decision<T>): Attempted<T> {
    if met == [] then Lost
    else
      var first := Attempt(met[0].0, met[0].1, cached, identity, mutator);
      if first.Lost? then Cas(met[1..], cached, identity, mutator) else first
  }

  lemma {:induction false} CasSnoc<T>(met: Meetings, last: (Content, Content), cached: Content, identity: Identity,
                                      mutator: Base -> Decision<T>)
    requires Cas(met, cached, identity, mutator).Lost?
    ensures Cas(met + [last], cached, identity, mutator) == Attempt(last.0, last.1, cached, identity, mutator)
  {
    if met == [] {
      assert (met + [last])[1..] == [];
    } else {
      assert (met + [last])[0] == met[0] && (met + [last])[1..] == met[1..] + [last];
      CasSnoc(met[1..], last, cached, identity, mutator);
    }
  }

  /** The write was computed from the content it replaced. */
  ghost predicate Exact(write: Event, identity: Identity) {
    write.Ours? && write.base == BaseOf(write.replaced, identity)
  }

  /** Nothing is cached, the cached file shows the mutation the same as no file, or a missing file is left missing. */
  ghost predicate CannotMislead<T>(cached: Content, identity: Identity, mutator: Base -> Decision<T>) {
    cached.None? || BaseOf(cached, identity) == BaseOf(None, identity) || mutator(BaseOf(None, identity)).Keep?
  }

  lemma {:induction false} HarmlessCallsAreExact<T>(met: Meetings, cached: Content, identity: Identity, mutator: Base -> Decision<T>)
    requires CannotMislead(cached, identity, mutator)
    ensures var r := Cas(met, cached, identity, mutator); r.Wrote? ==> Exact(r.write, identity)
  {
    if met != [] {
      HarmlessCallsAreExact(met[1..], cached, identity, mutator);
    }
  }

  /**
   The file is deleted before the read and restored to the cached version before the write: the
   write goes through and replaces the restored file by an update of an empty one.
   */
  lemma DeletedThenRestored<T>(cached: Content, identity: Identity, mutator: Base -> Decision<T>)
    requires cached.Some? && mutator(BaseOf(None, identity)).Commit?
    ensures var empty := BaseOf(None, identity);
      Cas([(None, cached)], cached, identity, mutator)
      == Wrote(Ours(cached, empty, Written(empty, mutator(empty))), mutator(empty).value)
  {
    assert Cas([(None, cached)], cached, identity, mutator) == Attempt(None, cached, cached, identity, mutator);
  }

  /**
   Every write that goes through, whatever others do in between, was computed from the content it
   replaced exactly when the cache cannot mislead the mutation. For a mutation that commits on an
   empty file and a cache that differs from one, that is when no version was cached on entry.
   */
  lemma CommitsAreExactIff<T>(cached: Content, identity: Identity, mutator: Base -> Decision<T>)
    ensures (forall met :: var r := Cas(met, cached, identity, mutator); r.Wrote? ==> Exact(r.write, identity)) <==>
      CannotMislead(cached, identity, mutator)
  {
    if CannotMislead(cached, identity, mutator) {
      forall met ensures var r := Cas(met, cached, identity, mutator); r.Wrote? ==> Exact(r.write, identity) {
        HarmlessCallsAreExact(met, cached, identity, mutator);
      }
    } else {
      DeletedThenRestored(cached, identity, mutator);
      var met := [(None, cached)];
      assert !Exact(Cas(met, cached, identity, mutator).write, identity);
    }
  }

  /** To replace only what was read, byte for byte, takes that no version was cached or that a missing file is left missing. */
  lemma WritesReplaceWhatWasReadIff<T>(cached: Content, identity: Identity, mutator: Base -> Decision<T>)
    ensures (forall seen, found :: Attempt(seen, found, cached, identity, mutator).Wrote? ==> seen == found) <==>
      cached.None? || mutator(BaseOf(None, identity)).Keep?
  {
    if cached.Some? && mutator(BaseOf(None, identity)).Commit? {
      assert Attempt(None, cached, cached, identity, mutator).Wrote?;
    }
  }

  /** A mutation of one domain that meets this loses every other domain of the restored file. */
  lemma RestoredDomainsAreLost<T>(raw: Raw, identity: Identity, domainId: string,
                                  mutator: Option<Enrollment> -> DomainDecision<T>, other: string)
    requires mutator(None).SetSlice? && other != domainId
    ensures var r := Cas([(None, Some(raw))], Some(raw), identity, OnDomain(domainId, mutator));
      && r.Wrote? && r.write.Ours? && r.write.replaced == Some(raw)
      && r.write.written.enrollment.Some? && other !in r.write.written.enrollment.value
  {
    DeletedThenRestored(Some(raw), identity, OnDomain(domainId, mutator));
  }

  // ----- One domain's slice, through a whole call -----

  function SliceOf(b: Base, domainId: string): Option<Enrollment> {
    if domainId in b.enrollment then Some(b.enrollment[domainId]) else None
  }

  /** What a domain's decision makes of the whole secret: its own slice as decided, everything else as it was. */
  ghost predicate DomainMoves<T>(domainId: string, d: DomainDecision<T>, before: Base, after: Base) {
    && after.seenAdminNonces == before.seenAdminNonces && after.identity == before.identity
    && (forall other :: other != domainId ==> SliceOf(after, other) == SliceOf(before, other))
    && SliceOf(after, domainId) ==
         match d
         case SetSlice(next, _) => Some(next)
         case DeleteSlice(_) => None
         case KeepSlice(_) => SliceOf(before, domainId)
  }

  /** The attempt that read `seen`: the mutation was shown that content's slice, and nothing was written or its decision was. */
  ghost predicate DomainAttempt<T>(domainId: string, mutator: Option<Enrollment> -> DomainDecision<T>, seen: Content,
                                   identity: Identity, r: Attempted<T>)
  {
    var before := BaseOf(seen, identity);
    var d := mutator(SliceOf(before, domainId));
    match r
    case Kept(value) => d == KeepSlice(value)
    case Wrote(write, value) =>
      && !d.KeepSlice? && value == d.value && write.Ours? && write.base == before
      && DomainMoves(domainId, d, before, BaseOf(Some(write.written), identity))
    case Lost => !d.KeepSlice?
  }

  lemma AttemptOnDomain<T>(domainId: string, mutator: Option<Enrollment> -> DomainDecision<T>, seen: Content, found: Content,
                           cached: Content, identity: Identity)
    ensures DomainAttempt(domainId, mutator, seen, identity, Attempt(seen, found, cached, identity, OnDomain(domainId, mutator)))
  {
  }

  /** Some attempt of the call is the one that decided. */
  ghost predicate DomainOutcome<T>(domainId: string, mutator: Option<Enrollment> -> DomainDecision<T>, met: Meetings,
                                   identity: Identity, r: Attempted<T>)
  {
    exists i :: 0 <= i < |met| && DomainAttempt(domainId, mutator, met[i].0, identity, r)
  }

  /** A call that mutates one domain does to the file exactly what the mutation decided on the slice it was shown. */
  lemma {:induction false} DomainCall<T>(domainId: string, mutator: Option<Enrollment> -> DomainDecision<T>, met: Meetings,
                                         cached: Content, identity: Identity)
    requires met != []
    ensures DomainOutcome(domainId, mutator, met, identity, Cas(met, cached, identity, OnDomain(domainId, mutator)))
  {
    hide DomainAttempt, Attempt, OnDomain;
    var m := OnDomain(domainId, mutator);
    var first := Attempt(met[0].0, met[0].1, cached, identity, m);
    AttemptOnDomain(domainId, mutator, met[0].0, met[0].1, cached, identity);
    if first.Lost? && |met| > 1 {
      DomainCall(domainId, mutator, met[1..], cached, identity);
      var rest := met[1..];
      var i :| 0 <= i < |rest| && DomainAttempt(domainId, mutator, rest[i].0, identity, Cas(rest, cached, identity, m));
      assert met[i + 1] == rest[i];
    } else if first.Lost? {
      assert met[1..] == [];
    }
  }

  // ----- The store -----

  datatype Outcome<T> = Done(value: T) | ConflictError | NotInitialized

  /** `c` was the content of the file at some point after the first `from` events. */
  ghost predicate HadContent(initial: Content, log: seq<Event>, from: nat, c: Content) {
    exists k :: from <= k <= |log| && FileAfter(initial, log[..k]) == c
  }

  /** What was met is what the file held. */
  ghost predicate ReallyMet(initial: Content, log: seq<Event>, from: nat, met: Meetings) {
    forall i :: 0 <= i < |met| ==> HadContent(initial, log, from, met[i].0) && HadContent(initial, log, from, met[i].1)
  }

  lemma HadContentStays(initial: Content, log: seq<Event>, log': seq<Event>, from: nat)
    requires log <= log'
    ensures forall c :: HadContent(initial, log, from, c) ==> HadContent(initial, log', from, c)
  {
    forall c | HadContent(initial, log, from, c) ensures HadContent(initial, log', from, c) {
      var k :| from <= k <= |log| && FileAfter(initial, log[..k]) == c;
      assert log'[..k] == log[..k];
    }
  }

  lemma HasContent(initial: Content, log: seq<Event>, from: nat)
    requires from <= |log|
    ensures HadContent(initial, log, from, FileAfter(initial, log))
  {
    assert log[..|log|] == log;
  }

  lemma HadContentLater(initial: Content, log: seq<Event>, from: nat, later: nat)
    requires from <= later
    ensures forall c :: HadContent(initial, log, later, c) ==> HadContent(initial, log, from, c)
  {
  }

  /** One more attempt: what it met is what the file held, and so is what was met before. */
  lemma MetOneMore(initial: Content, log: seq<Event>, log': seq<Event>, from: nat, met: Meetings, last: (Content, Content))
    requires ReallyMet(initial, log, from, met) && log <= log'
    requires HadContent(initial, log', from, last.0) && HadContent(initial, log', from, last.1)
    ensures ReallyMet(initial, log', from, met + [last])
  {
    hide HadContent;
    HadContentStays(initial, log, log', from);
  }

  class FileSecretStore {
    const file: SharedFile
    var identity: Option<Identity>
    var domains: map<string, Enrollment>
    var seenAdminNonces: seq<string>
    var resourceVersion: Content

    constructor (file: SharedFile)
      ensures this.file == file && identity == None && Cached() == Base(map[], [], Identity("")) && resourceVersion == None
    {
      this.file := file;
      identity, domains, seenAdminNonces, resourceVersion := None, map[], [], None;
    }

    function Cached(): Base
      reads this
    {
      Base(domains, seenAdminNonces, if identity.Some? then identity.value else Identity(""))
    }

    /**
     Opens an existing file, or creates one under a new identity. If someone else creates it between
     the read and the write, the call fails and leaves the file alone, but keeps the new identity.
     */
    method Init(generated: Identity) returns (r: Result<Identity>)
      requires file.Valid()
      modifies this, file
      ensures file.Valid() && old(file.log) <= file.log && identity.Some?
      ensures r.Ok? ==> r.value == identity.value
      ensures r.Ok? && OursIn(file.log) == OursIn(old(file.log)) ==>
        file.content.Some? && Cached() == BaseOf(file.content, generated) && resourceVersion == file.content
      ensures r.Ok? && OursIn(file.log) != OursIn(old(file.log)) ==>
        && Cached() == Base(map[], [], generated) && resourceVersion == old(resourceVersion)
        && file.content == Some(Raw(generated, Some(map[]), Some([])))
        && OursIn(file.log) == OursIn(old(file.log)) + [Ours(None, Base(map[], [], generated), file.content.value)]
      ensures r.Err? ==>
        && OursIn(file.log) == OursIn(old(file.log)) && file.content.Some?
        && Cached() == Base(map[], [], generated) && resourceVersion == old(resourceVersion)
    {
      hide OursIn, FileAfter, WritesAreConditional;
      file.Interfere();
      var base := BaseOf(file.content, generated);
      identity, domains, seenAdminNonces := Some(base.identity), base.enrollment, base.seenAdminNonces;
      if file.content.Some? {
        resourceVersion := file.content;
        return Ok(base.identity);
      }
      file.Interfere();
      var ok := file.WriteIf(Raw(generated, Some(map[]), Some([])), None, base);
      if !ok {
        return Err("federation file changed during write");
      }
      LongerIsOther(OursIn(old(file.log)), Ours(None, base, Raw(generated, Some(map[]), Some([]))));
      return Ok(generated);
    }

    /** One attempt, with whatever others do before the read and between the read and the write; None when the race was lost. */
    method TryOnce<T>(mutator: Base -> Decision<T>) returns (r: Option<T>, ghost met: (Content, Content))
      requires file.Valid() && identity.Some?
      modifies this, file
      ensures file.Valid() && old(file.log) <= file.log
      ensures HadContent(file.initial, file.log, |old(file.log)|, met.0) && HadContent(file.initial, file.log, |old(file.log)|, met.1)
      ensures match Attempt(met.0, met.1, old(resourceVersion), old(identity).value, mutator)
        case Kept(value) =>
          && r == Some(value) && OursIn(file.log) == OursIn(old(file.log)) && file.content == met.0
          && Cached() == BaseOf(file.content, old(identity).value)
          && resourceVersion == VersionNamed(file.content, old(resourceVersion))
        case Wrote(write, value) =>
          && r == Some(value) && OursIn(file.log) == OursIn(old(file.log)) + [write] && file.log != old(file.log)
          && write.Ours? && file.content == Some(write.written) && resourceVersion == None
          && Cached() == BaseOf(file.content, old(identity).value)
        case Lost =>
          && r.None? && OursIn(file.log) == OursIn(old(file.log))
          && identity == old(identity) && Cached() == old(Cached()) && resourceVersion == old(resourceVersion)
          && (old(resourceVersion).None? ==> |file.log| > |old(file.log)|)
      ensures file.log == old(file.log) ==>
        && file.content == old(file.content)
        && (r.None? <==> CannotEverCommit(mutator, old(file.content), old(identity).value, old(resourceVersion)))
    {
      hide OursIn, FileAfter, WritesAreConditional, BaseOf, HadContent;
      ghost var me := identity.value;
      file.Interfere();
      HasContent(file.initial, file.log, |old(file.log)|);
      ghost var log1 := file.log;
      var seen := file.content;
      var base := BaseOf(seen, identity.value);
      var version := VersionNamed(seen, resourceVersion);
      var decision := mutator(base);
      if decision.Keep? {
        identity, domains, seenAdminNonces, resourceVersion := Some(base.identity), base.enrollment, base.seenAdminNonces, version;
        return Some(decision.value), (seen, seen);
      }
      file.Interfere();
      ghost var log2 := file.log;
      met := (seen, file.content);
      HadContentStays(file.initial, log1, log2, |old(file.log)|);
      HasContent(file.initial, file.log, |old(file.log)|);
      var ok := file.WriteIf(Written(base, decision), version, base);
      HadContentStays(file.initial, log2, file.log, |old(file.log)|);
      if ok {
        identity, domains, seenAdminNonces := Some(base.identity), decision.enrollment, decision.seenAdminNonces;
        resourceVersion := None;
        WrittenReadsBack(base, decision, me);
        return Some(decision.value), met;
      }
      r := None;
    }

    /**
     Read, decide, write if unchanged, at most five times. The outcome is that of `Cas` on what the
     call really met in the file: at most one write of this call takes effect, and the cache then
     equals the file; when the mutation wants no write, the cache becomes what was read; a conflict
     changes nothing and, with no version cached, took an outside write in each of the five attempts.
     */
    method RunCas<T>(mutator: Base -> Decision<T>) returns (o: Outcome<T>, ghost met: Meetings)
      requires file.Valid()
      modifies this, file
      ensures file.Valid() && old(file.log) <= file.log && (o.NotInitialized? <==> old(identity).None?)
      ensures o.NotInitialized? ==> file.log == old(file.log) && Cached() == old(Cached())
      ensures |met| <= 5 && ReallyMet(file.initial, file.log, |old(file.log)|, met)
      ensures old(identity).Some? ==>
        met != [] && Cas(met[..|met| - 1], old(resourceVersion), old(identity).value, mutator).Lost?
      ensures old(identity).Some? ==>
        match Cas(met, old(resourceVersion), old(identity).value, mutator)
        case Kept(value) =>
          && o == Done(value) && OursIn(file.log) == OursIn(old(file.log)) && file.content == met[|met| - 1].0
          && Cached() == BaseOf(file.content, old(identity).value)
          && resourceVersion == VersionNamed(file.content, old(resourceVersion))
        case Wrote(write, value) =>
          && o == Done(value) && OursIn(file.log) == OursIn(old(file.log)) + [write]
          && write.Ours? && file.content == Some(write.written) && resourceVersion == None
          && Cached() == BaseOf(file.content, old(identity).value)
        case Lost =>
          && o.ConflictError? && |met| == 5 && OursIn(file.log) == OursIn(old(file.log))
          && Cached() == old(Cached()) && resourceVersion == old(resourceVersion)
          && (old(resourceVersion).None? ==> |file.log| >= |old(file.log)| + 5)
      ensures old(identity).Some? && file.log == old(file.log) ==>
        (o.ConflictError? <==> CannotEverCommit(mutator, old(file.content), old(identity).value, old(resourceVersion)))
    {
      hide OursIn, FileAfter, WritesAreConditional, BaseOf, Cas, Attempt, HadContent, ReallyMet, CannotEverCommit;
      met := [];
      NothingReallyMet(file.initial, file.log, |file.log|);
      if identity.None? {
        return NotInitialized, met;
      }
      ghost var me := identity.value;
      o := ConflictError;
      NothingMet(resourceVersion, me, mutator);
      for attempt := 0 to MAX_WRITE_RETRIES
        invariant file.Valid() && old(file.log) <= file.log && OursIn(file.log) == OursIn(old(file.log))
        invariant identity == old(identity) && Cached() == old(Cached()) && resourceVersion == old(resourceVersion)
        invariant |met| == attempt && Cas(met, old(resourceVersion), me, mutator).Lost?
        invariant met != [] ==> Cas(met[..|met| - 1], old(resourceVersion), me, mutator).Lost?
        invariant ReallyMet(file.initial, file.log, |old(file.log)|, met)
        invariant file.log == old(file.log) ==> file.content == old(file.content)
        invariant old(resourceVersion).None? ==> |file.log| >= |old(file.log)| + attempt
        invariant attempt > 0 && file.log == old(file.log) ==>
          CannotEverCommit(mutator, old(file.content), me, old(resourceVersion))
      {
        ghost var log0 := file.log;
        var r, pair := TryOnce(mutator);
        HadContentLater(file.initial, file.log, |old(file.log)|, |log0|);
        MetOneMore(file.initial, log0, file.log, |old(file.log)|, met, pair);
        CasSnoc(met, pair, old(resourceVersion), me, mutator);
        assert (met + [pair])[..attempt] == met;
        met := met + [pair];
        if r.Some? {
          return Done(r.value), met;
        }
      }
    }

    /**
     Mutates one domain. What the file holds afterwards is what the mutation decided on the slice it
     was shown, which is that of a content the file really had; or nothing was to be written; or the
     races were lost and nothing changed.
     */
    method MutateDomain<T>(domainId: string, mutator: Option<Enrollment> -> DomainDecision<T>) returns (o: Outcome<T>, ghost met: Meetings)
      requires file.Valid()
      modifies this, file
      ensures file.Valid() && old(file.log) <= file.log && (o.NotInitialized? <==> old(identity).None?)
      ensures ReallyMet(file.initial, file.log, |old(file.log)|, met)
      ensures o.Done? ==> met != [] && old(identity).Some?
      ensures o.Done? ==>
        var seen, me := met[|met| - 1].0, old(identity).value;
        var before, after := BaseOf(seen, me), BaseOf(file.content, me);
        var d := mutator(SliceOf(before, domainId));
        && o.value == d.value && Cached() == after && DomainMoves(domainId, d, before, after)
        && |OursIn(file.log)| == |OursIn(old(file.log))| + if d.KeepSlice? then 0 else 1
      ensures !o.Done? ==> OursIn(file.log) == OursIn(old(file.log)) && Cached() == old(Cached())
    {
      hide OursIn, BaseOf, Cas, Attempt, DomainMoves, ReallyMet, OnDomain;
      o, met := RunCas(OnDomain(domainId, mutator));
      if o.Done? {
        ghost var last, me := met[|met| - 1], old(identity).value;
        assert met == met[..|met| - 1] + [last];
        CasSnoc(met[..|met| - 1], last, old(resourceVersion), me, OnDomain(domainId, mutator));
        AttemptOnDomain(domainId, mutator, last.0, last.1, old(resourceVersion), me);
        NothingMoves(domainId, mutator(SliceOf(BaseOf(last.0, me), domainId)), BaseOf(last.0, me));
      }
    }
  }

  lemma NothingMoves<T>(domainId: string, d: DomainDecision<T>, b: Base)
    ensures d.KeepSlice? ==> DomainMoves(domainId, d, b, b)
  {
  }

  lemma NothingReallyMet(initial: Content, log: seq<Event>, from: nat)
    ensures ReallyMet(initial, log, from, [])
  {
  }

  lemma NothingMet<T>(cached: Content, identity: Identity, mutator: Base -> Decision<T>)
    ensures Cas([], cached, identity, mutator).Lost?
  {
  }

  lemma LongerIsOther<T>(s: seq<T>, x: T)
    ensures s + [x] != s
  {
    assert |s + [x]| == |s| + 1;
  }

  /** What a write stores is what the next read shows. */
  lemma WrittenReadsBack<T>(base: Base, d: Decision<T>, identity: Identity)
    requires d.Commit?
    ensures BaseOf(Some(Written(base, d)), identity) == Base(d.enrollment, d.seenAdminNonces, base.identity)
  {
  }

  /** The file is gone while a version is cached: a commit then names a version the file cannot have. */
  ghost predicate CannotEverCommit<T>(mutator: Base -> Decision<T>, file: Content, identity: Identity, version: Content) {
    file.None? && version.Some? && mutator(BaseOf(file, identity)).Commit?
  }

  // ----- One domain's slice -----

  datatype DomainDecision<T> = SetSlice(next: Enrollment, value: T) | DeleteSlice(value: T) | KeepSlice(value: T)

  /** A mutation of one domain, lifted to the whole secret. */
  function OnDomain<T>(domainId: string, mutator: Option<Enrollment> -> DomainDecision<T>): Base -> Decision<T> {
    (b: Base) =>
      match mutator(if domainId in b.enrollment then Some(b.enrollment[domainId]) else None)
      case KeepSlice(value) => Keep(value)
      case DeleteSlice(value) => Commit(b.enrollment - {domainId}, b.seenAdminNonces, value)
      case SetSlice(next, value) => Commit(b.enrollment[domainId := next], b.seenAdminNonces, value)
  }

  /** Mutating one domain leaves every other domain, the nonces and the identity as they were. */
  lemma DomainMutationIsLocal<T>(domainId: string, mutator: Option<Enrollment> -> DomainDecision<T>, b: Base, other: string)
    requires other != domainId && OnDomain(domainId, mutator)(b).Commit?
    ensures var w := Written(b, OnDomain(domainId, mutator)(b));
      && (other in w.enrollment.value <==> other in b.enrollment)
      && (other in b.enrollment ==> w.enrollment.value[other] == b.enrollment[other])
      && w.seenAdminNonces.value == b.seenAdminNonces && w.identity == b.identity
  {
    match mutator(if domainId in b.enrollment then Some(b.enrollment[domainId]) else None)
    case KeepSlice(_) =>
    case DeleteSlice(_) =>
    case SetSlice(_, _) =>
  }
}
