/** Retrying a bind or an unbind (cmd/dirextalk-agent/core_cloud_worker_domain_intrinsic.go): the intent survives its
    own progress, and a retry from wherever an attempt stopped completes in the one state the first was heading for. */
module DomainRetry {
  import opened Common
  import opened WorkloadStore
  import opened Route53
  import opened DomainIntent
  import opened DomainProtocol
  import opened DomainRuns

  // ---- The intent survives its own progress. ----

  /** A step of some attempt to bind `d` for `w`; the attempts under way are known from the state. */
  predicate IsBindStep(e: Event, w: string, d: Domain, hostname: string) {
    HasOp(e) || (e.BindBegin? && e.w == w && e.d == d && e.hostname == hostname)
  }

  predicate IsUnbindStep(e: Event, w: string, d: Domain) {
    HasOp(e) || (e.UnbindBegin? && e.w == w && e.d == d)
  }

  predicate IsBind(op: Op, w: string, d: Domain, hostname: string) {
    op in {Staging(w, d, Binding(hostname), None), Staged(w, d, Binding(hostname), None),
           Writing(w, d, Binding(hostname), None), Late(w, d), Committing(w, d)}
  }

  /** Only attempts to bind `d` are under way, and the state is one that binding passes through. */
  ghost predicate OnBindTrack(start: Point, d: Domain, w: string, hostname: string, s: State) {
    && w in s.services && BindPoint(start, d, w, Point(s.services[w], s.zone))
    && (forall o | o in s.ops :: IsBind(s.ops[o], w, d, hostname))
  }

  ghost predicate OnUnbindTrack(start: Point, d: Domain, w: string, s: State) {
    && w in s.services && UnbindPoint(start, d, Point(s.services[w], s.zone))
    && (forall o | o in s.ops :: s.ops[o] == Deleting(w, d) || s.ops[o] == Clearing(w, d))
  }

  lemma BindStepOnTrack(start: Point, worker: Worker, hostname: string, d: Domain, w: string, s: State, e: Event)
    requires ResolveBind(start.service, start.zone, worker, hostname) == Some(d)
    requires OnBindTrack(start, d, w, hostname, s) && IsBindStep(e, w, d, hostname) && Enabled(s, e)
    ensures OnBindTrack(start, d, w, hostname, Step(s, e))
  {
    hide Canonical, ValidHostname, ValidService, Merge, Clear;
    assert HasOp(e) ==> e.o in s.ops && IsBind(s.ops[e.o], w, d, hostname);
  }

  lemma UnbindStepOnTrack(start: Point, d: Domain, w: string, s: State, e: Event)
    requires ResolveUnbind(start.service) == Some(d)
    requires OnUnbindTrack(start, d, w, s) && IsUnbindStep(e, w, d) && Enabled(s, e)
    ensures OnUnbindTrack(start, d, w, Step(s, e))
  {
    hide Canonical, ValidService, Merge, Stage, Commit, ResolveBind;
    assert HasOp(e) ==> e.o in s.ops && IsUnbind(s.ops[e.o]);
    assert (start.zone - {KeyOf(d)}) - {KeyOf(d)} == start.zone - {KeyOf(d)};
  }

  /** However far attempts to bind got, overlapped, failed and were retried, resolving gives the same intent. */
  lemma {:induction false} BindIntentSurvives(start: Point, worker: Worker, hostname: string, d: Domain, w: string,
                                              s: State, es: seq<Event>)
    requires ResolveBind(start.service, start.zone, worker, hostname) == Some(d)
    requires OnBindTrack(start, d, w, hostname, s) && Runs(s, es) &&
             forall i | 0 <= i < |es| :: IsBindStep(es[i], w, d, hostname)
    ensures OnBindTrack(start, d, w, hostname, After(s, es))
    ensures ResolveBind(After(s, es).services[w], After(s, es).zone, worker, hostname) == Some(d)
    decreases |es|
  {
    hide Step, Enabled, ResolveBind, IsBindStep, IsBind, BindPoint;
    if es == [] {
      BindIntentIsFixed(start, worker, hostname, w, d, Point(s.services[w], s.zone));
    } else {
      BindStepOnTrack(start, worker, hostname, d, w, s, es[0]);
      BindIntentSurvives(start, worker, hostname, d, w, Step(s, es[0]), es[1..]);
    }
  }

  lemma {:induction false} UnbindIntentSurvives(start: Point, d: Domain, w: string, s: State, es: seq<Event>)
    requires ResolveUnbind(start.service) == Some(d)
    requires OnUnbindTrack(start, d, w, s) && Runs(s, es) && forall i | 0 <= i < |es| :: IsUnbindStep(es[i], w, d)
    ensures OnUnbindTrack(start, d, w, After(s, es))
    ensures ResolveUnbind(After(s, es).services[w]) == Some(d)
    decreases |es|
  {
    hide Step, Enabled, ResolveUnbind, IsUnbindStep, UnbindPoint;
    if es == [] {
      UnbindIntentIsFixed(start, d, Point(s.services[w], s.zone));
    } else {
      UnbindStepOnTrack(start, d, w, s, es[0]);
      UnbindIntentSurvives(start, d, w, Step(s, es[0]), es[1..]);
    }
  }

  // ---- A retry completes, and in the same state. ----

  lemma BindPointIsValid(start: Point, worker: Worker, hostname: string, w: string, d: Domain, p: Point)
    requires ResolveBind(start.service, start.zone, worker, hostname) == Some(d) && ValidService(start.service) &&
             Usable(worker)
    requires BindPoint(start, d, w, p)
    ensures ValidService(p.service)
  {
    hide Canonical, ResolveBind, Usable, ValidService;
    ResolvedIsStageable(start.service, start.zone, worker, hostname, d);
    BoundIsValid(start.service, d);
  }

  lemma BoundIsValid(v: Service, d: Domain)
    requires ValidService(v) && Stage(v, d).Some?
    ensures ValidService(v.(pending := Some(d)))
    ensures ValidService(v.(domain := Some(d), pending := None, removed := None))
    ensures ValidService(v.(domain := Some(d), pending := Some(d), removed := None))
  {
    hide Fits, ValidId, ValidHealthPath, ValidHostname;
    NoDomainFits(v.hostname);
  }

  /** A bind that is let run: begin, stage, check, write, read back, commit. */
  lemma BindCompletes(s: State, worker: Worker, hostname: string, d: Domain, w: string, o: nat) returns (es: seq<Event>)
    requires o !in s.ops && w in s.services && ResolveBind(s.services[w], s.zone, worker, hostname) == Some(d) &&
             Stage(s.services[w], d).Some?
    ensures Runs(s, es) && (forall i | 0 <= i < |es| :: IsBindStep(es[i], w, d, hostname))
    ensures var b := Bound(Point(s.services[w], s.zone), d, w);
            After(s, es) == State(s.services[w := b.service], b.zone, s.ops)
  {
    hide Runs, After, Orderly, Canonical, ValidService, ValidHostname, Enabled, Step;
    var t;
    es, t := Begin(s);
    es, t := DoBind(s, es, t, o, w, d, worker, hostname);
    es, t := DoStage(s, es, t, o);
    es, t := DoCheck(s, es, t, o, worker);
    es, t := DoUpsert(s, es, t, o);
    es, t := DoSee(s, es, t, o);
    es, t := DoCommit(s, es, t, o);
    assert t.ops == s.ops;
  }

  /** After any attempts to bind `d` that stopped anywhere, or still go on, a retry completes and ends in exactly the
      state the first attempt was heading for. */
  lemma BindRetryCompletes(start: Point, worker: Worker, hostname: string, d: Domain, w: string, s: State,
                           es: seq<Event>, o: nat)
    returns (more: seq<Event>)
    requires ResolveBind(start.service, start.zone, worker, hostname) == Some(d) && ValidService(start.service) &&
             Usable(worker)
    requires OnBindTrack(start, d, w, hostname, s) && Runs(s, es) &&
             forall i | 0 <= i < |es| :: IsBindStep(es[i], w, d, hostname)
    requires o !in After(s, es).ops
    ensures var n := After(s, es);
            && Runs(n, more) && (forall i | 0 <= i < |more| :: IsBindStep(more[i], w, d, hostname))
            && After(n, more) == State(n.services[w := Bound(start, d, w).service], Bound(start, d, w).zone, n.ops)
  {
    hide Runs, After, ResolveBind, ValidService, Stage, IsBindStep, BindPoint, Usable;
    BindIntentSurvives(start, worker, hostname, d, w, s, es);
    var n := After(s, es);
    var p := Point(n.services[w], n.zone);
    BindPointIsValid(start, worker, hostname, w, d, p);
    assert Stage(p.service, d).Some? by { Stageable(p, worker, hostname, d); }
    more := BindCompletes(n, worker, hostname, d, w, o);
    SameTarget(start, d, w, p);
  }

  lemma Stageable(p: Point, worker: Worker, hostname: string, d: Domain)
    requires ResolveBind(p.service, p.zone, worker, hostname) == Some(d) && ValidService(p.service) && Usable(worker)
    ensures Stage(p.service, d).Some?
  {
    hide Stage, ResolveBind, ValidService;
    ResolvedIsStageable(p.service, p.zone, worker, hostname, d);
  }

  /** An unbind that is let run while the record is the Worker's or absent. */
  lemma UnbindCompletes(s: State, d: Domain, w: string, o: nat) returns (es: seq<Event>)
    requires o !in s.ops && w in s.services && ResolveUnbind(s.services[w]) == Some(d) && ValidService(s.services[w])
    requires KeyOf(d) in s.zone ==> Holds(s.zone, d)
    ensures Runs(s, es) && (forall i | 0 <= i < |es| :: IsUnbindStep(es[i], w, d))
    ensures var b := Unbound(Point(s.services[w], s.zone), d);
            After(s, es) == State(s.services[w := b.service], b.zone, s.ops)
  {
    hide Runs, After, Orderly, Canonical, ValidService, Enabled, Step, Clear, ResolveUnbind;
    ClearedIsValid(s.services[w], d);
    var t;
    es, t := Begin(s);
    es, t := DoUnbind(s, es, t, o, w, d);
    if KeyOf(d) in s.zone {
      es, t := DoDelete(s, es, t, o);
    } else {
      assert s.zone - {KeyOf(d)} == s.zone;
    }
    es, t := DoFree(s, es, t, o);
    es, t := DoClear(s, es, t, o);
    assert t.ops == s.ops;
  }

  lemma ClearedIsValid(v: Service, d: Domain)
    requires ValidService(v) && ResolveUnbind(v) == Some(d)
    ensures Clear(v) == Some(v.(domain := None, pending := None, removed := Some(d)))
    ensures ValidService(v.(domain := None, pending := None, removed := Some(d)))
  {
    hide ValidId, ValidHealthPath, ValidHostname, Fits;
    NoDomainFits(v.hostname);
  }

  lemma NoDomainFits(hostname: string)
    ensures Fits(hostname, None)
  {
  }

  lemma UnbindPointIsValid(start: Point, d: Domain, p: Point)
    requires ResolveUnbind(start.service) == Some(d) && ValidService(start.service) && UnbindPoint(start, d, p)
    ensures ValidService(p.service)
  {
    hide ValidService, ResolveUnbind, Clear;
    ClearedIsValid(start.service, d);
  }

  /** After any attempts to unbind `d` that stopped anywhere, a retry completes in the state the first was heading for,
      unless someone has re-pointed the record. */
  lemma UnbindRetryCompletes(start: Point, d: Domain, w: string, s: State, es: seq<Event>, o: nat)
    returns (more: seq<Event>)
    requires ResolveUnbind(start.service) == Some(d) && ValidService(start.service) &&
             (KeyOf(d) in start.zone ==> Holds(start.zone, d))
    requires OnUnbindTrack(start, d, w, s) && Runs(s, es) && forall i | 0 <= i < |es| :: IsUnbindStep(es[i], w, d)
    requires o !in After(s, es).ops
    ensures var n := After(s, es);
            && Runs(n, more) && (forall i | 0 <= i < |more| :: IsUnbindStep(more[i], w, d))
            && After(n, more) == State(n.services[w := Unbound(start, d).service], Unbound(start, d).zone, n.ops)
  {
    hide Runs, After, ResolveUnbind, ValidService, IsUnbindStep, Canonical;
    UnbindIntentSurvives(start, d, w, s, es);
    var n := After(s, es);
    var p := Point(n.services[w], n.zone);
    UnbindPointIsValid(start, d, p);
    more := UnbindCompletes(n, d, w, o);
    SameTarget(start, d, w, p);
  }
}
