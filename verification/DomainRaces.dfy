/** Why operations that do not get along must not overlap: runs in which each party does what it always does, every
    fence passes, and a record ends up claimed by nobody. */
module DomainRaces {
  import opened Common
  import opened WorkloadStore
  import opened Route53
  import opened DomainIntent
  import opened DomainProtocol
  import opened DomainRuns

  /** The workload has a record under `d` that nothing it has stored claims. */
  predicate Lost(s: State, w: string, d: Domain) {
    && s.ops == map[] && w in s.services && WrittenBy(s.zone, KeyOf(d), w)
    && !(s.services[w].domain.Some? && KeyOf(s.services[w].domain.value) == KeyOf(d) &&
         Matches(s.zone[KeyOf(d)], s.services[w].domain.value))
    && s.services[w].pending.None?
  }

  lemma LostIsNotOwned(s: State, w: string, d: Domain)
    requires Lost(s, w, d)
    ensures !Owned(s.zone, s.services)
  {
    hide Canonical;
  }

  /** `d` is bound and published for `w`, and may be unbound or bound again. */
  ghost predicate Bindable(s: State, w: string, d: Domain, worker: Worker, hostname: string) {
    && s.ops == map[] && Owned(s.zone, s.services)
    && w in s.services && s.services[w].domain == Some(d) && s.services[w].pending.None?
    && Holds(s.zone, d) && ResolveBind(s.services[w], s.zone, worker, hostname) == Some(d)
    && Stage(s.services[w], d).Some? && Clear(s.services[w]).Some?
  }

  lemma NothingLeft(s: State, w: string, d: Domain, worker: Worker, hostname: string)
    requires Bindable(s, w, d, worker, hostname)
    ensures WroteNothing(s.zone - {KeyOf(d)}, w)
  {
    hide Canonical, ResolveBind, Stage, Clear;
    assert forall k | WrittenBy(s.zone - {KeyOf(d)}, k, w) :: WrittenBy(s.zone, k, w);
  }

  /** The start of both races: the unbind has deleted the record and seen it gone, and a bind of the same domain,
      which resolves because the record is absent, has staged its claim. */
  lemma BothUnderWay(s: State, w: string, d: Domain, worker: Worker, hostname: string)
    returns (es: seq<Event>, t: State)
    requires Bindable(s, w, d, worker, hostname)
    ensures At(s, es, t)
    ensures t == State(s.services[w := s.services[w].(pending := Some(d))], s.zone - {KeyOf(d)},
                       map[0 := Clearing(w, d), 1 := Staged(w, d, Binding(hostname), None)])
  {
    hide Runs, After, Orderly, Canonical, ValidService, ValidHostname, Enabled, Step, Owned;
    es, t := Begin(s);
    es, t := DoUnbind(s, es, t, 0, w, d);
    es, t := DoDelete(s, es, t, 0);
    es, t := DoFree(s, es, t, 0);
    es, t := DoBind(s, es, t, 1, w, d, worker, hostname);
    es, t := DoStage(s, es, t, 1);
  }

  /** An unbind that clears while a bind of the same domain is between stage and commit loses the bind's record: the
      bind's fence passes and its upsert writes a record whose claim is gone. When the unbind clears, the workload has
      no record at all. */
  lemma UnbindLosesStagedBind(s: State, w: string, d: Domain, worker: Worker, hostname: string)
    returns (before: seq<Event>, es: seq<Event>)
    requires Bindable(s, w, d, worker, hostname)
    ensures Runs(s, before) && Enabled(After(s, before), ClearStep(0)) && Safe(After(s, before), ClearStep(0))
    ensures before + [ClearStep(0)] <= es && Runs(s, es) && Lost(After(s, es), w, d)
    ensures !Owned(After(s, es).zone, After(s, es).services)
  {
    hide Runs, After, Orderly, Canonical, ValidService, ValidHostname, Enabled, Step, Owned;
    var t;
    es, t := BothUnderWay(s, w, d, worker, hostname);
    before := es;
    MayClear(t, 0);
    NothingLeft(s, w, d, worker, hostname);
    hide WroteNothing;
    es, t := DoClear(s, es, t, 0);
    es, t := DoCheck(s, es, t, 1, worker);
    es, t := DoUpsert(s, es, t, 1);
    es, t := DoAbandon(s, es, t, 1);
    LostIsNotOwned(t, w, d);
  }

  /** Nor is it enough that no bind is between stage and commit when the unbind clears: a bind that began and finished
      while the unbind was under way loses its record too. */
  lemma UnbindLosesFinishedBind(s: State, w: string, d: Domain, worker: Worker, hostname: string)
    returns (before: seq<Event>, es: seq<Event>)
    requires Bindable(s, w, d, worker, hostname)
    ensures Runs(s, before) && After(s, before).ops == map[0 := Clearing(w, d)]
    ensures w in After(s, before).services && After(s, before).services[w].pending.None?
    ensures es == before + [ClearStep(0)] && Runs(s, es) && Lost(After(s, es), w, d)
    ensures !Owned(After(s, es).zone, After(s, es).services)
  {
    hide Runs, After, Orderly, Canonical, ValidService, ValidHostname, Enabled, Step, Owned;
    var t;
    es, t := BothUnderWay(s, w, d, worker, hostname);
    es, t := DoCheck(s, es, t, 1, worker);
    es, t := DoUpsert(s, es, t, 1);
    es, t := DoSee(s, es, t, 1);
    es, t := DoCommit(s, es, t, 1);
    before := es;
    es, t := DoClear(s, es, t, 0);
    LostIsNotOwned(t, w, d);
  }

  /** A write still in flight when its bind ended is such an operation too: a retry and an unbind that follow one
      another leave it nothing to be claimed by when it lands. */
  lemma UnbindLosesLateWrite(s: State, w: string, d: Domain, worker: Worker, hostname: string) returns (es: seq<Event>)
    requires Bindable(s, w, d, worker, hostname)
    ensures Runs(s, es) && Lost(After(s, es), w, d) && !Owned(After(s, es).zone, After(s, es).services)
  {
    hide Runs, After, Orderly, Canonical, ValidService, ValidHostname, Enabled, Step, Owned;
    var t;
    es, t := Begin(s);
    es, t := DoBind(s, es, t, 0, w, d, worker, hostname);
    es, t := DoStage(s, es, t, 0);
    es, t := DoCheck(s, es, t, 0, worker);
    es, t := DoCrash(s, es, t, 0);
    es, t := BindRuns(s, es, t, w, d, worker, hostname);
    es, t := UnbindRuns(s, es, t, w, d);
    es, t := DoUpsert(s, es, t, 0);
    es, t := DoAbandon(s, es, t, 0);
    LostIsNotOwned(t, w, d);
  }

  /** The retry of the bind. */
  lemma BindRuns(s: State, es: seq<Event>, t: State, w: string, d: Domain, worker: Worker, hostname: string)
    returns (es': seq<Event>, t': State)
    requires At(s, es, t) && 1 !in t.ops && w in t.services && Stage(t.services[w], d).Some? && Holds(t.zone, d)
    requires ResolveBind(t.services[w], t.zone, worker, hostname) == Some(d)
    ensures At(s, es', t') && t' ==
            State(t.services[w := t.services[w].(domain := Some(d), pending := None, removed := None)],
                  t.zone[KeyOf(d) := A(d.ip, d.ttl, Mine(w))], t.ops)
  {
    hide Runs, After, Orderly, Canonical, ValidService, ValidHostname, Enabled, Step, Owned;
    es', t' := DoBind(s, es, t, 1, w, d, worker, hostname);
    es', t' := DoStage(s, es', t', 1);
    es', t' := DoCheck(s, es', t', 1, worker);
    es', t' := DoUpsert(s, es', t', 1);
    es', t' := DoSee(s, es', t', 1);
    es', t' := DoCommit(s, es', t', 1);
    assert t'.ops == t.ops;
  }

  /** The unbind. */
  lemma UnbindRuns(s: State, es: seq<Event>, t: State, w: string, d: Domain) returns (es': seq<Event>, t': State)
    requires At(s, es, t) && 2 !in t.ops && w in t.services && Clear(t.services[w]).Some? && Holds(t.zone, d)
    requires t.services[w].domain == Some(d) && t.services[w].pending.None?
    ensures At(s, es', t') && t' == State(t.services[w := Clear(t.services[w]).value], t.zone - {KeyOf(d)}, t.ops)
  {
    hide Runs, After, Orderly, Canonical, ValidService, ValidHostname, Enabled, Step, Owned, Clear;
    es', t' := DoUnbind(s, es, t, 2, w, d);
    es', t' := DoDelete(s, es', t', 2);
    es', t' := DoFree(s, es', t', 2);
    es', t' := DoClear(s, es', t', 2);
    assert t'.ops == t.ops;
  }

  /** `w` has nothing published, and `d` and `e` can be staged for it, `d` also on top of `e` and `e` on top of `d`. */
  ghost predicate Publishable(s: State, w: string, d: Domain, e: Domain) {
    && s.ops == map[] && w in s.services && s.services[w].domain.None? && s.services[w].pending.None?
    && KeyOf(d) !in s.zone && KeyOf(e) !in s.zone
    && ValidService(s.services[w].(pending := Some(d))) && ValidService(s.services[w].(pending := Some(e)))
    && ValidService(s.services[w].(domain := Some(e), pending := Some(d), removed := None))
    && ValidService(s.services[w].(domain := Some(d), pending := Some(e), removed := None))
  }

  /** Publish `o` of `e` stages, writes its record and reads it back. */
  lemma PublishWrites(s: State, es: seq<Event>, t: State, o: nat, w: string, e: Domain)
    returns (es': seq<Event>, t': State)
    requires At(s, es, t) && o in t.ops && w in t.services
    requires t.ops[o] == Staging(w, e, Publishing, None) && Stage(t.services[w], e).Some? && KeyOf(e) !in t.zone
    ensures At(s, es', t')
    ensures t' == State(t.services[w := t.services[w].(pending := Some(e))],
                        t.zone[KeyOf(e) := A(e.ip, e.ttl, Mine(w))], t.ops[o := Committing(w, e)])
  {
    hide Runs, After, Orderly, Canonical, ValidService, ValidHostname, Enabled, Step, Owned;
    es', t' := DoStage(s, es, t, o);
    es', t' := DoCheck(s, es', t', o, Worker("", ""));
    es', t' := DoUpsert(s, es', t', o);
    es', t' := DoSee(s, es', t', o);
  }

  /** And commits. */
  lemma PublishRuns(s: State, es: seq<Event>, t: State, o: nat, w: string, e: Domain)
    returns (es': seq<Event>, t': State)
    requires At(s, es, t) && o in t.ops && w in t.services
    requires t.ops[o] == Staging(w, e, Publishing, None) && Stage(t.services[w], e).Some? && KeyOf(e) !in t.zone
    ensures At(s, es', t')
    ensures t' == State(t.services[w := t.services[w].(domain := Some(e), pending := None, removed := None)],
                        t.zone[KeyOf(e) := A(e.ip, e.ttl, Mine(w))], t.ops - {o})
  {
    hide Runs, After, Orderly, Canonical, ValidService, ValidHostname, Enabled, Step, Owned;
    es', t' := PublishWrites(s, es, t, o, w, e);
    es', t' := DoCommit(s, es', t', o);
  }

  /** Two publishes of one workload under different keys: the one that read the stored service first commits over the
      other's domain and leaves its record behind. */
  lemma PublishLosesPublish(s: State, w: string, d: Domain, e: Domain) returns (es: seq<Event>)
    requires Publishable(s, w, d, e) && KeyOf(d) != KeyOf(e)
    ensures Runs(s, es) && Lost(After(s, es), w, e) && !Owned(After(s, es).zone, After(s, es).services)
  {
    hide Runs, After, Orderly, Canonical, ValidService, ValidHostname, Enabled, Step, Owned;
    var t;
    es, t := Begin(s);
    es, t := DoPublish(s, es, t, 0, w, d);
    es, t := DoPublish(s, es, t, 1, w, e);
    es, t := PublishRuns(s, es, t, 1, w, e);
    es, t := PublishRuns(s, es, t, 0, w, d);
    LostIsNotOwned(t, w, e);
  }

  /** The same under one key with different values: a late write of `d` lands on the record of `e` between its
      read-back and its commit. */
  lemma LateWriteLosesPublish(s: State, w: string, d: Domain, e: Domain) returns (es: seq<Event>)
    requires Publishable(s, w, d, e) && KeyOf(d) == KeyOf(e) && !SameValue(d, e)
    ensures Runs(s, es) && Lost(After(s, es), w, d) && !Owned(After(s, es).zone, After(s, es).services)
  {
    hide Runs, After, Orderly, Canonical, ValidService, ValidHostname, Enabled, Step, Owned;
    var t;
    es, t := Begin(s);
    es, t := DoPublish(s, es, t, 0, w, d);
    es, t := DoPublish(s, es, t, 1, w, d);
    es, t := DoStage(s, es, t, 1);
    es, t := DoCheck(s, es, t, 1, Worker("", ""));
    es, t := PublishRuns(s, es, t, 0, w, d);
    es, t := LateWrite(s, es, t, w, d, e);
    LostIsNotOwned(t, w, d);
  }

  lemma LateWrite(s: State, es: seq<Event>, t: State, w: string, d: Domain, e: Domain)
    returns (es': seq<Event>, t': State)
    requires At(s, es, t) && t.ops == map[1 := Writing(w, d, Publishing, None)] && w in t.services
    requires KeyOf(d) == KeyOf(e) && !SameValue(d, e)
    requires t.services[w].domain == Some(d) && t.services[w].pending.None? && Stage(t.services[w], e).Some?
    ensures At(s, es', t') && Lost(t', w, d)
  {
    hide Runs, After, Orderly, Canonical, ValidService, ValidHostname, Enabled, Step, Owned;
    es', t' := DoElsewhere(s, es, t, KeyOf(d), None);
    es', t' := DoPublish(s, es', t', 2, w, e);
    es', t' := PublishWrites(s, es', t', 2, w, e);
    es', t' := LateLanding(s, es', t', w, d, e);
  }

  lemma LateLanding(s: State, es: seq<Event>, t: State, w: string, d: Domain, e: Domain)
    returns (es': seq<Event>, t': State)
    requires At(s, es, t) && w in t.services && t.services[w].pending == Some(e)
    requires t.ops == map[1 := Writing(w, d, Publishing, None), 2 := Committing(w, e)] && !SameValue(d, e)
    ensures At(s, es', t') && Lost(t', w, d)
  {
    hide Runs, After, Orderly, Canonical, ValidService, ValidHostname, Enabled, Step, Owned;
    es', t' := DoUpsert(s, es, t, 1);
    es', t' := DoCommit(s, es', t', 2);
    es', t' := DoAbandon(s, es', t', 1);
  }

  // ---- Such states exist. ----

  const WORKER := Worker("1", "z")

  function Example(domain: Option<Domain>): Service {
    Service("w", "t", 8080, "/", "", domain, None, None)
  }

  lemma ExampleIsValid(v: Service, d: Domain, e: Domain)
    requires d == Domain("z", "a.b", 300, "1") && e == Domain("z", "c.d", 300, "1")
    requires v.workload == "w" && v.task == "t" && v.port == 8080 && v.health == "/" && v.hostname == ""
    requires v.domain in {None, Some(d), Some(e)} && v.pending in {None, Some(d), Some(e)} &&
             v.removed in {None, Some(d), Some(e)}
    ensures ValidService(v)
  {
    hide ValidId, ValidHealthPath, Canonical, Trim;
    TwoLabels('a', 'b');
    TwoLabels('c', 'd');
    ShortTexts();
  }

  /** A concrete race of an unbind and a bind that loses a record. */
  lemma RaceHappens() returns (s: State, es: seq<Event>, d: Domain)
    ensures Inv(s) && Runs(s, es) && Lost(After(s, es), "w", d) && !Owned(After(s, es).zone, After(s, es).services)
  {
    d := Domain("z", "a.b", 300, "1");
    var e := Domain("z", "c.d", 300, "1");
    var v := Example(Some(d));
    s := State(map["w" := v], map[KeyOf(d) := A("1", 300, Mine("w"))], map[]);
    hide ValidService, Canonical, ValidLabels, Runs, After;
    TwoLabels('a', 'b');
    ExampleIsValid(v, d, e);
    ExampleIsValid(v.(pending := Some(d)), d, e);
    ExampleIsValid(v.(domain := None, removed := Some(d)), d, e);
    assert Target(WORKER, "a.b") == d;
    assert ResolveBind(v, s.zone, WORKER, "a.b") == Some(d);
    QuietHolds(s);
    var before;
    before, es := UnbindLosesStagedBind(s, "w", d, WORKER, "a.b");
  }

  /** A concrete race of two publishes. */
  lemma PublishRaceHappens() returns (s: State, es: seq<Event>, e: Domain)
    ensures Inv(s) && Runs(s, es) && Lost(After(s, es), "w", e) && !Owned(After(s, es).zone, After(s, es).services)
  {
    var d := Domain("z", "a.b", 300, "1");
    e := Domain("z", "c.d", 300, "1");
    var v := Example(None);
    s := State(map["w" := v], map[], map[]);
    hide ValidService, Canonical, Runs, After, Stage, Clear, Lost;
    KeysDiffer();
    QuietHolds(s);
    ExampleIsValid(v.(pending := Some(d)), d, e);
    ExampleIsValid(v.(pending := Some(e)), d, e);
    ExampleIsValid(v.(domain := Some(e), pending := Some(d)), d, e);
    ExampleIsValid(v.(domain := Some(d), pending := Some(e)), d, e);
    es := PublishLosesPublish(s, "w", d, e);
  }

  lemma KeysDiffer()
    ensures KeyOf(Domain("z", "a.b", 300, "1")) != KeyOf(Domain("z", "c.d", 300, "1"))
  {
    hide Canonical, ValidLabels, Trim;
    TwoLabels('a', 'b');
    TwoLabels('c', 'd');
    assert "a.b"[0] != "c.d"[0];
  }
}
