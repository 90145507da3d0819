/** Building runs of the domain protocol step by step, with the state each step leads to written out. */
module DomainRuns {
  import opened Common
  import opened WorkloadStore
  import opened Route53
  import opened DomainIntent
  import opened DomainProtocol

  /** One more step of a run. */
  lemma Do(s: State, es: seq<Event>, t: State, e: Event) returns (es': seq<Event>, t': State)
    requires At(s, es, t) && Enabled(t, e)
    ensures es' == es + [e] && t' == Step(t, e) && At(s, es', t')
    ensures Orderly(s, es) && Admitted(t, e) ==> Orderly(s, es')
  {
    hide Step, Enabled;
    Extend(s, es, e);
    es', t' := es + [e], Step(t, e);
    if Orderly(s, es) && Admitted(t, e) {
      hide Admitted;
      ExtendOrderly(s, es, e);
    }
  }

  lemma {:induction false} ExtendOrderly(s: State, es: seq<Event>, e: Event)
    requires Runs(s, es) && Orderly(s, es) && Enabled(After(s, es), e) && Admitted(After(s, es), e)
    ensures Runs(s, es + [e]) && Orderly(s, es + [e])
    decreases |es|
  {
    hide Step, Enabled, Admitted;
    if es == [] {
      assert (es + [e])[1..] == [];
    } else {
      assert (es + [e])[1..] == es[1..] + [e];
      ExtendOrderly(Step(s, es[0]), es[1..], e);
    }
  }

  lemma Begin(s: State) returns (es: seq<Event>, t: State)
    ensures es == [] && t == s && At(s, es, t) && Orderly(s, es)
  {
    es, t := [], s;
  }

  /** A run so far, and the state it has reached. */
  ghost predicate At(s: State, es: seq<Event>, t: State) {
    Runs(s, es) && After(s, es) == t
  }

  // ---- The phases of an operation. ----

  function Ahead(op: Op): Op
    requires op.Staging?
  {
    Staged(op.w, op.d, op.how, op.prior)
  }

  function Checked(op: Op): Op
    requires op.Staged?
  {
    Writing(op.w, op.d, op.how, op.prior)
  }

  function Seen(op: Op): Op
    requires op.Writing?
  {
    if op.prior.Some? then Releasing(op.w, op.d, op.prior.value) else Committing(op.w, op.d)
  }

  function Written(z: Zone, op: Op): Zone {
    z[KeyOf(op.d) := A(op.d.ip, op.d.ttl, Mine(op.w))]
  }

  /** Operations that delete a record: a publish the one under the old key, an unbind its own. */
  predicate Deletes(op: Op) {
    op.Releasing? || op.Deleting?
  }

  function Victim(op: Op): Domain
    requires Deletes(op)
  {
    if op.Releasing? then op.was else op.d
  }

  function Freed(op: Op): Op
    requires Deletes(op)
  {
    if op.Releasing? then Committing(op.w, op.d) else Clearing(op.w, op.d)
  }

  function DeletingStep(op: Op, o: nat): Event
    requires Deletes(op)
  {
    if op.Releasing? then ReleaseStep(o) else DeleteStep(o)
  }

  function FreedStep(op: Op, o: nat): Event
    requires Deletes(op)
  {
    if op.Releasing? then ReleaseSeen(o) else DeleteSeen(o)
  }

  // ---- When a step may be taken, and what it leads to. ----

  lemma MayElsewhere(t: State, k: Key, r: Option<Record>)
    requires ByOthers(r)
    ensures Enabled(t, Elsewhere(k, r)) && Stores(t, Elsewhere(k, r)).None?
    ensures !Opens(Elsewhere(k, r)) && Admitted(t, Elsewhere(k, r))
    ensures Step(t, Elsewhere(k, r)) ==
            t.(zone := if r.None? then t.zone - {k} else t.zone[k := r.value])
  {
    hide Canonical, ValidService, ValidHostname, Merge;
  }

  lemma DoElsewhere(s: State, es: seq<Event>, t: State, k: Key, r: Option<Record>)
    returns (es': seq<Event>, t': State)
    requires At(s, es, t) && ByOthers(r)
    ensures At(s, es', t') && es' == es + [Elsewhere(k, r)] && (Orderly(s, es) ==> Orderly(s, es'))
    ensures t' == t.(zone := if r.None? then t.zone - {k} else t.zone[k := r.value])
  {
    hide Runs, After, Orderly, Enabled, Step, Admitted, Stores;
    MayElsewhere(t, k, r);
    es', t' := Do(s, es, t, Elsewhere(k, r));
  }

  lemma MayBind(t: State, o: nat, w: string, d: Domain, worker: Worker, hostname: string)
    requires o !in t.ops && w in t.services && ResolveBind(t.services[w], t.zone, worker, hostname) == Some(d)
    ensures Enabled(t, BindBegin(o, w, d, worker, hostname)) && Stores(t, BindBegin(o, w, d, worker, hostname)).None?
    ensures (forall p | p in t.ops :: GetAlong(t.ops[p], Staging(w, d, Publishing, None))) ==>
              Admitted(t, BindBegin(o, w, d, worker, hostname))
    ensures Step(t, BindBegin(o, w, d, worker, hostname)) ==
            t.(ops := t.ops[o := Staging(w, d, Binding(hostname), None)])
  {
    hide Canonical, ValidService, ValidHostname, Merge;
  }

  lemma DoBind(s: State, es: seq<Event>, t: State, o: nat, w: string, d: Domain, worker: Worker, hostname: string)
    returns (es': seq<Event>, t': State)
    requires At(s, es, t) && o !in t.ops && w in t.services &&
             ResolveBind(t.services[w], t.zone, worker, hostname) == Some(d)
    ensures At(s, es', t') && es' == es + [BindBegin(o, w, d, worker, hostname)] &&
            (Orderly(s, es) && t.ops == map[] ==> Orderly(s, es'))
    ensures t' == t.(ops := t.ops[o := Staging(w, d, Binding(hostname), None)])
  {
    hide Runs, After, Orderly, Enabled, Step, Admitted, Stores;
    MayBind(t, o, w, d, worker, hostname);
    es', t' := Do(s, es, t, BindBegin(o, w, d, worker, hostname));
  }

  lemma MayPublish(t: State, o: nat, w: string, d: Domain)
    requires o !in t.ops && w in t.services
    ensures Enabled(t, PublishBegin(o, w, d)) && Stores(t, PublishBegin(o, w, d)).None?
    ensures (forall p | p in t.ops :: GetAlong(t.ops[p], Staging(w, d, Publishing, None))) ==>
              Admitted(t, PublishBegin(o, w, d))
    ensures Step(t, PublishBegin(o, w, d)) ==
            t.(ops := t.ops[o := Staging(w, d, Publishing, OldKey(t.services[w], d))])
  {
    hide Canonical, ValidService, ValidHostname, Merge;
  }

  lemma DoPublish(s: State, es: seq<Event>, t: State, o: nat, w: string, d: Domain)
    returns (es': seq<Event>, t': State)
    requires At(s, es, t) && o !in t.ops && w in t.services
    ensures At(s, es', t') && es' == es + [PublishBegin(o, w, d)] &&
            (Orderly(s, es) && t.ops == map[] ==> Orderly(s, es'))
    ensures t' == t.(ops := t.ops[o := Staging(w, d, Publishing, OldKey(t.services[w], d))])
  {
    hide Runs, After, Orderly, Enabled, Step, Admitted, Stores;
    MayPublish(t, o, w, d);
    es', t' := Do(s, es, t, PublishBegin(o, w, d));
  }

  lemma MayUnbind(t: State, o: nat, w: string, d: Domain)
    requires o !in t.ops && w in t.services && ResolveUnbind(t.services[w]) == Some(d)
    ensures Enabled(t, UnbindBegin(o, w, d)) && Stores(t, UnbindBegin(o, w, d)).None?
    ensures (forall p | p in t.ops :: GetAlong(t.ops[p], Deleting(w, d))) ==> Admitted(t, UnbindBegin(o, w, d))
    ensures Step(t, UnbindBegin(o, w, d)) ==
            t.(ops := t.ops[o := Deleting(w, d)])
  {
    hide Canonical, ValidService, ValidHostname, Merge;
  }

  lemma DoUnbind(s: State, es: seq<Event>, t: State, o: nat, w: string, d: Domain)
    returns (es': seq<Event>, t': State)
    requires At(s, es, t) && o !in t.ops && w in t.services && ResolveUnbind(t.services[w]) == Some(d)
    ensures At(s, es', t') && es' == es + [UnbindBegin(o, w, d)] &&
            (Orderly(s, es) && t.ops == map[] ==> Orderly(s, es'))
    ensures t' == t.(ops := t.ops[o := Deleting(w, d)])
  {
    hide Runs, After, Orderly, Enabled, Step, Admitted, Stores;
    MayUnbind(t, o, w, d);
    es', t' := Do(s, es, t, UnbindBegin(o, w, d));
  }

  lemma MayStage(t: State, o: nat)
    requires Known(t, o) && t.ops[o].Staging? && Stage(t.services[t.ops[o].w], t.ops[o].d).Some?
    ensures Enabled(t, StageStep(o))
    ensures !Opens(StageStep(o)) && Admitted(t, StageStep(o))
    ensures Step(t, StageStep(o)) ==
            var op := t.ops[o];
            State(t.services[op.w := t.services[op.w].(pending := Some(op.d))], t.zone, t.ops[o := Ahead(op)])
  {
    hide Canonical, ValidService, ValidHostname, Merge;
  }

  lemma DoStage(s: State, es: seq<Event>, t: State, o: nat)
    returns (es': seq<Event>, t': State)
    requires At(s, es, t) && Known(t, o) && t.ops[o].Staging? && Stage(t.services[t.ops[o].w], t.ops[o].d).Some?
    ensures At(s, es', t') && es' == es + [StageStep(o)] && (Orderly(s, es) ==> Orderly(s, es'))
    ensures t' == var op := t.ops[o];
            State(t.services[op.w := t.services[op.w].(pending := Some(op.d))], t.zone, t.ops[o := Ahead(op)])
  {
    hide Runs, After, Orderly, Enabled, Step, Admitted, Stores;
    MayStage(t, o);
    es', t' := Do(s, es, t, StageStep(o));
  }

  lemma MayCheck(t: State, o: nat, worker: Worker)
    requires o in t.ops && MayWrite(t, t.ops[o], worker)
    ensures Enabled(t, CheckStep(o, worker)) && Stores(t, CheckStep(o, worker)).None?
    ensures !Opens(CheckStep(o, worker)) && Admitted(t, CheckStep(o, worker))
    ensures Step(t, CheckStep(o, worker)) ==
            t.(ops := t.ops[o := Checked(t.ops[o])])
  {
    hide Canonical, ValidService, ValidHostname, Merge;
  }

  lemma DoCheck(s: State, es: seq<Event>, t: State, o: nat, worker: Worker)
    returns (es': seq<Event>, t': State)
    requires At(s, es, t) && o in t.ops && MayWrite(t, t.ops[o], worker)
    ensures At(s, es', t') && es' == es + [CheckStep(o, worker)] && (Orderly(s, es) ==> Orderly(s, es'))
    ensures t' == t.(ops := t.ops[o := Checked(t.ops[o])])
  {
    hide Runs, After, Orderly, Enabled, Step, Admitted, Stores;
    MayCheck(t, o, worker);
    es', t' := Do(s, es, t, CheckStep(o, worker));
  }

  lemma MayUpsert(t: State, o: nat)
    requires o in t.ops && (t.ops[o].Writing? || t.ops[o].Late?)
    ensures Enabled(t, UpsertStep(o)) && Stores(t, UpsertStep(o)).None?
    ensures !Opens(UpsertStep(o)) && Admitted(t, UpsertStep(o))
    ensures Step(t, UpsertStep(o)) ==
            t.(zone := Written(t.zone, t.ops[o]))
  {
    hide Canonical, ValidService, ValidHostname, Merge;
  }

  lemma DoUpsert(s: State, es: seq<Event>, t: State, o: nat)
    returns (es': seq<Event>, t': State)
    requires At(s, es, t) && o in t.ops && (t.ops[o].Writing? || t.ops[o].Late?)
    ensures At(s, es', t') && es' == es + [UpsertStep(o)] && (Orderly(s, es) ==> Orderly(s, es'))
    ensures t' == t.(zone := Written(t.zone, t.ops[o]))
  {
    hide Runs, After, Orderly, Enabled, Step, Admitted, Stores;
    MayUpsert(t, o);
    es', t' := Do(s, es, t, UpsertStep(o));
  }

  lemma MaySee(t: State, o: nat)
    requires Known(t, o) && t.ops[o].Writing? && Holds(t.zone, t.ops[o].d)
    ensures Enabled(t, UpsertSeen(o)) && Stores(t, UpsertSeen(o)).None?
    ensures !Opens(UpsertSeen(o)) && Admitted(t, UpsertSeen(o))
    ensures Step(t, UpsertSeen(o)) ==
            t.(ops := t.ops[o := Seen(t.ops[o])])
  {
    hide Canonical, ValidService, ValidHostname, Merge;
  }

  lemma DoSee(s: State, es: seq<Event>, t: State, o: nat)
    returns (es': seq<Event>, t': State)
    requires At(s, es, t) && Known(t, o) && t.ops[o].Writing? && Holds(t.zone, t.ops[o].d)
    ensures At(s, es', t') && es' == es + [UpsertSeen(o)] && (Orderly(s, es) ==> Orderly(s, es'))
    ensures t' == t.(ops := t.ops[o := Seen(t.ops[o])])
  {
    hide Runs, After, Orderly, Enabled, Step, Admitted, Stores;
    MaySee(t, o);
    es', t' := Do(s, es, t, UpsertSeen(o));
  }

  lemma MayDelete(t: State, o: nat)
    requires Known(t, o) && Deletes(t.ops[o]) && Holds(t.zone, Victim(t.ops[o]))
    ensures Enabled(t, DeletingStep(t.ops[o], o)) && Stores(t, DeletingStep(t.ops[o], o)).None?
    ensures !Opens(DeletingStep(t.ops[o], o)) && Admitted(t, DeletingStep(t.ops[o], o))
    ensures Step(t, DeletingStep(t.ops[o], o)) ==
            t.(zone := t.zone - {KeyOf(Victim(t.ops[o]))})
  {
    hide Canonical, ValidService, ValidHostname, Merge;
  }

  lemma DoDelete(s: State, es: seq<Event>, t: State, o: nat)
    returns (es': seq<Event>, t': State)
    requires At(s, es, t) && Known(t, o) && Deletes(t.ops[o]) && Holds(t.zone, Victim(t.ops[o]))
    ensures At(s, es', t') && es' == es + [DeletingStep(t.ops[o], o)] && (Orderly(s, es) ==> Orderly(s, es'))
    ensures t' == t.(zone := t.zone - {KeyOf(Victim(t.ops[o]))})
  {
    hide Runs, After, Orderly, Enabled, Step, Admitted, Stores;
    MayDelete(t, o);
    es', t' := Do(s, es, t, DeletingStep(t.ops[o], o));
  }

  lemma MayFree(t: State, o: nat)
    requires Known(t, o) && Deletes(t.ops[o]) && KeyOf(Victim(t.ops[o])) !in t.zone
    ensures Enabled(t, FreedStep(t.ops[o], o)) && Stores(t, FreedStep(t.ops[o], o)).None?
    ensures !Opens(FreedStep(t.ops[o], o)) && Admitted(t, FreedStep(t.ops[o], o))
    ensures Step(t, FreedStep(t.ops[o], o)) ==
            t.(ops := t.ops[o := Freed(t.ops[o])])
  {
    hide Canonical, ValidService, ValidHostname, Merge;
  }

  lemma DoFree(s: State, es: seq<Event>, t: State, o: nat)
    returns (es': seq<Event>, t': State)
    requires At(s, es, t) && Known(t, o) && Deletes(t.ops[o]) && KeyOf(Victim(t.ops[o])) !in t.zone
    ensures At(s, es', t') && es' == es + [FreedStep(t.ops[o], o)] && (Orderly(s, es) ==> Orderly(s, es'))
    ensures t' == t.(ops := t.ops[o := Freed(t.ops[o])])
  {
    hide Runs, After, Orderly, Enabled, Step, Admitted, Stores;
    MayFree(t, o);
    es', t' := Do(s, es, t, FreedStep(t.ops[o], o));
  }

  lemma MayCommit(t: State, o: nat)
    requires Known(t, o) && t.ops[o].Committing? && Commit(t.services[t.ops[o].w]).Some?
    ensures Enabled(t, CommitStep(o))
    ensures !Opens(CommitStep(o)) && Admitted(t, CommitStep(o))
    ensures Step(t, CommitStep(o)) ==
            State(t.services[t.ops[o].w := Commit(t.services[t.ops[o].w]).value], t.zone, t.ops - {o})
  {
    hide Canonical, ValidService, ValidHostname, Merge;
  }

  lemma DoCommit(s: State, es: seq<Event>, t: State, o: nat)
    returns (es': seq<Event>, t': State)
    requires At(s, es, t) && Known(t, o) && t.ops[o].Committing? && Commit(t.services[t.ops[o].w]).Some?
    ensures At(s, es', t') && es' == es + [CommitStep(o)] && (Orderly(s, es) ==> Orderly(s, es'))
    ensures t' == State(t.services[t.ops[o].w := Commit(t.services[t.ops[o].w]).value], t.zone, t.ops - {o})
  {
    hide Runs, After, Orderly, Enabled, Step, Admitted, Stores;
    MayCommit(t, o);
    es', t' := Do(s, es, t, CommitStep(o));
  }

  lemma MayClear(t: State, o: nat)
    requires Known(t, o) && t.ops[o].Clearing? && Clear(t.services[t.ops[o].w]).Some?
    ensures Enabled(t, ClearStep(o))
    ensures !Opens(ClearStep(o)) && Admitted(t, ClearStep(o))
    ensures Step(t, ClearStep(o)) ==
            State(t.services[t.ops[o].w := Clear(t.services[t.ops[o].w]).value], t.zone, t.ops - {o})
  {
    hide Canonical, ValidService, ValidHostname, Merge;
  }

  lemma DoClear(s: State, es: seq<Event>, t: State, o: nat)
    returns (es': seq<Event>, t': State)
    requires At(s, es, t) && Known(t, o) && t.ops[o].Clearing? && Clear(t.services[t.ops[o].w]).Some?
    ensures At(s, es', t') && es' == es + [ClearStep(o)] && (Orderly(s, es) ==> Orderly(s, es'))
    ensures t' == State(t.services[t.ops[o].w := Clear(t.services[t.ops[o].w]).value], t.zone, t.ops - {o})
  {
    hide Runs, After, Orderly, Enabled, Step, Admitted, Stores;
    MayClear(t, o);
    es', t' := Do(s, es, t, ClearStep(o));
  }

  lemma MayCrash(t: State, o: nat)
    requires o in t.ops && t.ops[o].Writing?
    ensures Enabled(t, Crash(o)) && Stores(t, Crash(o)).None?
    ensures !Opens(Crash(o)) && Admitted(t, Crash(o))
    ensures Step(t, Crash(o)) ==
            t.(ops := t.ops[o := Late(t.ops[o].w, t.ops[o].d)])
  {
    hide Canonical, ValidService, ValidHostname, Merge;
  }

  lemma DoCrash(s: State, es: seq<Event>, t: State, o: nat)
    returns (es': seq<Event>, t': State)
    requires At(s, es, t) && o in t.ops && t.ops[o].Writing?
    ensures At(s, es', t') && es' == es + [Crash(o)] && (Orderly(s, es) ==> Orderly(s, es'))
    ensures t' == t.(ops := t.ops[o := Late(t.ops[o].w, t.ops[o].d)])
  {
    hide Runs, After, Orderly, Enabled, Step, Admitted, Stores;
    MayCrash(t, o);
    es', t' := Do(s, es, t, Crash(o));
  }

  lemma MayAbandon(t: State, o: nat)
    requires o in t.ops
    ensures Enabled(t, Abandon(o)) && Stores(t, Abandon(o)).None?
    ensures !Opens(Abandon(o)) && Admitted(t, Abandon(o))
    ensures Step(t, Abandon(o)) ==
            t.(ops := t.ops - {o})
  {
    hide Canonical, ValidService, ValidHostname, Merge;
  }

  lemma DoAbandon(s: State, es: seq<Event>, t: State, o: nat)
    returns (es': seq<Event>, t': State)
    requires At(s, es, t) && o in t.ops
    ensures At(s, es', t') && es' == es + [Abandon(o)] && (Orderly(s, es) ==> Orderly(s, es'))
    ensures t' == t.(ops := t.ops - {o})
  {
    hide Runs, After, Orderly, Enabled, Step, Admitted, Stores;
    MayAbandon(t, o);
    es', t' := Do(s, es, t, Abandon(o));
  }
}
