/** The executor's own methods: publish, bind, unbind and destroy over the stored services and the hosted zone
    (cmd/dirextalk-agent/core_cloud_worker_ssh_executor.go, core_cloud_worker_domain_intrinsic.go). The first three are
    runs of the domain protocol, with any steps of other operations and other parties before each of their calls. */
module DomainExecutor {
  import opened Common
  import opened WorkloadStore
  import opened Route53
  import opened DomainIntent
  import opened DomainProtocol
  import opened DomainRuns
  import opened DomainRetry
  import opened StoredView
  import opened Destroy

  /** Some run, an orderly one if `orderly`, leads from `s` to `t`. */
  ghost predicate Reaches(s: State, t: State, orderly: bool) {
    exists es :: At(s, es, t) && (orderly ==> Orderly(s, es))
  }

  lemma ReachSelf(s: State, orderly: bool)
    ensures Reaches(s, s, orderly)
  {
    var es, t := Begin(s);
  }

  lemma ReachStep(s: State, t: State, e: Event, orderly: bool)
    requires Reaches(s, t, orderly) && Enabled(t, e) && (orderly ==> Admitted(t, e))
    ensures Reaches(s, Step(t, e), orderly)
  {
    hide Runs, After, Step, Enabled, Orderly, Admitted;
    var es :| At(s, es, t) && (orderly ==> Orderly(s, es));
    var es', t' := Do(s, es, t, e);
  }

  lemma ReachKeepsClaims(s: State, t: State)
    requires Inv(s) && Reaches(s, t, true)
    ensures Inv(t)
  {
    hide Runs, After, Inv, Orderly;
    var es :| At(s, es, t) && Orderly(s, es);
    RecordsStayClaimed(s, es);
  }

  predicate IsStepOf(e: Event, o: nat) {
    (HasOp(e) || Opens(e)) && e.o == o
  }

  /** Only other parties' changes to the zone. */
  ghost predicate ZoneOnly(es: seq<Event>) {
    forall i | 0 <= i < |es| :: es[i].Elsewhere?
  }

  lemma OthersLeave(s: State, e: Event, o: nat)
    requires Enabled(s, e) && !IsStepOf(e, o)
    ensures o in s.ops <==> o in Step(s, e).ops
    ensures s.services.Keys <= Step(s, e).services.Keys
    ensures o in s.ops ==> Step(s, e).ops[o] == s.ops[o]
    ensures e.Elsewhere? ==> Step(s, e).services == s.services && Step(s, e).ops == s.ops && Stores(s, e).None?
  {
    hide Canonical, ResolveBind, Stage, Commit, Clear, Merge;
  }

  lemma NotOpening(s: State, e: Event)
    requires Enabled(s, e) && !Opens(e)
    ensures Admitted(s, e)
  {
  }

  /** What an operation's fence asks of the stored services and the zone before each call to the provider. */
  predicate FenceHolds(services: seq<Service>, z: Zone, op: Op, observed: Option<Worker>) {
    match op
    case Staged(w, d, Binding(hostname), _) => BindFence(services, z, w, d, hostname, observed)
    case Writing(w, d, Binding(hostname), _) => BindFence(services, z, w, d, hostname, observed)
    case Deleting(w, d) =>
      observed.Some? && Readable(services) && w in View(services) && ResolveUnbind(View(services)[w]) == Some(d)
    case _ => true
  }

  predicate BindFence(services: seq<Service>, z: Zone, w: string, d: Domain, hostname: string,
                      observed: Option<Worker>) {
    && observed.Some? && Readable(services) && w in View(services)
    && ResolveBind(View(services)[w], z, observed.value, hostname) == Some(d)
  }

  lemma StoresForItsKey(s: State, e: Event)
    requires Enabled(s, e) && Stores(s, e).Some? && forall w | w in s.services :: s.services[w].workload == w
    ensures Stores(s, e).value.workload == StoreKey(s, e)
  {
    hide Canonical, ValidService, ResolveBind;
  }

  lemma ViewKeyed(services: seq<Service>)
    ensures forall w | w in View(services) :: View(services)[w].workload == w
  {
    forall w | w in View(services)
      ensures View(services)[w].workload == w
    {
      ViewMember(services, w);
    }
  }

  class SshWorkerExecutor {
    const repo: Repository
    const dns: HostedZone
    var ops: map<nat, Op>   // the operations under way

    constructor (repo: Repository, dns: HostedZone)
      ensures this.repo == repo && this.dns == dns && ops == map[]
    {
      this.repo, this.dns, ops := repo, dns, map[];
    }

    function Now(): State
      reads this, repo, dns
    {
      State(View(repo.services), dns.records, ops)
    }

    /** Another operation or party takes a step. */
    method Apply(e: Event)
      requires Enabled(Now(), e)
      modifies this, repo, dns
      ensures Now() == Step(old(Now()), e)
      ensures Stores(old(Now()), e).None? ==> repo.services == old(repo.services)
    {
      hide Enabled, View, Stores, NextZone, NextOps, StoreKey;
      var s := Now();
      var n := Step(s, e);
      var v := Stores(s, e);
      if v.Some? {
        ViewKeyed(repo.services);
        StoresForItsKey(s, e);
        PutViewed(repo.services, v.value);
        repo.services := Put(repo.services, v.value);
      }
      dns.records := n.zone;
      ops := n.ops;
    }

    /** Other operations and parties act; if things are orderly they begin only what they may. */
    method Others(es: seq<Event>, me: nat, orderly: bool, ghost start: State)
      requires Reaches(start, Now(), orderly)
      modifies this, repo, dns
      ensures Reaches(start, Now(), orderly)
      ensures (me in ops <==> me in old(ops)) && (me in ops ==> ops[me] == old(ops[me]))
      ensures old(View(repo.services)).Keys <= View(repo.services).Keys
      ensures ZoneOnly(es) ==> repo.services == old(repo.services) && ops == old(ops)
      ensures es == [] ==> Now() == old(Now()) && repo.services == old(repo.services)
    {
      hide Reaches, Enabled, Step, Admitted, View, Stores;
      for i := 0 to |es|
        invariant Reaches(start, Now(), orderly)
        invariant (me in ops <==> me in old(ops)) && (me in ops ==> ops[me] == old(ops[me]))
        invariant old(View(repo.services)).Keys <= View(repo.services).Keys
        invariant ZoneOnly(es) ==> repo.services == old(repo.services) && ops == old(ops)
        invariant i == 0 ==> Now() == old(Now()) && repo.services == old(repo.services)
      {
        var e := es[i];
        if Enabled(Now(), e) && !IsStepOf(e, me) && (orderly ==> MayBegin(e)) {
          OthersLeave(Now(), e, me);
          Begins(e);
          ReachStep(start, Now(), e, orderly);
          Apply(e);
        }
      }
    }

    /** Whether `e` may begin now, as far as the operations under way go. */
    predicate MayBegin(e: Event)
      requires Enabled(Now(), e)
      reads this, repo, dns
    {
      Opens(e) ==> forall o | o in ops :: GetAlong(ops[o], NextOps(Now(), e)[e.o])
    }

    lemma Begins(e: Event)
      requires Enabled(Now(), e)
      ensures MayBegin(e) ==> Admitted(Now(), e)
    {
    }

    /** A step of this operation itself. */
    method Take(e: Event, orderly: bool, ghost start: State)
      requires Reaches(start, Now(), orderly) && Enabled(Now(), e) && !Opens(e) && Stores(Now(), e).None?
      modifies this, repo, dns
      ensures Reaches(start, Now(), orderly) && repo.services == old(repo.services)
      ensures Now() == Step(old(Now()), e)
    {
      hide Reaches, Enabled, Step, Admitted, View, Stores;
      NotOpening(Now(), e);
      ReachStep(start, Now(), e, orderly);
      Apply(e);
    }

    /** Others act, then the fence is checked. */
    method Fenced(me: nat, es: seq<Event>, observed: Option<Worker>, orderly: bool, ghost start: State)
      returns (pass: bool)
      requires me in ops && Reaches(start, Now(), orderly)
      modifies this, repo, dns
      ensures Reaches(start, Now(), orderly)
      ensures me in ops && ops[me] == old(ops[me]) && old(View(repo.services)).Keys <= View(repo.services).Keys
      ensures ZoneOnly(es) ==> repo.services == old(repo.services) && ops == old(ops)
      ensures es == [] ==> Now() == old(Now()) && repo.services == old(repo.services)
      ensures pass <==> FenceHolds(repo.services, dns.records, ops[me], observed)
      ensures pass ==> Sees(ops[me], observed)
    {
      hide Reaches, View, FenceHolds, Sees;
      Others(es, me, orderly, start);
      pass := FenceHolds(repo.services, dns.records, ops[me], observed);
      if pass {
        FenceSees(repo.services, dns.records, ops[me], observed);
      }
    }

    /** The read half of a planned upsert: two provider calls, each behind the fence. */
    method Preflight(me: nat, c: Calls, others: nat -> seq<Event>, observed: nat -> Option<Worker>, orderly: bool,
                     ghost start: State)
      returns (ok: bool)
      requires Holding(me) && ops[me].Staged? && Reaches(start, Now(), orderly)
      modifies this, repo, dns
      ensures Reaches(start, Now(), orderly) && Holding(me)
      ensures ops[me] == if ok then Checked(old(ops[me])) else old(ops[me])
      ensures ok ==> Sees(old(ops[me]), observed(0)) && Sees(old(ops[me]), observed(1))
      ensures ZoneOnly(others(0)) && ZoneOnly(others(1)) ==>
                repo.services == old(repo.services) && ops == old(ops)[me := ops[me]]
      ensures others(0) == [] && others(1) == [] ==> dns.records == old(dns.records)
      ensures others(0) == [] && others(1) == [] && c == FINE && observed(0) == observed(1) ==>
                (ok <==> FenceHolds(old(repo.services), old(dns.records), old(ops[me]), observed(0)) &&
                         (KeyOf(old(ops[me].d)) in old(dns.records) ==> Holds(old(dns.records), old(ops[me].d))))
    {
      hide Reaches, View, Canonical, ResolveBind, Enabled, Step, Readable, ValidHostname;
      var op := ops[me];
      if !c.valid {
        return false;
      }
      ok := Fenced(me, others(0), observed(0), orderly, start);
      if !ok || c.verify1 != Verified {
        return false;
      }
      ok := Fenced(me, others(1), observed(1), orderly, start);
      if !ok || !c.read1 || (KeyOf(op.d) in dns.records && !Matches(dns.records[KeyOf(op.d)], op.d)) {
        return false;
      }
      var worker := if observed(1).Some? then observed(1).value else Worker("", "");
      MayCheck(Now(), me, worker);
      Take(CheckStep(me, worker), orderly, start);
    }

    /** The write of a planned upsert, which may be applied without an answer. */
    method Mutate(me: nat, c: Calls, others: nat -> seq<Event>, observed: nat -> Option<Worker>, orderly: bool,
                  ghost start: State)
      returns (ok: bool)
      requires Holding(me) && ops[me].Writing? && Reaches(start, Now(), orderly)
      modifies this, repo, dns
      ensures Reaches(start, Now(), orderly) && Holding(me) && ops[me] == old(ops[me])
      ensures ok ==> Sees(old(ops[me]), observed(2)) && Sees(old(ops[me]), observed(3))
      ensures ZoneOnly(others(2)) && ZoneOnly(others(3)) ==> repo.services == old(repo.services) && ops == old(ops)
      ensures others(2) == [] && others(3) == [] && ok ==> dns.records == Written(old(dns.records), old(ops[me]))
      ensures (others(2) == [] && others(3) == [] && observed(3) == observed(2) && c == FINE) ==>
                (ok <==> FenceHolds(old(repo.services), old(dns.records), old(ops[me]), observed(2)))
    {
      hide Reaches, View, Canonical, Enabled, Step, FenceHolds;
      ok := Fenced(me, others(2), observed(2), orderly, start);
      if !ok || c.verify2 != Verified {
        return false;
      }
      ok := Fenced(me, others(3), observed(3), orderly, start);
      if !ok {
        return false;
      }
      if !c.mutate.Refused? {
        MayUpsert(Now(), me);
        Take(UpsertStep(me), orderly, start);
      }
      ok := c.mutate == Applied;
    }

    /** Its read-back. */
    method ReadBack(me: nat, c: Calls, others: nat -> seq<Event>, observed: nat -> Option<Worker>, orderly: bool,
                    ghost start: State)
      returns (ok: bool)
      requires Holding(me) && ops[me].Writing? && Reaches(start, Now(), orderly)
      modifies this, repo, dns
      ensures Reaches(start, Now(), orderly) && Holding(me)
      ensures ops[me] == if ok then Seen(old(ops[me])) else old(ops[me])
      ensures ok ==> Sees(old(ops[me]), observed(4)) && Sees(old(ops[me]), observed(5))
      ensures ZoneOnly(others(4)) && ZoneOnly(others(5)) ==>
                repo.services == old(repo.services) && ops == old(ops)[me := ops[me]]
      ensures others(4) == [] && others(5) == [] ==> dns.records == old(dns.records)
      ensures (others(4) == [] && others(5) == [] && observed(5) == observed(4) && c == FINE) ==>
                (ok <==> FenceHolds(old(repo.services), old(dns.records), old(ops[me]), observed(4)) &&
                         Holds(old(dns.records), old(ops[me].d)))
    {
      hide Reaches, View, Canonical, Enabled, Step, FenceHolds, Holds;
      ok := Fenced(me, others(4), observed(4), orderly, start);
      if !ok || c.verify3 != Verified {
        return false;
      }
      ok := Fenced(me, others(5), observed(5), orderly, start);
      if !ok || !c.read2 || !Holds(dns.records, ops[me].d) {
        return false;
      }
      MaySee(Now(), me);
      Take(UpsertSeen(me), orderly, start);
    }

    /** The write and its read-back. */
    method WriteThrough(me: nat, c: Calls, others: nat -> seq<Event>, observed: nat -> Option<Worker>, orderly: bool,
                        ghost start: State)
      returns (ok: bool)
      requires Holding(me) && ops[me].Writing? && Reaches(start, Now(), orderly)
      modifies this, repo, dns
      ensures Reaches(start, Now(), orderly) && Holding(me) && ops[me].w == old(ops[me].w)
      ensures ok ==> ops[me] == Seen(old(ops[me])) && forall i | 2 <= i < 6 :: Sees(old(ops[me]), observed(i))
      ensures ZonesOnly(others) ==> repo.services == old(repo.services) && ops == old(ops)[me := ops[me]]
      ensures Alone(others) && ok ==> dns.records == Written(old(dns.records), old(ops[me]))
      ensures Alone(others) && Steady(observed) && c == FINE ==>
                (ok <==> && FenceHolds(old(repo.services), old(dns.records), old(ops[me]), observed(0))
                         && FenceHolds(old(repo.services), Written(old(dns.records), old(ops[me])), old(ops[me]),
                                       observed(0))
                         && Holds(Written(old(dns.records), old(ops[me])), old(ops[me].d)))
    {
      hide Reaches, View, Canonical, FenceHolds, Holds, Sees, Matches, Alone, ZonesOnly, Steady, ZoneOnly, Written;
      AtEachCall(others, observed);
      ok := Mutate(me, c, others, observed, orderly, start);
      if !ok {
        return;
      }
      ok := ReadBack(me, c, others, observed, orderly, start);
    }

    /** `ReconcilePlannedUpsert`, call by call. */
    method Upsert(me: nat, c: Calls, others: nat -> seq<Event>, observed: nat -> Option<Worker>, orderly: bool,
                  ghost start: State)
      returns (ok: bool)
      requires Holding(me) && ops[me].Staged? && Reaches(start, Now(), orderly)
      modifies this, repo, dns
      ensures Reaches(start, Now(), orderly) && Holding(me) && ops[me].w == old(ops[me].w)
      ensures ok ==> ops[me] == Seen(Checked(old(ops[me]))) && forall i | 0 <= i < 6 :: Sees(old(ops[me]), observed(i))
      ensures ZonesOnly(others) ==> repo.services == old(repo.services) && ops == old(ops)[me := ops[me]]
      ensures Alone(others) && ok ==> dns.records == Written(old(dns.records), old(ops[me]))
      ensures Alone(others) && Steady(observed) && c == FINE ==>
                (ok <==> FenceHolds(old(repo.services), old(dns.records), old(ops[me]), observed(0)) &&
                         (KeyOf(old(ops[me].d)) in old(dns.records) ==> Holds(old(dns.records), old(ops[me].d))))
    {
      hide Reaches, View, Canonical, FenceHolds, Holds, Sees, Matches, Alone, ZonesOnly, Steady, ZoneOnly;
      AtEachCall(others, observed);
      ghost var services, zone, op := repo.services, dns.records, ops[me];
      ok := Preflight(me, c, others, observed, orderly, start);
      if !ok {
        return;
      }
      FenceIsShared(services, zone, op, observed(0));
      ok := WriteThrough(me, c, others, observed, orderly, start);
      if ok {
        SeesThroughout(op, observed);
      }
    }

    /** The read half of a planned delete. The record may turn out to be gone already, which ends it. */
    method Lookup(me: nat, c: Calls, others: nat -> seq<Event>, observed: nat -> Option<Worker>, orderly: bool,
                  ghost start: State)
      returns (ok: bool, gone: bool)
      requires Holding(me) && Deletes(ops[me]) && Reaches(start, Now(), orderly)
      modifies this, repo, dns
      ensures Reaches(start, Now(), orderly) && Holding(me)
      ensures (gone ==> ok) && ops[me] == if gone then Freed(old(ops[me])) else old(ops[me])
      ensures ZoneOnly(others(0)) && ZoneOnly(others(1)) ==>
                repo.services == old(repo.services) && ops == old(ops)[me := ops[me]]
      ensures others(0) == [] && others(1) == [] ==> dns.records == old(dns.records)
      ensures others(0) == [] && others(1) == [] && gone ==> KeyOf(Victim(old(ops[me]))) !in dns.records
      ensures others(0) == [] && others(1) == [] && ok && !gone ==> Holds(dns.records, Victim(old(ops[me])))
      ensures (others(0) == [] && others(1) == [] && c == FINE && observed(0) == observed(1)) ==>
                (ok <==> FenceHolds(old(repo.services), old(dns.records), old(ops[me]), observed(0)) &&
                         (KeyOf(Victim(old(ops[me]))) in old(dns.records) ==>
                            Holds(old(dns.records), Victim(old(ops[me])))))
    {
      hide Reaches, View, Canonical, Enabled, Step, FenceHolds;
      gone := false;
      var d := Victim(ops[me]);
      if !c.valid {
        return false, false;
      }
      ok := Fenced(me, others(0), observed(0), orderly, start);
      if !ok || c.verify1 != Verified {
        return false, false;
      }
      ok := Fenced(me, others(1), observed(1), orderly, start);
      if !ok || !c.read1 || (KeyOf(d) in dns.records && !Matches(dns.records[KeyOf(d)], d)) {
        return false, false;
      }
      if KeyOf(d) !in dns.records {
        MayFree(Now(), me);
        Take(FreedStep(ops[me], me), orderly, start);
        gone := true;
      }
    }

    /** The delete itself. The provider deletes exactly the record it is given, or refuses. */
    method Remove(me: nat, c: Calls, others: nat -> seq<Event>, observed: nat -> Option<Worker>, orderly: bool,
                  ghost start: State)
      returns (ok: bool)
      requires Holding(me) && Deletes(ops[me]) && Reaches(start, Now(), orderly)
      modifies this, repo, dns
      ensures Reaches(start, Now(), orderly) && Holding(me) && ops[me] == old(ops[me])
      ensures ZoneOnly(others(2)) && ZoneOnly(others(3)) ==> repo.services == old(repo.services) && ops == old(ops)
      ensures others(2) == [] && others(3) == [] && ok ==>
                dns.records == old(dns.records) - {KeyOf(Victim(old(ops[me])))}
      ensures (others(2) == [] && others(3) == [] && c == FINE && observed(2) == observed(3)) ==>
                (ok <==> FenceHolds(old(repo.services), old(dns.records), old(ops[me]), observed(2)) &&
                         Holds(old(dns.records), Victim(old(ops[me]))))
    {
      hide Reaches, View, Canonical, Enabled, Step, FenceHolds, Holds;
      ok := Fenced(me, others(2), observed(2), orderly, start);
      if !ok || c.verify2 != Verified {
        return false;
      }
      ok := Fenced(me, others(3), observed(3), orderly, start);
      if !ok || c.mutate.Refused? || !Holds(dns.records, Victim(ops[me])) {
        return false;
      }
      MayDelete(Now(), me);
      Take(DeletingStep(ops[me], me), orderly, start);
      ok := c.mutate == Applied;
    }

    method Absent(me: nat, c: Calls, others: nat -> seq<Event>, observed: nat -> Option<Worker>, orderly: bool,
                  ghost start: State)
      returns (ok: bool)
      requires Holding(me) && Deletes(ops[me]) && Reaches(start, Now(), orderly)
      modifies this, repo, dns
      ensures Reaches(start, Now(), orderly) && Holding(me)
      ensures ops[me] == if ok then Freed(old(ops[me])) else old(ops[me])
      ensures ZoneOnly(others(4)) && ZoneOnly(others(5)) ==>
                repo.services == old(repo.services) && ops == old(ops)[me := ops[me]]
      ensures others(4) == [] && others(5) == [] ==> dns.records == old(dns.records)
      ensures (others(4) == [] && others(5) == [] && c == FINE && observed(4) == observed(5)) ==>
                (ok <==> FenceHolds(old(repo.services), old(dns.records), old(ops[me]), observed(4)) &&
                         KeyOf(Victim(old(ops[me]))) !in old(dns.records))
    {
      hide Reaches, View, Canonical, Enabled, Step, FenceHolds;
      ok := Fenced(me, others(4), observed(4), orderly, start);
      if !ok || c.verify3 != Verified {
        return false;
      }
      ok := Fenced(me, others(5), observed(5), orderly, start);
      if !ok || !c.read2 || KeyOf(Victim(ops[me])) in dns.records {
        return false;
      }
      MayFree(Now(), me);
      Take(FreedStep(ops[me], me), orderly, start);
    }

    /** `ReconcilePlannedDelete`, call by call. */
    method Delete(me: nat, c: Calls, others: nat -> seq<Event>, observed: nat -> Option<Worker>, orderly: bool,
                  ghost start: State)
      returns (ok: bool)
      requires Holding(me) && Deletes(ops[me]) && Reaches(start, Now(), orderly)
      modifies this, repo, dns
      ensures Reaches(start, Now(), orderly) && Holding(me) && ops[me].w == old(ops[me].w)
      ensures ok ==> ops[me] == Freed(old(ops[me]))
      ensures ZonesOnly(others) ==> repo.services == old(repo.services) && ops == old(ops)[me := ops[me]]
      ensures Alone(others) && ok ==> dns.records == old(dns.records) - {KeyOf(Victim(old(ops[me])))}
      ensures Alone(others) && Steady(observed) && c == FINE ==>
                (ok <==> FenceHolds(old(repo.services), old(dns.records), old(ops[me]), observed(0)) &&
                         (KeyOf(Victim(old(ops[me]))) in old(dns.records) ==>
                            Holds(old(dns.records), Victim(old(ops[me])))))
    {
      hide Reaches, View, Canonical, FenceHolds, Holds;
      ghost var services, zone, op := repo.services, dns.records, ops[me];
      var gone;
      ok, gone := Lookup(me, c, others, observed, orderly, start);
      if !ok || gone {
        assert KeyOf(Victim(op)) !in zone ==> zone == zone - {KeyOf(Victim(op))};
        return;
      }
      FenceIgnoresZone(services, zone, dns.records - {KeyOf(Victim(op))}, op, observed(0));
      ok := Remove(me, c, others, observed, orderly, start);
      if !ok {
        return;
      }
      ok := Absent(me, c, others, observed, orderly, start);
    }

    /** Others act, then the store writes the claim ahead of the record. */
    method StageClaim(me: nat, es: seq<Event>, orderly: bool, ghost start: State) returns (ok: bool)
      requires Holding(me) && ops[me].Staging? && Reaches(start, Now(), orderly)
      modifies this, repo, dns
      ensures Reaches(start, Now(), orderly) && Holding(me) && ops[me].w == old(ops[me].w)
      ensures ops[me] == if ok then Ahead(old(ops[me])) else old(ops[me])
      ensures ZoneOnly(es) ==> ops == old(ops)[me := ops[me]] &&
                               (ok <==> StageIn(old(repo.services), old(ops[me].w), old(ops[me].d)).Done?)
      ensures ZoneOnly(es) && ok ==>
                repo.services == StageIn(old(repo.services), old(ops[me].w), old(ops[me].d)).services
      ensures ZoneOnly(es) && !ok ==> repo.services == old(repo.services)
      ensures es == [] ==> dns.records == old(dns.records)
    {
      hide Reaches, View, Canonical, StageIn, Enabled, Step, ValidService;
      Others(es, me, orderly, start);
      var op := ops[me];
      ghost var s := Now();
      StoredSteps(repo.services, op.w, op.d);
      var fault := repo.StageDomain(op.w, op.d);
      ok := fault.None?;
      if ok {
        MayStage(s, me);
        ReachStep(start, s, StageStep(me), orderly);
        ops := ops[me := Ahead(op)];
      }
    }

    /** Others act, then the store makes the pending claim the current one; the operation ends either way. */
    method CommitClaim(me: nat, es: seq<Event>, orderly: bool, ghost start: State) returns (ok: bool)
      requires Holding(me) && ops[me].Committing? && Reaches(start, Now(), orderly)
      modifies this, repo, dns
      ensures Reaches(start, Now(), orderly) && me !in ops
      ensures ZoneOnly(es) ==> ops == old(ops) - {me} && (ok <==> CommitIn(old(repo.services), old(ops[me].w)).Done?)
      ensures ZoneOnly(es) ==>
                repo.services ==
                (if ok then CommitIn(old(repo.services), old(ops[me].w)).services else old(repo.services))
      ensures es == [] ==> dns.records == old(dns.records)
    {
      hide Reaches, View, Canonical, CommitIn, Enabled, Step, Commit;
      Others(es, me, orderly, start);
      var op := ops[me];
      ghost var s := Now();
      StoredSteps(repo.services, op.w, op.d);
      var fault := repo.CommitDomain(op.w);
      ok := fault.None?;
      if ok {
        MayCommit(s, me);
        ReachStep(start, s, CommitStep(me), orderly);
      } else {
        MayAbandon(s, me);
        ReachStep(start, s, Abandon(me), orderly);
      }
      ops := ops - {me};
    }

    method ClearClaim(me: nat, es: seq<Event>, orderly: bool, ghost start: State) returns (ok: bool)
      requires Holding(me) && ops[me].Clearing? && Reaches(start, Now(), orderly)
      modifies this, repo, dns
      ensures Reaches(start, Now(), orderly) && me !in ops
      ensures ZoneOnly(es) ==> ops == old(ops) - {me} && (ok <==> ClearIn(old(repo.services), old(ops[me].w)).Done?)
      ensures ZoneOnly(es) ==>
                repo.services == if ok then ClearIn(old(repo.services), old(ops[me].w)).services else old(repo.services)
      ensures es == [] ==> dns.records == old(dns.records)
    {
      hide Reaches, View, Canonical, ClearIn, Enabled, Step, Clear;
      Others(es, me, orderly, start);
      var op := ops[me];
      ghost var s := Now();
      StoredSteps(repo.services, op.w, op.d);
      var fault := repo.ClearDomain(op.w);
      ok := fault.None?;
      if ok {
        MayClear(s, me);
        ReachStep(start, s, ClearStep(me), orderly);
      } else {
        MayAbandon(s, me);
        ReachStep(start, s, Abandon(me), orderly);
      }
      ops := ops - {me};
    }

    method GiveUp(me: nat, orderly: bool, ghost start: State)
      requires me in ops && Reaches(start, Now(), orderly)
      modifies this
      ensures Reaches(start, Now(), orderly) && ops == old(ops) - {me}
    {
      hide Reaches, View, Enabled, Step;
      MayAbandon(Now(), me);
      ReachStep(start, Now(), Abandon(me), orderly);
      ops := ops - {me};
    }

    /** The part of a publish behind the stage: upsert, delete the record under the old key, commit. */
    method Carry(me: nat, others: nat -> nat -> seq<Event>, upsert: Calls, release: Calls, orderly: bool,
                 ghost start: State)
      returns (ok: bool)
      requires Holding(me) && ops[me].Staged? && ops[me].how.Publishing? && Reaches(start, Now(), orderly)
      modifies this, repo, dns
      ensures Reaches(start, Now(), orderly) && me !in ops
      ensures AllZones(others) ==> ops == old(ops) - {me} && (ok ==> CommitIn(old(repo.services), old(ops[me].w)).Done?)
      ensures AllZones(others) ==>
                repo.services ==
                (if ok then CommitIn(old(repo.services), old(ops[me].w)).services else old(repo.services))
      ensures AllAlone(others) && ok ==> dns.records == Carried(old(dns.records), old(ops[me]))
      ensures AllAlone(others) && upsert == FINE && release == FINE ==>
                (ok <==> Carries(old(dns.records), old(ops[me])) && CommitIn(old(repo.services), old(ops[me].w)).Done?)
    {
      hide Reaches, View, Canonical, Holds, CommitIn, FenceHolds;
      ghost var zone, op := dns.records, ops[me];
      NoFence(repo.services, zone, op, None);
      Quietly(others);
      ok := Upsert(me, upsert, others(1), _ => None, orderly, start);
      if !ok {
        GiveUp(me, orderly, start);
        return;
      }
      if ops[me].Releasing? {
        NoFence(repo.services, dns.records, ops[me], None);
        StillHolds(zone, op);
        ok := Delete(me, release, others(2), _ => None, orderly, start);
        if !ok {
          GiveUp(me, orderly, start);
          return;
        }
      }
      ok := CommitClaim(me, others(3)(0), orderly, start);
    }

    /** A publish from its stage to its end. */
    method PublishBegun(me: nat, others: nat -> nat -> seq<Event>, upsert: Calls, release: Calls, orderly: bool,
                        ghost start: State)
      returns (ok: bool)
      requires Holding(me) && ops[me].Staging? && ops[me].how.Publishing? && Reaches(start, Now(), orderly)
      modifies this, repo, dns
      ensures Reaches(start, Now(), orderly) && me !in ops
      ensures AllZones(others) ==> Settles(old(repo.services), repo.services, old(ops[me].w), old(ops[me].d), ok)
      ensures AllAlone(others) && ok ==> dns.records == Carried(old(dns.records), Ahead(old(ops[me])))
      ensures AllAlone(others) && upsert == FINE && release == FINE ==>
                (ok <==> StageIn(old(repo.services), old(ops[me].w), old(ops[me].d)).Done? &&
                         Carries(old(dns.records), Ahead(old(ops[me]))))
    {
      hide Reaches, View, Canonical, StageIn, CommitIn, Carries, Carried;
      ghost var services, w, d := repo.services, ops[me].w, ops[me].d;
      Quietly(others);
      ok := StageClaim(me, others(0)(0), orderly, start);
      if !ok {
        GiveUp(me, orderly, start);
        return;
      }
      if StageIn(services, w, d).Done? {
        StagedThenCommitted(services, w, d);
      }
      ok := Carry(me, others, upsert, release, orderly, start);
    }

    /** The domain part of `publishService`. Whatever others do before each of its calls, it is a run of the protocol
        that ends the operation, and an orderly one keeps every record claimed. If others change only the zone, success
        commits the domain and failure leaves at most the staged claim. If nobody else acts and the provider answers, it
        succeeds exactly if the claim can be staged and neither key was re-pointed. */
    method Publish(me: nat, w: string, d: Domain, others: nat -> nat -> seq<Event>, upsert: Calls, release: Calls,
                   orderly: bool)
      returns (ok: bool)
      requires me !in ops
      requires orderly ==> forall o | o in ops :: GetAlong(ops[o], Staging(w, d, Publishing, None))
      modifies this, repo, dns
      ensures Reaches(old(Now()), Now(), orderly) && me !in ops
      ensures orderly && old(Inv(Now())) ==> Inv(Now())
      ensures AllZones(others) ==> Settles(old(repo.services), repo.services, w, d, ok)
      ensures AllAlone(others) && ok ==>
                dns.records == Carried(old(dns.records), FirstStaged(old(View(repo.services)), w, d))
      ensures AllAlone(others) && upsert == FINE && release == FINE ==>
                (ok <==> StageIn(old(repo.services), w, d).Done? &&
                         Carries(old(dns.records), FirstStaged(old(View(repo.services)), w, d)))
    {
      hide Reaches, View, Canonical, StageIn, Enabled, Step, Inv, Admitted, Carries, Carried, Readable;
      ghost var start := Now();
      ReachSelf(start, orderly);
      UnstoredFails(repo.services, w, d);
      if !Readable(repo.services) {
        return false;
      }
      var index := repo.Find(w);
      ViewAt(repo.services, w);
      if index < 0 {
        return false;
      }
      MayPublish(start, me, w, d);
      ReachStep(start, start, PublishBegin(me, w, d), orderly);
      ops := ops[me := Staging(w, d, Publishing, OldKey(repo.services[index], d))];
      ok := PublishBegun(me, others, upsert, release, orderly, start);
      if orderly && Inv(start) {
        ReachKeepsClaims(start, Now());
      }
    }

    /** A bind from its stage to its end. */
    method BindBegun(me: nat, others: nat -> nat -> seq<Event>, observed: nat -> Option<Worker>, checks: nat -> bool,
                     upsert: Calls,
                     orderly: bool, ghost start: State) returns (ok: bool)
      requires Holding(me) && ops[me].Staging? && ops[me].how.Binding? && ops[me].prior.None? &&
               Reaches(start, Now(), orderly)
      modifies this, repo, dns
      ensures Reaches(start, Now(), orderly) && me !in ops
      ensures AllZones(others) ==> Settles(old(repo.services), repo.services, old(ops[me].w), old(ops[me].d), ok)
      ensures ok ==> checks(0) && checks(1) && forall i | 0 <= i < 6 :: Sees(Ahead(old(ops[me])), observed(i))
      ensures AllAlone(others) && ok ==> dns.records == Written(old(dns.records), old(ops[me]))
      ensures AllAlone(others) && Steady(observed) && upsert == FINE && checks(0) && checks(1) ==>
                (ok <==> StageIn(old(repo.services), old(ops[me].w), old(ops[me].d)).Done? &&
                         StagedFence(old(repo.services), old(dns.records), old(ops[me]), observed(0)) &&
                         (KeyOf(old(ops[me].d)) in old(dns.records) ==> Holds(old(dns.records), old(ops[me].d))))
    {
      hide Reaches, View, Canonical, StageIn, CommitIn, FenceHolds, Holds;
      ghost var services, w, d := repo.services, ops[me].w, ops[me].d;
      Quietly(others);
      ok := StageClaim(me, others(0)(0), orderly, start);
      if ok && StageIn(services, w, d).Done? {
        StagedThenCommitted(services, w, d);
      }
      if !ok || !checks(0) {
        GiveUp(me, orderly, start);
        return false;
      }
      ok := Upsert(me, upsert, others(1), observed, orderly, start);
      if !ok || !checks(1) {
        GiveUp(me, orderly, start);
        return false;
      }
      ok := CommitClaim(me, others(3)(0), orderly, start);
    }

    /** `ApplyRetainedWorkerDomain` for a bind. The intent is resolved again before anything is written and at the fence
        before each of the six calls of the planned upsert; `observed` is what the Worker then shows, `checks` the
        proxy, port and HTTPS steps before and behind it. If nobody else acts, the Worker stays as it is and everyone
        answers, it succeeds exactly if the intent still resolves and can be staged, and ends in the bound state. */
    method Bind(me: nat, w: string, hostname: string, d: Domain, others: nat -> nat -> seq<Event>,
                observed: nat -> Option<Worker>,
                checks: nat -> bool, upsert: Calls, orderly: bool) returns (ok: bool)
      requires me !in ops
      requires orderly ==> forall o | o in ops :: GetAlong(ops[o], Staging(w, d, Publishing, None))
      modifies this, repo, dns
      ensures Reaches(old(Now()), Now(), orderly) && me !in ops
      ensures orderly && old(Inv(Now())) ==> Inv(Now())
      ensures AllZones(others) ==> Settles(old(repo.services), repo.services, w, d, ok)
      ensures ok ==> checks(0) && checks(1)
      ensures ok ==> forall i | 0 <= i < 6 ::
                       observed(i).Some? &&
                       var worker := observed(i).value; d == Domain(worker.zoneId, Canonical(hostname), 300, worker.ip)
      ensures AllAlone(others) && ok ==>
                var worker := observed(0).value;
                dns.records == old(dns.records)[Key(worker.zoneId, Canonical(hostname)) := A(worker.ip, 300, Mine(w))]
      ensures AllAlone(others) && Steady(observed) && upsert == FINE && checks(0) && checks(1) ==>
                (ok <==> BindFence(old(repo.services), old(dns.records), w, d, hostname, observed(0)) &&
                         StageIn(old(repo.services), w, d).Done?)
    {
      hide Reaches, View, Canonical, StageIn, Enabled, Step, Inv, Admitted, ResolveBind, Readable, Holds, FenceHolds;
      ghost var start := Now();
      ReachSelf(start, orderly);
      UnstoredFails(repo.services, w, d);
      if observed(0).None? || !Readable(repo.services) {
        return false;
      }
      var index := repo.Find(w);
      ViewAt(repo.services, w);
      if index < 0 || ResolveBind(repo.services[index], dns.records, observed(0).value, hostname) != Some(d) {
        return false;
      }
      ResolvedRecord(repo.services[index], dns.records, observed(0).value, hostname, d);
      MayBind(start, me, w, d, observed(0).value, hostname);
      ReachStep(start, start, BindBegin(me, w, d, observed(0).value, hostname), orderly);
      ops := ops[me := Staging(w, d, Binding(hostname), None)];
      FenceWhenStaged(repo.services, dns.records, ops[me], observed(0));
      ok := BindBegun(me, others, observed, checks, upsert, orderly, start);
      if orderly && Inv(start) {
        ReachKeepsClaims(start, Now());
      }
    }

    /** An unbind from its delete to its end. */
    method UnbindBegun(me: nat, others: nat -> nat -> seq<Event>, observed: nat -> Option<Worker>, delete: Calls,
                       orderly: bool, ghost start: State) returns (ok: bool)
      requires Holding(me) && ops[me].Deleting? && Reaches(start, Now(), orderly)
      requires ClearIn(repo.services, ops[me].w).Done?
      modifies this, repo, dns
      ensures Reaches(start, Now(), orderly) && me !in ops
      ensures AllZones(others) ==>
                repo.services == if ok then ClearIn(old(repo.services), old(ops[me].w)).services else old(repo.services)
      ensures AllAlone(others) && ok ==> dns.records == old(dns.records) - {KeyOf(old(ops[me].d))}
      ensures AllAlone(others) && Steady(observed) && delete == FINE ==>
                (ok <==> FenceHolds(old(repo.services), old(dns.records), old(ops[me]), observed(0)) &&
                         (KeyOf(old(ops[me].d)) in old(dns.records) ==> Holds(old(dns.records), old(ops[me].d))))
    {
      hide Reaches, View, Canonical, FenceHolds, Holds, ClearIn;
      Quietly(others);
      ok := Delete(me, delete, others(1), observed, orderly, start);
      if !ok {
        GiveUp(me, orderly, start);
        return;
      }
      ok := ClearClaim(me, others(3)(0), orderly, start);
    }

    /** `ApplyRetainedWorkerDomain` for an unbind, fenced in the same way. */
    method Unbind(me: nat, w: string, d: Domain, others: nat -> nat -> seq<Event>, observed: nat -> Option<Worker>,
                  delete: Calls, orderly: bool) returns (ok: bool)
      requires me !in ops
      requires orderly ==> forall o | o in ops :: GetAlong(ops[o], Deleting(w, d))
      modifies this, repo, dns
      ensures Reaches(old(Now()), Now(), orderly) && me !in ops
      ensures orderly && old(Inv(Now())) ==> Inv(Now())
      ensures AllZones(others) && ok ==> w in old(View(repo.services))
      ensures AllZones(others) && ok ==>
                View(repo.services) == old(View(repo.services))[w := Cleared(old(View(repo.services))[w], d)]
      ensures AllZones(others) && !ok ==> repo.services == old(repo.services)
      ensures AllAlone(others) && ok ==> dns.records == old(dns.records) - {KeyOf(d)}
      ensures AllAlone(others) && Steady(observed) && delete == FINE ==>
                (ok <==> FenceHolds(old(repo.services), old(dns.records), Deleting(w, d), observed(0)) &&
                         (KeyOf(d) in old(dns.records) ==> Holds(old(dns.records), d)))
    {
      hide Reaches, View, Canonical, Enabled, Step, Inv, Admitted, Readable, Holds, ClearIn;
      ghost var start := Now();
      ReachSelf(start, orderly);
      if observed(0).None? || !Readable(repo.services) {
        return false;
      }
      var index := repo.Find(w);
      ViewAt(repo.services, w);
      if index < 0 || ResolveUnbind(repo.services[index]) != Some(d) {
        return false;
      }
      MayUnbind(start, me, w, d);
      ReachStep(start, start, UnbindBegin(me, w, d), orderly);
      ops := ops[me := Deleting(w, d)];
      Clears(repo.services, w, d);
      ok := UnbindBegun(me, others, observed, delete, orderly, start);
      if orderly && Inv(start) {
        ReachKeepsClaims(start, Now());
      }
    }

    /** The resource part of a destroy. `compute` says whether the instance is gone and executions are stopped,
        `complete` whether the identity names instance, key pair and security group; without that nothing is cleaned
        up. `removes` says whether the stored file can then be removed. */
    method DestroyWorkerResources(compute: bool, complete: bool, rounds: nat -> Round, removes: bool) returns (ok: bool)
      modifies repo, dns
      ensures var cleans := compute && complete && Readable(old(repo.services));
              && dns.records == (if cleans then CleanAll(old(dns.records), old(repo.services), 0, rounds).zone
                                   else old(dns.records))
              && (ok <==> compute && (!complete ||
                                      (cleans && removes &&
                                       CleanAll(old(dns.records), old(repo.services), 0, rounds).ok)))
              && repo.services == (if ok && complete then [] else old(repo.services))
    {
      hide DeleteDomain, Edited, Readable;
      if !compute {
        return false;
      }
      if !complete {
        return true;
      }
      var services := repo.services;
      if !Readable(services) {
        return false;
      }
      ok := true;
      ghost var spec := CleanAll(dns.records, services, 0, rounds);
      for i := 0 to |services|
        invariant repo.services == services
        invariant spec == var rest := CleanAll(dns.records, services, i, rounds); Cleanup(ok && rest.ok, rest.zone)
      {
        var r := rounds(i);
        dns.Others(r.edits);
        var cleaned := dns.DeleteServiceDomain(services[i], r.reachable, r.cp, r.cc);
        ok := ok && cleaned;
      }
      ok := ok && removes;
      if ok {
        repo.services := [];
      }
    }

    /** The operation is under way on a stored workload. */
    predicate Holding(me: nat)
      reads this, repo
    {
      me in ops && ops[me].w in View(repo.services)
    }
  }

  /** A bind's fence passes only for a Worker that still has the address and zone it resolved to. */
  ghost predicate Sees(op: Op, observed: Option<Worker>) {
    (op.Staged? || op.Writing?) && op.how.Binding? ==>
      observed.Some? &&
      op.d == Domain(observed.value.zoneId, Canonical(op.how.hostname), 300, observed.value.ip)
  }

  lemma FenceSees(services: seq<Service>, z: Zone, op: Op, observed: Option<Worker>)
    requires FenceHolds(services, z, op, observed)
    ensures Sees(op, observed)
  {
    hide Canonical, View, Readable, ResolveBind;
    if (op.Staged? || op.Writing?) && op.how.Binding? {
      ResolvedRecord(View(services)[op.w], z, observed.value, op.how.hostname, op.d);
    }
  }

  lemma SeesThroughout(op: Op, observed: nat -> Option<Worker>)
    requires op.Staged? && Sees(op, observed(0)) && Sees(op, observed(1))
    requires forall i | 2 <= i < 6 :: Sees(Checked(op), observed(i))
    ensures forall i | 0 <= i < 6 :: Sees(op, observed(i))
  {
    forall i | 0 <= i < 6 ensures Sees(op, observed(i)) {
      assert i == 0 || i == 1 || Sees(Checked(op), observed(i));
    }
  }

  lemma FenceIsShared(services: seq<Service>, z: Zone, op: Op, observed: Option<Worker>)
    requires op.Staged?
    ensures FenceHolds(services, z, op, observed) <==> FenceHolds(services, z, Checked(op), observed)
    ensures FenceHolds(services, z, op, observed) ==> FenceHolds(services, Written(z, op), Checked(op), observed)
    ensures Holds(Written(z, op), op.d)
  {
    hide Canonical, ValidHostname, View, Readable;
    if FenceHolds(services, z, op, observed) {
      FenceAfterWrite(services, z, Checked(op), observed);
    }
  }

  /** Nobody else acts. */
  ghost predicate Alone(others: nat -> seq<Event>) {
    forall i :: others(i) == []
  }

  /** Nobody else acts on the stored services. */
  ghost predicate ZonesOnly(others: nat -> seq<Event>) {
    forall i :: ZoneOnly(others(i))
  }

  /** The Worker shows the same each time it is observed. */
  ghost predicate Steady(observed: nat -> Option<Worker>) {
    forall i :: observed(i) == observed(0)
  }

  /** The six calls of an upsert, one by one. */
  lemma AtEachCall(others: nat -> seq<Event>, observed: nat -> Option<Worker>)
    ensures ZonesOnly(others) ==> && ZoneOnly(others(0)) && ZoneOnly(others(1)) && ZoneOnly(others(2))
                                  && ZoneOnly(others(3)) && ZoneOnly(others(4)) && ZoneOnly(others(5))
    ensures Alone(others) ==> && ZonesOnly(others) && others(0) == others(1) == others(2) == []
                              && others(3) == others(4) == others(5) == []
    ensures Steady(observed) ==> && observed(1) == observed(0) && observed(2) == observed(0) &&
                                 observed(3) == observed(0)
                                 && observed(4) == observed(0) && observed(5) == observed(0)
  {
  }

  /** The record a bind wrote does not trouble its own fence. */
  lemma FenceAfterWrite(services: seq<Service>, z: Zone, op: Op, observed: Option<Worker>)
    requires op.Writing? && FenceHolds(services, z, op, observed)
    ensures FenceHolds(services, Written(z, op), op, observed) && Holds(Written(z, op), op.d)
  {
    hide Canonical, ValidHostname, View, Readable;
  }

  lemma FenceIgnoresZone(services: seq<Service>, y: Zone, z: Zone, op: Op, observed: Option<Worker>)
    requires Deletes(op)
    ensures FenceHolds(services, y, op, observed) <==> FenceHolds(services, z, op, observed)
  {
  }

  ghost predicate AllAlone(others: nat -> nat -> seq<Event>) {
    forall p :: Alone(others(p))
  }

  ghost predicate AllZones(others: nat -> nat -> seq<Event>) {
    forall p :: ZonesOnly(others(p))
  }

  lemma Quietly(others: nat -> nat -> seq<Event>)
    ensures AllAlone(others) ==> AllZones(others)
    ensures AllAlone(others) ==> forall p, i :: others(p)(i) == []
    ensures AllZones(others) ==> forall p, i :: ZoneOnly(others(p)(i))
  {
    if AllAlone(others) {
      forall p, i
        ensures others(p)(i) == []
      {
        assert Alone(others(p));
      }
    }
    if AllZones(others) {
      forall p, i
        ensures ZoneOnly(others(p)(i))
      {
        assert ZonesOnly(others(p));
      }
    }
  }

  lemma NoFence(services: seq<Service>, z: Zone, op: Op, observed: Option<Worker>)
    requires ((op.Staged? || op.Writing?) && op.how.Publishing?) || op.Releasing?
    ensures FenceHolds(services, z, op, observed)
  {
  }

  /** A publish can go through: neither its own key nor the old one was re-pointed. */
  predicate Carries(z: Zone, op: Op)
    requires op.Staged?
  {
    && (KeyOf(op.d) in z ==> Holds(z, op.d))
    && (op.prior.Some? && KeyOf(op.prior.value) in Written(z, op) ==> Holds(Written(z, op), op.prior.value))
  }

  function Carried(z: Zone, op: Op): Zone
    requires op.Staged?
  {
    if op.prior.Some? then Written(z, op) - {KeyOf(op.prior.value)} else Written(z, op)
  }

  lemma StillHolds(z: Zone, op: Op)
    requires op.Staged?
    ensures Holds(Written(z, op), op.d)
  {
    hide Canonical;
  }

  function WithDomain(services: map<string, Service>, w: string, d: Domain): map<string, Service> {
    if w in services then services[w := services[w].(domain := Some(d), pending := None, removed := None)] else services
  }

  /** What an operation that others leave alone makes of the stored services: the domain is committed, or nothing is
      changed but the claim that may have been staged. */
  ghost predicate Settles(was: seq<Service>, now: seq<Service>, w: string, d: Domain, ok: bool) {
    if ok then StageIn(was, w, d).Done? && View(now) == WithDomain(View(was), w, d)
    else now == was || (StageIn(was, w, d).Done? && now == StageIn(was, w, d).services)
  }

  /** The publish of `d` for `w` as it stands once its claim is staged. */
  function FirstStaged(services: map<string, Service>, w: string, d: Domain): (op: Op)
    ensures op.Staged?
  {
    Staged(w, d, Publishing, if w in services then OldKey(services[w], d) else None)
  }

  /** A publish alone leaves its own record and takes away the one under the key it moves from, if any; it may do so
      exactly if neither key has another record. */
  lemma PublishedExactly(services: map<string, Service>, z: Zone, w: string, d: Domain)
    requires w in services
    ensures var was, k := services[w].domain, Key(d.zone, Canonical(d.hostname));
            var moves := was.Some? && Key(was.value.zone, Canonical(was.value.hostname)) != k;
            && (Carries(z, FirstStaged(services, w, d)) <==>
                  && (k in z ==> z[k].A? && z[k].ip == d.ip && z[k].ttl == d.ttl)
                  && (moves && KeyOf(was.value) in z ==> Holds(z, was.value)))
            && Carried(z, FirstStaged(services, w, d)) ==
                 (if moves then z - {KeyOf(was.value)} else z)[k := A(d.ip, d.ttl, Mine(w))]
  {
    hide Canonical;
  }

  lemma UnstoredFails(services: seq<Service>, w: string, d: Domain)
    ensures !Readable(services) || IndexOf(services, w) < 0 ==> StageIn(services, w, d).Fail?
  {
  }

  /** Once staged, a claim can be committed. */
  lemma StagedThenCommitted(services: seq<Service>, w: string, d: Domain)
    requires StageIn(services, w, d).Done?
    ensures CommitIn(StageIn(services, w, d).services, w).Done? && w in View(services)
    ensures View(CommitIn(StageIn(services, w, d).services, w).services) == WithDomain(View(services), w, d)
    ensures Readable(StageIn(services, w, d).services) &&
            View(StageIn(services, w, d).services) == View(services)[w := View(services)[w].(pending := Some(d))]
  {
    hide View, CommitIn, StageIn, Stage, Readable, IndexOf, ValidId;
    var staged := StageIn(services, w, d).services;
    StoredSteps(services, w, d);
    DomainStepsKeepReadable(services, w, d);
    StagedService(services, w, d);
    ViewAt(staged, w);
    CommitsStaged(staged, w);
    StoredSteps(staged, w, d);
  }

  lemma StagedService(services: seq<Service>, w: string, d: Domain)
    requires StageIn(services, w, d).Done?
    ensures ValidId(w) && w in View(services)
    ensures Stage(View(services)[w], d) == Some(View(services)[w].(pending := Some(d)))
  {
    hide View, ValidService, ValidId, ValidDomain;
    StoredSteps(services, w, d);
  }

  lemma CommitsStaged(services: seq<Service>, w: string)
    requires ValidId(w) && Readable(services) && IndexOf(services, w) >= 0 &&
             services[IndexOf(services, w)].pending.Some?
    ensures CommitIn(services, w).Done?
  {
    hide ValidService, ValidId;
  }

  function Cleared(s: Service, d: Domain): Service {
    s.(domain := None, pending := None, removed := Some(d))
  }

  /** The bind's fence in the state its own stage leads to. */
  ghost predicate StagedFence(services: seq<Service>, z: Zone, op: Op, observed: Option<Worker>)
    requires op.Staging?
  {
    StageIn(services, op.w, op.d).Done? ==> FenceHolds(StageIn(services, op.w, op.d).services, z, Ahead(op), observed)
  }

  /** An intent that resolves passes the fence once staged, and its key was not re-pointed. */
  lemma FenceWhenStaged(services: seq<Service>, z: Zone, op: Op, observed: Option<Worker>)
    requires op.Staging? && op.how.Binding? && BindFence(services, z, op.w, op.d, op.how.hostname, observed)
    ensures StagedFence(services, z, op, observed) && (KeyOf(op.d) in z ==> Holds(z, op.d))
  {
    hide Canonical, View, StageIn, Readable, ValidHostname;
    if StageIn(services, op.w, op.d).Done? {
      StagedThenCommitted(services, op.w, op.d);
      var v := View(services)[op.w];
      BindIntentIsFixed(Point(v, z), observed.value, op.how.hostname, op.w, op.d, Point(v.(pending := Some(op.d)), z));
    }
  }

  /** What an unbind resolves to can be cleared. */
  lemma Clears(services: seq<Service>, w: string, d: Domain)
    requires Readable(services) && w in View(services) && ResolveUnbind(View(services)[w]) == Some(d)
    ensures ClearIn(services, w).Done? &&
            View(ClearIn(services, w).services) == View(services)[w := Cleared(View(services)[w], d)]
  {
    hide View, ValidService, Canonical;
    ViewAt(services, w);
    var v := services[IndexOf(services, w)];
    ClearedIsValid(v, d);
    StoredId(v);
    hide Clear;
    StoredSteps(services, w, d);
  }

  lemma StoredId(v: Service)
    requires ValidService(v)
    ensures ValidId(v.workload)
  {
    hide Canonical, ValidHostname;
  }
}
