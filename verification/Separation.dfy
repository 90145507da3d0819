/** Keeping the ports and host names of one Worker's workloads apart: admissions
    (cmd/dirextalk-agent/core_cloud_worker_ssh_executor.go, workerSupportsService), also racing ones, and binds, which
    give a workload a host name without looking at any other (core_cloud_worker_domain_intrinsic.go). */
module Separation {
  import opened Common
  import opened WorkloadStore
  import opened Route53
  import opened DomainIntent
  import opened StoredView

  ghost predicate ApartFrom(services: seq<Service>, v: Service) {
    forall i | 0 <= i < |services| && services[i].workload != v.workload ::
      Apart(services[i], v) && Apart(v, services[i])
  }

  /** Writing a service keeps workloads apart exactly when it is apart from every other. */
  lemma PutSeparate(services: seq<Service>, v: Service)
    requires Separate(services)
    ensures Separate(Put(services, v)) <==> ApartFrom(services, v)
  {
    hide Answers, IndexOf;
    var i := IndexOf(services, v.workload);
    IndexOfFirst(services, v.workload);
    var n := Put(services, v);
    if Separate(n) {
      var at := if i >= 0 then i else |services|;
      assert n[at] == v;
      forall j | 0 <= j < |services| && services[j].workload != v.workload
        ensures Apart(services[j], v) && Apart(v, services[j])
      {
        assert n[j] == services[j];
      }
    } else {
      assert i >= 0 ==> forall j | 0 <= j < |services| && j != i :: services[j].workload != v.workload;
      assert forall j | 0 <= j < |n| :: n[j] == v || (j < |services| && n[j] == services[j]);
    }
  }

  // ---- Racing admissions. ----

  /** The service a declaration leaves stored. */
  function Landed(services: seq<Service>, s: Service): Service
    requires PutIn(services, s).Done?
  {
    var i := IndexOf(services, s.workload);
    if i < 0 then s else Merge(services[i], s).value
  }

  lemma PutInIsPut(services: seq<Service>, s: Service)
    requires PutIn(services, s).Done?
    ensures Landed(services, s).workload == s.workload &&
            PutIn(services, s).services == Put(services, Landed(services, s))
  {
    hide ValidService, Canonical;
  }

  /** What an admitted request makes its workload answer to. */
  lemma LandedAnswers(services: seq<Service>, a: Arrival)
    requires ValidSpec(a.spec) && Admits(services, a.spec) && PutIn(services, Declared(a.spec, a.task)).Done?
    ensures var m := Landed(services, Declared(a.spec, a.task));
            var i := IndexOf(services, a.spec.workload);
            && m.port == a.spec.port
            && Answers(m) == if a.spec.hostname != "" then Canonical(a.spec.hostname)
                 else if i >= 0 then Answers(services[i]) else ""
  {
    hide Canonical, ValidSpec, ValidService;
    DeclaredHostname(a.spec);
    EmptyHostname();
    var i := IndexOf(services, a.spec.workload);
    if i >= 0 {
      assert Compatible(services[i], a.spec);
    }
  }

  /** Two requests for different workloads, new or stored, that were both admitted before either was written keep
      workloads apart exactly when they ask for different ports and not for the same host name. */
  lemma RacingAdmissionsExactly(services: seq<Service>, a: Arrival, b: Arrival)
    requires Separate(services) && ValidSpec(a.spec) && ValidSpec(b.spec) && a.spec.workload != b.spec.workload
    requires Admits(services, a.spec) && Admits(services, b.spec)
    requires PutIn(services, Declared(a.spec, a.task)).Done? && PutIn(services, Declared(b.spec, b.task)).Done?
    requires PutIn(PutIn(services, Declared(a.spec, a.task)).services, Declared(b.spec, b.task)).Done?
    ensures Separate(PutIn(PutIn(services, Declared(a.spec, a.task)).services, Declared(b.spec, b.task)).services) <==>
            a.spec.port != b.spec.port &&
            (a.spec.hostname != "" ==> Canonical(a.spec.hostname) != Canonical(b.spec.hostname))
  {
    hide Canonical, ValidSpec, Compatible, Answers, PutIn, Separate, Admits, Apart, Landed;
    var c, d := Declared(a.spec, a.task), Declared(b.spec, b.task);
    var m, n := Landed(services, c), Landed(services, d);
    AdmittedKeepsSeparate(services, a.spec, a.task);
    AdmittedKeepsSeparate(services, b.spec, b.task);
    PutInIsPut(services, c);
    PutInIsPut(services, d);
    PutSeparate(services, m);
    PutSeparate(services, n);
    var first := Put(services, m);
    SecondLands(services, m, d);
    PutInIsPut(first, d);
    PutSeparate(first, n);
    OthersApart(services, m, n);
    RivalsApart(services, a, b);
  }

  /** The second write does not see the first. */
  lemma SecondLands(services: seq<Service>, m: Service, d: Service)
    requires m.workload != d.workload && PutIn(services, d).Done? && PutIn(Put(services, m), d).Done?
    ensures Landed(Put(services, m), d) == Landed(services, d)
  {
    hide ValidService, Canonical, Merge;
    ViewAt(services, d.workload);
    ViewAt(Put(services, m), d.workload);
    PutViewed(services, m);
  }

  lemma OthersApart(services: seq<Service>, m: Service, n: Service)
    requires ApartFrom(services, n) && m.workload != n.workload
    ensures ApartFrom(Put(services, m), n) <==> Apart(m, n) && Apart(n, m)
  {
    hide Apart;
    var first := Put(services, m);
    var i := IndexOf(services, m.workload);
    assert forall j | 0 <= j < |first| :: first[j] == m || (j < |services| && first[j] == services[j]);
    assert first[if i >= 0 then i else |services|] == m;
  }

  lemma RivalsApart(services: seq<Service>, a: Arrival, b: Arrival)
    requires Separate(services) && ValidSpec(a.spec) && ValidSpec(b.spec) && a.spec.workload != b.spec.workload
    requires Admits(services, a.spec) && Admits(services, b.spec)
    requires PutIn(services, Declared(a.spec, a.task)).Done? && PutIn(services, Declared(b.spec, b.task)).Done?
    ensures var m, n := Landed(services, Declared(a.spec, a.task)), Landed(services, Declared(b.spec, b.task));
            Apart(m, n) && Apart(n, m) <==>
            a.spec.port != b.spec.port &&
            (a.spec.hostname != "" ==> Canonical(a.spec.hostname) != Canonical(b.spec.hostname))
  {
    hide Canonical, ValidSpec, Answers, PutIn, Landed;
    LandedAnswers(services, a);
    LandedAnswers(services, b);
    DeclaredHostname(a.spec);
    DeclaredHostname(b.spec);
    PutInIsPut(services, Declared(a.spec, a.task));
    PutInIsPut(services, Declared(b.spec, b.task));
    var i, j := IndexOf(services, a.spec.workload), IndexOf(services, b.spec.workload);
    if i >= 0 {
      assert Compatible(services[i], b.spec);
    }
    if j >= 0 {
      assert Compatible(services[j], a.spec);
    }
    if i >= 0 && j >= 0 {
      assert Apart(services[i], services[j]) && Apart(services[j], services[i]);
    }
  }

  // ---- Admissions, binds and unbinds. ----

  datatype Alteration = Admission(a: Arrival) | Bind(workload: string, d: Domain) | Unbind(workload: string)

  /** A bind or publish as far as the store goes: stage, then commit. */
  function BindIn(services: seq<Service>, w: string, d: Domain): Outcome {
    if StageIn(services, w, d).Done? then CommitIn(StageIn(services, w, d).services, w) else Fail(Identity)
  }

  /** One change, if it goes through. */
  function Take(services: seq<Service>, c: Alteration): seq<Service> {
    match c
    case Admission(a) => Admit(services, a)
    case Bind(w, d) => if BindIn(services, w, d).Done? then BindIn(services, w, d).services else services
    case Unbind(w) => if ClearIn(services, w).Done? then ClearIn(services, w).services else services
  }

  /** No other workload answers to the host name. */
  ghost predicate HostFree(services: seq<Service>, w: string, host: string) {
    host == "" || forall i | 0 <= i < |services| && services[i].workload != w :: Answers(services[i]) != host
  }

  /** What a caller can check before a change: a bind that would go through finds its host name free. */
  ghost predicate Free(services: seq<Service>, c: Alteration) {
    c.Bind? && BindIn(services, c.workload, c.d).Done? ==> HostFree(services, c.workload, Canonical(c.d.hostname))
  }

  lemma BindInIsPut(services: seq<Service>, w: string, d: Domain)
    requires BindIn(services, w, d).Done?
    ensures var i := IndexOf(services, w);
            && 0 <= i && services[i].workload == w && Stage(services[i], d).Some?
            && BindIn(services, w, d).services ==
                 Put(services, services[i].(domain := Some(d), pending := None, removed := None))
  {
    hide ValidService, ValidId, ValidDomain, Canonical;
    var i := IndexOf(services, w);
    var staged := StageIn(services, w, d).services;
    SameIndex(services, i, staged[i], w);
  }

  lemma {:induction false} SameIndex(services: seq<Service>, i: nat, v: Service, w: string)
    requires i < |services| && IndexOf(services, w) == i && v.workload == w
    ensures IndexOf(services[i := v], w) == i
    decreases i
  {
    if i > 0 {
      assert services[i := v][1..] == services[1..][i - 1 := v];
      SameIndex(services[1..], i - 1, v, w);
    }
  }

  /** A workload that was bound answers to the domain's host name. */
  lemma BoundAnswers(v: Service, d: Domain)
    requires Stage(v, d).Some?
    ensures Answers(v.(domain := Some(d), pending := None, removed := None)) == Canonical(d.hostname)
  {
    hide Canonical, ValidId, ValidHealthPath, ValidLabels, ValidDomain;
    EmptyHostname();
    assert v.hostname != "" ==> Canonical(v.hostname) == Canonical(d.hostname);
  }

  /** A bind keeps workloads apart exactly when no other one answers to its host name. */
  lemma BindKeepsSeparateExactly(services: seq<Service>, w: string, d: Domain)
    requires Separate(services) && BindIn(services, w, d).Done?
    ensures Separate(BindIn(services, w, d).services) <==> HostFree(services, w, Canonical(d.hostname))
  {
    hide Canonical, BindIn, Stage;
    BindInIsPut(services, w, d);
    var i := IndexOf(services, w);
    var v := services[i].(domain := Some(d), pending := None, removed := None);
    PutSeparate(services, v);
    BoundAnswers(services[i], d);
    hide Answers;
    assert forall j | 0 <= j < |services| && services[j].workload != w ::
        Apart(services[j], services[i]) && Apart(services[i], services[j]);
  }

  lemma UnbindKeepsSeparate(services: seq<Service>, w: string)
    requires Separate(services) && ClearIn(services, w).Done?
    ensures Separate(ClearIn(services, w).services)
  {
    hide Canonical, ValidService, ValidId;
    var i := IndexOf(services, w);
    var v := Clear(services[i]).value;
    assert ClearIn(services, w).services == Put(services, v);
    PutSeparate(services, v);
    ClearedAnswers(services[i]);
    hide Answers, ClearIn;
    assert forall j | 0 <= j < |services| && services[j].workload != w ::
        Apart(services[j], services[i]) && Apart(services[i], services[j]);
  }

  lemma ClearedAnswers(v: Service)
    requires Clear(v).Some?
    ensures Answers(Clear(v).value) == "" || Answers(Clear(v).value) == Answers(v)
  {
    hide Canonical, ValidService;
  }

  lemma AlterationKeepsSeparateExactly(services: seq<Service>, c: Alteration)
    requires Separate(services) && (c.Admission? ==> ValidSpec(c.a.spec))
    ensures Separate(Take(services, c)) <==> Free(services, c)
  {
    hide Separate, HostFree, ValidSpec, BindIn, ClearIn, Admits, Readable;
    match c
    case Admission(a) =>
      if Admit(services, a) != services {
        AdmittedKeepsSeparate(services, a.spec, a.task);
      }
    case Bind(w, d) =>
      if BindIn(services, w, d).Done? {
        BindKeepsSeparateExactly(services, w, d);
      }
    case Unbind(w) =>
      if ClearIn(services, w).Done? {
        UnbindKeepsSeparate(services, w);
      }
  }

  ghost predicate AlwaysSeparate(services: seq<Service>, cs: seq<Alteration>)
    decreases |cs|
  {
    Separate(services) && (cs == [] || AlwaysSeparate(Take(services, cs[0]), cs[1..]))
  }

  ghost predicate AllFree(services: seq<Service>, cs: seq<Alteration>)
    decreases |cs|
  {
    cs == [] || (Free(services, cs[0]) && AllFree(Take(services, cs[0]), cs[1..]))
  }

  /** Over every sequence of admitted requests, binds and unbinds, ports and host names of different workloads stay
      apart all the time exactly when no bind takes a host name that another workload answers to. */
  lemma {:induction false} AlwaysSeparateExactly(services: seq<Service>, cs: seq<Alteration>)
    requires Separate(services) && forall i | 0 <= i < |cs| && cs[i].Admission? :: ValidSpec(cs[i].a.spec)
    ensures AlwaysSeparate(services, cs) <==> AllFree(services, cs)
    decreases |cs|
  {
    hide Separate, Free, Take, ValidSpec;
    if cs != [] {
      AlterationKeepsSeparateExactly(services, cs[0]);
      if Separate(Take(services, cs[0])) {
        AlwaysSeparateExactly(Take(services, cs[0]), cs[1..]);
      }
    }
  }

  /** Resolving a bind does not check it: where another workload's record already has the value the bind would
      write, the bind resolves, goes through, and two workloads answer to one host name. */
  lemma BindCollides(services: seq<Service>, w: string, j: nat, z: Zone, worker: Worker, hostname: string, d: Domain)
    requires Separate(services) && Readable(services) && Usable(worker) && w in View(services)
    requires View(services)[w].hostname == "" && View(services)[w].domain.None? && View(services)[w].pending.None?
    requires j < |services| && services[j].workload != w && services[j].domain == Some(d) && services[j].hostname == ""
    requires d == Target(worker, hostname) && ValidHostname(hostname) && worker.ip != "" && Holds(z, d)
    ensures ResolveBind(View(services)[w], z, worker, hostname) == Some(d)
    ensures BindIn(services, w, d).Done? && !Separate(BindIn(services, w, d).services)
  {
    hide ResolveBind, View, Separate, ValidService, ValidHostname, Canonical, Readable, Usable, IndexOf, BindIn, Holds;
    ViewAt(services, w);
    var v := services[IndexOf(services, w)];
    ResolvesAnyway(v, z, worker, hostname);
    ReadableAt(services, IndexOf(services, w));
    ResolvedIsStageable(v, z, worker, hostname, d);
    Bindable(services, w, d);
    BindKeepsSeparateExactly(services, w, d);
    HostTaken(services, j, worker, hostname);
  }

  lemma ResolvesAnyway(v: Service, z: Zone, worker: Worker, hostname: string)
    requires v.hostname == "" && v.domain.None? && v.pending.None? && ValidHostname(hostname) && worker.ip != ""
    requires Holds(z, Target(worker, hostname))
    ensures ResolveBind(v, z, worker, hostname) == Some(Target(worker, hostname))
  {
    hide Canonical, ValidHostname;
  }

  lemma ReadableAt(services: seq<Service>, i: nat)
    requires Readable(services) && i < |services|
    ensures ValidService(services[i])
  {
    hide ValidService;
  }

  lemma HostTaken(services: seq<Service>, j: nat, worker: Worker, hostname: string)
    requires j < |services| && services[j].hostname == "" && services[j].domain == Some(Target(worker, hostname)) &&
             ValidHostname(hostname)
    ensures Answers(services[j]) == Canonical(Target(worker, hostname).hostname) != ""
  {
    hide Canonical, ValidLabels;
    EmptyHostname();
    CanonicalIdempotent(hostname);
    ValidIsNotEmpty(hostname);
  }

  lemma Bindable(services: seq<Service>, w: string, d: Domain)
    requires Readable(services) && IndexOf(services, w) >= 0 && ValidDomain(d)
    requires Stage(services[IndexOf(services, w)], d).Some?
    ensures BindIn(services, w, d).Done?
  {
    hide ValidDomain, Canonical, ValidHealthPath, ValidHostname;
    var i := IndexOf(services, w);
    assert ValidId(w) by { assert ValidService(services[i]); }
    hide ValidId, ValidService;
    var staged := StageIn(services, w, d).services;
    SameIndex(services, i, staged[i], w);
    ReplaceKeepsReadable(services, i, staged[i]);
  }
}
