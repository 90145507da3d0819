/** The stored list of services (internal/cloudworker/sshworkload/store.go) as the domain protocol sees it. */
module StoredView {
  import opened Common
  import opened WorkloadStore

  function View(services: seq<Service>): map<string, Service> {
    if services == [] then map[] else View(services[1..])[services[0].workload := services[0]]
  }

  lemma {:induction false} ViewAt(services: seq<Service>, w: string)
    ensures w in View(services) <==> IndexOf(services, w) >= 0
    ensures w in View(services) ==> View(services)[w] == services[IndexOf(services, w)]
    decreases |services|
  {
    if services != [] {
      ViewAt(services[1..], w);
    }
  }

  lemma {:induction false} ViewReplaced(services: seq<Service>, i: nat, s: Service)
    requires i < |services| && IndexOf(services, s.workload) == i
    ensures View(services[i := s]) == View(services)[s.workload := s]
    decreases i
  {
    if i > 0 {
      assert services[i := s][1..] == services[1..][i - 1 := s];
      ViewReplaced(services[1..], i - 1, s);
    } else {
      assert services[0 := s][1..] == services[1..];
    }
  }

  /** The repository operations are the protocol's store steps. */
  lemma StoredSteps(services: seq<Service>, w: string, d: Domain)
    ensures StageIn(services, w, d).Done? ==>
              w in View(services) && Stage(View(services)[w], d).Some? &&
              View(StageIn(services, w, d).services) == View(services)[w := Stage(View(services)[w], d).value]
    ensures CommitIn(services, w).Done? ==>
              w in View(services) && Commit(View(services)[w]).Some? &&
              View(CommitIn(services, w).services) == View(services)[w := Commit(View(services)[w]).value]
    ensures ClearIn(services, w).Done? ==>
              w in View(services) && Clear(View(services)[w]).Some? &&
              View(ClearIn(services, w).services) == View(services)[w := Clear(View(services)[w]).value]
  {
    hide View, ValidService, ValidId, ValidDomain;
    ViewAt(services, w);
    var i := IndexOf(services, w);
    if i >= 0 {
      var s := services[i];
      if Stage(s, d).Some? { ViewReplaced(services, i, Stage(s, d).value); }
      if Commit(s).Some? { ViewReplaced(services, i, Commit(s).value); }
      if Clear(s).Some? { ViewReplaced(services, i, Clear(s).value); }
    }
  }

  /** Writes a service over the one of its workload, or appends it. */
  function Put(services: seq<Service>, v: Service): seq<Service> {
    var i := IndexOf(services, v.workload);
    if i >= 0 then services[i := v] else services + [v]
  }

  lemma PutViewed(services: seq<Service>, v: Service)
    ensures View(Put(services, v)) == View(services)[v.workload := v]
  {
    hide View;
    ViewAt(services, v.workload);
    if IndexOf(services, v.workload) >= 0 {
      ViewReplaced(services, IndexOf(services, v.workload), v);
    } else {
      ViewAppended(services, v);
    }
  }

  lemma {:induction false} ViewAppended(services: seq<Service>, v: Service)
    requires IndexOf(services, v.workload) < 0
    ensures View(services + [v]) == View(services)[v.workload := v]
    decreases |services|
  {
    if services == [] {
      assert (services + [v])[1..] == [];
    } else {
      assert (services + [v])[1..] == services[1..] + [v];
      ViewAppended(services[1..], v);
    }
  }

  lemma {:induction false} ViewMember(services: seq<Service>, w: string)
    requires w in View(services)
    ensures View(services)[w] in services && View(services)[w].workload == w
    decreases |services|
  {
    if services[0].workload != w {
      ViewMember(services[1..], w);
    }
  }
}
