/** What a bind or unbind resolves to (cmd/dirextalk-agent/core_cloud_worker_domain_intrinsic.go,
    ResolveRetainedWorkerDomain), and resolves to again while it is carried out. */
module DomainIntent {
  import opened Common
  import opened WorkloadStore
  import opened Route53

  /** What is observed of the Worker. */
  datatype Worker = Worker(ip: string, zoneId: string)

  const WORKER_TTL := 300

  function Target(worker: Worker, hostname: string): Domain {
    Domain(worker.zoneId, Canonical(hostname), WORKER_TTL, worker.ip)
  }

  /** `ResolveRetainedWorkerDomain` for bind, with an answering provider. */
  function ResolveBind(s: Service, z: Zone, worker: Worker, hostname: string): Option<Domain> {
    var host := Canonical(hostname);
    var d := Target(worker, hostname);
    if !ValidHostname(hostname) || worker.ip == "" || (s.hostname != "" && Canonical(s.hostname) != host) then None
    else if KeyOf(d) in z && !Matches(z[KeyOf(d)], d) then None
    else if (s.domain.Some? && s.domain.value != d) || (s.pending.Some? && s.pending.value != d) then None
    else Some(d)
  }

  /** For unbind: the current domain, or the one already removed. */
  function ResolveUnbind(s: Service): Option<Domain> {
    if s.pending.Some? then None else if s.domain.Some? then s.domain else s.removed
  }

  datatype Point = Point(service: Service, zone: Zone)

  /** The states that binding `d` for `w` passes through on its own, retries included. */
  ghost predicate BindPoint(start: Point, d: Domain, w: string, p: Point) {
    var bound := start.service.(domain := Some(d), pending := None, removed := None);
    && (p.zone == start.zone || p.zone == start.zone[KeyOf(d) := A(d.ip, d.ttl, Mine(w))])
    && (p.service in {start.service, start.service.(pending := Some(d)), bound, bound.(pending := Some(d))})
  }

  ghost predicate UnbindPoint(start: Point, d: Domain, p: Point) {
    && (p.zone == start.zone || p.zone == start.zone - {KeyOf(d)})
    && (p.service == start.service || p.service == start.service.(domain := None, pending := None, removed := Some(d)))
  }

  /** A bind intent is a fixed point of its own progress: resolving again after any of its steps gives the
      identical domain, so the fence before each provider call keeps passing. */
  lemma BindIntentIsFixed(start: Point, worker: Worker, hostname: string, w: string, d: Domain, p: Point)
    requires ResolveBind(start.service, start.zone, worker, hostname) == Some(d)
    requires BindPoint(start, d, w, p)
    ensures ResolveBind(p.service, p.zone, worker, hostname) == Some(d)
  {
    hide Canonical, ValidHostname;
  }

  lemma UnbindIntentIsFixed(start: Point, d: Domain, p: Point)
    requires ResolveUnbind(start.service) == Some(d) && UnbindPoint(start, d, p)
    ensures ResolveUnbind(p.service) == Some(d)
  {
    hide Canonical;
  }

  /** The state a bind of `d` by `w` heads for. */
  function Bound(p: Point, d: Domain, w: string): Point {
    Point(p.service.(domain := Some(d), pending := None, removed := None), p.zone[KeyOf(d) := A(d.ip, d.ttl, Mine(w))])
  }

  function Unbound(p: Point, d: Domain): Point {
    Point(p.service.(domain := None, pending := None, removed := Some(d)), p.zone - {KeyOf(d)})
  }

  /** It does not depend on how far the bind had come. */
  lemma SameTarget(start: Point, d: Domain, w: string, p: Point)
    ensures BindPoint(start, d, w, p) ==> Bound(p, d, w) == Bound(start, d, w)
    ensures UnbindPoint(start, d, p) ==> Unbound(p, d) == Unbound(start, d)
  {
    hide Canonical;
    var k := KeyOf(d);
    var r := A(d.ip, d.ttl, Mine(w));
    assert start.zone[k := r][k := r] == start.zone[k := r];
    assert (start.zone - {k}) - {k} == start.zone - {k};
  }

  /** A bind resolves to the Worker's own address under its hosted zone and the canonical host name, exactly if the host
      name is valid and is the service's declared one if there is one, the Worker has an address, the zone has no other
      record under the name, and the service neither has nor waits for another domain. */
  lemma ResolvesExactly(s: Service, z: Zone, worker: Worker, hostname: string, d: Domain)
    ensures ResolveBind(s, z, worker, hostname) == Some(d) <==>
            && d.zone == worker.zoneId && d.ip == worker.ip && d.ttl == 300 && d.hostname == Canonical(hostname)
            && ValidLabels(Canonical(hostname)) && worker.ip != ""
            && (s.hostname == "" || Canonical(s.hostname) == Canonical(hostname))
            && (var k := Key(worker.zoneId, Canonical(hostname));
                k in z ==> z[k].A? && z[k].ip == worker.ip && z[k].ttl == 300)
            && (s.domain.None? || s.domain.value == d) && (s.pending.None? || s.pending.value == d)
  {
    hide Canonical, ValidLabels;
    if ValidHostname(hostname) {
      CanonicalIdempotent(hostname);
    }
  }

  /** An unbind resolves to the current domain, or to the one already removed if there is no current one, exactly if no
      other is pending. */
  lemma UnbindResolvesExactly(s: Service, d: Domain)
    ensures ResolveUnbind(s) == Some(d) <==>
            s.pending.None? && (s.domain == Some(d) || (s.domain.None? && s.removed == Some(d)))
  {
  }

  /** The record of a resolved bind is the Worker's address under its zone and the canonical host name. */
  lemma ResolvedRecord(s: Service, z: Zone, worker: Worker, hostname: string, d: Domain)
    requires ResolveBind(s, z, worker, hostname) == Some(d)
    ensures KeyOf(d) == Key(worker.zoneId, Canonical(hostname)) && d.ip == worker.ip && d.ttl == 300
    ensures d == Domain(worker.zoneId, Canonical(hostname), 300, worker.ip)
  {
    hide Canonical, ValidLabels, ResolveBind;
    ResolvesExactly(s, z, worker, hostname, d);
    CanonicalIdempotent(hostname);
  }

  /** The Worker's address and zone are not blank. */
  predicate Usable(worker: Worker) {
    Trim(worker.ip) != "" && Trim(worker.zoneId) != ""
  }

  /** What a bind resolves to can be staged on a valid service. */
  lemma ResolvedIsStageable(s: Service, z: Zone, worker: Worker, hostname: string, d: Domain)
    requires ResolveBind(s, z, worker, hostname) == Some(d) && ValidService(s) && Usable(worker)
    ensures Stage(s, d) == Some(s.(pending := Some(d))) && ValidDomain(d)
  {
    hide ValidLabels, Canonical, ValidId, ValidHealthPath, Trim;
    CanonicalIdempotent(hostname);
    HostIsNotBlank(hostname);
  }

  lemma HostIsNotBlank(hostname: string)
    requires ValidHostname(hostname)
    ensures Trim(Canonical(hostname)) != ""
  {
    var h := Canonical(hostname);
    assert ValidLabels(h);
    hide Canonical, ValidLabels;
    PlainEnds(h);
    TrimKeeps(h);
  }

  lemma PlainEnds(h: string)
    requires ValidLabels(h)
    ensures h != "" && !IsSpace(h[0]) && !IsSpace(h[|h| - 1])
  {
  }
}
