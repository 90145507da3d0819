/** Durable service and domain state of one Worker (internal/cloudworker/sshworkload/store.go), its host name
    rules (internal/cloudworker/remoteservice) and the admission of further services
    (cmd/dirextalk-agent/core_cloud_worker_ssh_executor.go, workerSupportsService). */
module WorkloadStore {
  import opened Common

  datatype Domain = Domain(zone: string, hostname: string, ttl: int, ip: string)

  datatype Service = Service(workload: string, task: string, port: int, health: string, hostname: string,
                             domain: Option<Domain>, pending: Option<Domain>, removed: Option<Domain>)

  // ---- Host names. ----

  function Lower(s: string): (r: string)
    ensures |r| == |s|
  {
    seq(|s|, i requires 0 <= i < |s| => LowerChar(s[i]))
  }

  function LowerChar(c: char): char {
    if 'A' <= c <= 'Z' then (c as int + 32) as char else c
  }

  /** `canonicalHostname`, with ASCII case mapping. */
  function Canonical(h: string): string {
    var l := Lower(Trim(h));
    if l != [] && l[|l| - 1] == '.' then l[..|l| - 1] else l
  }

  predicate LabelChar(c: char) {
    'a' <= c <= 'z' || '0' <= c <= '9' || c == '-'
  }

  /** At least two dot-separated labels of 1 to 63 letters, digits and inner hyphens. */
  predicate ValidLabels(h: string) {
    && 0 < |h| <= 253
    && LabelChar(h[0]) && h[0] != '-' && LabelChar(h[|h| - 1]) && h[|h| - 1] != '-'
    && (forall i | 0 <= i < |h| :: LabelChar(h[i]) || h[i] == '.')
    && (forall i | 0 < i < |h| - 1 && h[i] == '.' :: h[i - 1] != '-' && h[i + 1] != '-' && h[i + 1] != '.')
    && (exists i | 0 <= i < |h| :: h[i] == '.')
    && (forall i | 0 <= i < |h| :: ShortLabel(h, i))
  }

  predicate ShortLabel(h: string, i: nat) {
    i + 64 <= |h| ==> '.' in h[i..i + 64]
  }

  predicate ValidHostname(h: string) {
    ValidLabels(Canonical(h))
  }

  lemma TrimKeeps(s: string)
    requires s == [] || (!IsSpace(s[0]) && !IsSpace(s[|s| - 1]))
    ensures Trim(s) == s
  {
  }

  lemma CanonicalOfPlain(h: string)
    requires h != [] && LabelChar(h[0]) && LabelChar(h[|h| - 1])
    requires forall i | 0 <= i < |h| :: LowerChar(h[i]) == h[i]
    ensures Canonical(h) == h
  {
    hide LowerChar;
    TrimKeeps(h);
    assert Lower(h) == h;
  }

  lemma CanonicalOfLabels(h: string)
    requires ValidLabels(h)
    ensures Canonical(h) == h
  {
    hide Canonical;
    CanonicalOfPlain(h);
  }

  /** A host name without outer space and one final dot. */
  function Stem(h: string): string {
    var t := Trim(h);
    if t != [] && t[|t| - 1] == '.' then t[..|t| - 1] else t
  }

  predicate SameLetter(c: char, d: char) {
    c == d || ('A' <= c <= 'Z' && d as int == c as int + 32) || ('A' <= d <= 'Z' && c as int == d as int + 32)
  }

  /** Two host names are the same exactly if they agree up to case, outer space and one final dot. */
  lemma SameNameExactly(g: string, h: string)
    ensures Canonical(g) == Canonical(h) <==>
            |Stem(g)| == |Stem(h)| && forall i | 0 <= i < |Stem(g)| :: SameLetter(Stem(g)[i], Stem(h)[i])
  {
    hide Trim;
    StemLowered(g);
    StemLowered(h);
    hide Canonical, Stem, Lower;
    if Canonical(g) == Canonical(h) {
      forall i | 0 <= i < |Stem(g)|
        ensures SameLetter(Stem(g)[i], Stem(h)[i])
      {
        assert Lower(Stem(g))[i] == Lower(Stem(h))[i];
      }
    }
  }

  lemma StemLowered(h: string)
    ensures Canonical(h) == Lower(Stem(h))
    ensures forall i | 0 <= i < |Stem(h)| :: Lower(Stem(h))[i] == LowerChar(Stem(h)[i])
  {
    hide Trim;
    var t := Trim(h);
    if t != [] && t[|t| - 1] == '.' {
      assert Lower(t)[..|t| - 1] == Lower(t[..|t| - 1]);
    }
  }

  lemma CanonicalIdempotent(h: string)
    requires ValidHostname(h)
    ensures Canonical(Canonical(h)) == Canonical(h)
  {
    CanonicalOfLabels(Canonical(h));
  }

  // ---- Validation. ----

  predicate ValidId(v: string) {
    0 < |v| <= 128 && forall i | 0 <= i < |v| :: 'a' <= v[i] <= 'z' || '0' <= v[i] <= '9' || v[i] == '-'
  }

  predicate ValidHealthPath(v: string) {
    && 0 < |v| <= 2048 && v[0] == '/' && (|v| == 1 || v[1] != '/')
    && forall i | 0 <= i < |v| :: v[i] != ' ' && v[i] != '\t' && v[i] != '\r' && v[i] != '\n' && v[i] != '#'
  }

  predicate ValidDomain(d: Domain) {
    Trim(d.zone) != "" && Trim(d.hostname) != "" && Trim(d.ip) != "" && 60 <= d.ttl <= 86400
  }

  /** A domain slot is empty or holds a valid domain under the service's declared host name, if any. */
  predicate Fits(hostname: string, d: Option<Domain>) {
    d.None? || (ValidDomain(d.value) && (hostname == "" || Canonical(d.value.hostname) == Canonical(hostname)))
  }

  predicate ValidHead(s: Service) {
    && ValidId(s.task) && ValidId(s.workload) && 0 < s.port < 0x1_0000 && ValidHealthPath(s.health)
    && (s.hostname == "" || ValidHostname(s.hostname))
  }

  predicate ValidService(s: Service) {
    ValidHead(s) && Fits(s.hostname, s.domain) && Fits(s.hostname, s.pending) && Fits(s.hostname, s.removed)
  }

  // ---- What each repository operation does to one stored service. ----

  datatype Fault = Invalid | Identity | NotFound

  /** `StageDomain`: records the write-ahead claim, and refuses to replace a different one. */
  function Stage(s: Service, d: Domain): Option<Service> {
    var next := s.(pending := Some(d));
    if (s.pending.Some? && s.pending.value != d) || !ValidService(next) then None else Some(next)
  }

  /** `CommitDomain`. */
  function Commit(s: Service): Option<Service> {
    if s.pending.None? then None else Some(s.(domain := s.pending, pending := None, removed := None))
  }

  /** `SetDomain(nil)`. */
  function Clear(s: Service): Option<Service> {
    var next := s.(domain := None, pending := None, removed := if s.domain.Some? then s.domain else s.removed);
    if ValidService(next) then Some(next) else None
  }

  /** `PutService` on a workload that is already stored: the domain slots are carried over as they are. */
  function Merge(stored: Service, s: Service): Option<Service> {
    if stored.port != s.port || stored.health != s.health || (stored.hostname != "" && stored.hostname != s.hostname)
         then None
    else
      var hostname := if s.hostname == "" then stored.hostname else s.hostname;
      var stale := hostname != "" && stored.removed.Some? &&
          Canonical(hostname) != Canonical(stored.removed.value.hostname);
      Some(s.(hostname := hostname, domain := stored.domain, pending := stored.pending,
              removed := if stale then None else stored.removed))
  }

  // ---- The repository: a list of services, read back with full validation on every call. ----

  predicate Readable(services: seq<Service>) {
    forall i | 0 <= i < |services| :: ValidService(services[i])
  }

  function IndexOf(services: seq<Service>, workload: string): (r: int)
    ensures r == -1 || (0 <= r < |services| && services[r].workload == workload)
  {
    if services == [] then -1
    else if services[0].workload == workload then 0
    else
      var r := IndexOf(services[1..], workload);
      if r < 0 then -1 else r + 1
  }

  lemma {:induction false} IndexOfFirst(services: seq<Service>, workload: string)
    ensures IndexOf(services, workload) < 0 ==> forall i | 0 <= i < |services| :: services[i].workload != workload
    ensures forall i | 0 <= i < IndexOf(services, workload) :: services[i].workload != workload
    decreases |services|
  {
    if services != [] && services[0].workload != workload {
      IndexOfFirst(services[1..], workload);
      assert forall i | 1 <= i < |services| :: services[i] == services[1..][i - 1];
    }
  }

  datatype Outcome = Done(services: seq<Service>) | Fail(fault: Fault)

  function Replaced(services: seq<Service>, workload: string, next: Service -> Option<Service>): Outcome {
    var i := IndexOf(services, workload);
    if !Readable(services) then Fail(Identity)
    else if i < 0 then Fail(NotFound)
    else match next(services[i])
      case None => Fail(Identity)
      case Some(s) => Done(services[i := s])
  }

  function StageIn(services: seq<Service>, workload: string, d: Domain): Outcome {
    if !ValidId(workload) || !ValidDomain(d) then Fail(Invalid) else Replaced(services, workload, s => Stage(s, d))
  }

  function CommitIn(services: seq<Service>, workload: string): Outcome {
    if !ValidId(workload) then Fail(Invalid) else Replaced(services, workload, s => Commit(s))
  }

  function ClearIn(services: seq<Service>, workload: string): Outcome {
    if !ValidId(workload) then Fail(Invalid) else Replaced(services, workload, s => Clear(s))
  }

  function PutIn(services: seq<Service>, s: Service): Outcome {
    if !ValidService(s) then Fail(Invalid)
    else if !Readable(services) then Fail(Identity)
    else if IndexOf(services, s.workload) < 0 then Done(services + [s])
    else Replaced(services, s.workload, stored => Merge(stored, s))
  }

  function RemoveIn(services: seq<Service>): Outcome {
    if !Readable(services) then Fail(Identity) else Done([])
  }

  class Repository {
    var services: seq<Service>

    constructor ()
      ensures services == []
    {
      services := [];
    }

    method Find(workload: string) returns (index: int)
      ensures index == IndexOf(services, workload)
    {
      index := 0;
      ghost var whole := IndexOf(services, workload);
      assert services[0..] == services;
      while index < |services|
        invariant 0 <= index <= |services|
        invariant whole == var r := IndexOf(services[index..], workload); if r < 0 then -1 else r + index
      {
        if services[index].workload == workload {
          return;
        }
        assert services[index..][1..] == services[index + 1..];
        index := index + 1;
      }
      index := -1;
    }

    method PutService(s: Service) returns (fault: Option<Fault>)
      modifies this
      ensures var spec := PutIn(old(services), s);
              if spec.Done? then fault.None? && services == spec.services
              else fault == Some(spec.fault) && services == old(services)
    {
      hide ValidService, Merge;
      if !ValidService(s) {
        return Some(Invalid);
      }
      if !Readable(services) {
        return Some(Identity);
      }
      var index := Find(s.workload);
      if index < 0 {
        services := services + [s];
        return None;
      }
      var merged := Merge(services[index], s);
      if merged.None? {
        return Some(Identity);
      }
      services := services[index := merged.value];
      fault := None;
    }

    method StageDomain(workload: string, d: Domain) returns (fault: Option<Fault>)
      modifies this
      ensures var spec := StageIn(old(services), workload, d);
              if spec.Done? then fault.None? && services == spec.services
              else fault == Some(spec.fault) && services == old(services)
    {
      hide ValidService, ValidId, ValidDomain, Stage;
      if !ValidId(workload) || !ValidDomain(d) {
        return Some(Invalid);
      }
      if !Readable(services) {
        return Some(Identity);
      }
      var index := Find(workload);
      if index < 0 {
        return Some(NotFound);
      }
      var next := Stage(services[index], d);
      if next.None? {
        return Some(Identity);
      }
      services := services[index := next.value];
      fault := None;
    }

    method CommitDomain(workload: string) returns (fault: Option<Fault>)
      modifies this
      ensures var spec := CommitIn(old(services), workload);
              if spec.Done? then fault.None? && services == spec.services
              else fault == Some(spec.fault) && services == old(services)
    {
      hide ValidService, ValidId;
      if !ValidId(workload) {
        return Some(Invalid);
      }
      if !Readable(services) {
        return Some(Identity);
      }
      var index := Find(workload);
      if index < 0 {
        return Some(NotFound);
      }
      if services[index].pending.None? {
        return Some(Identity);
      }
      services := services[index := services[index].(domain := services[index].pending, pending := None,
                                                     removed := None)];
      fault := None;
    }

    /** `SetDomain` with no domain. */
    method ClearDomain(workload: string) returns (fault: Option<Fault>)
      modifies this
      ensures var spec := ClearIn(old(services), workload);
              if spec.Done? then fault.None? && services == spec.services
              else fault == Some(spec.fault) && services == old(services)
    {
      hide ValidService, ValidId;
      if !ValidId(workload) {
        return Some(Invalid);
      }
      if !Readable(services) {
        return Some(Identity);
      }
      var index := Find(workload);
      if index < 0 {
        return Some(NotFound);
      }
      var next := services[index];
      if next.domain.Some? {
        next := next.(removed := next.domain);
      }
      next := next.(domain := None, pending := None);
      if !ValidService(next) {
        return Some(Identity);
      }
      services := services[index := next];
      fault := None;
    }
  }

  // ---- What the operations do to a stored service, written out. ----

  /** A workload that is already stored may be declared again exactly with the same port and health path, and with the
      same host name unless it had none. The declaration is then stored with the host name it had or gets, its domain
      and pending domain stay, and a removed domain is kept unless it lies under another host name. */
  lemma MergesExactly(v: Service, s: Service)
    ensures Merge(v, s).Some? <==> v.port == s.port && v.health == s.health &&
                                   (v.hostname == "" || v.hostname == s.hostname)
    ensures Merge(v, s).Some? ==>
              var m := Merge(v, s).value;
              && m.workload == s.workload && m.task == s.task && m.port == s.port && m.health == s.health
              && m.hostname == (if s.hostname != "" then s.hostname else v.hostname)
              && m.domain == v.domain && m.pending == v.pending
              && (m.removed == v.removed || m.removed.None?)
              && (v.removed.Some? ==> (m.removed.None? <==>
                    m.hostname != "" && Canonical(m.hostname) != Canonical(v.removed.value.hostname)))
  {
    hide Canonical;
  }

  /** A declaration is stored exactly if it is valid, the file is readable, and the workload, if it is stored already,
      has the same port, health path and host name or none. A new workload is appended and every other entry stays. */
  lemma PutsExactly(services: seq<Service>, s: Service)
    ensures var i, r := IndexOf(services, s.workload), PutIn(services, s);
            && (r == Fail(Invalid) <==> !ValidService(s))
            && (r.Done? <==> ValidService(s) && Readable(services) && (i < 0 || Merge(services[i], s).Some?))
            && (r.Done? ==>
                  var n := r.services;
                  && |n| == |services| + (if i < 0 then 1 else 0)
                  && (forall k | 0 <= k < |services| && k != i :: n[k] == services[k])
                  && (i < 0 ==> n[|services|] == s)
                  && (i >= 0 ==> Some(n[i]) == Merge(services[i], s)))
  {
    hide ValidService, Merge;
  }

  lemma {:induction false} IndexOfReplaced(services: seq<Service>, s: Service)
    requires IndexOf(services, s.workload) >= 0
    ensures IndexOf(services[IndexOf(services, s.workload) := s], s.workload) == IndexOf(services, s.workload)
    decreases |services|
  {
    var i := IndexOf(services, s.workload);
    if i > 0 {
      IndexOfReplaced(services[1..], s);
      assert services[i := s][1..] == services[1..][i - 1 := s];
    }
  }

  /** The stored life of a domain. A workload that has nothing else pending and whose host name is the domain's, or
      none, can claim it, and claim it again to no effect. The claim can then be committed and, once current, cleared;
      all that is left of it in the file is that it is the removed domain of that workload. */
  lemma ClaimedCommittedCleared(services: seq<Service>, w: string, d: Domain)
    requires Readable(services) && IndexOf(services, w) >= 0
    ensures var i := IndexOf(services, w);
            var v, staged := services[i], StageIn(services, w, d);
            && (staged.Done? <==> ValidDomain(d) && (v.pending.None? || v.pending == Some(d)) &&
                                  (v.hostname == "" || Canonical(d.hostname) == Canonical(v.hostname)))
            && (staged.Done? ==>
                  var committed := CommitIn(staged.services, w);
                  && StageIn(staged.services, w, d) == staged
                  && committed.Done? && CommitIn(committed.services, w) == Fail(Identity)
                  && ClearIn(committed.services, w) ==
                       Done(services[i := v.(domain := None, pending := None, removed := Some(d))]))
  {
    hide ValidId, ValidDomain, Canonical, ValidHealthPath, ValidHostname, IndexOf;
    var i := IndexOf(services, w);
    var v := services[i];
    assert ValidService(v);
    if StageIn(services, w, d).Done? {
      var staged, committed := v.(pending := Some(d)), v.(domain := Some(d), pending := None, removed := None);
      IndexOfReplaced(services, staged);
      IndexOfReplaced(services, committed);
      DomainStepsKeepReadable(services, w, d);
      DomainStepsKeepReadable(services[i := staged], w, d);
      assert services[i := staged][i := committed] == services[i := committed];
      assert CommitIn(services[i := staged], w) == Done(services[i := committed]);
      var cleared := v.(domain := None, pending := None, removed := Some(d));
      assert Clear(committed) == Some(cleared);
      assert services[i := committed][i := cleared] == services[i := cleared];
    }
  }

  // ---- Which operations keep the file readable. ----

  lemma ReplaceKeepsReadable(services: seq<Service>, i: nat, s: Service)
    requires Readable(services) && i < |services|
    ensures Readable(services[i := s]) <==> ValidService(s)
  {
    hide ValidService;
    if Readable(services[i := s]) {
      assert services[i := s][i] == s;
    }
  }

  /** Staging, committing and clearing keep a readable file readable. */
  lemma DomainStepsKeepReadable(services: seq<Service>, workload: string, d: Domain)
    ensures StageIn(services, workload, d).Done? ==> Readable(StageIn(services, workload, d).services)
    ensures CommitIn(services, workload).Done? ==> Readable(CommitIn(services, workload).services)
    ensures ClearIn(services, workload).Done? ==> Readable(ClearIn(services, workload).services)
  {
    hide ValidId, ValidDomain, Canonical, ValidHealthPath, ValidHostname;
    var i := IndexOf(services, workload);
    if Readable(services) && i >= 0 {
      var s := services[i];
      if Stage(s, d).Some? { ReplaceKeepsReadable(services, i, Stage(s, d).value); }
      if Commit(s).Some? { ReplaceKeepsReadable(services, i, Commit(s).value); }
      if Clear(s).Some? { assert ValidService(Clear(s).value); ReplaceKeepsReadable(services, i, Clear(s).value); }
    }
  }

  /** The stored domain slots agree with a newly declared host name. */
  predicate SlotsFit(stored: Service, hostname: string) {
    hostname == "" || (Fits(hostname, stored.domain) && Fits(hostname, stored.pending))
  }

  lemma MergeValid(stored: Service, s: Service)
    requires ValidService(stored) && ValidService(s) && Merge(stored, s).Some?
    ensures ValidService(Merge(stored, s).value) <==> SlotsFit(stored, s.hostname)
  {
    hide ValidHostname, ValidId, ValidHealthPath, ValidDomain;
  }

  /** `PutService` carries the stored domain slots over without checking them against the newly declared
      host name: the file stays readable exactly when they agree with it. */
  lemma PutKeepsReadableExactly(services: seq<Service>, s: Service)
    requires PutIn(services, s).Done?
    ensures Readable(PutIn(services, s).services) <==>
            (IndexOf(services, s.workload) >= 0 ==> SlotsFit(services[IndexOf(services, s.workload)], s.hostname))
  {
    hide ValidService, Merge, SlotsFit;
    var i := IndexOf(services, s.workload);
    if i >= 0 {
      var merged := Merge(services[i], s).value;
      MergeValid(services[i], s);
      ReplaceKeepsReadable(services, i, merged);
    } else {
      var n := services + [s];
      assert forall k | 0 <= k < |n| :: n[k] == if k < |services| then services[k] else s;
    }
  }

  /** A call to the repository. */
  datatype Operation =
    | PutOp(s: Service)
    | StageOp(workload: string, d: Domain)
    | CommitOp(workload: string)
    | ClearOp(workload: string)
    | RemoveOp

  function Attempt(services: seq<Service>, op: Operation): Outcome {
    match op
    case PutOp(s) => PutIn(services, s)
    case StageOp(workload, d) => StageIn(services, workload, d)
    case CommitOp(workload) => CommitIn(services, workload)
    case ClearOp(workload) => ClearIn(services, workload)
    case RemoveOp => RemoveIn(services)
  }

  function AfterOps(services: seq<Service>, calls: seq<Operation>): seq<Service>
    decreases |calls|
  {
    if calls == [] then services
    else AfterOps(if Attempt(services, calls[0]).Done? then Attempt(services, calls[0]).services
                    else services, calls[1..])
  }

  lemma AttemptFails(services: seq<Service>, op: Operation)
    requires !Readable(services)
    ensures Attempt(services, op).Fail?
  {
    hide ValidService, ValidId, ValidDomain;
  }

  /** No sequence of operations repairs or removes an unreadable file. */
  lemma {:induction false} UnreadableForever(services: seq<Service>, calls: seq<Operation>)
    requires !Readable(services)
    ensures AfterOps(services, calls) == services
    decreases |calls|
  {
    hide Attempt, Readable;
    if calls != [] {
      AttemptFails(services, calls[0]);
      UnreadableForever(services, calls[1..]);
    }
  }

  // ---- Admission of a further or redeclared service. ----

  datatype Spec = Spec(workload: string, port: int, health: string, hostname: string)

  /** The host name a stored service answers to: the declared one, else its committed domain's. */
  function Answers(s: Service): string {
    var declared := Canonical(s.hostname);
    if declared == "" && s.domain.Some? then Canonical(s.domain.value.hostname) else declared
  }

  function Reserved(r: Spec): set<int> {
    if r.hostname != "" then {r.port, 80, 443} else {r.port}
  }

  predicate Compatible(s: Service, r: Spec) {
    && (s.workload == r.workload ==>
          s.port == r.port && s.health == r.health && (Answers(s) == "" || Answers(s) == Canonical(r.hostname)))
    && (s.workload != r.workload && r.hostname != "" ==> Answers(s) != Canonical(r.hostname))
    && (s.port in Reserved(r) ==> s.workload == r.workload && s.port == r.port)
  }

  predicate Admits(services: seq<Service>, r: Spec) {
    forall i | 0 <= i < |services| :: Compatible(services[i], r)
  }

  method WorkerSupportsService(services: seq<Service>, requested: Option<Spec>) returns (ok: bool)
    ensures ok <==> (requested.None? || Admits(services, requested.value))
  {
    hide Canonical;
    if requested.None? {
      return true;
    }
    var r := requested.value;
    var reserved := {r.port};
    if r.hostname != "" {
      reserved := reserved + {80, 443};
    }
    for i := 0 to |services|
      invariant forall k | 0 <= k < i :: Compatible(services[k], r)
    {
      var s := services[i];
      var existing := Canonical(s.hostname);
      if existing == "" && s.domain.Some? {
        existing := Canonical(s.domain.value.hostname);
      }
      if s.workload == r.workload &&
         (s.port != r.port || s.health != r.health || (existing != "" && existing != Canonical(r.hostname))) {
        assert !Compatible(s, r);
        return false;
      }
      if r.hostname != "" && s.workload != r.workload && existing == Canonical(r.hostname) {
        assert !Compatible(s, r);
        return false;
      }
      if s.port in reserved && !(s.workload == r.workload && s.port == r.port) {
        assert !Compatible(s, r);
        return false;
      }
    }
    ok := true;
  }

  /** A request is admitted exactly if every stored service of another workload has another port and, if the request
      names a host, neither a web port nor that host name; and the workload itself, if it is stored, has the same port
      and health path and answers to no other host name. */
  lemma AdmitsExactly(services: seq<Service>, r: Spec)
    ensures Admits(services, r) <==>
            forall i | 0 <= i < |services| ::
              var s := services[i];
              var host := if Canonical(s.hostname) != "" then Canonical(s.hostname)
                          else if s.domain.Some? then Canonical(s.domain.value.hostname) else "";
              if s.workload == r.workload then
                s.port == r.port && s.health == r.health && (host == "" || host == Canonical(r.hostname))
              else
                s.port != r.port &&
                (r.hostname != "" ==> s.port != 80 && s.port != 443 && host != Canonical(r.hostname))
  {
    hide Canonical;
    forall i | 0 <= i < |services|
      ensures Compatible(services[i], r) <==>
              var s := services[i];
              var host := if Canonical(s.hostname) != "" then Canonical(s.hostname)
                          else if s.domain.Some? then Canonical(s.domain.value.hostname) else "";
              if s.workload == r.workload then
                s.port == r.port && s.health == r.health && (host == "" || host == Canonical(r.hostname))
              else
                s.port != r.port &&
                (r.hostname != "" ==> s.port != 80 && s.port != 443 && host != Canonical(r.hostname))
    {
    }
  }

  /** Different workloads listen on different ports and answer to different host names. */
  ghost predicate Separate(services: seq<Service>) {
    forall i, j | 0 <= i < |services| && 0 <= j < |services| && i != j :: Apart(services[i], services[j])
  }

  predicate Apart(s: Service, t: Service) {
    s.workload != t.workload && s.port != t.port && (Answers(s) != "" ==> Answers(s) != Answers(t))
  }

  /** What a service request must satisfy before it reaches a Worker (ServiceSpec.validate). */
  predicate ValidSpec(r: Spec) {
    && ValidId(r.workload) && 0 < r.port < 0x1_0000 && ValidHealthPath(r.health)
    && (r.hostname == "" || (ValidHostname(r.hostname) && r.port != 80 && r.port != 443))
  }

  /** The service `publishService` writes for an admitted request. */
  function Declared(r: Spec, task: string): Service {
    Service(r.workload, task, r.port, r.health, Canonical(r.hostname), None, None, None)
  }

  lemma DeclaredHostname(r: Spec)
    requires ValidSpec(r)
    ensures Canonical(Canonical(r.hostname)) == Canonical(r.hostname)
    ensures r.hostname == "" <==> Canonical(r.hostname) == ""
  {
    hide ValidId, ValidHealthPath;
    if r.hostname == "" {
      assert Trim("") == "" && Lower("") == "";
    } else {
      hide Canonical;
      CanonicalIdempotent(r.hostname);
    }
  }

  lemma DeclaredIsValid(r: Spec, task: string)
    requires ValidSpec(r) && ValidId(task)
    ensures ValidService(Declared(r, task))
  {
    hide Canonical, ValidLabels;
    DeclaredHostname(r);
  }

  /** An admitted declaration is apart from every other stored workload. */
  lemma DeclaredIsApart(s: Service, t: Service, r: Spec)
    requires ValidSpec(r) && Compatible(s, r) && s.workload != r.workload
    requires t.workload == r.workload && t.port == r.port
    requires Answers(t) == "" || Answers(t) == Canonical(r.hostname)
    requires r.hostname == "" ==> Answers(t) == ""
    ensures Apart(s, t) && Apart(t, s)
  {
    hide Canonical, ValidId, ValidHealthPath, ValidHostname;
  }

  /** Redeclaring an admitted workload changes the host name it answers to only from none to the declared one. */
  lemma RedeclaredAnswers(stored: Service, r: Spec, task: string)
    requires ValidSpec(r) && Compatible(stored, r) && stored.workload == r.workload
    requires Merge(stored, Declared(r, task)).Some?
    ensures var m := Merge(stored, Declared(r, task)).value;
            m.workload == r.workload && m.port == stored.port == r.port &&
            (Answers(m) == Answers(stored) || (r.hostname != "" && Answers(m) == Canonical(r.hostname)))
  {
    hide Canonical, ValidSpec, Compatible;
    DeclaredHostname(r);
  }

  /** One admitted request keeps ports and host names of different workloads apart. */
  lemma AdmittedKeepsSeparate(services: seq<Service>, r: Spec, task: string)
    requires Separate(services) && ValidSpec(r) && Admits(services, r) && PutIn(services, Declared(r, task)).Done?
    ensures Separate(PutIn(services, Declared(r, task)).services)
  {
    hide Canonical, ValidSpec, ValidService, Merge, Compatible, Apart, Answers;
    DeclaredHostname(r);
    var d := Declared(r, task);
    var k := IndexOf(services, r.workload);
    IndexOfFirst(services, r.workload);
    var n := PutIn(services, d).services;
    if k < 0 {
      assert Answers(d) == Canonical(r.hostname) by { NewAnswers(d); }
      forall i | 0 <= i < |services|
        ensures Apart(services[i], d) && Apart(d, services[i])
      {
        DeclaredIsApart(services[i], d, r);
      }
      assert forall i | 0 <= i < |n| :: n[i] == if i < |services| then services[i] else d;
    } else {
      var m := Merge(services[k], d).value;
      RedeclaredAnswers(services[k], r, task);
      forall i | 0 <= i < |services| && i != k
        ensures Apart(services[i], m) && Apart(m, services[i])
      {
        assert Apart(services[i], services[k]) && Apart(services[k], services[i]);
        MovedApart(services[i], services[k], m, r);
      }
      assert forall i | 0 <= i < |n| :: n[i] == if i == k then m else services[i];
    }
  }

  lemma NewAnswers(d: Service)
    requires d.domain.None?
    ensures Answers(d) == Canonical(d.hostname)
  {
  }

  lemma MovedApart(s: Service, stored: Service, m: Service, r: Spec)
    requires Apart(s, stored) && Apart(stored, s) && Compatible(s, r) && ValidSpec(r)
    requires stored.workload == m.workload == r.workload && stored.port == m.port == r.port
    requires Answers(m) == Answers(stored) || (r.hostname != "" && Answers(m) == Canonical(r.hostname))
    ensures Apart(s, m) && Apart(m, s)
  {
    hide Canonical, ValidId, ValidHealthPath, ValidHostname;
  }

  datatype Arrival = Arrival(spec: Spec, task: string)

  /** One request: listed, admitted or refused, and written if admitted. */
  function Admit(services: seq<Service>, a: Arrival): seq<Service> {
    if Readable(services) && Admits(services, a.spec) && PutIn(services, Declared(a.spec, a.task)).Done?
    then PutIn(services, Declared(a.spec, a.task)).services
    else services
  }

  function AdmitAll(services: seq<Service>, arrivals: seq<Arrival>): seq<Service>
    decreases |arrivals|
  {
    if arrivals == [] then services else AdmitAll(Admit(services, arrivals[0]), arrivals[1..])
  }

  /** Any sequence of new and redeclared requests keeps ports and host names of different workloads apart. */
  lemma {:induction false} AdmissionKeepsSeparate(services: seq<Service>, arrivals: seq<Arrival>)
    requires Separate(services) && forall i | 0 <= i < |arrivals| :: ValidSpec(arrivals[i].spec)
    ensures Separate(AdmitAll(services, arrivals))
    decreases |arrivals|
  {
    hide Separate, ValidSpec, Admits, Readable;
    if arrivals != [] {
      if Admit(services, arrivals[0]) != services {
        AdmittedKeepsSeparate(services, arrivals[0].spec, arrivals[0].task);
      }
      AdmissionKeepsSeparate(Admit(services, arrivals[0]), arrivals[1..]);
    }
  }

  /** A host name is admitted only if no other workload holds port 80 or 443. */
  lemma HostnameNeedsWebPorts(services: seq<Service>, r: Spec)
    requires ValidSpec(r) && r.hostname != "" && Admits(services, r)
    ensures forall i | 0 <= i < |services| :: services[i].port != 80 && services[i].port != 443
  {
    hide ValidId, ValidHealthPath, ValidHostname, Canonical;
    forall i | 0 <= i < |services|
      ensures services[i].port != 80 && services[i].port != 443
    {
      assert Compatible(services[i], r);
    }
  }

  /** The stored slots that admission does not look at agree with the declared host name: the pending claim,
      and a committed domain whose host name is empty. */
  predicate UncheckedSlotsFit(stored: Service, hostname: string) {
    hostname == "" || (Fits(hostname, stored.pending) &&
                       (stored.domain.Some? ==> Canonical(stored.domain.value.hostname) != ""))
  }

  lemma AdmittedSlots(s: Service, r: Spec)
    requires ValidSpec(r) && ValidService(s) && Compatible(s, r) && s.workload == r.workload
    ensures SlotsFit(s, Canonical(r.hostname)) <==> UncheckedSlotsFit(s, Canonical(r.hostname))
  {
    hide Canonical, ValidSpec, ValidId, ValidHealthPath, ValidLabels, ValidDomain;
    DeclaredHostname(r);
    assert s.hostname != "" ==> Canonical(s.hostname) != "" by {
      if s.hostname != "" { ValidIsNotEmpty(s.hostname); }
    }
    assert Canonical("") == "" by { EmptyHostname(); }
  }

  lemma ValidIsNotEmpty(h: string)
    requires ValidHostname(h)
    ensures Canonical(h) != ""
  {
    hide Canonical;
  }

  lemma EmptyHostname()
    ensures Canonical("") == ""
  {
    assert Trim("") == "" && Lower("") == "";
  }

  /** Admission looks at the declared host name and the committed domain but not at the pending one. What it
      admits is written readably exactly when the unchecked slots agree with the declared host name. */
  lemma AdmittedReadableExactly(services: seq<Service>, r: Spec, task: string)
    requires ValidSpec(r) && Readable(services) && Admits(services, r) && PutIn(services, Declared(r, task)).Done?
    ensures Readable(PutIn(services, Declared(r, task)).services) <==>
            (IndexOf(services, r.workload) >= 0 ==>
               UncheckedSlotsFit(services[IndexOf(services, r.workload)], Canonical(r.hostname)))
  {
    hide Canonical, ValidSpec, ValidService, Compatible, SlotsFit, UncheckedSlotsFit, Merge;
    PutKeepsReadableExactly(services, Declared(r, task));
    var i := IndexOf(services, r.workload);
    if i >= 0 {
      AdmittedSlots(services[i], r);
    }
  }

  /** The gap is real: a crash after staging leaves a pending claim, and a later admitted declaration under
      another host name makes the Worker's file unreadable for good. */
  lemma AdmittedUnreadable() returns (s: Service, r: Spec)
    ensures Readable([s]) && Separate([s]) && ValidSpec(r) && Admits([s], r)
    ensures PutIn([s], Declared(r, "t")).Done? && !Readable(PutIn([s], Declared(r, "t")).services)
    ensures forall calls :: AfterOps(PutIn([s], Declared(r, "t")).services, calls) ==
                              PutIn([s], Declared(r, "t")).services
  {
    hide ValidLabels, ValidId, ValidHealthPath, Canonical, Trim, AfterOps;
    s := Service("w", "t", 8080, "/", "", None, Some(Domain("z", "a.b", 300, "1")), None);
    r := Spec("w", 8080, "/", "c.d");
    TwoLabels('a', 'b');
    TwoLabels('c', 'd');
    EmptyHostname();
    ShortTexts();
    ReadableOne(s, r);
    Stuck(PutIn([s], Declared(r, "t")).services);
  }

  lemma Stuck(services: seq<Service>)
    requires !Readable(services)
    ensures forall calls :: AfterOps(services, calls) == services
  {
    hide Readable, AfterOps;
    forall calls
      ensures AfterOps(services, calls) == services
    {
      UnreadableForever(services, calls);
    }
  }

  lemma ReadableOne(s: Service, r: Spec)
    requires ValidService(s) && ValidSpec(r) && ValidId("t")
    requires s.workload == r.workload && s.port == r.port && s.health == r.health
    requires s.hostname == "" && s.domain.None? && s.pending.Some? && r.hostname != ""
    requires Canonical(s.pending.value.hostname) != Canonical(r.hostname)
    ensures Readable([s]) && Separate([s]) && Admits([s], r)
    ensures PutIn([s], Declared(r, "t")).Done? && !Readable(PutIn([s], Declared(r, "t")).services)
  {
    hide ValidSpec, ValidService, Canonical, ValidId;
    EmptyHostname();
    assert Readable([s]) && IndexOf([s], r.workload) == 0;
    DeclaredIsValid(r, "t");
    DeclaredHostname(r);
    assert Admits([s], r);
    AdmittedReadableExactly([s], r, "t");
  }

  lemma TwoLabels(a: char, b: char)
    requires 'a' <= a <= 'z' && 'a' <= b <= 'z'
    ensures ValidLabels([a, '.', b]) && Canonical([a, '.', b]) == [a, '.', b] && Trim([a, '.', b]) == [a, '.', b]
  {
    hide Canonical;
    var h := [a, '.', b];
    assert h[1] == '.';
    assert ValidLabels(h);
    CanonicalOfLabels(h);
    TrimKeeps(h);
  }

  lemma ShortTexts()
    ensures ValidId("w") && ValidId("t") && ValidHealthPath("/") && Trim("z") == "z" && Trim("1") == "1"
  {
    hide Trim;
    TrimKeeps("z");
    TrimKeeps("1");
  }
}
