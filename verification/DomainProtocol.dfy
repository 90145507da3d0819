/** The life of a Worker's domain records: bind, publish and unbind as one write-ahead protocol of stage, change the
    zone, commit (cmd/dirextalk-agent/core_cloud_worker_domain_intrinsic.go and core_cloud_worker_ssh_executor.go).
    Any number of operations run at once, also on one workload; each may fail or crash anywhere, and other parties
    change the zone meanwhile. */
module DomainProtocol {
  import opened Common
  import opened WorkloadStore
  import opened Route53
  import opened DomainIntent

  /** A bind resolves its intent again before each call to the provider; a publish does not. */
  datatype How = Binding(hostname: string) | Publishing

  /** Where one operation on workload `w` stands. */
  datatype Op =
    | Staging(w: string, d: Domain, how: How, prior: Option<Domain>)  // `prior` is a committed domain under another key
    | Staged(w: string, d: Domain, how: How, prior: Option<Domain>)   // the claim is written
    | Writing(w: string, d: Domain, how: How, prior: Option<Domain>)  // the zone was read and may be written
    | Late(w: string, d: Domain)                                      // ended, with its write still in flight
    | Releasing(w: string, d: Domain, was: Domain)                    // the old record is being deleted
    | Committing(w: string, d: Domain)
    | Deleting(w: string, d: Domain)                                  // unbind
    | Clearing(w: string, d: Domain)

  datatype State = State(services: map<string, Service>, zone: Zone, ops: map<nat, Op>)

  datatype Event =
    | Elsewhere(k: Key, r: Option<Record>)       // someone else writes or deletes a record
    | Declare(s: Service)                        // PutService
    | BindBegin(o: nat, w: string, d: Domain, worker: Worker, hostname: string)
    | PublishBegin(o: nat, w: string, d: Domain) // reads the stored service
    | StageStep(o: nat)
    | CheckStep(o: nat, worker: Worker)          // the read before the write, behind a bind's fence
    | UpsertStep(o: nat)                         // the provider applies the upsert, acknowledged or not
    | UpsertSeen(o: nat)                         // read back
    | ReleaseStep(o: nat)                        // the provider applies the exact delete of the old record
    | ReleaseSeen(o: nat)
    | CommitStep(o: nat)
    | UnbindBegin(o: nat, w: string, d: Domain)
    | DeleteStep(o: nat)
    | DeleteSeen(o: nat)
    | ClearStep(o: nat)
    | Crash(o: nat)                              // the operation ends, but its write may still be applied
    | Abandon(o: nat)                            // the operation ends for good: it failed, or its process crashed

  function OldKey(s: Service, d: Domain): Option<Domain> {
    if s.domain.Some? && !SameKey(s.domain.value, d) then s.domain else None
  }

  predicate Known(s: State, o: nat) {
    o in s.ops && s.ops[o].w in s.services
  }

  /** The key is free or already right, and a bind still resolves; a publish does not look at the store again. */
  predicate MayWrite(s: State, op: Op, worker: Worker) {
    && op.Staged?
    && (KeyOf(op.d) in s.zone ==> Holds(s.zone, op.d))
    && (op.how.Binding? ==>
          op.w in s.services && ResolveBind(s.services[op.w], s.zone, worker, op.how.hostname) == Some(op.d))
  }

  predicate Enabled(s: State, e: Event) {
    match e
    case Elsewhere(_, r) => ByOthers(r)
    case Declare(n) =>
      if n.workload in s.services then Merge(s.services[n.workload], n).Some? else n.domain.None? && n.pending.None?
    case BindBegin(o, w, d, worker, hostname) =>
      o !in s.ops && w in s.services && ResolveBind(s.services[w], s.zone, worker, hostname) == Some(d)
    case PublishBegin(o, w, _) => o !in s.ops && w in s.services
    case StageStep(o) => Known(s, o) && s.ops[o].Staging? && Stage(s.services[s.ops[o].w], s.ops[o].d).Some?
    case CheckStep(o, worker) => o in s.ops && MayWrite(s, s.ops[o], worker)
    case UpsertStep(o) => o in s.ops && (s.ops[o].Writing? || s.ops[o].Late?)
    case UpsertSeen(o) => Known(s, o) && s.ops[o].Writing? && Holds(s.zone, s.ops[o].d)
    case ReleaseStep(o) => Known(s, o) && s.ops[o].Releasing? && Holds(s.zone, s.ops[o].was)
    case ReleaseSeen(o) => Known(s, o) && s.ops[o].Releasing? && KeyOf(s.ops[o].was) !in s.zone
    case CommitStep(o) => Known(s, o) && s.ops[o].Committing? && Commit(s.services[s.ops[o].w]).Some?
    case UnbindBegin(o, w, d) => o !in s.ops && w in s.services && ResolveUnbind(s.services[w]) == Some(d)
    case DeleteStep(o) => Known(s, o) && s.ops[o].Deleting? && Holds(s.zone, s.ops[o].d)
    case DeleteSeen(o) => Known(s, o) && s.ops[o].Deleting? && KeyOf(s.ops[o].d) !in s.zone
    case ClearStep(o) => Known(s, o) && s.ops[o].Clearing? && Clear(s.services[s.ops[o].w]).Some?
    case Crash(o) => o in s.ops && s.ops[o].Writing?
    case Abandon(o) => o in s.ops
  }

  /** The service a store step writes, if it is one. */
  function Stores(s: State, e: Event): Option<Service>
    requires Enabled(s, e)
  {
    match e
    case Declare(n) => if n.workload in s.services then Merge(s.services[n.workload], n) else Some(n)
    case StageStep(o) => Stage(s.services[s.ops[o].w], s.ops[o].d)
    case CommitStep(o) => Commit(s.services[s.ops[o].w])
    case ClearStep(o) => Clear(s.services[s.ops[o].w])
    case _ => None
  }

  function StoreKey(s: State, e: Event): string
    requires Enabled(s, e)
  {
    match e
    case Declare(n) => n.workload
    case StageStep(o) => s.ops[o].w
    case CommitStep(o) => s.ops[o].w
    case ClearStep(o) => s.ops[o].w
    case _ => ""
  }

  function NextServices(s: State, e: Event): map<string, Service>
    requires Enabled(s, e)
  {
    if Stores(s, e).Some? then s.services[StoreKey(s, e) := Stores(s, e).value] else s.services
  }

  function NextZone(s: State, e: Event): Zone
    requires Enabled(s, e)
  {
    match e
    case Elsewhere(k, r) => if r.None? then s.zone - {k} else s.zone[k := r.value]
    case UpsertStep(o) => s.zone[KeyOf(s.ops[o].d) := A(s.ops[o].d.ip, s.ops[o].d.ttl, Mine(s.ops[o].w))]
    case ReleaseStep(o) => s.zone - {KeyOf(s.ops[o].was)}
    case DeleteStep(o) => s.zone - {KeyOf(s.ops[o].d)}
    case _ => s.zone
  }

  function NextOps(s: State, e: Event): map<nat, Op>
    requires Enabled(s, e)
  {
    match e
    case BindBegin(o, w, d, _, hostname) => s.ops[o := Staging(w, d, Binding(hostname), None)]
    case PublishBegin(o, w, d) => s.ops[o := Staging(w, d, Publishing, OldKey(s.services[w], d))]
    case StageStep(o) => s.ops[o := Staged(s.ops[o].w, s.ops[o].d, s.ops[o].how, s.ops[o].prior)]
    case CheckStep(o, _) => s.ops[o := Writing(s.ops[o].w, s.ops[o].d, s.ops[o].how, s.ops[o].prior)]
    case UpsertSeen(o) =>
      var op := s.ops[o];
      s.ops[o := if op.prior.Some? then Releasing(op.w, op.d, op.prior.value) else Committing(op.w, op.d)]
    case ReleaseSeen(o) => s.ops[o := Committing(s.ops[o].w, s.ops[o].d)]
    case UnbindBegin(o, w, d) => s.ops[o := Deleting(w, d)]
    case DeleteSeen(o) => s.ops[o := Clearing(s.ops[o].w, s.ops[o].d)]
    case CommitStep(o) => s.ops - {o}
    case ClearStep(o) => s.ops - {o}
    case Crash(o) => s.ops[o := Late(s.ops[o].w, s.ops[o].d)]
    case Abandon(o) => s.ops - {o}
    case _ => s.ops
  }

  function Step(s: State, e: Event): State
    requires Enabled(s, e)
  {
    State(NextServices(s, e), NextZone(s, e), NextOps(s, e))
  }

  ghost predicate Runs(s: State, es: seq<Event>)
    decreases |es|
  {
    es == [] || (Enabled(s, es[0]) && Runs(Step(s, es[0]), es[1..]))
  }

  ghost function After(s: State, es: seq<Event>): State
    requires Runs(s, es)
    decreases |es|
  {
    if es == [] then s else After(Step(s, es[0]), es[1..])
  }

  lemma {:induction false} Extend(s: State, es: seq<Event>, e: Event)
    requires Runs(s, es) && Enabled(After(s, es), e)
    ensures Runs(s, es + [e]) && After(s, es + [e]) == Step(After(s, es), e)
    decreases |es|
  {
    hide Step, Enabled;
    if es == [] {
      assert (es + [e])[1..] == [];
    } else {
      assert (es + [e])[1..] == es[1..] + [e];
      Extend(Step(s, es[0]), es[1..], e);
    }
  }

  // ---- Every record a workload wrote is claimed by that workload. ----

  predicate WrittenBy(z: Zone, k: Key, w: string) {
    k in z && z[k].A? && z[k].writer == Mine(w)
  }

  ghost predicate Owned(z: Zone, services: map<string, Service>) {
    forall k, w | WrittenBy(z, k, w) :: w in services && Claims(services[w], k, z[k])
  }

  /** Nothing but the record `d` was written by `w`. */
  ghost predicate OnlyWrote(z: Zone, w: string, d: Domain) {
    forall k | WrittenBy(z, k, w) :: k == KeyOf(d) && Matches(z[k], d)
  }

  ghost predicate WroteNothing(z: Zone, w: string) {
    forall k :: !WrittenBy(z, k, w)
  }

  // ---- Exactly which steps lose a claim. ----

  /** The step leaves every record claimed: an upsert of a domain its workload still claims, a commit of the only
      domain written, a clear with nothing written. */
  ghost predicate Safe(s: State, e: Event)
    requires Enabled(s, e)
  {
    match e
    case UpsertStep(o) =>
      var op := s.ops[o];
      op.w in s.services && Claims(s.services[op.w], KeyOf(op.d), A(op.d.ip, op.d.ttl, Mine(op.w)))
    case CommitStep(o) => OnlyWrote(s.zone, s.ops[o].w, s.services[s.ops[o].w].pending.value)
    case ClearStep(o) => WroteNothing(s.zone, s.ops[o].w)
    case _ => true
  }

  lemma OwnedAfterStore(z: Zone, services: map<string, Service>, w: string, v: Service)
    requires Owned(z, services)
    ensures Owned(z, services[w := v]) <==> forall k | WrittenBy(z, k, w) :: Claims(v, k, z[k])
  {
    hide Claims;
    var n := services[w := v];
    if Owned(z, n) {
      assert forall k | WrittenBy(z, k, w) :: Claims(n[w], k, z[k]);
    }
  }

  lemma StoreKeepsClaims(s: State, e: Event)
    requires Enabled(s, e) && Owned(s.zone, s.services) && Stores(s, e).Some?
    ensures Owned(s.zone, NextServices(s, e)) <==> Safe(s, e)
  {
    hide Canonical, ValidService, SameKey;
    var w, v := StoreKey(s, e), Stores(s, e).value;
    OwnedAfterStore(s.zone, s.services, w, v);
    assert forall k | WrittenBy(s.zone, k, w) :: w in s.services && Claims(s.services[w], k, s.zone[k]);
  }

  lemma ZoneKeepsClaims(s: State, e: Event)
    requires Enabled(s, e) && Owned(s.zone, s.services) && Stores(s, e).None?
    ensures Owned(NextZone(s, e), s.services) <==> Safe(s, e)
  {
    hide Canonical, ValidService, Claims, ResolveBind, Stage, Commit, Clear, Merge;
    var n := NextZone(s, e);
    if e.UpsertStep? {
      var k := KeyOf(s.ops[e.o].d);
      assert WrittenBy(n, k, s.ops[e.o].w);
      assert forall j, w | WrittenBy(n, j, w) && j != k :: WrittenBy(s.zone, j, w) && n[j] == s.zone[j];
    } else {
      assert forall j, w | WrittenBy(n, j, w) :: WrittenBy(s.zone, j, w) && n[j] == s.zone[j];
    }
  }

  /** A step leaves every record of every workload claimed exactly when it is safe. */
  lemma StepKeepsClaimsExactly(s: State, e: Event)
    requires Enabled(s, e) && Owned(s.zone, s.services)
    ensures Owned(Step(s, e).zone, Step(s, e).services) <==> Safe(s, e)
  {
    hide Owned, Safe, Enabled, NextZone;
    if Stores(s, e).Some? {
      StoreKeepsClaims(s, e);
      SameZone(s, e);
    } else {
      ZoneKeepsClaims(s, e);
    }
  }

  lemma SameZone(s: State, e: Event)
    requires Enabled(s, e) && Stores(s, e).Some?
    ensures NextZone(s, e) == s.zone
  {
    hide Enabled, Stage, Commit, Clear, Merge;
  }

  ghost predicate AlwaysOwned(s: State, es: seq<Event>)
    requires Runs(s, es)
    decreases |es|
  {
    Owned(s.zone, s.services) && (es == [] || AlwaysOwned(Step(s, es[0]), es[1..]))
  }

  ghost predicate AllSafe(s: State, es: seq<Event>)
    requires Runs(s, es)
    decreases |es|
  {
    es == [] || (Safe(s, es[0]) && AllSafe(Step(s, es[0]), es[1..]))
  }

  /** Over every run, however operations overlap, all records stay claimed all the time exactly when every upsert finds
      its claim stored, every commit nothing else written, and every clear nothing written at all. */
  lemma {:induction false} AlwaysOwnedExactly(s: State, es: seq<Event>)
    requires Owned(s.zone, s.services) && Runs(s, es)
    ensures AlwaysOwned(s, es) <==> AllSafe(s, es)
    decreases |es|
  {
    hide Owned, Safe, Step, Enabled;
    if es != [] {
      var n := Step(s, es[0]);
      StepKeepsClaimsExactly(s, es[0]);
      if Owned(n.zone, n.services) {
        AlwaysOwnedExactly(n, es[1..]);
      } else {
        NotAlways(n, es[1..]);
      }
    }
  }

  lemma NotAlways(s: State, es: seq<Event>)
    requires Runs(s, es) && !Owned(s.zone, s.services)
    ensures !AlwaysOwned(s, es)
  {
    hide Owned, Step, Enabled;
  }

  // ---- Operations that may overlap. ----

  predicate IsUnbind(op: Op) {
    op.Deleting? || op.Clearing?
  }

  /** Two operations on one workload get along if both unbind, or both bind or publish the same domain. */
  predicate GetAlong(a: Op, b: Op) {
    a.w != b.w || (IsUnbind(a) && IsUnbind(b)) || (!IsUnbind(a) && !IsUnbind(b) && a.d == b.d)
  }

  predicate Opens(e: Event) {
    e.BindBegin? || e.PublishBegin? || e.UnbindBegin?
  }

  /** No operation is begun while one that it does not get along with is under way: what a caller has to check. */
  ghost predicate Admitted(s: State, e: Event)
    requires Enabled(s, e)
  {
    Opens(e) ==> forall o | o in s.ops :: GetAlong(s.ops[o], NextOps(s, e)[e.o])
  }

  ghost predicate Orderly(s: State, es: seq<Event>)
    requires Runs(s, es)
    decreases |es|
  {
    es == [] || (Admitted(s, es[0]) && Orderly(Step(s, es[0]), es[1..]))
  }

  // ---- What an operation relies on. ----

  /** The workload claims `d`: not yet committed, or already. */
  predicate Backed(v: Service, d: Domain) {
    v.pending == Some(d) || (v.pending.None? && v.domain == Some(d))
  }

  /** What was read as the committed domain under another key still is, unless `d` was committed since. */
  predicate Remembers(v: Service, d: Domain, prior: Option<Domain>) {
    OldKey(v, d) == prior || v.domain == Some(d)
  }

  ghost predicate OpHolds(s: State, op: Op) {
    op.w in s.services &&
    var v := s.services[op.w];
    match op
    case Staging(_, d, _, prior) => Remembers(v, d, prior)
    case Staged(_, d, _, prior) => Backed(v, d) && Remembers(v, d, prior)
    case Writing(_, d, _, prior) => Backed(v, d) && Remembers(v, d, prior)
    case Late(_, d) => Backed(v, d)
    case Releasing(_, d, was) => Backed(v, d) && Remembers(v, d, Some(was))
    case Committing(w, d) => Backed(v, d) && OnlyWrote(s.zone, w, d)
    case Deleting(_, d) => v.pending.None? && (v.domain.Some? ==> v.domain == Some(d))
    case Clearing(w, _) => v.pending.None? && WroteNothing(s.zone, w)
  }

  ghost predicate Inv(s: State) {
    && Owned(s.zone, s.services)
    && (forall o | o in s.ops :: OpHolds(s, s.ops[o]))
    && (forall o, p | o in s.ops && p in s.ops && o != p :: GetAlong(s.ops[o], s.ops[p]))
  }

  /** With no operation under way the invariant is that every record is claimed. */
  lemma QuietHolds(s: State)
    requires s.ops == map[]
    ensures Inv(s) <==> Owned(s.zone, s.services)
  {
  }

  predicate HasOp(e: Event) {
    !e.Elsewhere? && !e.Declare? && !Opens(e)
  }

  lemma SafeWhenHeld(s: State, e: Event)
    requires Enabled(s, e) && (HasOp(e) ==> OpHolds(s, s.ops[e.o]))
    ensures Safe(s, e)
  {
    hide Canonical, ValidService, ResolveBind, Merge, Stage;
  }

  /** What an operation relies on survives steps of compatible ones: those that change the store, */
  lemma OthersSurviveStore(s: State, e: Event, x: Op)
    requires Enabled(s, e) && OpHolds(s, x) && Stores(s, e).Some?
    requires HasOp(e) ==> OpHolds(s, s.ops[e.o]) && GetAlong(s.ops[e.o], x)
    ensures OpHolds(Step(s, e), x)
  {
    hide Canonical, ValidService, ResolveBind, OnlyWrote, WroteNothing;
    SameZone(s, e);
  }

  /** and those that do not. */
  lemma OthersSurviveZone(s: State, e: Event, x: Op)
    requires Enabled(s, e) && OpHolds(s, x) && Stores(s, e).None?
    requires HasOp(e) ==> GetAlong(s.ops[e.o], x)
    ensures OpHolds(Step(s, e), x)
  {
    hide Canonical, ResolveBind, Stage, Commit, Clear, Merge, Backed, Remembers;
    var n := NextZone(s, e);
    assert forall k | WrittenBy(n, k, x.w) && !(e.UpsertStep? && s.ops[e.o].w == x.w && k == KeyOf(s.ops[e.o].d)) ::
        WrittenBy(s.zone, k, x.w) && n[k] == s.zone[k];
  }

  /** The operation that takes the step finds what its next phase relies on. */
  lemma OwnOpHolds(s: State, e: Event)
    requires Enabled(s, e) && Owned(s.zone, s.services) && (HasOp(e) || Opens(e)) && e.o in NextOps(s, e)
    requires HasOp(e) ==> OpHolds(s, s.ops[e.o])
    ensures OpHolds(Step(s, e), NextOps(s, e)[e.o])
  {
    hide Canonical, ValidService, ValidHostname, Merge;
    var n, op := Step(s, e), NextOps(s, e)[e.o];
    if op.Committing? || op.Clearing? {
      assert forall k | WrittenBy(s.zone, k, op.w) :: Claims(s.services[op.w], k, s.zone[k]);
    }
  }

  lemma OpsAfter(s: State, e: Event)
    requires Enabled(s, e)
    ensures forall p | p in NextOps(s, e) && ((HasOp(e) || Opens(e)) ==> p != e.o) ::
              p in s.ops && NextOps(s, e)[p] == s.ops[p]
    ensures HasOp(e) ==> e.o in s.ops
    ensures HasOp(e) && e.o in NextOps(s, e) ==>
              NextOps(s, e)[e.o].w == s.ops[e.o].w && NextOps(s, e)[e.o].d == s.ops[e.o].d &&
              IsUnbind(NextOps(s, e)[e.o]) == IsUnbind(s.ops[e.o])
    ensures Opens(e) ==> e.o !in s.ops
  {
    hide Canonical, ResolveBind, Stage, Commit, Clear, Merge, ValidService;
  }

  lemma StepKeeps(s: State, e: Event)
    requires Inv(s) && Enabled(s, e) && Admitted(s, e)
    ensures Inv(Step(s, e))
  {
    hide Enabled, Owned, OpHolds, NextOps, NextZone, NextServices, Safe;
    var n := Step(s, e);
    OpsAfter(s, e);
    SafeWhenHeld(s, e);
    StepKeepsClaimsExactly(s, e);
    forall p | p in n.ops
      ensures OpHolds(n, n.ops[p])
    {
      if (HasOp(e) || Opens(e)) && p == e.o {
        OwnOpHolds(s, e);
      } else if Stores(s, e).Some? {
        OthersSurviveStore(s, e, s.ops[p]);
      } else {
        OthersSurviveZone(s, e, s.ops[p]);
      }
    }
  }

  /** From every crash point of every orderly run, each record a workload wrote is its current or pending claim:
      any number of operations may overlap, if they get along. */
  lemma {:induction false} RecordsStayClaimed(s: State, es: seq<Event>)
    requires Inv(s) && Runs(s, es) && Orderly(s, es)
    ensures Inv(After(s, es))
    decreases |es|
  {
    hide Inv, Step, Enabled, Admitted;
    if es != [] {
      StepKeeps(s, es[0]);
      RecordsStayClaimed(Step(s, es[0]), es[1..]);
    }
  }
}
