/** Destroying a Worker's domain records (cmd/dirextalk-agent/core_cloud_worker_ssh_executor.go,
    destroyWorkerResources): the clean-up of everything a run of the domain protocol may have left. */
module Destroy {
  import opened Common
  import opened WorkloadStore
  import opened Route53
  import opened DomainProtocol
  import opened DomainRuns
  import opened DomainIntent
  import DomainRaces
  import opened StoredView

  /** What happens around the clean-up of one service: others' edits before it, and the provider's answers. */
  datatype Round = Round(edits: seq<Edit>, reachable: bool, cp: Calls, cc: Calls)

  /** Every workload record of `n` was already there. */
  ghost predicate Shrunk(z: Zone, n: Zone) {
    forall k, w | WrittenBy(n, k, w) :: WrittenBy(z, k, w) && n[k] == z[k]
  }

  lemma {:induction false} EditsShrink(z: Zone, edits: seq<Edit>)
    ensures Shrunk(z, Edited(z, edits))
    decreases |edits|
  {
    if edits != [] {
      EditsShrink(z, edits[..|edits| - 1]);
    }
  }

  /** The loop of `destroyWorkerResources` over the services from `i` on. */
  function CleanAll(z: Zone, services: seq<Service>, i: nat, rounds: nat -> Round): Cleanup
    requires i <= |services|
    decreases |services| - i
  {
    if i == |services| then Cleanup(true, z)
    else
      var one := DeleteDomain(Edited(z, rounds(i).edits), services[i], rounds(i).reachable, rounds(i).cp, rounds(i).cc);
      var rest := CleanAll(one.zone, services, i + 1, rounds);
      Cleanup(one.ok && rest.ok, rest.zone)
  }

  /** A record of the workload is in the one situation in which its clean-up may go wrong unnoticed. */
  ghost predicate AtRisk(z: Zone, s: Service) {
    Exposed(z, s) && WrittenBy(z, KeyOf(s.pending.value), s.workload)
  }

  lemma CleanupShrinks(z: Zone, s: Service, r: Round)
    ensures Shrunk(z, DeleteDomain(z, s, r.reachable, r.cp, r.cc).zone)
  {
    hide DeleteDomain, Canonical;
    CleanupTouchesOnlyClaims(z, s, r.reachable, r.cp, r.cc);
  }

  /** A successful clean-up of a service that is not at risk leaves none of its records. */
  lemma SuccessLeavesNothing(z: Zone, s: Service, r: Round)
    requires DeleteDomain(z, s, r.reachable, r.cp, r.cc).ok && !AtRisk(z, s)
    requires forall k | WrittenBy(z, k, s.workload) :: Claims(s, k, z[k])
    ensures WroteNothing(DeleteDomain(z, s, r.reachable, r.cp, r.cc).zone, s.workload)
  {
    hide DeleteDomain, Canonical, PlannedDelete;
    CleanupShrinks(z, s, r);
    if !Exposed(z, s) {
      SuccessIsCleanUnlessSwallowed(z, s, r.reachable, r.cp, r.cc);
    }
  }

  lemma ShrunkTrans(a: Zone, b: Zone, c: Zone)
    requires Shrunk(a, b) && Shrunk(b, c)
    ensures Shrunk(a, c)
  {
  }

  lemma ShrunkKeeps(z: Zone, n: Zone, services: map<string, Service>)
    requires Shrunk(z, n) && Owned(z, services)
    ensures Owned(n, services)
  {
  }

  lemma ShrunkRisk(z: Zone, n: Zone, s: Service)
    requires Shrunk(z, n) && AtRisk(n, s)
    ensures AtRisk(z, s)
  {
    hide Canonical;
  }

  /** Whatever the provider answers and others do meanwhile, the clean-up adds no record of a workload; and if it
      succeeds, every workload it went through has none left. */
  lemma {:induction false} CleanAllLeavesNothing(z: Zone, services: seq<Service>, i: nat, rounds: nat -> Round)
    requires i <= |services| && Owned(z, View(services))
    requires forall j | 0 <= j < |services| :: !AtRisk(z, services[j])
    ensures Shrunk(z, CleanAll(z, services, i, rounds).zone)
    ensures CleanAll(z, services, i, rounds).ok ==>
              forall k, w | WrittenBy(CleanAll(z, services, i, rounds).zone, k, w) :: 0 <= IndexOf(services, w) < i
    decreases |services| - i
  {
    hide Owned, View, DeleteDomain, AtRisk, Shrunk, IndexOf, Claims;
    var n := CleanAll(z, services, i, rounds);
    if i == |services| {
      NothingDone(z, services);
    } else {
      var r, s := rounds(i), services[i];
      var y := Edited(z, r.edits);
      var one := DeleteDomain(y, s, r.reachable, r.cp, r.cc);
      EditsShrink(z, r.edits);
      CleanupShrinks(y, s, r);
      ShrunkTrans(z, y, one.zone);
      ShrunkKeeps(z, one.zone, View(services));
      forall j | 0 <= j < |services|
        ensures !AtRisk(one.zone, services[j])
      {
        if AtRisk(one.zone, services[j]) { ShrunkRisk(z, one.zone, services[j]); }
      }
      CleanAllLeavesNothing(one.zone, services, i + 1, rounds);
      ShrunkTrans(z, one.zone, n.zone);
      if n.ok {
        forall k, w | WrittenBy(n.zone, k, w)
          ensures 0 <= IndexOf(services, w) < i
        {
          assert IndexOf(services, w) <= i;
          if IndexOf(services, w) == i {
            ServiceCleaned(z, y, services, i, r);
            StillNothing(one.zone, n.zone, k, w);
            assert false;
          }
        }
      }
    }
  }

  lemma NothingDone(z: Zone, services: seq<Service>)
    requires Owned(z, View(services))
    ensures Shrunk(z, z)
    ensures forall k, w | WrittenBy(z, k, w) :: 0 <= IndexOf(services, w) < |services|
  {
    hide View, IndexOf;
    forall k, w | WrittenBy(z, k, w)
      ensures 0 <= IndexOf(services, w) < |services|
    {
      ViewAt(services, w);
    }
  }

  lemma StillNothing(z: Zone, n: Zone, k: Key, w: string)
    requires Shrunk(z, n) && WroteNothing(z, w)
    ensures !WrittenBy(n, k, w)
  {
  }

  lemma ServiceCleaned(z: Zone, y: Zone, services: seq<Service>, i: nat, r: Round)
    requires i < |services| && Owned(z, View(services)) && Shrunk(z, y) && !AtRisk(z, services[i])
    requires IndexOf(services, services[i].workload) == i
    requires DeleteDomain(y, services[i], r.reachable, r.cp, r.cc).ok
    ensures WroteNothing(DeleteDomain(y, services[i], r.reachable, r.cp, r.cc).zone, services[i].workload)
  {
    hide View, DeleteDomain, AtRisk, IndexOf;
    ShrunkKeeps(z, y, View(services));
    ViewAt(services, services[i].workload);
    if AtRisk(y, services[i]) { ShrunkRisk(z, y, services[i]); }
    SuccessLeavesNothing(y, services[i], r);
  }

  /** From every point at which an orderly run of binds, publishes and unbinds may crash, a destroy that reports success
      leaves no record a workload wrote, unless a clean-up was at risk; one that does not keeps every claim. */
  lemma CrashThenDestroy(s: State, es: seq<Event>, services: seq<Service>, rounds: nat -> Round)
    requires Inv(s) && Runs(s, es) && Orderly(s, es) && View(services) == After(s, es).services
    ensures var z := After(s, es).zone;
            var n := CleanAll(z, services, 0, rounds);
            && Owned(n.zone, View(services))
            && (n.ok && NoneAtRisk(z, services) ==> forall w :: WroteNothing(n.zone, w))
  {
    hide Runs, After, Claims, View, IndexOf, CleanAll, AtRisk, Orderly;
    RecordsStayClaimed(s, es);
    var z := After(s, es).zone;
    var n := CleanAll(z, services, 0, rounds);
    CleanAllShrinks(z, services, 0, rounds);
    ShrunkKeeps(z, n.zone, View(services));
    if NoneAtRisk(z, services) {
      CleanAllLeavesNothing(z, services, 0, rounds);
    }
  }

  lemma {:induction false} CleanAllShrinks(z: Zone, services: seq<Service>, i: nat, rounds: nat -> Round)
    requires i <= |services|
    ensures Shrunk(z, CleanAll(z, services, i, rounds).zone)
    decreases |services| - i
  {
    hide DeleteDomain, Shrunk;
    if i == |services| {
      ShrunkSelf(z);
    } else {
      var r := rounds(i);
      var y := Edited(z, r.edits);
      var one := DeleteDomain(y, services[i], r.reachable, r.cp, r.cc);
      EditsShrink(z, r.edits);
      CleanupShrinks(y, services[i], r);
      ShrunkTrans(z, y, one.zone);
      CleanAllShrinks(one.zone, services, i + 1, rounds);
      ShrunkTrans(z, one.zone, CleanAll(z, services, i, rounds).zone);
    }
  }

  lemma ShrunkSelf(z: Zone)
    ensures Shrunk(z, z)
  {
  }

  // ---- With a provider that answers. ----

  const ANSWERED := Round([], true, FINE, FINE)

  ghost function UnclaimedFrom(z: Zone, services: seq<Service>, i: nat): Zone
    decreases |services| - i
  {
    if i >= |services| then z else UnclaimedFrom(Unclaimed(z, services[i]), services, i + 1)
  }

  lemma {:induction false} UnclaimedExactly(z: Zone, services: seq<Service>, i: nat)
    requires i <= |services|
    ensures UnclaimedFrom(z, services, i) ==
            map k | k in z && (forall j | i <= j < |services| :: !Claims(services[j], k, z[k])) :: z[k]
    decreases |services| - i
  {
    hide Claims;
    if i < |services| {
      UnclaimedExactly(Unclaimed(z, services[i]), services, i + 1);
    }
  }

  lemma {:induction false} AnsweredCleanAll(z: Zone, y: Zone, services: seq<Service>, i: nat, rounds: nat -> Round)
    requires i <= |services| && (forall j :: rounds(j) == ANSWERED)
    requires forall k | k in y :: k in z && y[k] == z[k]
    requires forall j | 0 <= j < |services| :: !Unreadable(z, services[j])
    ensures CleanAll(y, services, i, rounds) == Cleanup(true, UnclaimedFrom(y, services, i))
    decreases |services| - i
  {
    hide DeleteDomain, Claims, KeyOf;
    if i < |services| {
      NoEdits(y);
      CleanupAnswersExactly(y, services[i], FINE, FINE);
      assert !Unreadable(y, services[i]);
      AnsweredCleanAll(z, Unclaimed(y, services[i]), services, i + 1, rounds);
    }
  }

  /** With a provider that answers and no record under a claimed key that cannot be read, the clean-up succeeds, and
      what it removes from the zone is exactly the records that some service claims. */
  lemma AnsweredDestroyExactly(z: Zone, services: seq<Service>, rounds: nat -> Round)
    requires (forall j :: rounds(j) == ANSWERED) && forall j | 0 <= j < |services| :: !Unreadable(z, services[j])
    ensures CleanAll(z, services, 0, rounds) ==
            Cleanup(true, map k | k in z && (forall j | 0 <= j < |services| :: !Claims(services[j], k, z[k])) :: z[k])
  {
    hide CleanAll, Claims;
    AnsweredCleanAll(z, z, services, 0, rounds);
    UnclaimedExactly(z, services, 0);
  }

  // ---- The risk is real. ----

  /** An orderly run of one operation reaches it: the record of the committed domain is deleted elsewhere, a publish
      writes the same key with a new value, and crashes before it commits. */
  lemma RiskIsReached(s: State, w: string, d: Domain, e: Domain) returns (es: seq<Event>)
    requires s.ops == map[] && w in s.services && s.services[w].workload == w
    requires s.services[w].domain == Some(d) && s.services[w].pending.None?
    requires SameKey(d, e) && !SameValue(d, e) && Stage(s.services[w], e).Some?
    ensures Runs(s, es) && Orderly(s, es) && After(s, es).ops == map[]
    ensures w in After(s, es).services && AtRisk(After(s, es).zone, After(s, es).services[w])
  {
    hide Runs, After, Orderly, Canonical, ValidService, Enabled, Step;
    var t;
    es, t := Begin(s);
    es, t := DoElsewhere(s, es, t, KeyOf(d), None);
    es, t := DoPublish(s, es, t, 0, w, e);
    es, t := DoStage(s, es, t, 0);
    es, t := DoCheck(s, es, t, 0, Worker("", ""));
    es, t := DoUpsert(s, es, t, 0);
    es, t := DoAbandon(s, es, t, 0);
  }

  predicate Names(s: Service, k: Key) {
    (s.pending.Some? && KeyOf(s.pending.value) == k) || (s.domain.Some? && KeyOf(s.domain.value) == k)
  }

  /** No service but `j` claims a record under key `k`. */
  ghost predicate OnlyNamedBy(services: seq<Service>, j: nat, k: Key) {
    forall i | 0 <= i < |services| && i != j :: !Names(services[i], k)
  }

  /** No two services claim the key of a record that is at risk. */
  ghost predicate RisksApart(z: Zone, services: seq<Service>) {
    forall j | 0 <= j < |services| && AtRisk(z, services[j]) ::
             OnlyNamedBy(services, j, KeyOf(services[j].pending.value))
  }

  /** Others delete both records of a service. */
  function Removals(s: Service): seq<Edit> {
    (if s.pending.Some? then [Edit(KeyOf(s.pending.value), None)] else []) +
    (if s.domain.Some? then [Edit(KeyOf(s.domain.value), None)] else [])
  }

  const WRONG := FINE.(verify1 := WrongAccount)

  /** The answers under which the clean-up of service `j` goes wrong unnoticed and all others find nothing to do. */
  function LeakyRounds(services: seq<Service>, j: nat): nat -> Round {
    (i: nat) => if i == j then Round([], true, WRONG, FINE)
         else Round(if i < |services| then Removals(services[i]) else [], true, FINE, FINE)
  }

  lemma RemovalsRemove(z: Zone, s: Service)
    ensures var y := Edited(z, Removals(s));
            && (s.pending.Some? ==> KeyOf(s.pending.value) !in y) && (s.domain.Some? ==> KeyOf(s.domain.value) !in y)
            && forall k | k in z && !Names(s, k) :: k in y && y[k] == z[k]
  {
    hide Canonical;
    var es := Removals(s);
    if |es| == 2 {
      assert es[..1][..0] == [];
      assert es[..1] == [es[0]];
      assert Edited(z, es[..1]) == EditedOnce(z, es[0]);
    } else if |es| == 1 {
      assert es[..0] == [];
    }
  }

  lemma NothingToDelete(y: Zone, s: Service)
    requires s.pending.Some? ==> KeyOf(s.pending.value) !in y
    requires s.domain.Some? ==> KeyOf(s.domain.value) !in y
    ensures DeleteDomain(y, s, true, FINE, FINE) == Cleanup(true, y)
  {
    hide Canonical;
  }

  lemma ExposedIsSkipped(z: Zone, s: Service)
    requires Exposed(z, s)
    ensures DeleteDomain(z, s, true, WRONG, FINE) == Cleanup(true, z)
  {
    hide Canonical;
    assert PlannedDelete(z, s.pending.value, WRONG) == Change(Some(Readback), z);
    assert PlannedDelete(z, s.domain.value, FINE) == Change(Some(Mismatch), z);
  }

  lemma ExposedMoves(z: Zone, y: Zone, s: Service)
    requires Exposed(z, s) && KeyOf(s.pending.value) in y && y[KeyOf(s.pending.value)] == z[KeyOf(s.pending.value)]
    ensures Exposed(y, s)
  {
    hide Canonical;
  }

  /** One leaky round succeeds and leaves the record of service `j` where it is. */
  lemma LeakyRound(z: Zone, y: Zone, services: seq<Service>, j: nat, i: nat, k: Key)
    requires i < |services| && j < |services| && OnlyNamedBy(services, j, k)
    requires Exposed(z, services[j]) && k == KeyOf(services[j].pending.value) && k in y && y[k] == z[k]
    ensures var r := LeakyRounds(services, j)(i);
            var one := DeleteDomain(Edited(y, r.edits), services[i], r.reachable, r.cp, r.cc);
            one.ok && k in one.zone && one.zone[k] == z[k]
  {
    hide DeleteDomain, Exposed, Edited, Removals, KeyOf;
    if i == j {
      NoEdits(y);
      ExposedMoves(z, y, services[j]);
      ExposedIsSkipped(y, services[j]);
    } else {
      RemovalsRemove(y, services[i]);
      assert !Names(services[i], k);
      hide Names, OnlyNamedBy;
      NothingToDelete(Edited(y, Removals(services[i])), services[i]);
    }
  }

  lemma {:induction false} LeakyCleanAll(z: Zone, y: Zone, services: seq<Service>, j: nat, i: nat, k: Key)
    requires i <= |services| && j < |services| && OnlyNamedBy(services, j, k)
    requires Exposed(z, services[j]) && k == KeyOf(services[j].pending.value) && k in y && y[k] == z[k]
    ensures var n := CleanAll(y, services, i, LeakyRounds(services, j)); n.ok && k in n.zone && n.zone[k] == z[k]
    decreases |services| - i
  {
    hide DeleteDomain, Exposed, Edited, LeakyRounds, OnlyNamedBy, KeyOf;
    if i < |services| {
      var r := LeakyRounds(services, j)(i);
      LeakyRound(z, y, services, j, i, k);
      LeakyCleanAll(z, DeleteDomain(Edited(y, r.edits), services[i], r.reachable, r.cp, r.cc).zone, services, j, i + 1,
                    k);
    }
  }

  /** With no service left to go wrong, the same answers let every clean-up succeed. */
  lemma {:induction false} EmptyCleanAll(y: Zone, services: seq<Service>, i: nat)
    requires i <= |services|
    ensures CleanAll(y, services, i, LeakyRounds(services, |services|)).ok
    decreases |services| - i
  {
    hide DeleteDomain, Edited, Removals, KeyOf, Names;
    if i < |services| {
      var x := Edited(y, Removals(services[i]));
      RemovalsRemove(y, services[i]);
      NothingToDelete(x, services[i]);
      EmptyCleanAll(x, services, i + 1);
    }
  }

  lemma NoEdits(z: Zone)
    ensures Edited(z, []) == z
  {
  }

  /** A destroy can report success, so that the stored state is removed, and leave a workload's record behind. */
  lemma DestroyCanLeak(z: Zone, services: seq<Service>, j: nat)
    requires j < |services| && AtRisk(z, services[j]) && OnlyNamedBy(services, j, KeyOf(services[j].pending.value))
    ensures var n := CleanAll(z, services, 0, LeakyRounds(services, j));
            n.ok && WrittenBy(n.zone, KeyOf(services[j].pending.value), services[j].workload)
  {
    hide CleanAll, OnlyNamedBy, Canonical;
    LeakyCleanAll(z, z, services, j, 0, KeyOf(services[j].pending.value));
  }

  ghost predicate NoneAtRisk(z: Zone, services: seq<Service>) {
    forall j | 0 <= j < |services| :: !AtRisk(z, services[j])
  }

  /** Where no two services claim the key of a record at risk, success of the destroy guarantees that no workload's
      record remains exactly when no service is at risk. */
  lemma DestroyExact(z: Zone, services: seq<Service>)
    requires Owned(z, View(services)) && RisksApart(z, services)
    ensures (forall rounds :: CleanAll(z, services, 0, rounds).ok ==>
                                forall w :: WroteNothing(CleanAll(z, services, 0, rounds).zone, w))
            <==> NoneAtRisk(z, services)
  {
    hide CleanAll, Owned, OnlyNamedBy, AtRisk, View, Canonical;
    if j :| 0 <= j < |services| && AtRisk(z, services[j]) {
      DestroyCanLeak(z, services, j);
      var n := CleanAll(z, services, 0, LeakyRounds(services, j));
      assert !WroteNothing(n.zone, services[j].workload);
    } else {
      forall rounds | CleanAll(z, services, 0, rounds).ok
        ensures forall w :: WroteNothing(CleanAll(z, services, 0, rounds).zone, w)
      {
        CleanAllLeavesNothing(z, services, 0, rounds);
      }
    }
  }

  // ---- Operations that are still under way when the Worker's state is removed. ----

  /** The operation can still write its record without looking at the store again. */
  predicate InFlight(op: Op) {
    op.Writing? || op.Late? || (op.Staged? && op.how.Publishing?)
  }

  ghost predicate NoneInFlight(ops: map<nat, Op>) {
    forall o | o in ops :: !InFlight(ops[o])
  }

  ghost predicate NoDeclare(es: seq<Event>) {
    forall i | 0 <= i < |es| :: !es[i].Declare?
  }

  /** Without the store no operation gets any further, and only those in flight write. */
  lemma RemovedStep(t: State, e: Event)
    requires t.services == map[] && Enabled(t, e) && !e.Declare?
    ensures Step(t, e).services == map[]
    ensures NoneInFlight(t.ops) ==> NoneInFlight(Step(t, e).ops) && Shrunk(t.zone, Step(t, e).zone)
  {
    hide Canonical, ResolveBind, Stage, Commit, Clear, Merge;
    assert NoneInFlight(t.ops) ==> !e.UpsertStep?;
  }

  lemma {:induction false} QuietAfterRemoval(t: State, es: seq<Event>)
    requires t.services == map[] && Runs(t, es) && NoDeclare(es) && NoneInFlight(t.ops)
    ensures Shrunk(t.zone, After(t, es).zone)
    decreases |es|
  {
    hide Step, Enabled, NoneInFlight, Shrunk;
    if es == [] {
      ShrunkSelf(t.zone);
    } else {
      RemovedStep(t, es[0]);
      QuietAfterRemoval(Step(t, es[0]), es[1..]);
      ShrunkTrans(t.zone, Step(t, es[0]).zone, After(t, es).zone);
    }
  }

  /** An operation in flight writes its record into a zone that nobody will clean up any more. */
  lemma InFlightWrites(t: State, o: nat) returns (es: seq<Event>)
    requires o in t.ops && InFlight(t.ops[o])
    ensures Runs(t, es) && NoDeclare(es) && WrittenBy(After(t, es).zone, KeyOf(t.ops[o].d), t.ops[o].w)
  {
    hide Runs, After, Orderly, Canonical, Enabled, Step;
    var n;
    es, n := Begin(t);
    if t.ops[o].Staged? {
      es, n := DoElsewhere(t, es, n, KeyOf(t.ops[o].d), None);
      es, n := DoCheck(t, es, n, o, Worker("", ""));
    }
    es, n := DoUpsert(t, es, n, o);
  }

  /** The state after a clean-up that succeeded and the removal of the stored services: operations go on without them.
      Compute is gone and executions are stopped by then, so that nothing is declared any more. */
  ghost function Removed(s: State, services: seq<Service>, rounds: nat -> Round): State {
    State(map[], CleanAll(s.zone, services, 0, rounds).zone, s.ops)
  }

  ghost predicate Follows(s: State, services: seq<Service>, rounds: nat -> Round, es: seq<Event>) {
    CleanAll(s.zone, services, 0, rounds).ok && Runs(Removed(s, services, rounds), es) && NoDeclare(es)
  }

  /** Nothing is left, whatever the answers were and whatever operations still under way do afterwards. */
  ghost predicate LeavesNothing(s: State, services: seq<Service>) {
    forall rounds, es | Follows(s, services, rounds, es) ::
      forall w :: WroteNothing(After(Removed(s, services, rounds), es).zone, w)
  }

  lemma CleanStaysClean(s: State, services: seq<Service>)
    requires Owned(s.zone, View(services)) && NoneAtRisk(s.zone, services) && NoneInFlight(s.ops)
    ensures LeavesNothing(s, services)
  {
    hide CleanAll, Owned, View, Runs, After, NoneInFlight;
    forall rounds, es | Follows(s, services, rounds, es)
      ensures forall w :: WroteNothing(After(Removed(s, services, rounds), es).zone, w)
    {
      hide AtRisk;
      CleanAllLeavesNothing(s.zone, services, 0, rounds);
      QuietAfterRemoval(Removed(s, services, rounds), es);
    }
  }

  lemma RiskLeaves(s: State, services: seq<Service>, j: nat)
    requires RisksApart(s.zone, services) && j < |services| && AtRisk(s.zone, services[j])
    ensures !LeavesNothing(s, services)
  {
    hide CleanAll, AtRisk, OnlyNamedBy, Canonical, LeakyRounds;
    DestroyCanLeak(s.zone, services, j);
    var rounds := LeakyRounds(services, j);
    var t := Removed(s, services, rounds);
    assert Runs(t, []) && After(t, []) == t;
    assert Follows(s, services, rounds, []);
    assert !WroteNothing(t.zone, services[j].workload);
  }

  lemma InFlightLeaves(s: State, services: seq<Service>, o: nat)
    requires o in s.ops && InFlight(s.ops[o])
    ensures !LeavesNothing(s, services)
  {
    hide CleanAll, InFlight, Canonical, LeakyRounds, Runs, After;
    EmptyCleanAll(s.zone, services, 0);
    var rounds := LeakyRounds(services, |services|);
    var t := Removed(s, services, rounds);
    var es := InFlightWrites(t, o);
    assert Follows(s, services, rounds, es);
    assert !WroteNothing(After(t, es).zone, s.ops[o].w);
  }

  /** Success of the destroy guarantees that no workload's record remains, and that none appears later, exactly when no
      service is at risk and no operation is in flight. */
  lemma DestroyIsFinalExactly(s: State, services: seq<Service>)
    requires Owned(s.zone, View(services)) && RisksApart(s.zone, services)
    ensures LeavesNothing(s, services) <==> NoneAtRisk(s.zone, services) && NoneInFlight(s.ops)
  {
    hide Owned, View, LeavesNothing, AtRisk, InFlight, OnlyNamedBy, RisksApart;
    if o :| o in s.ops && InFlight(s.ops[o]) {
      InFlightLeaves(s, services, o);
    } else if j :| 0 <= j < |services| && AtRisk(s.zone, services[j]) {
      RiskLeaves(s, services, j);
    } else {
      CleanStaysClean(s, services);
    }
  }

  /** So it is at every point of every orderly run, with operations under way or crashed. */
  lemma CrashThenDestroyExactly(s: State, es: seq<Event>, services: seq<Service>)
    requires Inv(s) && Runs(s, es) && Orderly(s, es) && View(services) == After(s, es).services
    requires RisksApart(After(s, es).zone, services)
    ensures LeavesNothing(After(s, es), services) <==>
            NoneAtRisk(After(s, es).zone, services) && NoneInFlight(After(s, es).ops)
  {
    hide Runs, After, View, LeavesNothing, Orderly, RisksApart, Owned, OpHolds, NoneAtRisk, NoneInFlight;
    RecordsStayClaimed(s, es);
    DestroyIsFinalExactly(After(s, es), services);
  }

  // ---- What destroy leaves alone. ----

  /** A record that no stored service claims survives every destroy that nobody else interferes with. */
  lemma {:induction false} UnclaimedSurvives(z: Zone, services: seq<Service>, i: nat, rounds: nat -> Round, k: Key)
    requires i <= |services| && k in z && (forall j | 0 <= j < |services| :: !Claims(services[j], k, z[k]))
    requires forall j :: rounds(j).edits == []
    ensures var n := CleanAll(z, services, i, rounds); k in n.zone && n.zone[k] == z[k]
    decreases |services| - i
  {
    hide DeleteDomain, Claims;
    if i < |services| {
      var r := rounds(i);
      CleanupTouchesOnlyClaims(z, services[i], r.reachable, r.cp, r.cc);
      UnclaimedSurvives(DeleteDomain(z, services[i], r.reachable, r.cp, r.cc).zone, services, i + 1, rounds, k);
    }
  }

  /** So a record lost in a race is never cleaned up: no destroy of the Worker removes it, unless another of its
      services happens to claim the very same record. */
  lemma LostSurvives(s: State, w: string, d: Domain, services: seq<Service>, rounds: nat -> Round)
    requires DomainRaces.Lost(s, w, d) && View(services) == s.services && forall j :: rounds(j).edits == []
    requires forall j | 0 <= j < |services| &&
             services[j] != s.services[w] :: !Claims(services[j], KeyOf(d), s.zone[KeyOf(d)])
    ensures WrittenBy(CleanAll(s.zone, services, 0, rounds).zone, KeyOf(d), w)
  {
    hide Canonical, CleanAll, View;
    UnclaimedSurvives(s.zone, services, 0, rounds, KeyOf(d));
  }
}
