/** Planned changes to hosted-zone records (internal/cloudworker/remoteservice/dns.go) and the clean-up of one
    service's domain claims (cmd/dirextalk-agent/core_cloud_worker_ssh_executor.go, deleteDomain). */
module Route53 {
  import opened Common
  import opened WorkloadStore

  /** A record is named by its zone and canonical host name. */
  datatype Key = Key(zone: string, host: string)

  /** Who wrote a record. The code never sees this; it lets the proofs say which records are a workload's. */
  datatype Writer = Foreign | Mine(workload: string)

  /** An ordinary address record, or something the adapter refuses to read (an alias, several values). */
  datatype Record = A(ip: string, ttl: int, writer: Writer) | Odd

  type Zone = map<Key, Record>

  function KeyOf(d: Domain): Key {
    Key(d.zone, Canonical(d.hostname))
  }

  /** `sameDomainRecordKey`. */
  predicate SameKey(d: Domain, e: Domain) {
    KeyOf(d) == KeyOf(e)
  }

  predicate SameValue(d: Domain, e: Domain) {
    d.ip == e.ip && d.ttl == e.ttl
  }

  predicate Matches(r: Record, d: Domain) {
    r.A? && r.ip == d.ip && r.ttl == d.ttl
  }

  /** The zone holds exactly the record `d` describes. */
  predicate Holds(z: Zone, d: Domain) {
    KeyOf(d) in z && Matches(z[KeyOf(d)], d)
  }

  // ---- Changes by others. ----

  /** Someone else writes a record, or deletes one. */
  datatype Edit = Edit(k: Key, r: Option<Record>)

  predicate ByOthers(r: Option<Record>) {
    r.None? || r.value.Odd? || r.value.writer.Foreign?
  }

  function EditedOnce(z: Zone, e: Edit): Zone {
    if !ByOthers(e.r) then z else if e.r.None? then z - {e.k} else z[e.k := e.r.value]
  }

  function Edited(z: Zone, edits: seq<Edit>): Zone {
    if edits == [] then z else EditedOnce(Edited(z, edits[..|edits| - 1]), edits[|edits| - 1])
  }

  // ---- What a call to the provider may do. ----

  datatype Verify = Verified | WrongAccount | VerifyDown
  datatype Mutate = Applied | AckLost | Refused     // AckLost: the change happened but the caller sees an error

  /** The answers to the calls of one planned change. `valid` says that the mutation passes its own validation. */
  datatype Calls = Calls(valid: bool, verify1: Verify, read1: bool, verify2: Verify, mutate: Mutate, verify3: Verify,
                         read2: bool)

  datatype Problem = InvalidMutation | Down | Readback | Mismatch | Conflict

  function VerifyProblem(v: Verify): Option<Problem> {
    match v
    case Verified => None
    case WrongAccount => Some(Readback)
    case VerifyDown => Some(Down)
  }

  datatype Change = Change(problem: Option<Problem>, zone: Zone)

  /** The checks before a planned change touches anything. */
  function Before(c: Calls, z: Zone, d: Domain): Option<Problem> {
    if !c.valid then Some(InvalidMutation)
    else if c.verify1 != Verified then VerifyProblem(c.verify1)
    else if !c.read1 then Some(Down)
    else if KeyOf(d) in z && z[KeyOf(d)].Odd? then Some(Readback)
    else None
  }

  /** The read-back after it; `found` says whether the zone then shows what was intended. */
  function Afterwards(c: Calls, found: bool): Option<Problem> {
    if c.mutate != Applied then Some(Down)
    else if c.verify3 != Verified then VerifyProblem(c.verify3)
    else if !c.read2 then Some(Down)
    else if !found then Some(Readback)
    else None
  }

  /** `ReconcilePlannedDelete`. */
  function PlannedDelete(z: Zone, d: Domain, c: Calls): Change {
    var k := KeyOf(d);
    var before := Before(c, z, d);
    if before.Some? then Change(before, z)
    else if k !in z then Change(None, z)
    else if !Matches(z[k], d) then Change(Some(Mismatch), z)
    else if c.verify2 != Verified then Change(VerifyProblem(c.verify2), z)
    else
      var n := if c.mutate.Refused? then z else z - {k};
      Change(Afterwards(c, k !in n), n)
  }

  /** `ReconcilePlannedUpsert` for workload `w`; others make the changes `mid` between its read and its write. */
  function PlannedUpsert(z: Zone, d: Domain, w: string, c: Calls, mid: seq<Edit>): Change {
    var k := KeyOf(d);
    var before := Before(c, z, d);
    if before.Some? then Change(before, z)
    else if k in z && !Matches(z[k], d) then Change(Some(Conflict), z)
    else if c.verify2 != Verified then Change(VerifyProblem(c.verify2), Edited(z, mid))
    else
      var y := Edited(z, mid);
      var n := if c.mutate.Refused? then y else y[k := A(d.ip, d.ttl, Mine(w))];
      Change(Afterwards(c, Holds(n, d)), n)
  }

  /** A planned delete either leaves the zone alone or removes exactly the record it was asked to remove; it
      succeeds only when the key is free, and reports a mismatch only for another value. */
  lemma DeleteIsExact(z: Zone, d: Domain, c: Calls)
    ensures var r := PlannedDelete(z, d, c);
            && (r.zone == z || (Holds(z, d) && r.zone == z - {KeyOf(d)}))
            && (r.problem.None? ==> KeyOf(d) !in r.zone)
            && (r.problem == Some(Mismatch) ==> r.zone == z && KeyOf(d) in z && !Holds(z, d))
  {
    hide Canonical;
  }

  /** Every call is answered as it should be. */
  predicate Answered(c: Calls) {
    && c.valid && c.verify1.Verified? && c.read1 && c.verify2.Verified? && c.mutate.Applied?
    && c.verify3.Verified? && c.read2
  }

  /** A planned delete succeeds exactly if the record is absent when it is read, or is the one to delete and every call
      is answered; it reports a mismatch exactly if another ordinary record is read. */
  lemma DeleteAnswersExactly(z: Zone, d: Domain, c: Calls)
    ensures var r, k := PlannedDelete(z, d, c), Key(d.zone, Canonical(d.hostname));
            var seen := c.valid && c.verify1.Verified? && c.read1;
            && (r.problem.None? <==> seen && (k !in z || (Holds(z, d) && Answered(c))))
            && (r.problem == Some(Mismatch) <==> seen && k in z && z[k].A? && !(z[k].ip == d.ip && z[k].ttl == d.ttl))
            && (Answered(c) ==> r.zone == if Holds(z, d) then z - {k} else z)
  {
    hide Canonical;
  }

  /** A planned upsert succeeds exactly if the key is read as free or already right and every call is answered. */
  lemma UpsertAnswersExactly(z: Zone, d: Domain, w: string, c: Calls, mid: seq<Edit>)
    ensures var r, k := PlannedUpsert(z, d, w, c, mid), Key(d.zone, Canonical(d.hostname));
            && (r.problem.None? <==> Answered(c) && (k in z ==> z[k].A? && z[k].ip == d.ip && z[k].ttl == d.ttl))
            && (r.problem.None? ==> r.zone == Edited(z, mid)[k := A(d.ip, d.ttl, Mine(w))])
  {
    hide Canonical, Edited;
  }

  /** A planned upsert changes at most its own record, and success leaves the intended one, written by `w`. */
  lemma UpsertIsExact(z: Zone, d: Domain, w: string, c: Calls, mid: seq<Edit>)
    ensures var r, written := PlannedUpsert(z, d, w, c, mid), Edited(z, mid)[KeyOf(d) := A(d.ip, d.ttl, Mine(w))];
            && (r.zone == z || r.zone == Edited(z, mid) || ((KeyOf(d) in z ==> Holds(z, d)) && r.zone == written))
            && (r.problem.None? ==> r.zone == written)
  {
    hide Canonical, Edited;
  }

  /** The change from `y` to `n` puts the record of `d` over another value. */
  predicate Overwrites(y: Zone, n: Zone, d: Domain) {
    KeyOf(d) in y && !Holds(y, d) && Holds(n, d)
  }

  /** The read before the write protects only what it can see: with a provider that answers, another value is
      overwritten if and only if the key was free or right when read and no longer is when written. */
  lemma UpsertOverwritesExactly(z: Zone, d: Domain, w: string, mid: seq<Edit>)
    ensures var y := Edited(z, mid);
            Overwrites(y, PlannedUpsert(z, d, w, FINE, mid).zone, d) <==>
            (KeyOf(d) in z ==> Holds(z, d)) && KeyOf(d) in y && !Holds(y, d)
  {
    hide Canonical, Edited;
  }

  // ---- Cleaning up one service's claims. ----

  /** `releaseSupersededDomain`: a record that was re-pointed by someone else is left alone without complaint. */
  function Residual(p: Option<Problem>): Option<Problem> {
    if p == Some(Mismatch) then None else p
  }

  datatype Cleanup = Cleanup(ok: bool, zone: Zone)

  predicate SameKeyClaims(s: Service) {
    s.pending.Some? && s.domain.Some? && SameKey(s.pending.value, s.domain.value)
  }

  /** The outcome of the pending claim's delete that is dropped without being joined into the result. */
  predicate Swallowed(s: Service, p: Option<Problem>) {
    p == Some(Readback) && SameKeyClaims(s)
  }

  /** `deleteDomain`, with the answers to the pending and to the current claim's calls. */
  function DeleteDomain(z: Zone, s: Service, reachable: bool, cp: Calls, cc: Calls): Cleanup {
    if s.domain.None? && s.pending.None? then Cleanup(true, z)
    else if !reachable then Cleanup(false, z)
    else
      var first := if s.pending.Some? then PlannedDelete(z, s.pending.value, cp) else Change(None, z);
      var okPending := s.pending.None? || Residual(first.problem).None? || Swallowed(s, first.problem);
      if s.domain.Some? && !(s.pending.Some? && first.problem.None? && SameKey(s.pending.value, s.domain.value)) then
        var second := PlannedDelete(first.zone, s.domain.value, cc);
        Cleanup(okPending && Residual(second.problem).None?, second.zone)
      else Cleanup(okPending, first.zone)
  }

  class HostedZone {
    var records: Zone

    constructor (records: Zone)
      ensures this.records == records
    {
      this.records := records;
    }

    method ReconcilePlannedDelete(d: Domain, c: Calls) returns (problem: Option<Problem>)
      modifies this
      ensures Change(problem, records) == PlannedDelete(old(records), d, c)
    {
      hide Canonical;
      var k := KeyOf(d);
      if !c.valid {
        return Some(InvalidMutation);
      }
      if c.verify1 != Verified {
        return VerifyProblem(c.verify1);
      }
      if !c.read1 {
        return Some(Down);
      }
      if k !in records {
        return None;
      }
      if records[k].Odd? {
        return Some(Readback);
      }
      if !Matches(records[k], d) {
        return Some(Mismatch);
      }
      if c.verify2 != Verified {
        return VerifyProblem(c.verify2);
      }
      if !c.mutate.Refused? {
        records := records - {k};
      }
      problem := Afterwards(c, k !in records);
    }

    /** Others change the zone. */
    method Others(edits: seq<Edit>)
      modifies this
      ensures records == Edited(old(records), edits)
    {
      for i := 0 to |edits|
        invariant records == Edited(old(records), edits[..i])
      {
        assert edits[..i + 1][..i] == edits[..i];
        if ByOthers(edits[i].r) {
          records := if edits[i].r.None? then records - {edits[i].k} else records[edits[i].k := edits[i].r.value];
        }
      }
      assert edits[..|edits|] == edits;
    }

    method ReconcilePlannedUpsert(d: Domain, w: string, c: Calls, mid: seq<Edit>) returns (problem: Option<Problem>)
      modifies this
      ensures Change(problem, records) == PlannedUpsert(old(records), d, w, c, mid)
    {
      hide Canonical, Edited;
      var k := KeyOf(d);
      var before := Before(c, records, d);
      if before.Some? {
        return before;
      }
      if k in records && !Matches(records[k], d) {
        return Some(Conflict);
      }
      Others(mid);
      if c.verify2 != Verified {
        return VerifyProblem(c.verify2);
      }
      if !c.mutate.Refused? {
        records := records[k := A(d.ip, d.ttl, Mine(w))];
      }
      problem := Afterwards(c, Holds(records, d));
    }

    method DeleteServiceDomain(s: Service, reachable: bool, cp: Calls, cc: Calls) returns (ok: bool)
      modifies this
      ensures Cleanup(ok, records) == DeleteDomain(old(records), s, reachable, cp, cc)
    {
      hide Canonical, PlannedDelete;
      if s.domain.None? && s.pending.None? {
        return true;
      }
      if !reachable {
        return false;
      }
      ok := true;
      var pendingDeleted := false;
      if s.pending.Some? {
        var problem := ReconcilePlannedDelete(s.pending.value, cp);
        pendingDeleted := problem.None?;
        if Residual(problem).Some? && !(problem == Some(Readback) && s.domain.Some? &&
                                        SameKey(s.pending.value, s.domain.value)) {
          ok := false;
        }
      }
      if s.domain.Some? && !(pendingDeleted && SameKey(s.pending.value, s.domain.value)) {
        var problem := ReconcilePlannedDelete(s.domain.value, cc);
        ok := ok && Residual(problem).None?;
      }
    }
  }

  ghost predicate Claims(s: Service, k: Key, r: Record) {
    (s.domain.Some? && k == KeyOf(s.domain.value) && Matches(r, s.domain.value)) ||
    (s.pending.Some? && k == KeyOf(s.pending.value) && Matches(r, s.pending.value))
  }

  /** Neither claimed record remains. */
  ghost predicate Clean(z: Zone, s: Service) {
    forall k | k in z :: !Claims(s, k, z[k])
  }

  /** Cleaning up changes nothing but the claimed records, whatever the provider answers. */
  lemma CleanupTouchesOnlyClaims(z: Zone, s: Service, reachable: bool, cp: Calls, cc: Calls)
    ensures var n := DeleteDomain(z, s, reachable, cp, cc).zone;
            n.Keys <= z.Keys && forall k | k in z :: (k in n && n[k] == z[k]) || (k !in n && Claims(s, k, z[k]))
  {
    hide PlannedDelete, Canonical;
    if s.pending.Some? {
      DeleteIsExact(z, s.pending.value, cp);
    }
    if s.domain.Some? {
      var first := if s.pending.Some? then PlannedDelete(z, s.pending.value, cp) else Change(None, z);
      DeleteIsExact(first.zone, s.domain.value, cc);
    }
  }

  /** The one situation in which a clean-up may succeed and leave a claimed record behind: both claims name the
      same record with different values, and the zone shows the pending one. */
  ghost predicate Exposed(z: Zone, s: Service) {
    SameKeyClaims(s) && !SameValue(s.pending.value, s.domain.value) && Holds(z, s.pending.value)
  }

  lemma SuccessIsCleanUnlessSwallowed(z: Zone, s: Service, reachable: bool, cp: Calls, cc: Calls)
    requires DeleteDomain(z, s, reachable, cp, cc).ok
    requires !Exposed(z, s) || !Swallowed(s, PlannedDelete(z, s.pending.value, cp).problem)
    ensures Clean(DeleteDomain(z, s, reachable, cp, cc).zone, s)
  {
    hide PlannedDelete, Canonical;
    if s.pending.Some? {
      DeleteIsExact(z, s.pending.value, cp);
      SwallowedLeft(z, s.pending.value, cp);
    }
    if s.domain.Some? {
      var first := if s.pending.Some? then PlannedDelete(z, s.pending.value, cp) else Change(None, z);
      DeleteIsExact(first.zone, s.domain.value, cc);
    }
  }

  /** A plain read-back problem leaves the zone as it was or, after an applied delete, without the record. */
  lemma SwallowedLeft(z: Zone, d: Domain, c: Calls)
    ensures PlannedDelete(z, d, c).problem == Some(Readback) ==>
              PlannedDelete(z, d, c).zone == z || KeyOf(d) !in PlannedDelete(z, d, c).zone
  {
    hide Canonical;
  }

  const FINE := Calls(true, Verified, true, Verified, Applied, Verified, true)

  /** With a provider that answers, the clean-up always succeeds, and what it leaves is not claimed. */
  lemma AnsweringProviderCleans(z: Zone, s: Service)
    requires forall k | k in z :: z[k].A?
    ensures var r := DeleteDomain(z, s, true, FINE, FINE); r.ok && Clean(r.zone, s)
  {
    hide Canonical;
  }

  /** A record under a claimed key that the adapter cannot read as an ordinary one. */
  ghost predicate Unreadable(z: Zone, s: Service) {
    || (s.pending.Some? && KeyOf(s.pending.value) in z && z[KeyOf(s.pending.value)].Odd?)
    || (s.domain.Some? && KeyOf(s.domain.value) in z && z[KeyOf(s.domain.value)].Odd?)
  }

  ghost function Unclaimed(z: Zone, s: Service): Zone {
    map k | k in z && !Claims(s, k, z[k]) :: z[k]
  }

  /** With a provider that answers, the clean-up removes exactly the claimed records, and succeeds exactly if no claimed
      key has a record that cannot be read. Without a provider it succeeds exactly if nothing is claimed. */
  lemma CleanupAnswersExactly(z: Zone, s: Service, cp: Calls, cc: Calls)
    ensures DeleteDomain(z, s, true, FINE, FINE) == Cleanup(!Unreadable(z, s), Unclaimed(z, s))
    ensures DeleteDomain(z, s, false, cp, cc) == Cleanup(s.domain.None? && s.pending.None?, z)
  {
    hide Canonical, PlannedDelete, KeyOf;
    if s.pending.Some? {
      FineDelete(z, s.pending.value);
    }
    if s.domain.Some? {
      FineDelete(z, s.domain.value);
      if s.pending.Some? {
        FineDelete(z - {KeyOf(s.pending.value)}, s.domain.value);
      }
    }
    assert DeleteDomain(z, s, true, FINE, FINE).zone == Unclaimed(z, s);
  }

  lemma FineDelete(z: Zone, d: Domain)
    ensures PlannedDelete(z, d, FINE) ==
            Change(if KeyOf(d) !in z || Holds(z, d) then None
                   else if z[KeyOf(d)].Odd? then Some(Readback) else Some(Mismatch),
                   if Holds(z, d) then z - {KeyOf(d)} else z)
  {
    hide Canonical;
  }

  lemma ExposedCanLeak(z: Zone, s: Service)
    requires Exposed(z, s)
    ensures var c := FINE.(verify1 := WrongAccount);
            DeleteDomain(z, s, true, c, FINE).ok && !Clean(DeleteDomain(z, s, true, c, FINE).zone, s)
  {
    hide Canonical;
    var c := FINE.(verify1 := WrongAccount);
    assert PlannedDelete(z, s.pending.value, c) == Change(Some(Readback), z);
    assert PlannedDelete(z, s.domain.value, FINE) == Change(Some(Mismatch), z);
    assert Claims(s, KeyOf(s.pending.value), z[KeyOf(s.pending.value)]);
  }

  /** Success guarantees that no claimed record remains exactly for the services that are not exposed. */
  lemma CleanupExact(z: Zone, s: Service)
    ensures (forall reachable, cp, cc :: DeleteDomain(z, s, reachable, cp, cc).ok ==>
                                           Clean(DeleteDomain(z, s, reachable, cp, cc).zone, s))
            <==> !Exposed(z, s)
  {
    hide DeleteDomain, Clean, Exposed;
    if Exposed(z, s) {
      ExposedCanLeak(z, s);
    } else {
      forall reachable, cp, cc | DeleteDomain(z, s, reachable, cp, cc).ok
        ensures Clean(DeleteDomain(z, s, reachable, cp, cc).zone, s)
      {
        SuccessIsCleanUnlessSwallowed(z, s, reachable, cp, cc);
      }
    }
  }
}
