/** The owner's worker listing, merged from durable records and one provider per credential
    (cmd/dirextalk-agent/core_cloud_worker_ssh_executor.go, ListWorkers). */
module Inventory {
  import opened Common

  datatype Phase = Active | Failed | Destroyed

  datatype Authority = Authority(owner: string, generation: nat)

  datatype Record = Record(id: string, authority: Authority, credential: string, phase: Phase, failure: string)

  /** A listed worker: what a provider observed, or that it is unavailable and why. */
  datatype Status = Observed(id: string, facts: string) | Unavailable(id: string, reason: string)

  /** What comes of asking for a credential's workers. */
  datatype Provider = NoCredential | ListError | Listed(workers: seq<Status>)

  // ---- What is expected. ----

  predicate Retained(r: Record, a: Authority) {
    r.authority == a && r.phase.Active?
  }

  /** The workers listed under one credential: the provider's, or the retained ones as unavailable. */
  function Column(records: seq<Record>, a: Authority, c: string, p: Provider): seq<Status> {
    match p
    case Listed(workers) => workers
    case NoCredential => Lost(records, a, c, "AWS credential revision is unavailable")
    case ListError => Lost(records, a, c, "Worker provider is unavailable")
  }

  /** The records that satisfy `f`, in order. */
  function Keep(records: seq<Record>, f: Record -> bool): seq<Record> {
    if records == [] then []
    else Keep(records[..|records| - 1], f) + if f(records[|records| - 1]) then [records[|records| - 1]] else []
  }

  function Under(a: Authority, c: string): Record -> bool {
    r => Retained(r, a) && r.credential == c
  }

  function FailedOf(a: Authority): Record -> bool {
    (r: Record) => r.authority == a && r.phase.Failed?
  }

  function Lost(records: seq<Record>, a: Authority, c: string, reason: string): seq<Status> {
    Rows(Keep(records, Under(a, c)), reason)
  }

  function Rows(rs: seq<Record>, reason: string): (col: seq<Status>)
    ensures |col| == |rs| && forall i | 0 <= i < |rs| :: col[i] == Unavailable(rs[i].id, reason)
  {
    seq(|rs|, i requires 0 <= i < |rs| => Unavailable(rs[i].id, reason))
  }

  function FailedOnes(records: seq<Record>, a: Authority): seq<Status> {
    var rs := Keep(records, FailedOf(a));
    seq(|rs|, i requires 0 <= i < |rs| => Unavailable(rs[i].id, rs[i].failure))
  }

  /** The credentials that are asked at all. */
  function Asked(records: seq<Record>, a: Authority): set<string> {
    set r | r in records && Retained(r, a) :: r.credential
  }

  function MapOf(s: seq<Status>): map<string, Status> {
    if s == [] then map[] else MapOf(s[..|s| - 1])[s[|s| - 1].id := s[|s| - 1]]
  }

  ghost predicate Distinct(s: seq<Status>) {
    forall i, j | 0 <= i < j < |s| :: s[i].id != s[j].id
  }

  ghost predicate HasId(s: seq<Status>, id: string) {
    exists i :: 0 <= i < |s| && s[i].id == id
  }

  /** `s` lists `m`, each entry once. */
  ghost predicate Lists(s: seq<Status>, m: map<string, Status>) {
    && Distinct(s)
    && (forall i | 0 <= i < |s| :: s[i].id in m && m[s[i].id] == s[i])
    && (forall id :: id in m ==> HasId(s, id))
  }

  lemma ListsAppend(s: seq<Status>, m: map<string, Status>, x: Status)
    requires Lists(s, m) && x.id !in m
    ensures Lists(s + [x], m[x.id := x])
  {
    var t := s + [x];
    forall id
      ensures id in m[x.id := x] ==> HasId(t, id)
    {
      if id == x.id {
        assert t[|s|].id == id;
      } else if id in m {
        assert HasId(s, id);
        var i :| 0 <= i < |s| && s[i].id == id;
        assert t[i].id == id;
      }
    }
  }

  lemma ListsReplace(s: seq<Status>, m: map<string, Status>, k: nat, x: Status)
    requires Lists(s, m) && k < |s| && s[k].id == x.id
    ensures Lists(s[k := x], m[x.id := x])
  {
    var t := s[k := x];
    assert forall i | 0 <= i < |s| :: t[i].id == s[i].id;
    forall id
      ensures id in m[x.id := x] ==> HasId(t, id)
    {
      if id in m[x.id := x] {
        assert HasId(s, id);
        var i :| 0 <= i < |s| && s[i].id == id;
        assert t[i].id == id;
      }
    }
  }

  lemma {:induction false} MapOfLists(s: seq<Status>)
    requires Distinct(s)
    ensures Lists(s, MapOf(s))
    decreases |s|
  {
    if s != [] {
      var n := |s| - 1;
      var t := s[..n];
      assert forall i | 0 <= i < n :: t[i] == s[i];
      MapOfLists(t);
      assert s == t + [s[n]];
      assert s[n].id in MapOf(t) ==> HasId(t, s[n].id);
      ListsAppend(t, MapOf(t), s[n]);
    }
  }

  // ---- The assumptions on records and providers. ----

  /** Worker ids are unique among the records, a provider lists a worker at most once, and only under the
      credential it belongs to (`home`), which for recorded workers is the recorded one. */
  ghost predicate Consistent(records: seq<Record>, provider: string -> Provider, home: string -> string) {
    && UniqueIds(records)
    && (forall r | r in records :: home(r.id) == r.credential)
    && (forall c | provider(c).Listed? :: Distinct(provider(c).workers) &&
                                          forall w | w in provider(c).workers :: home(w.id) == c)
  }

  /** What a worker shows as once the credentials in `done` have been visited. */
  ghost function Expected(records: seq<Record>, a: Authority, provider: string -> Provider, home: string -> string,
                          done: set<string>, id: string): Option<Status> {
    var column := MapOf(Column(records, a, home(id), provider(home(id))));
    var failed := MapOf(FailedOnes(records, a));
    if home(id) in done && id in column then Some(column[id])
    else if id in failed then Some(failed[id])
    else None
  }

  function Entry(m: map<string, Status>, id: string): Option<Status> {
    if id in m then Some(m[id]) else None
  }

  ghost predicate Shows(m: map<string, Status>, records: seq<Record>, a: Authority, provider: string -> Provider,
                        home: string -> string, done: set<string>) {
    forall id :: Entry(m, id) == Expected(records, a, provider, home, done, id)
  }

  // ---- The columns. ----

  ghost predicate UniqueIds(records: seq<Record>) {
    forall i, j | 0 <= i < j < |records| :: records[i].id != records[j].id
  }

  lemma {:induction false} KeepMembers(records: seq<Record>, f: Record -> bool)
    ensures forall r :: r in Keep(records, f) <==> r in records && f(r)
    decreases |records|
  {
    if records != [] {
      KeepMembers(records[..|records| - 1], f);
      assert records == records[..|records| - 1] + [records[|records| - 1]];
    }
  }

  lemma {:induction false} KeepUnique(records: seq<Record>, f: Record -> bool)
    requires UniqueIds(records)
    ensures UniqueIds(Keep(records, f))
    decreases |records|
  {
    if records != [] {
      var n := |records| - 1;
      KeepUnique(records[..n], f);
      KeepMembers(records[..n], f);
      assert forall r | r in Keep(records[..n], f) :: r.id != records[n].id;
    }
  }

  lemma SameRecord(records: seq<Record>, q: Record, r: Record)
    requires UniqueIds(records) && q in records && r in records && q.id == r.id
    ensures q == r
  {
  }

  /** Every entry of a column has a home under that credential. */
  lemma ColumnHolds(records: seq<Record>, a: Authority, provider: string -> Provider, home: string -> string, c: string)
    requires Consistent(records, provider, home)
    ensures var col := Column(records, a, c, provider(c)); Distinct(col) && forall x | x in col :: home(x.id) == c
  {
    hide Keep;
    if !provider(c).Listed? {
      KeepUnique(records, Under(a, c));
      KeepMembers(records, Under(a, c));
      assert forall r | r in Keep(records, Under(a, c)) :: home(r.id) == c;
    }
  }

  /** Retained workers are not failed ones. */
  lemma RetainedNotFailed(records: seq<Record>, a: Authority, c: string, r: Record)
    requires UniqueIds(records) && r in Keep(records, Under(a, c))
    ensures r.id !in MapOf(FailedOnes(records, a))
  {
    hide Keep;
    KeepMembers(records, Under(a, c));
    KeepMembers(records, FailedOf(a));
    var fs := Keep(records, FailedOf(a));
    FailedDistinct(records, a);
    MapOfIds(FailedOnes(records, a), r.id);
    if HasId(FailedOnes(records, a), r.id) {
      var j :| 0 <= j < |fs| && FailedOnes(records, a)[j].id == r.id;
      assert fs[j] in fs;
      SameRecord(records, r, fs[j]);
      assert false;
    }
  }

  lemma FailedDistinct(records: seq<Record>, a: Authority)
    requires UniqueIds(records)
    ensures Distinct(FailedOnes(records, a))
  {
    KeepUnique(records, FailedOf(a));
  }

  // ---- One more credential. ----

  lemma MapOfHome(col: seq<Status>, home: string -> string, c: string)
    requires Distinct(col) && forall x | x in col :: home(x.id) == c
    ensures forall id | id in MapOf(col) :: home(id) == c
  {
    MapOfLists(col);
    forall id | id in MapOf(col)
      ensures home(id) == c
    {
      assert HasId(col, id);
    }
  }

  lemma VisitShows(m: map<string, Status>, records: seq<Record>, a: Authority, provider: string -> Provider,
                   home: string -> string,
                   done: set<string>, c: string)
    requires Consistent(records, provider, home) && Shows(m, records, a, provider, home, done) && c !in done
    ensures Shows(m + MapOf(Column(records, a, c, provider(c))), records, a, provider, home, done + {c})
  {
    hide Consistent, Column, FailedOnes, MapOf;
    var col := Column(records, a, c, provider(c));
    ColumnHolds(records, a, provider, home, c);
    MapOfHome(col, home, c);
    var n := m + MapOf(col);
    forall id
      ensures Entry(n, id) == Expected(records, a, provider, home, done + {c}, id)
    {
      assert Entry(m, id) == Expected(records, a, provider, home, done, id);
    }
  }

  /** Among what is already shown, only failed workers belong to a credential not visited yet. */
  lemma ShownAreFailed(m: map<string, Status>, records: seq<Record>, a: Authority, provider: string -> Provider,
                       home: string -> string,
                       done: set<string>, id: string)
    requires Shows(m, records, a, provider, home, done) && home(id) !in done && id in m
    ensures id in MapOf(FailedOnes(records, a))
  {
    hide Column, FailedOnes, MapOf;
    assert Entry(m, id) == Expected(records, a, provider, home, done, id);
  }

  // ---- The listing. ----

  /** `positions` finds every failed worker's entry in the list. */
  ghost predicate Located(positions: map<string, nat>, s: seq<Status>, failed: map<string, Status>) {
    positions.Keys == failed.Keys && forall id | id in positions :: positions[id] < |s| && s[positions[id]].id == id
  }

  lemma MapOfNext(s: seq<Status>, i: nat)
    requires i < |s|
    ensures MapOf(s[..i + 1]) == MapOf(s[..i])[s[i].id := s[i]] && s[..|s|] == s
  {
    assert s[..i + 1][..i] == s[..i];
    assert s[..|s|] == s;
  }

  lemma MapOfIds(s: seq<Status>, id: string)
    requires Distinct(s)
    ensures id in MapOf(s) ==> HasId(s, id)
  {
    MapOfLists(s);
  }

  lemma NotYet(s: seq<Status>, i: nat)
    requires Distinct(s) && i < |s|
    ensures s[i].id !in MapOf(s[..i])
  {
    MapOfIds(s[..i], s[i].id);
  }

  lemma RowsHold(retained: seq<Record>, reason: string)
    requires UniqueIds(retained)
    ensures Distinct(Rows(retained, reason))
  {
  }

  method AppendLost(s: seq<Status>, retained: seq<Record>, reason: string, ghost m: map<string, Status>)
    returns (t: seq<Status>)
    requires Lists(s, m) && UniqueIds(retained) && forall r | r in retained :: r.id !in m
    ensures Lists(t, m + MapOf(Rows(retained, reason))) && s <= t
  {
    t := s;
    ghost var col := Rows(retained, reason);
    hide Lists, MapOf, Distinct, UniqueIds, Rows;
    RowsHold(retained, reason);
    assert m + MapOf(col[..0]) == m by { NoRows(col); }
    for i := 0 to |retained|
      invariant s <= t && Lists(t, m + MapOf(col[..i]))
    {
      ghost var now := m + MapOf(col[..i]);
      NotYet(col, i);
      MapOfNext(col, i);
      ListsAppend(t, now, col[i]);
      assert now[col[i].id := col[i]] == m + MapOf(col[..i + 1]);
      t := t + [Unavailable(retained[i].id, reason)];
    }
    assert col[..|retained|] == col;
  }

  lemma NoRows(col: seq<Status>)
    ensures MapOf(col[..0]) == map[]
  {
  }

  lemma LocatedReplace(positions: map<string, nat>, t: seq<Status>, failed: map<string, Status>, w: Status)
    requires Located(positions, t, failed) && w.id in positions
    ensures positions[w.id] < |t| && t[positions[w.id]].id == w.id &&
            Located(positions, t[positions[w.id] := w], failed)
  {
  }

  lemma LocatedAppend(positions: map<string, nat>, t: seq<Status>, failed: map<string, Status>, more: seq<Status>)
    requires Located(positions, t, failed)
    ensures Located(positions, t + more, failed)
  {
  }

  method Merge(s: seq<Status>, positions: map<string, nat>, workers: seq<Status>, ghost m: map<string, Status>,
               ghost failed: map<string, Status>)
    returns (t: seq<Status>)
    requires Lists(s, m) && Located(positions, s, failed) && Distinct(workers)
    requires forall w | w in workers && w.id in m :: w.id in positions
    ensures Lists(t, m + MapOf(workers)) && Located(positions, t, failed)
  {
    hide Lists, MapOf, Distinct, Located;
    t := s;
    assert m + MapOf(workers[..0]) == m by { NoRows(workers); }
    for i := 0 to |workers|
      invariant Lists(t, m + MapOf(workers[..i])) && Located(positions, t, failed)
    {
      ghost var now := m + MapOf(workers[..i]);
      var w := workers[i];
      NotYet(workers, i);
      MapOfNext(workers, i);
      assert now[w.id := w] == m + MapOf(workers[..i + 1]);
      if w.id in positions {
        LocatedReplace(positions, t, failed, w);
        ListsReplace(t, now, positions[w.id], w);
        t := t[positions[w.id] := w];
      } else {
        ListsAppend(t, now, w);
        LocatedAppend(positions, t, failed, [w]);
        t := t + [w];
      }
    }
    assert workers[..|workers|] == workers;
  }

  lemma KeepNext(records: seq<Record>, i: nat, f: Record -> bool)
    requires i < |records|
    ensures Keep(records[..i + 1], f) == Keep(records[..i], f) + if f(records[i]) then [records[i]] else []
  {
    assert records[..i + 1][..i] == records[..i];
  }

  lemma FailedNext(records: seq<Record>, i: nat, a: Authority)
    requires i < |records|
    ensures FailedOnes(records[..i + 1], a)
            == FailedOnes(records[..i], a) +
               if FailedOf(a)(records[i]) then [Unavailable(records[i].id, records[i].failure)] else []
  {
    hide Keep;
    KeepNext(records, i, FailedOf(a));
  }

  lemma AskedNext(records: seq<Record>, i: nat, a: Authority)
    requires i < |records|
    ensures Asked(records[..i + 1], a) ==
            Asked(records[..i], a) + if Retained(records[i], a) then {records[i].credential} else {}
  {
    assert records[..i + 1] == records[..i] + [records[i]];
  }

  lemma LocatedNew(positions: map<string, nat>, s: seq<Status>, x: Status)
    requires Located(positions, s, MapOf(s))
    ensures Located(positions[x.id := |s|], s + [x], MapOf(s + [x]))
  {
    assert (s + [x])[..|s|] == s;
  }

  lemma NothingYet(records: seq<Record>, a: Authority)
    ensures FailedOnes(records[..0], a) == [] && Asked(records[..0], a) == {} && Located(map[], [], MapOf([]))
    ensures forall f :: Keep(records[..0], f) == []
    ensures records[..|records|] == records
  {
  }

  /** The failed workers first, and the others' records by credential. */
  method Split(records: seq<Record>, a: Authority)
    returns (s: seq<Status>, positions: map<string, nat>, byCredential: map<string, seq<Record>>)
    ensures s == FailedOnes(records, a) && Located(positions, s, MapOf(s))
    ensures byCredential.Keys == Asked(records, a)
    ensures forall c | c in byCredential :: byCredential[c] == Keep(records, Under(a, c))
  {
    hide Keep, FailedOnes, Asked, Located, MapOf;
    NothingYet(records, a);
    s, positions, byCredential := [], map[], map[];
    for i := 0 to |records|
      invariant s == FailedOnes(records[..i], a) && Located(positions, s, MapOf(s))
      invariant byCredential.Keys == Asked(records[..i], a)
      invariant forall c :: Row(byCredential, c) == Keep(records[..i], Under(a, c))
    {
      var worker := records[i];
      FailedNext(records, i, a);
      AskedNext(records, i, a);
      forall c
        ensures Keep(records[..i + 1], Under(a, c)) ==
                Keep(records[..i], Under(a, c)) + if Under(a, c)(worker) then [worker] else []
      {
        KeepNext(records, i, Under(a, c));
      }
      if worker.authority == a && !worker.phase.Destroyed? {
        if worker.phase.Failed? {
          LocatedNew(positions, s, Unavailable(worker.id, worker.failure));
          positions := positions[worker.id := |s|];
          s := s + [Unavailable(worker.id, worker.failure)];
        } else {
          byCredential := byCredential[worker.credential := Row(byCredential, worker.credential) + [worker]];
        }
      }
    }
    forall c | c in byCredential
      ensures byCredential[c] == Keep(records, Under(a, c))
    {
      assert Row(byCredential, c) == Keep(records, Under(a, c));
    }
  }

  /** `ListWorkers`: for every order in which the credentials are visited and whatever the providers answer, each
      expected worker is listed exactly once, with the status its own provider gives it if there is one. */
  method ListWorkers(records: seq<Record>, a: Authority, provider: string -> Provider, ghost home: string -> string)
    returns (result: seq<Status>)
    requires Consistent(records, provider, home)
    ensures Distinct(result)
    ensures forall id :: Entry(MapOf(result), id) == Expected(records, a, provider, home, Asked(records, a), id)
  {
    hide MapOf, Lists, Located, FailedOnes, Asked, Keep, Distinct, Shows, Expected, Consistent;
    var positions, byCredential;
    result, positions, byCredential := Split(records, a);
    ghost var failed := MapOf(result);
    ghost var shown := failed;
    Start(records, a, provider, home);
    var rest := byCredential.Keys;
    ghost var done: set<string> := {};
    while rest != {}
      invariant rest <= byCredential.Keys && done == byCredential.Keys - rest
      invariant Lists(result, shown) && Located(positions, result, failed)
      invariant Shows(shown, records, a, provider, home, done)
      decreases rest
    {
      var c :| c in rest;
      result := Visit(records, a, provider, home, c, byCredential[c], result, positions, shown, done);
      VisitShows(shown, records, a, provider, home, done, c);
      shown := shown + MapOf(Column(records, a, c, provider(c)));
      rest, done := rest - {c}, done + {c};
    }
    assert done == Asked(records, a);
    Finish(result, shown, records, a, provider, home);
  }

  method Visit(records: seq<Record>, a: Authority, provider: string -> Provider, ghost home: string -> string,
               c: string,
               retained: seq<Record>, s: seq<Status>, positions: map<string, nat>, ghost m: map<string, Status>,
               ghost done: set<string>)
    returns (t: seq<Status>)
    requires Consistent(records, provider, home) && retained == Keep(records, Under(a, c)) && c !in done
    requires Lists(s, m) && Located(positions, s, MapOf(FailedOnes(records, a))) &&
             Shows(m, records, a, provider, home, done)
    ensures Lists(t, m + MapOf(Column(records, a, c, provider(c)))) &&
            Located(positions, t, MapOf(FailedOnes(records, a)))
  {
    hide MapOf, Lists, FailedOnes, Keep, Distinct, Shows;
    ghost var failed := MapOf(FailedOnes(records, a));
    ColumnHolds(records, a, provider, home, c);
    ghost var column := Column(records, a, c, provider(c));
    forall x | x in column && x.id in m
      ensures x.id in failed
    {
      ShownAreFailed(m, records, a, provider, home, done, x.id);
    }
    if provider(c).Listed? {
      t := Merge(s, positions, provider(c).workers, m, failed);
      return;
    }
    forall r | r in retained
      ensures r.id !in m
    {
      RetainedNotFailed(records, a, c, r);
      var k :| 0 <= k < |retained| && retained[k] == r;
      assert column[k].id == r.id;
    }
    KeepUnique(records, Under(a, c));
    hide Located;
    if provider(c).NoCredential? {
      t := AppendLost(s, retained, "AWS credential revision is unavailable", m);
    } else {
      t := AppendLost(s, retained, "Worker provider is unavailable", m);
    }
    LocatedAppend(positions, s, failed, t[|s|..]);
    assert s + t[|s|..] == t;
  }

  lemma Start(records: seq<Record>, a: Authority, provider: string -> Provider, home: string -> string)
    requires Consistent(records, provider, home)
    ensures Lists(FailedOnes(records, a), MapOf(FailedOnes(records, a)))
    ensures Shows(MapOf(FailedOnes(records, a)), records, a, provider, home, {})
  {
    hide MapOf, FailedOnes, Column;
    FailedDistinct(records, a);
    MapOfLists(FailedOnes(records, a));
  }

  lemma Finish(s: seq<Status>, m: map<string, Status>, records: seq<Record>, a: Authority, provider: string -> Provider,
               home: string -> string)
    requires Lists(s, m) && Shows(m, records, a, provider, home, Asked(records, a))
    ensures Distinct(s)
    ensures forall id :: Entry(MapOf(s), id) == Expected(records, a, provider, home, Asked(records, a), id)
  {
    hide MapOf, Expected, Asked;
    MapOfLists(s);
    forall id
      ensures Entry(MapOf(s), id) == Entry(m, id)
    {
      assert id in m ==> HasId(s, id);
      assert id in MapOf(s) ==> HasId(s, id);
    }
  }

  function Row(m: map<string, seq<Record>>, c: string): seq<Record> {
    if c in m then m[c] else []
  }

  // ---- With providers that list what is recorded. ----

  ghost predicate Owned(records: seq<Record>, a: Authority, id: string) {
    exists r :: r in records && r.authority == a && !r.phase.Destroyed? && r.id == id
  }

  /** A provider that answers lists exactly its credential's owned workers that are not destroyed. */
  ghost predicate Faithful(records: seq<Record>, a: Authority, provider: string -> Provider, home: string -> string) {
    forall c, id | provider(c).Listed? :: HasId(provider(c).workers, id) <==> Owned(records, a, id) && home(id) == c
  }

  /** The listing then holds each owned worker that is not destroyed, and nothing else. */
  lemma OwnedWorkersAreListed(records: seq<Record>, a: Authority, provider: string -> Provider, home: string -> string,
                              id: string)
    requires Consistent(records, provider, home) && Faithful(records, a, provider, home)
    ensures Expected(records, a, provider, home, Asked(records, a), id).Some? <==> Owned(records, a, id)
  {
    hide MapOf, Keep, Distinct, FailedOnes, HasId, Consistent, Lost;
    var c := home(id);
    var column, failed := Column(records, a, c, provider(c)), FailedOnes(records, a);
    ColumnHolds(records, a, provider, home, c);
    assert UniqueIds(records) && forall r | r in records ::
             home(r.id) == r.credential by { Recorded(records, provider, home); }
    FailedDistinct(records, a);
    MapOfExactly(column, id);
    MapOfExactly(failed, id);
    FailedOwned(records, a, id);
    if !provider(c).Listed? {
      LostOwned(records, a, c, column, id);
    }
    if Owned(records, a, id) {
      var r :| r in records && r.authority == a && !r.phase.Destroyed? && r.id == id;
      assert r.phase.Active? ==> r.credential in Asked(records, a);
    }
  }

  lemma Recorded(records: seq<Record>, provider: string -> Provider, home: string -> string)
    requires Consistent(records, provider, home)
    ensures UniqueIds(records) && forall r | r in records :: home(r.id) == r.credential
  {
  }

  lemma MapOfExactly(s: seq<Status>, id: string)
    requires Distinct(s)
    ensures id in MapOf(s) <==> HasId(s, id)
  {
    hide MapOf, Distinct;
    MapOfLists(s);
  }

  lemma FailedOwned(records: seq<Record>, a: Authority, id: string)
    ensures HasId(FailedOnes(records, a), id) <==> exists r :: r in records && FailedOf(a)(r) && r.id == id
  {
    hide Keep;
    KeepMembers(records, FailedOf(a));
    var fs := Keep(records, FailedOf(a));
    if r :| r in records && FailedOf(a)(r) && r.id == id {
      var i :| 0 <= i < |fs| && fs[i] == r;
      assert FailedOnes(records, a)[i].id == id;
    }
    if HasId(FailedOnes(records, a), id) {
      var i :| 0 <= i < |fs| && FailedOnes(records, a)[i].id == id;
      assert fs[i] in fs;
    }
  }

  lemma LostOwned(records: seq<Record>, a: Authority, c: string, column: seq<Status>, id: string)
    requires exists reason :: column == Lost(records, a, c, reason)
    ensures HasId(column, id) <==> exists r :: r in records && Under(a, c)(r) && r.id == id
  {
    hide Keep;
    KeepMembers(records, Under(a, c));
    var rs := Keep(records, Under(a, c));
    if r :| r in records && Under(a, c)(r) && r.id == id {
      var i :| 0 <= i < |rs| && rs[i] == r;
      assert column[i].id == id;
    }
    if HasId(column, id) {
      var i :| 0 <= i < |column| && column[i].id == id;
      assert rs[i] in rs;
    }
  }

  // ---- What a worker is listed as. ----

  /** A worker that the provider of its credential lists is listed as that says. Otherwise a failed one is listed as
      unavailable with its own failure, and one that is retained as unavailable because there is no credential or no
      provider. */
  lemma ListedExactly(records: seq<Record>, a: Authority, provider: string -> Provider, home: string -> string,
                      r: Record)
    requires Consistent(records, provider, home) && r in records && r.authority == a && !r.phase.Destroyed?
    ensures var p, e := provider(r.credential), Expected(records, a, provider, home, Asked(records, a), r.id);
            var asked := exists x | x in records :: x.authority == a && x.phase.Active? && x.credential == r.credential;
            && (asked && p.Listed? ==> forall w | w in p.workers && w.id == r.id :: e == Some(w))
            && (r.phase.Failed? && !(asked && p.Listed? && HasId(p.workers, r.id)) ==>
                  e == Some(Unavailable(r.id, r.failure)))
            && (r.phase.Active? && p.NoCredential? ==>
                  e == Some(Unavailable(r.id, "AWS credential revision is unavailable")))
            && (r.phase.Active? && p.ListError? ==> e == Some(Unavailable(r.id, "Worker provider is unavailable")))
            && (r.phase.Active? && p.Listed? && !HasId(p.workers, r.id) ==> e == None)
  {
    hide MapOf, Keep, Distinct, Consistent, FailedOnes, Lost, Asked, UniqueIds, HasId;
    var c := r.credential;
    Recorded(records, provider, home);
    AskedExactly(records, a, c);
    ColumnHolds(records, a, provider, home, c);
    FailedDistinct(records, a);
    var column, failed := Column(records, a, c, provider(c)), FailedOnes(records, a);
    MapOfExactly(column, r.id);
    MapOfExactly(failed, r.id);
    FailedStatus(records, a, r);
    if provider(c).Listed? {
      ListedStatus(column, r.id);
    } else {
      LostStatus(records, a, c, column, r);
    }
  }

  lemma AskedExactly(records: seq<Record>, a: Authority, c: string)
    ensures c in Asked(records, a) <==>
            exists x | x in records :: x.authority == a && x.phase.Active? && x.credential == c
  {
  }

  lemma ListedStatus(column: seq<Status>, id: string)
    requires Distinct(column)
    ensures forall w | w in column && w.id == id :: id in MapOf(column) && MapOf(column)[id] == w
  {
    hide MapOf;
    MapOfLists(column);
  }

  lemma FailedStatus(records: seq<Record>, a: Authority, r: Record)
    requires UniqueIds(records) && r in records
    ensures var failed := FailedOnes(records, a);
            && (FailedOf(a)(r) ==> HasId(failed, r.id) && r.id in MapOf(failed) &&
                                   MapOf(failed)[r.id] == Unavailable(r.id, r.failure))
            && (!FailedOf(a)(r) ==> !HasId(failed, r.id))
  {
    hide Keep, MapOf;
    KeepMembers(records, FailedOf(a));
    FailedDistinct(records, a);
    var fs, failed := Keep(records, FailedOf(a)), FailedOnes(records, a);
    if FailedOf(a)(r) {
      var i :| 0 <= i < |fs| && fs[i] == r;
      assert failed[i] == Unavailable(r.id, r.failure) && failed[i] in failed;
      ListedStatus(failed, r.id);
    } else {
      forall x | x in fs && x.id == r.id
        ensures x == r
      {
        SameRecord(records, x, r);
      }
    }
  }

  lemma LostStatus(records: seq<Record>, a: Authority, c: string, column: seq<Status>, r: Record)
    requires UniqueIds(records) && r in records && Distinct(column)
    requires exists reason :: column == Lost(records, a, c, reason)
    ensures !Under(a, c)(r) ==> !HasId(column, r.id)
    ensures Under(a, c)(r) ==> HasId(column, r.id) && r.id in MapOf(column)
    ensures forall reason | column == Lost(records, a, c, reason) && Under(a, c)(r) ::
              MapOf(column)[r.id] == Unavailable(r.id, reason)
  {
    hide Keep, MapOf;
    KeepMembers(records, Under(a, c));
    var rs := Keep(records, Under(a, c));
    if Under(a, c)(r) {
      var i :| 0 <= i < |rs| && rs[i] == r;
      assert column[i].id == r.id && column[i] in column;
      ListedStatus(column, r.id);
    } else {
      forall x | x in rs && x.id == r.id
        ensures x == r
      {
        SameRecord(records, x, r);
      }
    }
  }
}
