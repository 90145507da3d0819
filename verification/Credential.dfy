/** The fenced read of the current cloud credential (cmd/dirextalk-agent/core_cloud_worker_credential.go) against
    a store that others keep changing (internal/store/postgres/core_aws_store_credentials_plan.go, as used by
    internal/coreaws/service_credentials_plan.go and internal/awscredential/credential.go). */
module Credential {
  import opened Common

  datatype Identity = Identity(account: string, arn: string)

  /** A stored credential. `room` is empty for the owner's own credential. */
  datatype Row = Row(room: string, region: string, who: Identity, verified: nat, revision: nat, tested: bool,
                     disabled: bool)

  /** `evidence` holds the identity each revision was verified as; it is never overwritten. */
  datatype Store = Store(rows: map<string, Row>, evidence: map<(string, nat), Identity>)

  datatype Change =
    | Create(id: string, room: string, region: string)
    | Replace(id: string, room: string, expected: nat, region: string)
    | Delete(id: string, expected: nat)
    | Record(id: string, revision: nat, who: Identity)     // a test of the current revision
    | Complete(id: string, revision: nat, who: Identity)   // a test begun at some revision

  function Active(s: Store, room: string): set<string> {
    set id | id in s.rows && !s.rows[id].disabled && s.rows[id].room == room
  }

  function Verify(s: Store, id: string, revision: nat, who: Identity): Store {
    var key := (id, revision);
    if id !in s.rows || (key in s.evidence && s.evidence[key] != who) then s
    else
      var row := s.rows[id];
      Store(if row.revision == revision && !row.disabled
              then s.rows[id := row.(who := who, verified := revision, tested := true)] else s.rows,
            s.evidence[key := who])
  }

  /** One transaction of another party; a refused one changes nothing. */
  function Apply(s: Store, c: Change): Store {
    match c
    case Create(id, room, region) =>
      if id in s.rows || Active(s, room) != {} then s
      else s.(rows := s.rows[id := Row(room, region, Identity("", ""), 0, 1, false, false)])
    case Replace(id, room, expected, region) =>
      if id !in s.rows || s.rows[id].disabled || s.rows[id].revision != expected || s.rows[id].room != room then s
      else s.(rows := s.rows[id := Row(room, region, Identity("", ""), 0, expected + 1, false, false)])
    case Delete(id, expected) =>
      if id !in s.rows || s.rows[id].disabled || s.rows[id].revision != expected then s
      else s.(rows := s.rows[id := s.rows[id].(disabled := true)])
    case Record(id, revision, who) =>
      if id !in s.rows || s.rows[id].disabled || s.rows[id].revision != revision then s
           else Verify(s, id, revision, who)
    case Complete(id, revision, who) =>
      if id !in s.rows || revision < 1 || s.rows[id].revision < revision then s else Verify(s, id, revision, who)
  }

  predicate Verified(r: Row) {
    r.verified == r.revision
  }

  ghost predicate RowHolds(s: Store, id: string) {
    id in s.rows && var r := s.rows[id];
    r.revision > 0 && (Verified(r) ==> r.tested && (id, r.revision) in s.evidence &&
                                       s.evidence[(id, r.revision)] == r.who)
  }

  ghost predicate Inv(s: Store) {
    && (forall id | id in s.rows :: RowHolds(s, id))
    && (forall key | key in s.evidence :: key.0 in s.rows && key.1 <= s.rows[key.0].revision)
    && (forall id, id' | id in s.rows && id' in s.rows && !s.rows[id].disabled && !s.rows[id'].disabled &&
        s.rows[id].room == s.rows[id'].room
          :: id == id')
  }

  /** How a row may change over time: revisions only grow, deletion is final, and at one revision the region is
      fixed and a verified identity stays. */
  ghost predicate Later(r: Row, t: Row) {
    && t.room == r.room && r.revision <= t.revision && (r.disabled ==> t.disabled)
    && (r.revision == t.revision ==> r.region == t.region && (Verified(r) ==> Verified(t) && r.who == t.who))
  }

  ghost predicate Precedes(s: Store, t: Store) {
    forall id | id in s.rows :: id in t.rows && Later(s.rows[id], t.rows[id])
  }

  /** Replacing or adding one row keeps the invariant if the row itself is all right. */
  lemma RowChangeKeeps(s: Store, t: Store, id: string)
    requires Inv(s) && id in t.rows && t.rows == s.rows[id := t.rows[id]]
    requires id in s.rows ==> Later(s.rows[id], t.rows[id])
    requires forall key | key in t.evidence &&
             !(key in s.evidence && s.evidence[key] == t.evidence[key]) :: key.0 == id && key !in s.evidence
    requires forall key | key in t.evidence && key.0 == id :: key.1 <= t.rows[id].revision
    requires forall key | key in s.evidence :: key in t.evidence
    requires RowHolds(t, id)
    requires !t.rows[id].disabled ==> (id in s.rows && !s.rows[id].disabled && s.rows[id].room == t.rows[id].room) ||
                                      Active(s, t.rows[id].room) == {}
    ensures Inv(t) && Precedes(s, t)
  {
    forall u | u in t.rows
      ensures RowHolds(t, u)
    {
      if u != id {
        assert RowHolds(s, u);
      }
    }
    assert forall u | u in s.rows && !s.rows[u].disabled :: u in Active(s, s.rows[u].room);
    assert forall u | u in s.rows && u != id :: t.rows[u] == s.rows[u];
  }

  lemma VerifyKeeps(s: Store, id: string, revision: nat, who: Identity)
    requires Inv(s) && id in s.rows && 1 <= revision <= s.rows[id].revision
    ensures Inv(Verify(s, id, revision, who)) && Precedes(s, Verify(s, id, revision, who))
  {
    hide Inv, Precedes, Active;
    assert RowHolds(s, id) && forall key | key in s.evidence && key.0 == id :: key.1 <= s.rows[id].revision by {
      FromInv(s, id);
    }
    var t := Verify(s, id, revision, who);
    if t != s {
      assert t.rows == s.rows[id := t.rows[id]];
      RowChangeKeeps(s, t, id);
    } else {
      SelfPrecedes(s);
    }
  }

  lemma FromInv(s: Store, id: string)
    requires Inv(s) && id in s.rows
    ensures RowHolds(s, id) && forall key | key in s.evidence && key.0 == id :: key.1 <= s.rows[id].revision
  {
  }

  lemma ApplyKeeps(s: Store, c: Change)
    requires Inv(s)
    ensures Inv(Apply(s, c)) && Precedes(s, Apply(s, c))
  {
    hide Inv, Precedes, Active, Verify;
    var t := Apply(s, c);
    SelfPrecedes(s);
    if c.id in s.rows {
      FromInv(s, c.id);
    } else {
      NoEvidence(s, c.id);
    }
    if t != s {
      if c.Record? || c.Complete? {
        VerifyKeeps(s, c.id, c.revision, c.who);
      } else {
        assert t.rows == s.rows[c.id := t.rows[c.id]];
        RowChangeKeeps(s, t, c.id);
      }
    }
  }

  lemma NoEvidence(s: Store, id: string)
    requires Inv(s) && id !in s.rows
    ensures forall key | key in s.evidence :: key.0 != id
  {
  }

  lemma PrecedesTrans(a: Store, b: Store, c: Store)
    requires Precedes(a, b) && Precedes(b, c)
    ensures Precedes(a, c)
  {
  }

  // ---- What is read. ----

  datatype Binding = Binding(id: string, account: string, region: string, revision: nat)

  /** The store shows exactly this binding, active and verified. */
  ghost predicate Current(s: Store, b: Binding) {
    b.id in s.rows && var r := s.rows[b.id];
    !r.disabled && r.revision == b.revision && Verified(r) && r.who.account == b.account && r.region == b.region
  }

  /** The fence: a binding seen before, whose credential still exists at the same revision later, was current all
      the time in between. */
  lemma CurrentBetween(a: Store, j: Store, b: Store, x: Binding)
    requires Precedes(a, j) && Precedes(j, b)
    requires x.id in a.rows && Current(a, x)
    requires x.id in b.rows && !b.rows[x.id].disabled && b.rows[x.id].revision == x.revision
    ensures Current(j, x)
  {
    assert Later(a.rows[x.id], j.rows[x.id]) && Later(j.rows[x.id], b.rows[x.id]);
  }

  predicate Presentable(r: Row) {
    Trim(r.region) != "" && Trim(r.who.account) != "" && Trim(r.who.arn) != ""
  }

  /** The binding a scope's only credential gives when nothing changes meanwhile. */
  ghost function Usable(s: Store, room: string): Option<Binding> {
    if |Active(s, room)| != 1 then None
    else
      var id :| id in Active(s, room);
      var r := s.rows[id];
      if Verified(r) && r.tested && r.revision > 0 && Presentable(r)
           then Some(Binding(id, r.who.account, r.region, r.revision)) else None
  }

  datatype Listed = Unconfigured | Unusable | View(id: string, row: Row)

  /** What the listing of one scope amounts to. */
  ghost predicate Shows(s: Store, room: string, l: Listed) {
    match l
    case Unconfigured => Active(s, room) == {}
    case Unusable => true
    case View(id, row) => id in s.rows && s.rows[id] == row && Active(s, room) == {id} && Verified(row) &&
                          row.revision > 0 && row.tested
  }

  class CredentialAuthority {
    var store: Store
    ghost var history: seq<Store>   // every state the store has been in

    constructor ()
      ensures Valid() && store == Store(map[], map[])
    {
      store := Store(map[], map[]);
      history := [Store(map[], map[])];
    }

    ghost predicate Valid()
      reads this
    {
      && history != [] && history[|history| - 1] == store
      && (forall i | 0 <= i < |history| :: Inv(history[i]))
      && (forall i, j | 0 <= i <= j < |history| :: Precedes(history[i], history[j]))
    }

    /** Others change the store. */
    method Others(changes: seq<Change>)
      requires Valid()
      modifies this
      ensures Valid() && old(history) <= history
      ensures changes == [] ==> store == old(store) && history == old(history)
    {
      for i := 0 to |changes|
        invariant Valid() && old(history) <= history
        invariant i == 0 ==> store == old(store) && history == old(history)
      {
        hide Inv, Precedes, Apply;
        ghost var next := Apply(store, changes[i]);
        ApplyKeeps(store, changes[i]);
        forall k | 0 <= k < |history|
          ensures Precedes(history[k], next)
        {
          PrecedesTrans(history[k], store, next);
        }
        SelfPrecedes(next);
        store := Apply(store, changes[i]);
        history := history + [next];
      }
    }

    /** The first `size` credentials of a scope in some order, and whether there are more. */
    method ListScoped(room: string, size: nat) returns (items: seq<string>, more: bool)
      ensures |items| == if |Active(store, room)| < size then |Active(store, room)| else size
      ensures forall i | 0 <= i < |items| :: items[i] in Active(store, room)
      ensures more <==> |Active(store, room)| > size
    {
      items := [];
      var rest := Active(store, room);
      while rest != {} && |items| < size
        invariant rest <= Active(store, room) && |items| + |rest| == |Active(store, room)| && |items| <= size
        invariant forall i | 0 <= i < |items| :: items[i] in Active(store, room)
      {
        var id :| id in rest;
        items, rest := items + [id], rest - {id};
      }
      more := rest != {};
    }

    method SingleUsable(room: string, answered: bool) returns (l: Listed)
      requires Valid()
      ensures Shows(store, room, l)
      ensures answered && Usable(store, room).Some? ==> l.View? && l.id == Usable(store, room).value.id
      ensures answered && Active(store, room) == {} ==> l.Unconfigured?
    {
      hide Inv, Precedes;
      if !answered {
        return Unusable;
      }
      var items, more := ListScoped(room, 2);
      if |items| == 0 && !more {
        return Unconfigured;
      }
      if |items| != 1 || more {
        return Unusable;
      }
      OnlyOne(Active(store, room), items[0]);
      var row := store.rows[items[0]];
      if row.revision == 0 || row.verified != row.revision || !row.tested {
        return Unusable;
      }
      l := View(items[0], row);
    }

    /** `currentCredentialViewFor`: a room without a credential of its own inherits the owner's. */
    method CurrentView(room: string, changes: seq<Change>, answered: nat -> bool) returns (l: Listed, ghost seen: nat)
      requires Valid()
      modifies this
      ensures Valid() && old(history) <= history
      ensures l.View? ==> seen == |history| - 1 && Shows(store, l.row.room, l)
      ensures l.View? && l.row.room != room ==> l.row.room == "" && Active(old(store), room) == {}
      ensures changes == [] ==> history == old(history) && store == old(store)
      ensures changes == [] && answered(0) && answered(1) ==>
                var scope := if Active(store, room) == {} then "" else room;
                Usable(store, scope).Some? ==> l.View? && l.id == Usable(store, scope).value.id
    {
      hide Inv, Precedes, Valid;
      seen := 0;
      l := SingleUsable(room, answered(0));
      if room == "" || !l.Unconfigured? {
        Positive(this);
        seen := |history| - 1;
        assert l.View? ==> l.id in Active(store, room);
        return;
      }
      Others(changes);
      Positive(this);
      l := SingleUsable("", answered(1));
      assert l.View? ==> l.id in Active(store, "");
      seen := |history| - 1;
    }

    /** `resolveCurrentCredentialBinding`. A returned binding was the store's state, active and verified, at every
        instant from the listing to the last read; a room that has a credential of its own never resolves to the
        owner's; and with nothing happening meanwhile the scope's usable credential is what is returned. */
    method ResolveCurrentBinding(room: string, changes: nat -> seq<Change>, answered: nat -> bool)
      returns (b: Option<Binding>, ghost seen: nat)
      requires Valid()
      modifies this
      ensures Valid() && old(history) <= history
      ensures b.Some? ==> seen < |history| && |old(history)| <= seen + 1 &&
                          forall j | seen <= j < |history| :: Current(history[j], b.value)
      ensures b.Some? ==> b.value.id in store.rows
      ensures b.Some? && store.rows[b.value.id].room != room ==>
                store.rows[b.value.id].room == "" && Active(old(store), room) == {}
      ensures (forall i :: changes(i) == [] && answered(i)) ==>
                b == Usable(store, if Active(store, room) == {} then "" else room)
    {
      hide Inv, Precedes, Valid, Usable, Active, Current, Shows, Presentable;
      var l;
      l, seen := CurrentView(room, changes(0), answered);
      ghost var quiet := forall i :: changes(i) == [] && answered(i);
      if !l.View? {
        return None, seen;
      }
      ShownIsCurrent(store, l.row.room, l);
      b := FencedRead(l.id, l.row, changes, answered);
      if quiet {
        ShownIsUsable(store, l);
      }
    }

    /** The two revision reads around the credential read. */
    method FencedRead(id: string, row: Row, changes: nat -> seq<Change>, answered: nat -> bool)
      returns (b: Option<Binding>)
      requires Valid() && Current(store, BindingOf(id, row)) && Readable(store, id) && store.rows[id] == row
      modifies this
      ensures Valid() && old(history) <= history
      ensures b.Some? ==> b.value == BindingOf(id, row) && id in store.rows && store.rows[id].room == row.room &&
                          forall j | |old(history)| - 1 <= j < |history| :: Current(history[j], b.value)
      ensures (forall i :: changes(i) == [] && answered(i)) ==>
                store == old(store) && b == if Presentable(row) then Some(BindingOf(id, row)) else None
    {
      hide Inv, Precedes, Valid, Current, Presentable, Readable;
      ghost var seen := |history| - 1;
      Positive(this);
      Others(changes(1));
      if !answered(2) || !Readable(store, id) {
        return None;
      }
      var before := RevisionOf(store, id);
      Others(changes(2));
      if !answered(3) || !Readable(store, id) || !Presentable(RowOf(store, id)) {
        return None;
      }
      var credential := RowOf(store, id);
      Others(changes(3));
      if !answered(4) || !Readable(store, id) {
        return None;
      }
      var after := RevisionOf(store, id);
      if before != after || credential.who.account != row.who.account || credential.region != row.region ||
         after != row.revision {
        return None;
      }
      b := Some(Binding(id, credential.who.account, credential.region, after));
      CurrentSince(this, seen, b.value);
    }
  }

  function BindingOf(id: string, row: Row): Binding {
    Binding(id, row.who.account, row.region, row.revision)
  }

  function RowOf(s: Store, id: string): Row
    requires Readable(s, id)
  {
    s.rows[id]
  }

  function RevisionOf(s: Store, id: string): nat
    requires Readable(s, id)
  {
    s.rows[id].revision
  }

  lemma ShownIsCurrent(s: Store, room: string, l: Listed)
    requires Shows(s, room, l) && l.View?
    ensures Current(s, BindingOf(l.id, l.row)) && Readable(s, l.id) && s.rows[l.id] == l.row
  {
    assert l.id in Active(s, room);
  }

  lemma ShownIsUsable(s: Store, l: Listed)
    requires l.View? && Shows(s, l.row.room, l)
    ensures Usable(s, l.row.room) == if Presentable(l.row) then Some(BindingOf(l.id, l.row)) else None
    ensures Active(s, l.row.room) != {}
  {
    hide Presentable;
  }

  /** An active, verified credential: what the resolver asks of a row it reads. */
  predicate Readable(s: Store, id: string) {
    id in s.rows && !s.rows[id].disabled && s.rows[id].revision > 0 && Verified(s.rows[id])
  }

  lemma CurrentSince(a: CredentialAuthority, seen: nat, b: Binding)
    requires a.Valid() && seen < |a.history| && Current(a.history[seen], b)
    requires Readable(a.store, b.id) && a.store.rows[b.id].revision == b.revision
    ensures forall j | seen <= j < |a.history| :: Current(a.history[j], b)
    ensures b.id in a.store.rows && b.id in a.history[seen].rows &&
            a.store.rows[b.id].room == a.history[seen].rows[b.id].room
  {
    hide Inv, Precedes;
    forall j | seen <= j < |a.history|
      ensures Current(a.history[j], b)
    {
      CurrentBetween(a.history[seen], a.history[j], a.store, b);
    }
    SameRoom(a.history[seen], a.store, b.id);
  }

  lemma SameRoom(s: Store, t: Store, id: string)
    requires Precedes(s, t) && id in s.rows
    ensures id in t.rows && t.rows[id].room == s.rows[id].room
  {
  }

  lemma Positive(a: CredentialAuthority)
    requires a.Valid()
    ensures |a.history| > 0 && a.history[|a.history| - 1] == a.store
  {
  }

  lemma SelfPrecedes(s: Store)
    ensures Precedes(s, s)
  {
  }

  lemma OnlyOne(s: set<string>, x: string)
    requires |s| == 1 && x in s
    ensures s == {x}
  {
    assert |s - {x}| == 0;
  }

  // ---- Which credential a scope resolves to. ----

  /** Undisturbed, a scope resolves to a binding exactly if it has one active credential, which was tested and verified
      at its present revision, has a region and an identity, and is what the binding says. */
  lemma UsableExactly(s: Store, room: string, b: Binding)
    ensures Usable(s, room) == Some(b) <==>
            && b.id in s.rows
            && (forall id | id in s.rows && !s.rows[id].disabled && s.rows[id].room == room :: id == b.id)
            && var r := s.rows[b.id];
               && !r.disabled && r.room == room && r.tested && r.revision > 0 && r.verified == r.revision
               && Trim(r.region) != "" && Trim(r.who.account) != "" && Trim(r.who.arn) != ""
               && b.account == r.who.account && b.region == r.region && b.revision == r.revision
  {
    hide Trim;
    if |Active(s, room)| == 1 {
      var id :| id in Active(s, room);
      OnlyOne(Active(s, room), id);
      assert forall x | x in s.rows && !s.rows[x].disabled && s.rows[x].room == room :: x in Active(s, room);
    } else if b.id in Active(s, room) &&
              forall id | id in s.rows && !s.rows[id].disabled && s.rows[id].room == room :: id == b.id {
      assert Active(s, room) == {b.id};
    }
  }

  /** A credential that is created in a scope without one and tested is what the scope then resolves to. */
  lemma CreatedAndTested(s: Store, id: string, room: string, region: string, who: Identity)
    requires Inv(s) && id !in s.rows && Active(s, room) == {}
    requires Trim(region) != "" && Trim(who.account) != "" && Trim(who.arn) != ""
    ensures Usable(Apply(s, Create(id, room, region)), room) == None
    ensures Usable(Apply(Apply(s, Create(id, room, region)), Record(id, 1, who)), room) ==
            Some(Binding(id, who.account, region, 1))
  {
    hide Trim, Usable;
    var c := Apply(s, Create(id, room, region));
    var t := Apply(c, Record(id, 1, who));
    NoEvidence(s, id);
    assert forall x | x in s.rows && !s.rows[x].disabled && s.rows[x].room == room :: x in Active(s, room);
    UsableExactly(t, room, Binding(id, who.account, region, 1));
    if Usable(c, room).Some? {
      UsableExactly(c, room, Usable(c, room).value);
    }
  }

  /** Replacing a credential moves it to the next revision, with which it is not usable before it is tested again; a
      test then makes it usable. Deleting it leaves its scope without one. */
  lemma ReplacedAndDeleted(s: Store, id: string, region: string, who: Identity)
    requires Inv(s) && id in s.rows && !s.rows[id].disabled
    requires Trim(region) != "" && Trim(who.account) != "" && Trim(who.arn) != ""
    ensures var row := s.rows[id];
            var c := Apply(s, Replace(id, row.room, row.revision, region));
            && Usable(c, row.room) == None
            && Usable(Apply(c, Record(id, row.revision + 1, who)), row.room) ==
               Some(Binding(id, who.account, region, row.revision + 1))
            && Active(Apply(s, Delete(id, row.revision)), row.room) == {}
  {
    hide Trim, Usable;
    var room, next := s.rows[id].room, s.rows[id].revision + 1;
    var c := Apply(s, Replace(id, room, next - 1, region));
    var t := Apply(c, Record(id, next, who));
    assert (id, next) !in s.evidence;
    assert forall x | x in s.rows && !s.rows[x].disabled && s.rows[x].room == room :: x == id;
    UsableExactly(t, room, Binding(id, who.account, region, next));
    if Usable(c, room).Some? {
      UsableExactly(c, room, Usable(c, room).value);
    }
  }

  /** A test of another revision than the present one, or with another identity than the one recorded for it, does not
      change the credential. */
  lemma OtherTestsChangeNothing(s: Store, id: string, revision: nat, who: Identity)
    requires Inv(s) && id in s.rows
    requires s.rows[id].revision != revision || (Verified(s.rows[id]) && s.rows[id].who != who)
    ensures Apply(s, Complete(id, revision, who)).rows == s.rows && Apply(s, Record(id, revision, who)).rows == s.rows
  {
    FromInv(s, id);
  }

  /** A test that completes late is still evidence for its own revision, past or present, of a deleted credential too;
      the first identity found for a revision stays, and there is none for revisions to come. */
  lemma EvidenceExactly(s: Store, id: string, revision: nat, who: Identity)
    requires Inv(s) && id in s.rows
    ensures var n := Apply(s, Complete(id, revision, who));
            && (1 <= revision <= s.rows[id].revision ==>
                  n.evidence == if (id, revision) in s.evidence then s.evidence else s.evidence[(id, revision) := who])
            && (!(1 <= revision <= s.rows[id].revision) ==> n == s)
  {
    FromInv(s, id);
    if (id, revision) in s.evidence && s.evidence[(id, revision)] == who {
      assert s.evidence[(id, revision) := who] == s.evidence;
    }
  }
}
