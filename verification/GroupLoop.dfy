/** The group delivery loop (cmd/dirextalk-agent/core_group_agent.go) over the durable turn store: one tick,
    and every run of ticks, turn progress and crashes. */
module GroupLoop {
  import opened Common

  datatype TurnState = Accepted | Running | WaitingConfirmation | Completed | Canceled | Failed

  predicate Active(st: TurnState) {
    st.Accepted? || st.Running? || st.WaitingConfirmation?
  }

  /** The identity of a shared group conversation. The source hashes exactly these four fields. */
  datatype Conversation = Conversation(room: string, owner: string, agent: string, generation: nat)

  datatype Origin = Origin(requestId: string, room: string, event: string, actor: string, owner: string,
                           agent: string, generation: nat, revision: int)

  datatype Request = Request(origin: Origin, body: string)

  datatype Page = Page(requests: seq<Request>, hasMore: bool, next: string)

  datatype Turn = Turn(origin: Origin, state: TurnState)

  predicate ValidIdentifier(v: string, prefix: char) {
    1 < |v| <= 1024 && v[0] == prefix && forall i | 0 <= i < |v| :: !IsSpace(v[i]) && !IsControl(v[i])
  }

  predicate ValidUuid(v: string) {
    |v| == 36 && forall i | 0 <= i < 36 ::
      if i == 8 || i == 13 || i == 18 || i == 23 then v[i] == '-'
      else '0' <= v[i] <= '9' || 'a' <= v[i] <= 'f' || 'A' <= v[i] <= 'F'
  }

  predicate ValidOrigin(o: Origin) {
    && ValidUuid(o.requestId) && ValidIdentifier(o.event, '$') && ValidIdentifier(o.actor, '@')
    && ValidIdentifier(o.room, '!') && ValidIdentifier(o.owner, '@') && ValidIdentifier(o.agent, '@')
    && o.generation != 0
  }

  function ConversationOf(o: Origin): Conversation {
    Conversation(o.room, o.owner, o.agent, o.generation)
  }

  /** `groupRequestConversationID`; no identity for an invalid origin. */
  predicate Unfinished(t: Turn) {
    t.state !in {Completed, Canceled, Failed}
  }

  predicate SameConversation(o: Origin, p: Origin) {
    o.room == p.room && o.owner == p.owner && o.agent == p.agent && o.generation == p.generation
  }

  lemma ConversationExactly(o: Origin, p: Origin)
    ensures ConversationOf(o) == ConversationOf(p) <==> SameConversation(o, p)
  {
  }

  function RequestConversation(r: Request): Option<Conversation> {
    if ValidOrigin(r.origin) then Some(ConversationOf(r.origin)) else None
  }

  predicate BlankBody(s: string) {
    Trim(s) == ""
  }

  // ---- One delivery. ----

  /** What the services called by one `processRequest` answer. `committed` without `acknowledged` is a
      start whose transaction committed although the caller saw an error, `posted` without `published` a
      notice that reached the group although the caller saw an error. */
  datatype Answers = Answers(reachable: bool, allowed: bool, looked: bool, profiled: bool,
                             committed: bool, acknowledged: bool, posted: bool, published: bool)

  datatype Notice = Working | WaitingOwner | Final | Cancelled

  predicate Admissible(generation: nat, r: Request) {
    ValidOrigin(r.origin) && r.origin.generation == generation && !BlankBody(r.body)
  }

  /** The durable effect of `processRequest`: a turn is created only for an admissible, authorized request
      whose id has no turn yet. */
  function Process(turns: map<string, Turn>, generation: nat, r: Request, a: Answers): map<string, Turn> {
    if Admissible(generation, r) && a.reachable && a.allowed && a.looked && r.origin.requestId !in turns
       && a.profiled && a.committed
    then turns[r.origin.requestId := Turn(r.origin, Accepted)]
    else turns
  }

  function NoticeFor(st: TurnState): Notice {
    match st
    case Accepted => Working
    case Running => Working
    case WaitingConfirmation => WaitingOwner
    case Canceled => Cancelled
    case _ => Final
  }

  /** What the group is to be told; the turn must carry this very origin. */
  function Tells(turns: map<string, Turn>, generation: nat, r: Request, a: Answers): Option<Notice> {
    var id := r.origin.requestId;
    if !Admissible(generation, r) || !a.reachable then None
    else if !a.allowed then Some(Cancelled)
    else if !a.looked then None
    else if id in turns then
      if turns[id].origin == r.origin then Some(NoticeFor(turns[id].state)) else None
    else if !a.profiled then Some(Final)
    else if a.committed && a.acknowledged then Some(Working)
    else None
  }

  /** What the loop knows the group was told. */
  function Told(turns: map<string, Turn>, generation: nat, r: Request, a: Answers): Option<Notice> {
    if a.published then Tells(turns, generation, r, a) else None
  }

  /** The entry in the history of owner-approval notices, if one reached the group. */
  function Sent(turns: map<string, Turn>, generation: nat, r: Request, a: Answers): seq<Entry> {
    if Tells(turns, generation, r, a) == Some(WaitingOwner) && (a.posted || a.published)
    then [Posted(r.origin.requestId, a.published)] else []
  }

  // ---- The loop as a machine. ----

  datatype Parked = Parked(id: string, state: TurnState)

  datatype Tick =
    | Listing(pending: seq<string>, found: map<Conversation, Parked>)
    | Delivering(busy: map<Conversation, Parked>, started: set<Conversation>)

  /** A notice was posted, acknowledged or not; a tick kept the notices of the turns it saw parked; a restart. */
  datatype Entry = Posted(id: string, acknowledged: bool) | Retained(parked: set<string>) | Restarted

  datatype State = State(turns: map<string, Turn>, tick: Option<Tick>, notices: set<string>, log: seq<Entry>)

  datatype Event =
    | Advance(id: string, st: TurnState)     // the turn's own execution, cancellation or commit
    | List(ids: seq<string>)                 // ListActiveGroupTurns: the id query
    | Fetch                                  // and one GetTurn of it
    | Index                                  // activeGroupTurns and retainWaitingNotices
    | Deliver(request: Request, answers: Answers)
    | Finish
    | Crash

  ghost predicate Enabled(s: State, e: Event) {
    match e
    case Advance(id, _) => id in s.turns && Active(s.turns[id].state)
    case List(ids) => s.tick.None? && forall id :: id in ids <==> id in s.turns && Active(s.turns[id].state)
    case Fetch => s.tick.Some? && s.tick.value.Listing? && s.tick.value.pending != [] &&
                  s.tick.value.pending[0] in s.turns
    case Index => s.tick.Some? && s.tick.value.Listing? && s.tick.value.pending == []
    case Deliver(_, _) => s.tick.Some? && s.tick.value.Delivering?
    case Finish => s.tick.Some?
    case Crash => true
  }

  function FetchOne(turns: map<string, Turn>, t: Tick): Tick
    requires t.Listing? && t.pending != [] && t.pending[0] in turns
  {
    var id := t.pending[0];
    var turn := turns[id];
    Listing(t.pending[1..],
            if Active(turn.state) then t.found[ConversationOf(turn.origin) := Parked(id, turn.state)] else t.found)
  }

  function ParkedIds(busy: map<Conversation, Parked>): set<string> {
    set c | c in busy && busy[c].state.WaitingConfirmation? :: busy[c].id
  }

  /** Which of the three branches of the loop body a request takes. */
  datatype Branch = Remind | Skip | Attempt

  function BranchOf(s: State, busy: map<Conversation, Parked>, started: set<Conversation>, r: Request): Branch {
    match RequestConversation(r)
    case None => Attempt
    case Some(c) =>
      if c in busy then
        if busy[c].state.WaitingConfirmation? && busy[c].id == r.origin.requestId && busy[c].id !in s.notices
             then Remind else Skip
      else if c in started then Skip
      else Attempt
  }

  function Delivered(s: State, generation: nat, r: Request, a: Answers): State
    requires s.tick.Some? && s.tick.value.Delivering?
  {
    var busy, started := s.tick.value.busy, s.tick.value.started;
    var branch := BranchOf(s, busy, started, r);
    var told := Told(s.turns, generation, r, a);
    if branch.Skip? then s
    else s.(turns := Process(s.turns, generation, r, a),
            log := s.log + Sent(s.turns, generation, r, a),
            notices := if branch.Remind? && told.Some? then s.notices + {r.origin.requestId} else s.notices,
            tick := if branch.Attempt? && RequestConversation(r).Some?
                    then Some(Delivering(busy, started + {RequestConversation(r).value}))
                    else s.tick)
  }

  function Step(s: State, generation: nat, e: Event): State
    requires Enabled(s, e)
  {
    match e
    case Advance(id, st) => s.(turns := s.turns[id := s.turns[id].(state := st)])
    case List(ids) => s.(tick := Some(Listing(ids, map[])))
    case Fetch => s.(tick := Some(FetchOne(s.turns, s.tick.value)))
    case Index =>
      var parked := ParkedIds(s.tick.value.found);
      s.(tick := Some(Delivering(s.tick.value.found, {})), notices := s.notices * parked,
         log := s.log + [Retained(parked)])
    case Deliver(r, a) => Delivered(s, generation, r, a)
    case Finish => s.(tick := None)
    case Crash => s.(tick := None, notices := {}, log := s.log + [Restarted])
  }

  ghost predicate Runs(s: State, generation: nat, es: seq<Event>)
    decreases |es|
  {
    es == [] || (Enabled(s, es[0]) && Runs(Step(s, generation, es[0]), generation, es[1..]))
  }

  ghost function After(s: State, generation: nat, es: seq<Event>): State
    requires Runs(s, generation, es)
    decreases |es|
  {
    if es == [] then s else After(Step(s, generation, es[0]), generation, es[1..])
  }

  // ---- One unfinished answer per conversation. ----

  /** A turn is stored under its request id and only ever comes from a valid origin. */
  ghost predicate WellOriginated(turns: map<string, Turn>) {
    forall id | id in turns :: turns[id].origin.requestId == id && ValidOrigin(turns[id].origin)
  }

  ghost predicate OneActive(turns: map<string, Turn>) {
    forall a, b | a in turns && b in turns && Active(turns[a].state) && Active(turns[b].state) ::
      ConversationOf(turns[a].origin) == ConversationOf(turns[b].origin) ==> a == b
  }

  ghost predicate KnownIds(turns: map<string, Turn>, busy: map<Conversation, Parked>) {
    forall c | c in busy :: busy[c].id in turns
  }

  /** Whatever is active now was seen by this tick: in its snapshot, or started by it. */
  ghost predicate Covered(s: State) {
    s.tick.Some? ==>
      match s.tick.value
      case Listing(pending, found) =>
        && KnownIds(s.turns, found)
        && (forall i | 0 <= i < |pending| :: pending[i] in s.turns)
        && (forall id | id in s.turns && Active(s.turns[id].state) ::
              id in pending || ConversationOf(s.turns[id].origin) in found)
      case Delivering(busy, started) =>
        && KnownIds(s.turns, busy)
        && (forall id | id in s.turns && Active(s.turns[id].state) ::
              ConversationOf(s.turns[id].origin) in busy || ConversationOf(s.turns[id].origin) in started)
  }

  ghost predicate Inv(s: State) {
    WellOriginated(s.turns) && OneActive(s.turns) && Covered(s)
  }

  lemma ListKeeps(s: State, generation: nat, e: Event)
    requires Inv(s) && Enabled(s, e) && (e.List? || e.Fetch? || e.Index?)
    ensures Inv(Step(s, generation, e))
  {
    hide ValidOrigin;
    if e.Fetch? {
      var t := s.tick.value;
      assert t.pending == [t.pending[0]] + t.pending[1..];
    }
  }

  lemma DeliverKeeps(s: State, generation: nat, r: Request, a: Answers)
    requires Inv(s) && Enabled(s, Deliver(r, a))
    ensures Inv(Step(s, generation, Deliver(r, a)))
  {
    hide ValidOrigin, BlankBody, Told, Sent;
    var busy := s.tick.value.busy;
    if RequestConversation(r).Some? && RequestConversation(r).value in busy {
      assert Process(s.turns, generation, r, a) == s.turns || BranchOf(s, busy, s.tick.value.started, r).Skip?;
    }
  }

  lemma AdvanceKeeps(s: State, generation: nat, e: Event)
    requires Inv(s) && Enabled(s, e) && (e.Advance? || e.Finish? || e.Crash?)
    ensures Inv(Step(s, generation, e))
  {
    hide ValidOrigin;
  }

  lemma StepKeeps(s: State, generation: nat, e: Event)
    requires Inv(s) && Enabled(s, e)
    ensures Inv(Step(s, generation, e))
  {
    hide Inv, Step, Enabled;
    match e
    case Advance(_, _) => AdvanceKeeps(s, generation, e);
    case Finish => AdvanceKeeps(s, generation, e);
    case Crash => AdvanceKeeps(s, generation, e);
    case Deliver(r, a) => DeliverKeeps(s, generation, r, a);
    case List(_) => ListKeeps(s, generation, e);
    case Fetch => ListKeeps(s, generation, e);
    case Index => ListKeeps(s, generation, e);
  }

  /** In every run of ticks, turn progress and crashes, a group conversation never has two unfinished turns. */
  lemma {:induction false} OneAnswerPerConversation(s: State, generation: nat, es: seq<Event>)
    requires Inv(s) && Runs(s, generation, es)
    ensures Inv(After(s, generation, es))
    ensures forall a, b | a in After(s, generation, es).turns && b in After(s, generation, es).turns ::
              var t, u := After(s, generation, es).turns[a], After(s, generation, es).turns[b];
              Unfinished(t) && Unfinished(u) && SameConversation(t.origin, u.origin) ==> a == b
    decreases |es|
  {
    hide Step, Enabled;
    if es != [] {
      hide Inv;
      StepKeeps(s, generation, es[0]);
      OneAnswerPerConversation(Step(s, generation, es[0]), generation, es[1..]);
    }
  }

  /** Only the first request of a conversation may start work in a tick: once it was attempted, no later
      request of that conversation is attempted before the tick ends. */
  lemma {:induction false} LaterRequestsWait(s: State, generation: nat, es: seq<Event>, c: Conversation, r: Request)
    requires s.tick.Some? && s.tick.value.Delivering? && (c in s.tick.value.started || c in s.tick.value.busy)
    requires Runs(s, generation, es) && RequestConversation(r) == Some(c)
    requires forall e | e in es :: e.Advance? || e.Deliver?
    ensures var n := After(s, generation, es);
            n.tick.Some? && n.tick.value.Delivering? &&
            !BranchOf(n, n.tick.value.busy, n.tick.value.started, r).Attempt?
    decreases |es|
  {
    hide ValidOrigin, Told, Sent, Process, Admissible;
    if es != [] {
      assert es[0] in es;
      LaterRequestsWait(Step(s, generation, es[0]), generation, es[1..], c, r);
    }
  }

  // ---- One owner-approval notice per parking. ----

  predicate Forgets(e: Entry, id: string) {
    e.Restarted? || (e.Retained? && id !in e.parked)
  }

  /** The notice for `id` was posted and acknowledged and this process has had no reason to forget it since. */
  predicate Open(log: seq<Entry>, id: string) {
    log != [] &&
    var last := log[|log| - 1];
    last == Posted(id, true) || (!Forgets(last, id) && Open(log[..|log| - 1], id))
  }

  /** After an acknowledged post for a turn there is no other, until a restart or a tick that saw it not parked. */
  ghost predicate PostedOncePerParking(log: seq<Entry>) {
    forall i, j, id | 0 <= i < j < |log| && log[i] == Posted(id, true) && log[j].Posted? && log[j].id == id ::
      exists k | i < k < j :: Forgets(log[k], id)
  }

  ghost predicate NoticesRemembered(s: State) {
    PostedOncePerParking(s.log) && forall id | Open(s.log, id) :: id in s.notices
  }

  lemma {:induction false} ClosedWasForgotten(log: seq<Entry>, id: string, i: nat) returns (k: nat)
    requires i < |log| && log[i] == Posted(id, true) && !Open(log, id)
    ensures i < k < |log| && Forgets(log[k], id)
    decreases |log|
  {
    var n := |log| - 1;
    if Forgets(log[n], id) {
      k := n;
    } else {
      k := ClosedWasForgotten(log[..n], id, i);
    }
  }

  lemma PostKeeps(log: seq<Entry>, e: Entry)
    requires PostedOncePerParking(log) && (e.Posted? ==> !Open(log, e.id))
    ensures PostedOncePerParking(log + [e])
  {
    var n := log + [e];
    forall i, j, id | 0 <= i < j < |n| && n[i] == Posted(id, true) && n[j].Posted? && n[j].id == id
      ensures exists k | i < k < j :: Forgets(n[k], id)
    {
      if j < |log| {
        var k :| i < k < j && Forgets(log[k], id);
        assert n[k] == log[k];
      } else {
        var k := ClosedWasForgotten(log, id, i);
        assert n[k] == log[k];
      }
    }
  }

  /** Outside the reminder branch the owner is never told to approve: an unfinished turn of the request's
      conversation is always in the snapshot or among the started. */
  lemma OnlyRemindersWait(s: State, generation: nat, r: Request, a: Answers)
    requires Inv(s) && Enabled(s, Deliver(r, a))
    requires Tells(s.turns, generation, r, a) == Some(WaitingOwner)
    ensures !BranchOf(s, s.tick.value.busy, s.tick.value.started, r).Attempt?
  {
    hide ValidUuid, ValidIdentifier, BlankBody;
  }

  lemma LogGrows(s: State, generation: nat, e: Event)
    requires Inv(s) && NoticesRemembered(s) && Enabled(s, e)
    ensures NoticesRemembered(Step(s, generation, e))
  {
    hide Inv, Process, Tells, ValidOrigin, PostedOncePerParking;
    var n := Step(s, generation, e);
    if n.log != s.log {
      var x := n.log[|n.log| - 1];
      assert n.log == s.log + [x] && n.log[..|n.log| - 1] == s.log;
      if e.Deliver? {
        OnlyRemindersWait(s, generation, e.request, e.answers);
      }
      PostKeeps(s.log, x);
    }
  }

  /** A delivered reminder is due again, in the same tick or the next, exactly when its answer was lost. */
  lemma RepeatsExactlyWhenLost(s: State, generation: nat, r: Request, a: Answers)
    requires Enabled(s, Deliver(r, a)) && BranchOf(s, s.tick.value.busy, s.tick.value.started, r).Remind?
    requires Sent(s.turns, generation, r, a) != []
    ensures var n := Step(s, generation, Deliver(r, a));
            n.tick == s.tick && (BranchOf(n, s.tick.value.busy, s.tick.value.started, r).Remind? <==> !a.published)
  {
    hide ValidOrigin, Tells, Process;
  }

  /** In every run, once a post of a turn's owner-approval notice was acknowledged, the process posts it no more for as
      long as its ticks keep seeing the turn parked. */
  lemma {:induction false} OneNoticePerParking(s: State, generation: nat, es: seq<Event>)
    requires Inv(s) && NoticesRemembered(s) && Runs(s, generation, es)
    ensures NoticesRemembered(After(s, generation, es))
    decreases |es|
  {
    hide Inv, NoticesRemembered, Step, Enabled;
    if es != [] {
      StepKeeps(s, generation, es[0]);
      LogGrows(s, generation, es[0]);
      OneNoticePerParking(Step(s, generation, es[0]), generation, es[1..]);
    }
  }

  // ---- The tick itself. ----

  lemma {:induction false} Extend(s: State, generation: nat, es: seq<Event>, e: Event)
    requires Runs(s, generation, es) && Enabled(After(s, generation, es), e)
    ensures Runs(s, generation, es + [e]) &&
            After(s, generation, es + [e]) == Step(After(s, generation, es), generation, e)
    decreases |es|
  {
    hide Step, Enabled;
    if es == [] {
      assert (es + [e])[1..] == [];
    } else {
      assert (es + [e])[1..] == es[1..] + [e];
      Extend(Step(s, generation, es[0]), generation, es[1..], e);
    }
  }

  // ---- Exactly when a turn is started, and what the group is told. ----

  /** Everything `processRequest` asks of the services it calls before it starts a turn is granted. */
  predicate Granted(a: Answers) {
    a.reachable && a.allowed && a.looked && a.profiled && a.committed
  }

  /** A step adds a turn exactly if it delivers a valid request of this generation with a text, authorized and granted,
      whose id has no turn, and whose conversation is neither busy nor begun in this tick. The turn is that request's,
      newly accepted; all other turns stay as they are. */
  lemma StartsExactly(s: State, generation: nat, r: Request, a: Answers)
    requires Inv(s) && Enabled(s, Deliver(r, a))
    ensures var n, id, t := Step(s, generation, Deliver(r, a)), r.origin.requestId, s.tick.value;
            n.turns == if && ValidOrigin(r.origin) && r.origin.generation == generation
                          && Trim(r.body) != "" && Granted(a) && id !in s.turns
                          && ConversationOf(r.origin) !in t.busy && ConversationOf(r.origin) !in t.started
                       then s.turns[id := Turn(r.origin, Accepted)] else s.turns
  {
    hide ValidOrigin, Trim, Tells;
    var c := ConversationOf(r.origin);
    if c in s.tick.value.busy {
      assert s.tick.value.busy[c].id in s.turns;
    }
  }

  lemma TurnsStay(s: State, generation: nat, e: Event)
    requires Enabled(s, e)
    ensures s.turns.Keys <= Step(s, generation, e).turns.Keys
  {
    hide ValidOrigin, Tells, Trim;
  }

  /** A turn with `origin` was started by the delivery `e`: it was authorized, and for this very request. */
  predicate StartedBy(e: Event, generation: nat, origin: Origin) {
    && e.Deliver? && e.request.origin == origin && Granted(e.answers)
    && ValidOrigin(origin) && origin.generation == generation && Trim(e.request.body) != ""
  }

  lemma StepOrigins(s: State, generation: nat, e: Event, id: string)
    requires Enabled(s, e) && id in Step(s, generation, e).turns
    ensures if id in s.turns then Step(s, generation, e).turns[id].origin == s.turns[id].origin
            else StartedBy(e, generation, Step(s, generation, e).turns[id].origin)
  {
    hide ValidOrigin, Trim, Tells;
  }

  /** Over every run, a turn appears only by an authorized delivery of its own request, and keeps its origin. */
  lemma {:induction false} TurnsAreAuthorized(s: State, generation: nat, es: seq<Event>, id: string)
    requires Runs(s, generation, es) && id in After(s, generation, es).turns
    ensures var origin := After(s, generation, es).turns[id].origin;
            if id in s.turns then origin == s.turns[id].origin
                 else exists e | e in es :: StartedBy(e, generation, origin)
    decreases |es|
  {
    hide Step, Enabled, StartedBy;
    if es != [] {
      var n := Step(s, generation, es[0]);
      TurnsStay(s, generation, es[0]);
      TurnsAreAuthorized(n, generation, es[1..], id);
      if id in n.turns {
        StepOrigins(s, generation, es[0], id);
        assert es[0] in es;
      }
    }
  }

  /** The branches: a request waits if its conversation is begun, or busy with anything but its own parked turn whose
      owner was not told yet. */
  lemma SkippedExactly(s: State, r: Request)
    requires s.tick.Some? && s.tick.value.Delivering?
    ensures var t, id := s.tick.value, r.origin.requestId;
            BranchOf(s, t.busy, t.started, r).Skip? <==>
            ValidOrigin(r.origin) &&
            var c := ConversationOf(r.origin);
            if c in t.busy then !(t.busy[c] == Parked(id, WaitingConfirmation) && id !in s.notices) else c in t.started
  {
    hide ValidOrigin;
  }

  /** What the group is told of an authorized request: how its own turn stands, that the model is missing, or that it
      was accepted; and of one that is not authorized, that it was cancelled. */
  lemma TellsExactly(turns: map<string, Turn>, generation: nat, r: Request, a: Answers)
    requires ValidOrigin(r.origin) && r.origin.generation == generation && Trim(r.body) != "" && a.reachable
    ensures var id, n := r.origin.requestId, Tells(turns, generation, r, a);
            && (!a.allowed ==> n == Some(Cancelled))
            && (a.allowed && a.looked && id in turns && turns[id].origin == r.origin ==>
                  match turns[id].state
                  case WaitingConfirmation => n == Some(WaitingOwner)
                  case Canceled => n == Some(Cancelled)
                  case Completed => n == Some(Final)
                  case Failed => n == Some(Final)
                  case _ => n == Some(Working))
            && (a.allowed && a.looked && id in turns && turns[id].origin != r.origin ==> n == None)
            && (a.allowed && a.looked && id !in turns ==>
                  n == (if !a.profiled then Some(Final)
                        else if a.committed && a.acknowledged then Some(Working) else None))
            && (a.allowed && !a.looked ==> n == None)
  {
    hide ValidOrigin, Trim;
  }

  /** The owner-approval notice of a delivered request is posted exactly if its own turn is parked, the tick saw it so,
      the process does not remember a notice, and the post reaches the group. */
  lemma PostsExactly(s: State, generation: nat, r: Request, a: Answers)
    requires Inv(s) && Enabled(s, Deliver(r, a))
    ensures var n, id, busy := Step(s, generation, Deliver(r, a)), r.origin.requestId, s.tick.value.busy;
            n.log == s.log +
              if && ValidOrigin(r.origin) && r.origin.generation == generation && Trim(r.body) != ""
                 && a.reachable && a.allowed && a.looked && (a.posted || a.published)
                 && id in s.turns && s.turns[id] == Turn(r.origin, WaitingConfirmation)
                 && ConversationOf(r.origin) in busy
                 && busy[ConversationOf(r.origin)] == Parked(id, WaitingConfirmation) && id !in s.notices
              then [Posted(id, a.published)] else []
  {
    hide ValidOrigin, Trim, Process;
    if Tells(s.turns, generation, r, a) == Some(WaitingOwner) {
      hide Tells;
      OnlyRemindersWait(s, generation, r, a);
    }
  }

  /** A tick forgets exactly the notices of turns that it did not see parked. */
  lemma RetainsExactly(s: State, generation: nat, id: string)
    requires Enabled(s, Index)
    ensures id in Step(s, generation, Index).notices <==>
            id in s.notices &&
            exists c | c in s.tick.value.found :: s.tick.value.found[c] == Parked(id, WaitingConfirmation)
  {
    var found := s.tick.value.found;
    if id in ParkedIds(found) {
      var c :| c in found && found[c].state.WaitingConfirmation? && found[c].id == id;
      assert found[c] == Parked(id, WaitingConfirmation);
    }
  }

  // ---- What a run delivered, and whether the deliveries went well. ----

  datatype Delivery = Delivery(request: Request, answers: Answers)

  function Deliveries(es: seq<Event>): seq<Delivery> {
    if es == [] then []
    else
      var e := es[|es| - 1];
      Deliveries(es[..|es| - 1]) + if e.Deliver? then [Delivery(e.request, e.answers)] else []
  }

  /** The delivery is tried, and the loop does not learn that the group was told. */
  predicate Fails(s: State, generation: nat, r: Request, a: Answers)
    requires s.tick.Some? && s.tick.value.Delivering?
  {
    !BranchOf(s, s.tick.value.busy, s.tick.value.started, r).Skip? && Told(s.turns, generation, r, a).None?
  }

  ghost predicate FailsAt(s: State, generation: nat, e: Event) {
    e.Deliver? && s.tick.Some? && s.tick.value.Delivering? && Fails(s, generation, e.request, e.answers)
  }

  ghost predicate NoneFailed(s: State, generation: nat, es: seq<Event>)
    requires Runs(s, generation, es)
    decreases |es|
  {
    es == [] || (!FailsAt(s, generation, es[0]) && NoneFailed(Step(s, generation, es[0]), generation, es[1..]))
  }

  lemma {:induction false} ExtendFailed(s: State, generation: nat, es: seq<Event>, e: Event)
    requires Runs(s, generation, es) && Enabled(After(s, generation, es), e)
    ensures Runs(s, generation, es + [e])
    ensures NoneFailed(s, generation, es + [e]) <==>
            NoneFailed(s, generation, es) && !FailsAt(After(s, generation, es), generation, e)
    decreases |es|
  {
    hide Step, Enabled, FailsAt;
    if es == [] {
      assert (es + [e])[1..] == [];
    } else {
      assert (es + [e])[1..] == es[1..] + [e];
      ExtendFailed(Step(s, generation, es[0]), generation, es[1..], e);
    }
  }

  /** The run `es` from `s` has come to `now`, having delivered `sent`; `well` says that none of it failed. */
  ghost predicate At(s: State, generation: nat, es: seq<Event>, now: State, sent: seq<Delivery>, well: bool) {
    && Runs(s, generation, es) && After(s, generation, es) == now
    && Deliveries(es) == sent && (NoneFailed(s, generation, es) <==> well)
  }

  lemma AtStart(s: State, generation: nat)
    ensures At(s, generation, [], s, [], true)
  {
  }

  lemma AtStep(s: State, generation: nat, es: seq<Event>, now: State, sent: seq<Delivery>, well: bool, e: Event)
    requires At(s, generation, es, now, sent, well) && Enabled(now, e)
    ensures At(s, generation, es + [e], Step(now, generation, e),
               sent + (if e.Deliver? then [Delivery(e.request, e.answers)] else []), well &&
               !FailsAt(now, generation, e))
  {
    hide Runs, After, NoneFailed, Step, Enabled, FailsAt;
    Extend(s, generation, es, e);
    ExtendFailed(s, generation, es, e);
    assert (es + [e])[..|es|] == es;
  }

  /** A step that delivers nothing. */
  lemma AtQuiet(s: State, generation: nat, es: seq<Event>, now: State, sent: seq<Delivery>, well: bool, e: Event)
    requires At(s, generation, es, now, sent, well) && Enabled(now, e) && !e.Deliver?
    ensures At(s, generation, es + [e], Step(now, generation, e), sent, well)
  {
    hide At, Step, Enabled;
    AtStep(s, generation, es, now, sent, well, e);
    assert sent + [] == sent;
  }

  // ---- The feed. ----

  function Requests(pages: seq<Page>): seq<Request> {
    if pages == [] then [] else Requests(pages[..|pages| - 1]) + pages[|pages| - 1].requests
  }

  /** The cursor page `i` was asked for with. */
  function Cursor(pages: seq<Page>, i: nat): string
    requires i <= |pages|
  {
    if i == 0 then "" else pages[i - 1].next
  }

  /** Page `i` is followed by another, and says where it begins. */
  predicate GoesOn(pages: seq<Page>, i: nat)
    requires i < |pages|
  {
    pages[i].hasMore && Less(Cursor(pages, i), pages[i].next)
  }

  /** The first `n` pages are those that a tick reads: all before the last go on, and the last does not unless the feed
      fails behind it. */
  ghost predicate Reads(pages: seq<Page>, n: nat) {
    && n <= |pages| && (forall i | 0 <= i < n - 1 :: GoesOn(pages, i))
    && (n < |pages| ==> n > 0 && !GoesOn(pages, n - 1))
  }

  function Answered(rs: seq<Request>, answers: nat -> Answers, base: nat): (r: seq<Delivery>)
    ensures |r| == |rs| && forall j | 0 <= j < |rs| :: r[j] == Delivery(rs[j], answers(base + j))
  {
    seq(|rs|, j requires 0 <= j < |rs| => Delivery(rs[j], answers(base + j)))
  }

  datatype Move = Move(id: string, st: TurnState)

  class GroupAgentLoop {
    const generation: nat
    var turns: map<string, Turn>       // the durable turn store
    var waitingNotices: set<string>
    ghost var log: seq<Entry>

    constructor (generation: nat, turns: map<string, Turn>)
      ensures this.generation == generation && Now(None) == State(turns, None, {}, [])
    {
      this.generation := generation;
      this.turns, waitingNotices, log := turns, {}, [];
    }

    ghost function Now(tick: Option<Tick>): State
      reads this
    {
      State(turns, tick, waitingNotices, log)
    }

    /** Turns make progress on their own between any two operations of the loop. */
    method Environment(moves: seq<Move>, ghost start: State, ghost before: seq<Event>, ghost tick: Option<Tick>,
                       ghost sent: seq<Delivery>, ghost well: bool)
      returns (ghost es: seq<Event>)
      requires At(start, generation, before, Now(tick), sent, well)
      modifies this`turns
      ensures turns.Keys == old(turns.Keys)
      ensures At(start, generation, es, Now(tick), sent, well)
    {
      hide At;
      es := before;
      for i := 0 to |moves|
        invariant turns.Keys == old(turns.Keys)
        invariant At(start, generation, es, Now(tick), sent, well)
      {
        var m := moves[i];
        if m.id in turns && Active(turns[m.id].state) {
          AtQuiet(start, generation, es, Now(tick), sent, well, Advance(m.id, m.st));
          es := es + [Advance(m.id, m.st)];
          turns := turns[m.id := turns[m.id].(state := m.st)];
        }
      }
    }

    /** The body of the request loop. */
    method DeliverOne(busy: map<Conversation, Parked>, started: set<Conversation>, r: Request, a: Answers)
      returns (started': set<Conversation>, failed: bool)
      modifies this
      ensures Now(Some(Delivering(busy, started'))) ==
                Delivered(old(Now(Some(Delivering(busy, started)))), generation, r, a)
      ensures failed == Fails(old(Now(Some(Delivering(busy, started)))), generation, r, a)
    {
      hide ValidOrigin, Process, Told, Sent;
      started', failed := started, false;
      var conversation := RequestConversation(r);
      if conversation.Some? && conversation.value in busy {
        var turn := busy[conversation.value];
        if turn.state.WaitingConfirmation? && turn.id == r.origin.requestId && turn.id !in waitingNotices {
          var told := ProcessRequest(r, a);
          failed := told.None?;
          if told.Some? {
            waitingNotices := waitingNotices + {turn.id};
          }
        }
        return;
      }
      if conversation.Some? && conversation.value in started {
        return;
      }
      var told := ProcessRequest(r, a);
      failed := told.None?;
      if conversation.Some? {
        started' := started + {conversation.value};
      }
    }

    method ProcessRequest(r: Request, a: Answers) returns (told: Option<Notice>)
      modifies this`turns, this`log
      ensures turns == Process(old(turns), generation, r, a)
      ensures told == Told(old(turns), generation, r, a)
      ensures log == old(log) + Sent(old(turns), generation, r, a)
    {
      hide ValidOrigin, BlankBody;
      var id := r.origin.requestId;
      if !Admissible(generation, r) || !a.reachable {
        return None;
      }
      if !a.allowed {
        return if a.published then Some(Cancelled) else None;
      }
      if !a.looked {
        return None;
      }
      var turn := Turn(r.origin, Accepted);
      if id in turns {
        turn := turns[id];
      } else {
        if !a.profiled {
          return if a.published then Some(Final) else None;
        }
        if a.committed {
          turns := turns[id := turn];
        }
        if !a.committed || !a.acknowledged {
          return None;
        }
      }
      if turn.origin != r.origin {
        return None;
      }
      var notice := NoticeFor(turn.state);
      if notice == WaitingOwner && (a.posted || a.published) {
        log := log + [Posted(id, a.published)];
      }
      told := if a.published then Some(notice) else None;
    }

    /** The requests of one page, delivered in order, the `j`-th with the answers `answers(k + j)`. */
    method DeliverPage(page: Page, busy: map<Conversation, Parked>, started: set<Conversation>, answers: nat -> Answers,
                       moves: nat -> seq<Move>, k: nat, ghost start: State, ghost before: seq<Event>,
                       ghost sent: seq<Delivery>, well: bool)
      returns (started': set<Conversation>, well': bool, ghost es: seq<Event>)
      requires At(start, generation, before, Now(Some(Delivering(busy, started))), sent, well)
      modifies this
      ensures At(start, generation, es, Now(Some(Delivering(busy, started'))),
                 sent + Answered(page.requests, answers, k), well')
    {
      hide At, Delivered, Fails;
      started', well', es := started, well, before;
      var rs := page.requests;
      assert sent + Answered(rs[..0], answers, k) == sent;
      for i := 0 to |rs|
        invariant At(start, generation, es, Now(Some(Delivering(busy, started'))), sent + Answered(rs[..i], answers, k),
                     well')
      {
        ghost var tick, done := Some(Delivering(busy, started')), sent + Answered(rs[..i], answers, k);
        var r, a := page.requests[i], answers(k + i);
        es := Environment(moves(k + i), start, es, tick, done, well');
        AtStep(start, generation, es, Now(tick), done, well', Deliver(r, a));
        assert done + [Delivery(r, a)] == sent + Answered(rs[..i + 1], answers, k);
        es := es + [Deliver(r, a)];
        var failed;
        started', failed := DeliverOne(busy, started', r, a);
        well' := well' && !failed;
      }
      assert rs[..|rs|] == rs;
    }

    /** The page loop: it reads up to the first page that does not go on. */
    method DeliverFeed(pages: seq<Page>, busy: map<Conversation, Parked>, answers: nat -> Answers,
                       moves: nat -> seq<Move>, base: nat, ghost start: State, ghost before: seq<Event>)
      returns (ended: bool, well: bool, ghost started: set<Conversation>, ghost es: seq<Event>, ghost read: nat)
      requires At(start, generation, before, Now(Some(Delivering(busy, {}))), [], true)
      modifies this
      ensures Reads(pages, read) && (ended <==> read > 0 && !pages[read - 1].hasMore)
      ensures At(start, generation, es, Now(Some(Delivering(busy, started))),
                 Answered(Requests(pages[..read]), answers, base), well)
    {
      hide At, Less;
      var begun: set<Conversation>, after, n: nat, k: nat := {}, "", 0, base;
      es, read, ended, well := before, 0, false, true;
      assert pages[..0] == [] && Answered([], answers, base) == [];
      while n < |pages|
        invariant n <= |pages| && read == n && after == Cursor(pages, n) && !ended
        invariant (forall i | 0 <= i < n :: GoesOn(pages, i)) && (n > 0 ==> pages[n - 1].hasMore)
        invariant k == base + |Requests(pages[..n])|
        invariant At(start, generation, es, Now(Some(Delivering(busy, begun))),
                     Answered(Requests(pages[..n]), answers, base), well)
        decreases |pages| - n
      {
        var page := pages[n];
        ghost var rs := Requests(pages[..n]);
        begun, well, es := DeliverPage(page, busy, begun, answers, moves, k, start, es, Answered(rs, answers, base),
                                       well);
        assert pages[..n + 1][..n] == pages[..n];
        assert Answered(rs, answers, base) + Answered(page.requests, answers, k) ==
                 Answered(rs + page.requests, answers, base);
        read, k := n + 1, k + |page.requests|;
        if !page.hasMore {
          ended := true;
          break;
        }
        if page.next == after || Less(page.next, after) || page.next == "" {
          NotLess(after, page.next);
          break;
        }
        LessTotal(after, page.next);
        after := page.next;
        n := n + 1;
      }
      started := begun;
    }

    /** One tick: `ids` is the answer of the active-turn query, `moves` the progress turns make before each operation,
        `pages` the delivery feed, which fails behind its last page. Whatever these are, the tick is a run of the
        machine that delivers exactly the requests of the first `read` pages, in order and each with its own answers.
        It reads up to the first page that does not go on, and reports success exactly if that is the last page of the
        feed and every delivery it tried went well. */
    method Tick(ids: seq<string>, pages: seq<Page>, answers: nat -> Answers, moves: nat -> seq<Move>)
      returns (ok: bool, ghost es: seq<Event>, ghost read: nat)
      requires forall id :: id in ids <==> id in turns && Active(turns[id].state)
      modifies this
      ensures Runs(old(Now(None)), generation, es) && After(old(Now(None)), generation, es) == Now(None)
      ensures Reads(pages, read) && Deliveries(es) == Answered(Requests(pages[..read]), answers, |ids|)
      ensures ok <==> read > 0 && !pages[read - 1].hasMore && NoneFailed(old(Now(None)), generation, es)
      ensures old(Inv(Now(None))) ==> OneActive(turns)
    {
      hide Runs, After, At, Deliveries, NoneFailed;
      ghost var start := Now(None);
      AtStart(start, generation);
      AtQuiet(start, generation, [], start, [], true, List(ids));
      es := [] + [List(ids)];
      var busy: map<Conversation, Parked>;
      busy, es := ActiveGroupTurns(ids, moves, start, es);
      var ended, well;
      ghost var started;
      ended, well, started, es, read := DeliverFeed(pages, busy, answers, moves, |ids|, start, es);
      ghost var sent := Answered(Requests(pages[..read]), answers, |ids|);
      AtQuiet(start, generation, es, Now(Some(Delivering(busy, started))), sent, well, Finish);
      es := es + [Finish];
      AtParts(start, generation, es, Now(None), sent, well);
      ok := ended && well;
      if Inv(start) {
        OneAnswerPerConversation(start, generation, es);
      }
    }

    /** `activeGroupTurns` over the store's listing, then `retainWaitingNotices`. */
    method ActiveGroupTurns(ids: seq<string>, moves: nat -> seq<Move>, ghost start: State, ghost before: seq<Event>)
      returns (busy: map<Conversation, Parked>, ghost es: seq<Event>)
      requires forall id | id in ids :: id in turns
      requires At(start, generation, before, Now(Some(Listing(ids, map[]))), [], true)
      modifies this
      ensures At(start, generation, es, Now(Some(Delivering(busy, {}))), [], true)
    {
      hide At;
      es := before;
      busy := map[];
      assert ids[0..] == ids;
      for i := 0 to |ids|
        invariant forall id | id in ids :: id in turns
        invariant At(start, generation, es, Now(Some(Listing(ids[i..], busy))), [], true)
      {
        es := Environment(moves(i), start, es, Some(Listing(ids[i..], busy)), [], true);
        var id := ids[i];
        assert ids[i..][0] == id && ids[i..][1..] == ids[i + 1..];
        AtQuiet(start, generation, es, Now(Some(Listing(ids[i..], busy))), [], true, Fetch);
        es := es + [Fetch];
        if Active(turns[id].state) {
          busy := busy[ConversationOf(turns[id].origin) := Parked(id, turns[id].state)];
        }
      }
      assert ids[|ids|..] == [];
      AtQuiet(start, generation, es, Now(Some(Listing([], busy))), [], true, Index);
      es := es + [Index];
      waitingNotices := waitingNotices * ParkedIds(busy);
      log := log + [Retained(ParkedIds(busy))];
    }
  }

  lemma NotLess(a: string, b: string)
    requires b == a || Less(b, a) || b == ""
    ensures !Less(a, b)
  {
    LessIrreflexive(a);
    if Less(b, a) {
      LessAsymmetric(b, a);
    }
  }

  lemma AtParts(s: State, generation: nat, es: seq<Event>, now: State, sent: seq<Delivery>, well: bool)
    requires At(s, generation, es, now, sent, well)
    ensures Runs(s, generation, es) && After(s, generation, es) == now
    ensures Deliveries(es) == sent && (NoneFailed(s, generation, es) <==> well)
  {
  }
}
