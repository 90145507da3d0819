/** Dispatch of one conversation tool attempt: the handler (cmd/dirextalk-agent/core_extension_compose.go,
    conversationToolTaskHandler) over the durable begin and finish transactions
    (internal/store/postgres/core_conversation_tool_store.go), with leases that expire, several handlers at once,
    crashes and lost acknowledgements. */
module ToolDispatch {
  import opened Common

  const MAX_RESULT_BYTES := 0x10_0000   // 1 MiB

  datatype Result = Result(text: string, valid: bool, bytes: nat)

  predicate Good(r: Result) {
    r.valid && r.bytes <= MAX_RESULT_BYTES
  }

  /** How a call to the external tool ends. A known failure is one the executor classifies as definite. */
  datatype Outcome = Returned(result: Result) | KnownFailure | UnknownFailure

  datatype Attempt = Waiting | Dispatched(epoch: nat) | Completed(result: Result) | Denied | Uncertain

  datatype Confirmation = NotNeeded | Pending | Confirmed | Consumed

  datatype Status = Queued | Running | Closed

  datatype Task = Task(status: Status, epoch: nat, revision: nat, live: bool)

  datatype Durable = Durable(task: Task, attempt: Attempt, confirmation: Confirmation)

  /** What a handler was handed when it got the lease; holder and attempt number are determined by the epoch. */
  datatype Fence = Fence(epoch: nat, revision: nat)

  predicate Holds(t: Task, f: Fence) {
    t.status.Running? && t.epoch == f.epoch && t.revision == f.revision && t.live
  }

  datatype Target = ToCompleted(result: Result) | ToFailed | ToUncertain

  // ---- The two transactions. ----

  datatype Begun = Proceed(next: Durable) | Started | Conflict

  /** `BeginConversationTool`. */
  function BeginTool(d: Durable, f: Fence): Begun {
    if !Holds(d.task, f) then Conflict
    else match d.attempt
      case Waiting =>
        if d.confirmation.NotNeeded? then Proceed(d.(attempt := Dispatched(f.epoch)))
        else if d.confirmation.Confirmed? then Proceed(d.(attempt := Dispatched(f.epoch), confirmation := Consumed))
        else Conflict
      case Dispatched(epoch) =>
        if !(d.confirmation.NotNeeded? || d.confirmation.Consumed?) || epoch == 0 || epoch >= f.epoch then Conflict
             else Started
      case _ => Conflict
  }

  function Recorded(t: Target): Attempt {
    match t
    case ToCompleted(r) => Completed(r)
    case ToFailed => Denied
    case ToUncertain => Uncertain
  }

  /** `FinishConversationTool`. */
  function FinishTool(d: Durable, f: Fence, t: Target): Option<Durable> {
    if !Holds(d.task, f) || !d.attempt.Dispatched? then None
    else Some(d.(task := d.task.(status := Closed, revision := d.task.revision + 1, live := false),
                 attempt := Recorded(t)))
  }

  // ---- The machine. ----

  datatype Phase = Beginning | Preparing | Calling | Finishing(target: Target) | Gone

  datatype Handler = Handler(fence: Fence, phase: Phase)

  datatype State = State(durable: Durable, handlers: map<nat, Handler>, calls: seq<Outcome>)

  /** How a transaction ends: rolled back, committed, or committed with the answer lost. */
  datatype Commit = RolledBack | Committed | AnswerLost

  datatype Event =
    | Grant(h: nat)                       // the queue hands the task to a new handler
    | Expire                              // the lease runs out
    | Touch                               // some other update of the task moves its revision
    | Confirm
    | Refuse                              // the confirmation is denied, expires or is withdrawn
    | Cancel                              // the turn is cancelled after dispatch
    | Begin(h: nat, commit: Commit)
    | Prepare(h: nat, ok: bool)
    | NoExecutor(h: nat)                  // the invocation names no executor that exists
    | Call(h: nat, outcome: Outcome)
    | Finish(h: nat, commit: Commit)
    | Crash(h: nat)

  predicate Enabled(s: State, e: Event) {
    match e
    case Grant(h) => h !in s.handlers && !s.durable.task.status.Closed? && !s.durable.task.live
    case Begin(h, _) => h in s.handlers && s.handlers[h].phase.Beginning?
    case Prepare(h, _) => h in s.handlers && s.handlers[h].phase.Preparing?
    case NoExecutor(h) => h in s.handlers && s.handlers[h].phase.Calling?
    case Call(h, _) => h in s.handlers && s.handlers[h].phase.Calling?
    case Finish(h, _) => h in s.handlers && s.handlers[h].phase.Finishing?
    case Crash(h) => h in s.handlers
    case _ => true
  }

  function AfterCall(o: Outcome): Target {
    match o
    case Returned(r) => if Good(r) then ToCompleted(r) else ToFailed
    case KnownFailure => ToFailed
    case UnknownFailure => ToUncertain
  }

  function Move(s: State, h: nat, p: Phase): State
    requires h in s.handlers
  {
    s.(handlers := s.handlers[h := s.handlers[h].(phase := p)])
  }

  function BeginStep(s: State, h: nat, commit: Commit): State
    requires h in s.handlers
  {
    match BeginTool(s.durable, s.handlers[h].fence)
    case Conflict => Move(s, h, Gone)
    case Started => Move(s, h, if commit.RolledBack? then Gone else Finishing(ToUncertain))
    case Proceed(next) =>
      match commit
      case RolledBack => Move(s, h, Gone)
      case AnswerLost => Move(s.(durable := next), h, Gone)
      case Committed => Move(s.(durable := next), h, Preparing)
  }

  /** A completion that does not go through is followed by an attempt to record that the outcome is unknown. */
  function FinishStep(s: State, h: nat, commit: Commit): State
    requires h in s.handlers && s.handlers[h].phase.Finishing?
  {
    var t := s.handlers[h].phase.target;
    var tx := FinishTool(s.durable, s.handlers[h].fence, t);
    var n := if tx.Some? && !commit.RolledBack? then s.(durable := tx.value) else s;
    Move(n, h, if t.ToCompleted? && !(tx.Some? && commit.Committed?) then Finishing(ToUncertain) else Gone)
  }

  function Step(s: State, e: Event): State
    requires Enabled(s, e)
  {
    var d := s.durable;
    match e
    case Grant(h) =>
      var t := Task(Running, d.task.epoch + 1, d.task.revision + 1, true);
      s.(durable := d.(task := t), handlers := s.handlers[h := Handler(Fence(t.epoch, t.revision), Beginning)])
    case Expire => s.(durable := d.(task := d.task.(live := false)))
    case Touch => s.(durable := d.(task := d.task.(revision := d.task.revision + 1)))
    case Confirm => if d.confirmation.Pending? then s.(durable := d.(confirmation := Confirmed)) else s
    case Refuse =>
      if d.attempt.Waiting? then s.(durable := d.(attempt := Denied, task := d.task.(status := Closed, live := false)))
      else s
    case Cancel =>
      if !d.attempt.Dispatched? then s
      else s.(durable := d.(attempt := Uncertain, task := d.task.(status := Closed, live := false)))
    case Begin(h, commit) => BeginStep(s, h, commit)
    case Prepare(h, ok) => Move(s, h, if ok then Calling else Finishing(ToFailed))
    case NoExecutor(h) => Move(s, h, Finishing(ToUncertain))
    case Call(h, outcome) => Move(s.(calls := s.calls + [outcome]), h, Finishing(AfterCall(outcome)))
    case Finish(h, commit) => FinishStep(s, h, commit)
    case Crash(h) => Move(s, h, Gone)
  }

  ghost predicate Runs(s: State, es: seq<Event>)
    decreases |es|
  {
    es == [] || (Enabled(s, es[0]) && Runs(Step(s, es[0]), es[1..]))
  }

  ghost function After(s: State, es: seq<Event>): State
    requires Runs(s, es)
    decreases |es|
  {
    if es == [] then s else After(Step(s, es[0]), es[1..])
  }

  // ---- At most one call, and the record tells the truth about it. ----

  /** The handler that dispatched and has not given up its claim to say what happened. */
  predicate Owner(p: Phase) {
    p.Preparing? || p.Calling? || (p.Finishing? && !p.target.ToUncertain?)
  }

  /** What a handler about to record `t`, or the record itself, says about the calls made. */
  predicate True(t: Attempt, calls: seq<Outcome>) {
    match t
    case Completed(r) => calls == [Returned(r)] && Good(r)
    case Denied => calls == [] || (|calls| == 1 && AfterCall(calls[0]) == ToFailed)
    case Waiting => calls == []
    case _ => |calls| <= 1
  }

  ghost predicate HandlerHolds(s: State, h: nat) {
    h in s.handlers && var p := s.handlers[h].phase;
    && s.handlers[h].fence.epoch > 0
    && (p.Preparing? || p.Calling? ==> s.calls == [] && Spent(s.durable.confirmation))
    && (p.Finishing? ==> True(Recorded(p.target), s.calls))
    && (Owner(p) ==> !s.durable.attempt.Waiting? && !s.durable.attempt.Completed? && !s.durable.attempt.Denied?)
  }

  /** A dispatched attempt belongs to an epoch that was granted, and its confirmation is spent. */
  predicate Ledger(d: Durable) {
    d.attempt.Dispatched? ==>
      0 < d.attempt.epoch <= d.task.epoch && !d.task.status.Closed? && Spent(d.confirmation)
  }

  /** No confirmation is needed, or the one that was given is used up. */
  predicate Spent(c: Confirmation) {
    c.NotNeeded? || c.Consumed?
  }

  ghost predicate Inv(s: State) {
    && Ledger(s.durable) && True(s.durable.attempt, s.calls) && (s.calls != [] ==> Spent(s.durable.confirmation))
    && (forall h | h in s.handlers :: HandlerHolds(s, h))
    && (forall h, h' | h in s.handlers && h' in s.handlers && Owner(s.handlers[h].phase) &&
        Owner(s.handlers[h'].phase) :: h == h')
  }

  lemma StartHolds(d: Durable)
    requires d.attempt.Waiting?
    ensures Inv(State(d, map[], []))
  {
  }

  /** Changing one handler and the durable record keeps the invariant if both are all right by themselves and the
      other handlers' claims still stand. */
  lemma MoveKeeps(s: State, n: State, h: nat)
    requires Inv(s) && h in n.handlers && n.handlers == s.handlers[h := n.handlers[h]]
    requires HandlerHolds(n, h) && Ledger(n.durable) && True(n.durable.attempt, n.calls)
    requires n.calls == s.calls || (forall g | g in s.handlers && Owner(s.handlers[g].phase) :: g == h)
    requires |n.calls| <= 1 && (n.calls != [] ==> Spent(n.durable.confirmation))
    requires Spent(s.durable.confirmation) ==> Spent(n.durable.confirmation)
    requires Owner(n.handlers[h].phase) ==> forall g | g in s.handlers && Owner(s.handlers[g].phase) :: g == h
    requires n.durable.attempt == s.durable.attempt || n.durable.attempt.Uncertain? || n.durable.attempt.Dispatched? ||
             (forall g | g in s.handlers && Owner(s.handlers[g].phase) :: g == h)
    ensures Inv(n)
  {
    forall g | g in n.handlers
      ensures HandlerHolds(n, g)
    {
      if g != h {
        assert HandlerHolds(s, g);
      }
    }
  }

  lemma EnvironmentKeeps(s: State, e: Event)
    requires Inv(s) && Enabled(s, e) && (e.Expire? || e.Touch? || e.Confirm? || e.Refuse? || e.Cancel?)
    ensures Inv(Step(s, e))
  {
    var n := Step(s, e);
    forall g | g in n.handlers
      ensures HandlerHolds(n, g)
    {
      assert HandlerHolds(s, g);
    }
  }

  lemma BeginKeeps(s: State, h: nat, commit: Commit)
    requires Inv(s) && Enabled(s, Begin(h, commit))
    ensures Inv(BeginStep(s, h, commit))
  {
    assert HandlerHolds(s, h);
    assert s.durable.attempt.Waiting? ==>
             forall g | g in s.handlers :: HandlerHolds(s, g) && !Owner(s.handlers[g].phase);
    hide Inv;
    Parts(s);
    MoveKeeps(s, BeginStep(s, h, commit), h);
  }

  lemma Parts(s: State)
    requires Inv(s)
    ensures Ledger(s.durable) && True(s.durable.attempt, s.calls) && (s.calls != [] ==> Spent(s.durable.confirmation))
    ensures forall h, g | h in s.handlers && g in s.handlers && Owner(s.handlers[h].phase) &&
            Owner(s.handlers[g].phase) :: g == h
  {
  }

  lemma FinishKeeps(s: State, h: nat, commit: Commit)
    requires Inv(s) && Enabled(s, Finish(h, commit))
    ensures Inv(FinishStep(s, h, commit))
  {
    assert HandlerHolds(s, h);
    Parts(s);
    hide Inv;
    MoveKeeps(s, FinishStep(s, h, commit), h);
  }

  lemma HandlerStepKeeps(s: State, e: Event)
    requires Inv(s) && Enabled(s, e) && (e.Grant? || e.Prepare? || e.NoExecutor? || e.Call? || e.Crash?)
    ensures Inv(Step(s, e))
  {
    if !e.Grant? {
      assert HandlerHolds(s, e.h);
    }
    Parts(s);
    hide Inv;
    MoveKeeps(s, Step(s, e), e.h);
  }

  lemma StepKeeps(s: State, e: Event)
    requires Inv(s) && Enabled(s, e)
    ensures Inv(Step(s, e))
  {
    hide Inv, BeginStep, FinishStep;
    match e
    case Begin(h, commit) => BeginKeeps(s, h, commit);
    case Finish(h, commit) => FinishKeeps(s, h, commit);
    case Expire => EnvironmentKeeps(s, e);
    case Touch => EnvironmentKeeps(s, e);
    case Confirm => EnvironmentKeeps(s, e);
    case Refuse => EnvironmentKeeps(s, e);
    case Cancel => EnvironmentKeeps(s, e);
    case _ => HandlerStepKeeps(s, e);
  }

  lemma {:induction false} RunKeeps(s: State, es: seq<Event>)
    requires Inv(s) && Runs(s, es)
    ensures Inv(After(s, es))
    decreases |es|
  {
    hide Inv, Step, Enabled;
    if es != [] {
      StepKeeps(s, es[0]);
      RunKeeps(Step(s, es[0]), es[1..]);
    }
  }

  /** Over every run of any number of handlers, with crashes, expiring leases and lost answers: the external tool is
      called at most once; `completed` is recorded only with the result of that call, which returned no error and
      is valid and within the size limit; and `denied` only if there was no call or it failed for certain. */
  lemma CalledAtMostOnce(d: Durable, es: seq<Event>)
    requires d.attempt.Waiting? && Runs(State(d, map[], []), es)
    ensures var n := After(State(d, map[], []), es); |n.calls| <= 1 && True(n.durable.attempt, n.calls)
  {
    hide Runs, After;
    StartHolds(d);
    RunKeeps(State(d, map[], []), es);
  }

  /** Only the user's confirmation makes a pending one confirmed. */
  lemma {:induction false} StaysPending(s: State, es: seq<Event>)
    requires Runs(s, es) && s.durable.confirmation.Pending? && forall i | 0 <= i < |es| :: !es[i].Confirm?
    ensures After(s, es).durable.confirmation.Pending?
    decreases |es|
  {
    hide Enabled, Step;
    if es != [] {
      PendingStep(s, es[0]);
      StaysPending(Step(s, es[0]), es[1..]);
    }
  }

  lemma PendingStep(s: State, e: Event)
    requires Enabled(s, e) && s.durable.confirmation.Pending? && !e.Confirm?
    ensures Step(s, e).durable.confirmation.Pending?
  {
  }

  /** Over every run, a tool whose use has to be confirmed is not called before it is. */
  lemma NotCalledUnconfirmed(d: Durable, es: seq<Event>)
    requires d.attempt.Waiting? && d.confirmation.Pending? && Runs(State(d, map[], []), es)
    requires forall i | 0 <= i < |es| :: !es[i].Confirm?
    ensures After(State(d, map[], []), es).calls == []
  {
    hide Runs, After;
    StartHolds(d);
    RunKeeps(State(d, map[], []), es);
    StaysPending(State(d, map[], []), es);
    Parts(After(State(d, map[], []), es));
  }

  predicate Terminal(a: Attempt) {
    a.Completed? || a.Denied? || a.Uncertain?
  }

  lemma FinalStep(s: State, e: Event)
    requires Enabled(s, e) && Terminal(s.durable.attempt)
    ensures Step(s, e).durable.attempt == s.durable.attempt
  {
  }

  /** A recorded outcome is never changed again. */
  lemma {:induction false} RecordIsFinal(s: State, es: seq<Event>)
    requires Runs(s, es) && Terminal(s.durable.attempt)
    ensures After(s, es).durable.attempt == s.durable.attempt
    decreases |es|
  {
    hide Step, Enabled, Terminal;
    if es != [] {
      FinalStep(s, es[0]);
      RecordIsFinal(Step(s, es[0]), es[1..]);
    }
  }

  /** Whatever became of the handler that dispatched, once its lease has run out the next handler settles the
      attempt as uncertain without calling the tool. */
  lemma DispatchedCanSettle(s: State, h: nat) returns (es: seq<Event>)
    requires Inv(s) && s.durable.attempt.Dispatched? && h !in s.handlers
    ensures Runs(s, es) && After(s, es).durable.attempt == Uncertain && After(s, es).calls == s.calls
  {
    es := [Expire, Grant(h), Begin(h, Committed), Finish(h, Committed)];
    Parts(s);
    hide Inv;
    var a := Step(s, Expire);
    var b := Step(a, Grant(h));
    assert BeginTool(b.durable, b.handlers[h].fence) == Started;
    var c := Step(b, Begin(h, Committed));
    assert FinishTool(c.durable, c.handlers[h].fence, ToUncertain).Some?;
    var d := Step(c, Finish(h, Committed));
    hide Step, Enabled;
    FourSteps(s, es[0], es[1], es[2], es[3]);
  }

  lemma FourSteps(s: State, e: Event, f: Event, g: Event, h: Event)
    requires Enabled(s, e) && Enabled(Step(s, e), f) && Enabled(Step(Step(s, e), f), g)
    requires Enabled(Step(Step(Step(s, e), f), g), h)
    ensures Runs(s, [e, f, g, h]) && After(s, [e, f, g, h]) == Step(Step(Step(Step(s, e), f), g), h)
  {
    hide Step, Enabled;
    assert [e, f, g, h][1..] == [f, g, h] && [f, g, h][1..] == [g, h] && [g, h][1..] == [h] && [h][1..] == [];
    var t := Step(Step(s, e), f);
    assert Runs(Step(Step(t, g), h), []) && After(Step(Step(t, g), h), []) == Step(Step(t, g), h);
    assert Runs(Step(t, g), [h]) && After(Step(t, g), [h]) == Step(Step(t, g), h);
    assert Runs(t, [g, h]) && After(t, [g, h]) == Step(Step(t, g), h);
    assert Runs(Step(s, e), [f, g, h]);
  }

  // ---- The handler itself. ----

  ghost predicate Reaches(s: State, t: State) {
    exists es :: Runs(s, es) && After(s, es) == t
  }

  lemma ReachSelf(s: State)
    ensures Reaches(s, s)
  {
    assert Runs(s, []) && After(s, []) == s;
  }

  lemma {:induction false} Extend(s: State, es: seq<Event>, e: Event)
    requires Runs(s, es) && Enabled(After(s, es), e)
    ensures Runs(s, es + [e]) && After(s, es + [e]) == Step(After(s, es), e)
    decreases |es|
  {
    hide Step, Enabled;
    if es == [] {
      assert (es + [e])[1..] == [];
    } else {
      assert (es + [e])[1..] == es[1..] + [e];
      Extend(Step(s, es[0]), es[1..], e);
    }
  }

  lemma ReachStep(s: State, t: State, e: Event)
    requires Reaches(s, t) && Enabled(t, e)
    ensures Reaches(s, Step(t, e))
  {
    hide Runs, After, Step, Enabled;
    var es :| Runs(s, es) && After(s, es) == t;
    Extend(s, es, e);
  }

  predicate IsStepOf(e: Event, h: nat) {
    match e
    case Begin(g, _) => g == h
    case Prepare(g, _) => g == h
    case NoExecutor(g) => g == h
    case Call(g, _) => g == h
    case Finish(g, _) => g == h
    case Crash(g) => g == h
    case _ => false
  }

  lemma OthersLeave(s: State, e: Event, h: nat)
    requires Enabled(s, e) && !IsStepOf(e, h) && h in s.handlers
    ensures h in Step(s, e).handlers && Step(s, e).handlers[h] == s.handlers[h]
  {
  }

  /** The lease is held, the attempt was not dispatched yet, and the confirmation it needs was given. */
  predicate MayDispatch(d: Durable, f: Fence) {
    && d.task.status.Running? && d.task.epoch == f.epoch && d.task.revision == f.revision && d.task.live
    && d.attempt.Waiting? && (d.confirmation.NotNeeded? || d.confirmation.Confirmed?)
  }

  /** The lease is held, and an earlier holder of it dispatched the attempt and left it open. */
  predicate WasDispatched(d: Durable, f: Fence) {
    && d.task.status.Running? && d.task.epoch == f.epoch && d.task.revision == f.revision && d.task.live
    && d.attempt.Dispatched? && 0 < d.attempt.epoch < f.epoch && Spent(d.confirmation)
  }

  /** What is to be recorded of an attempt that was dispatched. */
  function Deserved(prepared: bool, executor: bool, outcome: Outcome): Attempt {
    if !prepared then Denied
    else if !executor then Uncertain
    else match outcome
      case Returned(r) => if r.valid && r.bytes <= 0x10_0000 then Completed(r) else Denied
      case KnownFailure => Denied
      case UnknownFailure => Uncertain
  }

  /** Nobody else acts, and every transaction commits. */
  ghost predicate Quiet(others: nat -> seq<Event>, commits: nat -> Commit) {
    forall i :: others(i) == [] && commits(i) == Committed
  }

  datatype BeginAnswer = Go | AlreadyStarted | BeginFailed

  function AfterBegin(r: BeginAnswer): Phase {
    match r
    case Go => Preparing
    case AlreadyStarted => Finishing(ToUncertain)
    case BeginFailed => Gone
  }

  class ToolRuntime {
    var durable: Durable
    var handlers: map<nat, Handler>
    var calls: seq<Outcome>

    constructor (d: Durable)
      ensures Now() == State(d, map[], [])
    {
      durable, handlers, calls := d, map[], [];
    }

    function Now(): State
      reads this
    {
      State(durable, handlers, calls)
    }

    /** Other handlers, the queue, the user and time act. */
    method Others(es: seq<Event>, me: nat, ghost start: State)
      requires me in handlers && Reaches(start, Now())
      modifies this
      ensures me in handlers && handlers[me] == old(handlers[me]) && Reaches(start, Now())
      ensures es == [] ==> Now() == old(Now())
    {
      hide Reaches, Enabled, Step, IsStepOf;
      for i := 0 to |es|
        invariant me in handlers && handlers[me] == old(handlers[me]) && Reaches(start, Now())
        invariant i == 0 ==> Now() == old(Now())
      {
        if Enabled(Now(), es[i]) && !IsStepOf(es[i], me) {
          OthersLeave(Now(), es[i], me);
          ReachStep(start, Now(), es[i]);
          var n := Step(Now(), es[i]);
          durable, handlers, calls := n.durable, n.handlers, n.calls;
        }
      }
    }

    method Advance(me: nat, p: Phase)
      requires me in handlers
      modifies this`handlers
      ensures Now() == Move(old(Now()), me, p)
    {
      handlers := handlers[me := handlers[me].(phase := p)];
    }

    method BeginConversationTool(me: nat, commit: Commit) returns (r: BeginAnswer)
      requires me in handlers && handlers[me].phase.Beginning?
      modifies this
      ensures Now() == BeginStep(old(Now()), me, commit) && me in handlers
      ensures handlers[me].phase == AfterBegin(r)
      ensures commit.Committed? ==> (r.Go? <==> MayDispatch(old(durable), old(handlers[me].fence)))
      ensures commit.Committed? ==> (r.AlreadyStarted? <==> WasDispatched(old(durable), old(handlers[me].fence)))
      ensures r.Go? || r.AlreadyStarted? ==> Holds(durable.task, handlers[me].fence) && durable.attempt.Dispatched?
      ensures commit.Committed? && r.BeginFailed? ==> durable == old(durable)
      ensures calls == old(calls)
    {
      var f := handlers[me].fence;
      var a, c := durable.attempt, durable.confirmation;
      r := BeginFailed;
      if !Holds(durable.task, f) || Terminal(a) || commit.RolledBack? {
      } else if a.Dispatched? {
        if (c.NotNeeded? || c.Consumed?) && 0 < a.epoch < f.epoch {
          r := AlreadyStarted;
        }
      } else if c.NotNeeded? || c.Confirmed? {
        durable := durable.(attempt := Dispatched(f.epoch));
        if c.Confirmed? {
          durable := durable.(confirmation := Consumed);
        }
        r := if commit.Committed? then Go else BeginFailed;
      }
      Advance(me, AfterBegin(r));
    }

    method FinishConversationTool(me: nat, t: Target, commit: Commit) returns (ok: bool)
      requires me in handlers && handlers[me].phase == Finishing(t)
      modifies this
      ensures Now() == FinishStep(old(Now()), me, commit) && me in handlers
      ensures ok ==> durable.attempt == Recorded(t) && durable.task.status.Closed? && !durable.task.live
      ensures commit.Committed? ==>
                (ok <==> Holds(old(durable.task), old(handlers[me].fence)) && old(durable.attempt).Dispatched?)
      ensures calls == old(calls)
      ensures ok || !t.ToCompleted? ==> handlers[me].phase.Gone?
      ensures !ok && t.ToCompleted? ==> handlers[me].phase == Finishing(ToUncertain)
    {
      ok := false;
      if Holds(durable.task, handlers[me].fence) && durable.attempt.Dispatched? && !commit.RolledBack? {
        durable := durable.(task := durable.task.(status := Closed, revision := durable.task.revision + 1,
                                                  live := false), attempt := Recorded(t));
        ok := commit.Committed?;
      }
      Advance(me, if t.ToCompleted? && !ok then Finishing(ToUncertain) else Gone);
    }

    method Conclude(me: nat, t: Target, others: seq<Event>, commit: Commit, ghost start: State) returns (ok: bool)
      requires me in handlers && handlers[me].phase == Finishing(t) && Reaches(start, Now())
      modifies this
      ensures me in handlers && Reaches(start, Now())
      ensures ok ==> durable.attempt == Recorded(t)
      ensures others == [] ==> calls == old(calls)
      ensures others == [] && commit.Committed? ==>
                (ok <==> Holds(old(durable.task), old(handlers[me].fence)) && old(durable.attempt).Dispatched?)
      ensures ok || !t.ToCompleted? ==> handlers[me].phase.Gone?
      ensures !ok && t.ToCompleted? ==> handlers[me].phase == Finishing(ToUncertain)
    {
      hide Reaches, FinishTool;
      Others(others, me, start);
      ReachStep(start, Now(), Finish(me, commit));
      ok := FinishConversationTool(me, t, commit);
    }

    /** Preparing and making the call: the handler then knows what to record. */
    method Dispatch(me: nat, others: nat -> seq<Event>, prepared: bool, executor: bool, outcome: Outcome,
                    ghost start: State)
      returns (target: Target)
      requires me in handlers && handlers[me].phase.Preparing? && Reaches(start, Now())
      modifies this
      ensures me in handlers && handlers[me].phase == Finishing(target) && Reaches(start, Now())
      ensures target.ToCompleted? ==> outcome == Returned(target.result) && Good(target.result)
      ensures Recorded(target) == Deserved(prepared, executor, outcome)
      ensures others(1) == [] && others(2) == [] ==>
                && durable == old(durable) && handlers[me].fence == old(handlers[me].fence)
                && calls == old(calls) + if prepared && executor then [outcome] else []
    {
      hide Reaches, BeginStep, FinishStep;
      Others(others(1), me, start);
      ReachStep(start, Now(), Prepare(me, prepared));
      if !prepared {
        Advance(me, Finishing(ToFailed));
        return ToFailed;
      }
      Advance(me, Calling);
      Others(others(2), me, start);
      if !executor {
        ReachStep(start, Now(), NoExecutor(me));
        Advance(me, Finishing(ToUncertain));
        return ToUncertain;
      }
      ReachStep(start, Now(), Call(me, outcome));
      target := AfterCall(outcome);
      calls := calls + [outcome];
      Advance(me, Finishing(target));
    }

    /** The whole handler: a run of the machine that ends with the handler gone. A reported success is the recorded
        result of a call that returned it. If nobody else acts and transactions commit, a handler that may dispatch
        calls the tool exactly if it was prepared and has an executor, and records what that deserves: the result if it
        is valid and small enough, a denial if the tool was not called for want of preparation, failed for certain or
        returned something unusable, and otherwise that the outcome is unknown. */
    method HandleTask(me: nat, others: nat -> seq<Event>, commits: nat -> Commit, prepared: bool, executor: bool,
                      outcome: Outcome)
      returns (success: Option<Result>)
      requires me in handlers && handlers[me].phase.Beginning?
      modifies this
      ensures Reaches(old(Now()), Now())
      ensures me in handlers && handlers[me].phase.Gone?
      ensures success.Some? ==> outcome == Returned(success.value) && Good(success.value) &&
                                durable.attempt == Completed(success.value)
      ensures Quiet(others, commits) && MayDispatch(old(durable), old(handlers[me].fence)) ==>
                && calls == old(calls) + (if prepared && executor then [outcome] else [])
                && (forall r :: durable.attempt == Completed(r) <==>
                      prepared && executor && outcome == Returned(r) && r.valid && r.bytes <= 0x10_0000)
                && (durable.attempt == Denied <==>
                      !prepared || (executor && (outcome.KnownFailure? ||
                                                 (outcome.Returned? &&
                                                  !(outcome.result.valid && outcome.result.bytes <= 0x10_0000)))))
                && (durable.attempt == Uncertain <==> prepared && (!executor || outcome.UnknownFailure?))
                && success == (if durable.attempt.Completed? then Some(durable.attempt.result) else None)
      ensures Quiet(others, commits) && !MayDispatch(old(durable), old(handlers[me].fence)) ==>
                calls == old(calls) && success == None
      ensures Quiet(others, commits) && WasDispatched(old(durable), old(handlers[me].fence)) ==>
                durable.attempt == Uncertain
      ensures (Quiet(others, commits) && !MayDispatch(old(durable), old(handlers[me].fence)) &&
               !WasDispatched(old(durable), old(handlers[me].fence))) ==> durable == old(durable)
    {
      hide Reaches, BeginStep, Good, MayDispatch, WasDispatched, Holds;
      ghost var start := Now();
      ReachSelf(start);
      Others(others(0), me, start);
      ReachStep(start, Now(), Begin(me, commits(0)));
      var begun := BeginConversationTool(me, commits(0));
      if begun == BeginFailed {
        return None;
      }
      var target := ToUncertain;
      if begun == Go {
        target := Dispatch(me, others, prepared, executor, outcome, start);
      }
      success := Settle(me, target, others, commits, start);
    }

    /** Records the outcome; if a completion does not go through, records that the outcome is unknown. */
    method Settle(me: nat, target: Target, others: nat -> seq<Event>, commits: nat -> Commit, ghost start: State)
      returns (success: Option<Result>)
      requires me in handlers && handlers[me].phase == Finishing(target) && Reaches(start, Now())
      modifies this
      ensures Reaches(start, Now()) && me in handlers && handlers[me].phase.Gone?
      ensures success.Some? ==> target == ToCompleted(success.value) && durable.attempt == Completed(success.value)
      ensures Quiet(others, commits) ==> calls == old(calls)
      ensures Quiet(others, commits) && Holds(old(durable.task), old(handlers[me].fence)) &&
              old(durable.attempt).Dispatched? ==>
                && durable.attempt == Recorded(target)
                && success == if target.ToCompleted? then Some(target.result) else None
    {
      hide Reaches, Holds;
      var ok := Conclude(me, target, others(3), commits(1), start);
      if !target.ToCompleted? {
        return None;
      }
      if !ok {
        var _ := Conclude(me, ToUncertain, others(4), commits(2), start);
        return None;
      }
      success := Some(target.result);
    }
  }
}
