/** Worker placement (cmd/dirextalk-agent/core_cloud_worker_placement.go): the fastest-region choice and the
    single-flight cache that any number of concurrent callers share. */
module Placement {
  import opened Common

  const REGIONS: seq<string> := ["ap-northeast-1", "us-west-1", "eu-west-3"]

  /** Five minutes, in nanoseconds. */
  const TTL: int := 300_000_000_000

  predicate Supported(region: string) {
    region in REGIONS
  }

  // ---- choose: the least measurement, whatever the order of arrival. ----

  datatype Measurement = Measurement(region: string, duration: int, failed: bool)

  predicate Usable(m: Measurement) {
    !m.failed && m.duration >= 0
  }

  predicate Faster(a: Measurement, b: Measurement) {
    a.duration < b.duration || (a.duration == b.duration && Less(a.region, b.region))
  }

  /** `best` succeeded with the least duration and, of equal durations, the first region name. */
  ghost predicate IsFastest(ms: seq<Measurement>, best: Measurement) {
    && best in ms && !best.failed && best.duration >= 0
    && forall m | m in ms && !m.failed && m.duration >= 0 ::
         best.duration < m.duration || (best.duration == m.duration && !Less(m.region, best.region))
  }

  /** What `choose` promises about the region it returns. */
  ghost predicate IsChoice(arrivals: seq<Measurement>, nearest: string, drawn: string, region: string) {
    if exists m | m in arrivals :: !m.failed && m.duration >= 0 then
      exists best :: IsFastest(arrivals, best) && best.region == region
    else if nearest != "" then region == nearest
    else region == drawn
  }

  /** A new arrival that is faster than the best so far is faster than everything before it. */
  lemma StillFastest(prefix: seq<Measurement>, best: Measurement, next: Measurement)
    requires IsFastest(prefix, best)
    ensures Usable(next) && Faster(next, best) ==> IsFastest(prefix + [next], next)
    ensures !(Usable(next) && Faster(next, best)) ==> IsFastest(prefix + [next], best)
  {
    var all := prefix + [next];
    assert forall m :: m in all <==> m in prefix || m == next;
    if Usable(next) && Faster(next, best) {
      LessIrreflexive(next.region);
      forall m | m in prefix && Usable(m)
        ensures !Faster(m, next)
      {
        if Faster(m, next) {
          if m.duration == next.duration == best.duration {
            LessTrans(m.region, next.region, best.region);
          }
        }
      }
    }
  }

  /** Two orders of the same arrivals lead to the same region. */
  lemma ChoiceIgnoresArrivalOrder(xs: seq<Measurement>, ys: seq<Measurement>, nearest: string, drawn: string, a: string,
                                  b: string)
    requires multiset(xs) == multiset(ys)
    requires IsChoice(xs, nearest, drawn, a) && IsChoice(ys, nearest, drawn, b)
    ensures a == b
  {
    assert forall m :: m in xs <==> m in multiset(xs);
    assert forall m :: m in ys <==> m in multiset(ys);
    if exists m | m in xs :: Usable(m) {
      var p :| IsFastest(xs, p) && p.region == a;
      var q :| IsFastest(ys, q) && q.region == b;
      LessTotal(p.region, q.region);
    }
  }

  datatype Choice = Chosen(region: string) | Cancelled

  /** `choose`: `arrivals` are the measurements received before the timeout, in order of arrival. */
  method Choose(arrivals: seq<Measurement>, cancelled: bool, nearest: string, draw: nat) returns (r: Choice)
    requires forall m | m in arrivals :: Supported(m.region)
    requires nearest == "" || Supported(nearest)
    requires draw < |REGIONS|
    ensures r.Cancelled? <==> cancelled
    ensures r.Chosen? ==> IsChoice(arrivals, nearest, REGIONS[draw], r.region) && Supported(r.region)
  {
    hide Supported;
    var selected: Option<Measurement> := None;
    for i := 0 to |arrivals|
      invariant selected.None? ==> forall m | m in arrivals[..i] :: !Usable(m)
      invariant selected.Some? ==> IsFastest(arrivals[..i], selected.value)
    {
      var result := arrivals[i];
      assert arrivals[..i + 1] == arrivals[..i] + [result];
      if selected.Some? {
        StillFastest(arrivals[..i], selected.value, result);
      } else {
        LessIrreflexive(result.region);
      }
      if Usable(result) && (selected.None? || Faster(result, selected.value)) {
        selected := Some(result);
      }
    }
    assert arrivals[..|arrivals|] == arrivals;
    if cancelled {
      return Cancelled;
    }
    if selected.Some? {
      return Chosen(selected.value.region);
    }
    r := Chosen(if nearest != "" then nearest else REGIONS[draw]);
    assert draw < |REGIONS| ==> Supported(REGIONS[draw]) by {
      DrawnIsSupported(draw);
    }
  }

  lemma DrawnIsSupported(draw: nat)
    requires draw < |REGIONS|
    ensures Supported(REGIONS[draw])
  {
  }

  // ---- region: the two critical sections. ----

  /** The mutex-guarded fields. Channels are numbered in the order they are made. */
  datatype Cache = Cache(selected: Option<string>, expiresAt: int, selecting: Option<nat>)

  datatype Entry = Serve(region: string) | Wait(channel: nat) | Lead

  function Enter(c: Cache, now: int): Entry {
    if c.selected.Some? && now < c.expiresAt then Serve(c.selected.value)
    else if c.selecting.Some? then Wait(c.selecting.value)
    else Lead
  }

  function Settled(c: Cache, choice: Option<string>, now: int): Cache {
    if choice.Some? then Cache(choice, now + TTL, None) else c.(selecting := None)
  }

  class CloudWorkerPlacement {
    var selected: string
    var expiresAt: int
    var selecting: Option<nat>

    function View(): Cache
      reads this
    {
      Cache(if selected == "" then None else Some(selected), expiresAt, selecting)
    }

    constructor ()
      ensures View() == Cache(None, 0, None)
    {
      selected, expiresAt, selecting := "", 0, None;
    }

    /** The first critical section; `channel` is the identity of a channel made if this caller leads. */
    method EnterSection(now: int, channel: nat) returns (e: Entry)
      modifies this
      ensures e == Enter(old(View()), now)
      ensures View() == if e.Lead? then old(View()).(selecting := Some(channel)) else old(View())
    {
      if selected != "" && now < expiresAt {
        return Serve(selected);
      }
      if selecting.Some? {
        return Wait(selecting.value);
      }
      selecting := Some(channel);
      e := Lead;
    }

    /** The second critical section; yields the channel it closes, `None` for a nil channel. */
    method SettleSection(choice: Option<string>, now: int) returns (closed: Option<nat>)
      requires choice != Some("")
      modifies this
      ensures View() == Settled(old(View()), choice, now)
      ensures closed == old(View()).selecting
    {
      if choice.Some? {
        selected := choice.value;
        expiresAt := now + TTL;
      }
      closed := selecting;
      selecting := None;
    }
  }

  // ---- region: any number of callers in any interleaving. ----

  datatype Caller = Entering | Waiting(channel: nat) | Choosing | Returned(region: Option<string>)

  datatype Pick = Pick(region: string, at: int)

  datatype State = State(
    cache: Cache,
    made: nat,               // channels made so far: 0, 1, .., made - 1
    closes: multiset<nat>,   // how often each was closed
    panicked: bool,          // a nil or already closed channel was closed
    callers: seq<Caller>,
    picks: seq<Pick>)        // every region written into the cache, with its time

  datatype Event =
    | CancelStep(t: nat)                                         // ctx.Err or ctx.Done
    | EnterStep(t: nat, now: int)
    | WakeStep(t: nat)
    | SettleStep(t: nat, choice: Option<string>, now: int)       // None: choose failed or the caller was cancelled

  predicate Enabled(s: State, e: Event) {
    && e.t < |s.callers|
    && match e
       case CancelStep(t) => s.callers[t].Entering? || s.callers[t].Waiting?
       case EnterStep(t, _) => s.callers[t].Entering?
       case WakeStep(t) => s.callers[t].Waiting? && s.closes[s.callers[t].channel] > 0
       case SettleStep(t, choice, _) => s.callers[t].Choosing? && (choice.Some? ==> Supported(choice.value))
  }

  function EnterNext(s: State, t: nat, now: int): State
    requires t < |s.callers|
  {
    match Enter(s.cache, now)
    case Serve(region) => s.(callers := s.callers[t := Returned(Some(region))])
    case Wait(channel) => s.(callers := s.callers[t := Waiting(channel)])
    case Lead => s.(callers := s.callers[t := Choosing], cache := s.cache.(selecting := Some(s.made)),
                    made := s.made + 1)
  }

  /** The source closes whatever channel the shared field holds, not a channel of the caller's own. */
  function SettleNext(s: State, t: nat, choice: Option<string>, now: int): State
    requires t < |s.callers|
  {
    s.(cache := Settled(s.cache, choice, now),
       callers := s.callers[t := Returned(choice)],
       closes := if s.cache.selecting.Some? then s.closes + multiset{s.cache.selecting.value} else s.closes,
       panicked := s.panicked || s.cache.selecting.None? || s.cache.selecting.value in s.closes,
       picks := if choice.Some? then s.picks + [Pick(choice.value, now)] else s.picks)
  }

  function Step(s: State, e: Event): State
    requires Enabled(s, e)
  {
    match e
    case CancelStep(t) => s.(callers := s.callers[t := Returned(None)])
    case EnterStep(t, now) => EnterNext(s, t, now)
    case WakeStep(t) => s.(callers := s.callers[t := Entering])
    case SettleStep(t, choice, now) => SettleNext(s, t, choice, now)
  }

  predicate Initial(s: State) {
    && s.cache == Cache(None, 0, None) && s.made == 0 && s.closes == multiset{} && !s.panicked && s.picks == []
    && forall t | 0 <= t < |s.callers| :: s.callers[t] == Entering
  }

  ghost predicate Runs(s: State, es: seq<Event>)
    decreases |es|
  {
    es == [] || (Enabled(s, es[0]) && Runs(Step(s, es[0]), es[1..]))
  }

  ghost function After(s: State, es: seq<Event>): State
    requires Runs(s, es)
    decreases |es|
  {
    if es == [] then s else After(Step(s, es[0]), es[1..])
  }

  /** `selecting` is set exactly while one caller chooses, and then only one does. */
  ghost predicate OneChooser(s: State) {
    && (forall t | 0 <= t < |s.callers| :: s.callers[t].Choosing? ==> s.cache.selecting.Some?)
    && (forall t, u | 0 <= t < |s.callers| && 0 <= u < |s.callers| ::
          s.callers[t].Choosing? && s.callers[u].Choosing? ==> t == u)
    && (s.cache.selecting.Some? ==> exists t | 0 <= t < |s.callers| :: s.callers[t].Choosing?)
  }

  /** Every channel is closed exactly once, except the current chooser's, which is still open. */
  ghost predicate ClosedOnce(s: State) {
    && (s.cache.selecting.Some? ==> s.cache.selecting.value < s.made)
    && (forall c: nat {:trigger s.closes[c]} ::
          s.closes[c] == if c < s.made && s.cache.selecting != Some(c) then 1 else 0)
  }

  ghost predicate KnownChannels(s: State) {
    forall t | 0 <= t < |s.callers| :: s.callers[t].Waiting? ==> s.callers[t].channel < s.made
  }

  /** What the cache holds is the latest pick, valid until five minutes after it. */
  ghost predicate CachedPick(s: State) {
    && (s.cache.selected.Some? <==> s.picks != [])
    && (s.picks != [] ==> s.picks[|s.picks| - 1] == Pick(s.cache.selected.value, s.cache.expiresAt - TTL))
    && (forall i | 0 <= i < |s.picks| :: Supported(s.picks[i].region))
    && (forall t | 0 <= t < |s.callers| ::
          s.callers[t].Returned? && s.callers[t].region.Some? ==> Supported(s.callers[t].region.value))
  }

  ghost predicate Inv(s: State) {
    !s.panicked && OneChooser(s) && ClosedOnce(s) && KnownChannels(s) && CachedPick(s)
  }

  lemma StepKeepsOneChooser(s: State, e: Event)
    requires Enabled(s, e) && OneChooser(s)
    ensures OneChooser(Step(s, e))
  {
    hide Supported;
    var n := Step(s, e);
    if n.cache.selecting.Some? {
      if s.cache.selecting.None? {
        assert n.callers[e.t].Choosing?;
      } else {
        var t :| 0 <= t < |s.callers| && s.callers[t].Choosing?;
        assert n.callers[t].Choosing?;
      }
    }
  }

  lemma StepKeepsClosedOnce(s: State, e: Event)
    requires Enabled(s, e) && OneChooser(s) && ClosedOnce(s) && KnownChannels(s) && !s.panicked
    ensures ClosedOnce(Step(s, e)) && KnownChannels(Step(s, e)) && !Step(s, e).panicked
  {
    hide Supported;
  }

  lemma StepKeepsCachedPick(s: State, e: Event)
    requires Enabled(s, e) && CachedPick(s)
    ensures CachedPick(Step(s, e))
  {
    hide Supported;
  }

  /** In every interleaving of any number of callers: one chooser at a time, every channel closed once and
      never a nil one, every waiter on a closed or current channel, every returned region supported. */
  lemma {:induction false} EveryRunIsSafe(s: State, es: seq<Event>)
    requires Inv(s) && Runs(s, es)
    ensures Inv(After(s, es))
    decreases |es|
  {
    hide OneChooser, ClosedOnce, KnownChannels, CachedPick, Enabled, Step;
    if es != [] {
      StepKeepsOneChooser(s, es[0]);
      StepKeepsClosedOnce(s, es[0]);
      StepKeepsCachedPick(s, es[0]);
      EveryRunIsSafe(Step(s, es[0]), es[1..]);
    }
  }

  lemma StartIsSafe(s: State)
    requires Initial(s)
    ensures Inv(s)
  {
  }

  /** A region served from the cache was picked at most five minutes before the reading that served it. */
  lemma ServedBeforeExpiry(s: State, es: seq<Event>, t: nat, now: int)
    requires Initial(s) && Runs(s, es)
    requires Enabled(After(s, es), EnterStep(t, now))
    ensures var n := Step(After(s, es), EnterStep(t, now)).callers[t];
            n.Returned? && n.region.Some? ==>
              exists i | 0 <= i < |After(s, es).picks| ::
                After(s, es).picks[i].region == n.region.value && now < After(s, es).picks[i].at + TTL
  {
    StartIsSafe(s);
    EveryRunIsSafe(s, es);
    var a := After(s, es);
    if Enter(a.cache, now).Serve? {
      assert a.picks[|a.picks| - 1].region == a.cache.selected.value;
    }
  }

  /** The latest pick was made less than five minutes before `now`. */
  predicate Fresh(picks: seq<Pick>, now: int) {
    picks != [] && now < picks[|picks| - 1].at + TTL
  }

  ghost predicate SomeoneChooses(s: State) {
    exists u | 0 <= u < |s.callers| :: s.callers[u].Choosing?
  }

  /** Over every run, a caller that enters returns the latest pick's region exactly while that pick is fresh. Otherwise
      it waits, on a channel that is still open, exactly when another caller chooses, and chooses itself exactly when
      none does. */
  lemma EnterExactly(s: State, es: seq<Event>, t: nat, now: int)
    requires Initial(s) && Runs(s, es) && Enabled(After(s, es), EnterStep(t, now))
    ensures var a := After(s, es);
            var c := Step(a, EnterStep(t, now)).callers[t];
            && (c.Returned? <==> Fresh(a.picks, now))
            && (c.Returned? ==> c.region == Some(a.picks[|a.picks| - 1].region))
            && (c.Waiting? <==> !Fresh(a.picks, now) && SomeoneChooses(a))
            && (c.Waiting? ==> a.closes[c.channel] == 0)
            && (c.Choosing? <==> !Fresh(a.picks, now) && !SomeoneChooses(a))
  {
    StartIsSafe(s);
    EveryRunIsSafe(s, es);
    hide Runs, After, Supported;
    var a := After(s, es);
    assert a.cache.selecting.Some? <==> SomeoneChooses(a);
  }

  /** Over every run, a caller that settles returns its choice; a choice becomes the latest pick and a failure leaves
      the picks as they were; nobody chooses any more, and every waiter's channel is closed. */
  lemma SettleExactly(s: State, es: seq<Event>, t: nat, choice: Option<string>, now: int)
    requires Initial(s) && Runs(s, es) && Enabled(After(s, es), SettleStep(t, choice, now))
    ensures var a := After(s, es);
            var n := Step(a, SettleStep(t, choice, now));
            && n.callers[t] == Returned(choice) && !SomeoneChooses(n)
            && n.picks == a.picks + (if choice.Some? then [Pick(choice.value, now)] else [])
            && forall u | 0 <= u < |n.callers| && n.callers[u].Waiting? :: Enabled(n, WakeStep(u))
  {
    StartIsSafe(s);
    EveryRunIsSafe(s, es);
    hide Runs, After, Supported;
  }

  // ---- No caller can be stuck. ----

  function Rank(c: Caller): nat {
    match c
    case Waiting(_) => 3
    case Entering => 2
    case Choosing => 1
    case Returned(_) => 0
  }

  function TotalRank(cs: seq<Caller>): nat {
    if cs == [] then 0 else Rank(cs[0]) + TotalRank(cs[1..])
  }

  lemma {:induction false} RankUpdate(cs: seq<Caller>, i: nat, c: Caller)
    requires i < |cs|
    ensures TotalRank(cs[i := c]) == TotalRank(cs) - Rank(cs[i]) + Rank(c)
    decreases |cs|
  {
    if i == 0 {
      assert cs[i := c][1..] == cs[1..];
    } else {
      assert cs[i := c][1..] == cs[1..][i - 1 := c];
      RankUpdate(cs[1..], i - 1, c);
    }
  }

  /** `n` may differ from `s` only in callers that were still inside; those that left got a region. */
  ghost predicate LeaveServed(s: State, n: State) {
    |n.callers| == |s.callers| &&
    forall t | 0 <= t < |s.callers| ::
      if s.callers[t].Returned? then n.callers[t] == s.callers[t]
      else n.callers[t].Returned? ==> n.callers[t].region.Some?
  }

  /** In a safe state with work left, some step brings the callers strictly closer to returning. */
  lemma SomeStepHelps(s: State) returns (e: Event)
    requires Inv(s) && exists t | 0 <= t < |s.callers| :: !s.callers[t].Returned?
    ensures Enabled(s, e) && TotalRank(Step(s, e).callers) < TotalRank(s.callers) && LeaveServed(s, Step(s, e))
  {
    if s.cache.selecting.Some? {
      var t :| 0 <= t < |s.callers| && s.callers[t].Choosing?;
      e := SettleStep(t, Some(REGIONS[0]), 0);
      RankUpdate(s.callers, t, Returned(Some(REGIONS[0])));
    } else {
      var t :| 0 <= t < |s.callers| && !s.callers[t].Returned?;
      if s.callers[t].Waiting? {
        e := WakeStep(t);
        RankUpdate(s.callers, t, Entering);
      } else {
        e := EnterStep(t, 0);
        RankUpdate(s.callers, t, Step(s, e).callers[t]);
        assert Step(s, e).callers == s.callers[t := Step(s, e).callers[t]];
      }
    }
  }

  /** From every state any run can reach there is a schedule in which every caller still inside returns,
      and returns a region. */
  lemma {:induction false} EveryoneCanReturn(s: State) returns (es: seq<Event>)
    requires Inv(s)
    ensures Runs(s, es) && LeaveServed(s, After(s, es))
    ensures forall t | 0 <= t < |s.callers| :: After(s, es).callers[t].Returned?
    decreases TotalRank(s.callers)
  {
    hide OneChooser, ClosedOnce, KnownChannels, CachedPick, Enabled, Step;
    if exists t | 0 <= t < |s.callers| :: !s.callers[t].Returned? {
      var e := SomeStepHelps(s);
      StepKeepsOneChooser(s, e);
      StepKeepsClosedOnce(s, e);
      StepKeepsCachedPick(s, e);
      var rest := EveryoneCanReturn(Step(s, e));
      es := [e] + rest;
      assert es[1..] == rest;
    } else {
      es := [];
    }
  }

  /** No run, however interleaved or cancelled so far, has stranded a caller. */
  lemma NoCallerIsStranded(s: State, es: seq<Event>) returns (more: seq<Event>)
    requires Initial(s) && Runs(s, es)
    ensures Runs(After(s, es), more)
    ensures forall t | 0 <= t < |After(s, es).callers| ::
              t < |After(After(s, es), more).callers| && After(After(s, es), more).callers[t].Returned?
  {
    StartIsSafe(s);
    EveryRunIsSafe(s, es);
    more := EveryoneCanReturn(After(s, es));
  }
}
