/** The rolling summary of one shared group (cmd/dirextalk-agent/core_group_summary.go, over
    internal/store/postgres/core_group_summary.go): sweeps that read new messages past a stored watermark. */
module GroupSummary {
  import opened Common
  import opened Sorting

  const MIN_MESSAGES := 5
  const MAX_MESSAGES := 200
  const MAX_PAGES := 4

  datatype Message = Message(id: string, ts: int)

  datatype Summary = Summary(covered: int, count: nat, text: string)

  /** One answer of the transcript reader. */
  datatype Reply = History(messages: seq<Message>, hasMore: bool, next: string) | ReadError

  function ByTime(): (Message, Message) -> bool {
    (a: Message, b: Message) => a.ts < b.ts || (a.ts == b.ts && Less(a.id, b.id))
  }

  lemma TimeIsAnOrder()
    ensures WeakOrder(ByTime())
  {
    hide Less;
    var before := ByTime();
    forall a, b, c | !before(b, a) && !before(c, b)
      ensures !before(c, a)
    {
      LessTotal(b.id, a.id);
      if before(c, a) && a.ts == b.ts == c.ts && Less(a.id, b.id) { LessTrans(c.id, a.id, b.id); }
    }
    forall a, b | before(a, b)
      ensures !before(b, a)
    {
      if a.ts == b.ts { LessAsymmetric(a.id, b.id); }
    }
  }

  // ---- One sweep's window. ----

  /** The pages read from the `n`-th on, with the cursor of the previous one. */
  function ReadFrom(replies: nat -> Reply, n: nat, cursor: string): Option<seq<Message>>
    decreases MAX_PAGES - n
  {
    if n >= MAX_PAGES then Some([])
    else if replies(n).ReadError? then None
    else
      var h := replies(n);
      if !h.hasMore || Trim(h.next) == "" || cursor == h.next then Some(h.messages)
      else match ReadFrom(replies, n + 1, h.next)
        case None => None
        case Some(rest) => Some(h.messages + rest)
  }

  /** Oldest first, and only the newest of them if there are too many. */
  function Window(collected: seq<Message>): seq<Message> {
    var s := Sorted(collected, ByTime());
    if |s| > MAX_MESSAGES then s[|s| - MAX_MESSAGES..] else s
  }

  method ReadPages(replies: nat -> Reply) returns (r: Option<seq<Message>>)
    ensures r == ReadFrom(replies, 0, "")
  {
    hide Trim;
    var collected: seq<Message> := [];
    var cursor := "";
    ghost var whole := ReadFrom(replies, 0, "");
    var page := 0;
    while page < MAX_PAGES
      invariant 0 <= page <= MAX_PAGES
      invariant whole.Some? <==> ReadFrom(replies, page, cursor).Some?
      invariant whole.Some? ==> whole.value == collected + ReadFrom(replies, page, cursor).value
    {
      var history := replies(page);
      if history.ReadError? {
        return None;
      }
      collected := collected + history.messages;
      if !history.hasMore || Trim(history.next) == "" || cursor == history.next {
        return Some(collected);
      }
      cursor := history.next;
      page := page + 1;
    }
    assert collected + [] == collected;
    r := Some(collected);
  }

  /** `collectGroupTranscript`. */
  method CollectTranscript(replies: nat -> Reply) returns (r: Option<seq<Message>>)
    ensures r == match ReadFrom(replies, 0, "") case None => None case Some(all) => Some(Window(all))
  {
    hide Sorted, ReadFrom;
    var collected := ReadPages(replies);
    if collected.None? {
      return None;
    }
    if |collected.value| == 0 {
      SortedKeeps<Message>([], ByTime());
      return Some([]);
    }
    var sorted := Sorted(collected.value, ByTime());
    if |sorted| > MAX_MESSAGES {
      sorted := sorted[|sorted| - MAX_MESSAGES..];
    }
    r := Some(sorted);
  }

  // ---- Sweeps. ----

  datatype Save = Kept | AnswerLost | Refused

  /** What one sweep meets: whether the stored summary could be read, the transcript, the model's digest, the store. */
  datatype Sweep = Sweep(loaded: bool, replies: nat -> Reply, digest: Option<string>, save: Save)

  function Floor(stored: Option<Summary>): int {
    if stored.Some? && stored.value.covered > 0 then stored.value.covered + 1 else 0
  }

  /** The reader returns nothing older than the floor it is given. */
  ghost predicate Honours(replies: nat -> Reply, floor: int) {
    forall n, m | replies(n).History? && m in replies(n).messages :: floor > 0 ==> m.ts >= floor
  }

  /** The window a sweep saves, if it saves. */
  function Saves(w: Sweep): Option<seq<Message>> {
    match if w.loaded then ReadFrom(w.replies, 0, "") else None
    case None => None
    case Some(all) =>
      var window := Window(all);
      if |window| < MIN_MESSAGES || w.digest.None? || Trim(w.digest.value) == "" || window[|window| - 1].ts < 0 ||
         w.save.Refused? then None
      else Some(window)
  }

  /** The stored summary and the windows saved so far. */
  datatype State = State(stored: Option<Summary>, log: seq<seq<Message>>)

  function After(s: State, w: Sweep): State {
    match Saves(w)
    case None => s
    case Some(window) =>
      var before := if s.stored.Some? then s.stored.value.count else 0;
      State(Some(Summary(window[|window| - 1].ts, |window| + before, w.digest.value)), s.log + [window])
  }

  class GroupSummaries {
    var stored: Option<Summary>
    ghost var log: seq<seq<Message>>

    constructor ()
      ensures Now() == State(None, [])
    {
      stored, log := None, [];
    }

    ghost function Now(): State
      reads this
    {
      State(stored, log)
    }

    /** `refreshGroupSummary`: a quiet group or a blank digest is no error. */
    method Refresh(w: Sweep) returns (ok: bool)
      modifies this
      ensures Now() == After(old(Now()), w)
      ensures ok <==>
              && w.loaded && ReadFrom(w.replies, 0, "").Some?
              && (|Window(ReadFrom(w.replies, 0, "").value)| < MIN_MESSAGES ||
                  (w.digest.Some? && (Trim(w.digest.value) == "" || (Saves(w).Some? && w.save.Kept?))))
    {
      hide Window, Trim, ReadFrom;
      if !w.loaded {
        return false;
      }
      var collected := CollectTranscript(w.replies);
      if collected.None? {
        return false;
      }
      var messages := collected.value;
      if |messages| < MIN_MESSAGES {
        return true;
      }
      if w.digest.None? {
        return false;
      }
      if Trim(w.digest.value) == "" {
        return true;
      }
      var covered := messages[|messages| - 1].ts;
      if covered < 0 || w.save.Refused? {
        return false;
      }
      var count: nat := |messages|;
      if stored.Some? {
        count := count + stored.value.count;
      }
      stored := Some(Summary(covered, count, w.digest.value));
      log := log + [messages];
      ok := w.save.Kept?;
    }
  }

  // ---- What the stored summary stands for. ----

  function Total(log: seq<seq<Message>>): nat {
    if log == [] then 0 else Total(log[..|log| - 1]) + |log[|log| - 1]|
  }

  function Covered(window: seq<Message>): int {
    if window == [] then 0 else window[|window| - 1].ts
  }

  ghost predicate Proper(window: seq<Message>) {
    MIN_MESSAGES <= |window| <= MAX_MESSAGES && Covered(window) >= 0 &&
    forall m | m in window :: m.ts <= Covered(window)
  }

  /** Window `b` was read past the watermark `a` left. */
  ghost predicate Past(a: seq<Message>, b: seq<Message>) {
    Covered(a) > 0 ==> forall m | m in b :: m.ts > Covered(a)
  }

  ghost predicate Holds(s: State) {
    && (forall i | 0 <= i < |s.log| :: Proper(s.log[i]))
    && (forall i | 0 < i < |s.log| :: Past(s.log[i - 1], s.log[i]))
    && (s.stored.None? <==> s.log == [])
    && (s.stored.Some? ==> s.stored.value.count == Total(s.log) &&
                           s.stored.value.covered == Covered(s.log[|s.log| - 1]))
  }

  lemma {:induction false} ReadHonours(replies: nat -> Reply, floor: int, n: nat, cursor: string)
    requires Honours(replies, floor) && ReadFrom(replies, n, cursor).Some?
    ensures floor > 0 ==> forall m | m in ReadFrom(replies, n, cursor).value :: m.ts >= floor
    decreases MAX_PAGES - n
  {
    hide Trim;
    if n < MAX_PAGES {
      var h := replies(n);
      if !(!h.hasMore || Trim(h.next) == "" || cursor == h.next) {
        ReadHonours(replies, floor, n + 1, h.next);
      }
    }
  }

  /** In an ordered list the last message is the newest. */
  lemma LastIsNewest(s: seq<Message>, k: nat)
    requires Ordered(s, ByTime()) && k <= |s|
    ensures forall i | k <= i < |s| :: s[i].ts <= s[|s| - 1].ts
  {
    hide Less;
    forall i | k <= i < |s|
      ensures s[i].ts <= s[|s| - 1].ts
    {
      assert i < |s| - 1 ==> !ByTime()(s[|s| - 1], s[i]);
    }
  }

  lemma WindowIsProper(collected: seq<Message>)
    ensures var w := Window(collected);
            |w| <= MAX_MESSAGES && (forall m | m in w :: m in collected && m.ts <= Covered(w))
  {
    hide Sorted, WeakOrder, ByTime, Ordered;
    var s := Sorted(collected, ByTime());
    SortedMembers(collected, ByTime());
    TimeIsAnOrder();
    SortedOrders(collected, ByTime());
    var w := Window(collected);
    LastIsNewest(s, |s| - |w|);
  }

  lemma AppendHolds(s: State, window: seq<Message>, n: State)
    requires Holds(s) && Proper(window) && (s.log != [] ==> Past(s.log[|s.log| - 1], window))
    requires n.log == s.log + [window] && n.stored.Some? && n.stored.value.covered == Covered(window)
    requires n.stored.value.count == |window| + if s.stored.Some? then s.stored.value.count else 0
    ensures Holds(n)
  {
    hide Proper, Past, Covered;
    assert n.log[..|n.log| - 1] == s.log;
    assert Total(n.log) == Total(s.log) + |window|;
    assert forall i | 0 <= i < |n.log| :: n.log[i] == if i < |s.log| then s.log[i] else window;
  }

  lemma SweepHolds(s: State, w: Sweep)
    requires Holds(s) && Honours(w.replies, Floor(s.stored))
    ensures Holds(After(s, w))
  {
    hide Window, ReadFrom, Trim, Honours;
    if Saves(w).Some? {
      var all := ReadFrom(w.replies, 0, "").value;
      var window := Window(all);
      WindowIsProper(all);
      ReadHonours(w.replies, Floor(s.stored), 0, "");
      assert Proper(window);
      if s.log != [] {
        assert Past(s.log[|s.log| - 1], window);
      }
      hide Holds, Proper, Past;
      AppendHolds(s, window, After(s, w));
    }
  }

  function AfterAll(sweeps: seq<Sweep>): State {
    if sweeps == [] then State(None, []) else After(AfterAll(sweeps[..|sweeps| - 1]), sweeps[|sweeps| - 1])
  }

  ghost predicate AllHonour(sweeps: seq<Sweep>) {
    forall i | 0 <= i < |sweeps| :: Honours(sweeps[i].replies, Floor(AfterAll(sweeps[..i]).stored))
  }

  /** Over any sequence of sweeps the stored count is the sum of the saved window sizes, the watermark is the newest
      time in the last of them, and each window lies past a positive watermark before it. */
  lemma {:induction false} SweepsHold(sweeps: seq<Sweep>)
    requires AllHonour(sweeps)
    ensures Holds(AfterAll(sweeps))
    decreases |sweeps|
  {
    hide Holds, Honours, After;
    var n := |sweeps| - 1;
    if sweeps == [] {
      EmptyHolds();
    } else {
      assert forall i | 0 <= i < n :: sweeps[..n][i] == sweeps[i] && sweeps[..n][..i] == sweeps[..i];
      SweepsHold(sweeps[..n]);
      SweepHolds(AfterAll(sweeps[..n]), sweeps[n]);
    }
  }

  lemma EmptyHolds()
    ensures Holds(State(None, []))
  {
  }

  /** Windows of different sweeps share no message, once the watermark is positive. */
  lemma {:induction false} WindowsAreDisjoint(s: State, i: nat, j: nat)
    requires Holds(s) && i < j < |s.log| && Covered(s.log[i]) > 0
    ensures Covered(s.log[j]) > Covered(s.log[i])
    ensures forall m | m in s.log[j] :: m.ts > Covered(s.log[i]) && m !in s.log[i]
    decreases j
  {
    var a, b, c := s.log[i], s.log[j - 1], s.log[j];
    assert Proper(a) && Proper(b) && Proper(c) && Past(b, c);
    if i + 1 < j {
      WindowsAreDisjoint(s, i, j - 1);
    }
    assert c[|c| - 1] in c;
  }

  lemma SavedIsLogged(s: State, w: Sweep)
    requires Saves(w).Some?
    ensures After(s, w).log == s.log + [Saves(w).value]
    ensures After(s, w).stored.Some? && After(s, w).stored.value.covered == Covered(Saves(w).value)
  {
    hide Trim, Window, ReadFrom;
  }

  /** At watermark zero the floor does not move, so the same sweep saves the same window again. */
  lemma ZeroWatermarkRepeats(s: State, w: Sweep)
    requires Saves(w).Some? && Covered(Saves(w).value) == 0
    ensures Honours(w.replies, Floor(After(s, w).stored))
    ensures After(After(s, w), w).log == s.log + [Saves(w).value, Saves(w).value]
  {
    hide Saves, After;
    SavedIsLogged(s, w);
    SavedIsLogged(After(s, w), w);
  }

  /** A sweep that finds five copies of one message. */
  function Repeating(m: Message): Sweep {
    Sweep(true, _ => History([m, m, m, m, m], false, ""), Some("x"), Kept)
  }

  lemma RepeatingSaves(m: Message)
    requires m.ts == 0
    ensures Saves(Repeating(m)).Some? && Covered(Saves(Repeating(m)).value) == 0 && m in Saves(Repeating(m)).value
  {
    hide Sorted, Trim, Less;
    var all := [m, m, m, m, m];
    var w := Repeating(m);
    SortedKeeps(all, ByTime());
    WindowIsProper(all);
    assert ReadFrom(w.replies, 0, "") == Some(all);
    var window := Window(all);
    assert |window| == 5 && window[4] in window && window[4] == m;
    assert Trim("x") == "x" by { NoSpace(); }
  }

  lemma NoSpace()
    ensures Trim("x") == "x"
  {
  }

  // ---- Exactly when the next sweep moves on. ----

  /** What a sweep may save in state `s` with a reader that honours the floor it is given. */
  ghost predicate MaySave(s: State, w: Sweep) {
    Honours(w.replies, Floor(s.stored)) && Saves(w).Some?
  }

  /** No window saved so far has a message newer than the stored watermark. */
  lemma {:induction false} NothingNewer(s: State, i: nat, j: nat)
    requires Holds(s) && i <= j < |s.log|
    ensures Covered(s.log[i]) <= Covered(s.log[j])
    ensures forall m | m in s.log[i] :: m.ts <= Covered(s.log[j])
    decreases j
  {
    assert Proper(s.log[i]) && Proper(s.log[j]);
    if i < j {
      NothingNewer(s, i, j - 1);
      assert Past(s.log[j - 1], s.log[j]) && Proper(s.log[j - 1]);
      var c := s.log[j];
      assert c[|c| - 1] in c;
    }
  }

  lemma SavedIsPast(s: State, w: Sweep)
    requires Holds(s) && s.stored.Some? && s.stored.value.covered > 0 && MaySave(s, w)
    ensures Covered(Saves(w).value) > s.stored.value.covered
    ensures forall m | m in Saves(w).value :: m.ts > s.stored.value.covered
  {
    hide Saves, Honours, After;
    SweepHolds(s, w);
    SavedIsLogged(s, w);
    var n := |s.log|;
    var log := After(s, w).log;
    assert log[n - 1] == s.log[n - 1] && log[n] == Saves(w).value;
    assert Past(log[n - 1], log[n]) && Proper(log[n]);
    var c := log[n];
    assert c[|c| - 1] in c;
  }

  /** With a summary stored, every sweep that saves raises the watermark, and every such sweep's window is disjoint from
      all windows saved before, exactly when the stored watermark is positive. */
  lemma NextSweepMovesOnExactly(s: State)
    requires Holds(s) && s.stored.Some?
    ensures (forall w | MaySave(s, w) :: Covered(Saves(w).value) > s.stored.value.covered) <==>
            s.stored.value.covered > 0
    ensures (forall w | MaySave(s, w) :: DisjointFrom(s.log, Saves(w).value)) <==> s.stored.value.covered > 0
  {
    hide Saves, Honours;
    var last := s.log[|s.log| - 1];
    assert Proper(last);
    if s.stored.value.covered > 0 {
      forall w | MaySave(s, w)
        ensures Covered(Saves(w).value) > s.stored.value.covered && DisjointFrom(s.log, Saves(w).value)
      {
        SavedIsPast(s, w);
        forall i | 0 <= i < |s.log|
          ensures forall m | m in Saves(w).value :: m !in s.log[i]
        {
          NothingNewer(s, i, |s.log| - 1);
        }
      }
    } else {
      var m := last[|last| - 1];
      RepeatingSaves(m);
      assert MaySave(s, Repeating(m)) by { AnyFloor(Repeating(m).replies); }
      assert !DisjointFrom(s.log, Saves(Repeating(m)).value);
    }
  }

  ghost predicate DisjointFrom(log: seq<seq<Message>>, window: seq<Message>) {
    forall i | 0 <= i < |log| :: forall m | m in window :: m !in log[i]
  }

  lemma AnyFloor(replies: nat -> Reply)
    ensures Honours(replies, 0)
  {
  }

  // ---- What one sweep reads, keeps and stores. ----

  /** `a` comes behind `b` in time, or at the same time by id. */
  predicate Later(a: Message, b: Message) {
    a.ts > b.ts || (a.ts == b.ts && Less(b.id, a.id))
  }

  /** The window is the newest messages, at most 200 of them: together with what is dropped it is what was collected,
      and nothing dropped is later than anything kept. The watermark is the newest time collected. */
  lemma WindowIsNewest(collected: seq<Message>) returns (dropped: seq<Message>)
    ensures var w := Window(collected);
            && |w| == (if |collected| < 200 then |collected| else 200)
            && multiset(dropped) + multiset(w) == multiset(collected)
            && (forall d, m | d in dropped && m in w :: !Later(d, m))
            && (forall i, j | 0 <= i < j < |w| :: !Later(w[i], w[j]))
            && (forall m | m in collected :: m.ts <= Covered(w))
            && (w != [] ==> exists m | m in collected :: m.ts == Covered(w))
  {
    hide Sorted, WeakOrder, ByTime, Ordered, Later;
    var s := Sorted(collected, ByTime());
    SortedKeeps(collected, ByTime());
    SortedMembers(collected, ByTime());
    TimeIsAnOrder();
    SortedOrders(collected, ByTime());
    var n := |s| - |Window(collected)|;
    dropped := s[..n];
    assert s == dropped + s[n..];
    TailIsNewest(s, n);
  }

  lemma TailIsNewest(s: seq<Message>, n: nat)
    requires Ordered(s, ByTime()) && n <= |s|
    ensures forall d, m | d in s[..n] && m in s[n..] :: !Later(d, m)
    ensures forall i, j | 0 <= i < j < |s[n..]| :: !Later(s[n..][i], s[n..][j])
    ensures n < |s| ==> s[|s| - 1] in s && forall m | m in s :: m.ts <= s[|s| - 1].ts
  {
    hide Later, ByTime, Ordered;
    LaterInOrder(s);
    LastIsNewest(s, 0);
  }

  lemma LaterInOrder(s: seq<Message>)
    requires Ordered(s, ByTime())
    ensures forall i, j | 0 <= i < j < |s| :: !Later(s[i], s[j])
  {
    hide Less;
    forall i, j | 0 <= i < j < |s|
      ensures !Later(s[i], s[j])
    {
      assert !ByTime()(s[j], s[i]);
    }
  }

  /** The cursor page `i` is asked for with. */
  function Cursor(replies: nat -> Reply, i: nat): string {
    if i > 0 && replies(i - 1).History? then replies(i - 1).next else ""
  }

  /** Page `i` arrives and is followed by another. */
  predicate GoesOn(replies: nat -> Reply, i: nat) {
    && replies(i).History? && replies(i).hasMore && Trim(replies(i).next) != ""
    && replies(i).next != Cursor(replies, i)
  }

  /** The messages of pages `i` to `n - 1`. */
  function Joined(replies: nat -> Reply, i: nat, n: nat): seq<Message>
    decreases n - i
  {
    if i >= n then [] else (if replies(i).History? then replies(i).messages else []) + Joined(replies, i + 1, n)
  }

  lemma {:induction false} ReadsOn(replies: nat -> Reply, i: nat) returns (n: nat)
    requires i <= 4
    ensures i <= n <= 4 && (forall j | i <= j < n - 1 :: GoesOn(replies, j))
    ensures var r := ReadFrom(replies, i, Cursor(replies, i));
            if r.Some? then
              && (forall j | i <= j < n :: replies(j).History?)
              && (n < 4 ==> n > i && !GoesOn(replies, n - 1)) && r.value == Joined(replies, i, n)
            else n > i && replies(n - 1).ReadError?
    decreases 4 - i
  {
    hide Trim;
    if i == 4 {
      n := 4;
    } else if !GoesOn(replies, i) {
      n := i + 1;
      assert Joined(replies, i + 1, n) == [];
    } else {
      n := ReadsOn(replies, i + 1);
    }
  }

  /** A sweep reads pages, at most four, up to the first that is not followed by another, and joins their messages in
      order; it fails exactly if one of these pages does not arrive. */
  lemma ReadsExactly(replies: nat -> Reply) returns (n: nat)
    ensures 1 <= n <= 4 && (forall j | 0 <= j < n - 1 :: GoesOn(replies, j)) && (n < 4 ==> !GoesOn(replies, n - 1))
    ensures ReadFrom(replies, 0, "") ==
            if forall j | 0 <= j < n :: replies(j).History? then Some(Joined(replies, 0, n)) else None
  {
    hide Trim, ReadFrom, Joined;
    n := ReadsOn(replies, 0);
    if ReadFrom(replies, 0, "").None? {
      assert !replies(n - 1).History?;
    }
  }

  /** A sweep saves exactly if the stored summary could be read, the transcript arrived with at least five messages, the
      newest not before the epoch, the model gave a digest that is not blank, and the store took it. */
  lemma SavesExactly(w: Sweep)
    ensures Saves(w).Some? <==>
            && w.loaded && ReadFrom(w.replies, 0, "").Some? && |ReadFrom(w.replies, 0, "").value| >= 5
            && (exists m | m in ReadFrom(w.replies, 0, "").value :: m.ts >= 0)
            && w.digest.Some? && Trim(w.digest.value) != "" && !w.save.Refused?
    ensures Saves(w).Some? ==> Saves(w).value == Window(ReadFrom(w.replies, 0, "").value)
  {
    hide Trim, ReadFrom, Window;
    if ReadFrom(w.replies, 0, "").Some? {
      var dropped := WindowIsNewest(ReadFrom(w.replies, 0, "").value);
    }
  }

  /** What a sweep that saves stores: the newest time, the number of messages so far and the digest. */
  lemma StoresExactly(s: State, w: Sweep)
    requires Saves(w).Some?
    ensures After(s, w).stored ==
            Some(Summary(Covered(Saves(w).value),
                         |Saves(w).value| + (if s.stored.Some? then s.stored.value.count else 0), w.digest.value))
  {
    hide Trim, ReadFrom, Window;
  }

  /** The floor asks for exactly the messages that are newer than a positive watermark, and for all without one. */
  lemma FloorExactly(stored: Option<Summary>, ts: int)
    ensures stored.Some? && stored.value.covered > 0 ==> (ts >= Floor(stored) <==> ts > stored.value.covered)
    ensures stored.None? || stored.value.covered <= 0 ==> Floor(stored) == 0
  {
  }
}
