/** Backward paging through a conversation's messages (internal/agentcapability/core_adapters.go): a cursor names
    the oldest message already returned, and new messages may be appended between calls. */
module MessagePages {
  import opened Common

  datatype Role = User | Assistant | OtherRole

  datatype Message = Message(id: string, turn: string, role: Role, content: string, sequence: int, createdAt: int,
                             status: string,
                             tasks: seq<string>, plans: seq<string>, references: seq<string>, attachments: seq<string>)

  datatype Public = Public(id: string, turn: string, role: Role, content: string, sequence: int, createdAt: int,
                           status: string,
                           tasks: seq<string>, plans: seq<string>, references: seq<string>, attachments: seq<string>)

  /** The id of a conversation, or a text that is not one. */
  datatype Conversation = Uuid(id: string) | Malformed

  /** A page cursor: none, an encoded one (base64url of JSON, an injective encoding), or any other text. */
  datatype Cursor = Start | Encoded(version: int, conversation: Conversation, before: int) | Garbage

  predicate Visible(m: Message) {
    (m.role.User? || m.role.Assistant?) && Trim(m.content) != ""
  }

  function Publish(m: Message, index: nat): Public {
    Public(m.id, m.turn, m.role, m.content, if m.sequence <= 0 then index + 1 else m.sequence, m.createdAt,
           if m.status == "" then "done" else m.status, m.tasks, m.plans, m.references,
           if m.role.User? then m.attachments else [])
  }

  /** `projectConversationMessages`. */
  function Projected(values: seq<Message>): (r: seq<Public>)
    ensures |r| <= |values|
  {
    if values == [] then []
    else
      var n := |values| - 1;
      Projected(values[..n]) + if Visible(values[n]) then [Publish(values[n], n)] else []
  }

  method ProjectMessages(values: seq<Message>) returns (result: seq<Public>)
    ensures result == Projected(values)
  {
    hide Visible;
    result := [];
    for i := 0 to |values|
      invariant result == Projected(values[..i])
    {
      assert values[..i + 1][..i] == values[..i];
      if Visible(values[i]) {
        result := result + [Publish(values[i], i)];
      }
    }
    assert values[..|values|] == values;
  }

  /** Appending messages only appends to the projection. */
  lemma {:induction false} ProjectedGrows(values: seq<Message>, more: seq<Message>)
    requires values <= more
    ensures Projected(values) <= Projected(more)
    decreases |more|
  {
    hide Visible;
    if |values| < |more| {
      assert values <= more[..|more| - 1];
      ProjectedGrows(values, more[..|more| - 1]);
    } else {
      assert values == more;
    }
  }

  lemma {:induction false} ProjectedPositive(values: seq<Message>)
    ensures forall i | 0 <= i < |Projected(values)| :: Projected(values)[i].sequence > 0
    decreases |values|
  {
    hide Visible;
    if values != [] {
      ProjectedPositive(values[..|values| - 1]);
    }
  }

  // ---- One page. ----

  function Encode(c: Conversation, before: int): Cursor {
    Encoded(1, c, before)
  }

  /** `decodeConversationMessageCursor`: 0 without a cursor. */
  function Decode(cursor: Cursor, c: Conversation): Option<int> {
    match cursor
    case Start => Some(0)
    case Garbage => None
    case Encoded(version, conversation, before) =>
      if version != 1 || conversation != c || before <= 0 then None else Some(before)
  }

  /** The position of the first message whose sequence number is not below `before`. */
  function Anchor(p: seq<Public>, before: int): (k: nat)
    ensures k <= |p|
    ensures k < |p| ==> p[k].sequence >= before
    ensures forall j | 0 <= j < k :: p[j].sequence < before
  {
    if p == [] || p[0].sequence >= before then 0 else 1 + Anchor(p[1..], before)
  }

  /** The end of the page a cursor asks for, if the message it names is there. */
  function End(p: seq<Public>, before: int): Option<nat> {
    if before <= 0 then Some(|p|)
    else
      var k := Anchor(p, before);
      if k < |p| && p[k].sequence == before then Some(k) else None
  }

  datatype Answer = Rejected | Page(items: seq<Public>, next: Cursor)

  function PageAt(c: Conversation, p: seq<Public>, end: nat, limit: int): (r: Answer)
    requires end <= |p| && 1 <= limit
    ensures r.Page?
  {
    var start := if end < limit then 0 else end - limit;
    Page(p[start..end], if start > 0 then Encode(c, p[start].sequence) else Start)
  }

  function PageOf(c: Conversation, values: seq<Message>, cursor: Cursor, limit: int): Answer {
    var p := Projected(values);
    if c.Malformed? || limit <= 0 || limit > 200 || Decode(cursor, c).None? then Rejected
    else match End(p, Decode(cursor, c).value)
      case None => Rejected
      case Some(end) => PageAt(c, p, end, limit)
  }

  /** `pageConversationMessages`. */
  method PageConversationMessages(c: Conversation, values: seq<Message>, cursor: Cursor, limit: int) returns (r: Answer)
    ensures r == PageOf(c, values, cursor, limit)
  {
    hide Projected;
    if c.Malformed? || limit <= 0 || limit > 200 {
      return Rejected;
    }
    var before := Decode(cursor, c);
    if before.None? {
      return Rejected;
    }
    var projected := ProjectMessages(values);
    var end := |projected|;
    if before.value > 0 {
      end := 0;
      while end < |projected| && projected[end].sequence < before.value
        invariant 0 <= end <= |projected|
        invariant forall j | 0 <= j < end :: projected[j].sequence < before.value
      {
        end := end + 1;
      }
      if end >= |projected| || projected[end].sequence != before.value {
        return Rejected;
      }
    }
    var start := end - limit;
    if start < 0 {
      start := 0;
    }
    var page := projected[start..end];
    var next := Start;
    if start > 0 && |page| > 0 {
      next := Encode(c, page[0].sequence);
    }
    r := Page(page, next);
  }

  /** Position `k` is the first to reach `before`, and has exactly that number. */
  predicate Names(p: seq<Public>, before: int, k: nat) {
    k < |p| && p[k].sequence == before && forall j | 0 <= j < k :: p[j].sequence < before
  }

  /** A cursor is accepted exactly by its own conversation while the message it names is still there. */
  lemma AcceptedExactly(c: Conversation, values: seq<Message>, before: int, limit: int)
    requires c.Uuid? && 1 <= limit <= 200 && before > 0
    ensures PageOf(c, values, Encode(c, before), limit).Page? <==>
            exists k: nat :: Names(Projected(values), before, k)
    ensures forall c' | c' != c :: PageOf(c', values, Encode(c, before), limit).Rejected?
  {
    hide PageOf, Projected;
    AcceptedAtEnd(c, values, before, limit);
    NamedExactly(Projected(values), before);
  }

  lemma AcceptedAtEnd(c: Conversation, values: seq<Message>, before: int, limit: int)
    requires c.Uuid? && 1 <= limit <= 200 && before > 0
    ensures PageOf(c, values, Encode(c, before), limit).Page? <==> End(Projected(values), before).Some?
    ensures forall c' | c' != c :: PageOf(c', values, Encode(c, before), limit).Rejected?
  {
    hide Projected, End, PageAt;
  }

  lemma NamedExactly(p: seq<Public>, before: int)
    requires before > 0
    ensures End(p, before).Some? <==> exists k: nat :: Names(p, before, k)
  {
    assert End(p, before).Some? ==> Names(p, before, Anchor(p, before));
    if exists k: nat :: Names(p, before, k) {
      var k: nat :| Names(p, before, k);
      AnchorIs(p, k);
    }
  }

  // ---- Following the cursors. ----

  datatype Walk = Lost | At(seen: seq<Public>, next: Cursor)

  predicate Finished(w: Walk, calls: nat) {
    w.At? && calls > 0 && w.next.Start?
  }

  /** What a client holds after `n` calls; call `i` sees the messages `feed(i)` and asks for `limit(i)` of them. */
  function Follow(c: Conversation, feed: nat -> seq<Message>, limit: nat -> int, n: nat): Walk {
    if n == 0 then At([], Start)
    else
      var w := Follow(c, feed, limit, n - 1);
      if w.Lost? || Finished(w, n - 1) then w
      else match PageOf(c, feed(n - 1), w.next, limit(n - 1))
        case Rejected => Lost
        case Page(items, next) => At(items + w.seen, next)
  }

  ghost predicate Increasing(p: seq<Public>) {
    forall i, j | 0 <= i < j < |p| :: p[i].sequence < p[j].sequence
  }

  ghost predicate PageSizes(limit: nat -> int) {
    forall i :: 1 <= limit(i) <= 200
  }

  ghost predicate Appending(feed: nat -> seq<Message>) {
    forall i, j | i <= j :: feed(i) <= feed(j)
  }

  /** The client has the messages of `p` from position `e` on, and the cursor points at `e`. */
  ghost predicate Holding(w: Walk, c: Conversation, p: seq<Public>, e: nat) {
    (e == 0 || e < |p|) && w.At? && w.seen == p[e..] && w.next == if e == 0 then Start else Encode(c, p[e].sequence)
  }

  lemma AnchorIs(p: seq<Public>, k: nat)
    requires k < |p| && forall j | 0 <= j < k :: p[j].sequence < p[k].sequence
    ensures Anchor(p, p[k].sequence) == k
  {
    var a := Anchor(p, p[k].sequence);
  }

  /** One more call, from position `e` of what the first call saw, in a conversation that has grown since. */
  lemma NextPage(c: Conversation, values: seq<Message>, p: seq<Public>, e: nat, limit: int)
    requires c.Uuid? && 1 <= limit <= 200 && 0 < e < |p| && p <= Projected(values)
    requires p[e].sequence > 0 && forall j | 0 <= j < e :: p[j].sequence < p[e].sequence
    ensures PageOf(c, values, Encode(c, p[e].sequence), limit) == PageAt(c, p, e, limit)
  {
    hide Projected;
    var q := Projected(values);
    assert q[e] == p[e] && forall j | 0 <= j < e :: q[j] == p[j];
    AnchorIs(q, e);
  }

  /** A page that ends where the client's messages begin. */
  lemma Prepend(c: Conversation, p: seq<Public>, seen: seq<Public>, end: nat, limit: int) returns (e: nat)
    requires end <= |p| && seen == p[end..] && 1 <= limit
    ensures Holding(At(PageAt(c, p, end, limit).items + seen, PageAt(c, p, end, limit).next), c, p, e)
    ensures e == 0 || e < end
  {
    e := if end < limit then 0 else end - limit;
    assert p[e..end] + p[end..] == p[e..];
  }

  lemma {:induction false} FollowHolds(c: Conversation, feed: nat -> seq<Message>, limit: nat -> int, n: nat)
    returns (e: nat)
    requires c.Uuid? && PageSizes(limit) && Appending(feed) && Increasing(Projected(feed(0)))
    requires n > 0
    ensures Holding(Follow(c, feed, limit, n), c, Projected(feed(0)), e)
    ensures e == 0 || e + n <= |Projected(feed(0))|
    decreases n
  {
    hide Projected, PageOf, PageAt;
    var p := Projected(feed(0));
    if n == 1 {
      FirstPage(c, feed(0), limit(0));
      e := Prepend(c, p, [], |p|, limit(0));
      assert Follow(c, feed, limit, 0) == At([], Start);
    } else {
      e := FollowHolds(c, feed, limit, n - 1);
      var w := Follow(c, feed, limit, n - 1);
      if e > 0 {
        hide Follow;
        ProjectedPositive(feed(0));
        ProjectedGrows(feed(0), feed(n - 1));
        NextPage(c, feed(n - 1), p, e, limit(n - 1));
        Unfold(c, feed, limit, n);
        e := Prepend(c, p, w.seen, e, limit(n - 1));
      }
    }
  }

  lemma Unfold(c: Conversation, feed: nat -> seq<Message>, limit: nat -> int, n: nat)
    requires n > 0
    ensures var w := Follow(c, feed, limit, n - 1);
            w.At? && !Finished(w, n - 1) ==>
              var r := PageOf(c, feed(n - 1), w.next, limit(n - 1));
              r.Page? ==> Follow(c, feed, limit, n) == At(r.items + w.seen, r.next)
  {
    hide PageOf;
  }

  lemma FirstPage(c: Conversation, values: seq<Message>, limit: int)
    requires c.Uuid? && 1 <= limit <= 200
    ensures PageOf(c, values, Start, limit) == PageAt(c, Projected(values), |Projected(values)|, limit)
  {
  }

  /** With increasing sequence numbers, following the cursors ends, and gives the messages present at the first
      call exactly once and in order, whatever the page sizes and however many messages are appended meanwhile. */
  lemma EveryMessageOnce(c: Conversation, feed: nat -> seq<Message>, limit: nat -> int)
    requires c.Uuid? && PageSizes(limit) && Appending(feed) && Increasing(Projected(feed(0)))
    ensures Follow(c, feed, limit, |Projected(feed(0))| + 1) == At(Projected(feed(0)), Start)
  {
    hide Projected, Follow;
    var e := FollowHolds(c, feed, limit, |Projected(feed(0))| + 1);
    assert Projected(feed(0))[0..] == Projected(feed(0));
  }

  // ---- Increasing numbers are needed: the smallest page size loses a message otherwise. ----

  /** A message that some earlier one is not below. */
  ghost predicate Hidden(p: seq<Public>, k: nat) {
    k < |p| && exists j | 0 <= j < k :: p[j].sequence >= p[k].sequence
  }

  lemma LastHidden(p: seq<Public>, n: nat) returns (k: nat)
    requires n <= |p| && exists k :: n > k && Hidden(p, k)
    ensures k < n && Hidden(p, k) && forall i | k < i < n :: !Hidden(p, i)
    decreases n
  {
    if Hidden(p, n - 1) {
      k := n - 1;
    } else {
      k := LastHidden(p, n - 1);
    }
  }

  /** How far a walk with page size one has come: nothing skipped yet, or something is missing for good. */
  ghost predicate Missing(w: Walk, c: Conversation, p: seq<Public>) {
    w.Lost? || exists e: nat ::
                 e <= |p| && |w.seen| + e < |p| && w.next == if e == 0 then Start else Encode(c, p[e].sequence)
  }

  lemma OnePage(c: Conversation, values: seq<Message>, e: nat) returns (r: Answer, a: nat)
    requires c.Uuid? && 0 < e < |Projected(values)|
    ensures a == Anchor(Projected(values), Projected(values)[e].sequence) <= e
    ensures r == PageOf(c, values, Encode(c, Projected(values)[e].sequence), 1)
    ensures r.Page? ==> r == PageAt(c, Projected(values), a, 1)
  {
    ProjectedPositive(values);
    hide Projected;
    a := Anchor(Projected(values), Projected(values)[e].sequence);
    r := PageOf(c, values, Encode(c, Projected(values)[e].sequence), 1);
  }

  lemma {:induction false} StaysMissing(c: Conversation, values: seq<Message>, m: nat, n: nat)
    requires c.Uuid? && 0 < m <= n && Missing(Follow(c, Always(values), Always(1), m), c, Projected(values))
    ensures Missing(Follow(c, Always(values), Always(1), n), c, Projected(values))
    decreases n
  {
    hide Projected, PageOf;
    var p := Projected(values);
    if m < n {
      StaysMissing(c, values, m, n - 1);
      var w := Follow(c, Always(values), Always(1), n - 1);
      if w.At? && !Finished(w, n - 1) {
        var e: nat :| e <= |p| && |w.seen| + e < |p| && w.next == if e == 0 then Start else Encode(c, p[e].sequence);
        var r, a := OnePage(c, values, e);
        if r.Page? {
          var e' := if a == 0 then 0 else a - 1;
          assert |(r.items + w.seen)| + e' < |p|;
        }
      }
    }
  }

  /** With page size one and no later message hidden, `n` calls give the last `n` messages. */
  lemma {:induction false} OneByOne(c: Conversation, values: seq<Message>, k: nat, n: nat)
    requires c.Uuid? && 0 < n <= |Projected(values)| - k &&
             forall i | k < i < |Projected(values)| :: !Hidden(Projected(values), i)
    ensures Holding(Follow(c, Always(values), Always(1), n), c, Projected(values), |Projected(values)| - n)
    decreases n
  {
    hide Projected, PageOf;
    var p := Projected(values);
    ProjectedPositive(values);
    if n == 1 {
      FirstPage(c, values, 1);
      assert Follow(c, Always(values), Always(1), 0) == At([], Start);
    } else {
      OneByOne(c, values, k, n - 1);
      var e := |p| - n + 1;
      assert !Hidden(p, e);
      NextPage(c, values, p, e, 1);
    }
  }

  lemma HiddenIsMissed(c: Conversation, values: seq<Message>, k: nat)
    requires c.Uuid? && Hidden(Projected(values), k) &&
             forall i | k < i < |Projected(values)| :: !Hidden(Projected(values), i)
    ensures Missing(Follow(c, Always(values), Always(1), |Projected(values)| - k + 1), c, Projected(values))
  {
    hide Projected, PageOf;
    var p := Projected(values);
    var n := |p| - k;
    OneByOne(c, values, k, n);
    var w := Follow(c, Always(values), Always(1), n);
    var r, a := OnePage(c, values, k);
    assert a < k;
    if r.Page? {
      var e := if a == 0 then 0 else a - 1;
      assert Follow(c, Always(values), Always(1), n + 1) == At(r.items + w.seen, r.next);
      assert |r.items + w.seen| + e < |p|;
    }
  }

  /** Every choice of page sizes gives back the whole conversation exactly when the projected sequence numbers
      strictly increase. */
  lemma CompleteExactlyWhenIncreasing(c: Conversation, values: seq<Message>)
    requires c.Uuid?
    ensures (forall limit | PageSizes(limit) ::
               Follow(c, Always(values), limit, |Projected(values)| + 1) == At(Projected(values), Start))
            <==> Increasing(Projected(values))
  {
    hide Projected, Follow;
    var p := Projected(values);
    if Increasing(p) {
      forall limit | PageSizes(limit)
        ensures Follow(c, Always(values), limit, |p| + 1) == At(p, Start)
      {
        EveryMessageOnce(c, Always(values), limit);
      }
    } else {
      var i, j :| 0 <= i < j < |p| && p[i].sequence >= p[j].sequence;
      assert Hidden(p, j);
      var k := LastHidden(p, |p|);
      HiddenIsMissed(c, values, k);
      StaysMissing(c, values, |p| - k + 1, |p| + 1);
      assert PageSizes(Always(1));
    }
  }

  function Always<T>(x: T): nat -> T {
    _ => x
  }

  // ---- What is shown, and how much of it a page holds. ----

  /** The message at `i` is shown exactly if it is the user's or the assistant's and has a text that is not blank: at
      the position given by the messages shown before it, with its own number, or its position if it has none, with all
      its fields, and with attachments only if it is the user's. */
  lemma {:induction false} ShownExactly(values: seq<Message>, i: nat)
    requires i < |values|
    ensures var m, k, p := values[i], |Projected(values[..i])|, Projected(values);
            if (m.role == User || m.role == Assistant) && Trim(m.content) != "" then
              && k < |p| && |Projected(values[..i + 1])| == k + 1
              && p[k] == Public(m.id, m.turn, m.role, m.content, if m.sequence > 0 then m.sequence
                                  else i + 1, m.createdAt,
                                if m.status != "" then m.status else "done", m.tasks, m.plans, m.references,
                                if m.role == User then m.attachments else [])
            else |Projected(values[..i + 1])| == k
  {
    hide Trim;
    var part := values[..i + 1];
    assert part[..i] == values[..i] && part[i] == values[i];
    assert Projected(part) == Projected(values[..i]) + if Visible(part[i]) then [Publish(part[i], i)] else [];
    ProjectedGrows(part, values);
  }

  /** A page holds the messages directly before the cursor's, or the last ones without a cursor, as many as were asked
      for or there are; its cursor names its first message, and there is none if that is the first of all. */
  lemma PagesExactly(c: Conversation, values: seq<Message>, cursor: Cursor, limit: int) returns (end: nat)
    requires PageOf(c, values, cursor, limit).Page?
    ensures c.Uuid? && 1 <= limit <= 200
    ensures var p, r := Projected(values), PageOf(c, values, cursor, limit);
            && end <= |p|
            && (cursor.Start? ==> end == |p|)
            && (!cursor.Start? ==> && cursor.Encoded? && cursor == Encoded(1, c, cursor.before)
                                   && cursor.before > 0 && Names(p, cursor.before, end))
            && |r.items| == (if end < limit then end else limit)
            && r.items == p[end - |r.items|..end]
            && r.next == if |r.items| == end then Start else Encoded(1, c, r.items[0].sequence)
  {
    hide Projected;
    var p := Projected(values);
    end := End(p, Decode(cursor, c).value).value;
    assert !cursor.Start? ==> Names(p, cursor.before, end);
  }

  /** A call is rejected exactly for a malformed conversation, a limit out of range, or a cursor that is not an encoded
      one of this conversation whose message is still there. */
  lemma RejectsExactly(c: Conversation, values: seq<Message>, cursor: Cursor, limit: int)
    ensures PageOf(c, values, cursor, limit).Rejected? <==>
            || c.Malformed? || limit < 1 || limit > 200 || cursor.Garbage?
            || (cursor.Encoded? && !(cursor.version == 1 && cursor.conversation == c && cursor.before > 0 &&
                                     exists k: nat :: Names(Projected(values), cursor.before, k)))
  {
    hide Projected, Anchor;
    if cursor.Encoded? && cursor.before > 0 {
      NamedExactly(Projected(values), cursor.before);
      assert cursor.conversation == c && cursor.version == 1 ==> Decode(cursor, c) == Some(cursor.before);
    }
  }
}
