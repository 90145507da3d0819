/** The cached tool catalog of the message server (cmd/dirextalk-agent/message_mcp_conversation_resolver.go). */
module Catalog {
  import opened Common
  import opened Sorting

  const FRESH := 300_000_000_000         // five minutes, in nanoseconds
  const STALE := 3_600_000_000_000       // one hour

  datatype Effect = ReadOnly | UnsafeMutation | OtherEffect(text: string)

  datatype Tool = Tool(name: string, definition: string, effect: Effect, runnable: bool)

  datatype Catalog = Catalog(at: int, tools: seq<Tool>)

  // ---- Validation. ----

  function ByName(): (Tool, Tool) -> bool {
    (a: Tool, b: Tool) => Less(a.name, b.name)
  }

  /** An unknown effect counts as a mutation. */
  function Normal(t: Tool): Tool {
    if t.effect.OtherEffect? then t.(effect := UnsafeMutation) else t
  }

  function NormalAll(tools: seq<Tool>): (r: seq<Tool>)
    ensures |r| == |tools| && forall i | 0 <= i < |r| :: r[i] == Normal(tools[i])
  {
    seq(|tools|, i requires 0 <= i < |tools| => Normal(tools[i]))
  }

  predicate Fine(t: Tool) {
    t.name != "" && Trim(t.name) == t.name && t.runnable
  }

  function Names(tools: seq<Tool>): set<string> {
    set t | t in tools :: t.name
  }

  function Members(tools: seq<Tool>): set<Tool> {
    set t | t in tools
  }

  function Normals(tools: seq<Tool>): set<Tool> {
    set t | t in tools :: Normal(t)
  }

  /** Every tool is usable and no two have the same name. */
  predicate Acceptable(tools: seq<Tool>) {
    (forall t | t in tools :: Fine(t)) && |Names(tools)| == |tools|
  }

  function Validate(tools: seq<Tool>): Option<seq<Tool>> {
    if Acceptable(tools) then Some(NormalAll(Sorted(tools, ByName()))) else None
  }

  lemma NamesAreOrdered()
    ensures WeakOrder(ByName())
  {
    hide Less;
    forall a: Tool, b: Tool, c: Tool | !Less(b.name, a.name) && !Less(c.name, b.name)
      ensures !Less(c.name, a.name)
    {
      LessTotal(b.name, a.name);
      if Less(c.name, a.name) && a.name != b.name { LessTrans(c.name, a.name, b.name); }
    }
    forall a: Tool, b: Tool | Less(a.name, b.name)
      ensures !Less(b.name, a.name)
    {
      LessAsymmetric(a.name, b.name);
    }
  }

  /** Strictly increasing names. */
  ghost predicate Strict(s: seq<Tool>) {
    forall i, j | 0 <= i < j < |s| :: Less(s[i].name, s[j].name)
  }

  lemma {:induction false} NamesBound(s: seq<Tool>)
    ensures |Names(s)| <= |s|
    decreases |s|
  {
    if s != [] {
      NamesBound(s[..|s| - 1]);
      NamesAppend(s, |s| - 1);
    }
  }

  lemma NamesAppend(s: seq<Tool>, i: nat)
    requires i < |s|
    ensures Names(s[..i + 1]) == Names(s[..i]) + {s[i].name} && s[..|s|] == s
  {
    assert s[..i + 1] == s[..i] + [s[i]];
    assert s[..|s|] == s;
  }

  /** A name that comes twice makes the set of names too small. */
  lemma {:induction false} DuplicateShrinks(s: seq<Tool>, i: nat)
    requires i <= |s| && |Names(s[..i])| < i
    ensures |Names(s)| < |s|
    decreases |s| - i
  {
    if i == |s| {
      assert s[..i] == s;
    } else {
      NamesAppend(s, i);
      DuplicateShrinks(s, i + 1);
    }
  }

  lemma AcceptableIsDistinct(s: seq<Tool>, i: nat, j: nat)
    requires |Names(s)| == |s| && i < j < |s|
    ensures s[i].name != s[j].name
  {
    if s[i].name == s[j].name {
      NamesBound(s[..j]);
      NamesAppend(s, j);
      assert s[..j][i].name in Names(s[..j]);
      assert |Names(s[..j + 1])| < j + 1;
      DuplicateShrinks(s, j + 1);
      assert false;
    }
  }

  /** What an accepted list becomes: strictly sorted by name, every effect known, and exactly the listed tools. */
  ghost predicate Validated(r: seq<Tool>) {
    Strict(r) && forall i | 0 <= i < |r| :: Fine(r[i]) && !r[i].effect.OtherEffect?
  }

  lemma SameMembers(a: seq<Tool>, b: seq<Tool>)
    requires multiset(a) == multiset(b)
    ensures (forall t :: t in a <==> t in b) && Names(a) == Names(b) && |a| == |b|
  {
    assert forall t :: t in a <==> t in multiset(a);
    assert forall t :: t in b <==> t in multiset(b);
    assert |multiset(a)| == |a| && |multiset(b)| == |b|;
  }

  lemma ValidateMeans(tools: seq<Tool>)
    requires Validate(tools).Some?
    ensures var r := Validate(tools).value;
            Validated(r) && |r| == |tools| && Members(r) == Normals(tools)
  {
    hide Less, Sorted, Fine;
    var s := Sorted(tools, ByName());
    var r := NormalAll(s);
    SortedKeeps(tools, ByName());
    NamesAreOrdered();
    SortedOrders(tools, ByName());
    SameMembers(s, tools);
    forall i, j | 0 <= i < j < |r|
      ensures Less(r[i].name, r[j].name)
    {
      AcceptableIsDistinct(s, i, j);
      LessTotal(s[i].name, s[j].name);
    }
    forall i | 0 <= i < |r|
      ensures Fine(r[i]) && !r[i].effect.OtherEffect?
    {
      assert s[i] in tools;
      NormalFine(s[i]);
    }
    forall t | t in tools
      ensures Normal(t) in r
    {
      var i :| 0 <= i < |s| && s[i] == t;
      assert r[i] == Normal(t);
    }
  }

  /** The tool as the catalog is to list it: as the provider describes it, with an effect that is read-only if and only
      if the provider said so. */
  predicate ListedAs(t: Tool, r: Tool) {
    && r.name == t.name && r.definition == t.definition && r.runnable == t.runnable
    && r.effect == if t.effect.ReadOnly? then ReadOnly else UnsafeMutation
  }

  /** A list is accepted exactly if every tool has a runner and a name that is not blank and has no outer space, and no
      two have the same name. */
  lemma AcceptsExactly(tools: seq<Tool>)
    ensures Validate(tools).Some? <==>
            && (forall i | 0 <= i < |tools| :: tools[i].runnable && Trim(tools[i].name) == tools[i].name != "")
            && (forall i, j | 0 <= i < j < |tools| :: tools[i].name != tools[j].name)
  {
    hide Sorted, Trim;
    if Acceptable(tools) {
      assert forall i | 0 <= i < |tools| :: Fine(tools[i]);
      forall i, j | 0 <= i < j < |tools|
        ensures tools[i].name != tools[j].name
      {
        AcceptableIsDistinct(tools, i, j);
      }
    } else if forall t | t in tools :: Fine(t) {
      NamesBound(tools);
      assert tools[..|tools|] == tools;
      var i, j := Duplicate(tools, |tools|);
    } else {
      var t :| t in tools && !Fine(t);
      var i :| 0 <= i < |tools| && tools[i] == t;
    }
  }

  /** The catalog lists exactly the tools it was given, sorted by name. */
  lemma ListsExactly(tools: seq<Tool>)
    requires Validate(tools).Some?
    ensures var r := Validate(tools).value;
            && |r| == |tools| && Strict(r)
            && (forall t | t in tools :: exists x | x in r :: ListedAs(t, x))
            && (forall x | x in r :: exists t | t in tools :: ListedAs(t, x))
  {
    hide Validate, Strict, Fine, ListedAs, Normal;
    ValidateMeans(tools);
    var r := Validate(tools).value;
    forall t | t in tools
      ensures exists x | x in r :: ListedAs(t, x)
    {
      NormalIsListed(t);
      assert Normal(t) in Normals(tools);
      assert Normal(t) in Members(r);
    }
    forall x | x in r
      ensures exists t | t in tools :: ListedAs(t, x)
    {
      assert x in Members(r);
      var t :| t in tools && Normal(t) == x;
      NormalIsListed(t);
    }
  }

  lemma NormalIsListed(t: Tool)
    ensures ListedAs(t, Normal(t))
  {
  }

  /** Too few names for the tools means that two share one. */
  lemma {:induction false} Duplicate(s: seq<Tool>, n: nat) returns (i: nat, j: nat)
    requires n <= |s| && |Names(s[..n])| < n
    ensures i < j < n && s[i].name == s[j].name
    decreases n
  {
    NamesAppend(s, n - 1);
    if s[n - 1].name in Names(s[..n - 1]) {
      j := n - 1;
      var t :| t in s[..n - 1] && t.name == s[j].name;
      i :| 0 <= i < n - 1 && s[..n - 1][i] == t;
    } else {
      i, j := Duplicate(s, n - 1);
    }
  }

  lemma NormalFine(t: Tool)
    requires Fine(t)
    ensures Fine(Normal(t))
  {
  }

  /** A strictly sorted list is determined by its members. */
  lemma {:induction false} StrictUnique(a: seq<Tool>, b: seq<Tool>)
    requires Strict(a) && Strict(b) && Members(a) == Members(b)
    ensures a == b
    decreases |a|
  {
    hide Less;
    assert b != [] ==> b[0] in Members(b);
    if a != [] {
      assert a[0] in Members(a);
      assert b != [];
      assert b[0] in Members(b);
      FirstIsLeast(a, b[0]);
      FirstIsLeast(b, a[0]);
      if a[0] != b[0] {
        LessAsymmetric(a[0].name, b[0].name);
      }
      RestMembers(a);
      RestMembers(b);
      StrictUnique(a[1..], b[1..]);
    }
  }

  lemma FirstIsLeast(a: seq<Tool>, t: Tool)
    requires Strict(a) && t in a
    ensures t == a[0] || Less(a[0].name, t.name)
  {
    hide Less;
  }

  lemma RestMembers(a: seq<Tool>)
    requires Strict(a) && a != []
    ensures Members(a[1..]) == Members(a) - {a[0]}
    ensures Strict(a[1..])
  {
    hide Less;
    forall t | t in a[1..]
      ensures t != a[0]
    {
      LessIrreflexive(a[0].name);
    }
    assert forall t | t in a && t != a[0] :: t in a[1..];
  }

  /** The order in which the provider lists its tools makes no difference. */
  lemma OrderIsIrrelevant(a: seq<Tool>, b: seq<Tool>)
    requires multiset(a) == multiset(b)
    ensures Validate(a) == Validate(b)
  {
    hide Sorted, Less, Fine, Names;
    SameMembers(a, b);
    if Acceptable(a) {
      ValidateMeans(a);
      ValidateMeans(b);
      StrictUnique(Validate(a).value, Validate(b).value);
    }
  }

  lemma UnfineRefuses(s: seq<Tool>, i: nat)
    requires i < |s| && !Fine(s[i])
    ensures !Acceptable(s)
  {
  }

  lemma DuplicateRefuses(s: seq<Tool>, i: nat)
    requires i < |s| && s[i].name in Names(s[..i])
    ensures !Acceptable(s)
  {
    hide Fine;
    NamesAppend(s, i);
    NamesBound(s[..i]);
    assert Names(s[..i + 1]) == Names(s[..i]);
    DuplicateShrinks(s, i + 1);
  }

  lemma AllAccepted(s: seq<Tool>)
    requires (forall k | 0 <= k < |s| :: Fine(s[k])) && |Names(s[..|s|])| == |s|
    ensures Acceptable(s)
  {
    hide Fine;
    assert s[..|s|] == s;
  }

  lemma SortedAccepted(tools: seq<Tool>)
    ensures Acceptable(Sorted(tools, ByName())) <==> Acceptable(tools)
  {
    hide Sorted, Names, Fine;
    SortedKeeps(tools, ByName());
    SameMembers(Sorted(tools, ByName()), tools);
  }

  /** `validateMessageMCPCatalog`. */
  method ValidateCatalog(tools: seq<Tool>, now: int) returns (r: Option<Catalog>)
    ensures r == if Validate(tools).Some? then Some(Catalog(now, Validate(tools).value)) else None
  {
    hide Less, Sorted, Fine, Acceptable, Names;
    var ordered := Sorted(tools, ByName());
    ghost var sorted := ordered;
    SortedAccepted(tools);
    var seen: set<string> := {};
    assert Names(sorted[..0]) == {} by { NoNames(sorted); }
    for i := 0 to |ordered|
      invariant |ordered| == |sorted|
      invariant forall k | 0 <= k < |sorted| :: ordered[k] == if k < i then Normal(sorted[k]) else sorted[k]
      invariant seen == Names(sorted[..i]) && |seen| == i
      invariant forall k | 0 <= k < i :: Fine(sorted[k])
    {
      if !Fine(ordered[i]) {
        UnfineRefuses(sorted, i);
        return None;
      }
      if ordered[i].name in seen {
        DuplicateRefuses(sorted, i);
        return None;
      }
      NamesAppend(sorted, i);
      seen := seen + {ordered[i].name};
      ordered := ordered[i := Normal(ordered[i])];
    }
    AllAccepted(sorted);
    assert ordered == NormalAll(sorted);
    r := Some(Catalog(now, ordered));
  }

  lemma NoNames(s: seq<Tool>)
    ensures Names(s[..0]) == {}
  {
  }

  // ---- The cache. ----

  /** What the provider does when asked: nothing usable, an error because the caller gave up, or a list. */
  datatype Reply = Tools(tools: seq<Tool>) | Unavailable | GivenUp

  datatype Call = Call(force: bool, now: int, reply: Reply)

  datatype Answer = Found(catalog: Catalog) | Absent | Failed

  predicate Within(cache: Option<Catalog>, now: int, ttl: int) {
    cache.Some? && cache.value.at <= now <= cache.value.at + ttl
  }

  /** The list that a call obtains and accepts. */
  function Refreshed(c: Call): Option<Catalog> {
    if c.reply.Tools? && Validate(c.reply.tools).Some? then Some(Catalog(c.now, Validate(c.reply.tools).value))
         else None
  }

  predicate Asks(cache: Option<Catalog>, c: Call) {
    c.force || !Within(cache, c.now, FRESH)
  }

  function NextCache(cache: Option<Catalog>, c: Call): Option<Catalog> {
    if Asks(cache, c) && Refreshed(c).Some? then Refreshed(c) else cache
  }

  function Serve(cache: Option<Catalog>, c: Call): Answer {
    if !Asks(cache, c) then Found(cache.value)
    else if Refreshed(c).Some? then Found(Refreshed(c).value)
    else if c.reply.GivenUp? then Failed
    else if !c.force && Within(cache, c.now, STALE) then Found(cache.value)
    else if c.force then Failed
    else Absent
  }

  class MessageCatalog {
    var cache: Option<Catalog>

    constructor ()
      ensures cache == None
    {
      cache := None;
    }

    method Get(c: Call) returns (a: Answer)
      modifies this
      ensures cache == NextCache(old(cache), c) && a == Serve(old(cache), c)
    {
      hide Validate;
      if !c.force && cache.Some? && !(c.now < cache.value.at) && c.now - cache.value.at <= FRESH {
        return Found(cache.value);
      }
      var catalog := None;
      if !c.reply.Tools? {
        if c.reply.GivenUp? {
          return Failed;
        }
      } else {
        catalog := ValidateCatalog(c.reply.tools, c.now);
      }
      if catalog.None? {
        if !c.force && cache.Some? && !(c.now < cache.value.at) && c.now - cache.value.at <= STALE {
          return Found(cache.value);
        }
        return if c.force then Failed else Absent;
      }
      cache := catalog;
      a := Found(catalog.value);
    }
  }

  function CacheAfter(calls: seq<Call>): Option<Catalog> {
    if calls == [] then None else NextCache(CacheAfter(calls[..|calls| - 1]), calls[|calls| - 1])
  }

  /** Call `j` obtained `catalog` from the provider. */
  predicate Obtained(calls: seq<Call>, j: nat, catalog: Catalog) {
    j < |calls| && Refreshed(calls[j]) == Some(catalog)
  }

  lemma {:induction false} CacheIsObtained(calls: seq<Call>)
    requires CacheAfter(calls).Some?
    ensures exists j :: Obtained(calls, j, CacheAfter(calls).value)
    decreases |calls|
  {
    hide Validate;
    var n := |calls| - 1;
    var before := CacheAfter(calls[..n]);
    if Asks(before, calls[n]) && Refreshed(calls[n]).Some? {
      assert Obtained(calls, n, CacheAfter(calls).value);
    } else {
      CacheIsObtained(calls[..n]);
      var j :| Obtained(calls[..n], j, before.value);
      assert Obtained(calls, j, before.value);
    }
  }

  /** In every sequence of calls under any clock: a catalog that is returned is validated, was obtained from the
      provider by this or an earlier call at its own time stamp, is never from the future and never more than an
      hour old; a forced call returns only what it obtained itself, and a catalog more than five minutes old is
      returned only when this call obtained none. Whatever a call returns, one that obtains nothing leaves the cache as
      it was, and one that returns what it obtained leaves that. */
  lemma EveryAnswerIsSound(calls: seq<Call>, i: nat)
    requires i < |calls|
    ensures var a, k := Serve(CacheAfter(calls[..i]), calls[i]), calls[i];
            a.Found? ==>
              && Validated(a.catalog.tools) && a.catalog.at <= k.now <= a.catalog.at + STALE
              && (exists j: nat | j <= i :: Obtained(calls, j, a.catalog))
              && (k.force ==> Obtained(calls, i, a.catalog))
              && (k.now > a.catalog.at + FRESH ==> Refreshed(k).None?)
              && (Obtained(calls, i, a.catalog) ==> CacheAfter(calls[..i + 1]) == Some(a.catalog))
    ensures Refreshed(calls[i]).None? ==> CacheAfter(calls[..i + 1]) == CacheAfter(calls[..i])
  {
    hide Validate, Validated;
    var cache := CacheAfter(calls[..i]);
    var a := Serve(cache, calls[i]);
    assert calls[..i + 1][..i] == calls[..i];
    if a.Found? {
      if Asks(cache, calls[i]) && Refreshed(calls[i]).Some? {
        assert Obtained(calls, i, a.catalog);
        ObtainedIsValidated(calls, i, a.catalog);
      } else {
        CacheIsObtained(calls[..i]);
        var j :| Obtained(calls[..i], j, a.catalog);
        assert Obtained(calls, j, a.catalog);
        ObtainedIsValidated(calls, j, a.catalog);
      }
    }
  }

  /** The list this call's reply gives, if it can be used. */
  predicate Usable(c: Call) {
    c.reply.Tools? && Validate(c.reply.tools).Some?
  }

  /** What every call answers, given the last catalog that was kept. A call that is not forced returns a catalog of the
      last five minutes without asking. Otherwise a usable list is returned and kept; without one, a call whose caller
      gave up fails, a forced call fails, and any other returns a catalog of the last hour, or nothing. */
  lemma ServesExactly(cache: Option<Catalog>, c: Call)
    ensures var a, n := Serve(cache, c), NextCache(cache, c);
            var age := if cache.Some? then c.now - cache.value.at else -1;
            if !c.force && 0 <= age <= 300_000_000_000 then a == Found(cache.value) && n == cache
            else if Usable(c) then a == Found(Catalog(c.now, Validate(c.reply.tools).value)) && n == Some(a.catalog)
            else && n == cache
                 && a == if c.reply.GivenUp? || c.force then Failed
                         else if 0 <= age <= 3_600_000_000_000 then Found(cache.value)
                         else Absent
  {
    hide Validate;
  }

  lemma ObtainedIsValidated(calls: seq<Call>, j: nat, c: Catalog)
    requires Obtained(calls, j, c)
    ensures Validated(c.tools)
  {
    hide Validate, Validated;
    ValidateMeans(calls[j].reply.tools);
  }
}
