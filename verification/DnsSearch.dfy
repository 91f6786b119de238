/** The recursive server search `attempt` of proj3/myresolver.cpp. */
module DnsSearch {
  import opened Basics
  import opened Bytes
  import opened DnsRecords

  /** What the n-th query of the run comes to when it goes to a given server, after so many earlier
      ones of the same call; `pick` gives the draws of `rand()`. Both are arbitrary. Earlier queries
      matter: the packet buffer of a call is never cleared, so a later query carries all earlier ones
      and its reply is read from an offset that far off. */
  type Net = (nat, nat, Server) -> Outcome
  type Picks = nat -> nat

  /** How the process ends: its exit code, and for each query sent the servers on the stack, the
      one asked last. */
  datatype End = End(code: int, queries: seq<seq<Server>>)

  ghost predicate Closed(net: Net, universe: set<Server>) {
    forall n: nat, e: nat, s: Server :: net(n, e, s).Next? ==> Within(net(n, e, s).servers, universe)
  }

  ghost predicate Ready(net: Net, universe: set<Server>, servers: seq<Server>, stack: seq<Server>) {
    Closed(net, universe) && Within(servers, universe) && Within(stack, universe) && NoRepeats(stack)
  }

  /** How many of the last queries were made at this depth: those of the same call. */
  function Earlier(queries: seq<seq<Server>>, depth: nat): nat {
    if queries == [] || |queries[|queries| - 1]| != depth then 0 else 1 + Earlier(queries[..|queries| - 1], depth)
  }

  lemma EarlierMore(queries: seq<seq<Server>>, path: seq<Server>)
    ensures Earlier(queries + [path], |path|) == Earlier(queries, |path|) + 1
    ensures Earlier(queries + [path], |path| + 1) == 0
  {
    assert (queries + [path])[..|queries|] == queries;
  }

  /** What the query to the last server of `path` comes to. */
  function Reply(net: Net, queries: seq<seq<Server>>, path: seq<Server>): Outcome
    requires path != []
  {
    net(|queries|, Earlier(queries, |path|), path[|path| - 1])
  }

  /** What the k-th query came to. */
  function ReplyTo(net: Net, queries: seq<seq<Server>>, k: nat): Outcome
    requires k < |queries| && queries[k] != []
  {
    Reply(net, queries[..k], queries[k])
  }

  /** A further query does not change what the earlier ones came to. */
  lemma RepliesKept(net: Net, queries: seq<seq<Server>>, path: seq<Server>)
    requires path != []
    ensures var more := queries + [path];
      && (forall k: nat | k < |queries| && queries[k] != [] :: more[k] == queries[k] && ReplyTo(net, more, k) == ReplyTo(net, queries, k))
      && ReplyTo(net, more, |queries|) == Reply(net, queries, path)
  {
    var more := queries + [path];
    forall k: nat | k < |queries| && queries[k] != [] ensures more[k] == queries[k] && ReplyTo(net, more, k) == ReplyTo(net, queries, k) {
      assert more[..k] == queries[..k];
    }
    assert more[..|queries|] == queries;
  }

  /** The whole rest of the run from one state of the search. A referral is followed and never
      returned from: the process ends inside. */
  ghost function Search(net: Net, picks: Picks, universe: set<Server>,
                        servers: seq<Server>, stack: seq<Server>, tick: nat, queries: seq<seq<Server>>): End
    requires Ready(net, universe, servers, stack)
    decreases |universe| - |stack|, |servers|
  {
    NoRepeatsFit(stack, universe);
    if servers == [] then End(1, queries)
    else
      var i := picks(tick) % |servers|;
      var s := servers[i];
      if s in stack then
        Search(net, picks, universe, Without(servers, FirstOf(servers, s)), stack, tick + 1, queries)
      else
        var path := stack + [s];
        NoRepeatsFit(path, universe);
        match Reply(net, queries, path)
        case ExitWith(code) => End(code, queries + [path])
        case Next(list) =>
          if list != [] then Search(net, picks, universe, list, path, tick + 1, queries + [path])
          else Search(net, picks, universe, Without(servers, i), stack, tick + 1, queries + [path])
  }

  /** Query `j` is the last step of a referral path: its path has no server twice, and its server
      was named in the reply to the query one step up the path. */
  ghost predicate OnPath(net: Net, roots: seq<Server>, queries: seq<seq<Server>>, j: nat)
    requires j < |queries|
  {
    var p := queries[j];
    && p != [] && NoRepeats(p)
    && if |p| == 1 then p[0] in roots
       else exists k: nat | k < j :: Refers(net, queries, k, p)
  }

  ghost predicate Refers(net: Net, queries: seq<seq<Server>>, k: nat, p: seq<Server>)
    requires k < |queries| && |p| >= 2
  {
    && queries[k] == p[..|p| - 1]
    && ReplyTo(net, queries, k).Next? && p[|p| - 1] in ReplyTo(net, queries, k).servers
  }

  ghost predicate GoodLog(net: Net, roots: seq<Server>, queries: seq<seq<Server>>) {
    && (forall j: nat | j < |queries| :: OnPath(net, roots, queries, j))
    && (forall j: nat, k: nat | j < k < |queries| :: |queries[j]| <= |queries[k]|)
  }

  /** Where the candidates of the current level come from: the roots, or the reply to query `from`,
      whose path is the stack. */
  ghost predicate Origin(net: Net, roots: seq<Server>, servers: seq<Server>, stack: seq<Server>, queries: seq<seq<Server>>, from: nat) {
    if stack == [] then forall s | s in servers :: s in roots
    else
      && from < |queries| && queries[from] == stack
      && ReplyTo(net, queries, from).Next?
      && forall s | s in servers :: s in ReplyTo(net, queries, from).servers
  }

  lemma PathKept(net: Net, roots: seq<Server>, queries: seq<seq<Server>>, path: seq<Server>, j: nat)
    requires j < |queries| && OnPath(net, roots, queries, j) && path != []
    ensures OnPath(net, roots, queries + [path], j)
  {
    RepliesKept(net, queries, path);
    if |queries[j]| >= 2 {
      var k: nat :| k < j && Refers(net, queries, k, queries[j]);
      assert Refers(net, queries + [path], k, queries[j]);
    }
  }

  lemma LogOneMore(net: Net, roots: seq<Server>, servers: seq<Server>, stack: seq<Server>, queries: seq<seq<Server>>, from: nat, s: Server)
    requires GoodLog(net, roots, queries) && Origin(net, roots, servers, stack, queries, from)
    requires s in servers && s !in stack && NoRepeats(stack)
    requires forall j | 0 <= j < |queries| :: |queries[j]| <= |stack| + 1
    ensures GoodLog(net, roots, queries + [stack + [s]])
  {
    var path := stack + [s];
    var more := queries + [path];
    RepliesKept(net, queries, path);
    forall j: nat | j < |more| ensures OnPath(net, roots, more, j) {
      if j < |queries| {
        assert OnPath(net, roots, queries, j);
        PathKept(net, roots, queries, path, j);
      } else if stack != [] {
        assert path[..|path| - 1] == stack;
        assert Refers(net, more, from, path);
      }
    }
  }

  /** What holds of every run of the search: no server is asked while it is already on its own
      referral path, every server asked was named by the server one step up, and queries only go
      deeper, never back up. */
  lemma {:induction false} SearchLog(net: Net, picks: Picks, universe: set<Server>, roots: seq<Server>,
                                     servers: seq<Server>, stack: seq<Server>, tick: nat, queries: seq<seq<Server>>, from: nat)
    requires Ready(net, universe, servers, stack)
    requires GoodLog(net, roots, queries) && Origin(net, roots, servers, stack, queries, from)
    requires forall j | 0 <= j < |queries| :: |queries[j]| <= |stack| + 1
    ensures var e := Search(net, picks, universe, servers, stack, tick, queries);
      GoodLog(net, roots, e.queries) && queries <= e.queries
    decreases |universe| - |stack|, |servers|
  {
    NoRepeatsFit(stack, universe);
    if servers != [] {
      var i := picks(tick) % |servers|;
      var s := servers[i];
      if s in stack {
        SearchLog(net, picks, universe, roots, Without(servers, FirstOf(servers, s)), stack, tick + 1, queries, from);
      } else {
        var path := stack + [s];
        var more := queries + [path];
        NoRepeatsFit(path, universe);
        RepliesKept(net, queries, path);
        LogOneMore(net, roots, servers, stack, queries, from, s);
        match Reply(net, queries, path)
        case ExitWith(_) =>
        case Next(list) =>
          if list != [] {
            SearchLog(net, picks, universe, roots, list, path, tick + 1, more, |queries|);
          } else {
            SearchLog(net, picks, universe, roots, Without(servers, i), stack, tick + 1, more, from);
          }
      }
    }
  }

  /** The search from the root servers with an empty stack. */
  lemma SearchHasNoCycles(net: Net, picks: Picks, universe: set<Server>, roots: seq<Server>)
    requires Closed(net, universe) && Within(roots, universe)
    ensures GoodLog(net, roots, Search(net, picks, universe, roots, [], 0, []).queries)
  {
    SearchLog(net, picks, universe, roots, roots, [], 0, [], 0);
  }

  /** The reply to the last query. */
  function LastReply(net: Net, queries: seq<seq<Server>>): Option<Outcome> {
    if queries == [] || queries[|queries| - 1] == [] then None else Some(ReplyTo(net, queries, |queries| - 1))
  }

  /** How the process can end: with the code of the reply to the very last query, or with code 1
      when a candidate list ran out. */
  lemma {:induction false} SearchEnds(net: Net, picks: Picks, universe: set<Server>,
                                      servers: seq<Server>, stack: seq<Server>, tick: nat, queries: seq<seq<Server>>)
    requires Ready(net, universe, servers, stack)
    ensures var e := Search(net, picks, universe, servers, stack, tick, queries);
      queries <= e.queries && (e.code == 1 || (|e.queries| > |queries| && LastReply(net, e.queries) == Some(ExitWith(e.code))))
    decreases |universe| - |stack|, |servers|
  {
    NoRepeatsFit(stack, universe);
    if servers != [] {
      var i := picks(tick) % |servers|;
      var s := servers[i];
      if s in stack {
        SearchEnds(net, picks, universe, Without(servers, FirstOf(servers, s)), stack, tick + 1, queries);
      } else {
        var path := stack + [s];
        NoRepeatsFit(path, universe);
        match Reply(net, queries, path)
        case ExitWith(_) =>
        case Next(list) =>
          if list != [] {
            SearchEnds(net, picks, universe, list, path, tick + 1, queries + [path]);
          } else {
            SearchEnds(net, picks, universe, Without(servers, i), stack, tick + 1, queries + [path]);
          }
      }
    }
  }

  /** At most as many queries as there are candidates on the current level, plus the longest list
      for each further level. */
  lemma {:induction false} SearchIsBounded(net: Net, picks: Picks, universe: set<Server>, longest: nat,
                                           servers: seq<Server>, stack: seq<Server>, tick: nat, queries: seq<seq<Server>>)
    requires Ready(net, universe, servers, stack)
    requires forall n: nat, e: nat, s: Server :: net(n, e, s).Next? ==> |net(n, e, s).servers| <= longest
    ensures |stack| <= |universe|
    ensures |Search(net, picks, universe, servers, stack, tick, queries).queries|
         <= |queries| + |servers| + (|universe| - |stack|) * longest
    decreases |universe| - |stack|, |servers|
  {
    NoRepeatsFit(stack, universe);
    NotNegative(|universe| - |stack|, longest);
    if servers != [] {
      var i := picks(tick) % |servers|;
      var s := servers[i];
      if s in stack {
        SearchIsBounded(net, picks, universe, longest, Without(servers, FirstOf(servers, s)), stack, tick + 1, queries);
      } else {
        var path := stack + [s];
        NoRepeatsFit(path, universe);
        match Reply(net, queries, path)
        case ExitWith(_) =>
        case Next(list) =>
          if list != [] {
            SearchIsBounded(net, picks, universe, longest, list, path, tick + 1, queries + [path]);
            OneLess(|universe| - |stack|, longest);
          } else {
            SearchIsBounded(net, picks, universe, longest, Without(servers, i), stack, tick + 1, queries + [path]);
          }
      }
    }
  }

  lemma NotNegative(k: nat, n: nat)
    ensures k * n >= 0
  {
  }

  lemma OneLess(k: nat, n: nat)
    requires k > 0
    ensures k * n == n + (k - 1) * n
  {
  }

  // ---------------------------------------------------------------- when an answer is found

  /** The process ended with the reply to its last query, not on an exhausted list. */
  ghost predicate Answered(net: Net, e: End) {
    LastReply(net, e.queries) == Some(ExitWith(e.code))
  }

  /** The last query so far, if any, did not end the process. */
  ghost predicate GoingOn(net: Net, queries: seq<seq<Server>>) {
    LastReply(net, queries).Some? ==> LastReply(net, queries).value.Next?
  }

  /** Only the draws still to come matter. */
  lemma {:induction false} EqualDraws(net: Net, p: Picks, q: Picks, universe: set<Server>,
                                      servers: seq<Server>, stack: seq<Server>, tick: nat, queries: seq<seq<Server>>)
    requires Ready(net, universe, servers, stack) && forall n: nat | n >= tick :: p(n) == q(n)
    ensures Search(net, p, universe, servers, stack, tick, queries) == Search(net, q, universe, servers, stack, tick, queries)
    decreases |universe| - |stack|, |servers|
  {
    NoRepeatsFit(stack, universe);
    if servers != [] {
      assert p(tick) == q(tick);
      var i := p(tick) % |servers|;
      var s, path := servers[i], stack + [servers[i]];
      if s in stack {
        EqualDraws(net, p, q, universe, Without(servers, FirstOf(servers, s)), stack, tick + 1, queries);
      } else {
        NoRepeatsFit(path, universe);
        var reply := Reply(net, queries, path);
        if reply.Next? && reply.servers != [] {
          EqualDraws(net, p, q, universe, reply.servers, path, tick + 1, queries + [path]);
        } else if reply.Next? {
          EqualDraws(net, p, q, universe, Without(servers, i), stack, tick + 1, queries + [path]);
        }
      }
    }
  }

  /** One turn of the search: the drawn candidate refers to others, or has nothing to offer. */
  lemma TurnFollows(net: Net, picks: Picks, universe: set<Server>, servers: seq<Server>, stack: seq<Server>,
                    tick: nat, queries: seq<seq<Server>>, s: Server)
    requires Ready(net, universe, servers, stack) && servers != [] && s == servers[picks(tick) % |servers|] && s !in stack
    requires var reply := Reply(net, queries, stack + [s]); reply.Next? && reply.servers != []
    ensures Ready(net, universe, Reply(net, queries, stack + [s]).servers, stack + [s])
    ensures Search(net, picks, universe, servers, stack, tick, queries)
         == Search(net, picks, universe, Reply(net, queries, stack + [s]).servers, stack + [s], tick + 1, queries + [stack + [s]])
  {
    NoRepeatsFit(stack, universe);
    NoRepeatsFit(stack + [s], universe);
  }

  lemma TurnErases(net: Net, picks: Picks, universe: set<Server>, servers: seq<Server>, stack: seq<Server>,
                   tick: nat, queries: seq<seq<Server>>, s: Server)
    requires Ready(net, universe, servers, stack) && servers != [] && s == servers[picks(tick) % |servers|] && s !in stack
    requires Reply(net, queries, stack + [s]) == Next([])
    ensures Search(net, picks, universe, servers, stack, tick, queries)
         == Search(net, picks, universe, Without(servers, picks(tick) % |servers|), stack, tick + 1, queries + [stack + [s]])
  {
    NoRepeatsFit(stack, universe);
    NoRepeatsFit(stack + [s], universe);
  }

  /** The draws that pick candidate `i` at `tick` and go on like `rest`. */
  function Prefixed(i: nat, tick: nat, rest: Picks): Picks {
    n => if n <= tick then i else rest(n)
  }

  /** Draw a candidate off the path that refers to others. */
  lemma DrawAndFollow(net: Net, universe: set<Server>, servers: seq<Server>, stack: seq<Server>,
                      tick: nat, queries: seq<seq<Server>>, i: nat, rest: Picks)
    requires Ready(net, universe, servers, stack) && i < |servers| && servers[i] !in stack
    requires var reply := Reply(net, queries, stack + [servers[i]]); reply.Next? && reply.servers != []
    ensures var path := stack + [servers[i]]; var list := Reply(net, queries, path).servers;
      && Ready(net, universe, list, path)
      && Search(net, Prefixed(i, tick, rest), universe, servers, stack, tick, queries)
         == Search(net, rest, universe, list, path, tick + 1, queries + [path])
  {
    var p, path := Prefixed(i, tick, rest), stack + [servers[i]];
    assert p(tick) % |servers| == i;
    TurnFollows(net, p, universe, servers, stack, tick, queries, servers[i]);
    EqualDraws(net, p, rest, universe, Reply(net, queries, path).servers, path, tick + 1, queries + [path]);
  }

  /** Draw a candidate off the path that has nothing to offer. */
  lemma DrawAndErase(net: Net, universe: set<Server>, servers: seq<Server>, stack: seq<Server>,
                     tick: nat, queries: seq<seq<Server>>, i: nat, rest: Picks)
    requires Ready(net, universe, servers, stack) && i < |servers| && servers[i] !in stack
    requires Reply(net, queries, stack + [servers[i]]) == Next([])
    ensures Search(net, Prefixed(i, tick, rest), universe, servers, stack, tick, queries)
         == Search(net, rest, universe, Without(servers, i), stack, tick + 1, queries + [stack + [servers[i]]])
  {
    var p := Prefixed(i, tick, rest);
    assert p(tick) % |servers| == i;
    TurnErases(net, p, universe, servers, stack, tick, queries, servers[i]);
    EqualDraws(net, p, rest, universe, Without(servers, i), stack, tick + 1, queries + [stack + [servers[i]]]);
  }

  /** No server on this level can be of use any more: each is on the path, or offers nothing from the
      `least`-th query of the call on. */
  ghost predicate Useless(net: Net, servers: seq<Server>, stack: seq<Server>, least: nat) {
    forall s | s in servers && s !in stack :: forall n: nat, e: nat | e >= least :: net(n, e, s) == Next([])
  }

  /** Then the list is exhausted on every draw. */
  lemma {:induction false} DeadEnd(net: Net, picks: Picks, universe: set<Server>, servers: seq<Server>, stack: seq<Server>,
                                   tick: nat, queries: seq<seq<Server>>, least: nat)
    requires Ready(net, universe, servers, stack) && Useless(net, servers, stack, least)
    requires GoingOn(net, queries) && Earlier(queries, |stack| + 1) >= least
    ensures !Answered(net, Search(net, picks, universe, servers, stack, tick, queries))
    decreases |servers|
  {
    NoRepeatsFit(stack, universe);
    if servers != [] {
      var i := picks(tick) % |servers|;
      var s, path := servers[i], stack + [servers[i]];
      if s in stack {
        DeadEnd(net, picks, universe, Without(servers, FirstOf(servers, s)), stack, tick + 1, queries, least);
      } else {
        NoRepeatsFit(path, universe);
        RepliesKept(net, queries, path);
        EarlierMore(queries, path);
        DeadEnd(net, picks, universe, Without(servers, i), stack, tick + 1, queries + [path], least);
      }
    }
  }

  // ---------------------------------------------------------------- whatever retries come to

  /** The first query of a call comes to what the server has to say; later ones to anything. */
  function FirstThen(w: Server -> Outcome, retry: Net): Net {
    (n: nat, e: nat, s: Server) => if e == 0 then w(s) else retry(n, e, s)
  }

  const NoLuck: Net := (n, e, s) => Next([])

  ghost predicate WellReferred(w: Server -> Outcome, universe: set<Server>, list: seq<Server>, path: seq<Server>) {
    && (forall s :: w(s).Next? ==> Within(w(s).servers, universe))
    && Within(list, universe) && Within(path, universe) && NoRepeats(path)
  }

  lemma Deeper(w: Server -> Outcome, universe: set<Server>, list: seq<Server>, path: seq<Server>, s: Server)
    requires WellReferred(w, universe, list, path) && s in list && s !in path && w(s).Next?
    ensures WellReferred(w, universe, w(s).servers, path + [s]) && |path| < |universe|
  {
    NoRepeatsFit(path + [s], universe);
  }

  /** A level (a list of candidates and the path that led to it) is sure when it has a server off the
      path, and asking any such server ends the process or leads a level deeper. This level and all
      levels reached by following referrals are sure. */
  ghost predicate SureLevels(w: Server -> Outcome, universe: set<Server>, list: seq<Server>, path: seq<Server>)
    requires WellReferred(w, universe, list, path)
    decreases |universe| - |path|
  {
    && (exists s :: s in list && s !in path)
    && (forall s | s in list && s !in path :: w(s) != Next([]))
    && (forall s | s in list && s !in path && w(s).Next? ::
          (Deeper(w, universe, list, path, s); SureLevels(w, universe, w(s).servers, path + [s])))
  }

  lemma EraseOnPath(w: Server -> Outcome, universe: set<Server>, list: seq<Server>, path: seq<Server>, i: nat)
    requires WellReferred(w, universe, list, path) && SureLevels(w, universe, list, path)
    requires i < |list| && list[i] in path
    ensures SureLevels(w, universe, Without(list, i), path)
  {
    var s :| s in list && s !in path;
    assert list == list[..i] + [list[i]] + list[i + 1..];
    assert s in Without(list, i);
  }

  lemma {:induction false} FoundAtFirst(w: Server -> Outcome, retry: Net, picks: Picks, universe: set<Server>,
                                        servers: seq<Server>, stack: seq<Server>, tick: nat, queries: seq<seq<Server>>)
    requires Ready(FirstThen(w, retry), universe, servers, stack) && Earlier(queries, |stack| + 1) == 0
    requires WellReferred(w, universe, servers, stack) && SureLevels(w, universe, servers, stack)
    ensures Answered(FirstThen(w, retry), Search(FirstThen(w, retry), picks, universe, servers, stack, tick, queries))
    decreases |universe| - |stack|, |servers|
  {
    NoRepeatsFit(stack, universe);
    var i := picks(tick) % |servers|;
    var s, path := servers[i], stack + [servers[i]];
    if s in stack {
      EraseOnPath(w, universe, servers, stack, FirstOf(servers, s));
      FoundAtFirst(w, retry, picks, universe, Without(servers, FirstOf(servers, s)), stack, tick + 1, queries);
    } else {
      NoRepeatsFit(path, universe);
      RepliesKept(FirstThen(w, retry), queries, path);
      EarlierMore(queries, path);
      if w(s).Next? {
        Deeper(w, universe, servers, stack, s);
        FoundAtFirst(w, retry, picks, universe, w(s).servers, path, tick + 1, queries + [path]);
      }
    }
  }

  /** Draws that miss every answer when retries bring nothing. */
  lemma {:induction false} LosingDraws(w: Server -> Outcome, universe: set<Server>, servers: seq<Server>, stack: seq<Server>,
                                       tick: nat, queries: seq<seq<Server>>) returns (picks: Picks)
    requires WellReferred(w, universe, servers, stack) && !SureLevels(w, universe, servers, stack)
    requires Ready(FirstThen(w, NoLuck), universe, servers, stack)
    requires GoingOn(FirstThen(w, NoLuck), queries) && Earlier(queries, |stack| + 1) == 0
    ensures !Answered(FirstThen(w, NoLuck), Search(FirstThen(w, NoLuck), picks, universe, servers, stack, tick, queries))
    decreases |universe| - |stack|
  {
    var net := FirstThen(w, NoLuck);
    if forall s | s in servers :: s in stack {
      picks := n => 0;
      DeadEnd(net, picks, universe, servers, stack, tick, queries, 0);
    } else if s :| s in servers && s !in stack && w(s) == Next([]) {
      var i, path := FirstOf(servers, s), stack + [s];
      picks := Prefixed(i, tick, n => 0);
      RepliesKept(net, queries, path);
      EarlierMore(queries, path);
      DrawAndErase(net, universe, servers, stack, tick, queries, i, n => 0);
      DeadEnd(net, n => 0, universe, Without(servers, i), stack, tick + 1, queries + [path], 1);
    } else {
      var s := UnsureReferral(w, universe, servers, stack);
      var path := stack + [s];
      Deeper(w, universe, servers, stack, s);
      RepliesKept(net, queries, path);
      var rest := LosingDraws(w, universe, w(s).servers, path, tick + 1, queries + [path]);
      picks := Prefixed(FirstOf(servers, s), tick, rest);
      DrawAndFollow(net, universe, servers, stack, tick, queries, FirstOf(servers, s), rest);
    }
  }

  lemma UnsureReferral(w: Server -> Outcome, universe: set<Server>, servers: seq<Server>, stack: seq<Server>) returns (s: Server)
    requires WellReferred(w, universe, servers, stack) && !SureLevels(w, universe, servers, stack)
    requires exists s :: s in servers && s !in stack
    requires forall s | s in servers && s !in stack :: w(s) != Next([])
    ensures s in servers && s !in stack && w(s).Next? && w(s).servers != []
    ensures WellReferred(w, universe, w(s).servers, stack + [s]) && !SureLevels(w, universe, w(s).servers, stack + [s])
  {
    s :| s in servers && s !in stack && w(s).Next?
      && (Deeper(w, universe, servers, stack, s); !SureLevels(w, universe, w(s).servers, stack + [s]));
    Deeper(w, universe, servers, stack, s);
  }

  /** The search ends with the reply to a query, so that no answer is missed, on every draw and
      whatever the later queries of a call come to, if and only if every level reached from the roots
      by first queries is sure. */
  lemma NeverMissedIff(w: Server -> Outcome, universe: set<Server>, roots: seq<Server>)
    requires WellReferred(w, universe, roots, [])
    ensures (forall retry: Net, picks: Picks | Closed(FirstThen(w, retry), universe) ::
               Answered(FirstThen(w, retry), Search(FirstThen(w, retry), picks, universe, roots, [], 0, [])))
       <==> SureLevels(w, universe, roots, [])
  {
    if SureLevels(w, universe, roots, []) {
      forall retry: Net, picks: Picks | Closed(FirstThen(w, retry), universe)
        ensures Answered(FirstThen(w, retry), Search(FirstThen(w, retry), picks, universe, roots, [], 0, []))
      {
        FoundAtFirst(w, retry, picks, universe, roots, [], 0, []);
      }
    } else {
      var picks := LosingDraws(w, universe, roots, [], 0, []);
      assert !Answered(FirstThen(w, NoLuck), Search(FirstThen(w, NoLuck), picks, universe, roots, [], 0, []));
    }
  }

  // ---------------------------------------------------------------- when retries come to the same

  /** Queries that come to the same whenever they are made. */
  function Steady(w: Server -> Outcome): Net {
    (n, e, s) => w(s)
  }

  /** Asking this server ends the process or leads a level deeper. */
  predicate Useful(w: Server -> Outcome, path: seq<Server>, s: Server) {
    s !in path && w(s) != Next([])
  }

  /** A level is dead when no server on it is of use. Neither this level nor any level reached by
      following referrals is dead. */
  ghost predicate NoDeadLevel(w: Server -> Outcome, universe: set<Server>, list: seq<Server>, path: seq<Server>)
    requires WellReferred(w, universe, list, path)
    decreases |universe| - |path|
  {
    && (exists s :: s in list && Useful(w, path, s))
    && (forall s | s in list && Useful(w, path, s) && w(s).Next? ::
          (Deeper(w, universe, list, path, s); NoDeadLevel(w, universe, w(s).servers, path + [s])))
  }

  /** Erasing a candidate of no use does not make a level dead. */
  lemma EraseUseless(w: Server -> Outcome, universe: set<Server>, list: seq<Server>, path: seq<Server>, i: nat)
    requires WellReferred(w, universe, list, path) && NoDeadLevel(w, universe, list, path)
    requires i < |list| && !Useful(w, path, list[i])
    ensures NoDeadLevel(w, universe, Without(list, i), path)
  {
    var s :| s in list && Useful(w, path, s);
    assert list == list[..i] + [list[i]] + list[i + 1..];
    assert s in Without(list, i);
  }

  lemma {:induction false} FoundOnEveryDraw(w: Server -> Outcome, picks: Picks, universe: set<Server>,
                                            servers: seq<Server>, stack: seq<Server>, tick: nat, queries: seq<seq<Server>>)
    requires Ready(Steady(w), universe, servers, stack)
    requires WellReferred(w, universe, servers, stack) && NoDeadLevel(w, universe, servers, stack)
    ensures Answered(Steady(w), Search(Steady(w), picks, universe, servers, stack, tick, queries))
    decreases |universe| - |stack|, |servers|
  {
    NoRepeatsFit(stack, universe);
    var i := picks(tick) % |servers|;
    var s, path := servers[i], stack + [servers[i]];
    if s in stack {
      EraseUseless(w, universe, servers, stack, FirstOf(servers, s));
      FoundOnEveryDraw(w, picks, universe, Without(servers, FirstOf(servers, s)), stack, tick + 1, queries);
    } else {
      NoRepeatsFit(path, universe);
      RepliesKept(Steady(w), queries, path);
      if w(s).Next? && w(s).servers != [] {
        Deeper(w, universe, servers, stack, s);
        FoundOnEveryDraw(w, picks, universe, w(s).servers, path, tick + 1, queries + [path]);
      } else if w(s).Next? {
        EraseUseless(w, universe, servers, stack, i);
        FoundOnEveryDraw(w, picks, universe, Without(servers, i), stack, tick + 1, queries + [path]);
      }
    }
  }

  lemma {:induction false} SteadyLosingDraws(w: Server -> Outcome, universe: set<Server>, servers: seq<Server>, stack: seq<Server>,
                                             tick: nat, queries: seq<seq<Server>>) returns (picks: Picks)
    requires WellReferred(w, universe, servers, stack) && !NoDeadLevel(w, universe, servers, stack)
    requires Ready(Steady(w), universe, servers, stack) && GoingOn(Steady(w), queries)
    ensures !Answered(Steady(w), Search(Steady(w), picks, universe, servers, stack, tick, queries))
    decreases |universe| - |stack|
  {
    if s :| s in servers && Useful(w, stack, s) {
      var bad := ReferralToDeadLevel(w, universe, servers, stack);
      var path := stack + [bad];
      Deeper(w, universe, servers, stack, bad);
      RepliesKept(Steady(w), queries, path);
      var rest := SteadyLosingDraws(w, universe, w(bad).servers, path, tick + 1, queries + [path]);
      picks := Prefixed(FirstOf(servers, bad), tick, rest);
      DrawAndFollow(Steady(w), universe, servers, stack, tick, queries, FirstOf(servers, bad), rest);
    } else {
      picks := n => 0;
      DeadEnd(Steady(w), picks, universe, servers, stack, tick, queries, 0);
    }
  }

  lemma ReferralToDeadLevel(w: Server -> Outcome, universe: set<Server>, servers: seq<Server>, stack: seq<Server>) returns (s: Server)
    requires WellReferred(w, universe, servers, stack) && !NoDeadLevel(w, universe, servers, stack)
    requires exists s :: s in servers && Useful(w, stack, s)
    ensures s in servers && Useful(w, stack, s) && w(s).Next?
    ensures WellReferred(w, universe, w(s).servers, stack + [s]) && !NoDeadLevel(w, universe, w(s).servers, stack + [s])
  {
    s :| s in servers && Useful(w, stack, s) && w(s).Next?
      && (Deeper(w, universe, servers, stack, s); !NoDeadLevel(w, universe, w(s).servers, stack + [s]));
    Deeper(w, universe, servers, stack, s);
  }

  /** If retries came to the same as first queries, a weaker condition would be exact: that no level
      reached by referrals is dead. */
  lemma SteadyNeverMissedIff(w: Server -> Outcome, universe: set<Server>, roots: seq<Server>)
    requires WellReferred(w, universe, roots, [])
    ensures (forall picks: Picks :: Answered(Steady(w), Search(Steady(w), picks, universe, roots, [], 0, [])))
       <==> NoDeadLevel(w, universe, roots, [])
  {
    if NoDeadLevel(w, universe, roots, []) {
      forall picks: Picks ensures Answered(Steady(w), Search(Steady(w), picks, universe, roots, [], 0, [])) {
        FoundOnEveryDraw(w, picks, universe, roots, [], 0, []);
      }
    } else {
      var picks := SteadyLosingDraws(w, universe, roots, [], 0, []);
      assert !Answered(Steady(w), Search(Steady(w), picks, universe, roots, [], 0, []));
    }
  }

  /** A second query of one call goes wrong although its server would have answered: `a` has nothing to
      offer, and the reply of `b` is read from the wrong offset. */
  lemma RetryCanMissAnswer(a: Server, b: Server)
    requires a != b
    ensures var w := s => if s == a then Next([]) else ExitWith(0);
      && WellReferred(w, {a, b}, [a, b], []) && NoDeadLevel(w, {a, b}, [a, b], [])
      && Search(FirstThen(w, NoLuck), n => 0, {a, b}, [a, b], [], 0, []) == End(1, [[a], [b]])
  {
    var w := s => if s == a then Next([]) else ExitWith(0);
    var net, u, picks: Picks := FirstThen(w, NoLuck), {a, b}, n => 0;
    assert b in [a, b] && Useful(w, [], b);
    EarlierMore([], [a]);
    assert [] + [a] == [a] && [] + [b] == [b] && [] + [[a]] == [[a]] && [[a]] + [[b]] == [[a], [b]];
    assert Without([a, b], 0) == [b] && Without([b], 0) == [];
    TurnErases(net, picks, u, [a, b], [], 0, [], a);
    TurnErases(net, picks, u, [b], [], 1, [[a]], b);
  }

  /** Because a referral is never returned from, an answer can be missed: `a` refers to `c`, which
      knows nothing, and the process ends with "no record" although `b` would have answered. */
  lemma AnswerCanBeMissed(a: Server, b: Server, c: Server)
    requires a != b && b != c && a != c
    ensures var net: Net := (n, e, s) => if s == a then Next([c]) else if s == b then ExitWith(0) else Next([]);
      Search(net, n => 0, {a, b, c}, [a, b], [], 0, []) == End(1, [[a], [a, c]])
  {
    var net: Net := (n, e, s) => if s == a then Next([c]) else if s == b then ExitWith(0) else Next([]);
    var u, picks: Picks := {a, b, c}, n => 0;
    assert [] + [a] == [a] && [] + [[a]] == [[a]] && [a] + [c] == [a, c] && [[a]] + [[a, c]] == [[a], [a, c]];
    assert Without([c], 0) == [];
    TurnFollows(net, picks, u, [a, b], [], 0, [], a);
    TurnErases(net, picks, u, [c], [a], 1, [[a]], c);
  }

  /** The resolver's shared state: the stack passed by reference, the draws and queries so far. */
  class Resolver {
    var stack: seq<Server>
    var tick: nat
    var queries: seq<seq<Server>>

    constructor ()
      ensures stack == [] && tick == 0 && queries == []
    {
      stack, tick, queries := [], 0, [];
    }

    /** Puts the server on the stack and sends it the packet buffer, which holds `packets` earlier ones
        of the same call. */
    method Ask(server: Server, net: Net, packets: nat) returns (reply: Outcome)
      requires packets == Earlier(queries, |stack| + 1)
      modifies this
      ensures stack == old(stack) + [server] && queries == old(queries) + [stack] && tick == old(tick)
      ensures reply == Reply(net, old(queries), stack)
      ensures Earlier(queries, |stack|) == packets + 1 && Earlier(queries, |stack| + 1) == 0
    {
      stack := stack + [server];
      reply := net(|queries|, packets, server);
      EarlierMore(queries, stack);
      queries := queries + [stack];
    }

    /** The loop body of `attempt`: the candidates left, or the exit code. */
    method Turn(servers: seq<Server>, net: Net, picks: Picks, ghost universe: set<Server>, packets: nat)
      returns (exit: Option<int>, left: seq<Server>, sent: nat)
      requires Ready(net, universe, servers, stack) && servers != [] && packets == Earlier(queries, |stack| + 1)
      modifies this
      ensures var e := Search(net, picks, universe, servers, old(stack), old(tick), old(queries));
        if exit.Some? then exit == Some(e.code) && queries == e.queries
        else
          && stack == old(stack) && |left| < |servers| && Ready(net, universe, left, stack)
          && sent == Earlier(queries, |stack| + 1)
          && e == Search(net, picks, universe, left, stack, tick, queries)
      decreases |universe| - |stack|, 0
    {
      NoRepeatsFit(stack, universe);
      var srvNum := picks(tick) % |servers|;
      var server := servers[srvNum];
      tick := tick + 1;
      if server in stack {
        return None, Without(servers, FirstOf(servers, server)), packets;
      }
      NoRepeatsFit(stack + [server], universe);
      var reply := Ask(server, net, packets);
      if reply.ExitWith? {
        return Some(reply.code), [], packets + 1;
      }
      if reply.servers != [] {
        exit := Attempt(reply.servers, net, picks, universe);
        if exit.Some? {
          return exit, [], packets + 1;
        }
      }
      stack := stack[..|stack| - 1];
      return None, Without(servers, srvNum), packets + 1;
    }

    /** `attempt`. The result is the exit code if the process ended inside, and None if the call
        returned to its caller, which never happens: its `Response` is never set. `packets` counts
        what has been written to the packet buffer of this call. */
    method Attempt(candidates: seq<Server>, net: Net, picks: Picks, ghost universe: set<Server>) returns (exit: Option<int>)
      requires Ready(net, universe, candidates, stack) && Earlier(queries, |stack| + 1) == 0
      modifies this
      ensures var e := Search(net, picks, universe, candidates, old(stack), old(tick), old(queries));
        exit == Some(e.code) && queries == e.queries
      decreases |universe| - |stack|, 1
    {
      var servers := candidates;
      var answered, packets := false, 0;
      ghost var goal := Search(net, picks, universe, candidates, stack, tick, queries);
      while !answered && servers != []
        invariant !answered && stack == old(stack) && packets == Earlier(queries, |stack| + 1)
        invariant Ready(net, universe, servers, stack)
        invariant goal == Search(net, picks, universe, servers, stack, tick, queries)
        decreases |servers|
      {
        exit, servers, packets := Turn(servers, net, picks, universe, packets);
        if exit.Some? {
          return;
        }
      }
      if servers == [] {
        return Some(1);
      }
      return None;
    }
  }
}
