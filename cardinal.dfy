/** The bot's core object: the raise scheduler over the account's categories, the
    dispatch of runner events to the message handlers, and the built-in automatic
    response with its bounded retry. The clock, the outcome of every raise request
    and every reply of the marketplace are parameters; the threads that run the
    loops are not modelled. */
module CardinalCore {
  import opened Types
  import opened Strings
  import FA = FunPayAccount
  import R = Runner
  import CT = CardinalTools

  // ---------------------------------------------------------------------------
  // The raise scheduler

  /** The state of one pass of `raise_lots` over the categories: the game-id table
      (game id -> next time its lots may be raised), the smallest candidate time so
      far (-1 while there is none), the indices of the categories for which a raise
      was requested, and whether the pass stopped with an exception. */
  datatype RaiseState = RaiseState(gameIds: map<Option<int>, int>, minNext: int, requested: seq<nat>, crashed: bool)

  /** What `raise_lots` gives its caller: the time to run again, or an exception. */
  datatype RaiseReturn = NextAt(next: int) | Crashed

  /** The two readings of the clock in one category's turn: `check` when the
      game's stored time is compared, `done` when the time after the raise request
      is computed. The code reads the clock anew at each of these points. */
  datatype Reading = Reading(check: int, done: int)

  /** The game of `gid` may not be raised before its stored time. */
  predicate Blocked(g: map<Option<int>, int>, gid: Option<int>, now: int) {
    gid in g && g[gid] > now
  }

  /** The running minimum with -1 as "none yet". */
  function Earlier(m: int, t: int): int {
    if m == -1 || t < m then t else m
  }

  /** The time a category contributes to the pass, given the table it meets: its
      stored time when blocked, ten seconds after the request when the request
      throws, the announced wait after the request otherwise; None when the reply
      is None and the pass crashes. */
  function Candidate(g: map<Option<int>, int>, cat: Category, c: Reading, out: FA.RaiseResult): Option<int> {
    if Blocked(g, cat.gameId, c.check) then Some(g[cat.gameId])
    else match out
      case RaiseThrew => Some(c.done + 10)
      case RaiseNone => None
      case RaiseReply(_, wait, _) => Some(c.done + wait)
  }

  /** One turn of the loop over the categories. */
  function RaiseStep(st: RaiseState, cat: Category, i: nat, c: Reading, out: FA.RaiseResult): RaiseState {
    if st.crashed then st
    else if Blocked(st.gameIds, cat.gameId, c.check) then st.(minNext := Earlier(st.minNext, st.gameIds[cat.gameId]))
    else match out
      case RaiseThrew => st.(minNext := Earlier(st.minNext, c.done + 10), requested := st.requested + [i])
      case RaiseNone => st.(requested := st.requested + [i], crashed := true)
      case RaiseReply(_, wait, _) =>
        RaiseState(st.gameIds[cat.gameId := c.done + wait], Earlier(st.minNext, c.done + wait), st.requested + [i], false)
  }

  /** The pass over the first `n` categories; `outs[i]` is what raising category `i`
      would return and `clocks[i]` the clock readings of its turn. */
  function RaisePass(g0: map<Option<int>, int>, cats: seq<Category>, outs: seq<FA.RaiseResult>, clocks: seq<Reading>, n: nat): RaiseState
    requires n <= |cats| && n <= |outs| && n <= |clocks|
  {
    if n == 0 then RaiseState(g0, -1, [], false)
    else RaiseStep(RaisePass(g0, cats, outs, clocks, n - 1), cats[n - 1], n - 1, clocks[n - 1], outs[n - 1])
  }

  /** The candidate time of category `i` in the pass. */
  function CandidateAt(g0: map<Option<int>, int>, cats: seq<Category>, outs: seq<FA.RaiseResult>, clocks: seq<Reading>, i: nat): Option<int>
    requires i < |cats| && i < |outs| && i < |clocks|
  {
    Candidate(RaisePass(g0, cats, outs, clocks, i).gameIds, cats[i], clocks[i], outs[i])
  }

  /** The clock reads no earlier than 0 and no announced wait brings the time
      after a request below 0, so no candidate time is the sentinel -1. A
      negative wait is allowed. */
  predicate SaneTimes(outs: seq<FA.RaiseResult>, clocks: seq<Reading>) {
    forall i :: 0 <= i < |outs| && i < |clocks| ==>
      clocks[i].check >= 0 && clocks[i].done >= 0 && (outs[i].RaiseReply? ==> clocks[i].done + outs[i].wait >= 0)
  }

  /** The clock does not go back: within a turn and from one turn to the next. */
  predicate Ticking(clocks: seq<Reading>) {
    && (forall i :: 0 <= i < |clocks| ==> clocks[i].check <= clocks[i].done)
    && (forall i, j :: 0 <= i < j < |clocks| ==> clocks[i].done <= clocks[j].check)
  }

  /** Once the pass crashes it stays crashed and changes nothing more; before that,
      every category contributed a candidate. */
  lemma {:induction false} CrashStops(g0: map<Option<int>, int>, cats: seq<Category>, outs: seq<FA.RaiseResult>, clocks: seq<Reading>, k: nat, n: nat)
    requires k <= n <= |cats| && n <= |outs| && n <= |clocks|
    ensures RaisePass(g0, cats, outs, clocks, k).crashed ==> RaisePass(g0, cats, outs, clocks, n) == RaisePass(g0, cats, outs, clocks, k)
    ensures !RaisePass(g0, cats, outs, clocks, n).crashed ==>
      !RaisePass(g0, cats, outs, clocks, k).crashed && (k < n ==> CandidateAt(g0, cats, outs, clocks, k).Some?)
    decreases n
  {
    if k < n {
      CrashStops(g0, cats, outs, clocks, k, n - 1);
      if k < n - 1 {
      } else {
        assert RaisePass(g0, cats, outs, clocks, n) == RaiseStep(RaisePass(g0, cats, outs, clocks, k), cats[k], k, clocks[k], outs[k]);
      }
    }
  }

  /** A pass that does not crash returns the minimum of its candidate times: no
      candidate is smaller, and some category contributed it. It returns -1
      exactly when there are no categories. */
  lemma {:induction false} PassMinimum(g0: map<Option<int>, int>, cats: seq<Category>, outs: seq<FA.RaiseResult>, clocks: seq<Reading>, n: nat)
    requires n <= |cats| && n <= |outs| && n <= |clocks| && SaneTimes(outs, clocks)
    requires !RaisePass(g0, cats, outs, clocks, n).crashed
    ensures var st := RaisePass(g0, cats, outs, clocks, n);
      (st.minNext == -1 <==> n == 0)
      && (forall i :: 0 <= i < n ==> CandidateAt(g0, cats, outs, clocks, i).Some? && st.minNext <= CandidateAt(g0, cats, outs, clocks, i).value)
  {
    if n > 0 {
      CrashStops(g0, cats, outs, clocks, n - 1, n);
      PassMinimum(g0, cats, outs, clocks, n - 1);
      var prev := RaisePass(g0, cats, outs, clocks, n - 1);
      assert CandidateAt(g0, cats, outs, clocks, n - 1).value >= 0;
      assert RaisePass(g0, cats, outs, clocks, n).minNext == Earlier(prev.minNext, CandidateAt(g0, cats, outs, clocks, n - 1).value);
    }
  }

  /** The minimum of a non-empty, uncrashed pass is the candidate of some category. */
  lemma {:induction false} PassMinimumAttained(g0: map<Option<int>, int>, cats: seq<Category>, outs: seq<FA.RaiseResult>, clocks: seq<Reading>, n: nat)
    returns (j: nat)
    requires 0 < n <= |cats| && n <= |outs| && n <= |clocks| && SaneTimes(outs, clocks)
    requires !RaisePass(g0, cats, outs, clocks, n).crashed
    ensures j < n && CandidateAt(g0, cats, outs, clocks, j) == Some(RaisePass(g0, cats, outs, clocks, n).minNext)
  {
    CrashStops(g0, cats, outs, clocks, n - 1, n);
    var prev := RaisePass(g0, cats, outs, clocks, n - 1);
    var c := CandidateAt(g0, cats, outs, clocks, n - 1);
    assert RaisePass(g0, cats, outs, clocks, n).minNext == Earlier(prev.minNext, c.value);
    if n == 1 || c.value < prev.minNext {
      j := n - 1;
    } else {
      PassMinimum(g0, cats, outs, clocks, n - 1);
      j := PassMinimumAttained(g0, cats, outs, clocks, n - 1);
    }
  }

  /** A game whose stored time is later than every reading of the clock at the
      test keeps that time through the pass, and no category of it is sent a
      raise request. */
  lemma {:induction false} BlockedGameSkipped(g0: map<Option<int>, int>, cats: seq<Category>, outs: seq<FA.RaiseResult>, clocks: seq<Reading>, n: nat, gid: Option<int>)
    requires n <= |cats| && n <= |outs| && n <= |clocks|
    requires gid in g0 && forall i :: 0 <= i < n ==> Blocked(g0, gid, clocks[i].check)
    ensures var st := RaisePass(g0, cats, outs, clocks, n);
      gid in st.gameIds && st.gameIds[gid] == g0[gid]
      && forall k :: 0 <= k < |st.requested| ==> st.requested[k] < n && cats[st.requested[k]].gameId != gid
  {
    if n > 0 {
      BlockedGameSkipped(g0, cats, outs, clocks, n - 1, gid);
      assert Blocked(g0, gid, clocks[n - 1].check);
    }
  }

  /** With a clock that does not go back, it is enough that the game's stored time
      is later than the test of the last category. */
  lemma BlockedUntilLast(g0: map<Option<int>, int>, cats: seq<Category>, outs: seq<FA.RaiseResult>, clocks: seq<Reading>, n: nat, gid: Option<int>)
    requires 0 < n <= |cats| && n <= |outs| && n <= |clocks| && Ticking(clocks)
    requires Blocked(g0, gid, clocks[n - 1].check)
    ensures var st := RaisePass(g0, cats, outs, clocks, n);
      gid in st.gameIds && st.gameIds[gid] == g0[gid]
      && forall k :: 0 <= k < |st.requested| ==> st.requested[k] < n && cats[st.requested[k]].gameId != gid
  {
    forall i | 0 <= i < n
      ensures Blocked(g0, gid, clocks[i].check)
    {
      if i < n - 1 {
        assert clocks[i].check <= clocks[i].done <= clocks[n - 1].check;
      }
    }
    BlockedGameSkipped(g0, cats, outs, clocks, n, gid);
  }

  /** The list of requested categories only grows during the pass. */
  lemma {:induction false} RequestedGrows(g0: map<Option<int>, int>, cats: seq<Category>, outs: seq<FA.RaiseResult>, clocks: seq<Reading>, k: nat, n: nat)
    requires k <= n <= |cats| && n <= |outs| && n <= |clocks|
    ensures var a := RaisePass(g0, cats, outs, clocks, k).requested;
      var b := RaisePass(g0, cats, outs, clocks, n).requested;
      |a| <= |b| && b[..|a|] == a
    decreases n
  {
    if k < n {
      RequestedGrows(g0, cats, outs, clocks, k, n - 1);
      var a := RaisePass(g0, cats, outs, clocks, k).requested;
      var b := RaisePass(g0, cats, outs, clocks, n - 1).requested;
      var c := RaisePass(g0, cats, outs, clocks, n).requested;
      assert c == b || c == b + [n - 1];
      assert c[..|a|] == b[..|a|];
    }
  }

  /** A game whose stored time has passed by the time the pass reaches one of its
      categories has that category raised, even when the time was still ahead at
      the start of the pass. */
  lemma {:induction false} ExpiredMidPass(g0: map<Option<int>, int>, cats: seq<Category>, outs: seq<FA.RaiseResult>, clocks: seq<Reading>, k: nat, n: nat)
    requires k < n <= |cats| && n <= |outs| && n <= |clocks|
    requires !RaisePass(g0, cats, outs, clocks, k).crashed
    requires !Blocked(RaisePass(g0, cats, outs, clocks, k).gameIds, cats[k].gameId, clocks[k].check)
    ensures k in RaisePass(g0, cats, outs, clocks, n).requested
  {
    RequestedAtStep(g0, cats, outs, clocks, k);
    StaysRequested(g0, cats, outs, clocks, k, k + 1, n);
  }

  /** The step of a category that is not blocked requests it. */
  lemma {:induction false} RequestedAtStep(g0: map<Option<int>, int>, cats: seq<Category>, outs: seq<FA.RaiseResult>, clocks: seq<Reading>, k: nat)
    requires k < |cats| && k < |outs| && k < |clocks|
    requires !RaisePass(g0, cats, outs, clocks, k).crashed
    requires !Blocked(RaisePass(g0, cats, outs, clocks, k).gameIds, cats[k].gameId, clocks[k].check)
    ensures k in RaisePass(g0, cats, outs, clocks, k + 1).requested
  {
    var st := RaisePass(g0, cats, outs, clocks, k);
    RaiseStepRequests(st, cats[k], k, clocks[k], outs[k]);
    assert RaisePass(g0, cats, outs, clocks, k + 1).requested == st.requested + [k];
    assert (st.requested + [k])[|st.requested|] == k;
  }

  /** A category once requested stays in the list for the rest of the pass. */
  lemma {:induction false} StaysRequested(g0: map<Option<int>, int>, cats: seq<Category>, outs: seq<FA.RaiseResult>, clocks: seq<Reading>, x: nat, k: nat, n: nat)
    requires k <= n <= |cats| && n <= |outs| && n <= |clocks|
    requires x in RaisePass(g0, cats, outs, clocks, k).requested
    ensures x in RaisePass(g0, cats, outs, clocks, n).requested
    decreases n
  {
    if k < n {
      StaysRequested(g0, cats, outs, clocks, x, k, n - 1);
      var b := RaisePass(g0, cats, outs, clocks, n - 1).requested;
      var c := RaisePass(g0, cats, outs, clocks, n).requested;
      assert c == b || c == b + [n - 1];
    }
  }

  /** A step that neither crashed before nor found its game blocked requests its
      category. */
  lemma RaiseStepRequests(st: RaiseState, cat: Category, i: nat, c: Reading, out: FA.RaiseResult)
    requires !st.crashed && !Blocked(st.gameIds, cat.gameId, c.check)
    ensures RaiseStep(st, cat, i, c, out).requested == st.requested + [i]
  {
  }

  /** No category requested in `req` belongs to game `gid`. */
  predicate NoRequestFor(cats: seq<Category>, req: seq<nat>, gid: Option<int>) {
    forall k :: 0 <= k < |req| && req[k] < |cats| ==> cats[req[k]].gameId != gid
  }

  /** The table only gains entries, and an entry changes only for the game of a
      category whose raise was requested. */
  lemma {:induction false} PassKeepsOtherGames(g0: map<Option<int>, int>, cats: seq<Category>, outs: seq<FA.RaiseResult>, clocks: seq<Reading>, n: nat)
    requires n <= |cats| && n <= |outs| && n <= |clocks|
    ensures var st := RaisePass(g0, cats, outs, clocks, n);
      g0.Keys <= st.gameIds.Keys
      && (forall k :: 0 <= k < |st.requested| ==> st.requested[k] < n)
      && forall gid :: gid in st.gameIds && NoRequestFor(cats, st.requested, gid) ==> gid in g0 && st.gameIds[gid] == g0[gid]
  {
    if n > 0 {
      PassKeepsOtherGames(g0, cats, outs, clocks, n - 1);
      var prev := RaisePass(g0, cats, outs, clocks, n - 1);
      var st := RaisePass(g0, cats, outs, clocks, n);
      if !prev.crashed && !Blocked(prev.gameIds, cats[n - 1].gameId, clocks[n - 1].check) {
        assert st.requested == prev.requested + [n - 1];
        forall gid | gid in st.gameIds && NoRequestFor(cats, st.requested, gid)
          ensures gid in g0 && st.gameIds[gid] == g0[gid]
        {
          assert st.requested[|prev.requested|] == n - 1;
          assert cats[n - 1].gameId != gid;
          forall k | 0 <= k < |prev.requested| && prev.requested[k] < |cats|
            ensures cats[prev.requested[k]].gameId != gid
          {
            assert st.requested[k] == prev.requested[k];
          }
        }
      }
    }
  }

  /** A requested raise that throws leaves the table as it was and offers ten
      seconds after the request; a reply stores the time after the request plus
      the announced wait for the category's game, whether or not the raise
      completed, and changes no other entry. */
  lemma RaiseStepTable(st: RaiseState, cat: Category, i: nat, c: Reading, out: FA.RaiseResult)
    requires !st.crashed && !Blocked(st.gameIds, cat.gameId, c.check)
    ensures var r := RaiseStep(st, cat, i, c, out);
      r.requested == st.requested + [i]
      && (out.RaiseThrew? ==> r.gameIds == st.gameIds && r.minNext == Earlier(st.minNext, c.done + 10))
      && (out.RaiseReply? ==>
            (r.gameIds[cat.gameId] == c.done + out.wait
             && forall gid :: gid != cat.gameId ==>
                  ((gid in r.gameIds <==> gid in st.gameIds) && (gid in st.gameIds ==> r.gameIds[gid] == st.gameIds[gid]))))
      && (out.RaiseNone? <==> r.crashed)
  {
  }

  /** How long the raise loop sleeps after a pass whose result arrives at `later`:
      until the returned time and never a negative amount, or ten seconds after an
      exception. */
  function RaiseDelay(r: RaiseReturn, later: int): (d: int)
    ensures d >= 0
    ensures r.Crashed? ==> d == 10
    ensures r.NextAt? ==> later + d >= r.next && (r.next >= later ==> later + d == r.next)
    ensures r.NextAt? && r.next <= later ==> d == 0
  {
    match r
    case Crashed => 10
    case NextAt(t) =>
      var delay := t - later;
      if delay < 0 then 0 else delay
  }

  // ---------------------------------------------------------------------------
  // Handler dispatch

  /** The registered message handlers: the two built-in ones and those of plugins. */
  datatype Handler = LogMsg | SendResponseWrapper | PluginHandler(name: string)

  /** One invocation of a handler on a message. */
  datatype Call = Call(handler: Handler, message: MessageEvent)

  /** Every handler, in registration order, on one message. */
  function MessageCalls(hs: seq<Handler>, m: MessageEvent): (r: seq<Call>)
    ensures |r| == |hs| && forall j :: 0 <= j < |hs| ==> r[j] == Call(hs[j], m)
  {
    seq(|hs|, j requires 0 <= j < |hs| => Call(hs[j], m))
  }

  /** The calls of one batch of events: the handlers on each new message, nothing
      for a new order. */
  function Dispatch(hs: seq<Handler>, evs: seq<Event>): seq<Call> {
    if evs == [] then []
    else Dispatch(hs, evs[..|evs| - 1]) + (match evs[|evs| - 1]
      case NewMessage(m) => MessageCalls(hs, m)
      case NewOrder(_) => [])
  }

  function NewMessageCount(evs: seq<Event>): nat {
    if evs == [] then 0 else NewMessageCount(evs[..|evs| - 1]) + (if evs[|evs| - 1].NewMessage? then 1 else 0)
  }

  /** The call positions in `threw` below `n`, in increasing order: the handler
      errors that are logged. */
  function ThrewAmong(threw: set<nat>, n: nat): (r: seq<nat>)
    ensures forall k :: 0 <= k < |r| ==> r[k] < n && r[k] in threw
    ensures forall k :: k in threw && k < n ==> k in r
    ensures forall a, b :: 0 <= a < b < |r| ==> r[a] < r[b]
  {
    if n == 0 then [] else ThrewAmong(threw, n - 1) + (if n - 1 in threw then [n - 1] else [])
  }

  /** Dispatch of two batches is the dispatch of the first followed by that of the second. */
  lemma {:induction false} DispatchAppend(hs: seq<Handler>, a: seq<Event>, b: seq<Event>)
    ensures Dispatch(hs, a + b) == Dispatch(hs, a) + Dispatch(hs, b)
    ensures NewMessageCount(a + b) == NewMessageCount(a) + NewMessageCount(b)
    decreases |b|
  {
    if b == [] {
      assert a + b == a;
    } else {
      var b0 := b[..|b| - 1];
      assert (a + b)[..|a + b| - 1] == a + b0;
      assert (a + b)[|a + b| - 1] == b[|b| - 1];
      DispatchAppend(hs, a, b0);
    }
  }

  /** One new message calls every handler once, in order; a new order calls none. */
  lemma DispatchSingle(hs: seq<Handler>, m: MessageEvent, o: OrderEvent)
    ensures Dispatch(hs, [NewMessage(m)]) == MessageCalls(hs, m)
    ensures Dispatch(hs, [NewOrder(o)]) == []
  {
    assert [NewMessage(m)][..0] == [];
    assert [NewOrder(o)][..0] == [];
  }

  /** Every new message of a batch costs one call per handler. */
  lemma {:induction false} DispatchCount(hs: seq<Handler>, evs: seq<Event>)
    ensures |Dispatch(hs, evs)| == |hs| * NewMessageCount(evs)
  {
    if evs != [] {
      var init := evs[..|evs| - 1];
      DispatchCount(hs, init);
      var c := NewMessageCount(init);
      if evs[|evs| - 1].NewMessage? {
        assert NewMessageCount(evs) == c + 1;
        assert |hs| * (c + 1) == |hs| * c + |hs|;
      } else {
        assert NewMessageCount(evs) == c;
      }
    }
  }

  // ---------------------------------------------------------------------------
  // The automatic response

  /** The marketplace's answer to sending the reply: an exception, or the answer's
      parts the code tests (a truthy "response" and its "error" being None). */
  datatype SendReply = SendThrew | SendAnswer(responseTruthy: bool, errorIsNone: bool)

  /** The variables of a response, in the order they are replaced. */
  function ResponseVariables(username: string, d: CT.DateTime): seq<(string, string)>
    requires CT.ValidDate(d)
  {
    [("$username", username), ("$full_date_text", CT.FullDateText(d)),
     ("$date_text", CT.DateText(d)), ("$date", CT.DateDigits(d))]
  }

  function ResponseText(template: string, username: string, d: CT.DateTime): string
    requires CT.ValidDate(d)
  {
    ReplaceAll(template, ResponseVariables(username, d))
  }

  /** The command a message is, when the parser holds its stripped text; the
      parser also holds "DEFAULT". */
  predicate IsCommand(config: map<string, map<string, string>>, text: string) {
    InParser(config, Strip(text))
  }

  /** The reply a message asks for: the filled-in "response" of its command, None
      when it is not a command or its section has no "response". */
  function Response(config: map<string, map<string, string>>, msg: MessageEvent, d: CT.DateTime): (r: Option<string>)
    requires CT.ValidDate(d)
    ensures r.Some? <==> IsCommand(config, msg.messageText) && "response" in SectionOf(config, Strip(msg.messageText))
    ensures r.Some? ==> r.value == ResponseText(config[Strip(msg.messageText)]["response"], msg.senderUsername, d)
  {
    var cmd := Strip(msg.messageText);
    if InParser(config, cmd) && "response" in SectionOf(config, cmd) then
      Some(ResponseText(SectionOf(config, cmd)["response"], msg.senderUsername, d))
    else None
  }

  /** What `send_response` makes of a message before anything is sent: not a
      command (it returns True), a command whose section has no "response" (the
      KeyError), a response the send guard refuses as blank (the exception of
      `send_message`), or the filled-in text to post. */
  datatype Prepared = NotCommand | NoResponse | Refused | Ready(text: string)

  function Prepare(config: map<string, map<string, string>>, msg: MessageEvent, d: CT.DateTime): (p: Prepared)
    requires CT.ValidDate(d)
    ensures p.NotCommand? <==> !IsCommand(config, msg.messageText)
    ensures p.NoResponse? <==> IsCommand(config, msg.messageText) && Response(config, msg, d).None?
    ensures p.Refused? <==> IsCommand(config, msg.messageText) && Response(config, msg, d).Some? && AllSpace(Response(config, msg, d).value)
    ensures p.Ready? ==> Response(config, msg, d) == Some(p.text) && !AllSpace(p.text)
  {
    if !IsCommand(config, msg.messageText) then NotCommand
    else match Response(config, msg, d)
      case None => NoResponse
      case Some(text) =>
        match FA.SendMessageRequest(msg.nodeId, text)
        case Err(_) => Refused
        case Ok(request) => Ready(request.content)
  }

  /** What one `send_response` call returns, given what it prepared and the
      marketplace's `reply`: True at once for a non-command; an exception for a
      missing or refused response and for a send that throws; for a posted reply,
      success when the answer's "response" is truthy and error-free (an exception
      when there is no runner to record it in), False otherwise. */
  function ReplyAttempt(p: Prepared, reply: SendReply, hasRunner: bool): (r: Attempt)
    ensures Succeeded(r) <==> p.NotCommand? || (p.Ready? && reply == SendAnswer(true, true) && hasRunner)
    ensures r == Threw <==>
      p.NoResponse? || p.Refused? || (p.Ready? && (reply.SendThrew? || (reply == SendAnswer(true, true) && !hasRunner)))
  {
    match p
    case NotCommand => Returned(true)
    case NoResponse => Threw
    case Refused => Threw
    case Ready(_) =>
      match reply
      case SendThrew => Threw
      case SendAnswer(truthy, errorNone) =>
        if truthy && errorNone then (if hasRunner then Returned(true) else Threw)
        else Returned(false)
  }

  /** A response template without '$' is sent as written, whoever the sender is. */
  lemma PlainResponseUnchanged(template: string, username: string, d: CT.DateTime)
    requires CT.ValidDate(d) && '$' !in template
    ensures ResponseText(template, username, d) == template
  {
    ReplaceAllUntouched(template, ResponseVariables(username, d));
  }

  /** "$date" is replaced last, so a template that is just "$date" becomes the
      numeric date even though longer variables start with it. */
  lemma DateVariableLast(username: string, d: CT.DateTime)
    requires CT.ValidDate(d)
    ensures ResponseText("$date", username, d) == CT.DateDigits(d)
  {
    var vars := ResponseVariables(username, d);
    LongerNotContained("$date", "$username");
    ReplaceAbsent("$date", "$username", username);
    LongerNotContained("$date", "$full_date_text");
    ReplaceAbsent("$date", "$full_date_text", CT.FullDateText(d));
    LongerNotContained("$date", "$date_text");
    ReplaceAbsent("$date", "$date_text", CT.DateText(d));
    ReplaceWhole("$date", CT.DateDigits(d));
    var v1 := vars[1..];
    var v2 := v1[1..];
    var v3 := v2[1..];
    assert v3[1..] == [];
    assert ReplaceAll("$date", v3) == ReplaceAll(CT.DateDigits(d), []);
    assert ReplaceAll("$date", v2) == ReplaceAll("$date", v3);
    assert ReplaceAll("$date", v1) == ReplaceAll("$date", v2);
    assert ReplaceAll("$date", vars) == ReplaceAll("$date", v1);
  }

  /** The part of `send_response` before the reply is recorded: the command lookup,
      the filled-in template, the send guard and the test of the answer. `sent` is
      the request posted, if any. */
  method PostResponse(config: map<string, map<string, string>>, msg: MessageEvent, d: CT.DateTime,
                      reply: SendReply, hasRunner: bool) returns (r: Attempt, sent: Option<FA.ChatMessageRequest>)
    requires CT.ValidDate(d)
    ensures r == ReplyAttempt(Prepare(config, msg, d), reply, hasRunner)
    ensures sent.Some? <==> Prepare(config, msg, d).Ready?
    ensures sent.Some? ==> sent.value == FA.ChatMessageRequest(msg.nodeId, -1, Prepare(config, msg, d).text)
  {
    r, sent := Returned(true), None;
    if IsCommand(config, msg.messageText) {
      // the command's "response" with its variables filled in; None is the KeyError
      var response := Response(config, msg, d);
      if response.None? {
        r := Threw;
      } else {
        var request := FA.SendMessageRequest(msg.nodeId, response.value);
        if request.Err? {
          r := Threw;
        } else {
          sent := Some(request.value);
          match reply {
            case SendThrew =>
              r := Threw;
            case SendAnswer(truthy, errorNone) =>
              if !(truthy && errorNone) {
                r := Returned(false);
              } else if !hasRunner {
                r := Threw;
              }
          }
        }
      }
    }
  }

  /** The outcomes of the first three calls of the retry loop. */
  function WrapperOutcomes(p: Prepared, replies: seq<SendReply>, hasRunner: bool): (r: seq<Attempt>)
    requires |replies| >= 3
    ensures |r| == 3 && forall i :: 0 <= i < 3 ==> r[i] == ReplyAttempt(p, replies[i], hasRunner)
  {
    seq(3, i requires 0 <= i < 3 => ReplyAttempt(p, replies[i], hasRunner))
  }

  /** None of the first `m` attempts succeeded. */
  predicate FailedBefore(outs: seq<Attempt>, m: nat)
    requires m <= |outs|
  {
    forall i :: 0 <= i < m ==> !Succeeded(outs[i])
  }

  /** One more failure extends the run of failed attempts. */
  lemma FailedOneMore(outs: seq<Attempt>, m: nat)
    requires m < |outs| && FailedBefore(outs, m) && !Succeeded(outs[m])
    ensures FailedBefore(outs, m + 1)
  {
  }

  /** Where the retry loop stops: after three failures, or right after the first
      success, it has made exactly the calls `Retries` counts. */
  lemma WrapperCount(outs: seq<Attempt>, calls: nat, done: bool)
    requires |outs| == 3 && calls <= 3
    requires forall i :: 0 <= i < calls - (if done then 1 else 0) ==> !Succeeded(outs[i])
    requires done ==> calls > 0 && Succeeded(outs[calls - 1])
    requires !done ==> calls == 3
    ensures calls == Retries(outs) && (done <==> exists i :: 0 <= i < 3 && Succeeded(outs[i]))
  {
    RetriesStopAtFirstSuccess(outs);
    if done {
      RetriesAfterFailures(outs, calls - 1);
      assert outs[calls - 1..][0] == outs[calls - 1];
    } else {
      RetriesAfterFailures(outs, 3);
      assert outs[3..] == [];
    }
  }

  /** A message that is not a command takes exactly one call; a command whose
      section has no response is tried three times and given up. */
  lemma WrapperCalls(config: map<string, map<string, string>>, msg: MessageEvent, d: CT.DateTime,
                     replies: seq<SendReply>, hasRunner: bool)
    requires CT.ValidDate(d) && |replies| >= 3
    ensures var outs := WrapperOutcomes(Prepare(config, msg, d), replies, hasRunner);
      (!IsCommand(config, msg.messageText) ==> Retries(outs) == 1 && Succeeded(outs[0]))
      && (IsCommand(config, msg.messageText) && "response" !in SectionOf(config, Strip(msg.messageText)) ==>
            Retries(outs) == 3 && forall i :: 0 <= i < 3 ==> !Succeeded(outs[i]))
  {
    var outs := WrapperOutcomes(Prepare(config, msg, d), replies, hasRunner);
    if IsCommand(config, msg.messageText) && "response" !in SectionOf(config, Strip(msg.messageText)) {
      RetriesAfterFailures(outs, 3);
      assert outs[3..] == [];
    }
  }

  /** The message "DEFAULT" passes the command test, since every parser holds
      that name, and then fails on the missing "response" three times. */
  lemma DefaultTriedThrice(config: map<string, map<string, string>>, msg: MessageEvent, d: CT.DateTime,
                           replies: seq<SendReply>, hasRunner: bool)
    requires CT.ValidDate(d) && |replies| >= 3
    requires Strip(msg.messageText) == "DEFAULT" && "DEFAULT" !in config
    ensures IsCommand(config, msg.messageText)
    ensures var outs := WrapperOutcomes(Prepare(config, msg, d), replies, hasRunner);
      Retries(outs) == 3 && forall i :: 0 <= i < 3 ==> outs[i] == Threw
  {
    WrapperCalls(config, msg, d, replies, hasRunner);
  }

  // As written, `send_response` builds the record of the reply with a fifth
  // argument, the message's send time, which neither the message nor the
  // record constructor has; reading it raises before the reply is sent.

  /** One `send_response` call as written: True for a non-command, and an
      exception for every command, before anything is sent. */
  function ReplyAttemptAsWritten(p: Prepared): (r: Attempt)
    ensures Succeeded(r) <==> p.NotCommand?
    ensures !p.NotCommand? ==> r == Threw
  {
    if p.NotCommand? then Returned(true) else Threw
  }

  /** The first three calls of the retry loop as written. */
  function WrapperOutcomesAsWritten(p: Prepared): (r: seq<Attempt>)
    ensures |r| == 3 && forall i :: 0 <= i < 3 ==> r[i] == ReplyAttemptAsWritten(p)
  {
    [ReplyAttemptAsWritten(p), ReplyAttemptAsWritten(p), ReplyAttemptAsWritten(p)]
  }

  /** As written, no command is ever answered: every command takes three calls,
      each raising, whatever the marketplace would answer, while the intended
      reply succeeds at once when the marketplace accepts it. */
  lemma AsWrittenNoCommandAnswered(config: map<string, map<string, string>>, msg: MessageEvent, d: CT.DateTime,
                                  replies: seq<SendReply>)
    requires CT.ValidDate(d) && |replies| >= 3 && IsCommand(config, msg.messageText)
    ensures var outs := WrapperOutcomesAsWritten(Prepare(config, msg, d));
      Retries(outs) == 3 && forall i :: 0 <= i < 3 ==> outs[i] == Threw
    ensures Prepare(config, msg, d).Ready? && replies[0] == SendAnswer(true, true) ==>
      Retries(WrapperOutcomes(Prepare(config, msg, d), replies, true)) == 1
  {
    var outs := WrapperOutcomesAsWritten(Prepare(config, msg, d));
    RetriesAfterFailures(outs, 3);
    assert outs[3..] == [];
  }

  // ---------------------------------------------------------------------------
  // The bot object

  class Cardinal {
    var running: bool
    /** None until the categories are loaded. */
    var categories: Option<seq<Category>>
    var gameIds: map<Option<int>, int>
    var messageHandlers: seq<Handler>
    /** The automatic-response configuration: section (command) -> parameters. */
    var autoResponse: map<string, map<string, string>>
    var runner: R.MessageRunner?

    constructor (autoResponse: map<string, map<string, string>>)
      ensures !running && categories == None && gameIds == map[] && messageHandlers == []
      ensures this.autoResponse == autoResponse && runner == null
    {
      running := false;
      categories := None;
      gameIds := map[];
      messageHandlers := [];
      this.autoResponse := autoResponse;
      runner := null;
    }

    /** Creates the runner and registers the two built-in handlers after any
        already registered. */
    method InitRunner(accountId: int, messageTag: string, orderTag: string, chatsHtml: string)
      modifies this
      ensures fresh(runner) && runner.accountId == accountId && runner.firstRequest && runner.lastMessages == map[]
      ensures messageHandlers == old(messageHandlers) + [LogMsg, SendResponseWrapper]
      ensures running == old(running) && categories == old(categories) && gameIds == old(gameIds)
      ensures autoResponse == old(autoResponse)
    {
      runner := new R.MessageRunner(accountId, messageTag, orderTag, chatsHtml);
      messageHandlers := messageHandlers + [LogMsg];
      messageHandlers := messageHandlers + [SendResponseWrapper];
    }

    /** `raise_lots`: one pass over the categories; `outcomes[i]` is what raising
        category `i` returns and `clocks[i]` what the clock reads in its turn. It also returns the indices of the categories
        for which a raise was requested. Without loaded categories the loop throws. */
    method RaiseLots(clocks: seq<Reading>, outcomes: seq<FA.RaiseResult>) returns (r: RaiseReturn, requested: seq<nat>)
      requires categories.Some? ==> |outcomes| >= |categories.value| && |clocks| >= |categories.value|
      modifies this
      ensures old(categories).None? ==> r == Crashed && requested == [] && gameIds == old(gameIds)
      ensures old(categories).Some? ==>
        var st := RaisePass(old(gameIds), old(categories).value, outcomes, clocks, |old(categories).value|);
        gameIds == st.gameIds && requested == st.requested && r == (if st.crashed then Crashed else NextAt(st.minNext))
      ensures running == old(running) && categories == old(categories) && messageHandlers == old(messageHandlers)
      ensures autoResponse == old(autoResponse) && runner == old(runner)
    {
      if categories.None? {
        return Crashed, [];
      }
      var cats := categories.value;
      ghost var g0 := gameIds;
      var minNextTime := -1;
      requested := [];
      var i := 0;
      while i < |cats|
        invariant 0 <= i <= |cats|
        invariant RaisePass(g0, cats, outcomes, clocks, i) == RaiseState(gameIds, minNextTime, requested, false)
        invariant running == old(running) && categories == old(categories) && messageHandlers == old(messageHandlers)
        invariant autoResponse == old(autoResponse) && runner == old(runner)
      {
        var cat := cats[i];
        var clock := clocks[i];
        if cat.gameId in gameIds && gameIds[cat.gameId] > clock.check {
          if minNextTime == -1 || gameIds[cat.gameId] < minNextTime {
            minNextTime := gameIds[cat.gameId];
          }
          i := i + 1;
          continue;
        }
        requested := requested + [i];
        var response := outcomes[i];
        if response.RaiseThrew? {
          var nextTime := clock.done + 10;
          if minNextTime == -1 || nextTime < minNextTime {
            minNextTime := nextTime;
          }
          i := i + 1;
          continue;
        }
        if response.RaiseNone? {
          // reading "complete" of None throws out of the pass
          CrashStops(g0, cats, outcomes, clocks, i + 1, |cats|);
          return Crashed, requested;
        }
        // throttled or raised: either way the game waits the announced time
        var nextTime := clock.done + response.wait;
        gameIds := gameIds[cat.gameId := nextTime];
        if minNextTime == -1 || nextTime < minNextTime {
          minNextTime := nextTime;
        }
        i := i + 1;
      }
      return NextAt(minNextTime), requested;
    }

    /** One turn of the raise loop: a pass with the clock readings `clocks`, then
        the sleep computed when the pass returns at `later`. */
    method RaiseIteration(clocks: seq<Reading>, later: int, outcomes: seq<FA.RaiseResult>) returns (r: RaiseReturn, delay: int)
      requires categories.Some? ==> |outcomes| >= |categories.value| && |clocks| >= |categories.value|
      modifies this
      ensures old(categories).Some? ==>
        var st := RaisePass(old(gameIds), old(categories).value, outcomes, clocks, |old(categories).value|);
        gameIds == st.gameIds && r == (if st.crashed then Crashed else NextAt(st.minNext))
      ensures old(categories).None? ==> r == Crashed && delay == 10 && gameIds == old(gameIds)
      ensures delay == RaiseDelay(r, later)
      ensures running == old(running) && categories == old(categories) && messageHandlers == old(messageHandlers)
      ensures autoResponse == old(autoResponse) && runner == old(runner)
    {
      var requested;
      r, requested := RaiseLots(clocks, outcomes);
      delay := if r.Crashed? then 10 else if r.next - later < 0 then 0 else r.next - later;
    }

    /** `run_handlers` on one batch of events: each new message goes to every
        handler in order; the calls at positions in `threw` raise, are logged and
        do not stop the ones after them. */
    method RunHandlers(events: seq<Event>, threw: set<nat>) returns (calls: seq<Call>, errors: seq<nat>)
      ensures calls == Dispatch(messageHandlers, events)
      ensures errors == ThrewAmong(threw, |calls|)
    {
      calls := [];
      errors := [];
      var hs := messageHandlers;
      var i := 0;
      while i < |events|
        invariant 0 <= i <= |events|
        invariant calls == Dispatch(hs, events[..i]) && errors == ThrewAmong(threw, |calls|)
      {
        assert events[..i + 1][..i] == events[..i];
        match events[i] {
          case NewMessage(m) =>
            ghost var before := calls;
            var j := 0;
            while j < |hs|
              invariant 0 <= j <= |hs|
              invariant calls == before + MessageCalls(hs, m)[..j] && errors == ThrewAmong(threw, |calls|)
            {
              assert MessageCalls(hs, m)[..j + 1] == MessageCalls(hs, m)[..j] + [Call(hs[j], m)];
              if |calls| in threw {
                errors := errors + [|calls|];
              }
              calls := calls + [Call(hs[j], m)];
              j := j + 1;
            }
            assert MessageCalls(hs, m)[..|hs|] == MessageCalls(hs, m);
          case NewOrder(_) =>
        }
        i := i + 1;
      }
      assert events[..|events|] == events;
    }

    /** `send_response` on one message, dated `d`, with the marketplace answering
        `reply`. It returns what the call yields and the request it posted. On
        success the reply becomes the runner's last message of that chat, so the
        runner does not report the bot's own answer. */
    method SendResponse(msg: MessageEvent, d: CT.DateTime, reply: SendReply)
      returns (r: Attempt, sent: Option<FA.ChatMessageRequest>)
      requires CT.ValidDate(d)
      modifies runner
      ensures r == ReplyAttempt(Prepare(autoResponse, msg, d), reply, runner != null)
      ensures sent.Some? <==> Prepare(autoResponse, msg, d).Ready?
      ensures sent.Some? ==> sent.value == FA.ChatMessageRequest(msg.nodeId, -1, Prepare(autoResponse, msg, d).text)
      ensures runner != null ==>
        runner.lastMessages == if sent.Some? && r == Returned(true)
          then old(runner.lastMessages)[msg.nodeId := MessageEvent(msg.nodeId, sent.value.content, msg.senderUsername, msg.tag)]
          else old(runner.lastMessages)
      ensures runner != null ==> runner.messageTag == old(runner.messageTag) && runner.orderTag == old(runner.orderTag)
      ensures runner != null ==> runner.firstRequest == old(runner.firstRequest) && runner.chatsHtml == old(runner.chatsHtml)
    {
      r, sent := PostResponse(autoResponse, msg, d, reply, runner != null);
      if sent.Some? && r == Returned(true) {
        runner.UpdateLastMessage(MessageEvent(msg.nodeId, sent.value.content, msg.senderUsername, msg.tag));
      }
    }

    /** `send_response_wrapper`: at most three calls, stopping after the first that
        returns True; an exception or False costs one attempt. `replies[k]` is the
        answer to the k-th call's send. */
    method SendResponseWrapperLoop(msg: MessageEvent, d: CT.DateTime, replies: seq<SendReply>)
      returns (calls: nat, done: bool)
      requires CT.ValidDate(d) && |replies| >= 3
      modifies runner
      ensures var outs := WrapperOutcomes(Prepare(autoResponse, msg, d), replies, runner != null);
        calls == Retries(outs) && (done <==> exists i :: 0 <= i < 3 && Succeeded(outs[i]))
      ensures runner != null ==>
        runner.lastMessages == if done && Prepare(autoResponse, msg, d).Ready?
          then old(runner.lastMessages)[msg.nodeId := MessageEvent(msg.nodeId, Prepare(autoResponse, msg, d).text, msg.senderUsername, msg.tag)]
          else old(runner.lastMessages)
    {
      ghost var p := Prepare(autoResponse, msg, d);
      ghost var outs := WrapperOutcomes(p, replies, runner != null);
      ghost var before := if runner != null then runner.lastMessages else map[];
      ghost var answered := if p.Ready? then before[msg.nodeId := MessageEvent(msg.nodeId, p.text, msg.senderUsername, msg.tag)] else before;
      done := false;
      var attempts := 3;
      calls := 0;
      while !done && attempts > 0
        invariant 0 <= attempts <= 3 && calls == 3 - attempts + (if done then 1 else 0) && calls <= 3
        invariant FailedBefore(outs, 3 - attempts)
        invariant done ==> calls == 4 - attempts && Succeeded(outs[3 - attempts])
        invariant runner != null ==> runner.lastMessages == if done && p.Ready? then answered else before
      {
        assert outs[calls] == ReplyAttempt(p, replies[calls], runner != null);
        var result, _ := SendResponse(msg, d, replies[calls]);
        assert result == ReplyAttempt(p, replies[calls], runner != null);
        calls := calls + 1;
        if result.Threw? || !result.truthy {
          // an exception or a falsy answer costs one attempt
          FailedOneMore(outs, 3 - attempts);
          attempts := attempts - 1;
        } else {
          done := true;
        }
      }
      WrapperCount(outs, calls, done);
    }

    method Run()
      modifies this
      ensures running
      ensures categories == old(categories) && gameIds == old(gameIds) && messageHandlers == old(messageHandlers)
      ensures autoResponse == old(autoResponse) && runner == old(runner)
    {
      running := true;
    }

    method Stop()
      modifies this
      ensures !running
      ensures categories == old(categories) && gameIds == old(gameIds) && messageHandlers == old(messageHandlers)
      ensures autoResponse == old(autoResponse) && runner == old(runner)
    {
      running := false;
    }
  }
}
