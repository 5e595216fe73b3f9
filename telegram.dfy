/** The Telegram side of the bot: who is authorized, which chats receive
    notifications, which users are in the middle of answering a marketplace chat,
    and the registry of command help texts. Sending a Telegram message, answering
    a callback and writing the cache files are I/O and are not modelled; every
    call into the bot's core (forwarding an answer) is given as a parameter. */
module Telegram {
  import opened Types
  import opened Strings

  // ---------------------------------------------------------------------------
  // Reply statuses: chat id -> user id -> status text

  type Statuses = map<int, map<int, string>>

  /** The status text that marks a user as answering a marketplace chat. */
  const ReplyPrefix: string := "reply_to_node_id:"

  /** The status of `user` in `chat`, if there is one. */
  function Entry(s: Statuses, chat: int, user: int): Option<string> {
    if chat in s && user in s[chat] then Some(s[chat][user]) else None
  }

  /** `check_user_replying_to_node`: the user has a status in that chat and it is
      a reply status. */
  predicate IsReplying(s: Statuses, chat: int, user: int) {
    chat in s && user in s[chat] && StartsWith(s[chat][user], ReplyPrefix)
  }

  /** The reply filter reads exactly the user's own entry. */
  lemma IsReplyingEntry(s: Statuses, chat: int, user: int)
    ensures IsReplying(s, chat, user) <==> Entry(s, chat, user).Some? && StartsWith(Entry(s, chat, user).value, ReplyPrefix)
  {
  }

  /** The chat's map is created when missing and the user's status is set in it. */
  function SetStatus(s: Statuses, chat: int, user: int, status: string): Statuses {
    s[chat := (if chat in s then s[chat] else map[])[user := status]]
  }

  /** `statuses[chat].pop(user)`; the chat's (possibly empty) map stays. */
  function PopStatus(s: Statuses, chat: int, user: int): Statuses
    requires chat in s
  {
    s[chat := s[chat] - {user}]
  }

  /** Setting a status changes that one entry and no other. */
  lemma SetStatusEntry(s: Statuses, chat: int, user: int, status: string, c: int, u: int)
    ensures Entry(SetStatus(s, chat, user, status), c, u) == if c == chat && u == user then Some(status) else Entry(s, c, u)
  {
  }

  /** Popping a status removes that one entry and no other. */
  lemma PopStatusEntry(s: Statuses, chat: int, user: int, c: int, u: int)
    requires chat in s
    ensures Entry(PopStatus(s, chat, user), c, u) == if c == chat && u == user then None else Entry(s, c, u)
  {
  }

  /** The callback data that `reply_to_node_id:`-buttons carry always has a second
      `:`-separated piece, so the reply status is well defined. */
  lemma SplitAfterPrefix(rest: string)
    ensures Split(ReplyPrefix + rest, ':') == ["reply_to_node_id"] + Split(rest, ':')
  {
    assert ReplyPrefix + rest == "reply_to_node_id" + [':'] + rest;
    SplitConcat("reply_to_node_id", rest, ':');
    SplitNoSep("reply_to_node_id", ':');
  }

  /** `f"reply_to_node_id:{data.split(':')[1]}"` for callback data that starts with
      the prefix (the callback handler's filter). */
  function ReplyStatus(data: string): (r: string)
    requires StartsWith(data, ReplyPrefix)
    ensures StartsWith(r, ReplyPrefix)
  {
    SplitAfterPrefix(data[|ReplyPrefix|..]);
    assert data == ReplyPrefix + data[|ReplyPrefix|..];
    var r := ReplyPrefix + Split(data, ':')[1];
    assert r[..|ReplyPrefix|] == ReplyPrefix;
    r
  }

  /** `int(status.split(":")[1])`, None where Python raises. */
  function NodeIdOf(status: string): Option<int> {
    var parts := Split(status, ':');
    if |parts| < 2 then None else ParseInt(parts[1])
  }

  /** The node id a reply button for chat `n` carries (handlers.py builds the
      callback data as `reply_to_node_id:{node_id}`) survives into the stored
      status and is read back unchanged when the answer is forwarded. */
  lemma ButtonRoundTrip(n: int)
    ensures StartsWith(ReplyPrefix + IntToString(n), ReplyPrefix)
    ensures ReplyStatus(ReplyPrefix + IntToString(n)) == ReplyPrefix + IntToString(n)
    ensures NodeIdOf(ReplyStatus(ReplyPrefix + IntToString(n))) == Some(n)
  {
    var d := IntToString(n);
    assert (ReplyPrefix + d)[..|ReplyPrefix|] == ReplyPrefix;
    assert (ReplyPrefix + d)[|ReplyPrefix|..] == d;
    IntToStringShape(n);
    assert ':' !in d by {
      forall k | 0 <= k < |d| ensures d[k] != ':' {
      }
    }
    SplitAfterPrefix(d);
    SplitNoSep(d, ':');
    ParseIntToString(n);
  }

  /** What happens to a Telegram answer that is to be forwarded. */
  datatype ReplyOutcome =
    | NotInitialized            // the bot has no core yet; the user is told so
    | Forwarded(event: MessageEvent)
    | ForwardFailed(event: MessageEvent)
    | Crashed                   // an exception before the forward; nothing changes

  /** The statuses and the outcome after `send_reply_message`. */
  datatype ReplyStep = ReplyStep(statuses: Statuses, outcome: ReplyOutcome)

  /** `send_reply_message`: without the core the status is dropped; with it the
      node id is read from the status, the answer is forwarded to that chat and the
      status is dropped whether or not the forward succeeded. A missing entry or a
      node id that does not parse raises before anything changes. */
  function SendReplyStep(s: Statuses, chat: int, user: int, text: string, hasCore: bool, forwardOk: bool): ReplyStep {
    if !hasCore then
      if Entry(s, chat, user).Some? then ReplyStep(PopStatus(s, chat, user), NotInitialized)
      else ReplyStep(s, NotInitialized)
    else if Entry(s, chat, user).None? then ReplyStep(s, Crashed)
    else match NodeIdOf(s[chat][user])
      case None => ReplyStep(s, Crashed)
      case Some(n) =>
        var e := MessageEvent(n, text, "", "");
        ReplyStep(PopStatus(s, chat, user), if forwardOk then Forwarded(e) else ForwardFailed(e))
  }

  /** A user who is answering leaves the answering state after the attempt, whether
      the forward succeeded or failed and also when the core is missing, provided
      the status names a node; the answer goes to exactly that node, and the
      statuses of everybody else stay as they were. */
  lemma ReplyCleared(s: Statuses, chat: int, user: int, text: string, hasCore: bool, forwardOk: bool)
    requires IsReplying(s, chat, user)
    requires hasCore ==> NodeIdOf(s[chat][user]).Some?
    ensures var st := SendReplyStep(s, chat, user, text, hasCore, forwardOk);
      !IsReplying(st.statuses, chat, user) &&
      (forall c, u :: (c != chat || u != user) ==> Entry(st.statuses, c, u) == Entry(s, c, u)) &&
      (hasCore ==> var e := MessageEvent(NodeIdOf(s[chat][user]).value, text, "", "");
        st.outcome == if forwardOk then Forwarded(e) else ForwardFailed(e))
  {
    forall c, u | c != chat || u != user
      ensures Entry(PopStatus(s, chat, user), c, u) == Entry(s, c, u)
    {
      PopStatusEntry(s, chat, user, c, u);
    }
  }

  /** `send_reply_message` as written: the record of the answer is built with
      five arguments where the record constructor takes four, which raises
      inside the outer `try` before the forward; the status is then not dropped.
      Without the core it behaves as intended. */
  function SendReplyStepAsWritten(s: Statuses, chat: int, user: int, text: string, hasCore: bool): (r: ReplyStep)
    ensures hasCore ==> r == ReplyStep(s, Crashed)
    ensures !hasCore ==> forall ok: bool :: r == SendReplyStep(s, chat, user, text, false, ok)
  {
    if !hasCore then
      if Entry(s, chat, user).Some? then ReplyStep(PopStatus(s, chat, user), NotInitialized)
      else ReplyStep(s, NotInitialized)
    else ReplyStep(s, Crashed)
  }

  /** As written, an answering user whose status names a node stays in the
      answering state and nothing is forwarded, where the intended step forwards
      the answer and clears the state. */
  lemma AsWrittenReplyingStays(s: Statuses, chat: int, user: int, text: string, forwardOk: bool)
    requires IsReplying(s, chat, user) && NodeIdOf(s[chat][user]).Some?
    ensures var st := SendReplyStepAsWritten(s, chat, user, text, true);
      IsReplying(st.statuses, chat, user) && st.outcome == Crashed
    ensures !IsReplying(SendReplyStep(s, chat, user, text, true, forwardOk).statuses, chat, user)
  {
    ReplyCleared(s, chat, user, text, true, forwardOk);
  }

  /** A status whose node id does not parse is kept: the user stays in the
      answering state. */
  lemma BadNodeIdKept(s: Statuses, chat: int, user: int, text: string, forwardOk: bool)
    requires IsReplying(s, chat, user) && NodeIdOf(s[chat][user]).None?
    ensures SendReplyStep(s, chat, user, text, true, forwardOk) == ReplyStep(s, Crashed)
  {
  }

  // ---------------------------------------------------------------------------
  // Lists without repetitions

  predicate NoDup(s: seq<int>) {
    forall i, j :: 0 <= i < j < |s| ==> s[i] != s[j]
  }

  /** `list.remove(x)`: the first occurrence of `x` taken out. */
  function RemoveFirst(s: seq<int>, x: int): (r: seq<int>)
    ensures |r| == if x in s then |s| - 1 else |s|
  {
    if s == [] then []
    else if s[0] == x then s[1..]
    else [s[0]] + RemoveFirst(s[1..], x)
  }

  /** The position of the first occurrence of `x`. */
  function IndexOf(s: seq<int>, x: int): (i: nat)
    requires x in s
    ensures i < |s| && s[i] == x && x !in s[..i]
  {
    if s[0] == x then 0
    else
      var i := 1 + IndexOf(s[1..], x);
      assert s[..i] == [s[0]] + s[1..][..i - 1];
      i
  }

  /** `remove` cuts out the first occurrence. */
  lemma {:induction false} RemoveFirstCut(s: seq<int>, x: int)
    requires x in s
    ensures RemoveFirst(s, x) == s[..IndexOf(s, x)] + s[IndexOf(s, x) + 1..]
  {
    if s[0] != x {
      RemoveFirstCut(s[1..], x);
      var i := IndexOf(s[1..], x);
      assert s[..i + 1] == [s[0]] + s[1..][..i];
      assert s[i + 2..] == s[1..][i + 1..];
    }
  }

  /** The list after `remove`, position by position. */
  lemma RemoveFirstAt(s: seq<int>, x: int, k: nat)
    requires x in s && k < |RemoveFirst(s, x)|
    ensures var i := IndexOf(s, x);
      RemoveFirst(s, x)[k] == if k < i then s[k] else s[k + 1]
  {
    RemoveFirstCut(s, x);
  }

  /** Removing an element that is present takes out exactly one copy of it and
      keeps the rest. */
  lemma RemoveFirstMultiset(s: seq<int>, x: int)
    requires x in s
    ensures multiset(RemoveFirst(s, x)) == multiset(s) - multiset{x}
  {
    var i := IndexOf(s, x);
    RemoveFirstCut(s, x);
    var a, b := s[..i], s[i + 1..];
    assert s == a + [x] + b;
    assert multiset(s) == multiset(a) + multiset{x} + multiset(b);
    assert multiset(RemoveFirst(s, x)) == multiset(a) + multiset(b);
  }

  /** A list without repetitions keeps no copy of the removed element and stays
      without repetitions. */
  lemma RemoveFirstNoDup(s: seq<int>, x: int)
    requires x in s && NoDup(s)
    ensures NoDup(RemoveFirst(s, x)) && x !in RemoveFirst(s, x)
  {
    var i := IndexOf(s, x);
    var r := RemoveFirst(s, x);
    RemoveFirstMultiset(s, x);
    forall p, q | 0 <= p < q < |r| ensures r[p] != r[q] {
      RemoveFirstAt(s, x, p);
      RemoveFirstAt(s, x, q);
    }
    forall k | 0 <= k < |r| ensures r[k] != x {
      RemoveFirstAt(s, x, k);
    }
  }

  /** Adding an absent chat and removing it again gives the list back. */
  lemma {:induction false} AddRemoveRoundTrip(s: seq<int>, x: int)
    requires x !in s
    ensures RemoveFirst(s + [x], x) == s
  {
    if s != [] {
      assert (s + [x])[1..] == s[1..] + [x];
      AddRemoveRoundTrip(s[1..], x);
      assert [s[0]] + s[1..] == s;
    } else {
      assert s + [x] == [x];
    }
  }

  /** Appending an absent element keeps a list without repetitions. */
  lemma AppendNoDup(s: seq<int>, x: int)
    requires NoDup(s) && x !in s
    ensures NoDup(s + [x])
  {
    forall i, j | 0 <= i < j < |s + [x]| ensures (s + [x])[i] != (s + [x])[j] {
      if j == |s| {
        assert (s + [x])[i] == s[i];
      }
    }
  }

  // ---------------------------------------------------------------------------
  // Ordered dictionaries (Python dicts keep insertion order)

  type Dict<V> = seq<(string, V)>

  predicate DistinctKeys<V>(d: Dict<V>) {
    forall i, j :: 0 <= i < j < |d| ==> d[i].0 != d[j].0
  }

  /** The position of key `k`, or `|d|` when it is absent. */
  function Find<V>(d: Dict<V>, k: string): (i: nat)
    ensures i <= |d|
    ensures i < |d| ==> d[i].0 == k
    ensures forall j :: 0 <= j < i ==> d[j].0 != k
  {
    if d == [] then 0
    else if d[0].0 == k then 0
    else 1 + Find(d[1..], k)
  }

  /** `d.get(k)`. */
  function Get<V>(d: Dict<V>, k: string): Option<V> {
    var i := Find(d, k);
    if i < |d| then Some(d[i].1) else None
  }

  /** `d[k] = v`: an existing key keeps its place, a new key goes last. */
  function Put<V>(d: Dict<V>, k: string, v: V): Dict<V> {
    var i := Find(d, k);
    if i < |d| then d[i := (k, v)] else d + [(k, v)]
  }

  /** Two dictionaries whose keys agree position by position, the second possibly
      longer by entries without key `k`, find `k` at the same place. */
  lemma FindAgrees<V>(d1: Dict<V>, d2: Dict<V>, k: string)
    requires |d1| <= |d2|
    requires forall t :: 0 <= t < |d1| ==> d2[t].0 == d1[t].0
    requires forall t :: |d1| <= t < |d2| ==> d2[t].0 != k
    ensures Find(d2, k) == if Find(d1, k) < |d1| then Find(d1, k) else |d2|
  {
  }

  /** Reading after writing: the written key has the new value, every other key
      its old one. */
  lemma PutGet<V>(d: Dict<V>, k: string, v: V, k2: string)
    ensures Get(Put(d, k, v), k2) == if k2 == k then Some(v) else Get(d, k2)
  {
    var i := Find(d, k);
    var p := Put(d, k, v);
    assert forall t :: 0 <= t < |d| ==> p[t].0 == d[t].0;
    if i < |d| {
      FindAgrees(d, p, k2);
      if k2 != k {
        assert Find(p, k2) != i;
      }
    } else if k2 != k {
      FindAgrees(d, p, k2);
    } else {
      assert p[|d|].0 == k;
    }
  }

  /** A second write of the same key overrides the first. */
  lemma PutPut<V>(d: Dict<V>, k: string, v1: V, v2: V)
    ensures Put(Put(d, k, v1), k, v2) == Put(d, k, v2)
  {
    var p := Put(d, k, v1);
    assert forall t :: 0 <= t < |d| ==> p[t].0 == d[t].0;
    if Find(d, k) < |d| {
      FindAgrees(d, p, k);
    } else {
      assert p[|d|].0 == k;
    }
  }

  /** Writing keeps the order of the keys: an existing key keeps its place and a
      new key is appended at the end. */
  lemma PutOrder<V>(d: Dict<V>, k: string, v: V)
    ensures Get(d, k).Some? ==> |Put(d, k, v)| == |d|
    ensures Get(d, k).None? ==> |Put(d, k, v)| == |d| + 1 && Put(d, k, v)[|d|] == (k, v)
    ensures forall t :: 0 <= t < |d| ==> Put(d, k, v)[t].0 == d[t].0
  {
  }

  /** Writing keeps the keys distinct. */
  lemma PutDistinct<V>(d: Dict<V>, k: string, v: V)
    requires DistinctKeys(d)
    ensures DistinctKeys(Put(d, k, v))
  {
    var i := Find(d, k);
    var p := Put(d, k, v);
    assert forall t :: 0 <= t < |d| ==> p[t].0 == d[t].0;
  }

  // ---------------------------------------------------------------------------
  // The help text

  type Commands = Dict<string>

  /** The pieces one after the other. */
  function Concat(parts: seq<string>): string {
    if parts == [] then "" else Concat(parts[..|parts| - 1]) + parts[|parts| - 1]
  }

  lemma ConcatSnoc(parts: seq<string>, x: string)
    ensures Concat(parts + [x]) == Concat(parts) + x
  {
    assert (parts + [x])[..|parts|] == parts;
  }

  lemma {:induction false} ConcatAppend(a: seq<string>, b: seq<string>)
    ensures Concat(a + b) == Concat(a) + Concat(b)
  {
    if b == [] {
      assert a + b == a;
    } else {
      var bi := b[..|b| - 1];
      assert a + b == (a + bi) + [b[|b| - 1]];
      ConcatSnoc(a + bi, b[|b| - 1]);
      ConcatAppend(a, bi);
      ConcatSnoc(bi, b[|b| - 1]);
      assert bi + [b[|b| - 1]] == b;
    }
  }

  lemma ContainsLeft(a: string, b: string, sub: string)
    requires Contains(a, sub)
    ensures Contains(a + b, sub)
  {
    var i: nat :| i <= |a| && MatchAt(a, sub, i);
    assert (a + b)[i..i + |sub|] == a[i..i + |sub|];
    assert MatchAt(a + b, sub, i);
  }

  lemma ContainsRight(a: string, b: string, sub: string)
    requires Contains(b, sub)
    ensures Contains(a + b, sub)
  {
    var i: nat :| i <= |b| && MatchAt(b, sub, i);
    assert (a + b)[|a| + i..|a| + i + |sub|] == b[i..i + |sub|];
    assert MatchAt(a + b, sub, |a| + i);
  }

  lemma ContainsSelf(s: string)
    ensures Contains(s, s)
  {
    assert MatchAt(s, s, 0);
  }

  /** What one piece contains, the whole contains. */
  lemma {:induction false} ConcatContains(parts: seq<string>, k: nat, sub: string)
    requires k < |parts| && Contains(parts[k], sub)
    ensures Contains(Concat(parts), sub)
  {
    var init := parts[..|parts| - 1];
    if k == |parts| - 1 {
      ContainsRight(Concat(init), parts[k], sub);
    } else {
      assert init[k] == parts[k];
      ConcatContains(init, k, sub);
      ContainsLeft(Concat(init), parts[|parts| - 1], sub);
    }
  }

  /** One line of the help: the command and its text, indented. */
  function CommandLine(c: (string, string)): string {
    "    " + c.0 + " - " + c.1 + "\n"
  }

  function Lines(cmds: Commands): (r: seq<string>)
    ensures |r| == |cmds| && forall j :: 0 <= j < |cmds| ==> r[j] == CommandLine(cmds[j])
  {
    seq(|cmds|, j requires 0 <= j < |cmds| => CommandLine(cmds[j]))
  }

  function CommandLines(cmds: Commands): string {
    Concat(Lines(cmds))
  }

  /** A module's part of the help: its name on a line of its own, then its
      commands; nothing for a module without commands. */
  function ModuleBlock(m: (string, Commands)): string {
    if m.1 == [] then "" else "\n" + m.0 + "\n" + CommandLines(m.1)
  }

  function Blocks(d: Dict<Commands>): (r: seq<string>)
    ensures |r| == |d| && forall i :: 0 <= i < |d| ==> r[i] == ModuleBlock(d[i])
  {
    seq(|d|, i requires 0 <= i < |d| => ModuleBlock(d[i]))
  }

  /** The help text before the final `strip()`: the modules' parts in order. */
  function HelpBody(d: Dict<Commands>): string {
    Concat(Blocks(d))
  }

  /** The help of the first i + 1 modules is that of the first i and then the
      block of module i. */
  lemma HelpBodySnoc(d: Dict<Commands>, i: nat)
    requires i < |d|
    ensures HelpBody(d[..i + 1]) == HelpBody(d[..i]) + ModuleBlock(d[i])
  {
    assert Blocks(d[..i + 1]) == Blocks(d[..i]) + [ModuleBlock(d[i])];
    ConcatSnoc(Blocks(d[..i]), ModuleBlock(d[i]));
  }

  /** Every command of every module has its line in the help, and every module
      with commands its header; in the stripped text the bot shows, each of these
      appears without the whitespace around it. */
  lemma HelpListsCommand(d: Dict<Commands>, i: nat, j: nat)
    requires i < |d| && j < |d[i].1|
    ensures Contains(HelpBody(d), CommandLine(d[i].1[j]))
    ensures Contains(HelpBody(d), "\n" + d[i].0 + "\n")
    ensures Contains(Strip(HelpBody(d)), Strip(CommandLine(d[i].1[j])))
    ensures Contains(Strip(HelpBody(d)), Strip(d[i].0))
  {
    var m := d[i];
    var line := CommandLine(m.1[j]);
    var header := "\n" + m.0 + "\n";
    ContainsSelf(line);
    ConcatContains(Lines(m.1), j, line);
    ContainsRight(header, CommandLines(m.1), line);
    ConcatContains(Blocks(d), i, line);
    ContainsSelf(header);
    ContainsLeft(header, CommandLines(m.1), header);
    ConcatContains(Blocks(d), i, header);
    StripContains(HelpBody(d), line);
    StripContains(HelpBody(d), header);
    StripHeader(m.0);
  }

  /** The header line of a module, stripped, is the module's name stripped. */
  lemma StripHeader(name: string)
    ensures Strip("\n" + name + "\n") == Strip(name)
  {
    assert IsSpace('\n');
    StripAround("\n", name, "\n");
  }

  /** The help line of a command whose name and text are free of surrounding
      whitespace shows, once stripped, as `cmd - text`. */
  lemma CommandLineStripped(c: (string, string))
    requires c.0 != [] && !IsSpace(c.0[0]) && c.1 != [] && !IsSpace(c.1[|c.1| - 1])
    ensures Strip(CommandLine(c)) == c.0 + " - " + c.1
  {
    var x := c.0 + " - " + c.1;
    assert x[0] == c.0[0] && x[|x| - 1] == c.1[|c.1| - 1];
    assert CommandLine(c) == "    " + x + "\n";
    StripPadded("    ", x, "\n");
  }

  /** The help of two registries one after the other is the two helps one after
      the other. */
  lemma HelpBodyAppend(a: Dict<Commands>, b: Dict<Commands>)
    ensures HelpBody(a + b) == HelpBody(a) + HelpBody(b)
  {
    assert Blocks(a + b) == Blocks(a) + Blocks(b);
    ConcatAppend(Blocks(a), Blocks(b));
  }

  /** A module without commands contributes nothing, wherever it stands. */
  lemma HelpSkipsEmpty(a: Dict<Commands>, name: string, b: Dict<Commands>)
    ensures HelpBody(a + [(name, [])] + b) == HelpBody(a + b)
  {
    var empty: Dict<Commands> := [(name, [])];
    assert Blocks(a + empty + b) == Blocks(a) + [""] + Blocks(b);
    ConcatAppend(Blocks(a) + [""], Blocks(b));
    ConcatSnoc(Blocks(a), "");
    HelpBodyAppend(a, b);
  }

  /** The registry every bot starts with. */
  const InitialHelp: Dict<Commands> := [
    ("FunPayCardinal", [
      ("/add_chat", "добавляет чат в список чатов для уведомлений."),
      ("/remove_chat", "удаляет чат и списка чатов для уведомлений."),
      ("/menu", "открывает меню.")])]

  /** Module names are distinct and so are the commands inside each module. */
  predicate WellFormedHelp(d: Dict<Commands>) {
    DistinctKeys(d) && forall i :: 0 <= i < |d| ==> DistinctKeys(d[i].1)
  }

  /** `add_command_help` as a value: the module is created when missing and only
      that command is set or overwritten. */
  function WithCommand(d: Dict<Commands>, plugin: string, command: string, help: string): Dict<Commands> {
    var cmds := match Get(d, plugin) case Some(c) => c case None => [];
    Put(d, plugin, Put(cmds, command, help))
  }

  /** After registering a command the module holds it with the new text, every
      other command of the module and every other module is unchanged, and the
      registry stays well formed. */
  lemma WithCommandSpec(d: Dict<Commands>, plugin: string, command: string, help: string, m2: string, c2: string)
    ensures var r := WithCommand(d, plugin, command, help);
      Get(r, plugin).Some? && Get(Get(r, plugin).value, command) == Some(help)
    ensures var r := WithCommand(d, plugin, command, help);
      m2 != plugin ==> Get(r, m2) == Get(d, m2)
    ensures var r := WithCommand(d, plugin, command, help);
      Get(d, plugin).Some? && c2 != command ==> Get(Get(r, plugin).value, c2) == Get(Get(d, plugin).value, c2)
  {
    var cmds := match Get(d, plugin) case Some(c) => c case None => [];
    PutGet(d, plugin, Put(cmds, command, help), plugin);
    PutGet(d, plugin, Put(cmds, command, help), m2);
    PutGet(cmds, command, help, command);
    PutGet(cmds, command, help, c2);
  }

  lemma WithCommandWellFormed(d: Dict<Commands>, plugin: string, command: string, help: string)
    requires WellFormedHelp(d)
    ensures WellFormedHelp(WithCommand(d, plugin, command, help))
  {
    var cmds := match Get(d, plugin) case Some(c) => c case None => [];
    var i := Find(d, plugin);
    assert DistinctKeys(cmds) by {
      if i < |d| {
        assert DistinctKeys(d[i].1);
      }
    }
    var nc := Put(cmds, command, help);
    PutDistinct(cmds, command, help);
    PutDistinct(d, plugin, nc);
    var r := Put(d, plugin, nc);
    forall t | 0 <= t < |r| ensures DistinctKeys(r[t].1) {
      if t < |d| && t != i {
        assert r[t] == d[t];
      }
    }
  }

  /** A command registered under any module appears in the help text, and in
      the stripped text the bot shows as its line without the surrounding
      whitespace; for a command name and text without surrounding whitespace that
      is `command - help`. */
  lemma RegisteredCommandListed(d: Dict<Commands>, plugin: string, command: string, help: string)
    ensures Contains(HelpBody(WithCommand(d, plugin, command, help)), CommandLine((command, help)))
    ensures Contains(Strip(HelpBody(WithCommand(d, plugin, command, help))), Strip(CommandLine((command, help))))
    ensures command != [] && !IsSpace(command[0]) && help != [] && !IsSpace(help[|help| - 1]) ==>
      Contains(Strip(HelpBody(WithCommand(d, plugin, command, help))), command + " - " + help)
  {
    var cmds := match Get(d, plugin) case Some(c) => c case None => [];
    var nc := Put(cmds, command, help);
    var r := Put(d, plugin, nc);
    var i := Find(r, plugin);
    PutGet(d, plugin, nc, plugin);
    PutGet(cmds, command, help, command);
    var j := Find(nc, command);
    assert r[i].1 == nc;
    HelpListsCommand(r, i, j);
    if command != [] && !IsSpace(command[0]) && help != [] && !IsSpace(help[|help| - 1]) {
      CommandLineStripped((command, help));
    }
  }

  // ---------------------------------------------------------------------------
  // MarkdownV2 escaping

  /** The characters `send_notification` prefixes with a backslash, in the order
      it handles them. */
  const EscapeChars: string := "_*[]()~`>#+-=|{}.!"

  lemma EscapeCharsDistinct()
    ensures forall i, j :: 0 <= i < j < |EscapeChars| ==> EscapeChars[i] != EscapeChars[j]
    ensures '\\' !in EscapeChars
  {
  }

  function EscapeChar(c: char, cs: string): string {
    if c in cs then ['\\', c] else [c]
  }

  /** Every character of `cs` prefixed with a backslash, all others kept. */
  function EscapeWith(s: string, cs: string): string {
    if s == [] then [] else EscapeChar(s[0], cs) + EscapeWith(s[1..], cs)
  }

  /** The escaped form of a notification, character by character. */
  function Escape(s: string): string {
    EscapeWith(s, EscapeChars)
  }

  /** The escaping read back: a backslash followed by one of the escaped
      characters stands for that character. */
  function Unescape(s: string): string {
    if s == [] then []
    else if |s| >= 2 && s[0] == '\\' && s[1] in EscapeChars then [s[1]] + Unescape(s[2..])
    else [s[0]] + Unescape(s[1..])
  }

  lemma {:induction false} EscapeWithNone(s: string)
    ensures EscapeWith(s, "") == s
  {
    if s != [] {
      EscapeWithNone(s[1..]);
      assert [s[0]] + s[1..] == s;
    }
  }

  /** One more `replace`: with a character not yet handled and other than the
      backslash, the text escaped for `cs` becomes the text escaped for `cs + [c]`. */
  lemma {:induction false} EscapeStep(s: string, cs: string, c: char)
    requires c !in cs && c != '\\'
    ensures ReplaceChar(EscapeWith(s, cs), c, ['\\', c]) == EscapeWith(s, cs + [c])
  {
    if s != [] {
      EscapeStep(s[1..], cs, c);
      ReplaceCharConcat(EscapeChar(s[0], cs), EscapeWith(s[1..], cs), c, ['\\', c]);
      var e := EscapeChar(s[0], cs);
      if s[0] in cs {
        assert e[1..] == [s[0]];
        assert ReplaceChar(e, c, ['\\', c]) == e;
      } else if s[0] == c {
        assert ReplaceChar([c], c, ['\\', c]) == ['\\', c];
      } else {
        assert ReplaceChar(e, c, ['\\', c]) == e;
      }
    }
  }

  /** The escaped text starts with a character that is not itself escaped. */
  lemma EscapeHead(s: string)
    requires s != []
    ensures Escape(s) != [] && Escape(s)[0] !in EscapeChars
  {
    EscapeCharsDistinct();
  }

  /** Escaping loses nothing: reading the escapes back gives the text. */
  lemma {:induction false} UnescapeEscape(s: string)
    ensures Unescape(Escape(s)) == s
  {
    if s != [] {
      var e := Escape(s);
      var rest := Escape(s[1..]);
      assert e == EscapeChar(s[0], EscapeChars) + rest;
      UnescapeEscape(s[1..]);
      EscapeCharsDistinct();
      if s[0] in EscapeChars {
        assert e[2..] == rest;
      } else if s[0] == '\\' {
        assert e[1..] == rest;
        if s[1..] != [] {
          EscapeHead(s[1..]);
        }
      } else {
        assert e[1..] == rest;
      }
      assert [s[0]] + s[1..] == s;
    }
  }

  /** The loop over the escape characters of `send_notification`. */
  method EscapeMarkdown(text: string) returns (r: string)
    ensures r == Escape(text)
  {
    EscapeCharsDistinct();
    r := text;
    EscapeWithNone(text);
    assert EscapeChars[..0] == "";
    var i := 0;
    while i < |EscapeChars|
      invariant 0 <= i <= |EscapeChars|
      invariant r == EscapeWith(text, EscapeChars[..i])
    {
      var c := EscapeChars[i];
      assert c !in EscapeChars[..i];
      ReplaceOneChar(r, c, ['\\', c]);
      EscapeStep(text, EscapeChars[..i], c);
      assert EscapeChars[..i] + [c] == EscapeChars[..i + 1];
      r := Replace(r, [c], ['\\', c]);
      i := i + 1;
    }
    assert EscapeChars[..i] == EscapeChars;
  }

  /** One module's turn of the loop in `generate_help_text`: nothing for a module
      without commands, else its header line and one line per command. */
  method AppendModule(text: string, m: (string, Commands)) returns (t: string)
    ensures t == text + ModuleBlock(m)
  {
    if |m.1| == 0 {
      return text;
    }
    var start := text + "\n" + m.0 + "\n";
    t := start;
    var j := 0;
    while j < |m.1|
      invariant 0 <= j <= |m.1|
      invariant t == start + CommandLines(m.1[..j])
    {
      assert Lines(m.1[..j + 1]) == Lines(m.1[..j]) + [CommandLine(m.1[j])];
      ConcatSnoc(Lines(m.1[..j]), CommandLine(m.1[j]));
      t := t + "    " + m.1[j].0 + " - " + m.1[j].1 + "\n";
      j := j + 1;
    }
    assert m.1[..j] == m.1;
  }

  /** Administrator registration's reply. */
  datatype AdminReply = Trusted | AskPassword | Silent

  // ---------------------------------------------------------------------------
  // The bot

  class TGBot {
    var authorizedUsers: seq<int>
    var chatIds: seq<int>
    var userReplyStatuses: Statuses
    var commandsHelp: Dict<Commands>

    /** The help registry is a dictionary of dictionaries. */
    ghost predicate Valid()
      reads this
    {
      WellFormedHelp(commandsHelp)
    }

    /** The lists read from the cache files, nobody answering, and the bot's own
        three commands in the help registry. */
    constructor (authorized: seq<int>, chats: seq<int>)
      ensures Valid()
      ensures authorizedUsers == authorized && chatIds == chats
      ensures userReplyStatuses == map[] && commandsHelp == InitialHelp
    {
      authorizedUsers := authorized;
      chatIds := chats;
      userReplyStatuses := map[];
      commandsHelp := InitialHelp;
    }

    /** `reg_admin`, which the bot routes only messages of unauthorized users to:
        the secret key sent in a private chat authorizes the sender. */
    method RegAdmin(user: int, text: string, secretKey: string, isPrivate: bool) returns (reply: AdminReply)
      modifies this
      ensures authorizedUsers == if text == secretKey && isPrivate then old(authorizedUsers) + [user] else old(authorizedUsers)
      ensures reply == if !isPrivate then Silent else if text == secretKey then Trusted else AskPassword
      ensures user !in old(authorizedUsers) && NoDup(old(authorizedUsers)) ==> NoDup(authorizedUsers)
      ensures chatIds == old(chatIds) && userReplyStatuses == old(userReplyStatuses) && commandsHelp == old(commandsHelp)
    {
      if text == secretKey {
        if !isPrivate {
          return Silent;
        }
        if user !in authorizedUsers && NoDup(authorizedUsers) {
          AppendNoDup(authorizedUsers, user);
        }
        authorizedUsers := authorizedUsers + [user];
        reply := Trusted;
      } else {
        if !isPrivate {
          return Silent;
        }
        reply := AskPassword;
      }
    }

    /** The `reply_to_node_id:` callback: the user starts answering the chat the
        button names. */
    method Reply(chat: int, user: int, data: string)
      requires StartsWith(data, ReplyPrefix)
      modifies this
      ensures userReplyStatuses == SetStatus(old(userReplyStatuses), chat, user, ReplyStatus(data))
      ensures IsReplying(userReplyStatuses, chat, user)
      ensures authorizedUsers == old(authorizedUsers) && chatIds == old(chatIds) && commandsHelp == old(commandsHelp)
    {
      var statuses := userReplyStatuses;
      if chat !in statuses {
        statuses := statuses[chat := map[]];
      }
      statuses := statuses[chat := statuses[chat][user := ReplyStatus(data)]];
      userReplyStatuses := statuses;
    }

    /** The cancel button: a user who is answering stops; for anybody else nothing
        changes. */
    method CancelReply(chat: int, user: int) returns (cancelled: bool)
      modifies this
      ensures cancelled <==> old(IsReplying(userReplyStatuses, chat, user))
      ensures userReplyStatuses == if cancelled then PopStatus(old(userReplyStatuses), chat, user) else old(userReplyStatuses)
      ensures !IsReplying(userReplyStatuses, chat, user)
      ensures authorizedUsers == old(authorizedUsers) && chatIds == old(chatIds) && commandsHelp == old(commandsHelp)
    {
      cancelled := IsReplying(userReplyStatuses, chat, user);
      if cancelled {
        userReplyStatuses := userReplyStatuses[chat := userReplyStatuses[chat] - {user}];
      }
    }

    /** `send_reply_message`, routed only messages of users who are answering:
        `hasCore` says whether the core is attached, `forwardOk` whether its
        `send_message` returns without raising. */
    method SendReplyMessage(chat: int, user: int, text: string, hasCore: bool, forwardOk: bool) returns (out: ReplyOutcome)
      modifies this
      ensures userReplyStatuses == SendReplyStep(old(userReplyStatuses), chat, user, text, hasCore, forwardOk).statuses
      ensures out == SendReplyStep(old(userReplyStatuses), chat, user, text, hasCore, forwardOk).outcome
      ensures authorizedUsers == old(authorizedUsers) && chatIds == old(chatIds) && commandsHelp == old(commandsHelp)
    {
      var has := chat in userReplyStatuses && user in userReplyStatuses[chat];
      if !hasCore {
        if has {
          userReplyStatuses := userReplyStatuses[chat := userReplyStatuses[chat] - {user}];
        }
        return NotInitialized;
      }
      if !has {
        return Crashed;
      }
      var node := NodeIdOf(userReplyStatuses[chat][user]);
      if node.None? {
        return Crashed;
      }
      var event := MessageEvent(node.value, text, "", "");
      out := if forwardOk then Forwarded(event) else ForwardFailed(event);
      userReplyStatuses := userReplyStatuses[chat := userReplyStatuses[chat] - {user}];
    }

    /** `/add_chat`: the chat is added only when it is not in the list yet. */
    method AddChat(chat: int) returns (added: bool)
      modifies this
      ensures added <==> chat !in old(chatIds)
      ensures chatIds == if added then old(chatIds) + [chat] else old(chatIds)
      ensures chat in chatIds
      ensures NoDup(old(chatIds)) ==> NoDup(chatIds)
      ensures authorizedUsers == old(authorizedUsers) && userReplyStatuses == old(userReplyStatuses) && commandsHelp == old(commandsHelp)
    {
      if chat in chatIds {
        added := false;
      } else {
        if NoDup(chatIds) {
          AppendNoDup(chatIds, chat);
        }
        chatIds := chatIds + [chat];
        added := true;
      }
    }

    /** `/remove_chat`: the chat is removed only when it is in the list. */
    method RemoveChat(chat: int) returns (removed: bool)
      modifies this
      ensures removed <==> chat in old(chatIds)
      ensures chatIds == if removed then RemoveFirst(old(chatIds), chat) else old(chatIds)
      ensures NoDup(old(chatIds)) ==> NoDup(chatIds) && chat !in chatIds
      ensures authorizedUsers == old(authorizedUsers) && userReplyStatuses == old(userReplyStatuses) && commandsHelp == old(commandsHelp)
    {
      if chat !in chatIds {
        removed := false;
      } else {
        RemoveFirstMultiset(chatIds, chat);
        if NoDup(chatIds) {
          RemoveFirstNoDup(chatIds, chat);
        }
        chatIds := RemoveFirst(chatIds, chat);
        removed := true;
      }
    }

    /** `send_notification`: the text is escaped, then the replacements are applied
        in list order (so their own text is not escaped), and the result is sent to
        every notification chat in list order; a failed send does not stop the
        others. */
    method SendNotification(text: string, reps: seq<(string, string)>) returns (message: string, sends: seq<(int, string)>)
      ensures message == ReplaceAll(Escape(text), reps)
      ensures |sends| == |chatIds|
      ensures forall k :: 0 <= k < |sends| ==> sends[k] == (chatIds[k], message)
    {
      var escaped := EscapeMarkdown(text);
      message := ApplyReplacements(escaped, reps);
      sends := [];
      var k := 0;
      while k < |chatIds|
        invariant 0 <= k <= |chatIds|
        invariant |sends| == k
        invariant forall t :: 0 <= t < k ==> sends[t] == (chatIds[t], message)
      {
        sends := sends + [(chatIds[k], message)];
        k := k + 1;
      }
    }

    /** `generate_help_text`. */
    method GenerateHelpText() returns (r: string)
      ensures r == Strip(HelpBody(commandsHelp))
    {
      var help := commandsHelp;
      var text := "";
      var i := 0;
      while i < |help|
        invariant 0 <= i <= |help|
        invariant text == HelpBody(help[..i])
      {
        HelpBodySnoc(help, i);
        text := AppendModule(text, help[i]);
        i := i + 1;
      }
      assert help[..i] == help;
      r := Strip(text);
    }

    /** `add_command_help`. */
    method AddCommandHelp(plugin: string, command: string, help: string)
      requires Valid()
      modifies this
      ensures Valid()
      ensures commandsHelp == WithCommand(old(commandsHelp), plugin, command, help)
      ensures authorizedUsers == old(authorizedUsers) && chatIds == old(chatIds) && userReplyStatuses == old(userReplyStatuses)
    {
      WithCommandWellFormed(commandsHelp, plugin, command, help);
      if Get(commandsHelp, plugin).None? {
        PutGet(commandsHelp, plugin, [], plugin);
        PutPut(commandsHelp, plugin, [], Put([], command, help));
        commandsHelp := Put(commandsHelp, plugin, []);
      }
      var cmds := Get(commandsHelp, plugin).value;
      commandsHelp := Put(commandsHelp, plugin, Put(cmds, command, help));
    }
  }
}
