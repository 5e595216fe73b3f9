/** The bot's event handlers: which new messages are forwarded to Telegram, the
    command answer and its three attempts, the raised-categories notice, product
    delivery with its take / put-back of a product, and the re-activation of lots
    that disappeared from the seller's page. What a send, a fetch or a product file
    yields is passed in: a send is an `Attempt`, a fetch an `Option` (None when it
    threw), a product file a `ProductStore`. */
module Handlers {
  import opened Types
  import opened Strings
  import CT = CardinalTools
  import UT = UtilsTools

  /** A configuration read from an ini file: its sections by name, each a map of
      parameters. */
  type Config = map<string, map<string, string>>

  // ---------------------------------------------------------------------------
  // New-message notification (handlers.py:49-73)
  // ---------------------------------------------------------------------------

  /** What is handed to the Telegram bot: the text, its placeholder replacements
      and the chat a reply button answers. */
  datatype Notification = Notification(text: string, replacements: seq<(string, string)>, replyTo: Option<int>)

  /** FunPay's own notices in a chat: a buyer or seller role word together with
      a refund, payment or review phrase. */
  predicate IsServiceMessage(text: string) {
    && (Contains(text, "Покупатель") || Contains(text, "Продавец"))
    && (Contains(text, "вернул деньги") || Contains(text, "оплатил заказ") || Contains(text, "оставил отзыв"))
  }

  /** The Markdown link to the sender's chat. */
  function UserLink(msg: MessageEvent): string {
    "[" + msg.senderUsername + "](https://funpay.com/chat?node=" + IntToString(msg.nodeId) + ")"
  }

  /** The notification text: a header naming the sender by the "$userlink"
      placeholder, then the message itself. */
  function NewMessageText(text: string): (r: string)
    ensures |text| <= |r| && r[|r| - |text|..] == text
    ensures StartsWith(r, "Новое сообщение в переписке с пользователем $userlink.")
  {
    var head := "Новое сообщение в переписке с пользователем $userlink.";
    var r := head + "\n\n" + text;
    assert r[|r| - |text|..] == text;
    assert r[..|head|] == head;
    r
  }

  /** The notification about a new message, or None when nothing is sent: there
      is no bot, the setting is off, the message is a command or it is a service
      notice. */
  function NewMessageNotification(hasTelegram: bool, enabled: bool, commands: Config, msg: MessageEvent): (r: Option<Notification>)
    ensures r.None? <==>
      (!hasTelegram || !enabled || Strip(msg.messageText) in commands || IsServiceMessage(msg.messageText))
    ensures r.Some? ==> r.value.replyTo == Some(msg.nodeId) && r.value.replacements == [("$userlink", UserLink(msg))]
    ensures r.Some? ==> r.value.text == NewMessageText(msg.messageText)
  {
    if !hasTelegram || !enabled then None
    else if Strip(msg.messageText) in commands then None
    else if IsServiceMessage(msg.messageText) then None
    else Some(Notification(NewMessageText(msg.messageText), [("$userlink", UserLink(msg))], Some(msg.nodeId)))
  }

  /** A command is never forwarded, whatever the other settings. */
  lemma CommandsNotForwarded(hasTelegram: bool, enabled: bool, commands: Config, msg: MessageEvent)
    requires Strip(msg.messageText) in commands
    ensures NewMessageNotification(hasTelegram, enabled, commands, msg).None?
  {
  }

  /** A role word alone, without one of the service phrases, does not hold a
      message back. */
  lemma RoleWordAloneForwarded(commands: Config, msg: MessageEvent)
    requires Strip(msg.messageText) !in commands
    requires !Contains(msg.messageText, "вернул деньги") && !Contains(msg.messageText, "оплатил заказ")
    requires !Contains(msg.messageText, "оставил отзыв")
    ensures NewMessageNotification(true, true, commands, msg).Some?
  {
  }

  // ---------------------------------------------------------------------------
  // Command answer (handlers.py:76-128)
  // ---------------------------------------------------------------------------

  /** The key the handler checks a message against: its text stripped and
      lower-cased. */
  function CommandKey(text: string): string {
    Lower(Strip(text))
  }

  /** The handler's guard: automatic answers are on and the parser holds the
      key (a parser also holds "DEFAULT"). */
  predicate AnswerGuard(enabled: bool, config: Config, msg: MessageEvent) {
    enabled && InParser(config, CommandKey(msg.messageText))
  }

  /** The parser holds the section `key` and the section has a "response". */
  predicate HasResponse(config: Config, key: string) {
    InParser(config, key) && "response" in SectionOf(config, key)
  }

  // As written, `send_response` looks the section up by the stripped text
  // without lower-casing it, and builds the record of the answer with a fifth
  // argument, the message's send time, which neither the message nor the record
  // constructor has. Every call therefore raises: on the lookup, or on reading
  // the send time before anything is sent.

  /** Which exception one `send_response` call as written raises. */
  datatype AnswerFault = KeyMissing | NoSendTime

  function AnswerFaultAsWritten(config: Config, msg: MessageEvent): (f: AnswerFault)
    ensures f == KeyMissing <==> !HasResponse(config, Strip(msg.messageText))
    ensures f == NoSendTime <==> HasResponse(config, Strip(msg.messageText))
  {
    if HasResponse(config, Strip(msg.messageText)) then NoSendTime else KeyMissing
  }

  /** The outcomes of the three attempts as written: each one raises, whatever
      the configuration and the message. */
  function AnswerOutcomesAsWritten(config: Config, msg: MessageEvent): (r: seq<Attempt>)
    ensures |r| == 3 && forall i :: 0 <= i < 3 ==> r[i] == Threw
  {
    [Threw, Threw, Threw]
  }

  /** As written, no message is ever answered: a message that passes the guard
      takes three calls and none succeeds; only a configured section with a
      response gets as far as the send time. */
  lemma AsWrittenNeverAnswered(enabled: bool, config: Config, msg: MessageEvent)
    requires AnswerGuard(enabled, config, msg)
    ensures var outs := AnswerOutcomesAsWritten(config, msg);
      Retries(outs) == 3 && forall i :: 0 <= i < 3 ==> !Succeeded(outs[i])
  {
    var outs := AnswerOutcomesAsWritten(config, msg);
    RetriesAfterFailures(outs, 3);
    assert outs[3..] == [];
  }

  /** As written, a message whose lower-cased key names a section while its
      plain stripped text does not passes the guard and raises the KeyError of
      the lookup. */
  lemma AsWrittenCaseMismatchKeyError(enabled: bool, config: Config, msg: MessageEvent)
    requires enabled && CommandKey(msg.messageText) in config && Strip(msg.messageText) !in config
    ensures AnswerGuard(enabled, config, msg)
    ensures AnswerFaultAsWritten(config, msg) == KeyMissing
  {
  }

  /** Such a message: the command "hello" and the message "Hello". */
  lemma CaseMismatchExample()
    ensures var config: Config := map["hello" := map["response" := "Привет!"]];
      var msg := MessageEvent(1, "Hello", "buyer", "tag");
      CommandKey(msg.messageText) in config && Strip(msg.messageText) !in config
      && AnswerFaultAsWritten(config, msg) == KeyMissing
  {
    TrimmedIsFixed("Hello");
    assert Lower("Hello") == "hello";
  }

  /** One `send_response` call looking the section up by the key the guard
      checked and recording the answer with the four fields of a message: the
      send's outcome exactly when that section has a response. */
  function AnswerAttempt(config: Config, msg: MessageEvent, send: Attempt): (r: Attempt)
    ensures HasResponse(config, CommandKey(msg.messageText)) ==> r == send
    ensures !HasResponse(config, CommandKey(msg.messageText)) ==> r == Threw
  {
    if HasResponse(config, CommandKey(msg.messageText)) then send else Threw
  }

  /** The outcomes of the three attempts with the checked key. */
  function AnswerOutcomes(config: Config, msg: MessageEvent, sends: seq<Attempt>): (r: seq<Attempt>)
    requires |sends| >= 3
    ensures |r| == 3 && forall i :: 0 <= i < 3 ==> r[i] == AnswerAttempt(config, msg, sends[i])
  {
    seq(3, i requires 0 <= i < 3 => AnswerAttempt(config, msg, sends[i]))
  }

  /** With the checked key and the four-field record, a configured command whose
      send succeeds at once is answered on the first attempt. */
  lemma ConfiguredCommandAnsweredAtOnce(config: Config, msg: MessageEvent, sends: seq<Attempt>)
    requires |sends| >= 3 && Succeeded(sends[0])
    requires HasResponse(config, CommandKey(msg.messageText))
    ensures Retries(AnswerOutcomes(config, msg, sends)) == 1
  {
  }

  /** The answer to a message: the response of the section its key names,
      filled in with the message's variables; None when there is none. */
  function AnswerText(config: Config, msg: MessageEvent, d: CT.DateTime): (r: Option<string>)
    requires CT.ValidDate(d)
    ensures r.Some? <==> HasResponse(config, CommandKey(msg.messageText))
    ensures r.Some? ==>
      r.value == ReplaceAll(config[CommandKey(msg.messageText)]["response"], UT.MsgVariables(d, msg))
  {
    var key := CommandKey(msg.messageText);
    if HasResponse(config, key) then Some(ReplaceAll(SectionOf(config, key)["response"], UT.MsgVariables(d, msg)))
    else None
  }

  /** One `send_response` call: the outcome and, when the section has one, the
      response text filled in with the message's variables. */
  method SendAnswer(config: Config, msg: MessageEvent, d: CT.DateTime, send: Attempt)
    returns (r: Attempt, text: Option<string>)
    requires CT.ValidDate(d)
    ensures r == AnswerAttempt(config, msg, send)
    ensures text == AnswerText(config, msg, d)
  {
    var key := CommandKey(msg.messageText);
    if HasResponse(config, key) {
      var t := UT.FormatMsgText(SectionOf(config, key)["response"], msg, d);
      r, text := send, Some(t);
    } else {
      r, text := Threw, None;
    }
  }

  lemma FailuresExtend(outs: seq<Attempt>, n: nat)
    requires n < |outs| && !Succeeded(outs[n])
    requires forall i :: 0 <= i < n ==> !Succeeded(outs[i])
    ensures forall i :: 0 <= i < n + 1 ==> !Succeeded(outs[i])
  {
  }

  /** `send_response_handler`: nothing when the guard fails; otherwise up to three
      attempts, stopping after the first that succeeds. */
  method SendResponseHandler(enabled: bool, config: Config, msg: MessageEvent, d: CT.DateTime, sends: seq<Attempt>)
    returns (calls: nat, done: bool)
    requires CT.ValidDate(d) && |sends| >= 3
    ensures !AnswerGuard(enabled, config, msg) ==> calls == 0 && !done
    ensures AnswerGuard(enabled, config, msg) ==>
      var outs := AnswerOutcomes(config, msg, sends);
      calls == Retries(outs) && (done <==> exists i :: 0 <= i < 3 && Succeeded(outs[i]))
  {
    calls, done := 0, false;
    if AnswerGuard(enabled, config, msg) {
      ghost var outs := AnswerOutcomes(config, msg, sends);
      var attempts := 3;
      while !done && attempts > 0
        invariant 0 <= attempts <= 3 && calls == 3 - attempts && !done
        invariant forall i :: 0 <= i < calls ==> !Succeeded(outs[i])
      {
        var result, _ := SendAnswer(config, msg, d, sends[calls]);
        assert result == outs[calls];
        calls := calls + 1;
        if result.Threw? || !result.truthy {
          FailuresExtend(outs, calls - 1);
          attempts := attempts - 1;
        } else {
          done := true;
          break;
        }
      }
      if done {
        RetriesAfterFailures(outs, calls - 1);
        assert outs[calls - 1..][0] == outs[calls - 1];
      } else {
        RetriesAfterFailures(outs, 3);
        assert outs[3..] == [];
      }
      RetriesStopAtFirstSuccess(outs);
    }
  }

  // ---------------------------------------------------------------------------
  // Raised-categories notification (handlers.py:156-173)
  // ---------------------------------------------------------------------------

  function Quoted(name: string): string {
    "\"" + name + "\""
  }

  function QuotedNames(names: seq<string>): (r: seq<string>)
    ensures |r| == |names| && forall i :: 0 <= i < |names| ==> r[i] == Quoted(names[i])
  {
    seq(|names|, i requires 0 <= i < |names| => Quoted(names[i]))
  }

  /** Each name quoted and followed by ", ", run together. */
  function QuotedList(names: seq<string>): string {
    if names == [] then [] else Quoted(names[0]) + ", " + QuotedList(names[1..])
  }

  /** The names' text: the run-together list stripped, with its last character
      (the trailing comma) cut off. */
  function CatsText(names: seq<string>): string {
    var s := Strip(QuotedList(names));
    if s == [] then s else s[..|s| - 1]
  }

  lemma {:induction false} QuotedListIsJoin(names: seq<string>)
    requires names != []
    ensures QuotedList(names) == Join(QuotedNames(names), ", ") + ", "
  {
    if |names| > 1 {
      QuotedListIsJoin(names[1..]);
      assert QuotedNames(names)[1..] == QuotedNames(names[1..]);
    }
  }

  /** The quoted names joined by ", ": each name in quotes, no separator after
      the last, and "" for no names. */
  lemma CatsTextIsJoin(names: seq<string>)
    ensures CatsText(names) == Join(QuotedNames(names), ", ")
  {
    if names != [] {
      QuotedListIsJoin(names);
      var x := Join(QuotedNames(names), ", ");
      assert x[0] == '"';
      var t := x + ",";
      assert t[0] == '"' && t[|t| - 1] == ',';
      StripTrailingSpace(t);
      assert QuotedList(names) == t + " ";
    }
  }

  /** The notice text for a game, the names' text and the wait in seconds. */
  function RaisedText(gameId: int, cats: string, wait: int): string {
    "Поднял категории: " + cats + ". (ID игры: " + IntToString(gameId) + ")\n"
      + "Попробую еще раз через " + UT.TimeToStr(wait) + "."
  }

  /** The notice about raised categories, or None without a bot or with the
      setting off; the names appear quoted and joined by ", ". */
  function RaisedNotification(hasTelegram: bool, enabled: bool, gameId: int, names: seq<string>, wait: int): (r: Option<string>)
    ensures r.Some? <==> hasTelegram && enabled
    ensures r.Some? ==> r.value == RaisedText(gameId, Join(QuotedNames(names), ", "), wait)
  {
    if !hasTelegram || !enabled then None
    else
      CatsTextIsJoin(names);
      Some(RaisedText(gameId, CatsText(names), wait))
  }

  // ---------------------------------------------------------------------------
  // Product text (handlers.py:177-208)
  // ---------------------------------------------------------------------------

  /** True exactly when one of the first three sends succeeds. */
  predicate SendSucceeds(sends: seq<Attempt>)
    requires |sends| >= 3
  {
    exists i :: 0 <= i < 3 && Succeeded(sends[i])
  }

  /** `send_product_text`: up to three sends, stopping at the first that
      succeeds; False exactly when all three failed. */
  method SendProductText(sends: seq<Attempt>) returns (ok: bool, calls: nat)
    requires |sends| >= 3
    ensures calls == Retries(sends[..3])
    ensures ok <==> SendSucceeds(sends)
  {
    ghost var outs := sends[..3];
    RetriesStopAtFirstSuccess(outs);
    var attempts := 3;
    calls := 0;
    while attempts > 0
      invariant 0 <= attempts <= 3 && calls == 3 - attempts
      invariant forall i :: 0 <= i < calls ==> !Succeeded(outs[i])
    {
      var result := sends[calls];
      calls := calls + 1;
      if result.Threw? || !result.truthy {
        attempts := attempts - 1;
      } else {
        break;
      }
    }
    ok := attempts != 0;
    if ok {
      assert Succeeded(outs[calls - 1]);
      RetriesAfterFailures(outs, calls - 1);
      assert outs[calls - 1..][0] == outs[calls - 1];
    } else {
      RetriesAfterFailures(outs, 3);
      assert outs[3..] == [];
    }
  }

  // ---------------------------------------------------------------------------
  // Product delivery (handlers.py:211-277)
  // ---------------------------------------------------------------------------

  /** The automatic-delivery sections in file order: a lot name and its
      parameters. */
  type Lots = seq<(string, map<string, string>)>

  /** The names a loop over the parser meets, in order: the reserved "DEFAULT",
      a section without keys, and then the sections. */
  function Iterated(lots: Lots): (r: Lots)
    ensures |r| == |lots| + 1 && r[0] == ("DEFAULT", map[])
    ensures forall i :: 0 <= i < |lots| ==> r[i + 1] == lots[i]
  {
    [("DEFAULT", map[])] + lots
  }

  /** The first lot, in file order, whose name occurs in the title. */
  function FirstMatch(lots: Lots, title: string): (r: Option<nat>)
    ensures r.Some? ==>
      (r.value < |lots| && Contains(title, lots[r.value].0)
       && forall j :: 0 <= j < r.value ==> !Contains(title, lots[j].0))
    ensures r.None? ==> forall j :: 0 <= j < |lots| ==> !Contains(title, lots[j].0)
  {
    if lots == [] then None
    else if Contains(title, lots[0].0) then Some(0)
    else match FirstMatch(lots[1..], title)
      case None => None
      case Some(i) => Some(i + 1)
  }

  /** The first match is the one index with a match and none before it. */
  lemma FirstMatchIs(names: Lots, title: string, r: Option<nat>)
    requires r.Some? ==> (r.value < |names| && Contains(title, names[r.value].0)
                          && forall j :: 0 <= j < r.value ==> !Contains(title, names[j].0))
    requires r.None? ==> forall j :: 0 <= j < |names| ==> !Contains(title, names[j].0)
    ensures r == FirstMatch(names, title)
  {
  }

  /** The search loop of `deliver_product`, over the names the parser yields;
      the result indexes `Iterated(lots)`. */
  method FindLot(lots: Lots, title: string) returns (r: Option<nat>)
    ensures r == FirstMatch(Iterated(lots), title)
  {
    var names := Iterated(lots);
    r := None;
    var i := 0;
    while i < |names|
      invariant i <= |names|
      invariant forall j :: 0 <= j < i ==> !Contains(title, names[j].0)
    {
      if Contains(title, names[i].0) {
        r := Some(i);
        break;
      }
      i := i + 1;
    }
    FirstMatchIs(names, title, r);
  }

  /** What `deliver_product` returns when it gets that far: whether the text was
      sent, the text, and -1 for the count of products left. */
  datatype Delivery = Delivery(sent: bool, text: string, left: int)

  /** The exceptions of a delivery: a section without "response", a products
      file that does not exist, an empty products file, (as written) the send of
      the product text, and (with the core's account class) the lookup of the
      buyer's chat. */
  datatype DeliveryError = MissingResponse | NoSuchFile(path: string) | NoProducts(path: string) | SendRaised | NoBuyerLookup

  /** The text of the lot's response filled in with the order's variables. */
  function OrderText(obj: map<string, string>, order: Order, d: CT.DateTime): string
    requires CT.ValidDate(d) && "response" in obj
  {
    ReplaceAll(obj["response"], UT.OrderVariables(d, order))
  }

  /** The products file a delivery takes a product from: that of the first
      matching lot, when the lot has a response and a file that exists and is
      not empty. */
  function TakenFrom(lots: Lots, title: string, stock: map<string, seq<string>>): (r: Option<string>)
    ensures r.Some? ==> r.value in stock && stock[r.value] != []
    ensures r.Some? ==> var i := FirstMatch(Iterated(lots), title);
      i.Some? && i.value > 0 && "response" in lots[i.value - 1].1
      && "productsFilePath" in lots[i.value - 1].1 && lots[i.value - 1].1["productsFilePath"] == r.value
  {
    match FirstMatch(Iterated(lots), title)
    case None => None
    case Some(i) =>
      var obj := Iterated(lots)[i].1;
      if "response" in obj && "productsFilePath" in obj
        && obj["productsFilePath"] in stock && stock[obj["productsFilePath"]] != []
      then Some(obj["productsFilePath"]) else None
  }

  /** The result of `deliver_product` for the stock the files hold: None when no
      lot matches, an error when the product cannot be read, else the send's
      success and the text, with the first product in place of "$product". */
  function DeliveryOutcome(lots: Lots, order: Order, d: CT.DateTime, stock: map<string, seq<string>>, sends: seq<Attempt>)
    : (r: Option<Result<Delivery, DeliveryError>>)
    requires CT.ValidDate(d) && |sends| >= 3
    ensures r.None? <==> FirstMatch(Iterated(lots), order.title).None?
    ensures r.Some? && r.value.Ok? ==> r.value.value.left == -1 && (r.value.value.sent <==> SendSucceeds(sends))
    ensures r.Some? ==> r.value != Err(SendRaised)
    ensures Contains(order.title, "DEFAULT") ==> r == Some(Err(MissingResponse))
    ensures TakenFrom(lots, order.title, stock).Some? ==>
      var p := TakenFrom(lots, order.title, stock).value;
      r.Some? && r.value.Ok?
      && r.value.value.text == Replace(OrderText(Iterated(lots)[FirstMatch(Iterated(lots), order.title).value].1, order, d), "$product", stock[p][0])
  {
    match FirstMatch(Iterated(lots), order.title)
    case None => None
    case Some(i) =>
      var obj := Iterated(lots)[i].1;
      if "response" !in obj then Some(Err(MissingResponse))
      else if "productsFilePath" !in obj then Some(Ok(Delivery(SendSucceeds(sends), OrderText(obj, order, d), -1)))
      else
        var path := obj["productsFilePath"];
        if path !in stock then Some(Err(NoSuchFile(path)))
        else if stock[path] == [] then Some(Err(NoProducts(path)))
        else Some(Ok(Delivery(SendSucceeds(sends), Replace(OrderText(obj, order, d), "$product", stock[path][0]), -1)))
  }

  /** The stock after a delivery: the file a product was taken from loses its
      first product, which goes back to the end when the send failed. */
  function StockAfter(lots: Lots, title: string, stock: map<string, seq<string>>, sends: seq<Attempt>)
    : map<string, seq<string>>
    requires |sends| >= 3
  {
    match TakenFrom(lots, title, stock)
    case None => stock
    case Some(p) =>
      var s := stock[p];
      stock[p := if SendSucceeds(sends) then s[1..] else s[1..] + [s[0]]]
  }

  /** No product is lost and none appears: a failed send gives the taken product
      back, a successful one removes exactly it, and every other file keeps its
      list. */
  lemma StockKept(lots: Lots, title: string, stock: map<string, seq<string>>, sends: seq<Attempt>)
    requires |sends| >= 3
    ensures var after := StockAfter(lots, title, stock, sends);
      after.Keys == stock.Keys
      && (forall p :: p in stock && Some(p) != TakenFrom(lots, title, stock) ==> after[p] == stock[p])
      && (TakenFrom(lots, title, stock).Some? ==>
            var p := TakenFrom(lots, title, stock).value;
            if SendSucceeds(sends) then multiset(after[p]) + multiset{stock[p][0]} == multiset(stock[p])
            else multiset(after[p]) == multiset(stock[p]) && |after[p]| == |stock[p]|)
  {
    if TakenFrom(lots, title, stock).Some? {
      var p := TakenFrom(lots, title, stock).value;
      var s := stock[p];
      assert s == [s[0]] + s[1..];
      if !SendSucceeds(sends) {
        UT.TakeAndReturnKeepsStock(s);
      }
    }
  }

  // As written, `send_product_text` builds the record of the message with five
  // arguments where the record constructor takes four, so it raises before its
  // first send. `deliver_product` does not catch that: a product already taken
  // from its file is not given back, and the handler reports the exception.

  /** `deliver_product` as written: the intended outcome wherever the lookup or
      the products file fails first, and otherwise the exception of the send. */
  function DeliveryOutcomeAsWritten(lots: Lots, order: Order, stock: map<string, seq<string>>)
    : (r: Option<Result<Delivery, DeliveryError>>)
    ensures r.None? <==> FirstMatch(Iterated(lots), order.title).None?
    ensures r.Some? ==> r.value.Err?
    ensures TakenFrom(lots, order.title, stock).Some? ==> r == Some(Err(SendRaised))
  {
    match FirstMatch(Iterated(lots), order.title)
    case None => None
    case Some(i) =>
      var obj := Iterated(lots)[i].1;
      if "response" !in obj then Some(Err(MissingResponse))
      else if "productsFilePath" !in obj then Some(Err(SendRaised))
      else
        var path := obj["productsFilePath"];
        if path !in stock then Some(Err(NoSuchFile(path)))
        else if stock[path] == [] then Some(Err(NoProducts(path)))
        else Some(Err(SendRaised))
  }

  /** The stock after a delivery as written: the file a product was taken from
      loses its first product for good. */
  function StockAfterAsWritten(lots: Lots, title: string, stock: map<string, seq<string>>): (r: map<string, seq<string>>)
    ensures r.Keys == stock.Keys
    ensures forall p :: p in stock && Some(p) != TakenFrom(lots, title, stock) ==> r[p] == stock[p]
    ensures TakenFrom(lots, title, stock).Some? ==>
      var p := TakenFrom(lots, title, stock).value;
      r[p] == stock[p][1..] && multiset(r[p]) + multiset{stock[p][0]} == multiset(stock[p])
  {
    match TakenFrom(lots, title, stock)
    case None => stock
    case Some(p) =>
      assert stock[p] == [stock[p][0]] + stock[p][1..];
      stock[p := stock[p][1..]]
  }

  /** As written, no delivery is ever reported as made, and a delivery with a
      product loses that product: the handlers are told of the exception while
      the file is one product shorter. */
  lemma AsWrittenProductLost(lots: Lots, order: Order, stock: map<string, seq<string>>)
    ensures var report := ReportOf(DeliveryOutcomeAsWritten(lots, order, stock));
      report.None? || report.value.NotDelivered?
    ensures TakenFrom(lots, order.title, stock).Some? ==>
      var p := TakenFrom(lots, order.title, stock).value;
      var after := StockAfterAsWritten(lots, order.title, stock);
      ReportOf(DeliveryOutcomeAsWritten(lots, order, stock)) == Some(NotDelivered(Raised(SendRaised)))
      && |after[p]| == |stock[p]| - 1 && multiset(after[p]) + multiset{stock[p][0]} == multiset(stock[p])
  {
  }

  // The account class of the core defines no `get_node_id_by_username`. With
  // it, the lookup of the buyer's chat, the first step of `deliver_product`
  // for a matched lot, raises AttributeError before the response is read and
  // before any product is taken. The members above take that lookup to exist.

  /** `deliver_product` with the core's account class: None when no lot
      matches, otherwise the AttributeError of the lookup, whatever the lot
      holds. */
  function DeliveryOutcomeWithAccount(lots: Lots, order: Order): (r: Option<Result<Delivery, DeliveryError>>)
    ensures r.None? <==> FirstMatch(Iterated(lots), order.title).None?
    ensures r.Some? ==> r.value == Err(NoBuyerLookup)
  {
    match FirstMatch(Iterated(lots), order.title)
    case None => None
    case Some(_) => Some(Err(NoBuyerLookup))
  }

  /** With the core's account class, the lookup fails before anything the
      other descriptions distinguish: a "DEFAULT" title, which they report as
      the missing "response", and a lot with products, where the send fails
      after the take, both raise at the lookup, so no product leaves a file. */
  lemma LookupRaisesFirst(lots: Lots, order: Order, d: CT.DateTime, stock: map<string, seq<string>>, sends: seq<Attempt>)
    requires CT.ValidDate(d) && |sends| >= 3
    ensures FirstMatch(Iterated(lots), order.title).Some? ==>
      ReportOf(DeliveryOutcomeWithAccount(lots, order)) == Some(NotDelivered(Raised(NoBuyerLookup)))
    ensures DeliveryOutcome(lots, order, d, stock, sends) != Some(Err(NoBuyerLookup))
    ensures DeliveryOutcomeAsWritten(lots, order, stock) != Some(Err(NoBuyerLookup))
    ensures Contains(order.title, "DEFAULT") ==>
      DeliveryOutcomeWithAccount(lots, order) == Some(Err(NoBuyerLookup))
      && DeliveryOutcome(lots, order, d, stock, sends) == Some(Err(MissingResponse))
  {
  }

  /** The product lists the files hold. */
  function Stock(files: map<string, UT.ProductStore>): (r: map<string, seq<string>>)
    reads files.Values
    ensures r.Keys == files.Keys && forall p :: p in files ==> r[p] == files[p].products
  {
    map p | p in files :: files[p].products
  }

  /** Different paths are different files. */
  predicate DistinctFiles(files: map<string, UT.ProductStore>) {
    forall p, q :: p in files && q in files && p != q ==> files[p] != files[q]
  }

  /** `deliver_product`: finds the lot, fills in its response and, with a
      products file, takes the first product into the text and puts it back when
      the send fails. */
  method DeliverProduct(lots: Lots, order: Order, d: CT.DateTime, files: map<string, UT.ProductStore>, sends: seq<Attempt>)
    returns (r: Option<Result<Delivery, DeliveryError>>)
    requires CT.ValidDate(d) && |sends| >= 3 && DistinctFiles(files)
    modifies files.Values
    ensures r == DeliveryOutcome(lots, order, d, old(Stock(files)), sends)
    ensures Stock(files) == StockAfter(lots, order.title, old(Stock(files)), sends)
  {
    ghost var stock := Stock(files);
    var found := FindLot(lots, order.title);
    var file: Option<string> := None;
    var text := "";
    r := None;
    if found.Some? {
      var obj := Iterated(lots)[found.value].1;
      if "response" !in obj {
        r := Some(Err(MissingResponse));
      } else {
        text := UT.FormatOrderText(obj["response"], order, d);
        if "productsFilePath" !in obj {
          var ok, _ := SendProductText(sends);
          r := Some(Ok(Delivery(ok, text, -1)));
        } else if obj["productsFilePath"] !in files {
          r := Some(Err(NoSuchFile(obj["productsFilePath"])));
        } else {
          file := Some(obj["productsFilePath"]);
        }
      }
    }
    assert file.None? ==> TakenFrom(lots, order.title, stock).None?;
    assert file.Some? ==>
      TakenFrom(lots, order.title, stock) == if stock[file.value] == [] then None else Some(file.value);
    assert Stock(files) == stock;
    if file.Some? {
      r := DeliverFromFile(files, file.value, text, sends);
    }
  }

  /** The products-file branch of `deliver_product`. */
  method DeliverFromFile(files: map<string, UT.ProductStore>, path: string, text: string, sends: seq<Attempt>)
    returns (r: Option<Result<Delivery, DeliveryError>>)
    requires |sends| >= 3 && DistinctFiles(files) && path in files
    modifies files[path]
    ensures old(files[path].products) == [] ==> r == Some(Err(NoProducts(path))) && Stock(files) == old(Stock(files))
    ensures old(files[path].products) != [] ==>
      var s := old(files[path].products);
      r == Some(Ok(Delivery(SendSucceeds(sends), Replace(text, "$product", s[0]), -1)))
      && Stock(files) == old(Stock(files))[path := if SendSucceeds(sends) then s[1..] else s[1..] + [s[0]]]
  {
    ghost var before := Stock(files);
    var store := files[path];
    var product := store.GetProduct();
    if product.Err? {
      r := Some(Err(NoProducts(path)));
    } else {
      var productText := product.value.0;
      var ok, _ := SendProductText(sends);
      if !ok {
        store.AddProduct(productText);
      }
      r := Some(Ok(Delivery(ok, Replace(text, "$product", productText), -1)));
    }
    assert forall q :: q in files && q != path ==> files[q] != store;
    assert Stock(files) == before[path := store.products] by {
      forall q | q in files
        ensures Stock(files)[q] == before[path := store.products][q]
      {
        if q != path {
          assert files[q] != store;
        }
      }
    }
  }

  /** Why a delivery's handlers are told it failed: the attempts ran out, or
      `deliver_product` raised. */
  datatype FailReason = AttemptsExceeded | Raised(error: DeliveryError)

  /** What the delivery handlers are run with: the delivered text, or the
      failure (their `errored` argument is True). */
  datatype DeliveryReport = Delivered(text: string) | NotDelivered(reason: FailReason)

  /** The report `deliver_product_handler` makes of a delivery result; None when
      the lot is not configured. */
  function ReportOf(o: Option<Result<Delivery, DeliveryError>>): Option<DeliveryReport> {
    match o
    case None => None
    case Some(Err(e)) => Some(NotDelivered(Raised(e)))
    case Some(Ok(del)) => if del.sent then Some(Delivered(del.text)) else Some(NotDelivered(AttemptsExceeded))
  }

  /** A product leaves its file exactly when the handlers are told it was
      delivered; when they are told of a failure the file holds the same
      products as before. */
  lemma ReportMatchesStock(lots: Lots, order: Order, d: CT.DateTime, stock: map<string, seq<string>>, sends: seq<Attempt>)
    requires CT.ValidDate(d) && |sends| >= 3 && TakenFrom(lots, order.title, stock).Some?
    ensures var p := TakenFrom(lots, order.title, stock).value;
      var after := StockAfter(lots, order.title, stock, sends);
      var report := ReportOf(DeliveryOutcome(lots, order, d, stock, sends));
      report.Some? && (report.value.Delivered? <==> |after[p]| == |stock[p]| - 1)
      && (report.value.NotDelivered? ==> multiset(after[p]) == multiset(stock[p]))
  {
    StockKept(lots, order.title, stock, sends);
  }

  /** An unconfigured lot is reported to nobody and leaves every file as it
      was. */
  lemma UnconfiguredLotIgnored(lots: Lots, order: Order, d: CT.DateTime, stock: map<string, seq<string>>, sends: seq<Attempt>)
    requires CT.ValidDate(d) && |sends| >= 3
    requires forall j :: 0 <= j < |lots| ==> !Contains(order.title, lots[j].0)
    ensures !Contains(order.title, "DEFAULT") ==> ReportOf(DeliveryOutcome(lots, order, d, stock, sends)).None?
    ensures Contains(order.title, "DEFAULT") ==>
      ReportOf(DeliveryOutcome(lots, order, d, stock, sends)) == Some(NotDelivered(Raised(MissingResponse)))
    ensures StockAfter(lots, order.title, stock, sends) == stock
  {
    var names := Iterated(lots);
    assert forall j :: 1 <= j < |names| ==> !Contains(order.title, names[j].0);
  }

  /** A title that contains the reserved name "DEFAULT" matches it before any lot
      and fails on its missing "response", leaving every file as it was. */
  lemma DefaultInTitleRaises(lots: Lots, order: Order, d: CT.DateTime, stock: map<string, seq<string>>, sends: seq<Attempt>)
    requires CT.ValidDate(d) && |sends| >= 3 && Contains(order.title, "DEFAULT")
    ensures ReportOf(DeliveryOutcome(lots, order, d, stock, sends)) == Some(NotDelivered(Raised(MissingResponse)))
    ensures StockAfter(lots, order.title, stock, sends) == stock
  {
  }

  /** `deliver_product_handler`: nothing with automatic delivery off; otherwise
      the delivery and its report. */
  method DeliverProductHandler(enabled: bool, lots: Lots, order: Order, d: CT.DateTime,
                               files: map<string, UT.ProductStore>, sends: seq<Attempt>)
    returns (report: Option<DeliveryReport>)
    requires CT.ValidDate(d) && |sends| >= 3 && DistinctFiles(files)
    modifies files.Values
    ensures !enabled ==> report.None? && Stock(files) == old(Stock(files))
    ensures enabled ==>
      report == ReportOf(DeliveryOutcome(lots, order, d, old(Stock(files)), sends))
      && Stock(files) == StockAfter(lots, order.title, old(Stock(files)), sends)
  {
    report := None;
    if enabled {
      var result := DeliverProduct(lots, order, d, files, sends);
      report := ReportOf(result);
    }
  }

  // ---------------------------------------------------------------------------
  // Lot re-activation (handlers.py:334-367)
  // ---------------------------------------------------------------------------

  /** The first fetch that did not throw. */
  function FirstSome<T>(xs: seq<Option<T>>): (r: Option<nat>)
    ensures r.Some? ==>
      (r.value < |xs| && xs[r.value].Some? && forall j :: 0 <= j < r.value ==> xs[j].None?)
    ensures r.None? ==> forall j :: 0 <= j < |xs| ==> xs[j].None?
  {
    if xs == [] then None
    else if xs[0].Some? then Some(0)
    else match FirstSome(xs[1..])
      case None => None
      case Some(i) => Some(i + 1)
  }

  /** The configured lots whose id is missing from the fetched ids, in
      configuration order. */
  function ToRestore(lots: seq<Lot>, ids: seq<int>): (r: seq<Lot>)
    ensures |r| <= |lots|
  {
    if lots == [] then []
    else (if lots[0].id !in ids then [lots[0]] else []) + ToRestore(lots[1..], ids)
  }

  /** Exactly the configured lots whose id was not fetched are re-activated:
      the set difference of the configured lots and the fetched ids. */
  lemma {:induction false} ToRestoreMembers(lots: seq<Lot>, ids: seq<int>)
    ensures forall x :: x in ToRestore(lots, ids) <==> x in lots && x.id !in ids
  {
    if lots != [] {
      ToRestoreMembers(lots[1..], ids);
      assert lots == [lots[0]] + lots[1..];
    }
  }

  lemma {:induction false} ToRestoreAppend(a: seq<Lot>, b: seq<Lot>, ids: seq<int>)
    ensures ToRestore(a + b, ids) == ToRestore(a, ids) + ToRestore(b, ids)
  {
    if a != [] {
      assert (a + b)[1..] == a[1..] + b;
      ToRestoreAppend(a[1..], b, ids);
    } else {
      assert a + b == b;
    }
  }

  /** The loop of `activate_lots_handler` over the configured lots. */
  method RestoreRequests(lots: seq<Lot>, ids: seq<int>) returns (requests: seq<Lot>)
    ensures requests == ToRestore(lots, ids)
  {
    requests := [];
    var i := 0;
    while i < |lots|
      invariant i <= |lots| && requests == ToRestore(lots[..i], ids)
    {
      ToRestoreAppend(lots[..i], [lots[i]], ids);
      assert [lots[i]][1..] == [];
      assert lots[..i + 1] == lots[..i] + [lots[i]];
      if lots[i].id !in ids {
        requests := requests + [lots[i]];
      }
      i := i + 1;
    }
    assert lots[..|lots|] == lots;
  }

  /** `activate_lots_handler`: up to three fetches of the seller's lots, then one
      state change per configured lot whose id is missing from them. A failed
      change is caught, so every such lot is requested. */
  method ActivateLotsHandler(enabled: bool, fetched: seq<Option<seq<int>>>, lots: seq<Lot>)
    returns (fetchCalls: nat, requests: seq<Lot>)
    requires |fetched| >= 3
    ensures !enabled ==> fetchCalls == 0 && requests == []
    ensures enabled && FirstSome(fetched[..3]).None? ==> fetchCalls == 3 && requests == []
    ensures enabled && FirstSome(fetched[..3]).Some? ==>
      var k := FirstSome(fetched[..3]).value;
      fetchCalls == k + 1 && requests == ToRestore(lots, fetched[k].value)
  {
    fetchCalls, requests := 0, [];
    if enabled {
      var attempts := 3;
      var info: seq<int> := [];
      while attempts > 0
        invariant 0 <= attempts <= 3 && fetchCalls == 3 - attempts
        invariant forall j :: 0 <= j < fetchCalls ==> fetched[j].None?
      {
        var f := fetched[fetchCalls];
        fetchCalls := fetchCalls + 1;
        if f.Some? {
          info := f.value;
          break;
        }
        attempts := attempts - 1;
      }
      if attempts != 0 {
        assert fetched[..3][fetchCalls - 1] == Some(info);
        requests := RestoreRequests(lots, info);
      } else {
        assert forall j :: 0 <= j < 3 ==> fetched[..3][j].None?;
      }
    }
  }
}
