/** The account half of the marketplace client: the guard in front of sending a
    chat message, the filter that turns the order-list page into orders, the rules
    for finding the game of a category, and the decision chain that raises the
    listings of one game. HTTP responses are given as already decoded records. */
module FunPayAccount {
  import opened Types
  import opened Strings
  import Other

  const BaseUrl: string := "https://funpay.com"

  /** Why a page could not be used. */
  datatype PageError =
    | BadStatus(code: int)   // any status other than 200 (and 404 where that is told apart)
    | CategoryNotFound       // status 404 on a category page
    | InvalidToken           // the page shows no logged-in user
    | NotAnInteger           // the field that should hold a number does not

  // ---------------------------------------------------------------------------
  // send_message

  /** The chat message the client posts. */
  datatype ChatMessageRequest = ChatMessageRequest(node: int, lastMessage: int, content: string)

  datatype SendError = EmptyMessage

  /** A message whose text is blank after stripping is refused before anything is
      sent; any other text is posted unchanged to the chat. */
  function SendMessageRequest(nodeId: int, text: string): (r: Result<ChatMessageRequest, SendError>)
    ensures r.Ok? <==> !AllSpace(text)
    ensures r.Ok? ==> r.value.node == nodeId && r.value.content == text && r.value.lastMessage == -1
  {
    StripEmptyIffAllSpace(text);
    if Strip(text) == [] then Err(EmptyMessage) else Ok(ChatMessageRequest(nodeId, -1, text))
  }

  // ---------------------------------------------------------------------------
  // get_account_orders

  /** One row of the order list: its CSS classes, the order id text, the title and
      the buyer. */
  datatype OrderRow = OrderRow(classes: set<string>, id: string, title: string, buyerName: string, buyerId: int)

  /** The order-list page. */
  datatype OrdersPage = OrdersPage(status: int, hasUser: bool, rows: seq<OrderRow>)

  /** Which orders the caller wants. */
  datatype OrderFilter = OrderFilter(includeOutstanding: bool, includeCompleted: bool, includeRefund: bool, exclude: seq<string>)

  /** The exclusion list as the code uses it: a missing (or empty) list is empty. */
  function ExcludeList(exclude: Option<seq<string>>): (r: seq<string>)
    ensures forall id :: id in r <==> exclude.Some? && id in exclude.value
  {
    if exclude.Some? then exclude.value else []
  }

  /** The status a row's classes denote: "warning" wins over "info". */
  function StatusOf(classes: set<string>): OrderStatus {
    if "warning" in classes then Refund
    else if "info" in classes then Outstanding
    else Completed
  }

  predicate Included(f: OrderFilter, st: OrderStatus) {
    match st
    case Refund => f.includeRefund
    case Outstanding => f.includeOutstanding
    case Completed => f.includeCompleted
  }

  /** A row survives the filter: its status is wanted and its id is not excluded. */
  predicate Kept(f: OrderFilter, row: OrderRow) {
    Included(f, StatusOf(row.classes)) && row.id !in f.exclude
  }

  function OrderOf(row: OrderRow): Order {
    Order(row.id, row.title, row.buyerName, row.buyerId, StatusOf(row.classes))
  }

  /** The orders of the kept rows keyed by order id; a later row with the same id
      overwrites an earlier one. */
  function ParsedOrders(f: OrderFilter, rows: seq<OrderRow>): map<string, Order> {
    if rows == [] then map[]
    else
      var prev := ParsedOrders(f, rows[..|rows| - 1]);
      var row := rows[|rows| - 1];
      if Kept(f, row) then prev[row.id := OrderOf(row)] else prev
  }

  /** The loop over the rows of the page. */
  method ParseOrderRows(f: OrderFilter, rows: seq<OrderRow>) returns (parsed: map<string, Order>)
    ensures parsed == ParsedOrders(f, rows)
  {
    parsed := map[];
    var i := 0;
    while i < |rows|
      invariant 0 <= i <= |rows|
      invariant parsed == ParsedOrders(f, rows[..i])
    {
      assert rows[..i + 1][..i] == rows[..i];
      var row := rows[i];
      var status: OrderStatus;
      if "warning" in row.classes {
        if !f.includeRefund {
          i := i + 1;
          continue;
        }
        status := Refund;
      } else if "info" in row.classes {
        if !f.includeOutstanding {
          i := i + 1;
          continue;
        }
        status := Outstanding;
      } else {
        if !f.includeCompleted {
          i := i + 1;
          continue;
        }
        status := Completed;
      }
      if row.id in f.exclude {
        i := i + 1;
        continue;
      }
      parsed := parsed[row.id := Order(row.id, row.title, row.buyerName, row.buyerId, status)];
      i := i + 1;
    }
    assert rows[..|rows|] == rows;
  }

  /** An order id is in the result exactly when some kept row has it. */
  lemma {:induction false} ParsedOrdersKeys(f: OrderFilter, rows: seq<OrderRow>, k: string)
    ensures k in ParsedOrders(f, rows) <==> exists i :: 0 <= i < |rows| && rows[i].id == k && Kept(f, rows[i])
  {
    if rows != [] {
      var n := |rows| - 1;
      var init := rows[..n];
      ParsedOrdersKeys(f, init, k);
      assert forall i :: 0 <= i < n ==> init[i] == rows[i];
    }
  }

  /** Row `i` is kept, has id `k`, and no later row with id `k` is kept. */
  predicate LastKeptRow(f: OrderFilter, rows: seq<OrderRow>, k: string, i: nat)
    requires i < |rows|
  {
    rows[i].id == k && Kept(f, rows[i]) && forall j :: i < j < |rows| && rows[j].id == k ==> !Kept(f, rows[j])
  }

  /** The order stored under an id is built from the last kept row with that id. */
  lemma {:induction false} ParsedOrdersLastRow(f: OrderFilter, rows: seq<OrderRow>, k: string)
    requires k in ParsedOrders(f, rows)
    ensures exists i :: 0 <= i < |rows| && LastKeptRow(f, rows, k, i) && ParsedOrders(f, rows)[k] == OrderOf(rows[i])
  {
    var n := |rows| - 1;
    var init := rows[..n];
    if !(Kept(f, rows[n]) && rows[n].id == k) {
      ParsedOrdersLastRow(f, init, k);
      var i :| 0 <= i < n && LastKeptRow(f, init, k, i) && ParsedOrders(f, init)[k] == OrderOf(init[i]);
      assert rows[i] == init[i];
      assert forall j :: i < j < n ==> init[j] == rows[j];
    }
  }

  /** Every returned order is stored under its own id and has a wanted status. */
  lemma ParsedOrdersWanted(f: OrderFilter, rows: seq<OrderRow>, k: string)
    requires k in ParsedOrders(f, rows)
    ensures ParsedOrders(f, rows)[k].id == k && k !in f.exclude
    ensures Included(f, ParsedOrders(f, rows)[k].status)
  {
    ParsedOrdersLastRow(f, rows, k);
  }

  /** A row that is both "warning" and "info" counts as a refund. */
  lemma RefundWins(classes: set<string>)
    requires "warning" in classes && "info" in classes
    ensures StatusOf(classes) == Refund
  {
  }

  /** The whole call: the page must be 200 and show the user; then its rows are
      filtered. A missing exclusion list is an empty one. */
  method GetAccountOrders(page: OrdersPage, includeOutstanding: bool, includeCompleted: bool, includeRefund: bool,
                          exclude: Option<seq<string>>)
    returns (r: Result<map<string, Order>, PageError>)
    ensures page.status != 200 ==> r == Err(BadStatus(page.status))
    ensures page.status == 200 && !page.hasUser ==> r == Err(InvalidToken)
    ensures page.status == 200 && page.hasUser ==>
      r == Ok(ParsedOrders(OrderFilter(includeOutstanding, includeCompleted, includeRefund, ExcludeList(exclude)), page.rows))
  {
    var ex := ExcludeList(exclude);
    if page.status != 200 {
      return Err(BadStatus(page.status));
    }
    if !page.hasUser {
      return Err(InvalidToken);
    }
    var parsed := ParseOrderRows(OrderFilter(includeOutstanding, includeCompleted, includeRefund, ex), page.rows);
    return Ok(parsed);
  }

  // ---------------------------------------------------------------------------
  // get_category_game_id

  /** The page that tells the game of a category: "/lots/<id>/trade" for ordinary
      listings and "/chips/<id>/trade" for currency. */
  function CategoryTradeLink(id: int, kind: CategoryType): string {
    BaseUrl + "/" + KindDirectory(kind) + "/" + IntToString(id) + "/trade"
  }

  function KindDirectory(kind: CategoryType): string {
    if kind == Lot then "lots" else "chips"
  }

  /** The link's path segments are the kind's directory, the id and "trade", and the
      id segment reads back as the category id. */
  function TradeLinkParts(id: int, kind: CategoryType): seq<string> {
    ["https:", "", "funpay.com", KindDirectory(kind), IntToString(id), "trade"]
  }

  lemma TradeLinkIsJoin(id: int, kind: CategoryType)
    ensures Join(TradeLinkParts(id, kind), "/") == CategoryTradeLink(id, kind)
  {
    var dir := KindDirectory(kind);
    var d := IntToString(id);
    JoinSix("https:", "", "funpay.com", dir, d, "trade", "/");
    var sl := "/";
    assert "https:" + sl + "" + sl + "funpay.com" == BaseUrl;
    assert sl + "trade" == "/trade";
  }

  lemma JoinSix(a: string, b: string, c: string, d: string, e: string, f: string, sep: string)
    ensures Join([a, b, c, d, e, f], sep) == a + sep + b + sep + c + sep + d + sep + e + sep + f
  {
    var p := [a, b, c, d, e, f];
    assert p[5..] == [f];
    assert Join(p[4..], sep) == e + sep + f by { assert p[4..][1..] == p[5..]; }
    assert Join(p[3..], sep) == d + sep + (e + sep + f) by { assert p[3..][1..] == p[4..]; }
    assert Join(p[2..], sep) == c + sep + (d + sep + (e + sep + f)) by { assert p[2..][1..] == p[3..]; }
    assert Join(p[1..], sep) == b + sep + (c + sep + (d + sep + (e + sep + f))) by { assert p[1..][1..] == p[2..]; }
  }

  lemma TradeLinkPartsNoSlash(id: int, kind: CategoryType)
    ensures forall i :: 0 <= i < 6 ==> '/' !in TradeLinkParts(id, kind)[i]
  {
    IntToStringShape(id);
  }

  lemma TradeLinkSegments(id: int, kind: CategoryType)
    ensures var parts := Split(CategoryTradeLink(id, kind), '/');
      parts == ["https:", "", "funpay.com", KindDirectory(kind), IntToString(id), "trade"]
      && ParseInt(parts[4]) == Some(id)
  {
    TradeLinkIsJoin(id, kind);
    TradeLinkPartsNoSlash(id, kind);
    JoinSplit(TradeLinkParts(id, kind), '/');
    ParseIntToString(id);
  }

  /** What the category page yields: its status, whether it shows the user, and the
      text of the field holding the game id. */
  datatype GamePage = GamePage(status: int, hasUser: bool, gameField: string)

  function GameIdFromPage(page: GamePage): (r: Result<int, PageError>)
    ensures r.Ok? <==> page.status == 200 && page.hasUser && ParseInt(page.gameField).Some?
    ensures r.Ok? ==> Some(r.value) == ParseInt(page.gameField)
    ensures r == Err(CategoryNotFound) <==> page.status == 404
  {
    if page.status == 404 then Err(CategoryNotFound)
    else if page.status != 200 then Err(BadStatus(page.status))
    else if !page.hasUser then Err(InvalidToken)
    else match ParseInt(page.gameField)
      case None => Err(NotAnInteger)
      case Some(g) => Ok(g)
  }

  /** A page whose field is a printed number yields that number. */
  lemma GameIdOfPrintedNumber(g: int)
    ensures GameIdFromPage(GamePage(200, true, IntToString(g))) == Ok(g)
  {
    ParseIntToString(g);
  }

  // ---------------------------------------------------------------------------
  // raise_game_categories

  /** The `error` field of the first raise answer: missing or null, present but
      falsy, or truthy. */
  datatype ErrorField = ErrorAbsent | ErrorFalsy | ErrorTruthy

  /** A checkbox of the modal form: the category id it submits and its caption (the label text). */
  datatype Checkbox = Checkbox(id: string, caption: string)

  /** The first raise answer: its HTTP status, `error`, `msg` and, when there is a
      non-empty `modal`, the checkboxes of that form. */
  datatype RaiseCheck = RaiseCheck(status: int, error: ErrorField, msg: Option<string>, modal: Option<seq<Checkbox>>)

  /** The answer to the follow-up request: it fails to arrive or decode, or it
      arrives with a truthy or falsy `error`. */
  datatype FollowUp = FollowUpThrew | FollowUpReply(errorTruthy: bool)

  /** What a raise returns: an exception, nothing (no branch matched), or the
      response record (complete, wait, names of the raised categories). */
  datatype RaiseResult = RaiseThrew | RaiseNone | RaiseReply(complete: bool, wait: int, names: seq<string>)

  predicate Truthy(s: Option<string>) {
    s.Some? && s.value != []
  }

  /** A checkbox is submitted unless an exclusion list names it. */
  predicate Allowed(exclude: Option<seq<string>>, id: string) {
    exclude.None? || id !in exclude.value
  }

  function KeptBoxes(cbs: seq<Checkbox>, exclude: Option<seq<string>>): seq<Checkbox> {
    if cbs == [] then []
    else
      var prev := KeptBoxes(cbs[..|cbs| - 1], exclude);
      if Allowed(exclude, cbs[|cbs| - 1].id) then prev + [cbs[|cbs| - 1]] else prev
  }

  function Ids(cbs: seq<Checkbox>): (r: seq<string>)
    ensures |r| == |cbs| && forall i :: 0 <= i < |cbs| ==> r[i] == cbs[i].id
  {
    seq(|cbs|, i requires 0 <= i < |cbs| => cbs[i].id)
  }

  function Labels(cbs: seq<Checkbox>): (r: seq<string>)
    ensures |r| == |cbs| && forall i :: 0 <= i < |cbs| ==> r[i] == cbs[i].caption
  {
    seq(|cbs|, i requires 0 <= i < |cbs| => cbs[i].caption)
  }

  /** The checkboxes that are kept are exactly the allowed ones, in form order. */
  lemma {:induction false} KeptBoxesMembers(cbs: seq<Checkbox>, exclude: Option<seq<string>>)
    ensures forall cb :: cb in KeptBoxes(cbs, exclude) <==> cb in cbs && Allowed(exclude, cb.id)
    ensures exclude.None? ==> KeptBoxes(cbs, exclude) == cbs
  {
    if cbs != [] {
      var init := cbs[..|cbs| - 1];
      KeptBoxesMembers(init, exclude);
      assert cbs == init + [cbs[|cbs| - 1]];
    }
  }

  /** The checkbox loop: collects ids and labels of the allowed checkboxes. */
  method CollectCheckboxes(cbs: seq<Checkbox>, exclude: Option<seq<string>>) returns (ids: seq<string>, names: seq<string>)
    ensures ids == Ids(KeptBoxes(cbs, exclude)) && names == Labels(KeptBoxes(cbs, exclude))
  {
    ids := [];
    names := [];
    var i := 0;
    while i < |cbs|
      invariant 0 <= i <= |cbs|
      invariant ids == Ids(KeptBoxes(cbs[..i], exclude)) && names == Labels(KeptBoxes(cbs[..i], exclude))
    {
      assert cbs[..i + 1][..i] == cbs[..i];
      var cb := cbs[i];
      if (exclude.Some? && cb.id !in exclude.value) || exclude.None? {
        ids := ids + [cb.id];
        names := names + [cb.caption];
      }
      i := i + 1;
    }
    assert cbs[..|cbs|] == cbs;
  }

  /** The decision chain over the first answer: a "Подождите" message gives the
      announced wait; another error gives 10 seconds; a present but falsy error
      means the single category was raised; a modal form means a follow-up request
      for the allowed categories, complete unless its answer has an error. */
  function RaiseOutcome(title: string, check: RaiseCheck, exclude: Option<seq<string>>, followUp: FollowUp): (r: RaiseResult)
    ensures check.status != 200 ==> r == RaiseThrew
    ensures r.RaiseReply? && r.complete ==> r.wait == 3600
    ensures r.RaiseReply? && !r.complete ==> r.names == []
    ensures r.RaiseReply? && r.complete ==> check.error != ErrorTruthy
    ensures check.status == 200 && check.error.ErrorAbsent? && check.modal.None? ==> r == RaiseNone
    ensures r == RaiseNone ==> check.status == 200 && check.error.ErrorAbsent? && check.modal.None?
    ensures check.status == 200 && check.error == ErrorTruthy && !(Truthy(check.msg) && Contains(check.msg.value, "Подождите"))
      ==> r == RaiseReply(false, 10, [])
    ensures check.status == 200 && check.error == ErrorFalsy ==> r == RaiseReply(true, 3600, [title])
    ensures check.status == 200 && check.error == ErrorAbsent && check.modal.Some? ==>
      r == match followUp
        case FollowUpThrew => RaiseThrew
        case FollowUpReply(err) => if err then RaiseReply(false, 10, []) else RaiseReply(true, 3600, Labels(KeptBoxes(check.modal.value, exclude)))
  {
    if check.status != 200 then RaiseThrew
    else if check.error == ErrorTruthy && Truthy(check.msg) && Contains(check.msg.value, "Подождите") then
      match Other.WaitTimeFromRaiseResponse(check.msg.value)
      case Err(_) => RaiseThrew
      case Ok(w) => RaiseReply(false, w, [])
    else if check.error == ErrorTruthy then RaiseReply(false, 10, [])
    else if check.error == ErrorFalsy then RaiseReply(true, 3600, [title])
    else if check.modal.Some? then
      match followUp
      case FollowUpThrew => RaiseThrew
      case FollowUpReply(err) =>
        if !err then RaiseReply(true, 3600, Labels(KeptBoxes(check.modal.value, exclude)))
        else RaiseReply(false, 10, [])
    else RaiseNone
  }

  /** The raise as the code performs it; `sent` is the list of category ids of the
      follow-up request, None when no follow-up is sent. */
  method RaiseGameCategories(title: string, check: RaiseCheck, exclude: Option<seq<string>>, followUp: FollowUp)
    returns (r: RaiseResult, sent: Option<seq<string>>)
    ensures r == RaiseOutcome(title, check, exclude, followUp)
    ensures sent.Some? <==> check.status == 200 && check.error == ErrorAbsent && check.modal.Some?
    ensures sent.Some? ==> sent.value == Ids(KeptBoxes(check.modal.value, exclude))
  {
    sent := None;
    if check.status != 200 {
      return RaiseThrew, None;
    }
    if check.error == ErrorTruthy && Truthy(check.msg) && Contains(check.msg.value, "Подождите") {
      var w := Other.WaitTimeFromRaiseResponse(check.msg.value);
      if w.Err? {
        return RaiseThrew, None;
      }
      return RaiseReply(false, w.value, []), None;
    } else if check.error == ErrorTruthy {
      return RaiseReply(false, 10, []), None;
    } else if check.error == ErrorFalsy {
      return RaiseReply(true, 3600, [title]), None;
    } else if check.modal.Some? {
      var ids, names := CollectCheckboxes(check.modal.value, exclude);
      sent := Some(ids);
      match followUp {
        case FollowUpThrew => r := RaiseThrew;
        case FollowUpReply(err) =>
          r := if !err then RaiseReply(true, 3600, names) else RaiseReply(false, 10, []);
      }
      return;
    }
    return RaiseNone, None;
  }

  /** A throttling message is read by the wait-time parser: the raise is not
      complete and its wait is the parser's delay. */
  lemma ThrottledRaise(title: string, w: Other.AnnouncedWait, modal: Option<seq<Checkbox>>, exclude: Option<seq<string>>, f: FollowUp)
    ensures RaiseOutcome(title, RaiseCheck(200, ErrorTruthy, Some(Other.ResponseText(w)), modal), exclude, f)
      == RaiseReply(false, Other.ExpectedDelay(w), [])
  {
    var text := Other.ResponseText(w);
    assert text[0..|"Подождите"|] == "Подождите";
    ContainsAt(text, "Подождите", 0);
    Other.WaitTimeOfResponseText(w);
  }

  /** The modal path without exclusions raises every category of the form. */
  lemma ModalRaisesAll(title: string, cbs: seq<Checkbox>)
    ensures RaiseOutcome(title, RaiseCheck(200, ErrorAbsent, None, Some(cbs)), None, FollowUpReply(false))
      == RaiseReply(true, 3600, Labels(cbs))
  {
    KeptBoxesMembers(cbs, None);
  }
}
