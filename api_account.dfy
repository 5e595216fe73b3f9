/** The older, function-style client: reading the account's main page, the
    order list and the game of a category. The order filter and the game-id rules
    are the same as in the account class and are shared with it. */
module ApiAccount {
  import opened Types
  import opened Strings
  import FA = FunPayAccount

  /** What the main page yields: its status, the user name element, the user id and
      CSRF token of the embedded application data, the active-sales badge and the
      PHPSESSID cookie. An element that is missing is None; a present element is
      Some of its text, even when that text is empty (a found element is always
      true as a condition). */
  datatype MainPage = MainPage(
    status: int,
    username: Option<string>,
    userId: int,
    csrfToken: string,
    activeSalesBadge: Option<string>,
    sessionCookie: Option<string>)

  datatype AccountData = AccountData(id: int, username: string, activeSales: int, csrfToken: string, sessionId: string)

  datatype AccountError =
    | BadStatus(code: int)   // status other than 200
    | InvalidToken           // no user name on the page
    | NotAnInteger           // the active-sales badge is not a number
    | MissingSession         // no PHPSESSID cookie (KeyError)

  /** The number of active sales: the badge's number, or 0 without a badge. A
      badge that is present but not a number, the empty one included, is an
      error. */
  function ActiveSales(badge: Option<string>): (r: Result<int, AccountError>)
    ensures badge.None? ==> r == Ok(0)
    ensures badge.Some? ==> (r.Ok? <==> ParseInt(badge.value).Some?)
    ensures badge.Some? && r.Ok? ==> Some(r.value) == ParseInt(badge.value)
    ensures r.Err? ==> r == Err(NotAnInteger)
  {
    match badge
    case None => Ok(0)
    case Some(text) =>
      match ParseInt(text)
      case None => Err(NotAnInteger)
      case Some(n) => Ok(n)
  }

  /** An empty badge is not read as zero: the page is refused. */
  lemma EmptyBadgeRaises(page: MainPage)
    requires page.status == 200 && page.username.Some? && page.activeSalesBadge == Some("")
    ensures GetAccountData(page) == Err(NotAnInteger)
  {
  }

  /** The account data, checked in the order of the code: status, user name,
      active sales, session cookie. */
  function GetAccountData(page: MainPage): (r: Result<AccountData, AccountError>)
    ensures r.Ok? <==> page.status == 200 && page.username.Some? && ActiveSales(page.activeSalesBadge).Ok? && page.sessionCookie.Some?
    ensures page.status != 200 ==> r == Err(BadStatus(page.status))
    ensures page.status == 200 && page.username.None? ==> r == Err(InvalidToken)
    ensures r.Ok? ==> r.value.username == page.username.value && r.value.sessionId == page.sessionCookie.value
    ensures r.Ok? ==> r.value.id == page.userId && r.value.csrfToken == page.csrfToken
    ensures r.Ok? ==> Ok(r.value.activeSales) == ActiveSales(page.activeSalesBadge)
  {
    if page.status != 200 then Err(BadStatus(page.status))
    else if page.username.None? then Err(InvalidToken)
    else match ActiveSales(page.activeSalesBadge)
      case Err(e) => Err(e)
      case Ok(sales) =>
        if page.sessionCookie.None? then Err(MissingSession)
        else Ok(AccountData(page.userId, page.username.value, sales, page.csrfToken, page.sessionCookie.value))
  }

  /** A page without the badge reports no active sales. */
  lemma NoBadgeNoSales(page: MainPage)
    requires page.status == 200 && page.username.Some? && page.sessionCookie.Some? && page.activeSalesBadge.None?
    ensures GetAccountData(page).Ok? && GetAccountData(page).value.activeSales == 0
  {
  }

  /** A badge showing a printed number reports that number. */
  lemma BadgeNumberRead(n: int)
    ensures ActiveSales(Some(IntToString(n))) == Ok(n)
  {
    IntToStringShape(n);
    ParseIntToString(n);
  }

  /** The cookie of the order-list request: the token, and the session id only
      when one is given and non-empty. */
  function OrdersCookie(token: string, sessionId: Option<string>): (r: string)
    ensures StartsWith(r, "golden_key=" + token + ";")
    ensures !FA.Truthy(sessionId) ==> r == "golden_key=" + token + ";"
    ensures FA.Truthy(sessionId) ==> r[|"golden_key=" + token + ";"|..] == " PHPSESSID=" + sessionId.value + ";"
  {
    var cookie := "golden_key=" + token + ";";
    if FA.Truthy(sessionId) then cookie + " PHPSESSID=" + sessionId.value + ";" else cookie
  }

  /** The order list: the cookie sent and the orders of the page. */
  method GetAccountOrders(token: string, sessionId: Option<string>, page: FA.OrdersPage,
                          includeOutstanding: bool, includeCompleted: bool, includeRefund: bool,
                          exclude: Option<seq<string>>)
    returns (cookie: string, r: Result<map<string, Order>, FA.PageError>)
    ensures cookie == OrdersCookie(token, sessionId)
    ensures page.status != 200 ==> r == Err(FA.BadStatus(page.status))
    ensures page.status == 200 && !page.hasUser ==> r == Err(FA.InvalidToken)
    ensures page.status == 200 && page.hasUser ==>
      r == Ok(FA.ParsedOrders(FA.OrderFilter(includeOutstanding, includeCompleted, includeRefund, FA.ExcludeList(exclude)), page.rows))
  {
    var ex := FA.ExcludeList(exclude);
    cookie := "golden_key=" + token + ";";
    if FA.Truthy(sessionId) {
      cookie := cookie + " PHPSESSID=" + sessionId.value + ";";
    }
    if page.status != 200 {
      return cookie, Err(FA.BadStatus(page.status));
    }
    if !page.hasUser {
      return cookie, Err(FA.InvalidToken);
    }
    var parsed := FA.ParseOrderRows(FA.OrderFilter(includeOutstanding, includeCompleted, includeRefund, ex), page.rows);
    r := Ok(parsed);
  }

  /** The game of a category: the link requested and the game id the page yields. */
  function GetGameIdByCategoryId(categoryId: int, kind: CategoryType, page: FA.GamePage): (r: (string, Result<int, FA.PageError>))
    ensures var parts := Split(r.0, '/');
      |parts| == 6 && parts[3] == FA.KindDirectory(kind) && ParseInt(parts[4]) == Some(categoryId)
    ensures r.1 == FA.GameIdFromPage(page)
  {
    FA.TradeLinkSegments(categoryId, kind);
    (FA.CategoryTradeLink(categoryId, kind), FA.GameIdFromPage(page))
  }
}
