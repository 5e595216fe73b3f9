# FunPay Cardinal, modelled in Dafny

FunPay Cardinal is a bot for a seller account on the FunPay marketplace. It polls the
marketplace's runner endpoint. It turns chat and order changes into events and hands
each new message to an ordered list of handlers. It answers configured chat commands,
delivers digital products from product files, and periodically "raises" (bumps) the
seller's listings. A second, Telegram-side bot forwards notices to the seller and
relays the seller's answers back to marketplace chats.

This project models the deterministic core of that system. The clock, the network,
the HTML pages and the files are passed in as values.

One module per source file:

| module | file | what it holds |
|---|---|---|
| `Types` | `types.dfy` | the data-only records: categories, lots, orders, runner events, enums |
| `Strings` | `strings.dfy` | Python `str` operations on `seq<char>`: `strip`, `split`, `replace`, `in`, `startswith`, `lower`, `int`, `str` |
| `Other` | `other.dfy` | the throttle-text parser of the raise answer (`FunPayAPI/other.py`) |
| `Runner` | `runner.dfy` | the polling diff engine, a class over the tags and the last-message table (`FunPayAPI/runner.py`) |
| `FunPayAccount` | `funpay_account.dfy` | the send guard, the order-list filter, the game-id rules and the raise decision chain (`FunPayAPI/account.py`) |
| `Users` | `users.dfy` | category headings of a seller's profile (`FunPayAPI/users.py`) |
| `ApiAccount` | `api_account.dfy` | the older function-style client (`API/account.py`) |
| `CardinalCore` | `cardinal.dfy` | the `Cardinal` class: the raise scheduler, handler dispatch, the built-in automatic answer and its retry (`cardinal.py`) |
| `CardinalTools` | `cardinal_tools.dfy` | the category cache, the greeting and the month names (`cardinal_tools.py`) |
| `UtilsTools` | `utils_cardinal_tools.dfy` | the handlers' tools: duration text, the product store, template variables (`Utils/cardinal_tools.py`) |
| `Handlers` | `handlers.dfy` | notification filters, retry counters, lot selection, product take and put-back, lot re-activation (`handlers.py`) |
| `ConfigLoader` | `config_loader.dfy` | `check_param`, the four loaders, and the in-place split of command sections whose name lists several commands (`Utils/config_loader.py`) |
| `Telegram` | `telegram.dfy` | the `TGBot` class: authorized users, notification chats, reply statuses, the help registry, and escaping (`telegram.py`) |

How the model is shaped:

- **Imperative code is modelled as methods.** Code that updates state step by step
  becomes a method with a loop or a class with fields. Examples are the runner's
  table, the game-id table of `raise_lots`, the retry counters, the product list,
  the rewritten command file, and the Telegram bot's lists and maps.
- **Each method is proved against a specification function.** Its `ensures` ties the
  result and the new state to that function: a reference poll, a raise pass, the
  outcomes of the three attempts, the escaped text. Lemmas then state what the
  source promises about that function.
- **Pure code is modelled as functions and lemmas.** This covers the text parser,
  the decision chains, and the month and greeting tables.
- **Exceptions become values.** A Python exception becomes an `Err`, a `None`, or a
  `Threw` or `Crashed` outcome. The error paths are modelled rather than excluded by
  preconditions.
- **Insertion-ordered dictionaries become association lists.** Where the order of a
  Python dict matters, it is a `seq` of key/value pairs; `Find`, `Get` and `Put` in
  `Telegram` have Python's semantics.

Where the code and the repository's design notes disagree, the model follows the code:

- **Throttle parsing.** The design notes give 45 seconds for "Подождите 45 сек." and
  60 for "минуту". The code adds 2 to the seconds, returns 70 for "минуту", and
  returns (N−1)×60+2 for N minutes (`FunPayAPI/other.py:12-20`).
- **Repeated messages.** The design notes treat a message with unchanged text but a
  new timestamp as new. The runner compares only the text
  (`FunPayAPI/runner.py:132-135`).
- **New orders.** The design notes describe a second fetch that finds which orders
  are new. The runner turns each counters object into one `OrderEvent`, and
  `cardinal.py` does nothing with it (`cardinal.py:249-251`).

## Model

| member | source | states |
|---|---|---|
| Other.SecondWordAsInt | FunPayAPI/other.py:13-14 | fails exactly when the answer has fewer than two words or its second word is not an integer, and tells the missing word (IndexError) apart from the bad number (ValueError) |
| Other.WaitTimeFromRaiseResponse | FunPayAPI/other.py:12-24 | the substring tests in their order: "минуту" without "сек" gives 70; with neither "сек" nor "мин" the delay is 3600 for "час" and 10 otherwise; only the two number-reading branches can fail |
| Other.SecondsRead | FunPayAPI/other.py:12-14 | "Подождите n сек." is read as n + 2 seconds |
| Other.OneMinuteRead | FunPayAPI/other.py:15-16 | "Подождите минуту." is read as 70 seconds |
| Other.MinutesRead | FunPayAPI/other.py:17-20 | "Подождите n мин." is read as (n - 1) * 60 + 2 seconds |
| Other.HoursRead | FunPayAPI/other.py:21-22 | "Подождите n час." is read as 3600 seconds |
| Other.WaitTimeOfResponseText | FunPayAPI/other.py:6-24 | every kind of announcement the marketplace sends is read back as the delay its kind calls for |
| Other.AnnouncedDelayPositive | FunPayAPI/other.py:12-20 | a seconds announcement of a non-negative count and a minutes announcement of at least one minute both give a delay of at least 2 seconds |
| Other.SecondsWithoutNumber | FunPayAPI/other.py:12-14 | a text with "сек" and no second word cannot be read (IndexError) |
| Other.UnknownTextDefault | FunPayAPI/other.py:23-24 | an unrecognised answer gives the 10-second default |
| Runner.MessageRunner.constructor | FunPayAPI/runner.py:67-77 | a new runner has the given tags, is on its first request and remembers no message |
| Runner.MessageRunner.Request | FunPayAPI/runner.py:87-103 | a poll sends exactly two sub-requests, the order counters with the order tag and the chat list with the message tag |
| Runner.MessageRunner.UpdateLastMessage | FunPayAPI/runner.py:152-158 | the message becomes the stored last message of its own chat; nothing else changes |
| Runner.MessageRunner.GetUpdates | FunPayAPI/runner.py:113-150 | the events, tags, chat-list HTML and message table are those of the reference poll over the response objects, and the runner is past its first request afterwards |
| Runner.FirstPollSilent | FunPayAPI/runner.py:117-120 | the first poll reports no event at all, whatever the response (lines 142-143 as well) |
| Runner.PollTags | FunPayAPI/runner.py:115-123 | after a poll each tag is the one of the last object of its own kind, or the old tag when there is none |
| Runner.NextRequestCarriesTags | FunPayAPI/runner.py:87-98 | the next poll sends the tags the previous response returned |
| Runner.PollOrderEvents | FunPayAPI/runner.py:115-120 | after the first poll the order events are exactly one per counters object, in response order |
| Runner.PollMessageEvents | FunPayAPI/runner.py:122-143 | after the first poll the message events are exactly one `MessageEvent` of the chat, text and sender with the current message tag for each contact whose text differs from the text on record for its chat (stored before the poll or set by an earlier contact of the same response), in response order |
| Runner.PollTable | FunPayAPI/runner.py:127-141 | after a poll every chat of the response holds the text of its last contact and every other chat keeps its entry |
| Runner.TableOnlyGrows | FunPayAPI/runner.py:152-158 | entries of the message table are only added or overwritten, never removed |
| Runner.ObjectsStepAllUnchanged | FunPayAPI/runner.py:131-135 | when every contact shows the text already stored, the table is unchanged and only order events are reported |
| Runner.RepeatedPollReportsNoMessages | FunPayAPI/runner.py:131-135 | polling the same snapshot again reports no message and changes no entry |
| Runner.OtherObjectIgnored | FunPayAPI/runner.py:145-146 | an object of any other type, wherever it stands, changes nothing |
| FunPayAccount.SendMessageRequest | FunPayAPI/account.py:53-62 | a message is refused exactly when its text is all whitespace; otherwise the request carries the node id and the text unchanged |
| FunPayAccount.ExcludeList | FunPayAPI/account.py:103 | a missing exclusion list behaves as an empty one |
| FunPayAccount.ParseOrderRows | FunPayAPI/account.py:122-150 | the loop over the order rows builds exactly the reference map of kept rows keyed by order id |
| FunPayAccount.ParsedOrdersKeys | FunPayAPI/account.py:122-150 | an order id is in the result exactly when some row with that id has a wanted status and is not excluded |
| FunPayAccount.ParsedOrdersLastRow | FunPayAPI/account.py:150 | the order stored under an id is built from the last kept row with that id |
| FunPayAccount.ParsedOrdersWanted | FunPayAPI/account.py:124-140 | every returned order is stored under its own id, is not excluded and has a wanted status |
| FunPayAccount.RefundWins | FunPayAPI/account.py:124-135 | a row marked both "warning" and "info" counts as a refund |
| FunPayAccount.GetAccountOrders | FunPayAPI/account.py:103-152 | a status other than 200 and a page without the user link are errors; otherwise the result is the filtered rows |
| FunPayAccount.TradeLinkSegments | FunPayAPI/account.py:162-165 | the trade link is "https://funpay.com/<lots or chips>/<id>/trade" and its fifth segment reads back as the category id |
| FunPayAccount.GameIdFromPage | FunPayAPI/account.py:169-186 | a game id is returned exactly when the page is a 200 that shows the user and whose game field is an integer; a 404 is the category-not-found error |
| FunPayAccount.GameIdOfPrintedNumber | FunPayAPI/account.py:181-186 | a page whose game field is a printed number yields that number |
| FunPayAccount.KeptBoxesMembers | FunPayAPI/account.py:245-247 | the checkboxes submitted are exactly those the exclusion list allows, in form order, and all of them when there is no list |
| FunPayAccount.CollectCheckboxes | FunPayAPI/account.py:245-250 | the loop collects the ids and captions of exactly the allowed checkboxes, in form order |
| FunPayAccount.RaiseOutcome | FunPayAPI/account.py:216-267 | a non-200 answer raises; with status 200, an answer with "Подождите" waits the parsed time, any other truthy error gives incomplete with a 10 s wait and no category, a present falsy error gives complete with a 3600 s wait and the one category title, and without an error field a modal form raises the labels of its kept checkboxes (3600 s) unless the follow-up has an error (10 s, incomplete) or throws; None exactly when there is neither an error field nor a modal form |
| FunPayAccount.RaiseGameCategories | FunPayAPI/account.py:216-267 | agrees with the decision chain, and sends the follow-up request exactly on the modal path, with the allowed category ids |
| FunPayAccount.ThrottledRaise | FunPayAPI/account.py:228-230 | a "Подождите" throttling message gives an incomplete raise whose wait is the parser's delay |
| FunPayAccount.ModalRaisesAll | FunPayAPI/account.py:238-265 | the modal path without exclusions raises every category of the form |
| Users.CategoryOfLink | FunPayAPI/users.py:35-48 | a category built from a heading has the heading's link as public link, that link plus "trade" as edit link, the heading's text as title, no game yet, and the kind the link names |
| Users.GetUserCategories | FunPayAPI/users.py:21-50 | a 404 is the user-not-found error, any other non-200 status an error, and a 200 page gives the categories of its wanted headings |
| Users.UserCategoriesNext | FunPayAPI/users.py:32-49 | one turn of the heading loop: an unwanted currency heading is skipped, a heading whose id does not parse fails the page, any other is appended |
| Users.UserCategoriesErrSticks | FunPayAPI/users.py:46 | once a heading fails, the whole page fails with that heading's error |
| Users.UserCategoriesFromHeadings | FunPayAPI/users.py:32-50 | a page succeeds exactly when every wanted heading yields a category, and then it gives one category per wanted heading, in page order |
| Users.NoCurrencyUnlessAsked | FunPayAPI/users.py:35-39 | without the currency flag no currency category is returned |
| Users.CanonicalLinkId | FunPayAPI/users.py:46 | a canonical public link "https://funpay.com/<dir>/<id>/" yields exactly that id |
| ApiAccount.ActiveSales | API/account.py:65 | no badge means 0 active sales; a badge, even one with empty text, is read with `int`: its number exactly when the text is an integer, and otherwise the ValueError |
| ApiAccount.EmptyBadgeRaises | API/account.py:64-65 | a page whose sales badge shows no text makes the whole call fail with the ValueError |
| ApiAccount.GetAccountData | API/account.py:46-76 | the account data is returned exactly when the status is 200, the user name is shown, the sales badge reads and the session cookie is set; the failures are reported in the code's order and the data is taken from the page unchanged |
| ApiAccount.NoBadgeNoSales | API/account.py:65 | a page without the badge reports no active sales |
| ApiAccount.BadgeNumberRead | API/account.py:65 | a badge showing a printed number reports that number |
| ApiAccount.OrdersCookie | API/account.py:99-101 | the cookie is the token, followed by the session id only when there is one |
| ApiAccount.GetAccountOrders | API/account.py:98-147 | the cookie sent is the reference cookie; failures come first, and then the orders are those of the shared order-row filter |
| ApiAccount.GetGameIdByCategoryId | API/account.py:161-185 | the link requested has the kind's directory and the category id as its path segments, and the game id is the one the page yields |
| Types.Retries | cardinal.py:301-317 | a retry loop makes no more calls than there are outcomes, and at least one when there is any |
| Types.RetriesStopAtFirstSuccess | cardinal.py:301-317 | the loop stops at the first success: every earlier call failed, and some call succeeds exactly when the last call made did |
| Types.RetriesAfterFailures | cardinal.py:301-316 | each failed call before the first success costs exactly one attempt |
| CardinalCore.CrashStops | cardinal.py:149-186 | once a raise pass stops on an exception it stays stopped and changes nothing more; a pass that did not stop gave every category a candidate time |
| CardinalCore.PassMinimum | cardinal.py:148-186 | the value a pass returns is -1 exactly when there are no categories, and otherwise no later than the candidate time of any category |
| CardinalCore.PassMinimumAttained | cardinal.py:148-186 | the returned minimum is the candidate time of some category of the pass |
| CardinalCore.BlockedGameSkipped | cardinal.py:152-155 | a game whose stored time is later than the clock reading of every step of the pass keeps that time through the pass and none of its categories is raised |
| CardinalCore.BlockedUntilLast | cardinal.py:152-155 | with a clock that never goes back, a game still blocked at the last step's reading was blocked at every step: it keeps its time and none of its categories is raised |
| CardinalCore.ExpiredMidPass | cardinal.py:150-158 | a category whose game is no longer blocked at its own step's clock reading is raised, even when the game was blocked earlier in the same pass |
| CardinalCore.PassKeepsOtherGames | cardinal.py:149-186 | the game-id table only gains entries, and the entry of a game changes only if one of its categories was raised |
| CardinalCore.RaiseStepTable | cardinal.py:158-185 | a raise request that throws leaves the table alone and offers the step's later clock reading plus 10; an answer (complete or not) stores that reading plus the wait for that game and leaves every other game as it was; a None answer stops the pass |
| CardinalCore.RaiseDelay | cardinal.py:197-209 | the raise loop sleeps ten seconds after an exception, otherwise until the returned time, never a negative delay |
| CardinalCore.MessageCalls | cardinal.py:241-247 | a new message is given to every registered handler once, in registration order |
| CardinalCore.ThrewAmong | cardinal.py:243-247 | the logged handler errors are exactly the call positions that threw: each listed position threw and is below the call count, every position below it that threw is listed, and they are in increasing order |
| CardinalCore.DispatchAppend | cardinal.py:239-251 | handling two batches of events is handling the first and then the second |
| CardinalCore.DispatchSingle | cardinal.py:240-251 | one new message calls every handler; a new order calls none |
| CardinalCore.DispatchCount | cardinal.py:239-247 | a batch costs one handler call per handler for each new message and nothing for orders |
| CardinalCore.Prepare | cardinal.py:260-282 | what `send_response` prepares: no command exactly when the stripped text names no section and is not DEFAULT, the KeyError exactly when the section has no "response", a refusal exactly when the filled-in response is blank, and otherwise that filled-in response, which is not blank |
| CardinalCore.Response | cardinal.py:260-276 | a filled-in response exists exactly when the stripped text is a command of the parser and its section has a "response", and it is that response with the variables filled in |
| CardinalCore.ReplyAttempt | cardinal.py:282-293 | one call succeeds exactly for a non-command, or for a posted reply answered with a truthy error-free "response" while a runner exists; it raises exactly for a missing or refused response, a send that throws, or a success with no runner to record it |
| CardinalCore.PlainResponseUnchanged | cardinal.py:271-275 | a response template without '$' is sent exactly as written |
| CardinalCore.DateVariableLast | cardinal.py:271-275 | "$date" is replaced after the longer "$date_text" and "$full_date_text", so a template "$date" becomes the dd.mm.yyyy date |
| CardinalCore.PostResponse | cardinal.py:260-293 | the reply is posted exactly when the prepared outcome is a reply text, the posted request carries that text to the message's chat, and the call returns what `ReplyAttempt` decides |
| CardinalCore.WrapperOutcomes | cardinal.py:301-317 | the outcomes of the three possible calls of the retry wrapper are those of `send_response` on each successive answer |
| CardinalCore.WrapperCalls | cardinal.py:295-321 | a non-command costs one call and succeeds; a command without a response (DEFAULT included) is tried three times and given up |
| CardinalCore.DefaultTriedThrice | cardinal.py:260-282 | a message whose stripped text is "DEFAULT" passes the `not in` test, because the parser always holds DEFAULT, and then every attempt raises the KeyError of its missing "response", three times |
| CardinalCore.ReplyAttemptAsWritten | cardinal.py:260-283 | as written, a call succeeds exactly for a non-command; every command raises before the send, either the KeyError of a missing response or the AttributeError of reading `msg.send_time`, which the event does not have |
| CardinalCore.WrapperOutcomesAsWritten | cardinal.py:277-317 | as written, the three calls of the retry wrapper all have the outcome of that one as-written attempt |
| CardinalCore.AsWrittenNoCommandAnswered | cardinal.py:260-321 | as written, a command is never answered: it is tried three times and every attempt raises, where the intended call answers at once when the first send succeeds |
| CardinalCore.WrapperCount | cardinal.py:301-317 | when the loop stops, after three failures or right after the first success, it has made exactly the calls `Retries` counts, and it succeeded iff one of the three outcomes is a success |
| CardinalCore.Cardinal.constructor | cardinal.py:21-49 | a new bot is not running, has no categories, an empty game-id table, no handlers and no runner |
| CardinalCore.Cardinal.InitRunner | cardinal.py:133-140 | a fresh runner for the account is created and the log and response handlers are appended in that order |
| CardinalCore.Cardinal.RaiseLots | cardinal.py:142-186 | the new game-id table, the requested categories and the returned time are those of the raise pass over the categories, each step with its own clock readings (one for the block test, one for the new time); without categories the call raises and changes nothing |
| CardinalCore.Cardinal.RaiseIteration | cardinal.py:189-209 | one turn of the raise loop: the raise pass followed by the sleep computed from its result; without categories the pass raises, the loop sleeps ten seconds and the table is kept; the switches, categories, handlers, auto-response parser and runner are unchanged |
| CardinalCore.Cardinal.RunHandlers | cardinal.py:234-251 | the handler calls of a batch are its dispatch, and the errors logged are the calls that threw |
| CardinalCore.Cardinal.SendResponse | cardinal.py:254-293 | returns what `send_response` yields, posts the filled-in reply to the message's chat, and on success records it as the runner's last message of that chat, changing nothing else of the runner |
| CardinalCore.Cardinal.SendResponseWrapperLoop | cardinal.py:295-321 | at most three calls, stopping at the first success; succeeds iff one of the three succeeds; the runner records the reply only then; one date serves all three calls |
| CardinalCore.Cardinal.Run | cardinal.py:344-351 | the bot is marked running and nothing else changes |
| CardinalCore.Cardinal.Stop | cardinal.py:353-358 | the bot is marked stopped and nothing else changes |
| CardinalTools.CacheCategories | cardinal_tools.py:17-28 | the loop builds exactly the reference cache: every category with a known game under "<id>_<type value>", a later one overwriting an earlier one with the same key |
| CardinalTools.CacheNameParts | cardinal_tools.py:27 | the cache key splits at "_" into the printed id and the printed type value |
| CardinalTools.CacheNameInjective | cardinal_tools.py:27 | two categories share a cache key exactly when they have the same id and type |
| CardinalTools.CachedMapHasKey | cardinal_tools.py:18-28 | a key is cached exactly when some category with a known game has it |
| CardinalTools.CachedMapLastValue | cardinal_tools.py:28 | a cached key holds the game id of the last category with that key |
| CardinalTools.LoadCachedCategories | cardinal_tools.py:39-55 | a missing file and a file that is not JSON both give an empty cache; otherwise the decoded content |
| CardinalTools.CacheRestoresGameIds | cardinal_tools.py:10-55 | reading the cache back gives every category with a known game its game id again, provided no other category has the same id and type |
| CardinalTools.Greeting | cardinal_tools.py:63-73 | the greeting by hour of the day, with hour 24 and above falling back to the morning greeting |
| CardinalTools.CurrencyAsWritten | cardinal_tools.py:75 | the condition tests an f-string, which is never None, so the currency is always shown, "None" included |
| CardinalTools.CreateGreetings | cardinal_tools.py:58-82 | the greeting text starts with the greeting of the hour and the coloured user name, and, when the name, balance and currency are single lines, splits at its line breaks into exactly five lines: the greeting, the id, the balance line as written, the active sales and the magenta closing wish |
| CardinalTools.MissingCurrencyShowsNone | cardinal_tools.py:75-79 | an account without a currency sign gets the word "None" right after its balance |
| CardinalTools.MonthName | cardinal_tools.py:85-107 | months 1 to 12 give their genitive names, numbers above 12 give January, 0 down to -11 index from the end as Python does, and lower numbers raise |
| CardinalTools.MonthNamesDistinct | cardinal_tools.py:91-104 | distinct months have distinct names |
| UtilsTools.CurrencyText | Utils/cardinal_tools.py:86 | no currency gives nothing, a currency gives a space and the sign |
| UtilsTools.CreateGreetings | Utils/cardinal_tools.py:68-93 | the greeting text starts with the greeting of the hour and the user name after the colour placeholder, and, when the name, balance and currency are single lines, splits at its line breaks into exactly five lines: the greeting, the id, the balance line with its optional currency, the active orders and the closing wish |
| UtilsTools.BalanceLineCurrency | Utils/cardinal_tools.py:86-90 | without a currency the balance is followed directly by the full stop; with one, by a space and the sign |
| UtilsTools.TimePartsDecompose | Utils/cardinal_tools.py:129-133 | hours, minutes and seconds by floor division make up the duration, with minutes and seconds below sixty |
| UtilsTools.TimeToStrIsJoin | Utils/cardinal_tools.py:135-144 | "0 сек" exactly for a zero duration, otherwise the non-zero hours, minutes and seconds joined by single spaces |
| UtilsTools.ZeroExactlyWhenPartsZero | Utils/cardinal_tools.py:135-136 | a duration is zero exactly when all three parts are zero |
| UtilsTools.SixtyOneSeconds | Utils/cardinal_tools.py:122-144 | 61 seconds read "1мин 1сек" |
| UtilsTools.OneHour | Utils/cardinal_tools.py:122-144 | 3600 seconds read "1ч", with no zero minutes or seconds |
| UtilsTools.ProductStore.constructor | Utils/cardinal_tools.py:154-157 | the store holds the products of the file in file order |
| UtilsTools.ProductStore.GetProduct | Utils/cardinal_tools.py:147-168 | an empty file is the no-products error and stays as it is; otherwise the first product and the number left are returned and the rest keeps its order |
| UtilsTools.ProductStore.AddProduct | Utils/cardinal_tools.py:171-186 | the product is appended at the end of the file |
| UtilsTools.TakeAndReturnKeepsStock | Utils/cardinal_tools.py:147-186 | taking a product and putting it back keeps the same stock, with that product moved to the end |
| UtilsTools.FormatMsgText | Utils/cardinal_tools.py:189-218 | the template with the seven message variables replaced one after another, in dictionary order |
| UtilsTools.FormatOrderText | Utils/cardinal_tools.py:221-250 | the template with the seven order variables replaced one after another, in dictionary order |
| UtilsTools.DateTextsPlain | Utils/cardinal_tools.py:197-204 | no date, time or month text contains a '$' |
| UtilsTools.PlainTemplateUnchanged | Utils/cardinal_tools.py:216-218 | a template without a '$' comes out unchanged |
| UtilsTools.DateTextReplacedWhole | Utils/cardinal_tools.py:206-217 | "$date_text" is replaced before "$date", so it becomes the day and month and not the numeric date followed by "_text" |
| Handlers.NewMessageText | handlers.py:65-67 | the notification text starts with the "$userlink" header and ends with the message text itself |
| Handlers.NewMessageNotification | handlers.py:49-73 | nothing is sent exactly when there is no bot, the setting is off, the stripped text is a command, or a role word occurs with one of the three service phrases; otherwise the text carries the sender link replacement and the reply button of the chat |
| Handlers.CommandsNotForwarded | handlers.py:58-59 | a command is never forwarded, whatever the other settings |
| Handlers.RoleWordAloneForwarded | handlers.py:61-64 | a role word alone, without a service phrase, does not stop the notification |
| Handlers.AnswerAttempt | handlers.py:84-90 | corrected lookup by the key the guard checked: a configured response gives the send's outcome, an unknown key raises |
| Handlers.AnswerOutcomesAsWritten | handlers.py:84-125 | the three attempts as written all raise: the section is looked up by the stripped text without lower-casing, and when that succeeds reading `msg.send_time`, which the event does not have, raises AttributeError |
| Handlers.AnswerFaultAsWritten | handlers.py:84-87 | which exception each as-written attempt raises: the KeyError exactly when the stripped text names no section with a "response", and otherwise the AttributeError of reading `msg.send_time`, evaluated before the `MessageEvent` call |
| Handlers.AsWrittenNeverAnswered | handlers.py:84-128 | as written, a message that passes the guard is never answered: all three attempts raise and the handler gives up after three |
| Handlers.AnswerOutcomes | handlers.py:84-125 | the three attempts with the corrected lookup |
| Handlers.AsWrittenCaseMismatchKeyError | handlers.py:84-103 | as written, a message whose lower-cased key is a command but whose own stripped text is not passes the guard and fails with the KeyError |
| Handlers.CaseMismatchExample | handlers.py:84-103 | the command "hello" and the message "Hello" are such a message |
| Handlers.ConfiguredCommandAnsweredAtOnce | handlers.py:108-125 | with the corrected lookup, a configured command whose first send succeeds is answered on the first attempt |
| Handlers.AnswerText | handlers.py:84-85 | an answer text exists exactly when the checked key names a section with a "response" |
| Handlers.SendAnswer | handlers.py:76-90 | one attempt: the corrected outcome and the filled-in answer text |
| Handlers.FailuresExtend | handlers.py:110-124 | a further failed attempt extends the run of failures |
| Handlers.SendResponseHandler | handlers.py:93-128 | nothing when automatic answers are off or the key is not a command; otherwise as many calls as the retry rule allows, done iff one of the three succeeds |
| Handlers.QuotedNames | handlers.py:170 | every category name is put in double quotes, in order |
| Handlers.QuotedListIsJoin | handlers.py:170 | the generated list is the quoted names joined by ", " followed by one more ", " |
| Handlers.CatsTextIsJoin | handlers.py:170 | after stripping and dropping the last character the text is the quoted names joined by ", ", with no trailing separator, and "" for no names |
| Handlers.RaisedNotification | handlers.py:156-173 | the notice is sent exactly when there is a bot and the setting is on, and names the joined categories, the game id and the wait text |
| Handlers.SendProductText | handlers.py:177-208 | at most three sends, stopping at the first success; True iff one of the three succeeds |
| Handlers.FirstMatch | handlers.py:222-227 | the first entry of a name list, in its order, whose name occurs in the order title, or None when there is none; the delivery applies it to the parser's iteration, DEFAULT first |
| Handlers.FindLot | handlers.py:221-225 | the search loop over the parser's iteration (DEFAULT first, then the sections in file order) finds that first matching name |
| Handlers.TakenFrom | handlers.py:222-240 | a product is taken only from an existing non-empty products file of the matched lot, which is a real section (never the key-less DEFAULT) with a "response" |
| Handlers.DeliveryOutcome | handlers.py:211-248 | None iff no name in the parser's iteration order (DEFAULT first) occurs in the title; a title containing "DEFAULT" raises the KeyError of its missing "response"; a delivered result always reports -1 left and its success is that of the send; with a product the text has the first product in place of "$product" |
| Handlers.Iterated | handlers.py:222 | iterating the parser yields DEFAULT, without parameters, before the sections in file order |
| Handlers.DeliveryOutcomeAsWritten | handlers.py:186-248 | as written, the outcome is None exactly when no name matches the title, every match ends in an error, and a match that takes a product raises in `send_product_text`, at the five-argument `MessageEvent` call before its send loop; this takes the buyer lookup at line 229 to exist |
| Handlers.StockAfterAsWritten | handlers.py:237-247 | as written, the products file taken from loses its first product, which is never given back, and every other file keeps its list |
| Handlers.AsWrittenProductLost | handlers.py:186-247 | as written, a delivery is never reported as delivered, and when a product was taken it is reported as raised while the file has one product fewer: exactly the first product is gone |
| Handlers.DeliveryOutcomeWithAccount | handlers.py:221-229 | with the account class of the core, None exactly when no name in the iteration order occurs in the title, and otherwise the AttributeError of the missing buyer lookup |
| Handlers.LookupRaisesFirst | handlers.py:221-238 | with that account class a matched lot is reported as the lookup's exception, which the other descriptions never give; a "DEFAULT" title raises there instead of at the missing "response" |
| Handlers.DefaultInTitleRaises | handlers.py:222-230 | an order title containing "DEFAULT" selects the key-less DEFAULT and raises the KeyError of its "response", changing no file |
| Handlers.StockKept | handlers.py:237-247 | every file but the one taken from keeps its list; a successful send removes exactly the first product and a failed one moves it to the end |
| Handlers.Stock | Utils/cardinal_tools.py:147-168 | the product lists held by the files, path by path |
| Handlers.DeliverProduct | handlers.py:211-248 | returns the delivery outcome and leaves the files holding the stock after the delivery |
| Handlers.DeliverFromFile | handlers.py:237-248 | an empty file raises and changes nothing; otherwise the first product fills "$product", and it is given back at the end of the list when the send fails |
| Handlers.ReportMatchesStock | handlers.py:243-277 | a product leaves its file exactly when the handlers are told of a delivery; on a reported failure the file holds the same products |
| Handlers.UnconfiguredLotIgnored | handlers.py:221-264 | a title that contains no configured lot name is reported to nobody when it does not contain "DEFAULT", and as the KeyError of the missing "response" when it does; every file is left as it was |
| Handlers.DeliverProductHandler | handlers.py:251-277 | nothing when automatic delivery is off; otherwise the delivery handlers get the text on success, and a failure after the attempts or on an exception |
| Handlers.FirstSome | handlers.py:347-354 | the first fetch that did not throw, or None when all threw |
| Handlers.ToRestore | handlers.py:359-361 | the lots to re-activate are no more than the configured lots |
| Handlers.ToRestoreMembers | handlers.py:359-363 | a lot is re-activated iff it is configured and its id was not fetched |
| Handlers.ToRestoreAppend | handlers.py:360-363 | the lots of two lists to re-activate are those of each list, in order |
| Handlers.RestoreRequests | handlers.py:360-367 | the loop requests exactly the lots to re-activate, in configuration order |
| Handlers.ActivateLotsHandler | handlers.py:334-367 | nothing when restoring is off; three failed fetches request nothing; otherwise the fetches stop at the first success and each configured lot missing from it is requested once |
| ConfigLoader.CheckParam | Utils/config_loader.py:11-51 | a missing parameter raises ParamNotExists when required and gives None when optional; a present one succeeds iff its stripped value is non-empty and among the valid values when they are given, and then returns the stripped value; an empty value raises ParamValueEmpty |
| ConfigLoader.CheckParamIgnoresPadding | Utils/config_loader.py:43-51 | checking the raw value and checking it stripped give the same verdict |
| ConfigLoader.CheckParamIdempotent | Utils/config_loader.py:43-51 | the value returned passes the same check again, unchanged |
| ConfigLoader.CheckParamsOk | Utils/config_loader.py:89-93 | the parameters of a section pass iff each passes `check_param` as a required one |
| ConfigLoader.CheckSectionsOk | Utils/config_loader.py:85-93 | the main file passes iff every listed section is present and all its parameters pass |
| ConfigLoader.ValidParam | Utils/config_loader.py:85-93 | in a main file that loads, every listed parameter is present, non-empty once stripped, and one of its valid values when it has them |
| ConfigLoader.MainConfigSettings | Utils/config_loader.py:63-94 | a main file that loads has the three sections, its automatic-answer, delivery, restore and notification switches are "0" or "1", and the key, token and bot name are non-empty |
| ConfigLoader.MissingFunPaySection | Utils/config_loader.py:85-87 | a missing "FunPay" section is reported as SectionNotExists before anything else is looked at |
| ConfigLoader.LotsConfigValid | Utils/config_loader.py:97-109 | the lots file loads iff every lot either has no `exclude_auto_restore` or has "0" or "1" there |
| ConfigLoader.CheckDeliveryLotOk | Utils/config_loader.py:155-184 | one delivery lot passes iff it has a non-empty response and, when it names a products file, the file exists, parses, is not empty and the response holds "$product" |
| ConfigLoader.AutoDeliveryConfigValid | Utils/config_loader.py:145-186 | the delivery file loads iff every lot passes that check |
| ConfigLoader.CheckCommandOk | Utils/config_loader.py:123-126 | a command section passes iff it has a non-empty response, a "0"/"1" notification switch if any and a non-empty notification text if any |
| ConfigLoader.CheckCommandsOk | Utils/config_loader.py:122-126 | the command file passes its checks iff every section is a valid command |
| ConfigLoader.CheckCommandsFirstErr | Utils/config_loader.py:122-126 | the first section, in file order, that fails decides the error |
| ConfigLoader.Multi | Utils/config_loader.py:129-130 | the combined sections are exactly the section names holding a vertical bar |
| ConfigLoader.Singles | Utils/config_loader.py:122-130 | the other sections are exactly the names without a vertical bar |
| ConfigLoader.Pieces | Utils/config_loader.py:134-137 | the commands of a combined section are its name split at a vertical bar, each stripped, none holding a vertical bar |
| ConfigLoader.FlatPush | Utils/config_loader.py:132-140 | the names produced by a list of sections followed by one more section are those of the list followed by that section's pieces |
| ConfigLoader.PiecesExample | Utils/config_loader.py:134-137 | the name made of "a ", a bar and " b" gives the commands "a" and "b" |
| ConfigLoader.ConfigParser.constructor | Utils/config_loader.py:119-120 | a parsed file holds its section names in order, each once, none "DEFAULT" |
| ConfigLoader.ConfigParser.AddSection | Utils/config_loader.py:137 | a new empty section is added at the end; "DEFAULT" or an existing name raises and changes nothing |
| ConfigLoader.ConfigParser.Set | Utils/config_loader.py:139 | sets one parameter of an existing section; a missing section raises NoSectionError |
| ConfigLoader.ConfigParser.RemoveSection | Utils/config_loader.py:140 | the section is gone afterwards and nothing else changes |
| ConfigLoader.AddCommand | Utils/config_loader.py:137-139 | one command is added as a copy of its combined section iff the name is free and not "DEFAULT" |
| ConfigLoader.CopyParams | Utils/config_loader.py:138-139 | the parameter loop fills the new section with exactly the combined section's parameters |
| ConfigLoader.SplitCommand | Utils/config_loader.py:132-140 | one combined section is replaced by its commands iff none of them clashes |
| ConfigLoader.AutoResponseLoaded | Utils/config_loader.py:132-140 | after a successful load the plain sections are kept as they were and every command of a combined section holds a copy of it, and nothing else is a section |
| ConfigLoader.AutoResponseValid | Utils/config_loader.py:112-142 | after a successful load every section is a valid command |
| ConfigLoader.LoadAutoResponseConfig | Utils/config_loader.py:112-142 | a failing check is reported with the file unchanged; otherwise loading succeeds iff no command clashes, and the sections are then the rewritten ones |
| ConfigLoader.CheckAndCollect | Utils/config_loader.py:122-130 | the first loop checks every section in file order and collects the combined ones |
| ConfigLoader.SplitAll | Utils/config_loader.py:132-140 | the second loop splits each combined section in turn, succeeding iff no command clashes |
| ConfigLoader.SplitNext | Utils/config_loader.py:132-140 | one pass of the loop over the multi-name sections: it succeeds exactly when the names written so far plus this section's pieces are still distinct and none is "DEFAULT", and then the sections are those after rewriting the first k+1 multi-name sections |
| Telegram.IsReplyingEntry | telegram.py:50-56 | a user is answering iff the chat and the user have an entry and that status starts with "reply_to_node_id:" |
| Telegram.SetStatusEntry | telegram.py:121-124 | setting a status (creating the chat's map when missing) changes that one entry and no other |
| Telegram.PopStatusEntry | telegram.py:137-164 | popping a status removes that one entry and no other |
| Telegram.SplitAfterPrefix | telegram.py:124 | splitting callback data that starts with the prefix at ':' gives the prefix name and then the pieces of the rest |
| Telegram.ReplyStatus | telegram.py:123-124 | the stored status again starts with "reply_to_node_id:" |
| Telegram.ButtonRoundTrip | telegram.py:114-156 | the data of a reply button for chat n (handlers.py builds it at line 30) is stored unchanged as the status, and the chat read back from it is n |
| Telegram.ReplyCleared | telegram.py:148-167 | after forwarding an answer the user is no longer answering, whether the forward worked or not and also without the core; the answer goes to the status's node and every other status is kept |
| Telegram.SendReplyStepAsWritten | telegram.py:150-165 | as written, with the core present the handler fails before forwarding: the five-argument `MessageEvent` call raises and the outer handler catches it; without the core it does what the intended step does |
| Telegram.AsWrittenReplyingStays | telegram.py:150-167 | as written, a user answering a chat stays in answering mode and the step ends in the outer handler's crash branch, where the intended step clears the status |
| Telegram.BadNodeIdKept | telegram.py:156-167 | a status whose node id does not parse raises before the pop: the statuses stay as they were |
| Telegram.RemoveFirst | telegram.py:192 | `remove` shortens the list by one exactly when the element is in it |
| Telegram.IndexOf | telegram.py:192 | the position of the first occurrence |
| Telegram.RemoveFirstCut | telegram.py:192 | `remove` cuts out exactly the first occurrence |
| Telegram.RemoveFirstAt | telegram.py:192 | the elements before the first occurrence keep their place and those after move up by one |
| Telegram.RemoveFirstMultiset | telegram.py:192 | removing a present element takes out exactly one copy of it |
| Telegram.RemoveFirstNoDup | telegram.py:186-193 | a list without repetitions stays so and no longer holds the removed element |
| Telegram.AddRemoveRoundTrip | telegram.py:177-192 | adding an absent chat and removing it again gives the list back |
| Telegram.AppendNoDup | telegram.py:173-177 | appending an absent element keeps a list without repetitions |
| Telegram.Find | telegram.py:286-289 | the position of a key in an insertion-ordered dictionary is its first occurrence, or the length when absent |
| Telegram.FindAgrees | telegram.py:286-289 | a key is found at the same place in a dictionary whose keys agree and whose extra keys differ |
| Telegram.PutGet | telegram.py:287-289 | after a write the written key reads the new value and every other key reads what it did |
| Telegram.PutPut | telegram.py:287-289 | a second write of the same key overrides the first |
| Telegram.PutOrder | telegram.py:268-289 | a write keeps the order of the keys: an existing key keeps its place and a new key goes last |
| Telegram.PutDistinct | telegram.py:287-289 | a write keeps the keys distinct |
| Telegram.ConcatAppend | telegram.py:267-274 | building the text in two runs is building it in one |
| Telegram.ConcatContains | telegram.py:267-274 | what one piece of the text contains, the whole text contains |
| Telegram.Lines | telegram.py:273-274 | one indented "command - help" line per command, in order |
| Telegram.Blocks | telegram.py:268-274 | one part per module, in registry order |
| Telegram.HelpListsCommand | telegram.py:261-276 | every command of every module has its line in the help, and every module with commands has its header line; both also hold, stripped, in the stripped help that `generate_help_text` returns |
| Telegram.StripHeader | telegram.py:272 | a module header line, stripped, is the stripped module name |
| Telegram.CommandLineStripped | telegram.py:273-274 | a command line whose command starts and whose help ends with a visible character, stripped, is exactly "command - help" |
| Telegram.HelpBodyAppend | telegram.py:268-274 | the help of two registries one after the other is the two helps one after the other |
| Telegram.HelpBodySnoc | telegram.py:268-274 | one more module in the loop adds exactly that module's block to the end of the help text built so far |
| Telegram.HelpSkipsEmpty | telegram.py:269-270 | a module without commands adds nothing to the help, wherever it stands |
| Telegram.WithCommandSpec | telegram.py:278-289 | after registering a command its module holds it with the new text, and every other command and module reads as before |
| Telegram.WithCommandWellFormed | telegram.py:278-289 | registering a command keeps module names and the commands of each module distinct |
| Telegram.RegisteredCommandListed | telegram.py:261-289 | a command just registered under any module appears in the help; in the returned, stripped help its stripped line appears, and "command - help" itself when the command starts and the help ends with a visible character |
| Telegram.EscapeCharsDistinct | telegram.py:243 | the escaped characters are 18 distinct ones and do not include the backslash |
| Telegram.EscapeWithNone | telegram.py:243-245 | with no characters to escape the text is unchanged |
| Telegram.EscapeStep | telegram.py:244-245 | one more `replace` of a new character other than the backslash escapes that character too |
| Telegram.EscapeHead | telegram.py:243-245 | the escaped text starts with a character that is not itself escaped |
| Telegram.UnescapeEscape | telegram.py:243-245 | escaping loses nothing: reading the escapes back gives the original text |
| Telegram.EscapeMarkdown | telegram.py:243-245 | the loop of replacements yields the text with every one of the 18 characters prefixed by a backslash |
| Telegram.AppendModule | telegram.py:269-274 | one module's turn of the loop appends its part of the help |
| Telegram.TGBot.constructor | telegram.py:60-77 | the loaded user and chat lists, nobody answering, and the help registry with the three built-in commands |
| Telegram.TGBot.RegAdmin | telegram.py:93-112 | the user is appended iff the text is the secret key and the chat is private; the reply is none outside a private chat, the welcome for the key and the password request otherwise; a list without repetitions stays so |
| Telegram.TGBot.Reply | telegram.py:114-128 | the user's status in the chat becomes "reply_to_node_id:" and the node id of the data, the user is then answering, and nothing else changes |
| Telegram.TGBot.CancelReply | telegram.py:130-145 | the status is removed iff the user was answering; otherwise nothing changes; afterwards the user is not answering |
| Telegram.TGBot.SendReplyMessage | telegram.py:147-167 | the new statuses and the outcome are those of forwarding the answer |
| Telegram.TGBot.AddChat | telegram.py:170-183 | the chat is appended iff it was absent, it is in the list afterwards, and a list without repetitions stays so |
| Telegram.TGBot.RemoveChat | telegram.py:185-198 | the chat's first occurrence is removed iff it was present, and from a list without repetitions it is then gone |
| Telegram.TGBot.SendNotification | telegram.py:236-259 | the message is the escaped text with the replacements applied after escaping, in order, and it goes to every notification chat in list order |
| Telegram.TGBot.GenerateHelpText | telegram.py:261-276 | the help text is the stripped run of the modules' parts |
| Telegram.TGBot.AddCommandHelp | telegram.py:278-289 | the registry becomes the one with that command set under the module, created when missing, and stays well formed |

## Left out

- HTTP requests, JSON decoding, cookies and the HTML queries are left out. Without a network or a DOM, the answers are given as already decoded records: runner objects, contacts, order rows, checkboxes, headings and page statuses. This covers `request_lots_raise` and `get_account` of `FunPayAPI/account.py`, whose logic is only the request and the page parsing.
- The clock and sleeps are left out. `time.time()`, `datetime.now()` and every `time.sleep` become a `now`/`later` parameter or a computed delay, and the date is a `DateTime` value. In `raise_lots` each category reads the clock twice, for the block test and for the new time; these readings are a `Reading` per category, and the lemmas that need a clock that never goes back say so (`Ticking`). `SaneTimes` lets a wait be negative, as the "Подождите 0 мин." answer gives, as long as the new time is not. `send_response` reads `datetime.now()` on each call, two seconds after a failed one; `SendResponseWrapperLoop` uses one date `d` for all three calls, so it does not capture a retry that crosses midnight and fills in another date.
- Threads are not modelled. `Thread(...).start()` in `cardinal.py` and `handlers.py` is a direct call or a returned value; `running` is a plain field that `Run` and `Stop` set.
- The endless loops are one iteration each. `lots_raise_loop`, `listen_runner` and `run_handlers` are left out as loops; `RaiseIteration` is one turn of the raise loop and `RunHandlers` handles one batch of events. This leaves out the switches they read (`autoRaise`, `autoResponse`, `autoSell`), the six-second poll pause, and the empty batch `listen_runner` yields when polling throws.
- Floating point is left out, because the prices and balances are decimal numbers the core never computes with. A balance is the text the page shows.
- Files are not modelled. The category cache, the product files and the Telegram user and chat lists are in-memory values: the cache is its decoded content, a product file is a `ProductStore` holding its list, and saving a list is not modelled.
- Logging is left out because it is output only. This covers `log_msg` in `cardinal.py` and `log_msg_handler` in `handlers.py`.
- The start-up retry loops of `cardinal.py` (`__init_account`, `__init_categories`) are left out, because they retry a network call until it succeeds. Their cache step is stated by `CardinalTools.CacheRestoresGameIds`.
- Four `handlers.py` handlers are not part of this model: `send_command_notification_handler`, `send_new_order_notification_handler`, `send_delivery_notification_handler` and `send_bot_started_notification_handler`. They only build a notice text and hand it to the Telegram bot.
- The Telegram library surface is left out, because it is I/O: messages, keyboards, callback answers, polling, `show_menu`, the commands, about and log buttons, `init` and `run`. A Telegram send is taken to succeed.
- `MessageEvent` has the four fields of `FunPayAPI/runner.py:31-35`. The five-argument calls at `cardinal.py:277-281`, `handlers.py:87`, `handlers.py:188` and `telegram.py:157` raise as written: the first two read `msg.send_time`, which the event does not have, so they raise AttributeError before the call; the other two pass `None` and raise the TypeError of the extra argument; the as-written members of "## Findings" model that, and the members listed next describe the intended four-field record instead. A `None` sender or tag is the empty string.
- ReplyAttempt: describes one call of `send_response` with the intended four-field record; as written, `cardinal.py:277-281` raises before the send, so no command is answered (see Findings).
- PostResponse: posts the reply built with the intended four-field record; as written, `cardinal.py:277-281` raises before the send, so no command is answered (see Findings).
- WrapperOutcomes: gives the outcomes of the retry wrapper over the intended attempt; as written, `cardinal.py:277-281` raises before the send, so no command is answered (see Findings).
- SendResponse: posts and records the reply built with the intended four-field record; as written, `cardinal.py:277-281` raises before the send, so no command is answered (see Findings).
- SendResponseWrapperLoop: lets the runner record a reply built with the intended four-field record; as written, `cardinal.py:277-281` raises before the send, so no command is answered (see Findings).
- AnswerAttempt: describes one attempt with the corrected lookup and the intended four-field record; as written, `handlers.py:87` raises on every attempt, so no command is answered (see Findings).
- AnswerOutcomes: gives the three attempts with the corrected lookup and the intended record; as written, `handlers.py:87` raises on every attempt, so no command is answered (see Findings).
- ConfiguredCommandAnsweredAtOnce: answers a configured command with the intended record; as written, `handlers.py:87` raises on every attempt, so no command is answered (see Findings).
- SendAnswer: sends the answer built with the intended record; as written, `handlers.py:87` raises on every attempt, so no command is answered (see Findings).
- SendResponseHandler: is done when one of the intended attempts succeeds; as written, `handlers.py:87` raises on every attempt, so no command is answered (see Findings).
- SendProductText: sends with the intended four-field record; as written, `handlers.py:188` raises before the send, so nothing is delivered and a product taken from its file is lost (see Findings).
- DeliveryOutcome: reports the send of the intended record for a matched section with a "response"; its DEFAULT and missing-"response" cases are as written given a buyer lookup that exists (with the account class of the core, `handlers.py:229` raises first, see `DeliveryOutcomeWithAccount`); as written, `handlers.py:188` raises before the send, so nothing is delivered and a product taken from its file is lost (see Findings).
- StockKept: puts the product back at the end of its file when the intended send fails; as written, `handlers.py:188` raises before the send, so nothing is delivered and a product taken from its file is lost (see Findings).
- DeliverProduct: delivers with the intended record; as written, `handlers.py:188` raises before the send, so nothing is delivered and a product taken from its file is lost (see Findings).
- DeliverFromFile: gives the product back when the intended send fails; as written, `handlers.py:188` raises before the send, so nothing is delivered and a product taken from its file is lost (see Findings).
- ReportMatchesStock: relates the report to the files under the intended send; as written, `handlers.py:188` raises before the send, so nothing is delivered and a product taken from its file is lost (see Findings).
- DeliverProductHandler: reports the outcome of the intended delivery; as written, `handlers.py:188` raises before the send, so nothing is delivered and a product taken from its file is lost (see Findings).
- SendReplyStep: forwards the answer with the intended four-field record and leaves answering mode; as written, `telegram.py:157` raises, the outer handler catches it and the user stays in answering mode (see Findings).
- ReplyCleared: states that the intended step leaves answering mode; as written, `telegram.py:157` raises, the outer handler catches it and the user stays in answering mode (see Findings).
- SendReplyMessage: follows the intended step; as written, `telegram.py:157` raises, the outer handler catches it and the user stays in answering mode (see Findings).
- `handlers.py` calls members of the bot that `cardinal.py` does not define (`send_message`, `run_handlers`, `telegram`, `lots`, `delivery_event_handlers`). They are modelled as parameters, namely a send `Attempt`, the lots, and the report returned to the delivery handlers.
- `handlers.py` also calls three functions that the marketplace modules do not define: `cardinal.account.get_node_id_by_username` (`handlers.py:229`), `FunPayAPI.users.get_user_lots_info` (`handlers.py:349`) and `cardinal.account.change_lot_state` (`handlers.py:363`). As written each raises AttributeError. `DeliveryOutcome`, `DeliveryOutcomeAsWritten`, `StockAfterAsWritten`, `AsWrittenProductLost` and the delivery methods take the buyer lookup to exist and to return the chat; `DeliveryOutcomeWithAccount` and `LookupRaisesFirst` state what happens with the account class of the core, where every matched lot raises at `handlers.py:229` before its response is read or a product is taken. `ActivateLotsHandler` takes the fetch outcomes as a parameter; as written every fetch raises, which is its case of three failed fetches: it gives up after three and requests nothing.
- `Utils/cardinal_tools.py` repeats `cache_categories`, `load_cached_categories` and `get_month_name` of `cardinal_tools.py` line for line, so they are modelled once, in `CardinalTools`. Its greeting reads `account.active_orders`, which the account classes do not define; the model takes that number as a parameter.
- `Strings.ParseInt` approximates Python's `int()`: it accepts surrounding whitespace, a sign and ASCII digits. Digit-group underscores and non-ASCII digits, which `int()` also accepts, are not modelled.
- `Strings.Lower` lower-cases only Latin and Cyrillic letters, the only ones a command name is expected to contain.
- `configparser` is modelled as the mapping of sections to parameters that the loaders read, plus the section `DEFAULT`, which `in` always finds and iteration yields first, without parameters (`.sections()` excludes it). The ini syntax, the lower-casing of option names, interpolation, and parameters written under a `[DEFAULT]` header (and their inheritance by the other sections) are not modelled.
- The text of `JSONParseError` (the decoder's message) and the `__str__` texts of the other exceptions in `Utils/exceptions.py` are left out; the errors carry their other arguments.
- `Telegram.Escape` escapes the 18 characters that the code lists. Unlike the code, it does not state the further MarkdownV2 requirement that a backslash be escaped too.
- The `orders_counters` object is modelled as the runner reads it, turning into one `OrderEvent`. The follow-up fetch that would find the new orders does not exist in the code.

## Findings

| source | as written | input that shows it | evidently intended | confidence | as-written member | corrected member |
|---|---|---|---|---|---|---|
| handlers.py:84-103 | the guard tests the stripped, lower-cased text against the command sections, but `send_response` looks the section up by the stripped text without lower-casing, so a `KeyError` is raised on each of the three attempts | command section "hello", message "Hello" | look the section up by the same key the guard tested | not executed | Handlers.AsWrittenCaseMismatchKeyError | Handlers.AnswerAttempt |
| cardinal_tools.py:75 | the condition tests whether the f-string `" {account.currency}"` is None, which it never is, and then prints the bare currency | an account without a currency: its balance is printed followed by "None" | the currency after a space when there is one, else nothing (as `Utils/cardinal_tools.py:86` writes it) | not executed | CardinalTools.MissingCurrencyShowsNone | UtilsTools.BalanceLineCurrency |
| cardinal.py:277-281 | `send_response` builds its record with five arguments (`msg.send_time` included), but `MessageEvent` takes four fields and the event has no `send_time`, so every command with a response raises before its send | any message whose stripped text is a section with a "response" | build the four-field record, send, and record it as the chat's last message | not executed | CardinalCore.AsWrittenNoCommandAnswered | CardinalCore.ReplyAttempt |
| handlers.py:87 | the handlers' `send_response` reads the same missing `msg.send_time` for its record, so even a correctly looked-up command raises AttributeError on each of the three attempts | any configured command with a "response" | build the four-field record and send it | not executed | Handlers.AsWrittenNeverAnswered | Handlers.ConfiguredCommandAnsweredAtOnce |
| handlers.py:188 | `send_product_text` builds a five-argument record before its `try`, so it raises; given a buyer lookup at line 229 that returns the chat, the product already taken from its file at line 238 is never put back (with the account class of the core that lookup raises first and nothing is taken) | a lot with a non-empty products file whose name occurs in the order title | send with a four-field record, and put the product back when the send fails | not executed | Handlers.AsWrittenProductLost | Handlers.StockKept |
| telegram.py:157 | the answer is wrapped in a five-argument record; the outer `except` at line 165 catches the error and skips the `pop` at line 164, so the user stays in answering mode | a user answering a chat while the core is running | forward the answer and leave answering mode | not executed | Telegram.AsWrittenReplyingStays | Telegram.ReplyCleared |
