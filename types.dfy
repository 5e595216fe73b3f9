/** Records shared by the marketplace API client, the bot core and its handlers.
    They mirror the data-only classes of the repository (enums, categories, orders,
    lots and runner events); every field that the core reads is kept. */
module Types {

  datatype Option<+T> = None | Some(value: T)

  datatype Result<+T, +E> = Ok(value: T) | Err(error: E)

  /** Kinds of listing categories; `Value` is the enum's integer value. */
  datatype CategoryType = Lot | Currency {
    function Value(): int {
      match this
      case Lot => 0
      case Currency => 1
    }
  }

  /** A category of the account's listings. `gameId` is None until it is resolved. */
  datatype Category = Category(
    id: int,
    gameId: Option<int>,
    title: string,
    editLotsLink: string,
    publicLink: string,
    kind: CategoryType)

  datatype OrderStatus = Outstanding | Completed | Refund

  /** An order as the order-list page shows it (the paid price is not modelled). */
  datatype Order = Order(id: string, title: string, buyerName: string, buyerId: int, status: OrderStatus)

  /** A listing of the account. */
  datatype Lot = LotRecord(categoryId: int, gameId: Option<int>, id: int, title: string)

  /** The last message of one chat, as the runner remembers and reports it. */
  datatype MessageEvent = MessageEvent(nodeId: int, messageText: string, senderUsername: string, tag: string)

  /** A change of the order counters (purchases and sales of the account). */
  datatype OrderEvent = OrderEvent(buyer: int, seller: int)

  /** What the runner yields: a new message or an order-counter change. */
  datatype Event = NewMessage(message: MessageEvent) | NewOrder(order: OrderEvent)

  /** `name in parser` for a configparser whose sections are `config`: besides
      the sections, the reserved "DEFAULT" is always in a parser. */
  predicate InParser(config: map<string, map<string, string>>, name: string) {
    name in config || name == "DEFAULT"
  }

  /** `parser[name]`: the section, and for "DEFAULT" a section without keys. */
  function SectionOf(config: map<string, map<string, string>>, name: string): (r: map<string, string>)
    requires InParser(config, name)
    ensures name in config ==> r == config[name]
    ensures name !in config ==> r == map[]
  {
    if name in config then config[name] else map[]
  }

  /** The outcome of one call that may also throw: its truthiness or an exception. */
  datatype Attempt = Returned(truthy: bool) | Threw

  predicate Succeeded(a: Attempt) {
    a.Returned? && a.truthy
  }

  /** The number of calls a retry loop makes when the calls would have the outcomes
      `outs` in turn: it stops after the first success or when `outs` runs out. */
  function Retries(outs: seq<Attempt>): (n: nat)
    ensures n <= |outs|
    ensures outs != [] ==> n >= 1
  {
    if outs == [] then 0 else if Succeeded(outs[0]) then 1 else 1 + Retries(outs[1..])
  }

  /** The calls stop at the first success: every earlier call failed, and the loop
      gives up only when all calls failed. */
  lemma {:induction false} RetriesStopAtFirstSuccess(outs: seq<Attempt>)
    ensures var n := Retries(outs);
      (forall i :: 0 <= i < n - 1 ==> !Succeeded(outs[i]))
      && ((exists i :: 0 <= i < |outs| && Succeeded(outs[i])) <==> n > 0 && Succeeded(outs[n - 1]))
  {
    if outs != [] && !Succeeded(outs[0]) {
      RetriesStopAtFirstSuccess(outs[1..]);
      var n := Retries(outs[1..]);
      assert forall i :: 1 <= i < |outs| ==> outs[i] == outs[1..][i - 1];
    }
  }

  /** Failed calls before position `k` each count once. */
  lemma {:induction false} RetriesAfterFailures(outs: seq<Attempt>, k: nat)
    requires k <= |outs| && forall i :: 0 <= i < k ==> !Succeeded(outs[i])
    ensures Retries(outs) == k + Retries(outs[k..])
  {
    if k > 0 {
      assert outs[1..][k - 1..] == outs[k..];
      RetriesAfterFailures(outs[1..], k - 1);
    }
  }
}
