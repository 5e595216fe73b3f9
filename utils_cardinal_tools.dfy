/** The tools of the bot's handlers: the same category cache and month names as the
    core's tools, a greeting that handles a missing currency, the "Nч Nмин Nсек"
    rendering of a duration, the product store of automatic delivery and the
    substitution of template variables. Files become values and objects: a product
    file is the list it holds. */
module UtilsTools {
  import opened Types
  import opened Strings
  import opened CardinalTools

  /** The currency text: a space and the currency sign, or nothing without one. */
  function CurrencyText(currency: Option<string>): (r: string)
    ensures currency.None? ==> r == ""
    ensures currency.Some? ==> r == " " + currency.value
  {
    if currency.Some? then " " + currency.value else ""
  }

  /** The account fields this greeting shows; it reports the account's active
      orders where the core's greeting reports active sales. */
  function BalanceLine(a: AccountSummary): string {
    "Ваш текущий баланс: $YELLOW" + a.balanceText + CurrencyText(a.currency) + "."
  }

  /** The five lines of the greeting, with colour placeholders instead of colour
      codes and without their line breaks; the closing wish has no colour. */
  function GreetingLines(a: AccountSummary, activeOrders: int, hour: int): (r: seq<string>)
    ensures |r| == 5 && r[2] == BalanceLine(a)
  {
    [Greeting(hour) + ", $CYAN" + a.username + ".",
     "Ваш ID: $YELLOW" + IntToString(a.id) + ".",
     BalanceLine(a),
     "Текущие незавершенные сделки: $YELLOW" + IntToString(activeOrders) + ".",
     "Удачной торговли!"]
  }

  /** No line of the greeting holds a line break when its fields hold none. */
  lemma GreetingLinesOneLine(a: AccountSummary, activeOrders: int, hour: int)
    requires OneLineFields(a)
    ensures forall i :: 0 <= i < |GreetingLines(a, activeOrders, hour)| ==> '\n' !in GreetingLines(a, activeOrders, hour)[i]
  {
    var l0 := Greeting(hour) + ", $CYAN" + a.username + ".";
    var l1 := "Ваш ID: $YELLOW" + IntToString(a.id) + ".";
    var l2 := BalanceLine(a);
    var l3 := "Текущие незавершенные сделки: $YELLOW" + IntToString(activeOrders) + ".";
    var l4 := "Удачной торговли!";
    assert GreetingLines(a, activeOrders, hour) == [l0, l1, l2, l3, l4];
    LabelsOneLine();
    SalesLabelOneLine();
    GreetingOneLine(hour);
    IntToStringOneLine(a.id);
    IntToStringOneLine(activeOrders);
    NoBreakAround(Greeting(hour), ", $CYAN", a.username);
    NoBreakAround(Greeting(hour) + ", $CYAN", a.username, ".");
    NoBreakAround("Ваш ID: $YELLOW", IntToString(a.id), ".");
    BalanceLineOneLine(a);
    NoBreakAround("Текущие незавершенные сделки: $YELLOW", IntToString(activeOrders), ".");
    FiveLines(l0, l1, l2, l3, l4);
  }

  /** The balance line is one line when the balance and the currency are. */
  lemma BalanceLineOneLine(a: AccountSummary)
    requires OneLineFields(a)
    ensures '\n' !in BalanceLine(a)
  {
    assert '\n' !in CurrencyText(a.currency);
    LabelsOneLine();
    NoBreakAround("Ваш текущий баланс: $YELLOW", a.balanceText, CurrencyText(a.currency) + ".");
  }

  /** The label of the active sales line is a single line. */
  lemma SalesLabelOneLine()
    ensures '\n' !in "Текущие незавершенные сделки: $YELLOW"
  {
  }

  /** The other fixed texts of the greeting are single lines. */
  lemma LabelsOneLine()
    ensures '\n' !in ", $CYAN" && '\n' !in "."
    ensures '\n' !in "Ваш ID: $YELLOW"
    ensures '\n' !in "Ваш текущий баланс: $YELLOW"
    ensures '\n' !in "Удачной торговли!"
  {
  }

  /** The greeting: its five lines joined by line breaks; when the shown fields
      are single lines, splitting it at the line breaks gives back exactly those
      five lines. */
  function CreateGreetings(a: AccountSummary, activeOrders: int, hour: int): (r: string)
    ensures StartsWith(r, Greeting(hour) + ", $CYAN" + a.username + ".\n")
    ensures OneLineFields(a) ==> Split(r, '\n') == GreetingLines(a, activeOrders, hour)
  {
    var l := GreetingLines(a, activeOrders, hour);
    JoinFive(l[0], l[1], l[2], l[3], l[4], "\n");
    assert l == [l[0], l[1], l[2], l[3], l[4]];
    StartsWithLine(l[0], l[1] + "\n" + l[2] + "\n" + l[3] + "\n" + l[4]);
    if OneLineFields(a) then
      GreetingLinesOneLine(a, activeOrders, hour);
      JoinSplit(l, '\n');
      Join(l, "\n")
    else Join(l, "\n")
  }

  /** Without a currency the balance is followed directly by the full stop; with
      one, by a space and the sign. */
  lemma BalanceLineCurrency(a: AccountSummary)
    ensures a.currency.None? ==> BalanceLine(a) == "Ваш текущий баланс: $YELLOW" + a.balanceText + "."
    ensures a.currency.Some? ==> BalanceLine(a) == "Ваш текущий баланс: $YELLOW" + a.balanceText + " " + a.currency.value + "."
  {
  }

  /** Hours, minutes and seconds of a duration, by Python's floor division:
      m = t // 60, h = m // 60, then the seconds t - 60m and the minutes m - 60h. */
  function Hours(t: int): int {
    t / 60 / 60
  }

  function Minutes(t: int): int {
    t / 60 - Hours(t) * 60
  }

  function Seconds(t: int): int {
    t - t / 60 * 60
  }

  /** The parts make up the duration, minutes and seconds below sixty. */
  lemma TimePartsDecompose(t: int)
    ensures Hours(t) * 3600 + Minutes(t) * 60 + Seconds(t) == t
    ensures 0 <= Minutes(t) < 60 && 0 <= Seconds(t) < 60
  {
  }

  /** One part of a duration: the number followed by its unit. */
  function Part(n: int, unit: string): string {
    IntToString(n) + unit
  }

  /** The non-zero parts "Nч", "Nмин", "Nсек", in that order. */
  function NonZeroParts(h: int, m: int, s: int): seq<string> {
    (if h != 0 then [Part(h, "ч")] else [])
    + (if m != 0 then [Part(m, "мин")] else [])
    + (if s != 0 then [Part(s, "сек")] else [])
  }

  /** The text of given parts before stripping: each non-zero part, the minutes
      and seconds with a space in front. */
  function RawPartsText(h: int, m: int, s: int): string {
    (if h != 0 then Part(h, "ч") else "")
    + (if m != 0 then " " + Part(m, "мин") else "")
    + (if s != 0 then " " + Part(s, "сек") else "")
  }

  /** The text of given parts: "0 сек" when all are zero, else the stripped raw text. */
  function PartsText(h: int, m: int, s: int): string {
    if h == 0 && m == 0 && s == 0 then "0 сек" else Strip(RawPartsText(h, m, s))
  }

  /** `time_to_str`. */
  function TimeToStr(t: int): string {
    PartsText(Hours(t), Minutes(t), Seconds(t))
  }

  /** A part neither starts nor ends with whitespace. */
  lemma PartTrimmed(n: int, unit: string)
    requires unit != [] && !IsSpace(unit[|unit| - 1])
    ensures var t := Part(n, unit); t != [] && !IsSpace(t[0]) && !IsSpace(t[|t| - 1])
  {
    IntToStringShape(n);
    var t := Part(n, unit);
    assert t[0] == IntToString(n)[0];
    assert t[|t| - 1] == unit[|unit| - 1];
  }

  /** The three parts of a duration are trimmed. */
  lemma PartsTrimmed(h: int, m: int, s: int)
    ensures var hp := Part(h, "ч"); hp != [] && !IsSpace(hp[0]) && !IsSpace(hp[|hp| - 1])
    ensures var mp := Part(m, "мин"); mp != [] && !IsSpace(mp[0]) && !IsSpace(mp[|mp| - 1])
    ensures var sp := Part(s, "сек"); sp != [] && !IsSpace(sp[0]) && !IsSpace(sp[|sp| - 1])
  {
    PartTrimmed(h, "ч");
    PartTrimmed(m, "мин");
    PartTrimmed(s, "сек");
  }

  /** The duration text is "0 сек" when all parts are zero and otherwise exactly the
      non-zero parts joined by single spaces. */
  lemma PartsTextIsJoin(h: int, m: int, s: int)
    ensures PartsText(h, m, s) == if NonZeroParts(h, m, s) == [] then "0 сек" else Join(NonZeroParts(h, m, s), " ")
  {
    if h == 0 && m == 0 && s == 0 {
      assert NonZeroParts(h, m, s) == [];
    } else {
      assert PartsText(h, m, s) == Strip(RawPartsText(h, m, s));
      StripRawIsJoin(h, m, s);
    }
  }

  /** Joined parts that start and end without whitespace are left alone by strip. */
  lemma JoinedParts(x: string, y: string, z: string)
    requires x != [] && !IsSpace(x[0]) && !IsSpace(x[|x| - 1])
    requires y != [] && !IsSpace(y[0]) && !IsSpace(y[|y| - 1])
    requires z != [] && !IsSpace(z[|z| - 1])
    ensures Strip(x) == Join([x], " ") && Strip(" " + x) == Join([x], " ")
    ensures Strip(x + " " + y) == Join([x, y], " ") && Strip(" " + (x + " " + y)) == Join([x, y], " ")
    ensures Strip(x + " " + y + " " + z) == Join([x, y, z], " ")
  {
    var two := x + " " + y;
    var three := two + " " + z;
    assert two[0] == x[0] && two[|two| - 1] == y[|y| - 1];
    assert three[0] == x[0] && three[|three| - 1] == z[|z| - 1];
    TrimmedIsFixed(x);
    TrimmedIsFixed(two);
    TrimmedIsFixed(three);
    StripLeadingSpace(x);
    StripLeadingSpace(two);
    JoinTwo(x, y, " ");
    JoinThree(x, y, z, " ");
  }

  /** Regroupings of the raw text, on arbitrary strings. */
  lemma Regroup(x: string, c: string, a: string, b: string)
    ensures x + (c + a) + (c + b) == x + c + a + c + b
    ensures x + (c + a) + "" == x + c + a
    ensures x + "" + (c + b) == x + c + b
    ensures x + "" + "" == x
    ensures "" + (c + a) + (c + b) == c + (a + c + b)
    ensures "" + (c + a) + "" == c + a
    ensures "" + "" + (c + b) == c + b
  {
  }

  /** Stripping the raw text of a non-zero duration joins its non-zero parts. */
  lemma StripRawIsJoin(h: int, m: int, s: int)
    requires h != 0 || m != 0 || s != 0
    ensures Strip(RawPartsText(h, m, s)) == Join(NonZeroParts(h, m, s), " ")
  {
    var hp, mp, sp := Part(h, "ч"), Part(m, "мин"), Part(s, "сек");
    PartsTrimmed(h, m, s);
    Regroup(hp, " ", mp, sp);
    Regroup(hp, " ", sp, sp);
    if h != 0 {
      if m != 0 && s != 0 {
        RawAndPartsHMS(h, m, s);
        JoinedParts(hp, mp, sp);
      } else if m != 0 {
        RawAndPartsHM(h, m);
        JoinedParts(hp, mp, sp);
      } else if s != 0 {
        RawAndPartsHS(h, s);
        JoinedParts(hp, sp, sp);
      } else {
        RawAndPartsH(h);
        JoinedParts(hp, sp, sp);
      }
    } else {
      Regroup("", " ", mp, sp);
      Regroup("", " ", sp, sp);
      if m != 0 && s != 0 {
        RawAndPartsMS(m, s);
        JoinedParts(mp, sp, sp);
      } else if m != 0 {
        RawAndPartsM(m);
        JoinedParts(mp, sp, sp);
      } else {
        RawAndPartsS(s);
        JoinedParts(sp, sp, sp);
      }
    }
  }

  lemma RawAndPartsHMS(h: int, m: int, s: int)
    requires h != 0 && m != 0 && s != 0
    ensures RawPartsText(h, m, s) == Part(h, "ч") + (" " + Part(m, "мин")) + (" " + Part(s, "сек"))
    ensures NonZeroParts(h, m, s) == [Part(h, "ч"), Part(m, "мин"), Part(s, "сек")]
  {
  }

  lemma RawAndPartsHM(h: int, m: int)
    requires h != 0 && m != 0
    ensures RawPartsText(h, m, 0) == Part(h, "ч") + (" " + Part(m, "мин")) + ""
    ensures NonZeroParts(h, m, 0) == [Part(h, "ч"), Part(m, "мин")]
  {
  }

  lemma RawAndPartsHS(h: int, s: int)
    requires h != 0 && s != 0
    ensures RawPartsText(h, 0, s) == Part(h, "ч") + "" + (" " + Part(s, "сек"))
    ensures NonZeroParts(h, 0, s) == [Part(h, "ч"), Part(s, "сек")]
  {
  }

  lemma RawAndPartsH(h: int)
    requires h != 0
    ensures RawPartsText(h, 0, 0) == Part(h, "ч") + "" + ""
    ensures NonZeroParts(h, 0, 0) == [Part(h, "ч")]
  {
  }

  lemma RawAndPartsMS(m: int, s: int)
    requires m != 0 && s != 0
    ensures RawPartsText(0, m, s) == "" + (" " + Part(m, "мин")) + (" " + Part(s, "сек"))
    ensures NonZeroParts(0, m, s) == [Part(m, "мин"), Part(s, "сек")]
  {
  }

  lemma RawAndPartsM(m: int)
    requires m != 0
    ensures RawPartsText(0, m, 0) == "" + (" " + Part(m, "мин")) + ""
    ensures NonZeroParts(0, m, 0) == [Part(m, "мин")]
  {
  }

  lemma RawAndPartsS(s: int)
    requires s != 0
    ensures RawPartsText(0, 0, s) == "" + "" + (" " + Part(s, "сек"))
    ensures NonZeroParts(0, 0, s) == [Part(s, "сек")]
  {
  }

  /** `time_to_str` shows "0 сек" exactly for a zero duration, and otherwise the
      non-zero hours, minutes and seconds joined by single spaces. */
  lemma TimeToStrIsJoin(t: int)
    ensures TimeToStr(t) == if t == 0 then "0 сек" else Join(NonZeroParts(Hours(t), Minutes(t), Seconds(t)), " ")
  {
    var h, m, s := Hours(t), Minutes(t), Seconds(t);
    ZeroExactlyWhenPartsZero(t);
    PartsTextIsJoin(h, m, s);
    if t != 0 {
      assert NonZeroParts(h, m, s) != [];
    }
  }

  lemma ZeroExactlyWhenPartsZero(t: int)
    ensures t == 0 <==> Hours(t) == 0 && Minutes(t) == 0 && Seconds(t) == 0
  {
    TimePartsDecompose(t);
  }

  /** A minute and a second. */
  lemma SixtyOneSeconds()
    ensures TimeToStr(61) == "1мин 1сек"
  {
    assert Hours(61) == 0 && Minutes(61) == 1 && Seconds(61) == 1;
    PartsTextIsJoin(0, 1, 1);
    assert IntToString(1) == "1";
  }

  /** One whole hour shows no zero minutes or seconds. */
  lemma OneHour()
    ensures TimeToStr(3600) == "1ч"
  {
    assert Hours(3600) == 1 && Minutes(3600) == 0 && Seconds(3600) == 0;
    PartsTextIsJoin(1, 0, 0);
    assert IntToString(1) == "1";
  }

  /** The products of one delivery file, first to be handed out first. */
  class ProductStore {
    var products: seq<string>

    constructor (products: seq<string>)
      ensures this.products == products
    {
      this.products := products;
    }

    /** Takes the first product: it and the number left, or NoProductsError on an
        empty file; the rest keeps its order. */
    method GetProduct() returns (r: Result<(string, int), string>)
      modifies this
      ensures old(products) == [] ==> r.Err? && products == old(products)
      ensures old(products) != [] ==> r == Ok((old(products)[0], |old(products)| - 1)) && products == old(products)[1..]
    {
      if |products| == 0 {
        return Err("NoProductsError");
      }
      var product := products[0];
      products := products[1..];
      var amount := |products|;
      return Ok((product, amount));
    }

    /** Puts a product back at the end of the file. */
    method AddProduct(product: string)
      modifies this
      ensures products == old(products) + [product]
    {
      products := products + [product];
    }
  }

  /** Taking a product and putting it back loses nothing: the stock is the same
      multiset, with that product moved to the end. */
  lemma TakeAndReturnKeepsStock(s: seq<string>)
    requires s != []
    ensures multiset(s[1..] + [s[0]]) == multiset(s)
    ensures |s[1..] + [s[0]]| == |s|
  {
    assert s == [s[0]] + s[1..];
  }

  /** The variables of a message template, in the order they are replaced. */
  function MsgVariables(d: DateTime, msg: MessageEvent): seq<(string, string)>
    requires ValidDate(d)
  {
    [("$full_date_text", FullDateText(d)), ("$date_text", DateText(d)), ("$date", DateDigits(d)),
     ("$time", TimeText(d)), ("$full_time", FullTimeText(d)),
     ("$username", msg.senderUsername), ("$message_text", msg.messageText)]
  }

  /** The variables of an order template, in the order they are replaced. */
  function OrderVariables(d: DateTime, order: Order): seq<(string, string)>
    requires ValidDate(d)
  {
    [("$full_date_text", FullDateText(d)), ("$date_text", DateText(d)), ("$date", DateDigits(d)),
     ("$time", TimeText(d)), ("$full_time", FullTimeText(d)),
     ("$username", order.buyerName), ("$order_name", order.title)]
  }

  method FormatMsgText(text: string, msg: MessageEvent, d: DateTime) returns (r: string)
    requires ValidDate(d)
    ensures r == ReplaceAll(text, MsgVariables(d, msg))
  {
    r := ApplyReplacements(text, MsgVariables(d, msg));
  }

  method FormatOrderText(text: string, order: Order, d: DateTime) returns (r: string)
    requires ValidDate(d)
    ensures r == ReplaceAll(text, OrderVariables(d, order))
  {
    r := ApplyReplacements(text, OrderVariables(d, order));
  }

  /** No date, time or month text contains a '$'. */
  lemma DateTextsPlain(d: DateTime)
    requires ValidDate(d)
    ensures '$' !in DateText(d) && '$' !in FullDateText(d) && '$' !in DateDigits(d)
    ensures '$' !in TimeText(d) && '$' !in FullTimeText(d)
  {
    assert forall i :: 0 <= i < 12 ==> '$' !in Months[i];
    forall n: int ensures '$' !in IntToString(n) && '$' !in Pad2(n) {
      IntToStringShape(n);
      if 0 <= n < 10 {
        assert Pad2(n) == "0" + NatToString(n);
        assert forall k :: 0 <= k < |NatToString(n)| ==> IsDigit(NatToString(n)[k]);
      }
    }
  }

  /** A template without a '$' comes out unchanged. */
  lemma PlainTemplateUnchanged(text: string, d: DateTime, msg: MessageEvent)
    requires ValidDate(d) && '$' !in text
    ensures ReplaceAll(text, MsgVariables(d, msg)) == text
  {
    ReplaceAllUntouched(text, MsgVariables(d, msg));
  }

  /** "$date_text" is replaced before "$date", so it becomes the day and month
      rather than the numeric date followed by "_text". */
  lemma DateTextReplacedWhole(d: DateTime, msg: MessageEvent)
    requires ValidDate(d)
    ensures ReplaceAll("$date_text", MsgVariables(d, msg)) == DateText(d)
  {
    var vars := MsgVariables(d, msg);
    LongerNotContained("$date_text", "$full_date_text");
    ReplaceAbsent("$date_text", "$full_date_text", FullDateText(d));
    ReplaceWhole("$date_text", DateText(d));
    DateTextsPlain(d);
    assert vars[1..][1..] == vars[2..];
    ReplaceAllUntouched(DateText(d), vars[2..]);
  }
}
