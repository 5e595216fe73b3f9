/** Helpers of the bot core: the category cache, the greeting printed after the
    account is loaded, the genitive month names and the texts of a date. The file
    and the clock are replaced by values: the cache file is its decoded content,
    the current time a `DateTime`. */
module CardinalTools {
  import opened Types
  import opened Strings

  /** The key under which a category's game id is cached: "<id>_<type value>". */
  function CacheName(c: Category): string {
    IntToString(c.id) + "_" + IntToString(c.kind.Value())
  }

  /** Reference definition of the cache content: every category with a known game,
      in list order, a later category overwriting an earlier one with the same key. */
  function CachedMap(cats: seq<Category>): map<string, int> {
    if cats == [] then map[]
    else
      var prev := CachedMap(cats[..|cats| - 1]);
      var c := cats[|cats| - 1];
      if c.gameId.None? then prev else prev[CacheName(c) := c.gameId.value]
  }

  /** The cache-building loop (the write of the JSON file is not modelled). */
  method CacheCategories(cats: seq<Category>) returns (result: map<string, int>)
    ensures result == CachedMap(cats)
  {
    result := map[];
    var i := 0;
    while i < |cats|
      invariant 0 <= i <= |cats|
      invariant result == CachedMap(cats[..i])
    {
      assert cats[..i + 1][..i] == cats[..i];
      var c := cats[i];
      if c.gameId.None? {
        i := i + 1;
        continue;
      }
      result := result[CacheName(c) := c.gameId.value];
      i := i + 1;
    }
    assert cats[..|cats|] == cats;
  }

  /** The key splits at "_" into the printed id and the printed type value. */
  lemma CacheNameParts(c: Category)
    ensures Split(CacheName(c), '_') == [IntToString(c.id), IntToString(c.kind.Value())]
  {
    var a := IntToString(c.id);
    var b := IntToString(c.kind.Value());
    IntToStringShape(c.id);
    IntToStringShape(c.kind.Value());
    assert '_' !in a by {
      forall k | 0 <= k < |a| ensures a[k] != '_' { }
    }
    assert '_' !in b by {
      forall k | 0 <= k < |b| ensures b[k] != '_' { }
    }
    assert CacheName(c) == a + ['_'] + b;
    SplitConcat(a, b, '_');
    SplitNoSep(a, '_');
    SplitNoSep(b, '_');
  }

  /** Two categories share a cache key exactly when they have the same id and type. */
  lemma CacheNameInjective(c: Category, d: Category)
    ensures CacheName(c) == CacheName(d) <==> c.id == d.id && c.kind == d.kind
  {
    if CacheName(c) == CacheName(d) {
      CacheNameParts(c);
      CacheNameParts(d);
      ParseIntToString(c.id);
      ParseIntToString(d.id);
      ParseIntToString(c.kind.Value());
      ParseIntToString(d.kind.Value());
      assert IntToString(c.id) == IntToString(d.id);
      assert IntToString(c.kind.Value()) == IntToString(d.kind.Value());
    }
  }

  /** The category at position `i` has a known game and cache key `k`. */
  predicate CachedAt(cats: seq<Category>, k: string, i: int) {
    0 <= i < |cats| && cats[i].gameId.Some? && CacheName(cats[i]) == k
  }

  /** A cached key comes from some category with a known game. */
  lemma {:induction false} CachedKeyOrigin(cats: seq<Category>, k: string) returns (i: int)
    requires k in CachedMap(cats)
    ensures CachedAt(cats, k, i)
  {
    var n := |cats| - 1;
    var init := cats[..n];
    if CachedAt(cats, k, n) {
      i := n;
    } else {
      i := CachedKeyOrigin(init, k);
      assert cats[i] == init[i];
    }
  }

  /** A key is cached iff some category with a known game has it. */
  lemma CachedMapHasKey(cats: seq<Category>, k: string)
    ensures k in CachedMap(cats) <==> exists i :: CachedAt(cats, k, i)
  {
    if k in CachedMap(cats) {
      var i := CachedKeyOrigin(cats, k);
    }
    forall i | CachedAt(cats, k, i) ensures k in CachedMap(cats) {
      var last := LastCachedAt(cats, k, i);
      CachedMapLastValue(cats, k, last);
    }
  }

  /** The last position at or after `i` with key `k`. */
  lemma {:induction false} LastCachedAt(cats: seq<Category>, k: string, i: int) returns (last: int)
    requires CachedAt(cats, k, i)
    ensures CachedAt(cats, k, last) && i <= last
    ensures forall j :: last < j < |cats| ==> cats[j].gameId.None? || CacheName(cats[j]) != k
    decreases |cats| - i
  {
    if forall j :: i < j < |cats| ==> cats[j].gameId.None? || CacheName(cats[j]) != k {
      last := i;
    } else {
      var j :| i < j < |cats| && !(cats[j].gameId.None? || CacheName(cats[j]) != k);
      last := LastCachedAt(cats, k, j);
    }
  }

  /** A cached key holds the game id of the last category with that key. */
  lemma {:induction false} CachedMapLastValue(cats: seq<Category>, k: string, i: nat)
    requires i < |cats| && cats[i].gameId.Some? && CacheName(cats[i]) == k
    requires forall j :: i < j < |cats| ==> cats[j].gameId.None? || CacheName(cats[j]) != k
    ensures k in CachedMap(cats) && CachedMap(cats)[k] == cats[i].gameId.value
  {
    var n := |cats| - 1;
    var init := cats[..n];
    if i < n {
      assert init[i] == cats[i];
      assert forall j :: i < j < |init| ==> init[j] == cats[j];
      CachedMapLastValue(init, k, i);
    }
  }

  /** The decoded content of the cache file. */
  datatype CacheFile = MissingFile | InvalidJson | Decoded(entries: map<string, int>)

  /** The cached game ids: nothing without a file or with a file that is not JSON. */
  function LoadCachedCategories(f: CacheFile): (r: map<string, int>)
    ensures f.Decoded? ==> r == f.entries
    ensures !f.Decoded? ==> r == map[]
  {
    match f
    case MissingFile => map[]
    case InvalidJson => map[]
    case Decoded(entries) => entries
  }

  /** Reading back what was cached gives every category with a known game its game
      id again, provided no other category has the same id and type. */
  lemma CacheRestoresGameIds(cats: seq<Category>, i: nat)
    requires i < |cats| && cats[i].gameId.Some?
    requires forall j :: 0 <= j < |cats| && j != i ==> cats[j].id != cats[i].id || cats[j].kind != cats[i].kind
    ensures var loaded := LoadCachedCategories(Decoded(CachedMap(cats)));
      CacheName(cats[i]) in loaded && loaded[CacheName(cats[i])] == cats[i].gameId.value
  {
    forall j | i < j < |cats|
      ensures cats[j].gameId.None? || CacheName(cats[j]) != CacheName(cats[i])
    {
      CacheNameInjective(cats[j], cats[i]);
    }
    CachedMapLastValue(cats, CacheName(cats[i]), i);
  }

  /** The greeting of the hour of the day. */
  function Greeting(hour: int): (g: string)
    ensures hour < 4 ==> g == "Какая прекрасная ночь"
    ensures 4 <= hour < 12 || hour >= 24 ==> g == "Доброе утро"
    ensures 12 <= hour < 17 ==> g == "Добрый день"
    ensures 17 <= hour < 24 ==> g == "Добрый вечер"
  {
    if hour < 4 then "Какая прекрасная ночь"
    else if hour < 12 then "Доброе утро"
    else if hour < 17 then "Добрый день"
    else if hour < 24 then "Добрый вечер"
    else "Доброе утро"
  }

  /** What the greeting shows of the account. The balance is given as the text
      Python prints for it; the currency sign is None when the page shows none. */
  datatype AccountSummary = AccountSummary(
    username: string,
    id: int,
    balanceText: string,
    currency: Option<string>,
    activeSales: int)

  /** The colour codes of the console output. */
  const Cyan: string := "\U{1B}[36m"
  const Yellow: string := "\U{1B}[33m"
  const Magenta: string := "\U{1B}[35m"

  /** Python's f-string rendering of an optional string: None prints as "None". */
  function Shown(s: Option<string>): string {
    match s
    case None => "None"
    case Some(v) => v
  }

  /** The currency text as this file computes it: the condition tests an f-string,
      which is never None, so the currency itself is always used. */
  function CurrencyAsWritten(currency: Option<string>): (r: string)
    ensures r == Shown(currency)
  {
    var formatted: Option<string> := Some(" " + Shown(currency));
    if formatted.Some? then Shown(currency) else ""
  }

  /** The balance line of the greeting as this file writes it. */
  function BalanceLineAsWritten(a: AccountSummary): string {
    "Ваш текущий баланс: " + Yellow + a.balanceText + CurrencyAsWritten(a.currency) + "."
  }

  /** The five lines of the greeting as this file writes it, without their line
      breaks: the greeting of the hour with the user name, the id, the balance,
      the active sales and the closing wish. */
  function GreetingLines(a: AccountSummary, hour: int): (r: seq<string>)
    ensures |r| == 5 && r[2] == BalanceLineAsWritten(a)
  {
    [Greeting(hour) + ", " + Cyan + a.username + ".",
     "Ваш ID: " + Yellow + IntToString(a.id) + ".",
     BalanceLineAsWritten(a),
     "Текущие незавершенные сделки: " + Yellow + IntToString(a.activeSales) + ".",
     Magenta + "Удачной торговли!"]
  }

  /** The fields the greeting shows hold no line break. */
  predicate OneLineFields(a: AccountSummary) {
    '\n' !in a.username && '\n' !in a.balanceText && (a.currency.Some? ==> '\n' !in a.currency.value)
  }

  /** No line of the greeting holds a line break when its fields hold none. */
  lemma GreetingLinesOneLine(a: AccountSummary, hour: int)
    requires OneLineFields(a)
    ensures forall i :: 0 <= i < |GreetingLines(a, hour)| ==> '\n' !in GreetingLines(a, hour)[i]
  {
    var l0 := Greeting(hour) + ", " + Cyan + a.username + ".";
    var l1 := "Ваш ID: " + Yellow + IntToString(a.id) + ".";
    var l2 := BalanceLineAsWritten(a);
    var l3 := "Текущие незавершенные сделки: " + Yellow + IntToString(a.activeSales) + ".";
    var l4 := Magenta + "Удачной торговли!";
    assert GreetingLines(a, hour) == [l0, l1, l2, l3, l4];
    LabelsOneLine();
    SalesLabelOneLine();
    GreetingOneLine(hour);
    IntToStringOneLine(a.id);
    IntToStringOneLine(a.activeSales);
    NoBreakAround(Greeting(hour), ", " + Cyan, a.username);
    NoBreakAround(Greeting(hour) + ", " + Cyan, a.username, ".");
    NoBreakAround("Ваш ID: " + Yellow, IntToString(a.id), ".");
    BalanceLineOneLine(a);
    NoBreakAround("Текущие незавершенные сделки: " + Yellow, IntToString(a.activeSales), ".");
    FiveLines(l0, l1, l2, l3, l4);
  }

  /** The label of the active sales line is a single line. */
  lemma SalesLabelOneLine()
    ensures '\n' !in "Текущие незавершенные сделки: " + Yellow
  {
  }

  /** The other fixed texts of the greeting are single lines. */
  lemma LabelsOneLine()
    ensures '\n' !in ", " + Cyan && '\n' !in "."
    ensures '\n' !in "Ваш ID: " + Yellow
    ensures '\n' !in "Ваш текущий баланс: " + Yellow
    ensures '\n' !in Magenta + "Удачной торговли!"
  {
  }

  /** The balance line is one line when the balance and the currency are. */
  lemma BalanceLineOneLine(a: AccountSummary)
    requires OneLineFields(a)
    ensures '\n' !in BalanceLineAsWritten(a)
  {
    assert '\n' !in CurrencyAsWritten(a.currency);
    LabelsOneLine();
    NoBreakAround("Ваш текущий баланс: " + Yellow, a.balanceText, CurrencyAsWritten(a.currency) + ".");
  }

  /** Five single lines. */
  lemma FiveLines(l0: string, l1: string, l2: string, l3: string, l4: string)
    requires '\n' !in l0 && '\n' !in l1 && '\n' !in l2 && '\n' !in l3 && '\n' !in l4
    ensures forall i :: 0 <= i < 5 ==> '\n' !in [l0, l1, l2, l3, l4][i]
  {
  }

  /** The greeting of the hour is one line. */
  lemma GreetingOneLine(hour: int)
    ensures '\n' !in Greeting(hour)
  {
  }

  /** A text made of three single lines is one line. */
  lemma NoBreakAround(x: string, y: string, z: string)
    requires '\n' !in x && '\n' !in y && '\n' !in z
    ensures '\n' !in x + y + z
  {
  }

  /** The greeting as this file writes it: its five lines joined by line breaks;
      when the shown fields are single lines, splitting it at the line breaks
      gives back exactly those five lines. */
  function CreateGreetings(a: AccountSummary, hour: int): (r: string)
    ensures StartsWith(r, Greeting(hour) + ", " + Cyan + a.username + ".\n")
    ensures OneLineFields(a) ==> Split(r, '\n') == GreetingLines(a, hour)
  {
    var l := GreetingLines(a, hour);
    JoinFive(l[0], l[1], l[2], l[3], l[4], "\n");
    assert l == [l[0], l[1], l[2], l[3], l[4]];
    StartsWithLine(l[0], l[1] + "\n" + l[2] + "\n" + l[3] + "\n" + l[4]);
    if OneLineFields(a) then
      GreetingLinesOneLine(a, hour);
      JoinSplit(l, '\n');
      Join(l, "\n")
    else Join(l, "\n")
  }

  /** An account without a currency sign gets the word "None" after its balance. */
  lemma MissingCurrencyShowsNone(a: AccountSummary)
    requires a.currency.None?
    ensures Contains(CreateGreetings(a, 10), "None")
    ensures BalanceLineAsWritten(a) == "Ваш текущий баланс: " + Yellow + a.balanceText + "None."
  {
    var l := GreetingLines(a, 10);
    assert "None." == "None" + ".";
    ContainsBeforeLast("Ваш текущий баланс: " + Yellow + a.balanceText, "None", ".");
    JoinFive(l[0], l[1], l[2], l[3], l[4], "\n");
    assert l == [l[0], l[1], l[2], l[3], l[4]];
    ContainsMiddleOfFive(l[0], l[1], l[2], l[3], l[4], "\n", "None");
  }

  /** The genitive month names, January first. */
  const Months: seq<string> := ["Января", "Февраля", "Марта", "Апреля", "Мая", "Июня",
                                "Июля", "Августа", "Сентября", "Октября", "Ноября", "Декабря"]

  /** `months[m - 1]` with Python's indexing: numbers above 12 give January, 0 down to
      -11 count from the end of the list, anything lower is an IndexError (None). */
  function MonthName(m: int): (r: Option<string>)
    ensures 1 <= m <= 12 ==> r == Some(Months[m - 1])
    ensures m > 12 ==> r == Some("Января")
    ensures -11 <= m <= 0 ==> r == Some(Months[m + 11])
    ensures r.None? <==> m < -11
  {
    if m > |Months| then Some(Months[0])
    else if m - 1 >= 0 then Some(Months[m - 1])
    else if m - 1 >= -|Months| then Some(Months[|Months| + m - 1])
    else None
  }

  /** Distinct months have distinct names. */
  lemma MonthNamesDistinct(m: int, n: int)
    requires 1 <= m <= 12 && 1 <= n <= 12 && m != n
    ensures MonthName(m) != MonthName(n)
  {
    assert forall i, j :: 0 <= i < j < 12 ==> Months[i] != Months[j] by {
      forall i, j | 0 <= i < j < 12 ensures Months[i] != Months[j] {
        assert Months[i][0] != Months[j][0] || |Months[i]| != |Months[j]| || Months[i][1] != Months[j][1]
          || Months[i][2] != Months[j][2];
      }
    }
  }

  /** The local time as `datetime.now()` gives it. */
  datatype DateTime = DateTime(year: int, month: int, day: int, hour: int, minute: int, second: int)

  predicate ValidDate(d: DateTime) {
    1 <= d.month <= 12 && 1 <= d.day <= 31 && 0 <= d.hour < 24 && 0 <= d.minute < 60 && 0 <= d.second < 60
  }

  /** `strftime("%d.%m.%Y")`. */
  function DateDigits(d: DateTime): string {
    Pad2(d.day) + "." + Pad2(d.month) + "." + IntToString(d.year)
  }

  /** "<day> <month>", e.g. "5 Марта". */
  function DateText(d: DateTime): string
    requires ValidDate(d)
  {
    IntToString(d.day) + " " + MonthName(d.month).value
  }

  /** "<day> <month> <year> года". */
  function FullDateText(d: DateTime): string
    requires ValidDate(d)
  {
    DateText(d) + " " + IntToString(d.year) + " года"
  }

  /** `strftime("%H:%M")` and `strftime("%H:%M:%S")`. */
  function TimeText(d: DateTime): string {
    Pad2(d.hour) + ":" + Pad2(d.minute)
  }

  function FullTimeText(d: DateTime): string {
    TimeText(d) + ":" + Pad2(d.second)
  }
}
