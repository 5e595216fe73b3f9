/** Reading the marketplace's answer to a "raise my listings" request. The answer
    is a short Russian sentence such as "Подождите 45 сек."; the bot turns it into
    the number of seconds to wait before the next attempt. */
module Other {
  import opened Types
  import opened Strings

  /** Why the text could not be turned into a delay: it has no second word
      (Python's IndexError) or the second word is not an integer (ValueError). */
  datatype WaitError = MissingNumber | NotANumber

  /** The second whitespace-separated word of `response`, read as an integer. */
  function SecondWordAsInt(response: string): (r: Result<int, WaitError>)
    ensures r.Err? <==> |SplitWs(response)| < 2 || ParseInt(SplitWs(response)[1]).None?
    ensures r.Err? ==> (r.error == MissingNumber <==> |SplitWs(response)| < 2)
  {
    var words := SplitWs(response);
    if |words| < 2 then Err(MissingNumber)
    else match ParseInt(words[1])
      case None => Err(NotANumber)
      case Some(n) => Ok(n)
  }

  /** The delay in seconds: the seconds form adds 2, "one minute" is 70, the
      minutes form is one minute less than stated plus 2 seconds, any hour form is
      an hour, and an unrecognised text is 10 seconds. The checks are substring
      tests, tried in this order. */
  function WaitTimeFromRaiseResponse(response: string): (r: Result<int, WaitError>)
    ensures !Contains(response, "сек") && Contains(response, "минуту") ==> r == Ok(70)
    ensures !Contains(response, "сек") && !Contains(response, "мин") ==>
              r == Ok(if Contains(response, "час") then 3600 else 10)
    ensures r.Err? ==> Contains(response, "сек") || (Contains(response, "мин") && !Contains(response, "минуту"))
  {
    if Contains(response, "сек") then
      match SecondWordAsInt(response)
      case Err(e) => Err(e)
      case Ok(n) => Ok(n + 2)
    else if Contains(response, "минуту") then
      ContainsPrefix(response, "минуту", 3);
      assert "минуту"[..3] == "мин";
      Ok(70)
    else if Contains(response, "мин") then
      match SecondWordAsInt(response)
      case Err(e) => Err(e)
      case Ok(n) => Ok((n - 1) * 60 + 2)
    else if Contains(response, "час") then Ok(3600)
    else Ok(10)
  }

  /** The waits the marketplace announces, as the bot distinguishes them. */
  datatype AnnouncedWait = Seconds(n: int) | OneMinute | Minutes(n: int) | Hours(n: int)

  /** The sentence the marketplace sends for a wait. */
  function ResponseText(w: AnnouncedWait): string {
    match w
    case Seconds(n) => "Подождите " + IntToString(n) + " сек."
    case OneMinute => "Подождите минуту."
    case Minutes(n) => "Подождите " + IntToString(n) + " мин."
    case Hours(n) => "Подождите " + IntToString(n) + " час."
  }

  /** The delay the bot derives from each kind of announcement. */
  function ExpectedDelay(w: AnnouncedWait): int {
    match w
    case Seconds(n) => n + 2
    case OneMinute => 70
    case Minutes(n) => (n - 1) * 60 + 2
    case Hours(_) => 3600
  }

  lemma NumberHasNoLetter(n: int, c: char)
    requires c != '-' && !IsDigit(c)
    ensures c !in IntToString(n)
  {
    IntToStringShape(n);
  }

  /** The number inside "Подождите <n> <unit>" is its second word. */
  lemma NumberIsSecondWord(n: int, unit: string)
    requires IsWord(unit)
    ensures SecondWordAsInt("Подождите " + IntToString(n) + " " + unit) == Ok(n)
  {
    var d := IntToString(n);
    IntToStringShape(n);
    assert "Подождите " + d + " " + unit == "Подождите" + " " + d + " " + unit;
    SplitWsThreeWords("Подождите", d, unit);
    ParseIntToString(n);
  }

  /** The unit of "Подождите <n> <unit>" occurs in the sentence. */
  lemma UnitOccurs(n: int, unit: string, sub: string)
    requires |sub| <= |unit| && unit[..|sub|] == sub
    ensures Contains("Подождите " + IntToString(n) + " " + unit, sub)
  {
    var text := "Подождите " + IntToString(n) + " " + unit;
    var i := |"Подождите "| + |IntToString(n)| + 1;
    assert text[i..i + |sub|] == sub;
    ContainsAt(text, sub, i);
  }

  lemma SecondsRead(n: int)
    ensures WaitTimeFromRaiseResponse(ResponseText(Seconds(n))) == Ok(n + 2)
  {
    var text := ResponseText(Seconds(n));
    assert text == "Подождите " + IntToString(n) + " " + "сек.";
    UnitOccurs(n, "сек.", "сек");
    NumberIsSecondWord(n, "сек.");
  }

  lemma OneMinuteRead()
    ensures WaitTimeFromRaiseResponse(ResponseText(OneMinute)) == Ok(70)
  {
    var text := ResponseText(OneMinute);
    NotContainsMissingChar(text, "сек", 0);
    assert text[10..16] == "минуту";
    ContainsAt(text, "минуту", 10);
  }

  /** A character absent from the fixed words is absent from the announcement. */
  lemma CharNotInAnnouncement(n: int, unit: string, c: char)
    requires c !in "Подождите " && c !in unit && c != ' ' && c != '-' && !IsDigit(c)
    ensures c !in "Подождите " + IntToString(n) + " " + unit
  {
    NumberHasNoLetter(n, c);
  }

  lemma MinutesTests(n: int)
    ensures var text := "Подождите " + IntToString(n) + " " + "мин.";
      !Contains(text, "сек") && !Contains(text, "минуту") && Contains(text, "мин")
  {
    var text := "Подождите " + IntToString(n) + " " + "мин.";
    CharNotInAnnouncement(n, "мин.", 'с');
    CharNotInAnnouncement(n, "мин.", 'у');
    NotContainsMissingChar(text, "сек", 0);
    NotContainsMissingChar(text, "минуту", 5);
    UnitOccurs(n, "мин.", "мин");
  }

  lemma MinutesRead(n: int)
    ensures WaitTimeFromRaiseResponse(ResponseText(Minutes(n))) == Ok((n - 1) * 60 + 2)
  {
    var text := ResponseText(Minutes(n));
    assert text == "Подождите " + IntToString(n) + " " + "мин.";
    MinutesTests(n);
    NumberIsSecondWord(n, "мин.");
  }

  lemma HoursTests(n: int)
    ensures var text := "Подождите " + IntToString(n) + " " + "час.";
      !Contains(text, "сек") && !Contains(text, "минуту") && !Contains(text, "мин") && Contains(text, "час")
  {
    var text := "Подождите " + IntToString(n) + " " + "час.";
    CharNotInAnnouncement(n, "час.", 'к');
    CharNotInAnnouncement(n, "час.", 'м');
    NotContainsMissingChar(text, "сек", 2);
    NotContainsMissingChar(text, "мин", 0);
    NotContainsMissingChar(text, "минуту", 0);
    UnitOccurs(n, "час.", "час");
  }

  lemma HoursRead(n: int)
    ensures WaitTimeFromRaiseResponse(ResponseText(Hours(n))) == Ok(3600)
  {
    var text := ResponseText(Hours(n));
    assert text == "Подождите " + IntToString(n) + " " + "час.";
    HoursTests(n);
  }

  /** Every announcement is read back as the delay its kind calls for. */
  lemma WaitTimeOfResponseText(w: AnnouncedWait)
    ensures WaitTimeFromRaiseResponse(ResponseText(w)) == Ok(ExpectedDelay(w))
  {
    match w
    case Seconds(n) => SecondsRead(n);
    case OneMinute => OneMinuteRead();
    case Minutes(n) => MinutesRead(n);
    case Hours(n) => HoursRead(n);
  }

  /** A seconds announcement of a non-negative count yields at least 2 seconds, and a
      minutes announcement of at least one minute yields at least 2 seconds. */
  lemma AnnouncedDelayPositive(w: AnnouncedWait)
    requires w.Seconds? || w.Minutes? ==> w.n >= (if w.Seconds? then 0 else 1)
    ensures WaitTimeFromRaiseResponse(ResponseText(w)).Ok?
    ensures WaitTimeFromRaiseResponse(ResponseText(w)).value >= 2
  {
    WaitTimeOfResponseText(w);
  }

  /** A text with "сек" but a single word cannot be read: IndexError. */
  lemma SecondsWithoutNumber()
    ensures WaitTimeFromRaiseResponse("сек") == Err(MissingNumber)
  {
    ContainsAt("сек", "сек", 0);
    assert "сек" == "сек" + [];
    SplitWsWord("сек", []);
  }

  /** A text the bot does not recognise gives the 10-second default. */
  lemma UnknownTextDefault()
    ensures WaitTimeFromRaiseResponse("Лоты подняты") == Ok(10)
  {
    var t := "Лоты подняты";
    NotContainsMissingChar(t, "сек", 0);
    NotContainsMissingChar(t, "мин", 0);
    NotContainsMissingChar(t, "минуту", 0);
    NotContainsMissingChar(t, "час", 0);
  }
}
