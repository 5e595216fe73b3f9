/** Validation of the bot's ini files. A file is read into its sections, in file
    order, each a map from parameter to raw value; the loaders check the
    parameters they need and raise the first error they meet. The command file
    is also rewritten in place: a section named "a|b" becomes one section per
    command. Product files are passed in by path, as the JSON list they hold
    (None when the text is not JSON). */
module ConfigLoader {
  import opened Types
  import opened Strings

  type Section = map<string, string>

  /** The exceptions the loaders raise, with the arguments they carry. The last
      three come from the ini parser itself. */
  datatype ConfigError =
    | SectionNotExists(section: string, config: string)
    | ParamNotExists(section: string, param: string, config: string)
    | ParamValueEmpty(section: string, param: string, config: string)
    | ParamValueNotValid(section: string, param: string, valid: seq<string>, config: string)
    | NoProductsError(path: string)
    | NoProductVarError(lot: string)
    | NoSuchProductFileError(lot: string, path: string)
    | JSONParseError(lot: string, path: string)
    | DuplicateSectionError(section: string)
    | DefaultSectionName
    | NoSectionError(section: string)

  // ---------------------------------------------------------------------------
  // check_param (Utils/config_loader.py:11-51)
  // ---------------------------------------------------------------------------

  /** `check_param`: a missing parameter is an error when required and None
      otherwise; a present one is stripped, must not be empty (even when
      optional) and must be one of `valid` when that is given. The result is
      the stripped value. */
  function CheckParam(param: string, section: string, configName: string, obj: Section,
                      valid: Option<seq<string>>, required: bool): (r: Result<Option<string>, ConfigError>)
    ensures param !in obj ==> r == if required then Err(ParamNotExists(section, param, configName)) else Ok(None)
    ensures param in obj ==> (r.Ok? <==> Strip(obj[param]) != [] && (valid.None? || Strip(obj[param]) in valid.value))
    ensures param in obj && r.Ok? ==> r.value == Some(Strip(obj[param]))
    ensures param in obj && Strip(obj[param]) == [] ==> r == Err(ParamValueEmpty(section, param, configName))
  {
    if param !in obj then
      if required then Err(ParamNotExists(section, param, configName)) else Ok(None)
    else
      var value := Strip(obj[param]);
      if value == [] then Err(ParamValueEmpty(section, param, configName))
      else if valid.Some? && value !in valid.value then Err(ParamValueNotValid(section, param, valid.value, configName))
      else Ok(Some(value))
  }

  /** Surrounding whitespace never changes the verdict: checking the raw value
      and checking it stripped give the same result. */
  lemma CheckParamIgnoresPadding(param: string, section: string, configName: string, obj: Section,
                                 valid: Option<seq<string>>, required: bool)
    requires param in obj
    ensures CheckParam(param, section, configName, obj, valid, required)
      == CheckParam(param, section, configName, obj[param := Strip(obj[param])], valid, required)
  {
    StripIdempotent(obj[param]);
  }

  /** The value `check_param` returns passes `check_param` again, unchanged. */
  lemma CheckParamIdempotent(param: string, section: string, configName: string, obj: Section,
                             valid: Option<seq<string>>, required: bool)
    requires CheckParam(param, section, configName, obj, valid, required).Ok?
    requires CheckParam(param, section, configName, obj, valid, required).value.Some?
    ensures var v := CheckParam(param, section, configName, obj, valid, required).value.value;
      CheckParam(param, section, configName, obj[param := v], valid, required) == Ok(Some(v))
  {
    StripIdempotent(obj[param]);
  }

  // ---------------------------------------------------------------------------
  // load_main_config (Utils/config_loader.py:54-94)
  // ---------------------------------------------------------------------------

  /** The parameters of a section, each with its valid values (None: any
      non-empty value). */
  type ParamSpec = seq<(string, Option<seq<string>>)>

  const Bits: seq<string> := ["0", "1"]

  /** The sections and parameters the main file must have, in checking order. */
  const MainSections: seq<(string, ParamSpec)> := [
    ("FunPay", [("golden_key", None), ("autoRaise", Some(Bits)), ("autoResponse", Some(Bits)),
                ("autoDelivery", Some(Bits)), ("autoRestore", Some(Bits))]),
    ("Telegram", [("enabled", Some(Bits)), ("token", None), ("secretKey", None),
                  ("lotsRaiseNotification", Some(Bits)), ("productsDeliveryNotification", Some(Bits)),
                  ("newMessageNotification", Some(Bits))]),
    ("Other", [("botName", None)])]

  /** The required parameters of one section, checked in order. */
  function CheckParams(section: string, configName: string, obj: Section, params: ParamSpec): Result<(), ConfigError> {
    if params == [] then Ok(())
    else match CheckParam(params[0].0, section, configName, obj, params[0].1, true)
      case Err(e) => Err(e)
      case Ok(_) => CheckParams(section, configName, obj, params[1..])
  }

  /** The sections, each checked for presence and then for its parameters. */
  function CheckSections(sections: map<string, Section>, configName: string, spec: seq<(string, ParamSpec)>)
    : Result<(), ConfigError>
  {
    if spec == [] then Ok(())
    else if spec[0].0 !in sections then Err(SectionNotExists(spec[0].0, configName))
    else match CheckParams(spec[0].0, configName, sections[spec[0].0], spec[0].1)
      case Err(e) => Err(e)
      case Ok(_) => CheckSections(sections, configName, spec[1..])
  }

  lemma {:induction false} CheckParamsOk(section: string, configName: string, obj: Section, params: ParamSpec)
    ensures CheckParams(section, configName, obj, params).Ok? <==>
      forall j :: 0 <= j < |params| ==> CheckParam(params[j].0, section, configName, obj, params[j].1, true).Ok?
  {
    if params != [] {
      CheckParamsOk(section, configName, obj, params[1..]);
      assert forall j :: 1 <= j < |params| ==> params[j] == params[1..][j - 1];
    }
  }

  lemma {:induction false} CheckSectionsOk(sections: map<string, Section>, configName: string, spec: seq<(string, ParamSpec)>)
    ensures CheckSections(sections, configName, spec).Ok? <==>
      forall i :: 0 <= i < |spec| ==>
        spec[i].0 in sections && CheckParams(spec[i].0, configName, sections[spec[i].0], spec[i].1).Ok?
  {
    if spec != [] {
      CheckSectionsOk(sections, configName, spec[1..]);
      assert forall i :: 1 <= i < |spec| ==> spec[i] == spec[1..][i - 1];
    }
  }

  /** `load_main_config`. */
  function LoadMainConfig(sections: map<string, Section>): Result<(), ConfigError> {
    CheckSections(sections, "_main.cfg", MainSections)
  }

  /** A parameter of a valid section: present, non-empty once stripped, and
      one of its valid values when it has them. */
  lemma ValidParam(sections: map<string, Section>, configName: string, spec: seq<(string, ParamSpec)>, i: nat, j: nat)
    requires CheckSections(sections, configName, spec).Ok?
    requires i < |spec| && j < |spec[i].1|
    ensures var (name, params) := spec[i];
      name in sections && params[j].0 in sections[name] && Strip(sections[name][params[j].0]) != []
      && (params[j].1.Some? ==> Strip(sections[name][params[j].0]) in params[j].1.value)
  {
    CheckSectionsOk(sections, configName, spec);
    CheckParamsOk(spec[i].0, configName, sections[spec[i].0], spec[i].1);
  }

  /** In a main file that loads, the switches the handlers read are "0" or "1"
      once stripped, and the key, token and bot name are not empty. */
  lemma MainConfigSettings(sections: map<string, Section>)
    requires LoadMainConfig(sections).Ok?
    ensures "FunPay" in sections && "Telegram" in sections && "Other" in sections
    ensures "autoResponse" in sections["FunPay"] && Strip(sections["FunPay"]["autoResponse"]) in Bits
    ensures "autoDelivery" in sections["FunPay"] && Strip(sections["FunPay"]["autoDelivery"]) in Bits
    ensures "autoRestore" in sections["FunPay"] && Strip(sections["FunPay"]["autoRestore"]) in Bits
    ensures "newMessageNotification" in sections["Telegram"] && Strip(sections["Telegram"]["newMessageNotification"]) in Bits
    ensures "golden_key" in sections["FunPay"] && Strip(sections["FunPay"]["golden_key"]) != []
    ensures "token" in sections["Telegram"] && Strip(sections["Telegram"]["token"]) != []
    ensures "botName" in sections["Other"] && Strip(sections["Other"]["botName"]) != []
  {
    ValidParam(sections, "_main.cfg", MainSections, 0, 0);
    ValidParam(sections, "_main.cfg", MainSections, 0, 2);
    ValidParam(sections, "_main.cfg", MainSections, 0, 3);
    ValidParam(sections, "_main.cfg", MainSections, 0, 4);
    ValidParam(sections, "_main.cfg", MainSections, 1, 1);
    ValidParam(sections, "_main.cfg", MainSections, 1, 5);
    ValidParam(sections, "_main.cfg", MainSections, 2, 0);
  }

  /** A missing section is reported before anything in it is looked at. */
  lemma MissingFunPaySection(sections: map<string, Section>)
    requires "FunPay" !in sections
    ensures LoadMainConfig(sections) == Err(SectionNotExists("FunPay", "_main.cfg"))
  {
  }

  // ---------------------------------------------------------------------------
  // load_lots_config (Utils/config_loader.py:97-109)
  // ---------------------------------------------------------------------------

  /** `load_lots_config`: every lot's optional `exclude_auto_restore`, in file
      order. */
  function LoadLotsConfig(names: seq<string>, sections: map<string, Section>): Result<(), ConfigError>
    requires forall n :: n in names ==> n in sections
  {
    if names == [] then Ok(())
    else match CheckParam("exclude_auto_restore", names[0], "lots.cfg", sections[names[0]], Some(Bits), false)
      case Err(e) => Err(e)
      case Ok(_) => LoadLotsConfig(names[1..], sections)
  }

  /** The lots file loads exactly when every lot either has no
      `exclude_auto_restore` or has "0" or "1" there. */
  lemma {:induction false} LotsConfigValid(names: seq<string>, sections: map<string, Section>)
    requires forall n :: n in names ==> n in sections
    ensures LoadLotsConfig(names, sections).Ok? <==>
      forall i :: 0 <= i < |names| ==>
        ("exclude_auto_restore" in sections[names[i]] ==> Strip(sections[names[i]]["exclude_auto_restore"]) in Bits)
  {
    if names != [] {
      LotsConfigValid(names[1..], sections);
      assert forall i :: 1 <= i < |names| ==> names[i] == names[1..][i - 1];
    }
  }

  // ---------------------------------------------------------------------------
  // load_auto_delivery_config (Utils/config_loader.py:145-186)
  // ---------------------------------------------------------------------------

  /** One lot of the delivery file: a required response and, when a products
      file is named, a file that exists, holds JSON and is not empty, with
      "$product" in the response. */
  function CheckDeliveryLot(lot: string, obj: Section, files: map<string, Option<seq<string>>>): Result<(), ConfigError> {
    match CheckParam("response", lot, "auto_delivery.cfg", obj, None, true)
    case Err(e) => Err(e)
    case Ok(response) =>
      match CheckParam("productsFilePath", lot, "auto_delivery.cfg", obj, None, false)
      case Err(e) => Err(e)
      case Ok(None) => Ok(())
      case Ok(Some(path)) =>
        if path !in files then Err(NoSuchProductFileError(lot, path))
        else if files[path].None? then Err(JSONParseError(lot, path))
        else if |files[path].value| < 1 then Err(NoProductsError(path))
        else if !Contains(response.value, "$product") then Err(NoProductVarError(lot))
        else Ok(())
  }

  /** What a valid delivery lot guarantees to the delivery handler. */
  predicate DeliverableLot(obj: Section, files: map<string, Option<seq<string>>>) {
    && "response" in obj && Strip(obj["response"]) != []
    && ("productsFilePath" in obj ==>
          var path := Strip(obj["productsFilePath"]);
          path != [] && path in files && files[path].Some? && |files[path].value| >= 1
          && Contains(Strip(obj["response"]), "$product"))
  }

  lemma CheckDeliveryLotOk(lot: string, obj: Section, files: map<string, Option<seq<string>>>)
    ensures CheckDeliveryLot(lot, obj, files).Ok? <==> DeliverableLot(obj, files)
  {
  }

  /** `load_auto_delivery_config`: every lot in file order. */
  function LoadAutoDeliveryConfig(names: seq<string>, sections: map<string, Section>, files: map<string, Option<seq<string>>>)
    : Result<(), ConfigError>
    requires forall n :: n in names ==> n in sections
  {
    if names == [] then Ok(())
    else match CheckDeliveryLot(names[0], sections[names[0]], files)
      case Err(e) => Err(e)
      case Ok(_) => LoadAutoDeliveryConfig(names[1..], sections, files)
  }

  /** The delivery file loads exactly when every lot is deliverable. */
  lemma {:induction false} AutoDeliveryConfigValid(names: seq<string>, sections: map<string, Section>,
                                                   files: map<string, Option<seq<string>>>)
    requires forall n :: n in names ==> n in sections
    ensures LoadAutoDeliveryConfig(names, sections, files).Ok? <==>
      forall i :: 0 <= i < |names| ==> DeliverableLot(sections[names[i]], files)
  {
    if names != [] {
      var rest := names[1..];
      CheckDeliveryLotOk(names[0], sections[names[0]], files);
      AutoDeliveryConfigValid(rest, sections, files);
      assert LoadAutoDeliveryConfig(names, sections, files).Ok? <==>
        CheckDeliveryLot(names[0], sections[names[0]], files).Ok? && LoadAutoDeliveryConfig(rest, sections, files).Ok?;
      var all := forall i :: 0 <= i < |names| ==> DeliverableLot(sections[names[i]], files);
      assert all <==> DeliverableLot(sections[names[0]], files)
                      && forall i :: 0 <= i < |rest| ==> DeliverableLot(sections[rest[i]], files) by {
        assert forall i :: 0 <= i < |rest| ==> rest[i] == names[i + 1];
      }
    }
  }

  // ---------------------------------------------------------------------------
  // load_auto_response_config (Utils/config_loader.py:112-142)
  // ---------------------------------------------------------------------------

  /** One command section: a required response, an optional notification
      switch and an optional notification text. */
  function CheckCommand(command: string, obj: Section): Result<(), ConfigError> {
    match CheckParam("response", command, "auto_response.cfg", obj, None, true)
    case Err(e) => Err(e)
    case Ok(_) =>
      match CheckParam("telegramNotification", command, "auto_response.cfg", obj, Some(Bits), false)
      case Err(e) => Err(e)
      case Ok(_) =>
        match CheckParam("notificationText", command, "auto_response.cfg", obj, None, false)
        case Err(e) => Err(e)
        case Ok(_) => Ok(())
  }

  /** What a valid command section holds. */
  predicate ValidCommand(obj: Section) {
    && "response" in obj && Strip(obj["response"]) != []
    && ("telegramNotification" in obj ==> Strip(obj["telegramNotification"]) in Bits)
    && ("notificationText" in obj ==> Strip(obj["notificationText"]) != [])
  }

  lemma CheckCommandOk(command: string, obj: Section)
    ensures CheckCommand(command, obj).Ok? <==> ValidCommand(obj)
  {
  }

  /** The command sections in file order; the first error wins. */
  function CheckCommands(names: seq<string>, sections: map<string, Section>): Result<(), ConfigError>
    requires forall n :: n in names ==> n in sections
  {
    if names == [] then Ok(())
    else match CheckCommand(names[0], sections[names[0]])
      case Err(e) => Err(e)
      case Ok(_) => CheckCommands(names[1..], sections)
  }

  lemma {:induction false} CheckCommandsOk(names: seq<string>, sections: map<string, Section>)
    requires forall n :: n in names ==> n in sections
    ensures CheckCommands(names, sections).Ok? <==> forall i :: 0 <= i < |names| ==> ValidCommand(sections[names[i]])
  {
    if names != [] {
      CheckCommandOk(names[0], sections[names[0]]);
      CheckCommandsOk(names[1..], sections);
      assert forall i :: 1 <= i < |names| ==> names[i] == names[1..][i - 1];
    }
  }

  /** The first section that fails its check decides the error. */
  lemma {:induction false} CheckCommandsFirstErr(names: seq<string>, sections: map<string, Section>, k: nat)
    requires forall n :: n in names ==> n in sections
    requires k < |names| && forall i :: 0 <= i < k ==> ValidCommand(sections[names[i]])
    requires CheckCommand(names[k], sections[names[k]]).Err?
    ensures CheckCommands(names, sections) == CheckCommand(names[k], sections[names[k]])
  {
    if k > 0 {
      CheckCommandOk(names[0], sections[names[0]]);
      assert ValidCommand(sections[names[0]]);
      var rest := names[1..];
      forall i | 0 <= i < k - 1
        ensures ValidCommand(sections[rest[i]])
      {
        assert rest[i] == names[i + 1];
      }
      assert rest[k - 1] == names[k];
      CheckCommandsFirstErr(rest, sections, k - 1);
    }
  }

  /** The elements of a list are pairwise different. */
  predicate Distinct(s: seq<string>) {
    forall i, j :: 0 <= i < j < |s| ==> s[i] != s[j]
  }

  lemma DistinctAppend(a: seq<string>, b: seq<string>)
    ensures Distinct(a + b) <==> Distinct(a) && Distinct(b) && forall x :: x in b ==> x !in a
  {
    if Distinct(a) && Distinct(b) && forall x :: x in b ==> x !in a {
      forall i, j | 0 <= i < j < |a + b|
        ensures (a + b)[i] != (a + b)[j]
      {
        if i < |a| && j >= |a| {
          assert (a + b)[j] in b;
        }
      }
    }
    if Distinct(a + b) {
      forall x | x in b
        ensures x !in a
      {
        var j :| 0 <= j < |b| && b[j] == x;
        assert (a + b)[|a| + j] == x;
        forall i | 0 <= i < |a|
          ensures a[i] != x
        {
          assert (a + b)[i] == a[i];
        }
      }
      assert forall i :: 0 <= i < |b| ==> b[i] == (a + b)[|a| + i];
      assert forall i :: 0 <= i < |a| ==> a[i] == (a + b)[i];
    }
  }

  /** The sections whose name holds a '|', in file order. */
  function Multi(names: seq<string>): (r: seq<string>)
    ensures forall n :: n in r <==> n in names && '|' in n
  {
    if names == [] then []
    else
      var last := names[|names| - 1];
      assert names == names[..|names| - 1] + [last];
      Multi(names[..|names| - 1]) + (if '|' in last then [last] else [])
  }

  lemma MultiSnoc(names: seq<string>, i: nat)
    requires i < |names|
    ensures Multi(names[..i + 1]) == Multi(names[..i]) + (if '|' in names[i] then [names[i]] else [])
  {
    assert names[..i + 1][..i] == names[..i];
  }

  /** The sections without a '|', in file order. */
  function Singles(names: seq<string>): (r: seq<string>)
    ensures forall n :: n in r <==> n in names && '|' !in n
  {
    if names == [] then []
    else
      var last := names[|names| - 1];
      assert names == names[..|names| - 1] + [last];
      Singles(names[..|names| - 1]) + (if '|' !in last then [last] else [])
  }

  lemma {:induction false} MultiDistinct(names: seq<string>)
    requires Distinct(names)
    ensures Distinct(Multi(names))
  {
    if names != [] {
      var init, last := names[..|names| - 1], names[|names| - 1];
      assert Distinct(init);
      MultiDistinct(init);
      assert last !in init;
      DistinctAppend(Multi(init), if '|' in last then [last] else []);
    }
  }

  lemma {:induction false} SinglesDistinct(names: seq<string>)
    requires Distinct(names)
    ensures Distinct(Singles(names))
  {
    if names != [] {
      var init, last := names[..|names| - 1], names[|names| - 1];
      assert Distinct(init);
      SinglesDistinct(init);
      assert last !in init;
      DistinctAppend(Singles(init), if '|' !in last then [last] else []);
    }
  }

  lemma StripKeepsOut(s: string, c: char)
    requires c !in s
    ensures c !in Strip(s)
  {
    var l := TrimLeft(s);
    TrimLeftSuffix(s);
    assert TrimRight(l) == l[..|TrimRight(l)|];
  }

  /** The commands of a combined section: its name split at '|', each piece
      stripped. */
  function Pieces(m: string): (r: seq<string>)
    ensures forall i :: 0 <= i < |r| ==> '|' !in r[i] && Trimmed(r[i])
  {
    var parts := Split(m, '|');
    forall i | 0 <= i < |parts| ensures '|' !in Strip(parts[i]) {
      StripKeepsOut(parts[i], '|');
    }
    seq(|parts|, i requires 0 <= i < |parts| => Strip(parts[i]))
  }

  /** The commands of several combined sections, in order. */
  function Flat(ms: seq<string>): (r: seq<string>)
    ensures forall p :: p in r ==> '|' !in p
  {
    if ms == [] then [] else Flat(ms[..|ms| - 1]) + Pieces(ms[|ms| - 1])
  }

  /** One more combined section adds its commands at the end. */
  lemma FlatPush(ms: seq<string>, m: string)
    ensures Flat(ms + [m]) == Flat(ms) + Pieces(m)
  {
    assert (ms + [m])[..|ms|] == ms;
  }

  lemma {:induction false} FlatAppend(a: seq<string>, b: seq<string>)
    ensures Flat(a + b) == Flat(a) + Flat(b)
  {
    if b == [] {
      assert a + b == a;
    } else {
      var init, last := b[..|b| - 1], b[|b| - 1];
      assert b == init + [last];
      assert a + b == (a + init) + [last];
      FlatAppend(a, init);
      FlatPush(a + init, last);
      FlatPush(init, last);
    }
  }

  /** Splitting succeeds when no command of a combined section names a kept
      section, an earlier command, or the parser's reserved "DEFAULT". */
  predicate NoClash(names: seq<string>) {
    var f := Flat(Multi(names));
    Distinct(Singles(names) + f) && "DEFAULT" !in f
  }

  /** The commands of "a | b" are "a" and "b". */
  lemma PiecesExample()
    ensures Pieces("a | b") == ["a", "b"]
  {
    assert "a | b" == "a " + ['|'] + " b";
    SplitConcat("a ", " b", '|');
    SplitNoSep("a ", '|');
    SplitNoSep(" b", '|');
    StripTrailingSpace("a");
    StripLeadingSpace("b");
  }

  /** A file read by the ini parser: its section names in order, without
      repetition and without the reserved "DEFAULT", and their contents. */
  class ConfigParser {
    var names: seq<string>
    var sections: map<string, Section>

    ghost predicate Valid()
      reads this
    {
      && (forall n :: n in names <==> n in sections)
      && Distinct(names)
      && "DEFAULT" !in sections
    }

    constructor (names: seq<string>, sections: map<string, Section>)
      requires (forall n :: n in names <==> n in sections) && Distinct(names) && "DEFAULT" !in sections
      ensures Valid() && this.names == names && this.sections == sections
    {
      this.names := names;
      this.sections := sections;
    }

    /** `add_section`: a new, empty section at the end; "DEFAULT" and a name
        already present are errors that change nothing. */
    method AddSection(name: string) returns (r: Result<(), ConfigError>)
      requires Valid()
      modifies this
      ensures Valid()
      ensures r.Ok? <==> name != "DEFAULT" && name !in old(sections)
      ensures name == "DEFAULT" ==> r == Err(DefaultSectionName)
      ensures name != "DEFAULT" && name in old(sections) ==> r == Err(DuplicateSectionError(name))
      ensures r.Ok? ==> names == old(names) + [name] && sections == old(sections)[name := map[]]
      ensures r.Err? ==> names == old(names) && sections == old(sections)
    {
      if name == "DEFAULT" {
        r := Err(DefaultSectionName);
      } else if name in sections {
        r := Err(DuplicateSectionError(name));
      } else {
        DistinctAppend(names, [name]);
        names := names + [name];
        sections := sections[name := map[]];
        r := Ok(());
      }
    }

    /** `set`: one parameter of an existing section. */
    method Set(section: string, option: string, value: string) returns (r: Result<(), ConfigError>)
      requires Valid()
      modifies this
      ensures Valid() && names == old(names)
      ensures section in old(sections) ==> r.Ok? && sections == old(sections)[section := old(sections)[section][option := value]]
      ensures section !in old(sections) ==> r == Err(NoSectionError(section)) && sections == old(sections)
    {
      if section !in sections {
        r := Err(NoSectionError(section));
      } else {
        sections := sections[section := sections[section][option := value]];
        r := Ok(());
      }
    }

    /** `remove_section`: whether the section was there; it is gone after. */
    method RemoveSection(section: string) returns (existed: bool)
      requires Valid()
      modifies this
      ensures Valid()
      ensures existed == (section in old(sections))
      ensures sections == old(sections) - {section}
      ensures forall n :: n in names <==> n in old(names) && n != section
    {
      existed := section in sections;
      names := Without(names, section);
      sections := sections - {section};
    }
  }

  /** The list without one name. */
  function Without(s: seq<string>, x: string): (r: seq<string>)
    ensures forall y :: y in r <==> y in s && y != x
    ensures Distinct(s) ==> Distinct(r)
  {
    if s == [] then []
    else
      var rest := Without(s[1..], x);
      assert Distinct(s) ==> s[0] !in s[1..];
      DistinctAppend(if s[0] == x then [] else [s[0]], rest);
      (if s[0] == x then [] else [s[0]]) + rest
  }

  /** Adds one command as a copy of its combined section, parameter by
      parameter. */
  method AddCommand(cfg: ConfigParser, name: string, params: Section) returns (r: Result<(), ConfigError>)
    requires cfg.Valid()
    modifies cfg
    ensures cfg.Valid()
    ensures r.Ok? <==> name != "DEFAULT" && name !in old(cfg.sections)
    ensures r.Ok? ==> cfg.sections == old(cfg.sections)[name := params]
    ensures r.Err? ==> cfg.sections == old(cfg.sections)
  {
    r := cfg.AddSection(name);
    if r.Ok? {
      CopyParams(cfg, name, params);
    }
  }

  /** Fills an empty section with the parameters of `params`, one `set` at a
      time. */
  method CopyParams(cfg: ConfigParser, name: string, params: Section)
    requires cfg.Valid() && name in cfg.sections && cfg.sections[name] == map[]
    modifies cfg
    ensures cfg.Valid()
    ensures cfg.sections == old(cfg.sections)[name := params]
  {
    ghost var base := cfg.sections;
    ghost var copied: Section := map[];
    var todo := params.Keys;
    while todo != {}
      invariant cfg.Valid() && todo <= params.Keys
      invariant copied.Keys == params.Keys - todo && forall q :: q in copied ==> copied[q] == params[q]
      invariant cfg.sections == base[name := copied]
      decreases todo
    {
      var q :| q in todo;
      var _ := cfg.Set(name, q, params[q]);
      copied := copied[q := params[q]];
      todo := todo - {q};
    }
    assert copied == params;
  }

  /** `sections` with the names `ps` added in order, each holding `obj`. */
  function Added(sections: map<string, Section>, ps: seq<string>, obj: Section): map<string, Section> {
    if ps == [] then sections else Added(sections, ps[..|ps| - 1], obj)[ps[|ps| - 1] := obj]
  }

  lemma {:induction false} AddedMembers(sections: map<string, Section>, ps: seq<string>, obj: Section)
    ensures forall n :: n in Added(sections, ps, obj) <==> n in sections || n in ps
    ensures forall n :: n in ps ==> Added(sections, ps, obj)[n] == obj
    ensures forall n :: n in sections && n !in ps ==> Added(sections, ps, obj)[n] == sections[n]
  {
    if ps != [] {
      var init := ps[..|ps| - 1];
      AddedMembers(sections, init, obj);
      assert ps == init + [ps[|ps| - 1]];
    }
  }

  /** The names `ps` can all be added to a file with sections `sections`: no
      repetition, no "DEFAULT", none already there. */
  predicate Free(ps: seq<string>, sections: map<string, Section>) {
    Distinct(ps) && forall p :: p in ps ==> p != "DEFAULT" && p !in sections
  }

  /** Replaces one combined section by its commands: each added as a copy, in
      order, then the combined section removed. */
  method SplitCommand(cfg: ConfigParser, m: string) returns (r: Result<(), ConfigError>)
    requires cfg.Valid() && m in cfg.sections && '|' in m
    modifies cfg
    ensures r.Ok? <==> Free(Pieces(m), old(cfg.sections))
    ensures r.Ok? ==> cfg.Valid()
    ensures r.Ok? ==> cfg.sections == Added(old(cfg.sections), Pieces(m), old(cfg.sections)[m]) - {m}
  {
    ghost var s0 := cfg.sections;
    var copy := cfg.sections[m];
    var ps := Pieces(m);
    var j := 0;
    r := Ok(());
    while j < |ps|
      invariant j <= |ps| && cfg.Valid() && r.Ok?
      invariant cfg.sections == Added(s0, ps[..j], copy)
      invariant Free(ps[..j], s0)
    {
      r := AddCommand(cfg, ps[j], copy);
      if r.Err? {
        CommandClash(ps, j, s0, copy);
        return;
      }
      CommandAdded(ps, j, s0, copy);
      j := j + 1;
    }
    assert ps[..j] == ps;
    var _ := cfg.RemoveSection(m);
  }

  lemma CommandClash(ps: seq<string>, j: nat, s0: map<string, Section>, copy: Section)
    requires j < |ps| && Free(ps[..j], s0)
    requires ps[j] == "DEFAULT" || ps[j] in Added(s0, ps[..j], copy)
    ensures !Free(ps, s0)
  {
    AddedMembers(s0, ps[..j], copy);
    assert ps[j] in ps;
    if ps[j] != "DEFAULT" && ps[j] !in s0 {
      var i :| 0 <= i < j && ps[..j][i] == ps[j];
      assert ps[i] == ps[j];
    }
  }

  lemma CommandAdded(ps: seq<string>, j: nat, s0: map<string, Section>, copy: Section)
    requires j < |ps| && Free(ps[..j], s0)
    requires ps[j] != "DEFAULT" && ps[j] !in Added(s0, ps[..j], copy)
    ensures Free(ps[..j + 1], s0)
    ensures Added(s0, ps[..j + 1], copy) == Added(s0, ps[..j], copy)[ps[j] := copy]
  {
    AddedMembers(s0, ps[..j], copy);
    DistinctAppend(ps[..j], [ps[j]]);
    assert ps[..j + 1] == ps[..j] + [ps[j]];
    assert ps[..j + 1][..j] == ps[..j];
  }

  /** The sections once the combined sections `ms` have been split, in order. */
  function Rewritten(s0: map<string, Section>, ms: seq<string>): map<string, Section> {
    if ms == [] then s0
    else
      var prev, last := Rewritten(s0, ms[..|ms| - 1]), ms[|ms| - 1];
      if last in prev then Added(prev, Pieces(last), prev[last]) - {last} else prev
  }

  lemma {:induction false} FlatMember(ms: seq<string>, p: string)
    requires p in Flat(ms)
    ensures exists i :: 0 <= i < |ms| && p in Pieces(ms[i])
  {
    var init := ms[..|ms| - 1];
    if p in Flat(init) {
      FlatMember(init, p);
      var i :| 0 <= i < |init| && p in Pieces(init[i]);
      assert init[i] == ms[i];
    } else {
      assert p in Pieces(ms[|ms| - 1]);
    }
  }

  lemma {:induction false} FlatContains(ms: seq<string>, i: nat, p: string)
    requires i < |ms| && p in Pieces(ms[i])
    ensures p in Flat(ms)
  {
    var init := ms[..|ms| - 1];
    if i < |init| {
      assert init[i] == ms[i];
      FlatContains(init, i, p);
    }
  }

  /** The shape of the sections after splitting `ms`, given the kept
      sections `s0` and their names without '|' in `singles`. */
  ghost predicate Shaped(after: map<string, Section>, s0: map<string, Section>, ms: seq<string>, flat: seq<string>) {
    && (forall n :: n in after <==> (n in s0 && n !in ms) || n in flat)
    && (forall n :: n in s0 && n !in ms ==> after[n] == s0[n])
    && (forall i :: 0 <= i < |ms| && ms[i] in s0 ==>
          forall p :: p in Pieces(ms[i]) ==> p in after && after[p] == s0[ms[i]])
  }

  /** One split keeps the shape. */
  lemma ShapedStep(s0: map<string, Section>, singles: seq<string>, init: seq<string>, last: string,
                   prev: map<string, Section>)
    requires Shaped(prev, s0, init, Flat(init))
    requires last in s0 && last !in init && '|' in last
    requires forall n :: n in s0 && '|' !in n ==> n in singles
    requires forall p :: p in Pieces(last) ==> p !in singles && p !in Flat(init)
    requires forall i, p :: 0 <= i < |init| && p in Pieces(init[i]) ==> p in Flat(init)
    ensures Shaped(Added(prev, Pieces(last), s0[last]) - {last}, s0, init + [last], Flat(init) + Pieces(last))
  {
    var ps := Pieces(last);
    var ms := init + [last];
    AddedMembers(prev, ps, s0[last]);
    var after := Added(prev, ps, s0[last]) - {last};
    forall n | n in s0 && n !in ms
      ensures after[n] == s0[n]
    {
      if '|' !in n {
        assert n in singles;
      }
    }
    forall i | 0 <= i < |ms| && ms[i] in s0
      ensures forall p :: p in Pieces(ms[i]) ==> p in after && after[p] == s0[ms[i]]
    {
      forall p | p in Pieces(ms[i])
        ensures p in after && after[p] == s0[ms[i]]
      {
        if i < |init| {
          assert ms[i] == init[i];
          assert p in Flat(init);
        }
      }
    }
  }

  /** What splitting `ms` leaves when nothing clashes: the sections not split
      are kept, every command holds a copy of its combined section, and no
      other name appears. */
  lemma {:induction false} RewrittenShape(s0: map<string, Section>, singles: seq<string>, ms: seq<string>)
    requires Distinct(ms) && forall m :: m in ms ==> m in s0 && '|' in m
    requires forall n :: n in s0 && '|' !in n ==> n in singles
    requires Distinct(singles + Flat(ms)) && "DEFAULT" !in Flat(ms)
    ensures Shaped(Rewritten(s0, ms), s0, ms, Flat(ms))
  {
    if ms != [] {
      var init, last := ms[..|ms| - 1], ms[|ms| - 1];
      var ps := Pieces(last);
      assert ms == init + [last];
      assert Flat(ms) == Flat(init) + ps;
      assert singles + Flat(ms) == (singles + Flat(init)) + ps;
      DistinctAppend(singles + Flat(init), ps);
      DistinctAppend(singles, Flat(init));
      DistinctAppend(init, [last]);
      RewrittenShape(s0, singles, init);
      var prev := Rewritten(s0, init);
      assert last in prev && prev[last] == s0[last];
      forall i, p | 0 <= i < |init| && p in Pieces(init[i]) ensures p in Flat(init) {
        FlatContains(init, i, p);
      }
      ShapedStep(s0, singles, init, last, prev);
    }
  }

  /** `load_auto_response_config`: checks every command section, then replaces
      each combined section by its commands. When the checks pass, loading
      succeeds exactly when no command clashes; the commands then hold copies of
      their combined sections, the other sections are untouched, and every
      section is a valid command. */
  method LoadAutoResponseConfig(cfg: ConfigParser) returns (r: Result<(), ConfigError>)
    requires cfg.Valid()
    modifies cfg
    ensures CheckCommands(old(cfg.names), old(cfg.sections)).Err? ==>
      r == CheckCommands(old(cfg.names), old(cfg.sections)) && cfg.sections == old(cfg.sections)
    ensures CheckCommands(old(cfg.names), old(cfg.sections)).Ok? ==> (r.Ok? <==> NoClash(old(cfg.names)))
    ensures r.Ok? ==> cfg.Valid() && cfg.sections == Rewritten(old(cfg.sections), Multi(old(cfg.names)))
  {
    var multi;
    r, multi := CheckAndCollect(cfg);
    if r.Ok? {
      r := SplitAll(cfg, multi);
    }
  }

  /** The first loop of the loader: every section checked in file order, the
      combined ones collected. */
  method CheckAndCollect(cfg: ConfigParser) returns (r: Result<(), ConfigError>, multi: seq<string>)
    requires cfg.Valid()
    ensures r == CheckCommands(cfg.names, cfg.sections)
    ensures r.Ok? ==> multi == Multi(cfg.names)
  {
    multi := [];
    var i := 0;
    while i < |cfg.names|
      invariant i <= |cfg.names|
      invariant multi == Multi(cfg.names[..i]) && forall j :: 0 <= j < i ==> ValidCommand(cfg.sections[cfg.names[j]])
    {
      var command := cfg.names[i];
      MultiSnoc(cfg.names, i);
      var c := CheckCommand(command, cfg.sections[command]);
      if c.Err? {
        CheckCommandsFirstErr(cfg.names, cfg.sections, i);
        return c, multi;
      }
      CheckCommandOk(command, cfg.sections[command]);
      ValidExtend(cfg.names, cfg.sections, i);
      if '|' in command {
        multi := multi + [command];
      }
      i := i + 1;
    }
    assert cfg.names[..i] == cfg.names;
    CheckCommandsOk(cfg.names, cfg.sections);
    r := Ok(());
    assert CheckCommands(cfg.names, cfg.sections) == Ok(()) by {
      var u: () := CheckCommands(cfg.names, cfg.sections).value;
      assert u == ();
    }
  }

  /** The second loop of the loader: each combined section split in turn. */
  method SplitAll(cfg: ConfigParser, multi: seq<string>) returns (r: Result<(), ConfigError>)
    requires cfg.Valid() && multi == Multi(cfg.names)
    modifies cfg
    ensures r.Ok? <==> NoClash(old(cfg.names))
    ensures r.Ok? ==> cfg.Valid() && cfg.sections == Rewritten(old(cfg.sections), multi)
  {
    ghost var names0, s0 := cfg.names, cfg.sections;
    SinglesDistinct(names0);
    var k := 0;
    assert multi[..k] == [];
    r := Ok(());
    while k < |multi|
      invariant k <= |multi| && cfg.Valid() && r.Ok?
      invariant cfg.sections == Rewritten(s0, multi[..k])
      invariant Distinct(Singles(names0) + Flat(multi[..k])) && "DEFAULT" !in Flat(multi[..k])
    {
      r := SplitNext(cfg, names0, s0, multi, k);
      if r.Err? {
        FlatPrefix(multi, k + 1);
        ClashPersists(Singles(names0), Flat(multi[..k + 1]), Flat(multi));
        return;
      }
      k := k + 1;
    }
    assert multi[..k] == multi;
  }

  /** One turn of the split loop: the k-th combined section is split. That succeeds
      exactly when its commands clash with nothing before them, and then the sections
      are the ones rewritten up to and including it. */
  method SplitNext(cfg: ConfigParser, ghost names0: seq<string>, ghost s0: map<string, Section>,
                   multi: seq<string>, k: nat) returns (r: Result<(), ConfigError>)
    requires (forall n :: n in names0 <==> n in s0) && Distinct(names0) && multi == Multi(names0) && k < |multi|
    requires cfg.Valid() && cfg.sections == Rewritten(s0, multi[..k])
    requires Distinct(Singles(names0) + Flat(multi[..k])) && "DEFAULT" !in Flat(multi[..k])
    modifies cfg
    ensures r.Ok? <==> Distinct(Singles(names0) + Flat(multi[..k + 1])) && "DEFAULT" !in Flat(multi[..k + 1])
    ensures r.Ok? ==> cfg.Valid() && cfg.sections == Rewritten(s0, multi[..k + 1])
  {
    var m := multi[k];
    SplitStep(names0, s0, multi, k);
    PiecesAgainstPrev(names0, s0, multi, k, cfg.sections);
    FlatSnoc(multi, k);
    ghost var prev := cfg.sections;
    r := SplitCommand(cfg, m);
    ClashStep(Singles(names0), Flat(multi[..k]), Pieces(m), prev, r.Ok?);
    assert multi[..k + 1][..k] == multi[..k];
  }

  lemma ValidExtend(names: seq<string>, sections: map<string, Section>, i: nat)
    requires i < |names| && forall n :: n in names ==> n in sections
    requires forall j :: 0 <= j < i ==> ValidCommand(sections[names[j]])
    requires ValidCommand(sections[names[i]])
    ensures forall j :: 0 <= j < i + 1 ==> ValidCommand(sections[names[j]])
  {
  }

  /** Before the k-th split: the combined section is still there. */
  lemma SplitStep(names0: seq<string>, s0: map<string, Section>, multi: seq<string>, k: nat)
    requires (forall n :: n in names0 <==> n in s0) && Distinct(names0) && multi == Multi(names0) && k < |multi|
    requires Distinct(Singles(names0) + Flat(multi[..k])) && "DEFAULT" !in Flat(multi[..k])
    ensures multi[k] in Rewritten(s0, multi[..k])
    ensures forall n :: n in Rewritten(s0, multi[..k]) <==> (n in s0 && n !in multi[..k]) || n in Flat(multi[..k])
  {
    MultiDistinct(names0);
    assert Distinct(multi[..k]) && multi[k] !in multi[..k];
    RewrittenShape(s0, Singles(names0), multi[..k]);
  }

  /** One step of the second loop: the commands `ps` of the next combined
      section are free exactly when the commands so far stay free with them,
      and a clash there is a clash of the whole file. */
  lemma ClashStep(singles: seq<string>, done: seq<string>, ps: seq<string>,
                  prev: map<string, Section>, ok: bool)
    requires Distinct(singles + done) && "DEFAULT" !in done
    requires forall p :: p in ps ==> (p in prev <==> p in singles + done)
    requires ok <==> Free(ps, prev)
    ensures ok <==> Distinct(singles + (done + ps)) && "DEFAULT" !in done + ps
  {
    var before := singles + done;
    assert singles + (done + ps) == before + ps;
    DistinctAppend(before, ps);
  }

  /** The commands of the k-th combined section follow those before it. */
  lemma FlatSnoc(multi: seq<string>, k: nat)
    requires k < |multi|
    ensures Flat(multi[..k + 1]) == Flat(multi[..k]) + Pieces(multi[k])
  {
    var ms := multi[..k + 1];
    assert ms[..|ms| - 1] == multi[..k];
    assert ms[|ms| - 1] == multi[k];
  }

  /** The commands of the first combined sections come first. */
  lemma {:induction false} FlatPrefix(ms: seq<string>, j: nat)
    requires j <= |ms|
    ensures Flat(ms[..j]) <= Flat(ms)
  {
    if j < |ms| {
      var init := ms[..|ms| - 1];
      assert init[..j] == ms[..j];
      FlatPrefix(init, j);
    } else {
      assert ms[..j] == ms;
    }
  }

  /** A clash among the first commands is a clash among all of them. */
  lemma ClashPersists(singles: seq<string>, x: seq<string>, y: seq<string>)
    requires x <= y
    requires !(Distinct(singles + x) && "DEFAULT" !in x)
    ensures !(Distinct(singles + y) && "DEFAULT" !in y)
  {
    var rest := y[|x|..];
    assert y == x + rest;
    assert singles + y == (singles + x) + rest;
    DistinctAppend(singles + x, rest);
  }

  /** A command is a section before the k-th split exactly when it is a kept
      section or an earlier command. */
  lemma PiecesAgainstPrev(names0: seq<string>, s0: map<string, Section>, multi: seq<string>, k: nat,
                          prev: map<string, Section>)
    requires (forall n :: n in names0 <==> n in s0) && multi == Multi(names0) && k < |multi|
    requires forall n :: n in prev <==> (n in s0 && n !in multi[..k]) || n in Flat(multi[..k])
    ensures forall p :: p in Pieces(multi[k]) ==> (p in prev <==> p in Singles(names0) + Flat(multi[..k]))
  {
    forall p | p in Pieces(multi[k])
      ensures p in prev <==> p in Singles(names0) + Flat(multi[..k])
    {
      assert '|' !in p;
      assert p !in multi;
    }
  }

  /** After a load that succeeds, the sections without '|' are kept, each
      command of a combined section holds a copy of it, and nothing else is
      there. */
  lemma AutoResponseLoaded(names0: seq<string>, s0: map<string, Section>)
    requires (forall n :: n in names0 <==> n in s0) && Distinct(names0) && NoClash(names0)
    ensures var after := Rewritten(s0, Multi(names0));
      && (forall n :: n in after <==> (n in s0 && '|' !in n) || n in Flat(Multi(names0)))
      && (forall n :: n in s0 && '|' !in n ==> after[n] == s0[n])
      && (forall m, p :: m in s0 && '|' in m && p in Pieces(m) ==> p in after && after[p] == s0[m])
  {
    var multi := Multi(names0);
    MultiDistinct(names0);
    RewrittenShape(s0, Singles(names0), multi);
    var after := Rewritten(s0, multi);
    assert Shaped(after, s0, multi, Flat(multi));
    forall m, p | m in s0 && '|' in m && p in Pieces(m)
      ensures p in after && after[p] == s0[m]
    {
      var i :| 0 <= i < |multi| && multi[i] == m;
      assert multi[i] in s0 && p in Pieces(multi[i]);
    }
  }

  /** After a load that succeeds, every section is a valid command. */
  lemma AutoResponseValid(names0: seq<string>, s0: map<string, Section>)
    requires (forall n :: n in names0 <==> n in s0) && Distinct(names0)
    requires CheckCommands(names0, s0).Ok? && NoClash(names0)
    ensures forall n :: n in Rewritten(s0, Multi(names0)) ==> ValidCommand(Rewritten(s0, Multi(names0))[n])
  {
    var multi := Multi(names0);
    MultiDistinct(names0);
    RewrittenShape(s0, Singles(names0), multi);
    CheckCommandsOk(names0, s0);
    var after := Rewritten(s0, multi);
    assert Shaped(after, s0, multi, Flat(multi));
    forall n | n in after
      ensures ValidCommand(after[n])
    {
      if n in Flat(multi) {
        FlatMember(multi, n);
        var i :| 0 <= i < |multi| && n in Pieces(multi[i]);
        assert multi[i] in s0 && after[n] == s0[multi[i]];
        var j :| 0 <= j < |names0| && names0[j] == multi[i];
      } else {
        assert n in s0 && n !in multi && after[n] == s0[n];
        var j :| 0 <= j < |names0| && names0[j] == n;
      }
    }
  }
}
