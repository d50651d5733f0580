/**
 * The enabled-flag rule of the toggle script: the request names a category
 * and may carry an explicit `enabled` value; without one the current flag
 * is inverted, a missing flag counting as enabled. Reading stdin and the
 * configuration file, and writing the file back, are not part of this model:
 * the request and the stored configuration come in already parsed.
 */
module ToggleCategory {
  import opened Wrappers
  import opened PyStr
  import opened JsonValue
  import opened ConfigUpdate

  /** What the script ends with: an error message, a category not found, the new configuration, or an uncaught exception. */
  datatype ToggleOutcome =
    | Failed(message: string)
    | NotFound(name: Json)
    | Toggled(config: Members, enabled: bool, message: string)
    | Crashed

  const RequiredMessage := "category_name is required"

  function InvalidInputMessage(detail: string): string {
    "Invalid JSON input: " + detail
  }

  function LoadFailedMessage(detail: string): string {
    "Failed to load config: " + detail
  }

  function ToggledMessage(name: string, enabled: bool): string {
    "Category \"" + name + "\" " + (if enabled then "enabled" else "disabled")
  }

  /** The request: the stripped standard input parsed, an empty input standing for `{}`. */
  function ReadParams(stdin: string, parse: string -> Parsed): (r: Parsed)
    ensures Strip(stdin) == [] ==> r == Parsed(JObject([]))
    ensures Strip(stdin) != [] ==> r == parse(Strip(stdin))
  {
    var text := Strip(stdin);
    if text == [] then Parsed(JObject([])) else parse(text)
  }

  /** The configuration object the script works on: `{}` when there is no file. */
  function StoredConfig(stored: Option<Parsed>): Json
    requires stored.None? || stored.value.Parsed?
  {
    if stored.Some? then stored.value.value else JObject([])
  }

  /** The entry of category `name`, when the section, the mapping and the entry are all objects. */
  function EntryOf(config: Members, name: string): (r: Option<Members>)
    ensures r.Some? ==> CategoriesIn(config).Some? && name in Keys(CategoriesIn(config).value)
    ensures r.Some? ==> Section in Keys(config)
  {
    match CategoriesIn(config)
    case None => None
    case Some(cats) =>
      match Get(cats, name)
      case Some(JObject(entry)) => Some(entry)
      case _ => None
  }

  /**
   * The new flag: `bool(params['enabled'])` when the request carries one,
   * otherwise `not entry.get('enabled', True)`.
   */
  function NewFlag(params: Members, entry: Members): (on: bool)
    ensures "enabled" in Keys(params) ==> on == Truthy(Get(params, "enabled").value)
    ensures "enabled" !in Keys(params) && Get(entry, "enabled") == None ==> !on
    ensures "enabled" !in Keys(params) && Get(entry, "enabled").Some? ==> on == !Truthy(Get(entry, "enabled").value)
  {
    match Get(params, "enabled")
    case Some(v) => Truthy(v)
    case None => !Truthy(GetOr(entry, "enabled", JBool(true)))
  }

  /** `categories[name]['enabled'] = flag`, written back through the section into the configuration. */
  function WithFlag(config: Members, name: string, flag: bool): (r: Members)
    requires EntryOf(config, name).Some?
    ensures Keys(r) == Keys(config)
  {
    var plugin := SectionOf(config).members;
    var cats := CategoriesIn(config).value;
    var entry := EntryOf(config, name).value;
    Set(config, Section, JObject(Set(plugin, CategoriesKey, JObject(Set(cats, name, JObject(Set(entry, "enabled", JBool(flag))))))))
  }

  /** The script from the parsed request on. */
  function Toggle(input: Parsed, stored: Option<Parsed>): (r: ToggleOutcome)
    ensures input.ParseFailed? ==> r == Failed(InvalidInputMessage(input.detail))
    ensures input.Parsed? && input.value.JObject? && !Truthy(GetOr(input.value.members, "category_name", JNull)) ==>
      r == Failed(RequiredMessage)
    ensures r.Toggled? ==> (input.Parsed? && input.value.JObject?
      && GetOr(input.value.members, "category_name", JNull).JString?
      && (stored.None? || stored.value.Parsed?) && StoredConfig(stored).JObject?)
    ensures input.Parsed? && !input.value.JObject? ==> r == Crashed
    ensures input.Parsed? && input.value.JObject? && Truthy(GetOr(input.value.members, "category_name", JNull)) ==>
      var name := GetOr(input.value.members, "category_name", JNull);
      && (stored.Some? && stored.value.ParseFailed? ==> r == Failed(LoadFailedMessage(stored.value.detail)))
      && ((stored.None? || stored.value.Parsed?) && !StoredConfig(stored).JObject? ==> r == Crashed)
      && ((stored.None? || stored.value.Parsed?) && StoredConfig(stored).JObject? ==>
            r == ToggleIn(input.value.members, name, StoredConfig(stored).members))
  {
    match input
    case ParseFailed(detail) => Failed(InvalidInputMessage(detail))
    case Parsed(params) =>
      if !params.JObject? then Crashed
      else
        var name := GetOr(params.members, "category_name", JNull);
        if !Truthy(name) then Failed(RequiredMessage)
        else if stored.Some? && stored.value.ParseFailed? then Failed(LoadFailedMessage(stored.value.detail))
        else
          var config := StoredConfig(stored);
          if !config.JObject? then Crashed
          else ToggleIn(params.members, name, config.members)
  }

  /** From the category lookup on, for a request `params` naming `name` and a configuration object. */
  function ToggleIn(params: Members, name: Json, config: Members): (r: ToggleOutcome)
    ensures r.Toggled? ==> (name.JString? && EntryOf(config, name.s).Some?
      && r.enabled == NewFlag(params, EntryOf(config, name.s).value)
      && r.config == WithFlag(config, name.s, r.enabled)
      && r.message == ToggledMessage(name.s, r.enabled))
    ensures name.JString? && CategoriesIn(config).Some? && name.s !in Keys(CategoriesIn(config).value) ==> r == NotFound(name)
    ensures name.JString? && EntryOf(config, name.s).Some? ==> r.Toggled?
    ensures !SectionOf(config).JObject? ==> r == Crashed
  {
    var plugin := SectionOf(config);
    if !plugin.JObject? then Crashed
    else
      var cats := GetOr(plugin.members, CategoriesKey, JObject([]));
      if !name.JString? then
        // a number or a boolean is hashable and equal to no string key
        if (name.JNumber? || name.JBool?) && cats.JObject? then NotFound(name) else Crashed
      else
        var n := name.s;
        match PyIn(cats, n)
        case None => Crashed
        case Some(false) => NotFound(name)
        case Some(true) =>
          if !cats.JObject? then Crashed
          else
            var entry := Get(cats.members, n).value;
            if !entry.JObject? then Crashed
            else
              var flag := NewFlag(params, entry.members);
              Toggled(WithFlag(config, n, flag), flag, ToggledMessage(n, flag))
  }

  /** Lines 62-74 of the script as statements: choose the flag, assign it, write the mapping and section back. */
  method SetEnabled(params: Members, config: Members, name: string) returns (newConfig: Members, flag: bool)
    requires EntryOf(config, name).Some?
    ensures flag == NewFlag(params, EntryOf(config, name).value)
    ensures newConfig == WithFlag(config, name, flag)
  {
    var pluginConfig := SectionOf(config).members;
    var categories := CategoriesIn(config).value;
    var entry := EntryOf(config, name).value;
    if "enabled" in Keys(params) {
      flag := Truthy(Get(params, "enabled").value);
    } else {
      var current := GetOr(entry, "enabled", JBool(true));
      flag := !Truthy(current);
    }
    entry := Set(entry, "enabled", JBool(flag));
    categories := Set(categories, name, JObject(entry));
    pluginConfig := Set(pluginConfig, CategoriesKey, JObject(categories));
    newConfig := Set(config, Section, JObject(pluginConfig));
  }

  /** An empty standard input is an empty request, which names no category. */
  lemma EmptyInputNeedsName(stdin: string, parse: string -> Parsed, stored: Option<Parsed>)
    requires Strip(stdin) == []
    ensures Toggle(ReadParams(stdin, parse), stored) == Failed(RequiredMessage)
  {
  }

  /** The section, the mapping and the entry after the assignment, each the old one with one key set. */
  lemma WithFlagViews(config: Members, name: string, flag: bool)
    requires EntryOf(config, name).Some?
    ensures var r := WithFlag(config, name, flag);
      var e1 := Set(EntryOf(config, name).value, "enabled", JBool(flag));
      var c1 := Set(CategoriesIn(config).value, name, JObject(e1));
      && SectionOf(r) == JObject(Set(SectionOf(config).members, CategoriesKey, JObject(c1)))
      && CategoriesIn(r) == Some(c1)
      && EntryOf(r, name) == Some(e1)
  {
    var e1 := Set(EntryOf(config, name).value, "enabled", JBool(flag));
    var c1 := Set(CategoriesIn(config).value, name, JObject(e1));
    var p1 := Set(SectionOf(config).members, CategoriesKey, JObject(c1));
    assert WithFlag(config, name, flag) == Set(config, Section, JObject(p1));
    EntryAfter(config, p1, c1, e1, name);
  }

  /** A configuration whose section holds the mapping `c`, in which `name` is the object `e`. */
  lemma EntryAfter(config: Members, p: Members, c: Members, e: Members, name: string)
    requires Get(p, CategoriesKey) == Some(JObject(c)) && Get(c, name) == Some(JObject(e))
    ensures var r := Set(config, Section, JObject(p));
      SectionOf(r) == JObject(p) && CategoriesIn(r) == Some(c) && EntryOf(r, name) == Some(e)
  {
    ViewsAfter(config, p);
  }

  /**
   * Only `categories[name]['enabled']` changes: every other key of the
   * entry, every other category, every other key of the section and every
   * other key of the configuration keep their values.
   */
  lemma WithFlagChangesOnlyFlag(config: Members, name: string, flag: bool)
    requires EntryOf(config, name).Some?
    ensures var r := WithFlag(config, name, flag);
      && EntryOf(r, name).Some?
      && Get(EntryOf(r, name).value, "enabled") == Some(JBool(flag))
      && (forall k :: k != "enabled" ==> Get(EntryOf(r, name).value, k) == Get(EntryOf(config, name).value, k))
      && (forall other :: other != name ==> Get(CategoriesIn(r).value, other) == Get(CategoriesIn(config).value, other))
      && (forall k :: k != CategoriesKey ==> Get(SectionOf(r).members, k) == Get(SectionOf(config).members, k))
      && (forall k :: k != Section ==> Get(r, k) == Get(config, k))
  {
    WithFlagViews(config, name, flag);
  }

  /** After the assignment the category's entry is the old entry with its flag set. */
  lemma WithFlagEntry(config: Members, name: string, flag: bool)
    requires EntryOf(config, name).Some?
    ensures EntryOf(WithFlag(config, name, flag), name) == Some(Set(EntryOf(config, name).value, "enabled", JBool(flag)))
  {
    WithFlagViews(config, name, flag);
  }

  /**
   * Without an explicit value, a toggle of a registered category inverts its
   * flag, a missing flag reading as enabled, and stores the result in the entry.
   */
  lemma ToggleInverts(params: Members, name: string, config: Members)
    requires "enabled" !in Keys(params)
    requires EntryOf(config, name).Some?
    ensures var r := ToggleIn(params, JString(name), config);
      && r.Toggled?
      && r.enabled == !Truthy(GetOr(EntryOf(config, name).value, "enabled", JBool(true)))
      && EntryOf(r.config, name) == Some(Set(EntryOf(config, name).value, "enabled", JBool(r.enabled)))
  {
    WithFlagEntry(config, name, ToggleIn(params, JString(name), config).enabled);
  }

  /** Toggling twice without an explicit value restores the flag, a missing flag reading as enabled. */
  lemma ToggleTwiceRestores(params: Members, name: string, config: Members)
    requires "enabled" !in Keys(params)
    requires EntryOf(config, name).Some?
    ensures var once := ToggleIn(params, JString(name), config);
      && once.Toggled?
      && var twice := ToggleIn(params, JString(name), once.config);
      && twice.Toggled?
      && twice.enabled == Truthy(GetOr(EntryOf(config, name).value, "enabled", JBool(true)))
      && EntryOf(twice.config, name).Some?
      && Get(EntryOf(twice.config, name).value, "enabled") == Some(JBool(twice.enabled))
  {
    var entry := EntryOf(config, name).value;
    ToggleInverts(params, name, config);
    var once := ToggleIn(params, JString(name), config);
    var entry1 := Set(entry, "enabled", JBool(once.enabled));
    assert GetOr(entry1, "enabled", JBool(true)) == JBool(once.enabled);
    ToggleInverts(params, name, once.config);
    var twice := ToggleIn(params, JString(name), once.config);
    assert twice.enabled == !once.enabled;
    var entry2 := Set(entry1, "enabled", JBool(twice.enabled));
    assert EntryOf(twice.config, name) == Some(entry2);
    assert Get(entry2, "enabled") == Some(JBool(twice.enabled));
  }
}
