/**
 * Registering and unregistering a category in the main configuration:
 * the `'of-the-day'` section holds the `categories` mapping and the
 * `category_order` list. The configuration is the already-loaded object;
 * reading and writing the file are not part of this model. A call that
 * raises (a section, mapping or list of the wrong type) yields no new
 * configuration.
 */
module ConfigUpdate {
  import opened Wrappers
  import opened JsonValue

  const Section := "of-the-day"
  const CategoriesKey := "categories"
  const OrderKey := "category_order"

  /** The configuration entry of a newly registered category: enabled, with its data file and display name. */
  function CategoryEntry(dataFile: string, displayName: Json): Json {
    JObject([("enabled", JBool(true)), ("data_file", JString(dataFile)), ("display_name", displayName)])
  }

  /** `config.get('of-the-day', {})`. */
  function SectionOf(config: Members): Json {
    GetOr(config, Section, JObject([]))
  }

  /** The `categories` mapping of the section, when the section and the mapping are objects. */
  function CategoriesIn(config: Members): Option<Members> {
    var p := SectionOf(config);
    if !p.JObject? then None
    else
      var c := GetOr(p.members, CategoriesKey, JObject([]));
      if c.JObject? then Some(c.members) else None
  }

  /** `plugin_config.get('category_order', [])`, when the section is an object. */
  function OrderIn(config: Members): Option<Json> {
    var p := SectionOf(config);
    if p.JObject? then Some(GetOr(p.members, OrderKey, JArray([]))) else None
  }

  /** A configuration whose section is replaced by the object `q` shows `q` as its section. */
  lemma SectionAfter(config: Members, q: Members)
    ensures SectionOf(Set(config, Section, JObject(q))) == JObject(q)
  {
  }

  /** ... and the mapping and the order list that `q` holds. */
  lemma ViewsAfter(config: Members, q: Members)
    ensures var c := GetOr(q, CategoriesKey, JObject([]));
      CategoriesIn(Set(config, Section, JObject(q))) == if c.JObject? then Some(c.members) else None
    ensures OrderIn(Set(config, Section, JObject(q))) == Some(GetOr(q, OrderKey, JArray([])))
  {
    SectionAfter(config, q);
  }

  /**
   * `if name not in order: order.append(name)`: a list gains the name at its
   * end only when it lacks it; None where the test or the append raises.
   */
  function AppendIfAbsent(order: Json, name: string): (r: Option<Json>)
    ensures order.JArray? ==> r.Some? && r.value.JArray?
    ensures order.JArray? && JString(name) in order.items ==> r == Some(order)
    ensures order.JArray? && JString(name) !in order.items ==> r == Some(JArray(order.items + [JString(name)]))
    ensures r.Some? ==> PyIn(r.value, name) == Some(true)
  {
    match PyIn(order, name)
    case None => None
    case Some(true) => Some(order)
    case Some(false) => if order.JArray? then Some(JArray(order.items + [JString(name)])) else None
  }

  /** `add_category_to_config(name, data_file, display_name)`: the configuration it saves, None where it raises. */
  function AddCategory(config: Members, name: string, dataFile: string, displayName: Json): (r: Option<Members>)
    ensures r.Some? <==> CategoriesIn(config).Some? && AppendIfAbsent(OrderIn(config).value, name).Some?
  {
    var plugin := SectionOf(config);
    if !plugin.JObject? then None
    else
      var categories := GetOr(plugin.members, CategoriesKey, JObject([]));
      if !categories.JObject? then None
      else
        var p1 := Set(plugin.members, CategoriesKey, JObject(Set(categories.members, name, CategoryEntry(dataFile, displayName))));
        match AppendIfAbsent(GetOr(p1, OrderKey, JArray([])), name)
        case None => None
        case Some(order) => Some(Set(config, Section, JObject(Set(p1, OrderKey, order))))
  }

  /** The statements of `add_category_to_config`, one dictionary update at a time. */
  method AddCategoryToConfig(config: Members, name: string, dataFile: string, displayName: Json) returns (saved: Option<Members>)
    ensures saved == AddCategory(config, name, dataFile, displayName)
  {
    var pluginConfig := SectionOf(config);
    if !pluginConfig.JObject? {
      return None;
    }
    var categories := GetOr(pluginConfig.members, CategoriesKey, JObject([]));
    if !categories.JObject? {
      return None;
    }
    var plugin := pluginConfig.members;
    var cats := categories.members;
    cats := Set(cats, name, CategoryEntry(dataFile, displayName));
    plugin := Set(plugin, CategoriesKey, JObject(cats));
    var order := GetOr(plugin, OrderKey, JArray([]));
    ghost var appended := AppendIfAbsent(order, name);
    assert AddCategory(config, name, dataFile, displayName) ==
      if appended.None? then None else Some(Set(config, Section, JObject(Set(plugin, OrderKey, appended.value))));
    var present := PyIn(order, name);
    if present.None? {
      return None;
    }
    if !present.value {
      if !order.JArray? {
        return None;
      }
      order := JArray(order.items + [JString(name)]);
    }
    plugin := Set(plugin, OrderKey, order);
    saved := Some(Set(config, Section, JObject(plugin)));
  }

  /** Setting the mapping leaves the order list of the section as it was. */
  lemma OrderUnderCategories(p: Members, c: Json)
    ensures GetOr(Set(p, CategoriesKey, c), OrderKey, JArray([])) == GetOr(p, OrderKey, JArray([]))
  {
    assert |OrderKey| != |CategoriesKey|;
  }

  /** A successful add replaces the section by the old one with the mapping and then the order list set. */
  lemma AddShape(config: Members, name: string, dataFile: string, displayName: Json)
    requires AddCategory(config, name, dataFile, displayName).Some?
    ensures SectionOf(config).JObject? && CategoriesIn(config).Some? && AppendIfAbsent(OrderIn(config).value, name).Some?
    ensures var p1 := Set(SectionOf(config).members, CategoriesKey,
        JObject(Set(CategoriesIn(config).value, name, CategoryEntry(dataFile, displayName))));
      AddCategory(config, name, dataFile, displayName)
        == Some(Set(config, Section, JObject(Set(p1, OrderKey, AppendIfAbsent(OrderIn(config).value, name).value))))
  {
    OrderUnderCategories(SectionOf(config).members, JObject(Set(CategoriesIn(config).value, name, CategoryEntry(dataFile, displayName))));
  }

  /**
   * A successful add registers the category with exactly its entry, appends
   * the name to the order list only when absent, and leaves every other
   * category, every other key of the section and every other key of the
   * configuration as it was.
   */
  lemma AddRegisters(config: Members, name: string, dataFile: string, displayName: Json)
    requires AddCategory(config, name, dataFile, displayName).Some?
    ensures var r := AddCategory(config, name, dataFile, displayName).value;
      && CategoriesIn(r).Some?
      && Get(CategoriesIn(r).value, name) == Some(CategoryEntry(dataFile, displayName))
      && (forall other :: other != name ==> Get(CategoriesIn(r).value, other) == Get(CategoriesIn(config).value, other))
      && OrderIn(r) == AppendIfAbsent(OrderIn(config).value, name)
      && (forall k :: k != CategoriesKey && k != OrderKey ==> Get(SectionOf(r).members, k) == Get(SectionOf(config).members, k))
      && (forall k :: k != Section ==> Get(r, k) == Get(config, k))
  {
    AddShape(config, name, dataFile, displayName);
    var c1 := Set(CategoriesIn(config).value, name, CategoryEntry(dataFile, displayName));
    SectionSet(config, SectionOf(config).members, JObject(c1), AppendIfAbsent(OrderIn(config).value, name).value);
  }

  /** The section `p` with its mapping set to `c` and its order list to `o`, seen from the configuration. */
  lemma SectionSet(config: Members, p: Members, c: Json, o: Json)
    ensures var q := Set(Set(p, CategoriesKey, c), OrderKey, o);
      var r := Set(config, Section, JObject(q));
      && SectionOf(r) == JObject(q)
      && CategoriesIn(r) == (if c.JObject? then Some(c.members) else None)
      && OrderIn(r) == Some(o)
  {
    var q := Set(Set(p, CategoriesKey, c), OrderKey, o);
    ViewsAfter(config, q);
    assert Get(q, CategoriesKey) == Some(c);
  }

  /** Adding a category a second time gives the configuration adding it once gave. */
  lemma AddIdempotent(config: Members, name: string, dataFile: string, displayName: Json)
    requires AddCategory(config, name, dataFile, displayName).Some?
    ensures var once := AddCategory(config, name, dataFile, displayName).value;
      AddCategory(once, name, dataFile, displayName) == Some(once)
  {
    var e := CategoryEntry(dataFile, displayName);
    AddShape(config, name, dataFile, displayName);
    var c1 := Set(CategoriesIn(config).value, name, e);
    var p1 := Set(SectionOf(config).members, CategoriesKey, JObject(c1));
    var o1 := AppendIfAbsent(OrderIn(config).value, name).value;
    var q1 := Set(p1, OrderKey, o1);
    var once := Set(config, Section, JObject(q1));
    SectionSet(config, SectionOf(config).members, JObject(c1), o1);
    SetTwice(CategoriesIn(config).value, name, e, e);
    assert AppendIfAbsent(o1, name) == Some(o1);
    ReAddSame(once, q1, c1, o1, name, dataFile, displayName);
  }

  /**
   * Adding to a configuration whose mapping already holds the entry and whose
   * list already holds the name sets each key to the value it holds.
   */
  lemma ReAddSame(config: Members, q: Members, c: Members, o: Json, name: string, dataFile: string, displayName: Json)
    requires Get(config, Section) == Some(JObject(q))
    requires Get(q, CategoriesKey) == Some(JObject(c)) && Get(q, OrderKey) == Some(o)
    requires Set(c, name, CategoryEntry(dataFile, displayName)) == c && AppendIfAbsent(o, name) == Some(o)
    ensures AddCategory(config, name, dataFile, displayName) == Some(config)
  {
    SetSame(q, CategoriesKey);
    SetSame(q, OrderKey);
    SetSame(config, Section);
  }

  /** The outcome of `remove_category_from_config`. */
  datatype Removal = NotSaved | Saved(config: Members) | Raised

  /**
   * `remove_category_from_config(name)`: nothing is saved when the section
   * is missing or empty; otherwise `del categories[name]` and
   * `order.remove(name)` where the name is present.
   */
  function RemoveCategory(config: Members, name: string): (r: Removal)
    ensures r.NotSaved? <==> !Truthy(SectionOf(config))
  {
    var plugin := SectionOf(config);
    if !Truthy(plugin) then NotSaved
    else if !plugin.JObject? then Raised
    else
      var categories := GetOr(plugin.members, CategoriesKey, JObject([]));
      match PyIn(categories, name)
      case None => Raised
      case Some(found) =>
        if found && !categories.JObject? then Raised
        else
          var cats := if found then JObject(Delete(categories.members, name)) else categories;
          var p1 := Set(plugin.members, CategoriesKey, cats);
          var order := GetOr(p1, OrderKey, JArray([]));
          match PyIn(order, name)
          case None => Raised
          case Some(listed) =>
            if listed && !order.JArray? then Raised
            else
              var order' := if listed then JArray(RemoveFirst(order.items, JString(name))) else order;
              Saved(Set(config, Section, JObject(Set(p1, OrderKey, order'))))
  }

  /**
   * A removal that saves replaces the section by the old one with the
   * mapping and then the order list set: the name deleted from a mapping
   * that holds it, its first occurrence removed from a list that holds it.
   */
  lemma RemoveShape(config: Members, name: string)
    requires RemoveCategory(config, name).Saved?
    ensures SectionOf(config).JObject?
    ensures var pm := SectionOf(config).members;
      var cats := GetOr(pm, CategoriesKey, JObject([]));
      var order := GetOr(pm, OrderKey, JArray([]));
      var c1 := if cats.JObject? && name in Keys(cats.members) then JObject(Delete(cats.members, name)) else cats;
      var o1 := if order.JArray? && JString(name) in order.items then JArray(RemoveFirst(order.items, JString(name))) else order;
      RemoveCategory(config, name) == Saved(Set(config, Section, JObject(Set(Set(pm, CategoriesKey, c1), OrderKey, o1))))
  {
    var pm := SectionOf(config).members;
    var cats := GetOr(pm, CategoriesKey, JObject([]));
    var found := PyIn(cats, name).value;
    assert found && cats.JObject? <==> cats.JObject? && name in Keys(cats.members);
    var c1 := if found then JObject(Delete(cats.members, name)) else cats;
    OrderUnderCategories(pm, c1);
    var order := GetOr(pm, OrderKey, JArray([]));
    var listed := PyIn(order, name).value;
    assert listed && order.JArray? <==> order.JArray? && JString(name) in order.items;
  }

  /**
   * A removal that saves drops the name from the mapping and its first
   * occurrence from the order list, leaves an absent name's mapping as it
   * was, and changes nothing else in the section or the configuration.
   */
  lemma RemoveUnregisters(config: Members, name: string)
    requires RemoveCategory(config, name).Saved? && CategoriesIn(config).Some?
    ensures var r := RemoveCategory(config, name).config;
      && CategoriesIn(r).Some?
      && (forall other :: other != name ==> Get(CategoriesIn(r).value, other) == Get(CategoriesIn(config).value, other))
      && (name !in Keys(CategoriesIn(config).value) ==> CategoriesIn(r) == CategoriesIn(config))
      && (forall k :: k != CategoriesKey && k != OrderKey ==> Get(SectionOf(r).members, k) == Get(SectionOf(config).members, k))
      && (forall k :: k != Section ==> Get(r, k) == Get(config, k))
    ensures var r := RemoveCategory(config, name).config;
      OrderIn(config).value.JArray? ==>
        var items := OrderIn(config).value.items;
        OrderIn(r) == Some(JArray(if JString(name) in items then RemoveFirst(items, JString(name)) else items))
  {
    RemoveShape(config, name);
    var pm := SectionOf(config).members;
    var cm := CategoriesIn(config).value;
    var order := GetOr(pm, OrderKey, JArray([]));
    var c1 := if name in Keys(cm) then JObject(Delete(cm, name)) else JObject(cm);
    var o1 := if order.JArray? && JString(name) in order.items then JArray(RemoveFirst(order.items, JString(name))) else order;
    SectionSet(config, pm, c1, o1);
  }

  /** The statements of `remove_category_from_config`, one update at a time. */
  method RemoveCategoryFromConfig(config: Members, name: string) returns (r: Removal)
    ensures r == RemoveCategory(config, name)
  {
    var pluginConfig := SectionOf(config);
    if !Truthy(pluginConfig) {
      return NotSaved;
    }
    if !pluginConfig.JObject? {
      return Raised;
    }
    var plugin := pluginConfig.members;
    var categories := GetOr(plugin, CategoriesKey, JObject([]));
    var found := PyIn(categories, name);
    if found.None? || (found.value && !categories.JObject?) {
      return Raised;
    }
    if found.value {
      categories := JObject(Delete(categories.members, name));
    }
    plugin := Set(plugin, CategoriesKey, categories);
    var order := GetOr(plugin, OrderKey, JArray([]));
    var listed := PyIn(order, name);
    if listed.None? || (listed.value && !order.JArray?) {
      return Raised;
    }
    if listed.value {
      order := JArray(RemoveFirst(order.items, JString(name)));
    }
    plugin := Set(plugin, OrderKey, order);
    r := Saved(Set(config, Section, JObject(plugin)));
  }

  /** In a mapping with distinct keys, removal leaves no entry for the name. */
  lemma RemoveForgetsCategory(config: Members, name: string)
    requires CategoriesIn(config).Some? && DistinctKeys(CategoriesIn(config).value)
    requires RemoveCategory(config, name).Saved?
    ensures Get(CategoriesIn(RemoveCategory(config, name).config).value, name) == None
  {
    var cm := CategoriesIn(config).value;
    DeleteRemovesKey(cm, name);
  }

  /** A removal from a section whose mapping holds the name and whose list holds it. */
  lemma RemoveListed(config: Members, name: string)
    requires SectionOf(config).JObject?
    requires CategoriesIn(config).Some? && name in Keys(CategoriesIn(config).value)
    requires OrderIn(config).value.JArray? && JString(name) in OrderIn(config).value.items
    ensures var r := RemoveCategory(config, name);
      && r.Saved?
      && CategoriesIn(r.config) == Some(Delete(CategoriesIn(config).value, name))
      && OrderIn(r.config) == Some(JArray(RemoveFirst(OrderIn(config).value.items, JString(name))))
  {
    var pm := SectionOf(config).members;
    assert Truthy(SectionOf(config)) by {
      assert Get(pm, CategoriesKey).Some?;
    }
    assert PyIn(GetOr(pm, CategoriesKey, JObject([])), name) == Some(true);
    OrderUnderCategories(pm, JObject(Delete(CategoriesIn(config).value, name)));
    RemoveShape(config, name);
    SectionSet(config, pm, JObject(Delete(CategoriesIn(config).value, name)),
      JArray(RemoveFirst(OrderIn(config).value.items, JString(name))));
  }

  /**
   * Adding a category absent from both the mapping and the order list,
   * then removing it, restores the mapping and the list.
   */
  lemma AddThenRemove(config: Members, name: string, dataFile: string, displayName: Json)
    requires CategoriesIn(config).Some? && name !in Keys(CategoriesIn(config).value)
    requires OrderIn(config).value.JArray? && JString(name) !in OrderIn(config).value.items
    ensures AddCategory(config, name, dataFile, displayName).Some?
    ensures var added := AddCategory(config, name, dataFile, displayName).value;
      var r := RemoveCategory(added, name);
      r.Saved? && CategoriesIn(r.config) == CategoriesIn(config) && OrderIn(r.config) == OrderIn(config)
  {
    var e := CategoryEntry(dataFile, displayName);
    var cm := CategoriesIn(config).value;
    var items := OrderIn(config).value.items;
    AddShape(config, name, dataFile, displayName);
    var o1 := AppendIfAbsent(OrderIn(config).value, name).value;
    SectionSet(config, SectionOf(config).members, JObject(Set(cm, name, e)), o1);
    var added := AddCategory(config, name, dataFile, displayName).value;
    assert CategoriesIn(added) == Some(Set(cm, name, e));
    assert OrderIn(added) == Some(JArray(items + [JString(name)]));
    RemoveListed(added, name);
    DeleteAfterAppend(cm, name, e);
    RemoveFirstAfterAppend(items, JString(name));
  }
}
