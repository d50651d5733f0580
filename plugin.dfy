/**
 * The plugin object (`OfTheDayPlugin`): its settings, the datasets loaded
 * per category, today's item of each category, and the rotation clocks.
 * The clock and the calendar are parameters of the operations; reading the
 * dataset files is not part of this model, so the loaded datasets are given
 * to the constructor.
 */
module Plugin {
  import opened Wrappers
  import opened PyStr
  import opened JsonValue
  import opened Calendar
  import opened Rotation
  import opened Layout

  const DefaultUpdateInterval: real := 3600.0
  const DefaultDisplayRotateInterval: real := 20.0
  const DefaultSubtitleRotateInterval: real := 10.0

  /** The configuration values the plugin reads once, at construction. */
  datatype Settings = Settings(updateInterval: real, intervals: Intervals, categories: Members, categoryOrder: seq<string>)

  /** `config.get(key, default)` for a numeric setting; None for a value of another type. */
  function NumberSetting(config: Members, key: string, default: real): (r: Option<real>)
    ensures key !in Keys(config) ==> r == Some(default)
    ensures r.Some? && key in Keys(config) ==> Get(config, key) == Some(JNumber(r.value))
  {
    match Get(config, key)
    case None => Some(default)
    case Some(JNumber(n)) => Some(n)
    case Some(_) => None
  }

  function Strings(items: seq<Json>): (r: Option<seq<string>>)
    ensures r.Some? ==> |r.value| == |items| && forall i :: 0 <= i < |items| ==> items[i] == JString(r.value[i])
  {
    if items == [] then Some([])
    else match (items[0], Strings(items[1..]))
      case (JString(s), Some(rest)) => Some([s] + rest)
      case _ => None
  }

  /**
   * The settings with their defaults (3600, 20 and 10 seconds, no
   * categories, empty order); None when a present value has a type this
   * model does not cover.
   */
  function ReadSettings(config: Members): (r: Option<Settings>)
    ensures (forall k :: k in Keys(config) ==> k !in ["update_interval", "display_rotate_interval",
        "subtitle_rotate_interval", "categories", "category_order"])
      ==> r == Some(Settings(DefaultUpdateInterval,
            Intervals(DefaultDisplayRotateInterval, DefaultSubtitleRotateInterval), [], []))
  {
    var update := NumberSetting(config, "update_interval", DefaultUpdateInterval);
    var display := NumberSetting(config, "display_rotate_interval", DefaultDisplayRotateInterval);
    var subtitle := NumberSetting(config, "subtitle_rotate_interval", DefaultSubtitleRotateInterval);
    var categories := GetOr(config, "categories", JObject([]));
    var order := GetOr(config, "category_order", JArray([]));
    if update.None? || display.None? || subtitle.None? || !categories.JObject? || !order.JArray? then None
    else match Strings(order.items)
      case None => None
      case Some(names) =>
        Some(Settings(update.value, Intervals(display.value, subtitle.value), categories.members, names))
  }

  /**
   * Today's entry of one dataset: `data[day_key]` behind `day_key in data`.
   * Only an object holding the key yields an entry: for a list or a string
   * the subscript raises, for any other value the membership test raises,
   * and the loop moves on to the next category.
   */
  function EntryFor(data: Json, key: string): (r: Option<Json>)
    ensures r.Some? <==> data.JObject? && key in Keys(data.members)
    ensures r.Some? ==> Get(data.members, key) == r
  {
    match PyIn(data, key)
    case Some(true) => if data.JObject? then Get(data.members, key) else None
    case _ => None
  }

  /** The items of a day: each dataset's entry for `key`, by category, in dataset order. */
  function Resolve(files: Members, key: string): (items: Members)
    ensures forall k :: k in Keys(items) ==> k in Keys(files)
  {
    if files == [] then []
    else
      var acc := Resolve(files[..|files| - 1], key);
      var (name, data) := files[|files| - 1];
      match EntryFor(data, key)
      case Some(v) => Set(acc, name, v)
      case None => acc
  }

  lemma {:induction false} GetSnoc(m: Members, k: string, v: Json, name: string)
    ensures Get(m + [(k, v)], name) == if name in Keys(m) then Get(m, name) else if name == k then Some(v) else None
  {
    if m != [] {
      assert (m + [(k, v)])[1..] == m[1..] + [(k, v)];
      GetSnoc(m[1..], k, v, name);
    }
  }

  lemma DistinctInit(m: Members)
    requires DistinctKeys(m) && m != []
    ensures DistinctKeys(m[..|m| - 1]) && m[|m| - 1].0 !in Keys(m[..|m| - 1])
  {
    var init := m[..|m| - 1];
    forall i | 0 <= i < |init| ensures Keys(init)[i] != m[|m| - 1].0 {
      assert init[i] == m[i];
    }
  }

  /**
   * After loading, a category has an item exactly when its dataset holds
   * an entry for the day, and the item is that entry.
   */
  lemma {:induction false} ResolveGet(files: Members, key: string, name: string)
    requires DistinctKeys(files)
    ensures Get(Resolve(files, key), name) ==
      match Get(files, name)
      case Some(data) => EntryFor(data, key)
      case None => None
  {
    if files != [] {
      var init := files[..|files| - 1];
      var (last, data) := files[|files| - 1];
      DistinctInit(files);
      ResolveGet(init, key, name);
      assert files == init + [(last, data)];
      GetSnoc(init, last, data, name);
    }
  }

  lemma {:induction false} ResolveDistinct(files: Members, key: string)
    ensures DistinctKeys(Resolve(files, key))
  {
    if files != [] {
      ResolveDistinct(files[..|files| - 1], key);
      var (name, data) := files[|files| - 1];
      if EntryFor(data, key).Some? {
        SetKeepsDistinct(Resolve(files[..|files| - 1], key), name, EntryFor(data, key).value);
      }
    }
  }

  /**
   * What `display` puts on the matrix for a pick. The clause about a
   * category without an item is defensive: `display` only picks eligible
   * categories, and those all have an item.
   */
  function FrameOf(pick: Pick, scr: Screen, items: Members): (r: Frame)
    ensures r == NoDataFrame <==> pick.NoData?
    ensures pick.Failure? ==> r == ErrorFrame
    ensures pick.Show? && Get(items, pick.category).None? ==> r.Drawn? && |r.ops| >= 2 && r.ops[0].Text? && r.ops[0].text == "N/A"
  {
    match pick
    case NoData => NoDataFrame
    case Failure => ErrorFrame
    case Show(cat, mode) =>
      var item := GetOr(items, cat, JObject([]));
      FieldOrNonePresent([], ["title", "word"], JString("N/A"));
      FieldOrNonePresent([], ["subtitle", "pronunciation", "type"], JString(""));
      FieldOrNonePresent([], ["description", "definition", "content", "text"], JString("No content"));
      if mode == 0 then TitleView(scr, item) else ContentView(scr, item)
  }

  class OfTheDayPlugin {
    const updateInterval: real
    const intervals: Intervals
    const categories: Members
    const categoryOrder: seq<string>
    /** The dataset loaded for each category, by category name. */
    const dataFiles: Members

    var currentDay: Option<Date>
    /** Today's item of each category that has one, by category name. */
    var currentItems: Members
    var currentCategoryIndex: int
    /** 0 for the title screen, 1 for the content screen. */
    var rotationState: int
    var lastUpdate: real
    var lastRotationTime: real
    var lastCategoryRotationTime: real

    ghost predicate Valid()
      reads this
    {
      && currentCategoryIndex >= 0
      && (rotationState == 0 || rotationState == 1)
      && DistinctKeys(dataFiles)
      && DistinctKeys(currentItems)
    }

    function Clocks(): Timers
      reads this
    {
      Timers(currentCategoryIndex, rotationState, lastRotationTime, lastCategoryRotationTime)
    }

    /** `__init__` at time `now` on day `today`: the settings, then today's items. */
    constructor(settings: Settings, dataFiles: Members, now: real, today: Date)
      requires ValidDate(today) && DistinctKeys(dataFiles)
      ensures Valid()
      ensures updateInterval == settings.updateInterval && intervals == settings.intervals
      ensures categories == settings.categories && categoryOrder == settings.categoryOrder
      ensures this.dataFiles == dataFiles
      ensures currentDay == Some(today) && currentItems == Resolve(dataFiles, DayKey(DayOfYear(today)))
      ensures Clocks() == Timers(0, 0, now, now) && lastUpdate == 0.0
    {
      updateInterval := settings.updateInterval;
      intervals := settings.intervals;
      categories := settings.categories;
      categoryOrder := settings.categoryOrder;
      currentDay := None;
      currentItems := [];
      currentCategoryIndex := 0;
      rotationState := 0;
      lastUpdate := 0.0;
      lastRotationTime := now;
      lastCategoryRotationTime := now;
      this.dataFiles := dataFiles;
      new;
      LoadTodaysItems(today);
    }

    /**
     * `_load_todays_items`: nothing to do when today's items are already
     * there; otherwise the items are rebuilt from every dataset's entry
     * for `str(day_of_year)`.
     */
    method LoadTodaysItems(today: Date)
      requires Valid() && ValidDate(today)
      modifies this
      ensures Valid()
      ensures old(currentDay) == Some(today) && old(currentItems) != [] ==>
        currentDay == old(currentDay) && currentItems == old(currentItems)
      ensures !(old(currentDay) == Some(today) && old(currentItems) != []) ==>
        currentDay == Some(today) && currentItems == Resolve(dataFiles, DayKey(DayOfYear(today)))
      ensures Clocks() == old(Clocks()) && lastUpdate == old(lastUpdate)
    {
      if currentDay == Some(today) && currentItems != [] {
        return;
      }
      currentDay := Some(today);
      currentItems := [];
      var dayKey := DayKey(DayOfYear(today));
      for k := 0 to |dataFiles|
        invariant currentItems == Resolve(dataFiles[..k], dayKey)
        invariant currentDay == Some(today)
        invariant Clocks() == old(Clocks()) && lastUpdate == old(lastUpdate)
      {
        var (name, data) := dataFiles[k];
        var entry := EntryFor(data, dayKey);
        if entry.Some? {
          currentItems := Set(currentItems, name, entry.value);
        }
        assert dataFiles[..k + 1][..k] == dataFiles[..k];
      }
      assert dataFiles[..|dataFiles|] == dataFiles;
      ResolveDistinct(dataFiles, dayKey);
    }

    /**
     * `update` at time `now` on day `today`: nothing within
     * `update_interval` of the last check; otherwise the check time is
     * recorded and the items are reloaded only when the day has changed.
     */
    method Update(now: real, today: Date)
      requires Valid() && ValidDate(today)
      modifies this
      ensures Valid()
      ensures now - old(lastUpdate) < updateInterval ==>
        lastUpdate == old(lastUpdate) && currentDay == old(currentDay) && currentItems == old(currentItems)
      ensures now - old(lastUpdate) >= updateInterval ==> lastUpdate == now
      ensures now - old(lastUpdate) >= updateInterval && old(currentDay) != Some(today) ==>
        currentDay == Some(today) && currentItems == Resolve(dataFiles, DayKey(DayOfYear(today)))
      ensures old(currentDay) == Some(today) ==> currentDay == old(currentDay) && currentItems == old(currentItems)
      ensures Clocks() == old(Clocks())
    {
      if now - lastUpdate < updateInterval {
        return;
      }
      lastUpdate := now;
      if currentDay != Some(today) {
        LoadTodaysItems(today);
      }
    }

    /**
     * `display` at time `now`: the rotation step, then the chosen screen.
     * The clocks move as `Tick` says, and the frame is that of its pick.
     */
    method Display(now: real, scr: Screen) returns (frame: Frame)
      requires Valid()
      modifies this
      ensures Valid()
      ensures Clocks() == Tick(old(Clocks()), currentItems, categoryOrder, categories, now, intervals).timers
      ensures frame == FrameOf(Tick(old(Clocks()), currentItems, categoryOrder, categories, now, intervals).pick, scr, currentItems)
      ensures currentDay == old(currentDay) && currentItems == old(currentItems) && lastUpdate == old(lastUpdate)
    {
      var pick := Rotate(now);
      frame := Render(pick, scr, currentItems);
    }

    /** The part of `display` that picks the category and the screen and moves the clocks. */
    method Rotate(now: real) returns (pick: Pick)
      requires Valid()
      modifies this
      ensures Valid()
      ensures Clocks() == Tick(old(Clocks()), currentItems, categoryOrder, categories, now, intervals).timers
      ensures pick == Tick(old(Clocks()), currentItems, categoryOrder, categories, now, intervals).pick
      ensures currentDay == old(currentDay) && currentItems == old(currentItems) && lastUpdate == old(lastUpdate)
    {
      ghost var t0 := Clocks();
      ghost var out := Tick(t0, currentItems, categoryOrder, categories, now, intervals);
      if currentItems == [] {
        return NoData;
      }
      var eligible := Eligible(categoryOrder, currentItems, categories);
      if eligible.None? {
        assert out == Outcome(t0, Failure);
        return Failure;
      }
      var enabledCategories := eligible.value;
      if enabledCategories == [] {
        assert out == Outcome(t0, NoData);
        return NoData;
      }
      if now - lastCategoryRotationTime >= intervals.displayRotate {
        currentCategoryIndex := (currentCategoryIndex + 1) % |enabledCategories|;
        lastCategoryRotationTime := now;
        rotationState := 0;
        lastRotationTime := now;
      }
      ghost var t1 := Clocks();
      assert t1 == RotateCategory(t0, |enabledCategories|, now, intervals);
      var categoryName := ListIndex(enabledCategories, currentCategoryIndex);
      if categoryName.None? {
        assert out == Outcome(t1, Failure);
        return Failure;
      }
      if now - lastRotationTime >= intervals.subtitleRotate {
        rotationState := (rotationState + 1) % 2;
        lastRotationTime := now;
      }
      assert Clocks() == RotateMode(t1, now, intervals);
      assert out == Outcome(Clocks(), Show(categoryName.value, rotationState));
      pick := Show(categoryName.value, rotationState);
    }
  }

  /** The drawing part of `display`: the no-data screen, the error screen, or the picked screen of the item. */
  method Render(pick: Pick, scr: Screen, items: Members) returns (frame: Frame)
    ensures frame == FrameOf(pick, scr, items)
  {
    match pick
    case NoData => frame := NoDataFrame;
    case Failure => frame := ErrorFrame;
    case Show(category, mode) =>
      var itemData := GetOr(items, category, JObject([]));
      if mode == 0 {
        frame := DisplayTitle(scr, itemData);
      } else {
        frame := DisplayContent(scr, itemData);
      }
  }
}
