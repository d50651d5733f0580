/**
 * Where the scripts and the plugin meet: the scripts only accept or create
 * datasets keyed by the days 1..365, while the plugin looks up day 366 on
 * 31 December of a leap year. On that day no category has an item and the
 * no-data screen is shown.
 */
module LeapDay {
  import opened Wrappers
  import opened PyStr
  import opened JsonValue
  import opened Calendar
  import opened DayFile
  import opened Rotation
  import opened Plugin
  import CreateFile

  /** A dataset the save and upload scripts accept. */
  predicate AcceptedDataset(data: Json) {
    CheckDataset(Parsed(data)).Accepted?
  }

  /** The dataset the create script writes is one of them. */
  lemma TemplateIsAccepted()
    ensures AcceptedDataset(JObject(CreateFile.Template()))
  {
    CreateFile.TemplateAccepted();
  }

  /** On 31 December of a leap year the plugin looks up the key `"366"`. */
  lemma LeapYearEndKey(d: Date)
    requires ValidDate(d) && IsLeapYear(d.year) && d.month == 12 && d.day == 31
    ensures DayKey(DayOfYear(d)) == NatToString(366)
  {
  }

  /** An accepted dataset has no entry for that key. */
  lemma AcceptedHasNoLeapDayEntry(data: Json)
    requires AcceptedDataset(data)
    ensures EntryFor(data, NatToString(366)) == None
  {
    AcceptedHasNoDay366(Parsed(data));
  }

  /** When no dataset has an entry for the key, the day has no items. */
  lemma {:induction false} ResolveNothing(files: Members, key: string)
    requires forall i :: 0 <= i < |files| ==> EntryFor(files[i].1, key) == None
    ensures Resolve(files, key) == []
  {
    if files != [] {
      var init := files[..|files| - 1];
      assert forall i :: 0 <= i < |init| ==> init[i] == files[i];
      ResolveNothing(init, key);
    }
  }

  /**
   * With only accepted datasets loaded, 31 December of a leap year has no
   * items, and `display` shows the no-data screen without moving any clock.
   */
  lemma LeapYearEndShowsNoData(files: Members, d: Date, t: Timers, order: seq<string>, categories: Members, now: real, iv: Intervals)
    requires ValidDate(d) && IsLeapYear(d.year) && d.month == 12 && d.day == 31
    requires forall i :: 0 <= i < |files| ==> AcceptedDataset(files[i].1)
    ensures Resolve(files, DayKey(DayOfYear(d))) == []
    ensures Tick(t, Resolve(files, DayKey(DayOfYear(d))), order, categories, now, iv) == Outcome(t, NoData)
  {
    LeapYearEndKey(d);
    forall i | 0 <= i < |files| ensures EntryFor(files[i].1, NatToString(366)) == None {
      AcceptedHasNoLeapDayEntry(files[i].1);
    }
    ResolveNothing(files, NatToString(366));
  }
}
