/**
 * The category and screen rotation of `display`: two level-triggered timers
 * over the categories eligible for today. The category timer is checked
 * first and, when it fires, moves to the next category and restarts the
 * screen timer on the title screen.
 */
module Rotation {
  import opened Wrappers
  import opened JsonValue

  /** The four fields `display` updates. */
  datatype Timers = Timers(index: int, mode: int, lastRotation: real, lastCategoryRotation: real)

  /** `display_rotate_interval` and `subtitle_rotate_interval`, in seconds. */
  datatype Intervals = Intervals(displayRotate: real, subtitleRotate: real)

  /** What the call shows: the no-data screen, the error screen, or a screen of a category. */
  datatype Pick = NoData | Failure | Show(category: string, mode: int)

  datatype Outcome = Outcome(timers: Timers, pick: Pick)

  /**
   * `categories.get(cat, {}).get('enabled', True)` as a truth value; None
   * where the category's configuration is not an object and `.get` raises.
   */
  function EnabledFlag(categories: Members, cat: string): (r: Option<bool>)
    ensures cat !in Keys(categories) ==> r == Some(true)
  {
    var entry := GetOr(categories, cat, JObject([]));
    if !entry.JObject? then None else Some(Truthy(GetOr(entry.members, "enabled", JBool(true))))
  }

  /**
   * `[cat for cat in order if cat in current_items and enabled(cat)]`;
   * None when evaluating the filter raises.
   */
  function Eligible(order: seq<string>, items: Members, categories: Members): (r: Option<seq<string>>)
    ensures r.Some? ==> |r.value| <= |order|
  {
    if order == [] then Some([])
    else
      var cat := order[|order| - 1];
      match Eligible(order[..|order| - 1], items, categories)
      case None => None
      case Some(prefix) =>
        if cat !in Keys(items) then Some(prefix)
        else match EnabledFlag(categories, cat)
          case None => None
          case Some(on) => Some(if on then prefix + [cat] else prefix)
  }

  /**
   * The eligible list holds exactly the names of the order list that have
   * an item today and are enabled.
   */
  lemma {:induction false} EligibleMembers(order: seq<string>, items: Members, categories: Members, c: string)
    requires Eligible(order, items, categories).Some?
    ensures c in Eligible(order, items, categories).value <==>
      c in order && c in Keys(items) && EnabledFlag(categories, c) == Some(true)
    decreases |order|
  {
    if order != [] {
      var init := order[..|order| - 1];
      EligibleMembers(init, items, categories, c);
      assert order == init + [order[|order| - 1]];
    }
  }

  /**
   * The filter keeps the configured order: filtering a concatenation
   * filters each part and concatenates the results, and it raises exactly
   * when filtering one of the parts raises.
   */
  lemma {:induction false} EligibleConcat(a: seq<string>, b: seq<string>, items: Members, categories: Members)
    ensures var ea, eb := Eligible(a, items, categories), Eligible(b, items, categories);
      Eligible(a + b, items, categories) == if ea.Some? && eb.Some? then Some(ea.value + eb.value) else None
    decreases |b|
  {
    if b == [] {
      assert a + b == a;
      var ea := Eligible(a, items, categories);
      if ea.Some? {
        assert ea.value + [] == ea.value;
      }
    } else {
      var b' := b[..|b| - 1];
      assert (a + b)[..|a + b| - 1] == a + b';
      assert (a + b)[|a + b| - 1] == b[|b| - 1];
      EligibleConcat(a, b', items, categories);
      var ea, eb' := Eligible(a, items, categories), Eligible(b', items, categories);
      if ea.Some? && eb'.Some? {
        assert ea.value + eb'.value + [b[|b| - 1]] == ea.value + (eb'.value + [b[|b| - 1]]);
      }
    }
  }

  /** `list[i]` for a Python list: negative indices count from the end; None where it raises IndexError. */
  function ListIndex(e: seq<string>, i: int): (r: Option<string>)
    ensures 0 <= i < |e| ==> r == Some(e[i])
    ensures i >= |e| || i < -|e| ==> r == None
  {
    if 0 <= i < |e| then Some(e[i]) else if -|e| <= i < 0 then Some(e[|e| + i]) else None
  }

  /** The category timer: when it fires, the next category, the title screen and both clocks restarted. */
  function RotateCategory(t: Timers, n: int, now: real, iv: Intervals): (r: Timers)
    requires n > 0
    ensures now - t.lastCategoryRotation >= iv.displayRotate ==>
      r == Timers((t.index + 1) % n, 0, now, now) && 0 <= r.index < n
    ensures now - t.lastCategoryRotation < iv.displayRotate ==> r == t
  {
    if now - t.lastCategoryRotation >= iv.displayRotate then Timers((t.index + 1) % n, 0, now, now) else t
  }

  /** The screen timer: when it fires, the other screen and its clock restarted. */
  function RotateMode(t: Timers, now: real, iv: Intervals): (r: Timers)
    ensures now - t.lastRotation >= iv.subtitleRotate ==> r.mode == (t.mode + 1) % 2 && r.lastRotation == now
    ensures now - t.lastRotation < iv.subtitleRotate ==> r == t
    ensures r.index == t.index && r.lastCategoryRotation == t.lastCategoryRotation
  {
    if now - t.lastRotation >= iv.subtitleRotate then t.(mode := (t.mode + 1) % 2, lastRotation := now) else t
  }

  /** One call of `display` at time `now`, up to the drawing. */
  function Tick(t: Timers, items: Members, order: seq<string>, categories: Members, now: real, iv: Intervals): (r: Outcome)
    ensures items == [] ==> r == Outcome(t, NoData)
    ensures r.pick.Show? ==> r.pick.mode == r.timers.mode
    ensures !r.pick.Show? ==> r.timers.lastRotation == t.lastRotation && r.timers.mode == t.mode
  {
    if items == [] then Outcome(t, NoData)
    else match Eligible(order, items, categories)
      case None => Outcome(t, Failure)
      case Some(e) =>
        if e == [] then Outcome(t, NoData)
        else
          var t1 := RotateCategory(t, |e|, now, iv);
          match ListIndex(e, t1.index)
          case None => Outcome(t1, Failure)
          case Some(cat) =>
            var t2 := RotateMode(t1, now, iv);
            Outcome(t2, Show(cat, t2.mode))
  }

  /** A shown category is one of the categories eligible today. */
  lemma TickShowsEligible(t: Timers, items: Members, order: seq<string>, categories: Members, now: real, iv: Intervals)
    requires Tick(t, items, order, categories, now, iv).pick.Show?
    ensures Eligible(order, items, categories).Some?
    ensures Tick(t, items, order, categories, now, iv).pick.category in Eligible(order, items, categories).value
  {
    var e := Eligible(order, items, categories).value;
    var t1 := RotateCategory(t, |e|, now, iv);
    var i := t1.index;
    assert ListIndex(e, i).Some?;
    if 0 <= i < |e| {
      assert ListIndex(e, i).value == e[i];
    } else {
      assert ListIndex(e, i).value == e[|e| + i];
    }
  }

  /**
   * With no items for today, or no eligible category, the no-data screen
   * is shown and none of the four fields changes.
   */
  lemma TickNoData(t: Timers, items: Members, order: seq<string>, categories: Members, now: real, iv: Intervals)
    ensures var o := Tick(t, items, order, categories, now, iv);
      o.pick == NoData <==> items == [] || Eligible(order, items, categories) == Some([])
    ensures var o := Tick(t, items, order, categories, now, iv);
      o.pick == NoData ==> o.timers == t
  {
  }

  /**
   * When the category timer fires, the index moves to the next eligible
   * category (in range), both clocks restart at `now`, and the screen is
   * the title screen unless the screen interval is not positive.
   */
  lemma TickCategorySwitch(t: Timers, items: Members, order: seq<string>, categories: Members, now: real, iv: Intervals)
    requires items != []
    requires Eligible(order, items, categories).Some? && Eligible(order, items, categories).value != []
    requires now - t.lastCategoryRotation >= iv.displayRotate
    ensures var e := Eligible(order, items, categories).value;
      var o := Tick(t, items, order, categories, now, iv);
      && o.timers.index == (t.index + 1) % |e| && 0 <= o.timers.index < |e|
      && o.timers.lastRotation == now && o.timers.lastCategoryRotation == now
      && o.pick == Show(e[o.timers.index], o.timers.mode)
      && o.timers.mode == (if iv.subtitleRotate > 0.0 then 0 else 1)
  {
    var e := Eligible(order, items, categories).value;
    var t1 := RotateCategory(t, |e|, now, iv);
    assert t1 == Timers((t.index + 1) % |e|, 0, now, now);
    assert ListIndex(e, t1.index) == Some(e[t1.index]);
    var t2 := RotateMode(t1, now, iv);
    assert Tick(t, items, order, categories, now, iv) == Outcome(t2, Show(e[t1.index], t2.mode));
  }

  /**
   * Without a category switch, a stored index past the end of the
   * eligible list is not clamped: the lookup raises and the error screen
   * is shown.
   */
  lemma TickStaleIndex(t: Timers, items: Members, order: seq<string>, categories: Members, now: real, iv: Intervals)
    requires items != [] && t.index >= 0
    requires Eligible(order, items, categories).Some? && Eligible(order, items, categories).value != []
    requires now - t.lastCategoryRotation < iv.displayRotate
    ensures var o := Tick(t, items, order, categories, now, iv);
      o.pick == Failure <==> t.index >= |Eligible(order, items, categories).value|
    ensures var o := Tick(t, items, order, categories, now, iv);
      o.pick == Failure ==> o.timers == t
  {
  }

  /**
   * Without a category switch, the screen flips exactly when the screen
   * timer fires, and stays in {0, 1}.
   */
  lemma TickModeFlip(t: Timers, items: Members, order: seq<string>, categories: Members, now: real, iv: Intervals)
    requires t.mode == 0 || t.mode == 1
    requires Tick(t, items, order, categories, now, iv).pick.Show?
    requires now - t.lastCategoryRotation < iv.displayRotate
    ensures var o := Tick(t, items, order, categories, now, iv);
      && o.timers.index == t.index && o.timers.lastCategoryRotation == t.lastCategoryRotation
      && (o.timers.mode == 0 || o.timers.mode == 1)
      && (o.timers.mode != t.mode <==> now - t.lastRotation >= iv.subtitleRotate)
      && o.pick.mode == o.timers.mode
  {
  }

  /** The index after `k` category switches over an unchanged list of `n` eligible categories. */
  function Switches(i: int, k: nat, n: int): int
    requires n > 0
  {
    if k == 0 then i else (Switches(i, k - 1, n) + 1) % n
  }

  lemma SwitchesStep(i: int, k: nat, n: int)
    requires n > 0 && k >= 1
    ensures Switches(i, k, n) == (Switches(i, k - 1, n) + 1) % n
  {
  }

  /** Euclidean division is unique: a quotient and remainder in range are `x / n` and `x % n`. */
  lemma DivModUnique(x: int, n: int, q: int, r: int)
    requires n > 0 && 0 <= r < n && x == q * n + r
    ensures x / n == q && x % n == r
  {
    var q', r' := x / n, x % n;
    assert (q - q') * n == r' - r;
    if q > q' {
      MulAtLeast(q - q', n);
    } else if q < q' {
      MulAtLeast(q' - q, n);
    }
  }

  lemma MulAtLeast(m: int, n: int)
    requires m >= 1 && n > 0
    ensures m * n >= n
  {
  }

  /** After `k >= 1` switches the index is `(i + k) mod n`. */
  lemma {:induction false} SwitchesIsModular(i: int, k: nat, n: int)
    requires n > 0 && k >= 1
    ensures Switches(i, k, n) == (i + k) % n
  {
    SwitchesStep(i, k, n);
    if k > 1 {
      SwitchesIsModular(i, k - 1, n);
      var a := (i + k - 1) % n;
      var q := (i + k - 1) / n;
      DivModUnique(i + k - 1, n, q, a);
      if a + 1 < n {
        DivModUnique(i + k, n, q, a + 1);
        DivModUnique(a + 1, n, 0, a + 1);
      } else {
        DivModUnique(i + k, n, q + 1, 0);
        DivModUnique(a + 1, n, 1, 0);
      }
    }
  }

  /** Rotation is fair: within `n` switches every eligible category comes up. */
  lemma SwitchesVisitAll(i: int, n: int, c: int)
    requires n > 0 && 0 <= c < n
    ensures var k := (c - i - 1) % n + 1;
      1 <= k <= n && Switches(i, k, n) == c
  {
    var k := (c - i - 1) % n + 1;
    SwitchesIsModular(i, k, n);
    var d := (c - i - 1) / n;
    DivModUnique(c - i - 1, n, d, k - 1);
    assert i + k == (-d) * n + c;
    DivModUnique(i + k, n, -d, c);
  }

  /** The timers after successive calls of `display` at the times `nows`, items and configuration unchanged. */
  function Run(t: Timers, items: Members, order: seq<string>, categories: Members, nows: seq<real>, iv: Intervals): Timers
    decreases |nows|
  {
    if nows == [] then t
    else
      var before := Run(t, items, order, categories, nows[..|nows| - 1], iv);
      Tick(before, items, order, categories, nows[|nows| - 1], iv).timers
  }

  /**
   * Calls spaced at least the category interval apart each switch the
   * category: after `k` of them over an unchanged eligible list of `n`
   * categories the index is `Switches(i, k, n)` (for `k >= 1`, `(i + k)
   * mod n` by SwitchesIsModular), and both clocks hold the time of the
   * last call.
   */
  lemma {:induction false} RunSwitches(t: Timers, items: Members, order: seq<string>, categories: Members,
                                       nows: seq<real>, iv: Intervals)
    requires items != []
    requires Eligible(order, items, categories).Some? && Eligible(order, items, categories).value != []
    requires nows != [] ==> nows[0] - t.lastCategoryRotation >= iv.displayRotate
    requires forall j :: 0 < j < |nows| ==> nows[j] - nows[j - 1] >= iv.displayRotate
    ensures var n, r := |Eligible(order, items, categories).value|, Run(t, items, order, categories, nows, iv);
      && r.index == Switches(t.index, |nows|, n)
      && (nows != [] ==> r.lastCategoryRotation == nows[|nows| - 1] && r.lastRotation == nows[|nows| - 1])
    decreases |nows|
  {
    var n := |Eligible(order, items, categories).value|;
    if nows == [] {
      assert Run(t, items, order, categories, nows, iv) == t;
    } else {
      var prefix := nows[..|nows| - 1];
      RunSwitches(t, items, order, categories, prefix, iv);
      var before := Run(t, items, order, categories, prefix, iv);
      assert before.index == Switches(t.index, |prefix|, n);
      assert prefix != [] ==> before.lastCategoryRotation == nows[|nows| - 2];
      TickCategorySwitch(before, items, order, categories, nows[|nows| - 1], iv);
      var after := Tick(before, items, order, categories, nows[|nows| - 1], iv).timers;
      assert Run(t, items, order, categories, nows, iv) == after;
      assert after.index == (before.index + 1) % n;
      SwitchesStep(t.index, |nows|, n);
    }
  }
}
