/**
 * What the pages derive from the store without changing it: the order in
 * which a plan's unit cards are shown, and the dashboard's list of units
 * dated today.
 */
module Views {
  import opened Wrappers
  import opened Text
  import opened Calendar
  import opened Plans

  // ---------------------------------------------------------------------
  // Unit cards: sorted(enumerate(units), key=datum, reverse=True)

  /** A unit with its position in the stored list, as `enumerate(units)` pairs them. */
  datatype Entry = Entry(index: nat, unit: Unit)

  /** The sort key `u.get("datum", "")`. */
  function DateKey(u: Unit): string {
    if u.Record? then u.date.GetOr("") else ""
  }

  /**
   * `x` is shown before `y`: its date text is greater, or the texts are equal
   * and `x` comes first in the stored list (a reversed sort in Python stays stable).
   */
  predicate ShownBefore(x: Entry, y: Entry) {
    || Below(DateKey(y.unit), DateKey(x.unit))
    || (DateKey(x.unit) == DateKey(y.unit) && x.index < y.index)
  }

  /** No entry is shown before one that precedes it. */
  predicate InDisplayOrder(s: seq<Entry>) {
    forall i, j | 0 <= i < j < |s| :: !ShownBefore(s[j], s[i])
  }

  function Enumerate(units: seq<Unit>): (r: seq<Entry>)
    ensures |r| == |units| && forall i | 0 <= i < |units| :: r[i] == Entry(i, units[i])
  {
    seq(|units|, i requires 0 <= i < |units| => Entry(i, units[i]))
  }

  lemma ShownBeforeAsymmetric(x: Entry, y: Entry)
    requires ShownBefore(x, y)
    ensures !ShownBefore(y, x)
  {
    var kx, ky := DateKey(x.unit), DateKey(y.unit);
    if Below(ky, kx) {
      BelowAsymmetric(ky, kx);
      BelowIrreflexive(kx);
    } else {
      BelowIrreflexive(kx);
    }
  }

  lemma {:induction false} NotShownBeforeTransitive(x: Entry, y: Entry, z: Entry)
    requires !ShownBefore(y, x) && !ShownBefore(z, y)
    ensures !ShownBefore(z, x)
  {
    var kx, ky, kz := DateKey(x.unit), DateKey(y.unit), DateKey(z.unit);
    if kx != ky { BelowTotal(kx, ky); }
    if ky != kz { BelowTotal(ky, kz); }
    if kx == ky && ky == kz {
      BelowIrreflexive(kx);
    } else if kx == ky {
      BelowAsymmetric(kz, kx);
    } else if ky == kz {
      BelowAsymmetric(kz, kx);
    } else {
      BelowTransitive(kz, ky, kx);
      BelowAsymmetric(kz, kx);
    }
  }

  /** Inserts `x` into an ordered list, after every entry shown before it. */
  function Insert(x: Entry, s: seq<Entry>): (r: seq<Entry>)
    requires InDisplayOrder(s)
    ensures InDisplayOrder(r)
    ensures multiset(r) == multiset(s) + multiset{x}
  {
    if s == [] then [x]
    else if ShownBefore(s[0], x) then
      var rest := Insert(x, s[1..]);
      assert s == [s[0]] + s[1..];
      forall j | 0 <= j < |rest| ensures !ShownBefore(rest[j], s[0]) {
        assert rest[j] in multiset(rest);
        if rest[j] == x {
          ShownBeforeAsymmetric(s[0], x);
        } else {
          assert rest[j] in s[1..];
        }
      }
      [s[0]] + rest
    else
      forall j | 0 <= j < |s| ensures !ShownBefore(s[j], x) {
        if j > 0 {
          NotShownBeforeTransitive(x, s[0], s[j]);
        }
      }
      [x] + s
  }

  function SortEntries(s: seq<Entry>): (r: seq<Entry>)
    ensures InDisplayOrder(r)
    ensures multiset(r) == multiset(s)
  {
    if s == [] then []
    else
      assert s == [s[0]] + s[1..];
      Insert(s[0], SortEntries(s[1..]))
  }

  /**
   * The unit cards of a plan, each with its stored position: every unit
   * once, later dates first, equal dates in stored order, a missing date
   * counted as "". None where the sort raises: some unit is not an object,
   * so the key lookup `get` does not exist on it.
   */
  function DisplayOrder(units: seq<Unit>): (r: Option<seq<Entry>>)
    ensures r.Some? <==> forall i | 0 <= i < |units| :: units[i].Record?
    ensures r.Some? ==> InDisplayOrder(r.value) && multiset(r.value) == multiset(Enumerate(units))
  {
    if forall i | 0 <= i < |units| :: units[i].Record? then Some(SortEntries(Enumerate(units))) else None
  }

  /** Every card shows the unit stored at the position it carries. */
  lemma DisplayedEntriesAreStored(units: seq<Unit>, k: nat)
    requires DisplayOrder(units).Some? && k < |DisplayOrder(units).value|
    ensures var e := DisplayOrder(units).value[k];
      e.index < |units| && units[e.index] == e.unit
  {
    var shown := DisplayOrder(units).value;
    assert shown[k] in multiset(shown);
    assert shown[k] in Enumerate(units);
  }

  /** Units without a date text sort after all dated ones. */
  lemma UndatedLast(s: seq<Entry>, i: nat, j: nat)
    requires InDisplayOrder(s) && i < j < |s|
    requires DateKey(s[i].unit) == ""
    ensures DateKey(s[j].unit) == ""
  {
    assert !ShownBefore(s[j], s[i]);
  }

  /**
   * The bin button of the card at display position `k` removes that card's
   * unit from the stored list, and nothing else.
   */
  lemma DeleteShownCard(a: State, plan: string, k: nat)
    requires plan in a.store.plans
    requires DisplayOrder(a.store.plans[plan]).Some? && k < |DisplayOrder(a.store.plans[plan]).value|
    ensures var e := DisplayOrder(a.store.plans[plan]).value[k];
      var r := DeleteUnit(a, plan, e.index);
      && r.Success?
      && multiset(r.value.store.plans[plan]) + multiset{e.unit} == multiset(a.store.plans[plan])
  {
    DisplayedEntriesAreStored(a.store.plans[plan], k);
  }

  // ---------------------------------------------------------------------
  // Dashboard: "Das steht heute an"

  /** A unit object whose `datum` equals today's ISO text. */
  predicate IsToday(u: Unit, today: string) {
    u.Record? && u.date == Some(today)
  }

  /** The dashboard line `f"{plan_name}: {u.get('schwerpunkt', '')}"`. */
  function TodayLine(plan: string, u: Unit): string
    requires u.Record?
  {
    plan + ": " + u.focus.GetOr("")
  }

  /** One plan's lines for today, in stored unit order. */
  function TodayLines(plan: string, units: seq<Unit>, today: string): seq<string>
    decreases |units|
  {
    if units == [] then []
    else
      var last := units[|units| - 1];
      TodayLines(plan, units[..|units| - 1], today) + (if IsToday(last, today) then [TodayLine(plan, last)] else [])
  }

  /** All plans' lines for today, plan after plan in `order`. */
  function TodayAcross(plans: map<string, seq<Unit>>, order: seq<string>, today: string): seq<string>
    decreases |order|
  {
    if order == [] then []
    else
      var last := order[|order| - 1];
      TodayAcross(plans, order[..|order| - 1], today) + (if last in plans then TodayLines(last, plans[last], today) else [])
  }

  /** `order` lists every plan name exactly once (the iteration order of the plans dict). */
  predicate IsKeyOrder(order: seq<string>, plans: map<string, seq<Unit>>) {
    && (forall p | p in plans :: p in order)
    && (forall i | 0 <= i < |order| :: order[i] in plans)
    && (forall i, j | 0 <= i < j < |order| :: order[i] != order[j])
  }

  /** The inner dashboard loop over one plan's units. */
  method PlanLinesForToday(plan: string, units: seq<Unit>, today: string) returns (lines: seq<string>)
    ensures lines == TodayLines(plan, units, today)
  {
    lines := [];
    var j := 0;
    while j < |units|
      invariant 0 <= j <= |units|
      invariant lines == TodayLines(plan, units[..j], today)
    {
      var u := units[j];
      assert units[..j + 1][..j] == units[..j];
      if u.Record? && u.date == Some(today) {
        lines := lines + [plan + ": " + u.focus.GetOr("")];
      }
      j := j + 1;
    }
    assert units[..j] == units;
  }

  /**
   * The dashboard loop: for each plan in dict order, for each unit in
   * stored order, the units whose `datum` is today's `YYYY-MM-DD`.
   */
  method UnitsForToday(plans: map<string, seq<Unit>>, order: seq<string>, today: Date) returns (lines: seq<string>)
    requires IsValid(today)
    requires IsKeyOrder(order, plans)
    ensures lines == TodayAcross(plans, order, FormatIso(today))
  {
    var todayText := FormatIso(today);
    lines := [];
    var k := 0;
    while k < |order|
      invariant 0 <= k <= |order|
      invariant lines == TodayAcross(plans, order[..k], todayText)
    {
      var plan := order[k];
      var more := PlanLinesForToday(plan, plans[plan], todayText);
      assert order[..k + 1][..k] == order[..k];
      lines := lines + more;
      k := k + 1;
    }
    assert order[..k] == order;
  }

  lemma {:induction false} LinesComplete(plan: string, units: seq<Unit>, today: string, j: nat)
    requires j < |units| && IsToday(units[j], today)
    ensures TodayLine(plan, units[j]) in TodayLines(plan, units, today)
    decreases |units|
  {
    if j < |units| - 1 {
      var init := units[..|units| - 1];
      assert init[j] == units[j];
      LinesComplete(plan, init, today, j);
    }
  }

  lemma {:induction false} LinesSound(plan: string, units: seq<Unit>, today: string, line: string)
    requires line in TodayLines(plan, units, today)
    ensures exists j | 0 <= j < |units| :: IsToday(units[j], today) && line == TodayLine(plan, units[j])
    decreases |units|
  {
    var init := units[..|units| - 1];
    if line in TodayLines(plan, init, today) {
      LinesSound(plan, init, today, line);
      var j :| 0 <= j < |init| && IsToday(init[j], today) && line == TodayLine(plan, init[j]);
      assert units[j] == init[j];
    } else {
      assert IsToday(units[|units| - 1], today);
    }
  }

  /** Every unit dated today, in every listed plan, has its line on the dashboard. */
  lemma {:induction false} TodayComplete(plans: map<string, seq<Unit>>, order: seq<string>, today: string, k: nat, j: nat)
    requires k < |order| && order[k] in plans
    requires j < |plans[order[k]]| && IsToday(plans[order[k]][j], today)
    ensures TodayLine(order[k], plans[order[k]][j]) in TodayAcross(plans, order, today)
    decreases |order|
  {
    var init := order[..|order| - 1];
    if k < |order| - 1 {
      assert init[k] == order[k];
      TodayComplete(plans, init, today, k, j);
    } else {
      LinesComplete(order[k], plans[order[k]], today, j);
    }
  }

  /** Every dashboard line comes from a unit dated today in one of the listed plans. */
  lemma {:induction false} TodaySound(plans: map<string, seq<Unit>>, order: seq<string>, today: string, line: string)
    requires line in TodayAcross(plans, order, today)
    ensures exists k, j | 0 <= k < |order| && order[k] in plans && 0 <= j < |plans[order[k]]| ::
      IsToday(plans[order[k]][j], today) && line == TodayLine(order[k], plans[order[k]][j])
    decreases |order|
  {
    var init := order[..|order| - 1];
    var last := order[|order| - 1];
    if line in TodayAcross(plans, init, today) {
      TodaySound(plans, init, today, line);
      var k, j :| 0 <= k < |init| && init[k] in plans && 0 <= j < |plans[init[k]]|
        && IsToday(plans[init[k]][j], today) && line == TodayLine(init[k], plans[init[k]][j]);
      assert order[k] == init[k];
    } else {
      LinesSound(last, plans[last], today, line);
      var j :| 0 <= j < |plans[last]| && IsToday(plans[last][j], today) && line == TodayLine(last, plans[last][j]);
      assert order[|order| - 1] == last;
    }
  }

  /** A unit just saved for today's date shows up on the dashboard with its plan and focus. */
  lemma SavedUnitShowsToday(a: State, plan: string, dateText: string, focus: string, order: seq<string>)
    requires SaveUnit(a, plan, dateText, focus).Success?
    requires IsKeyOrder(order, SaveUnit(a, plan, dateText, focus).value.store.plans)
    ensures var today := FormatIso(ParseDateText(dateText).value);
      plan + ": " + focus in TodayAcross(SaveUnit(a, plan, dateText, focus).value.store.plans, order, today)
  {
    var plans := SaveUnit(a, plan, dateText, focus).value.store.plans;
    var today := FormatIso(ParseDateText(dateText).value);
    assert plan in order;
    var k :| 0 <= k < |order| && order[k] == plan;
    var j := |plans[plan]| - 1;
    assert IsToday(plans[plan][j], today);
    TodayComplete(plans, order, today, k, j);
  }
}
