/**
 * The training-plan store: plans (name to unit list), their active flags,
 * and the per-plan list of exercises collected for the next unit. Every
 * handler of the plans page becomes a pure transition that yields the new
 * state, or an error (the message the page shows) with the state untouched.
 */
module Plans {
  import opened Wrappers
  import Json
  import opened Calendar

  /**
   * One exercise of a unit: the record the exercise form builds
   * (`name`, `saetze`, `wiederholungen`, `intensitaet`), or a bare name as
   * older files hold it.
   */
  datatype Exercise =
    | Structured(name: string, sets: int, reps: string, intensity: string)
    | Named(title: string)

  /**
   * One element of a plan's unit list: a JSON object with optional `datum`
   * and `schwerpunkt` texts and an `uebungen` list, or (in a file written by
   * something else) a value that is not a JSON object at all.
   */
  datatype Unit =
    | Record(date: Option<string>, focus: Option<string>, exercises: seq<Exercise>)
    | Foreign(raw: Json.Value)

  /** A `Foreign` unit stands only for values that are not objects: objects are read as records. */
  predicate WellFormed(u: Unit) {
    u.Foreign? ==> !u.raw.Object?
  }

  /** The persisted part: `training_plans` and `plan_statuses`. */
  datatype Store = Store(plans: map<string, seq<Unit>>, statuses: map<string, bool>) {

    predicate Valid() {
      forall p | p in plans :: forall i | 0 <= i < |plans[p]| :: WellFormed(plans[p][i])
    }
  }

  const EmptyStore := Store(map[], map[])

  /** The store plus the session-only lists `temp_exercises_<plan>` of exercises collected for the next unit. */
  datatype State = State(store: Store, pending: map<string, seq<Exercise>>)

  /** The rejections the plans page reports. */
  datatype Error =
    | EmptyName            // "Bitte einen Namen eingeben."
    | DuplicateName        // "Plan existiert bereits."
    | MissingDateOrFocus   // "Bitte Datum und Schwerpunkt eingeben!"
    | NoExercises          // "Bitte mindestens eine Übung hinzufügen!"
    | BadDate              // the date-format message shown for any failure while saving a unit
    | MissingExerciseName  // "Bitte Übungsname eingeben!"
    | NoSuchPlan
    | IndexOutOfRange

  /** A plan's status as the page reads it: a missing entry counts as active. */
  function StatusOf(s: Store, plan: string): (r: bool)
    ensures !r <==> plan in s.statuses && !s.statuses[plan]
  {
    if plan in s.statuses then s.statuses[plan] else true
  }

  /** The exercises collected for `plan`; the page starts every plan with an empty list. */
  function Pending(a: State, plan: string): seq<Exercise> {
    if plan in a.pending then a.pending[plan] else []
  }

  /** Python's `list.pop(i)` for an index inside the list. */
  function RemoveAt<T>(s: seq<T>, i: nat): (r: seq<T>)
    requires i < |s|
    ensures |r| == |s| - 1
    ensures forall j | 0 <= j < i :: r[j] == s[j]
    ensures forall j | i <= j < |r| :: r[j] == s[j + 1]
    ensures multiset(r) + multiset{s[i]} == multiset(s)
  {
    assert s == s[..i] + [s[i]] + s[i + 1..];
    s[..i] + s[i + 1..]
  }

  // ---------------------------------------------------------------------
  // Plans and statuses

  /** "Plan anlegen": a new, empty, active plan under a non-empty name not yet taken. */
  function CreatePlan(a: State, name: string): (r: Result<State, Error>)
    ensures name == [] ==> r == Failure(EmptyName)
    ensures name != [] && name in a.store.plans ==> r == Failure(DuplicateName)
    ensures r.Success? <==> name != [] && name !in a.store.plans
    ensures r.Success? ==>
      var s := r.value.store;
      && s.plans.Keys == a.store.plans.Keys + {name}
      && s.plans[name] == []
      && (forall p | p in a.store.plans :: s.plans[p] == a.store.plans[p])
      && s.statuses.Keys == a.store.statuses.Keys + {name}
      && s.statuses[name]
      && (forall p | p in a.store.statuses && p != name :: s.statuses[p] == a.store.statuses[p])
      && r.value.pending == a.pending
    ensures r.Success? && a.store.Valid() ==> r.value.store.Valid()
  {
    if name == [] then Failure(EmptyName)
    else if name in a.store.plans then Failure(DuplicateName)
    else Success(a.(store := Store(a.store.plans[name := []], a.store.statuses[name := true])))
  }

  /** Creating the same plan twice: the second attempt is refused and changes nothing. */
  lemma CreateTwiceRejected(a: State, name: string)
    requires CreatePlan(a, name).Success?
    ensures CreatePlan(CreatePlan(a, name).value, name) == Failure(DuplicateName)
  {
  }

  /**
   * The "Aktiv" toggle showing `shown`: when it differs from the status the
   * page read, that status entry is overwritten; nothing else changes.
   */
  function SetStatus(a: State, plan: string, shown: bool): (r: State)
    ensures StatusOf(r.store, plan) == shown
    ensures shown == StatusOf(a.store, plan) ==> r == a
    ensures forall p | p != plan :: (p in r.store.statuses <==> p in a.store.statuses)
    ensures forall p | p != plan && p in a.store.statuses :: r.store.statuses[p] == a.store.statuses[p]
    ensures r.store.plans == a.store.plans && r.pending == a.pending
  {
    if shown == StatusOf(a.store, plan) then a
    else a.(store := a.store.(statuses := a.store.statuses[plan := shown]))
  }

  // ---------------------------------------------------------------------
  // The exercise list of the next unit

  /** "Übung hinzufügen": a named exercise is appended to the plan's list; sets come from a 1..20 widget. */
  function AddExercise(a: State, plan: string, name: string, sets: int, reps: string, intensity: string): (r: Result<State, Error>)
    requires 1 <= sets <= 20
    ensures r.Failure? <==> name == []
    ensures r.Failure? ==> r.error == MissingExerciseName
    ensures r.Success? ==>
      && Pending(r.value, plan) == Pending(a, plan) + [Structured(name, sets, reps, intensity)]
      && (forall p | p != plan :: Pending(r.value, p) == Pending(a, p))
      && r.value.store == a.store
  {
    if name == [] then Failure(MissingExerciseName)
    else Success(a.(pending := a.pending[plan := Pending(a, plan) + [Structured(name, sets, reps, intensity)]]))
  }

  /** The bin button next to a collected exercise: removes the one at `index`. */
  function RemoveExercise(a: State, plan: string, index: nat): (r: Result<State, Error>)
    ensures r.Success? <==> index < |Pending(a, plan)|
    ensures r.Failure? ==> r.error == IndexOutOfRange
    ensures r.Success? ==>
      var before := Pending(a, plan);
      var after := Pending(r.value, plan);
      && |after| == |before| - 1
      && (forall j | 0 <= j < index :: after[j] == before[j])
      && (forall j | index <= j < |after| :: after[j] == before[j + 1])
      && (forall p | p != plan :: Pending(r.value, p) == Pending(a, p))
      && r.value.store == a.store
  {
    var before := Pending(a, plan);
    if index < |before| then Success(a.(pending := a.pending[plan := RemoveAt(before, index)]))
    else Failure(IndexOutOfRange)
  }

  /** "Alle löschen": the plan's collected exercises are dropped. */
  function ClearExercises(a: State, plan: string): (r: State)
    ensures Pending(r, plan) == []
    ensures forall p | p != plan :: Pending(r, p) == Pending(a, p)
    ensures r.store == a.store
  {
    a.(pending := a.pending[plan := []])
  }

  // ---------------------------------------------------------------------
  // Units

  /** The unit "Einheit speichern" appends: normalised date, focus, and the collected exercises. */
  function NewUnit(d: Date, focus: string, exercises: seq<Exercise>): Unit
    requires IsValid(d)
  {
    Record(Some(FormatIso(d)), Some(focus), exercises)
  }

  /** The successful end of "Einheit speichern": the unit is appended and the plan's collected list is reset. */
  function AppendUnit(a: State, plan: string, d: Date, focus: string): (r: State)
    requires plan in a.store.plans && IsValid(d)
    ensures r.store.plans.Keys == a.store.plans.Keys
    ensures r.store.plans[plan] == a.store.plans[plan] + [Record(Some(FormatIso(d)), Some(focus), Pending(a, plan))]
    ensures forall p | p in a.store.plans && p != plan :: r.store.plans[p] == a.store.plans[p]
    ensures r.store.statuses == a.store.statuses
    ensures Pending(r, plan) == []
    ensures forall p | p != plan :: Pending(r, p) == Pending(a, p)
    ensures a.store.Valid() ==> r.store.Valid()
  {
    var units := a.store.plans[plan] + [NewUnit(d, focus, Pending(a, plan))];
    State(a.store.(plans := a.store.plans[plan := units]), a.pending[plan := []])
  }

  /**
   * "Einheit speichern": with a date text and a focus entered, at least one
   * exercise collected, and a date that parses, one unit is appended to the
   * plan and the collected list is emptied. A plan missing from the store
   * raises inside the same `try`, so it reports the date message too.
   */
  function SaveUnit(a: State, plan: string, dateText: string, focus: string): (r: Result<State, Error>)
    ensures dateText == [] || focus == [] ==> r == Failure(MissingDateOrFocus)
    ensures dateText != [] && focus != [] && Pending(a, plan) == [] ==> r == Failure(NoExercises)
    ensures dateText != [] && focus != [] && Pending(a, plan) != [] && ParseDateText(dateText).None? ==> r == Failure(BadDate)
    ensures dateText != [] && focus != [] && Pending(a, plan) != [] && plan !in a.store.plans ==> r == Failure(BadDate)
    ensures r.Success? <==>
      dateText != [] && focus != [] && Pending(a, plan) != [] && ParseDateText(dateText).Some? && plan in a.store.plans
    ensures r.Success? ==> r.value == AppendUnit(a, plan, ParseDateText(dateText).value, focus)
  {
    if dateText == [] || focus == [] then Failure(MissingDateOrFocus)
    else if Pending(a, plan) == [] then Failure(NoExercises)
    else
      match ParseDateText(dateText)
      case None => Failure(BadDate)
      case Some(d) =>
        if plan !in a.store.plans then Failure(BadDate)
        else Success(AppendUnit(a, plan, d, focus))
  }

  /** A unit dated with the ISO text of any real day is saved, given a focus and collected exercises. */
  lemma SaveIsoDated(a: State, plan: string, d: Date, focus: string)
    requires plan in a.store.plans && IsValid(d) && focus != [] && Pending(a, plan) != []
    ensures SaveUnit(a, plan, FormatIso(d), focus) == Success(AppendUnit(a, plan, d, focus))
  {
    IsoEntryAccepted(d);
  }

  /**
   * The bin button on a unit card: removes the unit at its position in the
   * stored list (not its position on screen).
   */
  function DeleteUnit(a: State, plan: string, index: nat): (r: Result<State, Error>)
    ensures plan !in a.store.plans ==> r == Failure(NoSuchPlan)
    ensures plan in a.store.plans && index >= |a.store.plans[plan]| ==> r == Failure(IndexOutOfRange)
    ensures r.Success? <==> plan in a.store.plans && index < |a.store.plans[plan]|
    ensures r.Success? ==>
      var before := a.store.plans[plan];
      var s := r.value.store;
      && s.plans.Keys == a.store.plans.Keys
      && var after := s.plans[plan];
      && |after| == |before| - 1
      && (forall j | 0 <= j < index :: after[j] == before[j])
      && (forall j | index <= j < |after| :: after[j] == before[j + 1])
      && multiset(after) + multiset{before[index]} == multiset(before)
      && (forall p | p in a.store.plans && p != plan :: s.plans[p] == a.store.plans[p])
      && s.statuses == a.store.statuses
      && r.value.pending == a.pending
    ensures r.Success? && a.store.Valid() ==> r.value.store.Valid()
  {
    if plan !in a.store.plans then Failure(NoSuchPlan)
    else if index >= |a.store.plans[plan]| then Failure(IndexOutOfRange)
    else
      var units := RemoveAt(a.store.plans[plan], index);
      Success(a.(store := a.store.(plans := a.store.plans[plan := units])))
  }
}
