/**
 * The plan file `training_plans.json`: how the store is written (always
 * the wrapped form `{"plans": ..., "statuses": ...}`) and how a file is
 * read back, including the legacy bare form `{name: [units]}`. The file is
 * modelled after JSON parsing: missing, unreadable, or a parsed value.
 */
module Persistence {
  import opened Wrappers
  import opened Json
  import opened Plans

  // ---------------------------------------------------------------------
  // Sequences

  function EncodeAll<T>(xs: seq<T>, encode: T -> Value): (r: seq<Value>)
    ensures |r| == |xs| && forall i | 0 <= i < |xs| :: r[i] == encode(xs[i])
  {
    seq(|xs|, i requires 0 <= i < |xs| => encode(xs[i]))
  }

  /** Decodes every item, failing if any item fails. */
  function DecodeAll<T>(items: seq<Value>, decode: Value -> Option<T>): (r: Option<seq<T>>)
    ensures r.Some? <==> forall i | 0 <= i < |items| :: decode(items[i]).Some?
    ensures r.Some? ==> |r.value| == |items| && forall i | 0 <= i < |items| :: decode(items[i]) == Some(r.value[i])
  {
    if items == [] then Some([])
    else
      match decode(items[0])
      case None => None
      case Some(x) =>
        match DecodeAll(items[1..], decode)
        case None => None
        case Some(rest) => Some([x] + rest)
  }

  lemma DecodeAllEncodeAll<T>(xs: seq<T>, encode: T -> Value, decode: Value -> Option<T>)
    requires forall i | 0 <= i < |xs| :: decode(encode(xs[i])) == Some(xs[i])
    ensures DecodeAll(EncodeAll(xs, encode), decode) == Some(xs)
  {
    var r := DecodeAll(EncodeAll(xs, encode), decode);
    assert r.Some?;
    assert r.value == xs;
  }

  // ---------------------------------------------------------------------
  // Exercises

  const ExerciseKeys: set<string> := {"name", "saetze", "wiederholungen", "intensitaet"}

  function EncodeExercise(e: Exercise): Value {
    match e
    case Structured(name, sets, reps, intensity) =>
      Object(map["name" := Str(name), "saetze" := Int(sets), "wiederholungen" := Str(reps), "intensitaet" := Str(intensity)])
    case Named(title) => Str(title)
  }

  /** A bare string, or an object with exactly the four keys the exercise form writes. */
  function DecodeExercise(v: Value): Option<Exercise> {
    match v
    case Str(title) => Some(Named(title))
    case Object(f) =>
      if && f.Keys == ExerciseKeys
         && f["name"].Str? && f["saetze"].Int? && f["wiederholungen"].Str? && f["intensitaet"].Str?
      then Some(Structured(f["name"].s, f["saetze"].i, f["wiederholungen"].s, f["intensitaet"].s))
      else None
    case _ => None
  }

  lemma ExerciseRoundTrip(e: Exercise)
    ensures DecodeExercise(EncodeExercise(e)) == Some(e)
  {
    if e.Structured? {
      assert EncodeExercise(e).fields.Keys == ExerciseKeys;
    }
  }

  // ---------------------------------------------------------------------
  // Units

  /** `{key: text}` when the text is present, `{}` otherwise. */
  function OptionalText(key: string, text: Option<string>): map<string, Value> {
    if text.Some? then map[key := Str(text.value)] else map[]
  }

  /** Reads an optional text field: Some(None) when absent, None when present but not a string. */
  function ReadOptionalText(f: map<string, Value>, key: string): Option<Option<string>> {
    if key !in f then Some(None)
    else if f[key].Str? then Some(Some(f[key].s))
    else None
  }

  /** The `uebungen` list; a unit without one has no exercises (the page reads it with default `[]`). */
  function ReadExercises(f: map<string, Value>): Option<seq<Exercise>> {
    if "uebungen" !in f then Some([])
    else if f["uebungen"].Array? then DecodeAll(f["uebungen"].items, DecodeExercise)
    else None
  }

  function EncodeUnit(u: Unit): Value {
    match u
    case Record(date, focus, exercises) =>
      Object(OptionalText("datum", date) + OptionalText("schwerpunkt", focus)
             + map["uebungen" := Array(EncodeAll(exercises, EncodeExercise))])
    case Foreign(raw) => raw
  }

  /** Objects become records (other keys are dropped); any other value is kept as it is. */
  function DecodeUnit(v: Value): (r: Option<Unit>)
    ensures r.Some? ==> WellFormed(r.value)
    ensures !v.Object? ==> r == Some(Foreign(v))
  {
    match v
    case Object(f) =>
      var date := ReadOptionalText(f, "datum");
      var focus := ReadOptionalText(f, "schwerpunkt");
      var exercises := ReadExercises(f);
      if date.Some? && focus.Some? && exercises.Some? then Some(Record(date.value, focus.value, exercises.value))
      else None
    case _ => Some(Foreign(v))
  }

  lemma UnitRoundTrip(u: Unit)
    requires WellFormed(u)
    ensures DecodeUnit(EncodeUnit(u)) == Some(u)
  {
    if u.Record? {
      var f := EncodeUnit(u).fields;
      assert "uebungen" in f && f["uebungen"] == Array(EncodeAll(u.exercises, EncodeExercise));
      forall i | 0 <= i < |u.exercises|
        ensures DecodeExercise(EncodeExercise(u.exercises[i])) == Some(u.exercises[i])
      {
        ExerciseRoundTrip(u.exercises[i]);
      }
      DecodeAllEncodeAll(u.exercises, EncodeExercise, DecodeExercise);
      assert ReadOptionalText(f, "datum") == Some(u.date);
      assert ReadOptionalText(f, "schwerpunkt") == Some(u.focus);
    }
  }

  // ---------------------------------------------------------------------
  // Plans and statuses

  function EncodeUnits(units: seq<Unit>): Value {
    Array(EncodeAll(units, EncodeUnit))
  }

  function DecodeUnits(v: Value): Option<seq<Unit>> {
    if v.Array? then DecodeAll(v.items, DecodeUnit) else None
  }

  function EncodePlans(plans: map<string, seq<Unit>>): Value {
    Object(map p | p in plans :: EncodeUnits(plans[p]))
  }

  /** An object whose every value is a list of units. */
  function DecodePlans(v: Value): (r: Option<map<string, seq<Unit>>>)
    ensures r.Some? ==> v.Object? && r.value.Keys == v.fields.Keys
    ensures r.Some? ==> Store(r.value, map[]).Valid()
  {
    if v.Object? && forall p | p in v.fields :: DecodeUnits(v.fields[p]).Some? then
      var plans := map p | p in v.fields :: DecodeUnits(v.fields[p]).value;
      assert forall p | p in plans :: forall i | 0 <= i < |plans[p]| :: DecodeUnit(v.fields[p].items[i]) == Some(plans[p][i]);
      Some(plans)
    else
      None
  }

  lemma UnitsRoundTrip(units: seq<Unit>)
    requires forall i | 0 <= i < |units| :: WellFormed(units[i])
    ensures DecodeUnits(EncodeUnits(units)) == Some(units)
  {
    forall i | 0 <= i < |units| ensures DecodeUnit(EncodeUnit(units[i])) == Some(units[i]) {
      UnitRoundTrip(units[i]);
    }
    DecodeAllEncodeAll(units, EncodeUnit, DecodeUnit);
  }

  lemma PlansRoundTrip(plans: map<string, seq<Unit>>)
    requires Store(plans, map[]).Valid()
    ensures DecodePlans(EncodePlans(plans)) == Some(plans)
  {
    var f := EncodePlans(plans).fields;
    assert f.Keys == plans.Keys;
    forall p | p in f ensures DecodeUnits(f[p]) == Some(plans[p]) {
      UnitsRoundTrip(plans[p]);
    }
    var r := DecodePlans(EncodePlans(plans));
    assert r.Some?;
    assert r.value.Keys == plans.Keys;
    assert forall p | p in r.value :: r.value[p] == plans[p];
    assert r.value == plans;
  }

  function EncodeStatuses(statuses: map<string, bool>): Value {
    Object(map p | p in statuses :: Bool(statuses[p]))
  }

  /** An object whose every value is a boolean. */
  function DecodeStatuses(v: Value): Option<map<string, bool>> {
    if v.Object? && forall p | p in v.fields :: v.fields[p].Bool? then
      Some(map p | p in v.fields :: v.fields[p].b)
    else
      None
  }

  lemma StatusesRoundTrip(statuses: map<string, bool>)
    ensures DecodeStatuses(EncodeStatuses(statuses)) == Some(statuses)
  {
    var r := DecodeStatuses(EncodeStatuses(statuses));
    assert r.Some?;
    assert r.value.Keys == statuses.Keys;
    assert forall p | p in r.value :: r.value[p] == statuses[p];
    assert r.value == statuses;
  }

  // ---------------------------------------------------------------------
  // Save and load

  /** `save_data`: the plan file always holds the wrapped form. */
  function Save(s: Store): (doc: Value)
    ensures doc.Object? && doc.fields.Keys == {"plans", "statuses"}
    ensures doc.fields["plans"].Object? && doc.fields["plans"].fields.Keys == s.plans.Keys
    ensures doc.fields["statuses"].Object? && doc.fields["statuses"].fields.Keys == s.statuses.Keys
  {
    Object(map["plans" := EncodePlans(s.plans), "statuses" := EncodeStatuses(s.statuses)])
  }

  /** The plan file as `load_data` finds it. */
  datatype PlanFile =
    | Missing           // no file
    | Unreadable        // opening or `json.load` raised
    | Parsed(doc: Value)

  /** The file parsed, but holds values of a shape this model does not describe. */
  datatype LoadError = Unsupported

  /** The statuses synthesised for a legacy file: every plan active. */
  function AllActive(plans: map<string, seq<Unit>>): (r: map<string, bool>)
    ensures r.Keys == plans.Keys && forall p | p in r :: r[p]
  {
    map p | p in plans :: true
  }

  /** The wrapped form: `plans` as is, `statuses` as is, or empty when absent. */
  function FromWrapped(f: map<string, Value>): Result<Store, LoadError>
    requires "plans" in f
  {
    var plans := DecodePlans(f["plans"]);
    var statuses := DecodeStatuses(if "statuses" in f then f["statuses"] else Object(map[]));
    if plans.Some? && statuses.Some? then Success(Store(plans.value, statuses.value))
    else Failure(Unsupported)
  }

  /** The legacy form: the whole object is the plan table, every plan active. */
  function FromBare(f: map<string, Value>): Result<Store, LoadError> {
    match DecodePlans(Object(f))
    case Some(plans) => Success(Store(plans, AllActive(plans)))
    case None => Failure(Unsupported)
  }

  /** The test `load_data` uses to recognise the wrapped form: an object with a `plans` key. */
  predicate LooksWrapped(doc: Value) {
    doc.Object? && "plans" in doc.fields
  }

  /**
   * `load_data`'s plan branch as written. A missing or unreadable file gives
   * empty maps; so does a parsed value that is not an object, because
   * `data.keys()` raises inside the same `try`.
   */
  function LoadAsWritten(file: PlanFile): (r: Result<Store, LoadError>)
    ensures file.Missing? || file.Unreadable? ==> r == Success(EmptyStore)
    ensures file.Parsed? && !file.doc.Object? ==> r == Success(EmptyStore)
    ensures r.Success? ==> r.value.Valid()
    ensures r.Success? && file.Parsed? && file.doc.Object? && !LooksWrapped(file.doc) ==>
      r.value.plans.Keys == file.doc.fields.Keys && r.value.statuses == AllActive(r.value.plans)
    ensures r.Success? && file.Parsed? && LooksWrapped(file.doc) && "statuses" !in file.doc.fields ==>
      r.value.statuses == map[]
  {
    match file
    case Missing => Success(EmptyStore)
    case Unreadable => Success(EmptyStore)
    case Parsed(doc) =>
      if LooksWrapped(doc) then FromWrapped(doc.fields)
      else if doc.Object? then FromBare(doc.fields)
      else Success(EmptyStore)
  }

  /** The wrapped form as the application writes it: an object with an object under `plans`. */
  predicate IsWrapped(doc: Value) {
    doc.Object? && "plans" in doc.fields && doc.fields["plans"].Object?
  }

  /**
   * `load_data`'s plan branch with the form test corrected: a legacy file
   * whose plan happens to be named `plans` holds a list there, not an
   * object, and is read as the legacy form.
   */
  function Load(file: PlanFile): (r: Result<Store, LoadError>)
    ensures file.Missing? || file.Unreadable? ==> r == Success(EmptyStore)
    ensures file.Parsed? && !file.doc.Object? ==> r == Success(EmptyStore)
    ensures r.Success? ==> r.value.Valid()
    ensures r.Success? && file.Parsed? && file.doc.Object? && !IsWrapped(file.doc) ==>
      r.value.plans.Keys == file.doc.fields.Keys && r.value.statuses == AllActive(r.value.plans)
  {
    match file
    case Missing => Success(EmptyStore)
    case Unreadable => Success(EmptyStore)
    case Parsed(doc) =>
      if IsWrapped(doc) then FromWrapped(doc.fields)
      else if doc.Object? then FromBare(doc.fields)
      else Success(EmptyStore)
  }

  /**
   * A wrapped document yields its plans and statuses verbatim, statuses
   * defaulting to empty when the key is absent; other keys are ignored.
   */
  lemma WrappedLoadsVerbatim(f: map<string, Value>, plans: map<string, seq<Unit>>, statuses: Option<map<string, bool>>)
    requires Store(plans, map[]).Valid()
    requires "plans" in f && f["plans"] == EncodePlans(plans)
    requires statuses.Some? <==> "statuses" in f
    requires statuses.Some? ==> f["statuses"] == EncodeStatuses(statuses.value)
    ensures LoadAsWritten(Parsed(Object(f))) == Success(Store(plans, statuses.GetOr(map[])))
    ensures Load(Parsed(Object(f))) == Success(Store(plans, statuses.GetOr(map[])))
  {
    PlansRoundTrip(plans);
    if statuses.Some? {
      StatusesRoundTrip(statuses.value);
    } else {
      assert DecodeStatuses(Object(map[])) == Some(map[]);
    }
  }

  /** What save writes, load reads back: the same plans and the same statuses. */
  lemma SaveLoadRoundTrip(s: Store)
    requires s.Valid()
    ensures LoadAsWritten(Parsed(Save(s))) == Success(s)
    ensures Load(Parsed(Save(s))) == Success(s)
  {
    WrappedLoadsVerbatim(Save(s).fields, s.plans, Some(s.statuses));
  }

  /** The corrected load reads every legacy bare file as its plans, each marked active. */
  lemma LegacyLoads(plans: map<string, seq<Unit>>)
    requires Store(plans, map[]).Valid()
    ensures Load(Parsed(EncodePlans(plans))) == Success(Store(plans, AllActive(plans)))
  {
    PlansRoundTrip(plans);
  }

  /**
   * The load as written reads a legacy bare file correctly exactly when no
   * plan in it is named `plans`.
   */
  lemma LegacyLoadsAsWritten(plans: map<string, seq<Unit>>)
    requires Store(plans, map[]).Valid()
    ensures LoadAsWritten(Parsed(EncodePlans(plans))) == Success(Store(plans, AllActive(plans))) <==> "plans" !in plans
  {
    PlansRoundTrip(plans);
    var f := EncodePlans(plans).fields;
    if "plans" in plans {
      assert f["plans"].Array?;
      assert DecodePlans(f["plans"]).None?;
    }
  }

  /** The legacy file `{"plans": []}`: one plan named `plans`, with no units. */
  lemma LegacyPlanNamedPlans()
    ensures var legacy := map["plans" := []];
      && LoadAsWritten(Parsed(EncodePlans(legacy))) == Failure(Unsupported)
      && Load(Parsed(EncodePlans(legacy))) == Success(Store(legacy, map["plans" := true]))
  {
    var legacy: map<string, seq<Unit>> := map["plans" := []];
    LegacyLoads(legacy);
    assert AllActive(legacy) == map["plans" := true];
    var f := EncodePlans(legacy).fields;
    assert f["plans"].Array?;
  }
}
