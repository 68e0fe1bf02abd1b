/** Martingale settings as they arrive in a workflow: their validation, and the decimals the calculator is given. */
module MartingaleConfig {
  import opened Conditions
  import opened Floats
  import opened Martingale
  import opened Options

  function Setting(fields: Fields, key: string, default: Json): Json {
    if key in fields then fields[key] else default
  }

  /** Truncation toward zero. */
  function Truncate(r: real): int {
    if r >= 0.0 then r.Floor else -(-r).Floor
  }

  /** Conversion to an integer, or nothing where it raises; text is read by the language. */
  function ToInt(j: Json, parseInt: string -> Option<int>): Option<int> {
    match j
    case Null | Arr(_) | Obj(_) => None
    case Bool(b) => Some(if b then 1 else 0)
    case Number(Finite(r)) => Some(Truncate(r))
    case Number(_) => None
    case Str(s) => parseInt(s)
  }

  /** Conversion to a decimal by way of the value's text: a boolean's text is not a number. */
  function ToDecimal(rt: Runtime, j: Json): Option<real> {
    match j
    case Number(Finite(r)) => Some(r)
    case Str(s) => if IsFinite(rt.parse(s)) then Some(rt.parse(s).value.r) else None
    case _ => None
  }

  const DEFAULT_MULTIPLIER := Number(Finite(2.0))
  const DEFAULT_STEPS := Number(Finite(5.0))

  /** The validator reads floats. */
  predicate Accepts(rt: Runtime, parseInt: string -> Option<int>, fields: Fields) {
    var base := ToFloat(rt, Get(fields, "base_stake"));
    var multiplier := ToFloat(rt, Setting(fields, "multiplier", DEFAULT_MULTIPLIER));
    var steps := ToInt(Setting(fields, "max_steps", DEFAULT_STEPS), parseInt);
    var limit := ToFloat(rt, Get(fields, "max_stake"));
    && IsFinite(base) && IsFinite(multiplier) && steps.Some? && IsFinite(limit)
    && !(base.value.r <= 0.0 || multiplier.value.r <= 1.0 || steps.value < 1 || steps.value > 20
         || limit.value.r < base.value.r)
  }

  /** The executor reads decimals, and raises where one cannot be read. */
  function Build(rt: Runtime, parseInt: string -> Option<int>, fields: Fields): Option<Config> {
    var base := ToDecimal(rt, Get(fields, "base_stake"));
    var multiplier := ToDecimal(rt, Setting(fields, "multiplier", DEFAULT_MULTIPLIER));
    var steps := ToInt(Setting(fields, "max_steps", DEFAULT_STEPS), parseInt);
    var limit := ToDecimal(rt, Get(fields, "max_stake"));
    if base.Some? && multiplier.Some? && steps.Some? && steps.value >= 0 && limit.Some?
    then Some(Config(base.value, multiplier.value, steps.value, limit.value))
    else None
  }

  /** One of the three amounts is a boolean, which has a float value but no decimal text. */
  predicate SomeBoolean(fields: Fields) {
    Get(fields, "base_stake").Bool? || Get(fields, "multiplier").Bool? || Get(fields, "max_stake").Bool?
  }

  lemma SameNumber(rt: Runtime, j: Json)
    requires IsFinite(ToFloat(rt, j))
    ensures ToDecimal(rt, j) == if j.Bool? then None else Some(ToFloat(rt, j).value.r)
  {
  }

  /** What the validator accepts is a valid configuration, or raises exactly when an amount is a boolean. */
  lemma AcceptedIsValidIff(rt: Runtime, parseInt: string -> Option<int>, fields: Fields)
    requires Accepts(rt, parseInt, fields)
    ensures Build(rt, parseInt, fields).Some? <==> !SomeBoolean(fields)
    ensures Build(rt, parseInt, fields).Some? ==> Build(rt, parseInt, fields).value.Valid()
  {
    SameNumber(rt, Get(fields, "base_stake"));
    SameNumber(rt, Setting(fields, "multiplier", DEFAULT_MULTIPLIER));
    SameNumber(rt, Get(fields, "max_stake"));
  }

  /** Such settings: `true` for the base stake. */
  lemma BooleanIsAccepted(rt: Runtime, parseInt: string -> Option<int>)
    requires rt.limit > 10.0
    ensures var fields: Fields := map["base_stake" := Bool(true), "max_stake" := Number(Finite(10.0))];
      Accepts(rt, parseInt, fields) && Build(rt, parseInt, fields) == None
  {
    var fields: Fields := map["base_stake" := Bool(true), "max_stake" := Number(Finite(10.0))];
    assert "multiplier" !in fields && "max_steps" !in fields && "base_stake" in fields && "max_stake" in fields;
  }

  /** The setting is the number x, or is left out where x is the default. */
  ghost predicate Gives(fields: Fields, key: string, x: real, default: Option<real>) {
    if key in fields then fields[key] == Number(Finite(x)) else default == Some(x)
  }

  /**
    Settings given as numbers are accepted exactly when the base is positive, the multiplier above one, the steps from
    1 to 20, and the maximum at least the base; and they are the configuration.
   */
  lemma {:induction false} NumbersAcceptedIff(rt: Runtime, parseInt: string -> Option<int>, fields: Fields,
                                              base: real, multiplier: real, steps: nat, limit: real)
    requires Gives(fields, "base_stake", base, None) && Gives(fields, "multiplier", multiplier, Some(2.0))
    requires Gives(fields, "max_steps", steps as real, Some(5.0)) && Gives(fields, "max_stake", limit, None)
    requires -rt.limit < base < rt.limit && -rt.limit < multiplier < rt.limit && -rt.limit < limit < rt.limit
    ensures Accepts(rt, parseInt, fields)
            <==> base > 0.0 && multiplier > 1.0 && 1 <= steps <= 20 && base <= limit
    ensures Build(rt, parseInt, fields) == Some(Config(base, multiplier, steps, limit))
  {
    assert Truncate(steps as real) == steps;
    assert Setting(fields, "multiplier", DEFAULT_MULTIPLIER) == Number(Finite(multiplier));
    assert Setting(fields, "max_steps", DEFAULT_STEPS) == Number(Finite(steps as real));
  }
}
