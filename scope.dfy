/**
 * The enabled flag and its scoped save/restore discipline. A block run
 * under `use` or `without` (and every call into code outside the map) is
 * a callback from the map's state to an outcome and a new state.
 */
module Scope {
  import opened Records
  import opened Repository

  /** The stored flag: nil until first set, afterwards always a boolean. */
  datatype Flag = Unset | Set(on: bool)

  /** A Ruby value handed to `enabled=`, up to what truthiness can tell apart. */
  datatype Value = Nil | Boolean(b: bool) | Object

  /** Ruby truthiness: only nil and false are false. */
  predicate Truthy(v: Value)
  {
    match v
    case Nil => false
    case Boolean(b) => b
    case Object => true
  }

  /** Whether the flag, read as a condition (`enabled?`), switches the map on. */
  predicate IsOn(flag: Flag): (on: bool)
    ensures on <==> flag == Set(true)
  {
    flag.Set? && flag.on
  }

  /** The flag read back as the Ruby value `enabled` returns. */
  function AsValue(flag: Flag): (v: Value)
    ensures v != Object
    ensures Truthy(v) == IsOn(flag)
    ensures v == Nil <==> flag == Unset
  {
    match flag
    case Unset => Nil
    case Set(on) => Boolean(on)
  }

  /** `!!v`: what `enabled = v` stores. */
  function Coerce(v: Value): (flag: Flag)
    ensures flag.Set? && IsOn(flag) == Truthy(v)
  {
    Set(Truthy(v))
  }

  /** Storing a flag that was read back keeps its truthiness, but nil comes back as false. */
  lemma CoerceReadBack(flag: Flag)
    ensures IsOn(Coerce(AsValue(flag))) == IsOn(flag)
    ensures flag.Set? ==> Coerce(AsValue(flag)) == flag
    ensures Coerce(AsValue(Unset)) == Set(false)
  {
  }

  /** `enabled` reads nil before any `enabled=`, and `!!v` after `enabled = v`. */
  lemma SetThenRead(v: Value)
    ensures AsValue(Unset) == Nil
    ensures AsValue(Coerce(v)) == Boolean(Truthy(v))
  {
  }

  /** The state of one execution context: the flag and the repository. */
  datatype State = State(flag: Flag, repo: Repo)

  /** How a callback ends: its outcome and the state it leaves behind. */
  datatype Step<+T> = Step(outcome: Outcome<T>, state: State)

  /**
   * `use` (`on` true) and `without` (`on` false): the body runs with the
   * flag set to `on`; whether it returns or raises, the flag is then set
   * back to the value saved on entry. The body's outcome and its changes
   * to the repository pass through.
   */
  function Scoped<T>(on: bool, s: State, body: State -> Step<T>): (r: Step<T>)
    ensures r.outcome == body(State(Set(on), s.repo)).outcome
    ensures r.state.repo == body(State(Set(on), s.repo)).state.repo
    ensures r.state.flag == Set(IsOn(s.flag))
  {
    var inside := body(State(Coerce(Boolean(on)), s.repo));
    Step(inside.outcome, State(Coerce(AsValue(s.flag)), inside.state.repo))
  }

  /** A scope whose body leaves the repository alone leaves it alone too, even when the body raises. */
  lemma ScopedKeepsRepository<T>(on: bool, s: State, body: State -> Step<T>)
    requires body(State(Set(on), s.repo)).state.repo == s.repo
    ensures Scoped(on, s, body).state.repo == s.repo
    ensures Scoped(on, s, body).state.flag == Set(IsOn(s.flag))
  {
  }

  /**
   * Nested scopes each restore their own entry value: `use { without { body } }`
   * runs the body with the flag off and ends with the flag the outer scope found.
   */
  lemma NestedScopesRestore<T>(s: State, body: State -> Step<T>)
    ensures var nested := Scoped(true, s, (t: State) => Scoped(false, t, body));
      && nested.outcome == body(State(Set(false), s.repo)).outcome
      && nested.state.repo == body(State(Set(false), s.repo)).state.repo
      && nested.state.flag == Set(IsOn(s.flag))
  {
  }
}
