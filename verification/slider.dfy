/**
 * The range-input slider: default props, the initial value, the controlled
 * re-sync, the clamp run when `min` or `max` change, the displayed value
 * and the change handler.
 */
module Slider {
  import opened Wrappers

  /** The props; `None` is an omitted prop. */
  datatype Props = Props(
    min: Option<real>,
    max: Option<real>,
    step: Option<real>,
    value: Option<seq<real>>,
    defaultValue: Option<seq<real>>)

  const DefaultMin: real := 0.0
  const DefaultMax: real := 100.0
  const DefaultStep: real := 1.0

  function Min(p: Props): real { p.min.GetOr(DefaultMin) }
  function Max(p: Props): real { p.max.GetOr(DefaultMax) }
  function Step(p: Props): real { p.step.GetOr(DefaultStep) }

  /** Omitted props fall back to 0, 100 and 1; given ones are used as they are. */
  lemma Defaults(p: Props)
    ensures p.min.None? ==> Min(p) == 0.0
    ensures p.max.None? ==> Max(p) == 100.0
    ensures p.step.None? ==> Step(p) == 1.0
    ensures p.min.Some? ==> Min(p) == p.min.value
    ensures p.max.Some? ==> Max(p) == p.max.value
    ensures p.step.Some? ==> Step(p) == p.step.value
  {
  }

  /** A slider given `value` is controlled by its parent. */
  predicate IsControlled(p: Props) {
    p.value.Some?
  }

  /** First of a non-empty array, `None` for `undefined`. */
  function First(xs: Option<seq<real>>): Option<real> {
    if xs.Some? && |xs.value| > 0 then Some(xs.value[0]) else None
  }

  /** `value[0]`, else `defaultValue[0]`, else `min`. */
  function Initial(p: Props): real {
    if First(p.value).Some? then First(p.value).value
    else if First(p.defaultValue).Some? then First(p.defaultValue).value
    else Min(p)
  }

  /**
   * The initial value comes from a non-empty `value` first, then from a
   * non-empty `defaultValue`, and falls back to `min` (0 when omitted).
   */
  lemma InitialChoice(p: Props)
    ensures p.value.Some? && |p.value.value| > 0 ==> Initial(p) == p.value.value[0]
    ensures (p.value.None? || |p.value.value| == 0) && p.defaultValue.Some? && |p.defaultValue.value| > 0
      ==> Initial(p) == p.defaultValue.value[0]
    ensures First(p.value).None? && First(p.defaultValue).None? ==> Initial(p) == Min(p)
    ensures First(p.value).None? && First(p.defaultValue).None? && p.min.None? ==> Initial(p) == 0.0
  {
  }

  /**
   * The internal state; `None` is `undefined`, which a controlled slider
   * given an empty array stores.
   */
  datatype State = State(internal: Option<real>)

  /** The re-sync effect: a controlled slider copies `value[0]`. */
  function Sync(p: Props, s: State): State {
    if IsControlled(p) then State(First(p.value)) else s
  }

  /**
   * The `min`/`max` effect; `undefined` compares false both ways and is
   * left alone.
   */
  function ClampToRange(s: State, min: real, max: real): State {
    match s.internal
    case None => s
    case Some(x) =>
      if x < min then State(Some(min))
      else if x > max then State(Some(max))
      else s
  }

  /** The value the input shows: the parent's `value[0] ?? min` when controlled. */
  function Displayed(p: Props, s: State): Option<real> {
    if IsControlled(p) then Some(First(p.value).GetOr(Min(p))) else s.internal
  }

  /** The change handler: the new state and the array passed to `onValueChange`. */
  function OnChange(p: Props, s: State, next: real): (State, seq<real>) {
    (if IsControlled(p) then s else State(Some(next)), [next])
  }

  /** The state right after mounting: initial value, then re-sync, then clamp. */
  function Mount(p: Props): State {
    ClampToRange(Sync(p, State(Some(Initial(p)))), Min(p), Max(p))
  }

  /**
   * On a non-empty range the clamp puts a number inside the range, keeps one
   * already inside, and is idempotent.
   */
  lemma ClampInRange(s: State, min: real, max: real)
    requires min <= max
    ensures s.internal.Some? ==> var x := ClampToRange(s, min, max).internal.value;
      min <= x <= max
    ensures s.internal.Some? && min <= s.internal.value <= max ==> ClampToRange(s, min, max) == s
    ensures s.internal.None? ==> ClampToRange(s, min, max) == s
    ensures ClampToRange(ClampToRange(s, min, max), min, max) == ClampToRange(s, min, max)
  {
  }

  /** With `min` above `max` a value below `min` is raised to `min`, which the next run lowers to `max`. */
  lemma ClampEmptyRangeNotIdempotent(x: real, min: real, max: real)
    requires max < min && x < min
    ensures ClampToRange(State(Some(x)), min, max) == State(Some(min))
    ensures ClampToRange(ClampToRange(State(Some(x)), min, max), min, max) == State(Some(max))
  {
  }

  /**
   * A controlled slider shows its parent's value whatever its internal
   * state, and after the re-sync the internal state agrees with it.
   */
  lemma ControlledFollowsParent(p: Props, s1: State, s2: State)
    requires IsControlled(p)
    ensures Displayed(p, s1) == Displayed(p, s2)
    ensures |p.value.value| > 0 ==> Displayed(p, s1) == Some(p.value.value[0]) && Sync(p, s1).internal == Displayed(p, s1)
    ensures |p.value.value| == 0 ==> Displayed(p, s1) == Some(Min(p)) && Sync(p, s1).internal == None
  {
  }

  /**
   * Input always reports `[next]`; an uncontrolled slider then shows `next`,
   * while a controlled one keeps its state and waits for its parent.
   */
  lemma ChangeHandling(p: Props, s: State, next: real)
    ensures OnChange(p, s, next).1 == [next]
    ensures !IsControlled(p) ==> Displayed(p, OnChange(p, s, next).0) == Some(next)
    ensures IsControlled(p) ==>
      OnChange(p, s, next).0 == s && Displayed(p, OnChange(p, s, next).0) == Displayed(p, s)
  {
  }

  /**
   * An uncontrolled slider mounts showing its default, or `min`, clamped into
   * a non-empty range; a default already inside the range is kept as is.
   */
  lemma MountUncontrolled(p: Props)
    requires !IsControlled(p) && Min(p) <= Max(p)
    ensures Displayed(p, Mount(p)).Some?
    ensures Min(p) <= Displayed(p, Mount(p)).value <= Max(p)
    ensures Min(p) <= Initial(p) <= Max(p) ==> Displayed(p, Mount(p)) == Some(Initial(p))
  {
    ClampInRange(State(Some(Initial(p))), Min(p), Max(p));
  }
}
