/** The lens output shared by all four signal calculators. */
module LensSignal {
  import opened Prelude

  const SIGNAL_MIN := -2.0
  const SIGNAL_MAX := 2.0

  /** `signal` is None exactly when the lens is unavailable. */
  datatype ModuleSignal = ModuleSignal(signal: Option<real>, subfieldsComplete: bool) {
    predicate Available() { signal.Some? }

    /** Inside the contract range whenever it is available. */
    predicate InRange() { signal.Some? ==> SIGNAL_MIN <= signal.value <= SIGNAL_MAX }
  }

  const Unavailable := ModuleSignal(None, true)

  function Ok(value: real): ModuleSignal { ModuleSignal(Some(value), true) }

  function ClampSignal(value: real): real {
    Max(SIGNAL_MIN, Min(SIGNAL_MAX, value))
  }

  /** Ternary sign; a missing value casts no vote. */
  function SignOf(value: Option<real>): real {
    if value.None? || value.value == 0.0 then 0.0 else if value.value > 0.0 then 1.0 else -1.0
  }
}
