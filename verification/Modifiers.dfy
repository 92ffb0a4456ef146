/**
 * What the two gesture machines see: masked modifier samples, and the ordered stream of inputs
 * their drivers feed them.
 */
module Modifiers {
  /** Instants and delays are nanoseconds. */
  const MILLISECOND: nat := 1_000_000

  datatype ModifierSample = ModifierSample(control: bool, option: bool, command: bool, shift: bool) {
    predicate PairDown() { control && option }

    predicate Blocked() { command || shift }

    predicate Foreign() { option || command || shift }

    predicate OnlyControl() { control && !option && !command && !shift }

    predicate AllUp() { !control && !option && !command && !shift }

    /** Control alone or nothing. */
    predicate Plain() { !option && !command && !shift }

    /** Control and Option alone. */
    predicate BarePair() { control && option && !command && !shift }

    /** Control and Option with Command or Shift. */
    predicate Chord() { control && option && (command || shift) }

    /** Not both of Control and Option, and neither Command nor Shift. */
    predicate Apart() { !(control && option) && !command && !shift }
  }

  /**
   * One input: a modifier sample, a non-modifier key-down, a press or release of the shortcut, a
   * driver tick, or a poll of Accessibility trust with the live modifier state.
   */
  datatype Input =
    | Sample(s: ModifierSample, at: nat)
    | Key
    | Shortcut(pressed: bool)
    | Tick(now: nat)
    | Poll(trusted: bool, live: ModifierSample, now: nat)

  /** Elapsed time, zero when the clock reads earlier. */
  function Since(now: nat, then_: nat): (elapsed: nat) {
    if now >= then_ then now - then_ else 0
  }
}
