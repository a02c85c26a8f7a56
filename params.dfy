/** An optional value: the panel's `null` (no active preset, no running timer). */
module Wrappers {

  datatype Option<+T> = None | Some(value: T)
}

/**
 * The two parameter records of the regulator (`applied` and `pending`), their
 * bounds, the dirty check between them and the names of the preset slots.
 */
module Parameters {

  import opened Wrappers

  /** One parameter record; `killTenths` is the kill-switch threshold in tenths. */
  datatype ParameterSet = ParameterSet(delay: int, output: int, ramp: int, killTenths: int)

  const DelayMax: int := 3000
  const OutputMax: int := 100
  const RampMax: int := 2000
  const KillTenthsMax: int := 100

  /** Every field lies within the range of its slider. */
  predicate InBounds(p: ParameterSet)
  {
    0 <= p.delay <= DelayMax && 0 <= p.output <= OutputMax &&
    0 <= p.ramp <= RampMax && 0 <= p.killTenths <= KillTenthsMax
  }

  /** The start-up record: delay 250, output 85, ramp 300, kill 2.5. */
  const Defaults: ParameterSet := ParameterSet(250, 85, 300, 25)

  /**
   * The store is dirty when the serialised records differ. Both records always
   * have the same field order, so that is structural inequality, which is
   * the same as some field differing.
   */
  function IsDirty(applied: ParameterSet, pending: ParameterSet): (dirty: bool)
    ensures dirty <==>
      pending.delay != applied.delay || pending.output != applied.output ||
      pending.ramp != applied.ramp || pending.killTenths != applied.killTenths
    ensures !dirty <==> pending == applied
  {
    pending != applied
  }

  /** The three preset slots. */
  datatype Slot = A | B | C

  function SlotName(s: Slot): (name: string)
  {
    match s
    case A => "A"
    case B => "B"
    case C => "C"
  }

  /**
   * The slot an (already trimmed and upper-cased) name denotes, or None when
   * the name is not one of "A", "B", "C".
   */
  function ParseSlot(name: string): (r: Option<Slot>)
    ensures r.Some? <==> name == "A" || name == "B" || name == "C"
    ensures r.Some? ==> SlotName(r.value) == name
  {
    if name == "A" then Some(A)
    else if name == "B" then Some(B)
    else if name == "C" then Some(C)
    else None
  }
}
