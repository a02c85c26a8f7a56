/**
 * The LED bar: a fixed row of LedCount cells and at most one running timed
 * pattern. Each pattern is a counter that the timer advances once per tick;
 * the tick lights the cells its counter selects.
 */
module LedAnimation {

  import opened Wrappers

  const LedCount: int := 10
  /** The two middle cells (cells 5 and 6 when counted from one). */
  const LeftCenter: int := LedCount / 2 - 1
  const RightCenter: int := LedCount / 2

  /** The three patterns: one per status. */
  datatype Kind = SafeSweep | PendingRipple | ArmedPulse

  /** The colour class put on every cell; the armed pulse uses none. */
  datatype Colour = Plain | SafeColour | PendingColour

  /** A running pattern together with the counter its tick closure holds. */
  datatype Pattern = Pattern(kind: Kind, counter: int)

  function ColourOf(k: Kind): (c: Colour)
  {
    match k
    case SafeSweep => SafeColour
    case PendingRipple => PendingColour
    case ArmedPulse => Plain
  }

  /** How many ticks a pattern takes before its counter wraps to 0. */
  function Period(k: Kind): (n: int)
    ensures 0 < n <= LedCount
  {
    if k == ArmedPulse then LeftCenter + 1 else LedCount
  }

  /** The pattern as it is when started: counter (`i` or `phase`) at 0. */
  function Start(k: Kind): (p: Pattern)
  {
    Pattern(k, 0)
  }

  /** The cells one tick lights for a given counter value. */
  function Lit(p: Pattern): (cells: set<int>)
  {
    var c := p.counter;
    match p.kind
    case SafeSweep => {c}
    case PendingRipple => {c, (c + 1) % LedCount, (c + 2) % LedCount}
    case ArmedPulse => {LeftCenter - c, RightCenter + c}
  }

  /** The counter update at the end of a tick; it stays within the period. */
  function Advance(p: Pattern): (q: Pattern)
    ensures q.kind == p.kind && 0 <= q.counter < Period(p.kind)
    ensures 0 <= p.counter < Period(p.kind) - 1 ==> q.counter == p.counter + 1
    ensures p.counter == Period(p.kind) - 1 ==> q.counter == 0
  {
    p.(counter := (p.counter + 1) % Period(p.kind))
  }

  /** The pattern after `t` ticks from its start. */
  function Run(k: Kind, t: nat): (p: Pattern)
  {
    if t == 0 then Start(k) else Advance(Run(k, t - 1))
  }

  /** The cells lit on tick number `t` (counting from 0) of pattern `k`. */
  function Frame(k: Kind, t: nat): (r: set<int>)
    ensures forall x | x in r :: 0 <= x < LedCount
  {
    Lit(Pattern(k, t % Period(k)))
  }

  /** After `t` ticks the counter is `t` modulo the period. */
  lemma {:induction false} RunCounter(k: Kind, t: nat)
    ensures Run(k, t) == Pattern(k, t % Period(k))
  {
    if t > 0 {
      RunCounter(k, t - 1);
      WrapStep(t, Period(k));
    }
  }

  /** Adding one before or after reducing modulo a period gives the same counter. */
  lemma WrapStep(t: nat, n: int)
    requires t > 0 && (n == LedCount || n == LeftCenter + 1)
    ensures ((t - 1) % n + 1) % n == t % n
  {
    var q, r := (t - 1) / n, (t - 1) % n;
    if n == LedCount {
      assert t == 10 * q + r + 1;
    } else {
      assert t == 5 * q + r + 1;
    }
    if r + 1 == n {
      assert t == n * (q + 1);
    }
  }

  /** So the tick after `t` earlier ticks shows Frame(k, t). */
  lemma RunShowsFrame(k: Kind, t: nat)
    ensures Lit(Run(k, t)) == Frame(k, t)
  {
    RunCounter(k, t);
  }

  /** The safe sweep lights exactly one cell, and every cell once per period. */
  lemma SweepFrame(t: nat)
    ensures Frame(SafeSweep, t) == {t % LedCount}
    ensures t < LedCount ==> Frame(SafeSweep, t) == {t}
  {
  }

  /**
   * The pending ripple lights three distinct consecutive cells, wrapping
   * round the end of the bar.
   */
  lemma RippleFrame(t: nat)
    ensures |Frame(PendingRipple, t)| == 3
    ensures forall x :: x in Frame(PendingRipple, t) <==>
      0 <= x < LedCount && (x - t) % LedCount < 3
  {
    var i := t % LedCount;
    assert Frame(PendingRipple, t) == {i, (i + 1) % LedCount, (i + 2) % LedCount};
    assert |{i, (i + 1) % LedCount}| == 2;
  }

  /**
   * The armed pulse lights two distinct cells placed symmetrically about the
   * centre of the bar, each one cell further out per phase: the middle pair
   * at phase 0 and the two end cells at the last phase.
   */
  lemma PulseFrame(t: nat)
    ensures |Frame(ArmedPulse, t)| == 2
    ensures forall x :: x in Frame(ArmedPulse, t) <==> (LedCount - 1 - x) in Frame(ArmedPulse, t)
    ensures t % Period(ArmedPulse) == 0 ==> Frame(ArmedPulse, t) == {LeftCenter, RightCenter}
    ensures t % Period(ArmedPulse) == LeftCenter ==> Frame(ArmedPulse, t) == {0, LedCount - 1}
    ensures forall x | x in Frame(ArmedPulse, t) ::
      2 * x - (LedCount - 1) == 2 * (t % Period(ArmedPulse)) + 1 ||
      (LedCount - 1) - 2 * x == 2 * (t % Period(ArmedPulse)) + 1
  {
  }

  /** Every pattern repeats after one period. */
  lemma FramePeriodic(k: Kind, t: nat)
    ensures Frame(k, t + Period(k)) == Frame(k, t)
  {
    assert (t + Period(k)) % Period(k) == t % Period(k);
  }

  /**
   * The LED bar: the cells' "active" flags, the colour class on them and the
   * single timer slot. `ticks` counts the ticks of the running pattern.
   */
  class LedAnimator {
    const cells: array<bool>
    var colour: Colour
    var timer: Option<Pattern>
    ghost var ticks: nat

    /** The bar has LedCount cells and the running counter is Run(kind, ticks). */
    ghost predicate Valid()
      reads this
    {
      cells.Length == LedCount &&
      (timer.Some? ==> timer.value == Run(timer.value.kind, ticks))
    }

    /** The bar as built at start-up: all cells dark, no class, no timer. */
    constructor ()
      ensures Valid() && fresh(cells)
      ensures timer == None && colour == Plain
      ensures forall x | 0 <= x < LedCount :: !cells[x]
    {
      cells := new bool[LedCount](_ => false);
      colour := Plain;
      timer := None;
      ticks := 0;
    }

    /** Cancels the running timer, if any. */
    method ClearTimer()
      requires cells.Length == LedCount
      modifies this
      ensures Valid()
      ensures timer == None && colour == old(colour) && ticks == old(ticks)
    {
      if timer.Some? {
        timer := None;
      }
    }

    /**
     * Starts pattern `k`: the previous timer is cleared first, so at most one
     * pattern runs; the cells take `k`'s colour class and its counter is 0.
     */
    method StartPattern(k: Kind)
      requires cells.Length == LedCount
      modifies this
      ensures Valid()
      ensures timer == Some(Start(k)) && colour == ColourOf(k)
    {
      ClearTimer();
      colour := ColourOf(k);
      timer := Some(Start(k));
      ticks := 0;
    }

    /**
     * One timer tick: exactly the cells of Frame(kind, ticks) are active,
     * then the counter advances.
     */
    method Tick()
      requires Valid() && timer.Some?
      modifies this, cells
      ensures Valid() && colour == old(colour)
      ensures timer == Some(Advance(old(timer.value))) && ticks == old(ticks) + 1
      ensures forall x | 0 <= x < LedCount :: cells[x] == (x in Frame(old(timer.value.kind), old(ticks)))
    {
      var p := timer.value;
      var lit := Lit(p);
      RunShowsFrame(p.kind, ticks);
      assert lit == Frame(p.kind, ticks);
      for idx := 0 to cells.Length
        modifies cells
        invariant forall x | 0 <= x < idx :: cells[x] == (x in lit)
      {
        cells[idx] := idx in lit;
      }
      timer := Some(Advance(p));
      ticks := ticks + 1;
    }

    /** Switches every cell on or off. */
    method SetAll(on: bool)
      requires Valid()
      modifies cells
      ensures Valid()
      ensures forall x | 0 <= x < LedCount :: cells[x] == on
    {
      for idx := 0 to cells.Length
        invariant forall x | 0 <= x < idx :: cells[x] == on
      {
        cells[idx] := on;
      }
    }

    /** The start of the stop flash: timer cleared, every cell lit. */
    method FlashStop()
      requires Valid()
      modifies this, cells
      ensures Valid() && timer == None && colour == old(colour)
      ensures forall x | 0 <= x < LedCount :: cells[x]
    {
      ClearTimer();
      SetAll(true);
    }

    /** The end of the stop flash: every cell dark, then the safe sweep. */
    method FlashEnd()
      requires Valid()
      modifies this, cells
      ensures Valid() && timer == Some(Start(SafeSweep)) && colour == SafeColour
      ensures forall x | 0 <= x < LedCount :: !cells[x]
    {
      SetAll(false);
      StartPattern(SafeSweep);
    }
  }
}
