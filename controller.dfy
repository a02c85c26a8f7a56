/**
 * The regulator controller: the applied and pending records, the preset bank,
 * the active preset, the status and the LED bar that shows it, with the
 * handlers of the sliders and of the Apply, Save, preset and Stop buttons.
 */
module Panel {

  import opened Wrappers
  import opened Parameters
  import opened StatusMachine
  import opened LedAnimation

  /** The LED pattern each status runs: a distinct one per status. */
  function KindFor(s: Status): (k: Kind)
    ensures s == Safe <==> k == SafeSweep
    ensures s == Pending <==> k == PendingRipple
    ensures ColourOf(k) == Plain <==> s == Armed
  {
    match s
    case Safe => SafeSweep
    case Pending => PendingRipple
    case Armed => ArmedPulse
  }

  /** What loading a preset did: installed it, or found the slot empty (the user is told). */
  datatype LoadOutcome = Loaded | EmptySlot

  class Controller {
    var applied: ParameterSet
    var pending: ParameterSet
    var presets: map<Slot, ParameterSet>
    var activePreset: Option<Slot>
    var status: Status
    /** Whether the Apply button is enabled; a disabled button sends no click. */
    var applyEnabled: bool
    const leds: LedAnimator

    /**
     * Every record is within bounds, unless armed the status says whether
     * the store is dirty, and Apply is enabled exactly when it is dirty.
     */
    ghost predicate Valid()
      reads this, leds
    {
      leds.Valid() && InBounds(applied) && InBounds(pending) &&
      (forall s | s in presets :: InBounds(presets[s])) &&
      Consistent(status, IsDirty(applied, pending)) &&
      applyEnabled == IsDirty(applied, pending)
    }

    /** Start-up: default records, empty slots, SAFE with the sweep running. */
    constructor ()
      ensures Valid() && fresh(leds) && fresh(leds.cells)
      ensures applied == Defaults && pending == Defaults
      ensures presets == map[] && activePreset == None && !applyEnabled
      ensures status == Safe && leds.timer == Some(Start(SafeSweep)) && leds.colour == SafeColour
    {
      applied := Defaults;
      pending := Defaults;
      presets := map[];
      activePreset := None;
      status := Safe;
      applyEnabled := false;
      leds := new LedAnimator();
      new;
      RefreshStatus();
      SetStatus(Safe);
    }

    /** Records the new status and restarts the LED pattern that belongs to it. */
    method SetStatus(s: Status)
      requires leds.cells.Length == LedCount
      modifies this`status, leds
      ensures status == s && leds.Valid()
      ensures leds.timer == Some(Start(KindFor(s))) && leds.colour == ColourOf(KindFor(s))
    {
      status := s;
      leds.StartPattern(KindFor(s));
    }

    /**
     * The logic of the readout refresh: Apply is enabled exactly when the
     * store is dirty, the status is re-derived from the dirty flag, and the
     * LED pattern restarts only when a status change is requested.
     */
    method RefreshStatus()
      requires leds.Valid()
      modifies this`status, this`applyEnabled, leds
      ensures leds.Valid() && applyEnabled == IsDirty(applied, pending)
      ensures status == AfterEdit(old(status), IsDirty(applied, pending))
      ensures var r := Reconcile(old(status), IsDirty(applied, pending));
        if r.Some? then leds.timer == Some(Start(KindFor(r.value))) && leds.colour == ColourOf(KindFor(r.value))
        else unchanged(leds)
    {
      var dirty := IsDirty(applied, pending);
      applyEnabled := dirty;
      if dirty {
        if status != Armed {
          SetStatus(Pending);
        }
      } else {
        if status == Pending {
          SetStatus(Safe);
        }
      }
    }

    /**
     * A slider moved: all four pending fields take the sliders' values, the
     * active preset is cleared and the status is re-derived.
     */
    method Edit(p: ParameterSet)
      requires Valid() && InBounds(p)
      modifies this, leds
      ensures Valid()
      ensures pending == p && applied == old(applied)
      ensures presets == old(presets) && activePreset == None
      ensures status == AfterEdit(old(status), IsDirty(applied, p))
      ensures var r := Reconcile(old(status), IsDirty(applied, p));
        if r.Some? then leds.timer == Some(Start(KindFor(r.value))) && leds.colour == ColourOf(KindFor(r.value))
        else unchanged(leds)
    {
      pending := p;
      activePreset := None;
      RefreshStatus();
    }

    /**
     * A click on Apply. The button is disabled while the store is clean, so
     * such a click changes nothing. Otherwise the pending record is
     * committed, the button is disabled and the regulator is armed, from any
     * status.
     */
    method Apply()
      requires Valid()
      modifies this, leds
      ensures Valid()
      ensures applied == pending && !applyEnabled
      ensures pending == old(pending) && presets == old(presets) && activePreset == old(activePreset)
      ensures !old(IsDirty(applied, pending)) ==> applied == old(applied) && status == old(status) && unchanged(leds)
      ensures old(IsDirty(applied, pending)) ==>
        applied == old(pending) && status == Armed && leds.timer == Some(Start(ArmedPulse)) && leds.colour == Plain
    {
      if !applyEnabled {
        return;
      }
      applied := pending;
      applyEnabled := false;
      SetStatus(Armed);
    }

    /**
     * Save: a name other than A, B or C changes nothing; otherwise the slot
     * receives a copy of the applied record and becomes the active preset.
     */
    method Save(name: string)
      requires Valid()
      modifies this`presets, this`activePreset
      ensures Valid()
      ensures ParseSlot(name).None? ==> presets == old(presets) && activePreset == old(activePreset)
      ensures ParseSlot(name).Some? ==>
        presets == old(presets)[ParseSlot(name).value := applied] && activePreset == ParseSlot(name)
    {
      var slot := ParseSlot(name);
      if slot.None? {
        return;
      }
      presets := presets[slot.value := applied];
      activePreset := slot;
    }

    /**
     * Preset button: an empty slot changes nothing; otherwise its snapshot
     * becomes the pending record (never the applied one), the slot becomes
     * active and the status is re-derived.
     */
    method Load(slot: Slot) returns (outcome: LoadOutcome)
      requires Valid()
      modifies this, leds
      ensures Valid()
      ensures applied == old(applied) && presets == old(presets)
      ensures outcome == EmptySlot <==> slot !in presets
      ensures outcome == EmptySlot ==>
        pending == old(pending) && activePreset == old(activePreset) && status == old(status) && unchanged(leds)
      ensures outcome == Loaded ==>
        pending == presets[slot] && activePreset == Some(slot) &&
        status == AfterEdit(old(status), IsDirty(applied, pending))
      ensures outcome == Loaded ==>
        var r := Reconcile(old(status), IsDirty(applied, pending));
        if r.Some? then leds.timer == Some(Start(KindFor(r.value))) && leds.colour == ColourOf(KindFor(r.value))
        else unchanged(leds)
    {
      if slot !in presets {
        return EmptySlot;
      }
      pending := presets[slot];
      activePreset := Some(slot);
      RefreshStatus();
      outcome := Loaded;
    }

    /**
     * Stop: the applied output drops to 0 with the other fields kept, the
     * pending record becomes a copy of it, no preset is active, the status is
     * SAFE, and the stop flash lights every cell with no timer running.
     */
    method Stop()
      requires Valid()
      modifies this, leds, leds.cells
      ensures Valid()
      ensures applied == old(applied).(output := 0)
      ensures pending == applied && !IsDirty(applied, pending)
      ensures presets == old(presets) && activePreset == None && status == Safe && !applyEnabled
      ensures leds.timer == None && leds.colour == SafeColour
      ensures forall x | 0 <= x < LedCount :: leds.cells[x]
    {
      applied := applied.(output := 0);
      pending := applied;
      activePreset := None;
      RefreshStatus();
      applyEnabled := false;
      SetStatus(Safe);
      leds.FlashStop();
    }

    /**
     * Saving slot `slot`, editing, then loading `slot` puts the applied record
     * as it was at the save back into the pending record.
     */
    method SaveEditLoad(slot: Slot, edit: ParameterSet) returns (outcome: LoadOutcome)
      requires Valid() && InBounds(edit)
      modifies this, leds
      ensures Valid()
      ensures outcome == Loaded && pending == old(applied) && applied == old(applied)
      ensures activePreset == Some(slot) && slot in presets && presets[slot] == old(applied)
    {
      Save(SlotName(slot));
      Edit(edit);
      outcome := Load(slot);
    }
  }

  /**
   * From the defaults: Apply on the clean store (disabled, so still SAFE),
   * set output to 50 (PENDING), Apply (ARMED), set delay to 500 (still
   * ARMED, but dirty), Stop (SAFE, output 0, clean).
   */
  method EditApplyEditStop()
  {
    var c := new Controller();
    c.Apply();
    assert c.status == Safe && c.applied == Defaults;
    c.Edit(Defaults.(output := 50));
    assert IsDirty(c.applied, c.pending) && c.status == Pending;
    c.Apply();
    assert c.applied.output == 50 && c.status == Armed;
    c.Edit(c.pending.(delay := 500));
    assert IsDirty(c.applied, c.pending) && c.status == Armed;
    c.Stop();
    assert c.applied.output == 0 && c.applied.delay == 250 && c.pending == c.applied;
    assert c.status == Safe && c.activePreset == None;
  }
}
