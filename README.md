# Thrust-regulator panel controller, in Dafny

This project models the in-memory controller of the thrust-regulator panel in
`app.js`. The DOM rendering is left out. The model has four parts:

- **Parameter store and status machine** (`params.dfy`, `status.dfy`,
  `controller.dfy`). There are two parameter records, `applied` and `pending`, each
  with delay, output, ramp and kill. The store is dirty when the two records differ.
  The status is SAFE, PENDING or ARMED and is re-derived after every change to
  `pending`; ARMED is sticky. The Apply button is enabled exactly when the store
  is dirty. Apply forces ARMED, and Stop forces SAFE.
- **Preset bank** (`controller.dfy`). Slots A, B and C each hold a snapshot of
  `applied` or nothing. Save writes a slot and Load writes only into `pending`. The
  controller also tracks the active preset.
- **LED bar** (`leds.dfy`). It has ten cells and a single timer slot. Each status
  has its own pattern: the safe sweep, the pending ripple and the armed pulse. A
  pattern is a counter that advances once per tick. `Frame(kind, t)` is the set
  of cells lit on tick `t`. Starting a pattern always clears the previous timer.
  The stop flash is included.
- **Demo panel** (`demo.dfy`). A RACE/DEMO switch gates the lights and the siren.
  Every outbound command is appended to a `log` in the order it is sent.

The event handlers are methods of the classes `Panel.Controller`,
`LedAnimation.LedAnimator` and `Demo.DemoPanel`. Each method modifies its
object. The dirty check, the status rule and the LED frames are functions.

Each class has an invariant (`Valid`) that every handler preserves:

- `Controller.Valid`: unless the status is ARMED, it is PENDING exactly when the
  store is dirty. The Apply button is enabled exactly when the store is dirty.
  All records stay within their bounds.
- `LedAnimator.Valid`: a running pattern's counter is `Run(kind, ticks)`.
  `RunCounter` proves that this counter equals `ticks` modulo the period.
- `DemoPanel.Valid`: in RACE mode the lights are off and the siren is OFF.

Modelling choices:

- `kill` is an integer number of tenths. It only takes part in equality.
- The source compares the two records by their JSON text. The model uses
  structural inequality, and `IsDirty`'s contract states it field by field.
- A preset slot that holds no snapshot is a slot absent from the `presets` map.
  Records are values, so a stored snapshot is a copy and never aliases `applied`.
- `Save` takes the slot name after trimming and upper-casing.
- A click on the siren selector is an `Option<Siren>`. `None` stands for a click
  that hit no button or a button without a value.
- `sendDemoCommand` becomes an append to `DemoPanel.log`.
- The status refresh asks for PENDING again when the status is already PENDING.
  This restarts the ripple at counter 0, and `Reconcile` models that restart.

## Model

| member | source | states |
|---|---|---|
| Parameters.IsDirty | app.js:173-175 | dirty exactly when some field of pending differs from the same field of applied; clean exactly when the records are equal |
| Parameters.ParseSlot | app.js:240 | a slot is found exactly for "A", "B" and "C", and its name is the input |
| StatusMachine.Reconcile | app.js:188-196 | a status change is requested unless armed, or unless SAFE and clean; it is never ARMED, and it is PENDING exactly when dirty |
| StatusMachine.AfterEdit | app.js:188-196 | an edit neither arms nor disarms; when not armed, the new status is PENDING exactly when dirty; the result is consistent with the dirty flag |
| LedAnimation.Advance | app.js:92 | the counter goes up by one and wraps to 0 at the end of the period (10 ticks for sweep and ripple, 5 for the pulse), staying in range |
| LedAnimation.Frame | app.js:86-133 | every lit index of every frame is within 0..9 |
| LedAnimation.RunCounter | app.js:86-133 | after t ticks from its start, a pattern's counter is t modulo its period |
| LedAnimation.RunShowsFrame | app.js:86-133 | the cells the running counter selects are Frame(kind, t) |
| LedAnimation.SweepFrame | app.js:86-94 | on sweep tick t exactly cell t mod 10 is lit |
| LedAnimation.RippleFrame | app.js:96-109 | on ripple tick t exactly three distinct cells are lit: t, t+1 and t+2 modulo 10 |
| LedAnimation.PulseFrame | app.js:111-133 | on pulse tick t exactly two cells are lit, mirror images about the centre, each one cell further out per phase: 4 and 5 at phase 0, 0 and 9 at phase 4 |
| LedAnimation.FramePeriodic | app.js:86-133 | every pattern repeats after one period |
| LedAnimation.LedAnimator.constructor | app.js:53-64 | ten cells, all dark, no colour class, no timer |
| LedAnimation.LedAnimator.ClearTimer | app.js:66-71 | the timer slot is empty afterwards, the invariant holds and nothing else changes |
| LedAnimation.LedAnimator.StartPattern | app.js:86-133 | the previous timer is cleared and the new pattern occupies the single slot with counter 0 and its colour class |
| LedAnimation.LedAnimator.Tick | app.js:90-131 | exactly the cells of Frame(kind, ticks) are active, then the counter advances |
| LedAnimation.LedAnimator.SetAll | app.js:73-75 | every cell takes the given state and the invariant is kept |
| LedAnimation.LedAnimator.FlashStop | app.js:135-137 | the timer is cleared and every cell is lit |
| LedAnimation.LedAnimator.FlashEnd | app.js:138-141 | every cell goes dark, then the safe sweep is started |
| Panel.KindFor | app.js:145-162 | each status selects a distinct pattern: SAFE exactly the sweep, PENDING exactly the ripple, ARMED exactly the pulse, the only one with the plain colour |
| Panel.Controller.constructor | app.js:7-12 | both records hold the defaults, no preset is stored or active, Apply is disabled, the status is SAFE and the sweep runs |
| Panel.Controller.SetStatus | app.js:145-162 | the status is recorded and its pattern restarts in the single timer slot |
| Panel.Controller.RefreshStatus | app.js:188-196 | Apply is enabled exactly when the store is dirty; the status becomes AfterEdit of the old status and the dirty flag; the pattern restarts only when a change is requested |
| Panel.Controller.Edit | app.js:212-223 | pending is overwritten with the new values, applied and presets are unchanged, the active preset is cleared, the status follows AfterEdit, and the invariant is kept |
| Panel.Controller.Apply | app.js:231-235 | a click while the store is clean (button disabled) changes nothing; otherwise applied becomes pending, so the store is clean, Apply is disabled, and the status is ARMED from any status with the pulse running |
| Panel.Controller.Save | app.js:238-248 | an invalid name changes nothing; a valid slot receives the applied record and becomes the active preset |
| Panel.Controller.Load | app.js:251-268 | an empty slot is reported and changes nothing; otherwise pending becomes the snapshot, applied is unchanged, the slot is active, the status follows AfterEdit and the LED pattern restarts only when a status change is requested |
| Panel.Controller.Stop | app.js:271-284 | applied output becomes 0 and its other fields are kept, pending equals applied, the store is clean, Apply is disabled, no preset is active, the status is SAFE, and the flash lights every cell |
| Panel.Controller.SaveEditLoad | app.js:238-268 | saving a slot, editing, then loading that slot restores the saved applied record into pending |
| Demo.ModeCommands | app.js:320-331 | mode on sends only the mode command; mode off sends the mode command, then lights off, then siren off, and never a lights-on command |
| Demo.DemoPanel.constructor | app.js:15-19 | RACE mode, lights off, siren OFF, nothing sent |
| Demo.DemoPanel.ToggleDemoMode | app.js:318-335 | the mode flips; leaving demo mode resets lights and siren before the three commands are logged; entering it logs one command and keeps lights and siren |
| Demo.DemoPanel.ToggleLights | app.js:337-344 | ignored outside demo mode; otherwise the lights flip and exactly one command with the new value is logged |
| Demo.DemoPanel.SelectSiren | app.js:346-358 | ignored outside demo mode or without a value; otherwise the siren takes the value and exactly one command carrying it is logged |

`Panel.EditApplyEditStop` and `Demo.LightsThenLeaveDemo` are client methods. They
check two scenarios against the contracts above: edit, apply, edit while armed,
then stop; and the lights gating followed by leaving demo mode.

## Left out

- DOM lookups, text, colour and class updates, slider positions, the preset button
  highlight, and the status label and colour (app.js:22-52, 147, 150-151,
  154-155, 158-159, 177-186, 199-209, 295-316). They are rendering.
- Panel.Controller.Apply: the browser dispatches no click to the disabled Apply
  button (app.js:189, 233, 280). The model has the handler receive that click and
  return without changing anything. The model does not cover calling the handler
  code directly on a clean store.
- Demo.DemoPanel.SelectSiren: app.js:351-354 stores any non-empty value the
  clicked button carries. The model limits that value to OFF, LOW and HIGH.
- The interval periods (120, 85 and 140 ms) and the 250 ms and 120 ms delays of
  the stop flash. They are wall-clock scheduling. A tick is a call of
  `LedAnimator.Tick`. The end of the flash is a separate call of `FlashEnd`.
- LedAnimation.LedAnimator.FlashEnd: the flash's two timeouts are not held in the
  timer slot. So the model, like the source, does not stop `FlashEnd` from
  starting the sweep after an edit has started another pattern. The two timeouts
  (cells dark at 250 ms, sweep 120 ms later, app.js:138-140) are merged into this
  one call. So the model cannot show another pattern's ticks between the cells
  going dark and the sweep starting, which the source allows.
- `clamp01` and `setVU` fill ratios (app.js:165-170). They are floating-point display
  arithmetic.
- The `prompt` and `alert` dialogs and the trimming and upper-casing of the slot name
  (app.js:239, 255). `Load` reports an empty slot as `EmptySlot` instead of an alert.
- The console output of `sendDemoCommand` (app.js:290-293). It is a foreign side
  effect, and `log` replaces it.
- The parsing of slider strings (app.js:213-216). `Edit` receives an in-range record.
- The LED pattern formulas are fixed to ten cells. The pulse's centre formulas only
  make sense for an even number of cells.
