/**
 * The demo panel: a RACE/DEMO mode switch gating the lights and the siren,
 * with every outbound command appended to a log in the order it is sent.
 * It never touches the regulator's records or status.
 */
module Demo {

  import opened Wrappers

  datatype Siren = Off | Low | High

  /** An outbound command and its payload. */
  datatype Command =
    | DemoModeCommand(enabled: bool)
    | LightsCommand(on: bool)
    | SirenCommand(state: Siren)

  /**
   * The commands a mode switch sends: entering demo mode announces it alone;
   * leaving it announces the mode, then lights off, then siren off.
   */
  function ModeCommands(enabled: bool): (cmds: seq<Command>)
    ensures 0 < |cmds| && cmds[0] == DemoModeCommand(enabled)
    ensures enabled <==> |cmds| == 1
    ensures forall i | 0 <= i < |cmds| :: cmds[i] != LightsCommand(true)
    ensures !enabled ==> cmds[1..] == [LightsCommand(false), SirenCommand(Off)]
  {
    if enabled then [DemoModeCommand(true)]
    else [DemoModeCommand(false), LightsCommand(false), SirenCommand(Off)]
  }

  class DemoPanel {
    var demoMode: bool
    var lights: bool
    var siren: Siren
    var log: seq<Command>

    /** Outside demo mode the lights are off and the siren is silent. */
    ghost predicate Valid()
      reads this
    {
      !demoMode ==> !lights && siren == Off
    }

    /** Start-up: RACE mode, lights off, siren off, nothing sent. */
    constructor ()
      ensures Valid()
      ensures !demoMode && !lights && siren == Off && log == []
    {
      demoMode := false;
      lights := false;
      siren := Off;
      log := [];
    }

    /**
     * The mode button: the mode flips; leaving demo mode first resets the
     * lights and the siren and then reports mode, lights and siren off;
     * entering it reports only the mode and leaves the outputs as they were.
     */
    method ToggleDemoMode()
      requires Valid()
      modifies this
      ensures Valid()
      ensures demoMode == !old(demoMode)
      ensures demoMode ==> lights == old(lights) && siren == old(siren)
      ensures !demoMode ==> !lights && siren == Off
      ensures log == old(log) + ModeCommands(demoMode)
    {
      demoMode := !demoMode;
      if !demoMode {
        lights := false;
        siren := Off;
        log := log + [DemoModeCommand(false)];
        log := log + [LightsCommand(false)];
        log := log + [SirenCommand(Off)];
      } else {
        log := log + [DemoModeCommand(true)];
      }
    }

    /**
     * The lights button: ignored outside demo mode; in demo mode the lights
     * flip and one command carries the new value.
     */
    method ToggleLights()
      requires Valid()
      modifies this
      ensures Valid()
      ensures demoMode == old(demoMode) && siren == old(siren)
      ensures !demoMode ==> lights == old(lights) && log == old(log)
      ensures demoMode ==> lights == !old(lights) && log == old(log) + [LightsCommand(lights)]
    {
      if !demoMode {
        return;
      }
      lights := !lights;
      log := log + [LightsCommand(lights)];
    }

    /**
     * A click on the siren selector; `choice` is the value of the button hit,
     * None when the click hit no button or one without a value. Ignored
     * outside demo mode or without a value; otherwise the siren takes the
     * value and one command carries it.
     */
    method SelectSiren(choice: Option<Siren>)
      requires Valid()
      modifies this
      ensures Valid()
      ensures demoMode == old(demoMode) && lights == old(lights)
      ensures !demoMode || choice.None? ==> siren == old(siren) && log == old(log)
      ensures demoMode && choice.Some? ==>
        siren == choice.value && log == old(log) + [SirenCommand(choice.value)]
    {
      if !demoMode {
        return;
      }
      if choice.None? {
        return;
      }
      siren := choice.value;
      log := log + [SirenCommand(siren)];
    }
  }

  /**
   * Lights ignored in RACE mode; in DEMO mode one toggle sends lights on;
   * leaving DEMO mode resets the outputs and sends three commands in order.
   */
  method LightsThenLeaveDemo()
  {
    var d := new DemoPanel();
    d.ToggleLights();
    assert !d.lights && d.log == [];
    d.ToggleDemoMode();
    d.ToggleLights();
    assert d.lights && d.log == [DemoModeCommand(true), LightsCommand(true)];
    d.ToggleDemoMode();
    assert !d.lights && d.siren == Off;
    assert d.log[2..] == [DemoModeCommand(false), LightsCommand(false), SirenCommand(Off)];
  }
}
