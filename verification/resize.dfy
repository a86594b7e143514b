/**
 * Resizing the window. `handleResize` cancels the pending animation frame
 * and calls `init()`; `init()` starts the loop again only while
 * `animationFrameId` is unset, which after the first frame it never is. So
 * from the first resize on no frame runs, and no data pulse ever appears,
 * however much the assistant works. `Controller.ResizeRestarting` is the
 * evidently intended handler, after which frames go on.
 */
module Resizing {
  import opened JsString
  import opened Controller
  import DataPulses
  import Turns

  /** Once no frame is pending and no pulse is left, no run of events brings
      either back. */
  lemma {:induction false} FrozenRun(s: State, es: seq<Event>)
    requires !s.animating && s.pulses == []
    ensures !Run(s, es).animating && Run(s, es).pulses == []
    decreases |es|
  {
    if es != [] {
      StepGrowth(s, es[0]);
      StepAnimating(s, es[0]);
      FrozenRun(Step(s, es[0]), es[1..]);
    }
  }

  /** As written: after a resize, whatever happens, the pulse list stays empty. */
  lemma ResizeStopsPulses(s: State, es: seq<Event>)
    ensures !Run(Resize(s), es).animating && Run(Resize(s), es).pulses == []
  {
    FrozenRun(Resize(s), es);
  }

  /** The events that show it: choose a branch, send a prompt, and let a
      frame roll a pulse between particles `a` and `b`. */
  function Working(raw: string, a: nat, b: nat): seq<Event> {
    [ChooseBranch("general"), ConfirmPrompt(raw), AnimationFrame(true, a, b, {})]
  }

  /** As written: after a resize the assistant works on a prompt, the frame
      rolls a pulse, and still no pulse is there. */
  lemma ResizedWorkHasNoPulse(s: State, raw: string, a: nat, b: nat)
    requires Trim(raw) != [] && a < DataPulses.ParticleCount && b < DataPulses.ParticleCount && a != b
    ensures IsWorking(Run(Resize(s), Working(raw, a, b)))
    ensures Run(Resize(s), Working(raw, a, b)).pulses == []
  {
    Turns.RunThree(Resize(s), ChooseBranch("general"), ConfirmPrompt(raw), AnimationFrame(true, a, b, {}));
    ResizeStopsPulses(s, Working(raw, a, b));
  }

  /** As intended: after the restarting resize the same events spawn the pulse. */
  lemma RestartedWorkHasPulse(s: State, raw: string, a: nat, b: nat)
    requires Trim(raw) != [] && a < DataPulses.ParticleCount && b < DataPulses.ParticleCount && a != b
    ensures IsWorking(Run(ResizeRestarting(s), Working(raw, a, b)))
    ensures Run(ResizeRestarting(s), Working(raw, a, b)).pulses == [DataPulses.Pulse(a, b, false)]
  {
    var s0 := ResizeRestarting(s);
    Turns.RunThree(s0, ChooseBranch("general"), ConfirmPrompt(raw), AnimationFrame(true, a, b, {}));
    var s2 := Step(Step(s0, ChooseBranch("general")), ConfirmPrompt(raw));
    assert s2.pulses == [] && IsWorking(s2) && s2.animating;
    DataPulses.PruneSingle(DataPulses.Pulse(a, b, false));
  }
}
