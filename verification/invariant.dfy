/**
 * What stays true of the page whatever happens, in any order: the pulse
 * list is capped and empty whenever the AI is idle, a chat exists exactly
 * while a branch is active, the start view has no branch, every reveal in
 * flight shows a prefix of its text, and `isGeneratingText` is only set
 * while some reveal is in flight.
 */
module Invariant {
  import opened Options
  import opened Controller
  import JsString
  import DataPulses
  import Typewriter

  predicate RevealsConsistent(tasks: seq<Task>) {
    forall j :: 0 <= j < |tasks| && tasks[j].Revealing? ==> Typewriter.Consistent(tasks[j].typing)
  }

  predicate HasReveal(tasks: seq<Task>) {
    exists j :: 0 <= j < |tasks| && tasks[j].Revealing?
  }

  predicate Valid(s: State) {
    && DataPulses.Capped(s.pulses)
    && (!IsWorking(s) ==> s.pulses == [])
    && (s.chat <==> s.active.Some?)
    && (s.active.Some? ==> s.active.value in Branches)
    && (s.ui == Initial ==> s.active.None?)
    && RevealsConsistent(s.tasks)
    && (s.flags.generating ==> HasReveal(s.tasks))
  }

  /** Replacing or removing a continuation keeps the other reveals as they
      were; one that is not a reveal takes no reveal away. */
  lemma ReplaceTask(tasks: seq<Task>, k: nat, t: Task)
    requires k < |tasks| && RevealsConsistent(tasks)
    requires t.Revealing? ==> Typewriter.Consistent(t.typing)
    ensures RevealsConsistent(tasks[k := t])
    ensures !tasks[k].Revealing? && HasReveal(tasks) ==> HasReveal(tasks[k := t])
  {
    if !tasks[k].Revealing? && HasReveal(tasks) {
      var j :| 0 <= j < |tasks| && tasks[j].Revealing?;
      assert tasks[k := t][j] == tasks[j];
    }
  }

  lemma RemoveTask(tasks: seq<Task>, k: nat)
    requires k < |tasks| && RevealsConsistent(tasks)
    ensures RevealsConsistent(RemoveAt(tasks, k))
    ensures !tasks[k].Revealing? && HasReveal(tasks) ==> HasReveal(RemoveAt(tasks, k))
  {
    var r := RemoveAt(tasks, k);
    forall j | 0 <= j < |r| && r[j].Revealing?
      ensures Typewriter.Consistent(r[j].typing)
    {
      if j >= k {
        assert r[j] == tasks[j + 1];
      }
    }
    if !tasks[k].Revealing? && HasReveal(tasks) {
      var j :| 0 <= j < |tasks| && tasks[j].Revealing?;
      if j < k {
        assert r[j] == tasks[j];
      } else {
        assert r[j - 1] == tasks[j];
      }
    }
  }

  lemma InitValid()
    ensures Valid(Init())
  {
  }

  lemma TickValid(s: State, k: nat)
    requires Valid(s)
    requires k < |s.tasks| && s.tasks[k].Revealing? && Typewriter.Consistent(s.tasks[k].typing)
    ensures Valid(TickReveal(s, k))
  {
    var r := TickReveal(s, k);
    var t := Typewriter.Tick(s.flags, s.tasks[k].typing);
    if |r.tasks| == |s.tasks| {
      ReplaceTask(s.tasks, k, r.tasks[k]);
      assert r.tasks == s.tasks[k := r.tasks[k]];
    } else {
      RemoveTask(s.tasks, k);
    }
  }

  lemma BeginValid(s: State, k: nat, text: string, turn: Turn)
    requires Valid(s) && IsWorking(s)
    requires k < |s.tasks| && !s.tasks[k].Revealing?
    ensures Valid(BeginReveal(s, k, text, turn))
  {
    var s1 := s.(flags := Typewriter.Started, tasks := s.tasks[k := Revealing(Typewriter.Fresh(text), turn)]);
    ReplaceTask(s.tasks, k, Revealing(Typewriter.Fresh(text), turn));
    assert s1.tasks[k].Revealing?;
    TickValid(s1, k);
  }

  lemma ConfirmValid(s: State, raw: string)
    requires Valid(s)
    ensures Valid(Step(s, ConfirmPrompt(raw)))
  {
    var r := Step(s, ConfirmPrompt(raw));
    if s.flags.generating && r.tasks != s.tasks {
      var j :| 0 <= j < |s.tasks| && s.tasks[j].Revealing?;
      assert r.tasks[j] == s.tasks[j];
    }
  }

  lemma PlanReplyValid(s: State, k: nat, plan: Option<Plan>)
    requires Valid(s)
    ensures Valid(Step(s, PlanReply(k, plan)))
  {
    if k < |s.tasks| && s.tasks[k].AwaitPlan? {
      if plan.Some? {
        var p := plan.value;
        if JsString.StartsWith(p.response, SearchMarker) {
          ReplaceTask(s.tasks, k, AwaitSearch(JsString.Trim(p.response[|SearchMarker|..])));
        } else if s.active.None? || s.active.value !in s.histories {
          RemoveTask(s.tasks, k);
        } else {
          var b := s.active.value;
          var s1 := SetAi(s.(histories := s.histories[b := s.histories[b] + [Entry(Model, p.raw)]]), Generating);
          BeginValid(s1, k, p.response, Planned(p.suggestions, p.exportable));
        }
      } else {
        RemoveTask(s.tasks, k);
      }
    }
  }

  lemma SearchReplyValid(s: State, k: nat, text: Option<string>)
    requires Valid(s)
    ensures Valid(Step(s, SearchReply(k, text)))
  {
    if k < |s.tasks| && s.tasks[k].AwaitSearch? {
      RemoveTask(s.tasks, k);
      if text.Some? && !(s.active.Some? && s.active.value !in s.histories) {
        var s1 := if s.active.Some? then
                    var b := s.active.value;
                    s.(histories := s.histories[b := s.histories[b] + [Entry(Model, text.value)]])
                  else s;
        BeginValid(SetAi(s1, Generating), k, text.value, Searched);
      }
    }
  }

  lemma TimerTickValid(s: State, k: nat)
    requires Valid(s)
    ensures Valid(Step(s, TimerTick(k)))
  {
    if k < |s.tasks| && s.tasks[k].Revealing? && Typewriter.Consistent(s.tasks[k].typing) {
      TickValid(s, k);
    }
  }

  lemma VisualDoneValid(s: State, k: nat)
    requires Valid(s)
    ensures Valid(Step(s, VisualDone(k)))
  {
    if k < |s.tasks| && s.tasks[k].AwaitVisual? {
      RemoveTask(s.tasks, k);
    }
  }

  /** Every event keeps the page valid. */
  lemma StepValid(s: State, e: Event)
    requires Valid(s)
    ensures Valid(Step(s, e))
  {
    match e
    case ChooseBranch(id) =>
    case ConfirmPrompt(raw) => ConfirmValid(s, raw);
    case PlanReply(k, plan) => PlanReplyValid(s, k, plan);
    case SearchReply(k, text) => SearchReplyValid(s, k, text);
    case TimerTick(k) => TimerTickValid(s, k);
    case VisualDone(k) => VisualDoneValid(s, k);
    case StopClicked =>
    case BackClicked =>
    case Resized =>
    case AnimationFrame(roll, a, b, arrived) =>
  }

  /** Any run of events from a valid page leaves it valid; in particular
      every page reachable from `init()` is valid. */
  lemma {:induction false} RunValid(s: State, es: seq<Event>)
    requires Valid(s)
    ensures Valid(Run(s, es))
    decreases |es|
  {
    if es != [] {
      StepValid(s, es[0]);
      RunValid(Step(s, es[0]), es[1..]);
    }
  }

  /** The pulse cap, read off the invariant for any reachable page. */
  lemma ReachablePulsesCapped(es: seq<Event>)
    ensures |Run(Init(), es).pulses| <= DataPulses.MaxPulses
    ensures !IsWorking(Run(Init(), es)) ==> Run(Init(), es).pulses == []
  {
    InitValid();
    RunValid(Init(), es);
  }

  /** Only the history of the branch that is active when an event happens
      can change: every other branch's history, and whether it exists,
      stays as it was. */
  lemma StepTouchesOnlyActive(s: State, e: Event, b: string)
    requires s.active != Some(b)
    ensures (b in Step(s, e).histories <==> b in s.histories)
    ensures b in s.histories ==> Step(s, e).histories[b] == s.histories[b]
  {
  }
}
