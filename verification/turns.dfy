/**
 * Whole conversation turns, from a confirmed prompt to the page's return to
 * the input view, when nothing else happens in between: the history entries
 * each kind of turn leaves behind, and the state every outcome ends in.
 */
module Turns {
  import opened Options
  import opened JsString
  import opened Controller
  import Footer
  import Typewriter

  /** A page waiting for a prompt on branch `b`: a chat exists, the AI is
      idle and nothing is in flight. */
  predicate Ready(s: State, b: string) {
    s.chat && s.active == Some(b) && !IsWorking(s) && s.tasks == []
  }

  /** `n` timer ticks of the only continuation. */
  function Ticks(n: nat): (es: seq<Event>)
    ensures |es| == n && forall j :: 0 <= j < n ==> es[j] == TimerTick(0)
  {
    seq(n, _ => TimerTick(0))
  }

  /** How the only continuation ends a reveal: the planning path waits for
      the visual task next, the search path is back at input already. */
  function Finished(s: State, turn: Turn, completed: bool, stopping: bool): State
    requires |s.tasks| == 1
  {
    var s1 := s.(flags := Typewriter.Flags(false, stopping));
    match turn
    case Planned(sg, ex) => s1.(tasks := [AwaitVisual(completed, sg, ex)])
    case Searched => UpdateUi(s1.(tasks := []), Input)
  }

  lemma PushTwice(m: map<string, seq<Entry>>, b: string, h: seq<Entry>, u: Entry, x: Entry)
    ensures m[b := h + [u]][b := (h + [u]) + [x]] == m[b := h + [u, x]]
  {
    assert (h + [u]) + [x] == h + [u, x];
  }

  lemma RunOne(s: State, e: Event)
    ensures Run(s, [e]) == Step(s, e)
  {
    assert [e][1..] == [];
  }

  lemma TicksSplit(n: nat)
    requires n > 0
    ensures Ticks(n) == [TimerTick(0)] + Ticks(n - 1)
    ensures Ticks(n) == Ticks(n - 1) + [TimerTick(0)]
  {
  }

  /** Ticks that do not reach the end of the text each show one more character. */
  lemma {:induction false} TypingTicks(s: State, rev: Typewriter.Reveal, turn: Turn, n: nat)
    requires s.tasks == [Revealing(rev, turn)] && Typewriter.Consistent(rev) && s.flags == Typewriter.Started
    requires rev.i + n <= |rev.text|
    ensures Run(s, Ticks(n))
         == s.(tasks := [Revealing(Typewriter.Reveal(rev.text, rev.i + n, rev.text[..rev.i + n]), turn)])
    decreases n
  {
    if n == 0 {
      assert Ticks(0) == [];
    } else {
      var rev1 := Typewriter.Reveal(rev.text, rev.i + 1, rev.text[..rev.i + 1]);
      var s1 := Step(s, TimerTick(0));
      assert s1 == s.(tasks := [Revealing(rev1, turn)]);
      TicksSplit(n);
      assert Ticks(n)[0] == TimerTick(0) && Ticks(n)[1..] == Ticks(n - 1);
      TypingTicks(s1, rev1, turn, n - 1);
    }
  }

  /** The first `type()` call of a reveal is its first tick. */
  lemma BeginIsTick(s: State, text: string, turn: Turn)
    requires |s.tasks| == 1
    ensures var s0 := s.(flags := Typewriter.Started, tasks := [Revealing(Typewriter.Fresh(text), turn)]);
            BeginReveal(s, 0, text, turn) == Step(s0, TimerTick(0))
  {
    assert s.tasks[0 := Revealing(Typewriter.Fresh(text), turn)] == [Revealing(Typewriter.Fresh(text), turn)];
  }

  /** Whatever follows a reveal's start runs as if its first tick came first. */
  lemma BeginThen(s: State, text: string, turn: Turn, es: seq<Event>)
    requires |s.tasks| == 1
    ensures var s0 := s.(flags := Typewriter.Started, tasks := [Revealing(Typewriter.Fresh(text), turn)]);
            Run(BeginReveal(s, 0, text, turn), es) == Run(s0, [TimerTick(0)] + es)
  {
    BeginIsTick(s, text, turn);
    assert ([TimerTick(0)] + es)[0] == TimerTick(0);
    assert ([TimerTick(0)] + es)[1..] == es;
  }

  /** One tick per character types the whole text. */
  lemma TypedAll(s: State, text: string, turn: Turn)
    ensures var s0 := s.(flags := Typewriter.Started, tasks := [Revealing(Typewriter.Fresh(text), turn)]);
            Run(s0, Ticks(|text|)) == s0.(tasks := [Revealing(Typewriter.Reveal(text, |text|, text), turn)])
  {
    var s0 := s.(flags := Typewriter.Started, tasks := [Revealing(Typewriter.Fresh(text), turn)]);
    TypingTicks(s0, Typewriter.Fresh(text), turn, |text|);
    assert text[..|text|] == text;
  }

  /** Left alone, a reveal ends after one tick per character, completed. */
  lemma RevealRunsOut(s: State, text: string, turn: Turn)
    requires |s.tasks| == 1
    ensures Run(BeginReveal(s, 0, text, turn), Ticks(|text|)) == Finished(s, turn, true, false)
  {
    BeginThen(s, text, turn, Ticks(|text|));
    TicksSplit(|text| + 1);
    TypedThenEnd(s, text, turn);
  }

  lemma TypedThenEnd(s: State, text: string, turn: Turn)
    requires |s.tasks| == 1
    ensures var s0 := s.(flags := Typewriter.Started, tasks := [Revealing(Typewriter.Fresh(text), turn)]);
            Run(s0, Ticks(|text|) + [TimerTick(0)]) == Finished(s, turn, true, false)
  {
    var s0 := s.(flags := Typewriter.Started, tasks := [Revealing(Typewriter.Fresh(text), turn)]);
    RunAppend(s0, Ticks(|text|), [TimerTick(0)]);
    TypedAll(s, text, turn);
    RunOne(s0.(tasks := [Revealing(Typewriter.Reveal(text, |text|, text), turn)]), TimerTick(0));
  }

  /** A stop after the `k`-th character ends the reveal at the next tick, not completed. */
  lemma RevealStopped(s: State, text: string, turn: Turn, k: nat)
    requires |s.tasks| == 1 && 0 < k <= |text|
    ensures Run(BeginReveal(s, 0, text, turn), Ticks(k - 1) + [StopClicked, TimerTick(0)])
         == Finished(s, turn, false, true)
  {
    var tail := [StopClicked, TimerTick(0)];
    BeginThen(s, text, turn, Ticks(k - 1) + tail);
    TicksSplit(k);
    assert [TimerTick(0)] + (Ticks(k - 1) + tail) == Ticks(k) + tail;
    TypedThenStop(s, text, turn, k);
  }

  lemma TypedThenStop(s: State, text: string, turn: Turn, k: nat)
    requires |s.tasks| == 1 && 0 < k <= |text|
    ensures var s0 := s.(flags := Typewriter.Started, tasks := [Revealing(Typewriter.Fresh(text), turn)]);
            Run(s0, Ticks(k) + [StopClicked, TimerTick(0)]) == Finished(s, turn, false, true)
  {
    var s0 := s.(flags := Typewriter.Started, tasks := [Revealing(Typewriter.Fresh(text), turn)]);
    RunAppend(s0, Ticks(k), [StopClicked, TimerTick(0)]);
    TypingTicks(s0, Typewriter.Fresh(text), turn, k);
    StopThenTick(s, text, turn, k);
  }

  /** A stop in the middle of typing ends the reveal at the next tick. */
  lemma StopThenTick(s: State, text: string, turn: Turn, k: nat)
    requires |s.tasks| == 1 && 0 < k <= |text|
    ensures var s1 := s.(flags := Typewriter.Started, tasks := [Revealing(Typewriter.Reveal(text, k, text[..k]), turn)]);
            Run(s1, [StopClicked, TimerTick(0)]) == Finished(s, turn, false, true)
  {
    var s1 := s.(flags := Typewriter.Started, tasks := [Revealing(Typewriter.Reveal(text, k, text[..k]), turn)]);
    var s2 := Step(s1, StopClicked);
    assert s2 == s1.(flags := Typewriter.Flags(true, true));
    assert [StopClicked, TimerTick(0)][1..] == [TimerTick(0)];
    RunOne(s2, TimerTick(0));
  }

  lemma RunTwo(s: State, e1: Event, e2: Event)
    ensures Run(s, [e1, e2]) == Step(Step(s, e1), e2)
  {
    assert [e1, e2][1..] == [e2];
    RunOne(Step(s, e1), e2);
  }

  lemma RunThree(s: State, e1: Event, e2: Event, e3: Event)
    ensures Run(s, [e1, e2, e3]) == Step(Step(Step(s, e1), e2), e3)
  {
    assert [e1, e2, e3][1..] == [e2, e3];
    RunTwo(Step(s, e1), e2, e3);
  }

  /** The page just after a prompt `p` is confirmed on a ready page. */
  function Asked(s: State, b: string, p: string): State {
    s.(ui := Working, ai := Analyzing, footer := None,
       histories := s.histories[b := HistoryOf(s, b) + [Entry(User, p)]], tasks := [AwaitPlan(p)])
  }

  /** Confirming a non-empty prompt on a ready page pushes it and waits for the plan. */
  lemma ConfirmAsks(s: State, b: string, raw: string)
    requires Ready(s, b) && Trim(raw) != []
    ensures Step(s, ConfirmPrompt(raw)) == Asked(s, b, Trim(raw))
  {
  }

  /** The query of a planning reply that asks for a search. */
  function Query(plan: Plan): string
    requires StartsWith(plan.response, SearchMarker)
  {
    Trim(plan.response[|SearchMarker|..])
  }

  /** The page once a search for `q` is pending. */
  function AwaitingSearch(s: State, b: string, p: string, q: string): State {
    Asked(s, b, p).(ai := Searching, tasks := [AwaitSearch(q)])
  }

  /** The page once the answer `m` to prompt `p` is on the history and
      is about to be revealed. */
  function Answering(s: State, b: string, p: string, m: Entry): State {
    s.(ui := Working, ai := Generating, footer := None,
       histories := s.histories[b := HistoryOf(s, b) + [Entry(User, p), m]], tasks := [AwaitPlan(p)])
  }

  /** A `SEARCHING::` plan turns the pending planning request into a
      pending search for its query; the history is not touched. */
  lemma PlanStartsSearch(s: State, b: string, p: string, plan: Plan)
    requires StartsWith(plan.response, SearchMarker)
    ensures Step(Asked(s, b, p), PlanReply(0, Some(plan))) == AwaitingSearch(s, b, p, Query(plan))
  {
    var s1 := Asked(s, b, p);
    assert Step(s1, PlanReply(0, Some(plan))) == PlanArrives(s1, 0, plan);
    assert s1.tasks[0 := AwaitSearch(Query(plan))] == [AwaitSearch(Query(plan))];
  }

  /** Any other plan joins the prompt on the history, raw, and its answer
      starts to be revealed. */
  lemma PlanStartsReveal(s: State, b: string, p: string, plan: Plan)
    requires s.active == Some(b) && !StartsWith(plan.response, SearchMarker)
    ensures Step(Asked(s, b, p), PlanReply(0, Some(plan)))
         == BeginReveal(Answering(s, b, p, Entry(Model, plan.raw)), 0, plan.response,
                        Planned(plan.suggestions, plan.exportable))
  {
    var s1 := Asked(s, b, p);
    var h := HistoryOf(s, b) + [Entry(User, p)];
    assert Step(s1, PlanReply(0, Some(plan))) == PlanArrives(s1, 0, plan);
    PushTwice(s.histories, b, HistoryOf(s, b), Entry(User, p), Entry(Model, plan.raw));
    assert SetAi(s1.(histories := s1.histories[b := h + [Entry(Model, plan.raw)]]), Generating)
        == Answering(s, b, p, Entry(Model, plan.raw));
  }

  /** A failed planning request pops the prompt again and returns to input. */
  lemma PlanFailRestores(s: State, b: string, p: string)
    requires s.active == Some(b)
    ensures Step(Asked(s, b, p), PlanReply(0, None))
         == UpdateUi(Asked(s, b, p).(histories := s.histories[b := HistoryOf(s, b)], tasks := []), Input)
  {
    var s1 := Asked(s, b, p);
    assert Step(s1, PlanReply(0, None)) == PlanFails(s1, 0);
    assert Pop(HistoryOf(s, b) + [Entry(User, p)]) == HistoryOf(s, b);
    assert RemoveAt(s1.tasks, 0) == [];
    assert s1.histories[b := HistoryOf(s, b)] == s.histories[b := HistoryOf(s, b)];
  }

  /** The search answer joins the prompt on the history and starts to be
      revealed; the search continuation stays until the reveal ends. */
  lemma SearchTextArrives(s: State, b: string, p: string, q: string, text: string)
    requires s.active == Some(b)
    ensures Step(AwaitingSearch(s, b, p, q), SearchReply(0, Some(text)))
         == BeginReveal(Answering(s, b, p, Entry(Model, text)).(tasks := [AwaitSearch(q)]), 0, text, Searched)
  {
    var s2 := AwaitingSearch(s, b, p, q);
    var h := HistoryOf(s, b) + [Entry(User, p)];
    assert Step(s2, SearchReply(0, Some(text))) == SearchArrives(s2, 0, text);
    PushTwice(s.histories, b, HistoryOf(s, b), Entry(User, p), Entry(Model, text));
    assert SetAi(s2.(histories := s2.histories[b := h + [Entry(Model, text)]]), Generating)
        == Answering(s, b, p, Entry(Model, text)).(tasks := [AwaitSearch(q)]);
  }

  /** A failed search returns to input and leaves the prompt on the history. */
  lemma SearchFailKeeps(s: State, b: string, p: string, q: string)
    ensures Step(AwaitingSearch(s, b, p, q), SearchReply(0, None))
         == UpdateUi(AwaitingSearch(s, b, p, q).(tasks := []), Input)
  {
    var s2 := AwaitingSearch(s, b, p, q);
    assert Step(s2, SearchReply(0, None)) == SearchFails(s2, 0);
    assert RemoveAt(s2.tasks, 0) == [];
  }

  /** A planning reply that is not a search is stored and its reveal begins. */
  lemma PlanAnswered(s: State, b: string, raw: string, plan: Plan)
    requires Ready(s, b) && Trim(raw) != [] && !StartsWith(plan.response, SearchMarker)
    ensures Run(s, [ConfirmPrompt(raw), PlanReply(0, Some(plan))])
         == BeginReveal(Answering(s, b, Trim(raw), Entry(Model, plan.raw)), 0, plan.response,
                        Planned(plan.suggestions, plan.exportable))
  {
    RunTwo(s, ConfirmPrompt(raw), PlanReply(0, Some(plan)));
    ConfirmAsks(s, b, raw);
    PlanStartsReveal(s, b, Trim(raw), plan);
  }

  /** The answer of a planning turn fully revealed, waiting for its visual task. */
  function Revealed(s: State, b: string, raw: string, plan: Plan, completed: bool, stopping: bool): State {
    Answering(s, b, Trim(raw), Entry(Model, plan.raw)).(
      flags := Typewriter.Flags(false, stopping),
      tasks := [AwaitVisual(completed, plan.suggestions, plan.exportable)])
  }

  /** Left alone, a planning turn that is not a search reveals its whole answer. */
  lemma PlannedRevealRunsOut(s: State, b: string, raw: string, plan: Plan)
    requires Ready(s, b) && Trim(raw) != [] && !StartsWith(plan.response, SearchMarker)
    ensures Run(s, [ConfirmPrompt(raw), PlanReply(0, Some(plan))] + Ticks(|plan.response|))
         == Revealed(s, b, raw, plan, true, false)
  {
    var pre := [ConfirmPrompt(raw), PlanReply(0, Some(plan))];
    var a := Answering(s, b, Trim(raw), Entry(Model, plan.raw));
    PlanAnswered(s, b, raw, plan);
    RunAppend(s, pre, Ticks(|plan.response|));
    RevealRunsOut(a, plan.response, Planned(plan.suggestions, plan.exportable));
  }

  /** A successful turn that is not a search leaves exactly two new entries
      on the branch's history, the prompt and the raw planning reply; the
      page is back at input, idle, with the answer's footer. */
  lemma PlannedTurnSucceeds(s: State, b: string, raw: string, plan: Plan)
    requires Ready(s, b) && Trim(raw) != [] && !StartsWith(plan.response, SearchMarker)
    ensures var f := Run(s, [ConfirmPrompt(raw), PlanReply(0, Some(plan))] + Ticks(|plan.response|) + [VisualDone(0)]);
            && f.histories == s.histories[b := HistoryOf(s, b) + [Entry(User, Trim(raw)), Entry(Model, plan.raw)]]
            && f.ui == Input && !IsWorking(f) && f.pulses == [] && f.tasks == []
            && f.active == Some(b) && !f.flags.generating
            && f.footer == Footer.Render(plan.suggestions, plan.exportable)
  {
    var pre := [ConfirmPrompt(raw), PlanReply(0, Some(plan))] + Ticks(|plan.response|);
    var d := Revealed(s, b, raw, plan, true, false);
    PlannedRevealRunsOut(s, b, raw, plan);
    RunAppend(s, pre, [VisualDone(0)]);
    RunOne(d, VisualDone(0));
    Settles(d);
  }

  /** Settling the only continuation, a visual task, ends the turn. */
  lemma Settles(d: State)
    requires |d.tasks| == 1 && d.tasks[0].AwaitVisual? && d.footer.None? && !d.flags.generating
    ensures var f := Step(d, VisualDone(0));
            && f.histories == d.histories && f.active == d.active && f.flags == d.flags
            && f.ui == Input && !IsWorking(f) && f.pulses == [] && f.tasks == []
            && f.footer == (if d.tasks[0].completed then Footer.Render(d.tasks[0].suggestions, d.tasks[0].exportable) else None)
  {
  }

  /** A failed planning request takes the prompt back off the history: the
      branch's history is what it was (an empty one if it had none), and
      the page is back at input, idle. */
  lemma PlannedTurnFails(s: State, b: string, raw: string)
    requires Ready(s, b) && Trim(raw) != []
    ensures var f := Run(s, [ConfirmPrompt(raw), PlanReply(0, None)]);
            && f.histories == s.histories[b := HistoryOf(s, b)]
            && f.ui == Input && !IsWorking(f) && f.pulses == [] && f.tasks == [] && f.active == Some(b)
  {
    RunTwo(s, ConfirmPrompt(raw), PlanReply(0, None));
    ConfirmAsks(s, b, raw);
    PlanFailRestores(s, b, Trim(raw));
  }

  /** A planning reply that asks for a search starts one for the rest of the
      reply, trimmed, and stores nothing more in the history. */
  lemma SearchIsRequested(s: State, b: string, raw: string, plan: Plan)
    requires Ready(s, b) && Trim(raw) != [] && StartsWith(plan.response, SearchMarker)
    ensures var f := Run(s, [ConfirmPrompt(raw), PlanReply(0, Some(plan))]);
            && f.tasks == [AwaitSearch(Trim(plan.response[|SearchMarker|..]))]
            && f.ai == Searching
            && f.histories == s.histories[b := HistoryOf(s, b) + [Entry(User, Trim(raw))]]
  {
    RunTwo(s, ConfirmPrompt(raw), PlanReply(0, Some(plan)));
    ConfirmAsks(s, b, raw);
    PlanStartsSearch(s, b, Trim(raw), plan);
  }

  /** A search answer is stored and its reveal begins. */
  lemma SearchAnswered(s: State, b: string, raw: string, plan: Plan, text: string)
    requires Ready(s, b) && Trim(raw) != [] && StartsWith(plan.response, SearchMarker)
    ensures Run(s, [ConfirmPrompt(raw), PlanReply(0, Some(plan)), SearchReply(0, Some(text))])
         == BeginReveal(Answering(s, b, Trim(raw), Entry(Model, text)).(tasks := [AwaitSearch(Trim(plan.response[|SearchMarker|..]))]),
                        0, text, Searched)
  {
    RunThree(s, ConfirmPrompt(raw), PlanReply(0, Some(plan)), SearchReply(0, Some(text)));
    ConfirmAsks(s, b, raw);
    PlanStartsSearch(s, b, Trim(raw), plan);
    SearchTextArrives(s, b, Trim(raw), Query(plan), text);
  }

  /** A successful search turn leaves the prompt and the search answer on
      the history, and the page back at input, idle. */
  lemma SearchTurnSucceeds(s: State, b: string, raw: string, plan: Plan, text: string)
    requires Ready(s, b) && Trim(raw) != [] && StartsWith(plan.response, SearchMarker)
    ensures var f := Run(s, [ConfirmPrompt(raw), PlanReply(0, Some(plan)), SearchReply(0, Some(text))] + Ticks(|text|));
            && f.histories == s.histories[b := HistoryOf(s, b) + [Entry(User, Trim(raw)), Entry(Model, text)]]
            && f.ui == Input && !IsWorking(f) && f.pulses == [] && f.tasks == [] && f.active == Some(b)
            && !f.flags.generating
  {
    var pre := [ConfirmPrompt(raw), PlanReply(0, Some(plan)), SearchReply(0, Some(text))];
    var a := Answering(s, b, Trim(raw), Entry(Model, text)).(tasks := [AwaitSearch(Trim(plan.response[|SearchMarker|..]))]);
    SearchAnswered(s, b, raw, plan, text);
    RunAppend(s, pre, Ticks(|text|));
    RevealRunsOut(a, text, Searched);
    var f := Finished(a, Searched, true, false);
    assert f.histories == a.histories && f.active == a.active;
  }

  /** A failed search does not take the prompt back: it stays on the
      history alone, and the page is back at input, idle. */
  lemma SearchTurnFails(s: State, b: string, raw: string, plan: Plan)
    requires Ready(s, b) && Trim(raw) != [] && StartsWith(plan.response, SearchMarker)
    ensures var f := Run(s, [ConfirmPrompt(raw), PlanReply(0, Some(plan)), SearchReply(0, None)]);
            && f.histories == s.histories[b := HistoryOf(s, b) + [Entry(User, Trim(raw))]]
            && f.ui == Input && !IsWorking(f) && f.pulses == [] && f.tasks == [] && f.active == Some(b)
  {
    RunThree(s, ConfirmPrompt(raw), PlanReply(0, Some(plan)), SearchReply(0, None));
    ConfirmAsks(s, b, raw);
    PlanStartsSearch(s, b, Trim(raw), plan);
    SearchFailKeeps(s, b, Trim(raw), Query(plan));
  }

  /** A turn stopped after the `k`-th character keeps both history entries,
      gets no footer, and also ends at input, idle. */
  lemma PlannedTurnStopped(s: State, b: string, raw: string, plan: Plan, k: nat)
    requires Ready(s, b) && Trim(raw) != [] && !StartsWith(plan.response, SearchMarker)
    requires 0 < k <= |plan.response|
    ensures var f := Run(s, [ConfirmPrompt(raw), PlanReply(0, Some(plan))] + Ticks(k - 1)
                            + [StopClicked, TimerTick(0), VisualDone(0)]);
            && f.histories == s.histories[b := HistoryOf(s, b) + [Entry(User, Trim(raw)), Entry(Model, plan.raw)]]
            && f.ui == Input && !IsWorking(f) && f.pulses == [] && f.tasks == []
            && f.footer.None? && !f.flags.generating
  {
    var pre := [ConfirmPrompt(raw), PlanReply(0, Some(plan))];
    var mid := Ticks(k - 1) + [StopClicked, TimerTick(0)];
    var d := Revealed(s, b, raw, plan, false, true);
    assert Run(s, pre + mid) == d by {
      var a := Answering(s, b, Trim(raw), Entry(Model, plan.raw));
      PlanAnswered(s, b, raw, plan);
      RunAppend(s, pre, mid);
      RevealStopped(a, plan.response, Planned(plan.suggestions, plan.exportable), k);
    }
    assert pre + Ticks(k - 1) + [StopClicked, TimerTick(0), VisualDone(0)] == (pre + mid) + [VisualDone(0)];
    RunAppend(s, pre + mid, [VisualDone(0)]);
    RunOne(d, VisualDone(0));
    Settles(d);
  }
}
