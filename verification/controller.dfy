/**
 * The conversation controller: the globals the script keeps (`uiState` as
 * the body class, `isWorking`, `activeBranchId`, `chat`, `chatHistories`,
 * the data pulses, `isGeneratingText`/`isStopping`, the answer footer,
 * whether an animation frame is pending) and one pure transition per thing
 * that can happen.
 *
 * The handlers are asynchronous. Each `await` or `setTimeout` is a point
 * where the handler stops and the page goes on, so the model keeps the
 * suspended continuations as `tasks`, and the reply, tick or settling that
 * resumes one is an event of its own, naming the task by its position.
 * A resumed continuation reads the globals as they are then, not as they
 * were when it started: the user may have gone back or switched branch.
 */
module Controller {
  import opened Options
  import opened JsString
  import Footer
  import DataPulses
  import Typewriter

  /** The three body classes `updateUiState` switches between. */
  datatype UiState = Initial | Input | Working

  /** `AiState`; nothing in the script ever sets `Visualizing`. */
  datatype AiState = Idle | Searching | Generating | Analyzing | Visualizing

  datatype Role = User | Model

  /** One history message: who said it and its single text part. */
  datatype Entry = Entry(role: Role, text: string)

  /** The ids of the four branch cards. */
  const Branches: set<string> := {"general", "science", "art", "business"}

  /** A planning answer that begins with this asks for a web search. */
  const SearchMarker: string := "SEARCHING::"

  /** Which callback a reveal was started with: the planning path's, which
      waits for the visual task and renders the footer, or the search path's. */
  datatype Turn = Planned(suggestions: Option<seq<string>>, exportable: bool) | Searched

  /** A suspended continuation. */
  datatype Task =
    | AwaitPlan(prompt: string)
    | AwaitSearch(query: string)
    | Revealing(typing: Typewriter.Reveal, turn: Turn)
    | AwaitVisual(completed: bool, suggestions: Option<seq<string>>, exportable: bool)

  datatype State = State(
    ui: UiState,
    ai: AiState,
    active: Option<string>,
    chat: bool,
    histories: map<string, seq<Entry>>,
    pulses: seq<DataPulses.Pulse>,
    flags: Typewriter.Flags,
    footer: Option<seq<Footer.Button>>,
    tasks: seq<Task>,
    animating: bool)

  /** The fields of a planning reply the controller uses: the raw JSON text
      stored in the history, the `response` text, and the footer inputs. */
  datatype Plan = Plan(raw: string, response: string, suggestions: Option<seq<string>>, exportable: bool)

  /** `isWorking`, which `setAiState` keeps equal to "not idle". */
  predicate IsWorking(s: State) {
    s.ai != Idle
  }

  /** `chatHistories[b] || []`. */
  function HistoryOf(s: State, b: string): seq<Entry> {
    if b in s.histories then s.histories[b] else []
  }

  /** `Array.prototype.pop` on a history: the last entry goes, if any. */
  function Pop(h: seq<Entry>): (r: seq<Entry>)
    ensures h == [] ==> r == []
    ensures h != [] ==> |r| == |h| - 1 && h == r + [h[|h| - 1]]
  {
    if h == [] then [] else h[..|h| - 1]
  }

  function RemoveAt<T>(xs: seq<T>, k: nat): (r: seq<T>)
    requires k < |xs|
    ensures |r| == |xs| - 1
    ensures forall j :: 0 <= j < k ==> r[j] == xs[j]
    ensures forall j :: k <= j < |r| ==> r[j] == xs[j + 1]
  {
    xs[..k] + xs[k + 1..]
  }

  /** `setAiState`: going idle also drops every data pulse. */
  function SetAi(s: State, a: AiState): (r: State)
    ensures r.ai == a && (IsWorking(r) <==> a != Idle)
    ensures a == Idle ==> r.pulses == []
    ensures r == s.(ai := a, pulses := r.pulses)
    ensures a != Idle ==> r.pulses == s.pulses
  {
    if a == Idle then s.(ai := Idle, pulses := []) else s.(ai := a)
  }

  /** `updateUiState`. Going back to the start forgets the branch and the
      chat; both the start and the input view end all work. */
  function UpdateUi(s: State, u: UiState): (r: State)
    ensures r.ui == u
    ensures u != Working ==> r.ai == Idle && r.pulses == []
    ensures u == Initial ==> r.active.None? && !r.chat
    ensures u != Initial ==> r.active == s.active && r.chat == s.chat
    ensures u == Working ==> r == s.(ui := Working)
    ensures r.histories == s.histories && r.tasks == s.tasks && r.flags == s.flags && r.footer == s.footer
    ensures r.animating == s.animating
  {
    match u
    case Initial => SetAi(s.(ui := Initial, active := None, chat := false), Idle)
    case Input => SetAi(s.(ui := Input), Idle)
    case Working => s.(ui := Working)
  }

  /** The page as the first `init()` leaves it: `animationFrameId` is not
      yet set, so the animation loop is started. */
  function Init(): (r: State)
    ensures r.ui == Initial && !IsWorking(r) && r.active.None? && !r.chat
    ensures r.histories == map[] && r.tasks == [] && !r.flags.generating
    ensures r.animating
  {
    UpdateUi(State(Initial, Idle, None, false, map[], [], Typewriter.Flags(false, false), None, [], true), Initial)
  }

  /** `selectBranch`: the branch becomes active with a fresh chat, the
      transcript (and with it any footer) is replaced by the replayed
      history, and the input view is shown. The histories are only read. */
  function SelectBranch(s: State, id: string): (r: State)
    requires id in Branches
    ensures r.active == Some(id) && r.chat
    ensures r.ui == Input && !IsWorking(r) && r.pulses == []
    ensures r.histories == s.histories && r.tasks == s.tasks && r.flags == s.flags
    ensures r.footer.None?
    ensures r.animating == s.animating
  {
    UpdateUi(s.(active := Some(id), chat := true, footer := None), Input)
  }

  /** What `sendMessageToAI` does before its first `await`: without a chat
      or a branch nothing at all; otherwise the old footer goes, the AI is
      analyzing, the prompt is pushed onto the branch's history (created
      empty if missing), and the planning request is pending. */
  function Send(s: State, p: string): (r: State)
    ensures !s.chat || s.active.None? ==> r == s
    ensures s.chat && s.active.Some? ==>
              && r.histories == s.histories[s.active.value := HistoryOf(s, s.active.value) + [Entry(User, p)]]
              && r.tasks == s.tasks + [AwaitPlan(p)]
              && r.ai == Analyzing && r.footer.None?
              && r.ui == s.ui && r.active == s.active && r.chat && r.flags == s.flags
              && r.pulses == s.pulses
    ensures r.animating == s.animating
  {
    if !s.chat || s.active.None? then s
    else
      var b := s.active.value;
      var s1 := SetAi(s.(footer := None), Analyzing);
      s1.(histories := s.histories[b := HistoryOf(s, b) + [Entry(User, p)]], tasks := s.tasks + [AwaitPlan(p)])
  }

  /** `handleConfirm`: an empty (after trimming) prompt, or a prompt while
      the AI works, is ignored; otherwise the view goes to working and the
      trimmed prompt is sent. */
  function Confirm(s: State, raw: string): (r: State)
    ensures Trim(raw) == [] || IsWorking(s) ==> r == s
    ensures Trim(raw) != [] && !IsWorking(s) ==> r.ui == Working
    ensures Trim(raw) != [] && !IsWorking(s) && s.chat && s.active.Some? ==>
              && s.active.value in r.histories
              && r.histories[s.active.value] == HistoryOf(s, s.active.value) + [Entry(User, Trim(raw))]
              && r.tasks == s.tasks + [AwaitPlan(Trim(raw))]
              && IsWorking(r)
    ensures Trim(raw) != [] && !IsWorking(s) && !(s.chat && s.active.Some?) ==> r == s.(ui := Working)
    ensures r.animating == s.animating
  {
    var p := Trim(raw);
    if p == [] || IsWorking(s) then s else Send(UpdateUi(s, Working), p)
  }

  /** `typewriterEffect`: set the flags, put the reveal in task `k`'s place,
      and run `type()` once straight away. A non-empty answer is then being
      typed with its first character shown; an empty one ends at once as a
      completed reveal, so the planning path awaits the visual task and the
      search path is back at the input view. */
  function BeginReveal(s: State, k: nat, text: string, turn: Turn): (r: State)
    requires k < |s.tasks|
    ensures r.histories == s.histories && r.active == s.active && r.chat == s.chat && r.footer == s.footer
    ensures r.flags == Typewriter.Flags(text != [], false)
    ensures text != [] ==>
              && r.tasks == s.tasks[k := Revealing(Typewriter.Reveal(text, 1, text[..1]), turn)]
              && r.ui == s.ui && r.ai == s.ai && r.pulses == s.pulses
    ensures text == [] && turn.Planned? ==>
              && r.tasks == s.tasks[k := AwaitVisual(true, turn.suggestions, turn.exportable)]
              && r.ui == s.ui && r.ai == s.ai && r.pulses == s.pulses
    ensures text == [] && turn.Searched? ==>
              && r.tasks == RemoveAt(s.tasks, k)
              && r.ui == Input && r.ai == Idle && r.pulses == []
    ensures r.animating == s.animating
  {
    var s1 := s.(flags := Typewriter.Started, tasks := s.tasks[k := Revealing(Typewriter.Fresh(text), turn)]);
    TickReveal(s1, k)
  }

  /** One `type()` call of the reveal in task `k`. When it ends, the
      planning path's callback next awaits the visual task; the search
      path's callback returns to the input view at once. */
  function TickReveal(s: State, k: nat): (r: State)
    requires k < |s.tasks| && s.tasks[k].Revealing? && Typewriter.Consistent(s.tasks[k].typing)
    ensures r.histories == s.histories && r.active == s.active && r.chat == s.chat
    ensures |r.tasks| == |s.tasks| || r.tasks == RemoveAt(s.tasks, k)
    ensures r.tasks == RemoveAt(s.tasks, k) ==> r.ui == Input && r.ai == Idle && r.pulses == []
    ensures r.tasks == RemoveAt(s.tasks, k) || (r.pulses == s.pulses && r.ai == s.ai && r.ui == s.ui)
    ensures r.flags.generating ==> |r.tasks| == |s.tasks| && r.tasks[k].Revealing? && Typewriter.Consistent(r.tasks[k].typing)
    ensures forall j :: 0 <= j < |s.tasks| && j != k && |r.tasks| == |s.tasks| ==> r.tasks[j] == s.tasks[j]
    ensures !s.flags.generating ==> !r.flags.generating
    ensures r.animating == s.animating
    ensures var rev := s.tasks[k].typing;
            !s.flags.stopping && rev.i < |rev.text| ==>
              && r.flags == s.flags
              && r.tasks == s.tasks[k := Revealing(Typewriter.Reveal(rev.text, rev.i + 1, rev.text[..rev.i + 1]), s.tasks[k].turn)]
    ensures var rev := s.tasks[k].typing;
            var turn := s.tasks[k].turn;
            (s.flags.stopping || rev.i == |rev.text|) && turn.Planned? ==>
              && r.flags == Typewriter.Flags(false, s.flags.stopping)
              && r.tasks == s.tasks[k := AwaitVisual(!s.flags.stopping, turn.suggestions, turn.exportable)]
              && r.ui == s.ui && r.ai == s.ai && r.pulses == s.pulses
    ensures var rev := s.tasks[k].typing;
            (s.flags.stopping || rev.i == |rev.text|) && s.tasks[k].turn.Searched? ==>
              && r.flags == Typewriter.Flags(false, s.flags.stopping)
              && r.tasks == RemoveAt(s.tasks, k)
              && r.ui == Input && r.ai == Idle && r.pulses == []
  {
    var t := Typewriter.Tick(s.flags, s.tasks[k].typing);
    var turn := s.tasks[k].turn;
    match t.step
    case Typing(rev) => s.(flags := t.flags, tasks := s.tasks[k := Revealing(rev, turn)])
    case Done(_, completed) =>
      match turn
      case Planned(sg, ex) => s.(flags := t.flags, tasks := s.tasks[k := AwaitVisual(completed, sg, ex)])
      case Searched => UpdateUi(s.(flags := t.flags, tasks := RemoveAt(s.tasks, k)), Input)
  }

  /** The planning reply arrives for task `k`. A search request hands over
      to `performWebSearch` with the trimmed rest of the answer as the query.
      Otherwise the raw reply is pushed onto the history of the branch
      active NOW and the answer is revealed; if that history does not exist
      the push throws, and so does the `pop` in the error handler, so nothing
      else happens. */
  function PlanArrives(s: State, k: nat, plan: Plan): (r: State)
    requires k < |s.tasks| && s.tasks[k].AwaitPlan?
    ensures StartsWith(plan.response, SearchMarker) ==>
              r == s.(ai := Searching, tasks := s.tasks[k := AwaitSearch(Trim(plan.response[|SearchMarker|..]))])
    ensures !StartsWith(plan.response, SearchMarker) && (s.active.None? || s.active.value !in s.histories) ==>
              r == s.(tasks := RemoveAt(s.tasks, k))
    ensures !StartsWith(plan.response, SearchMarker) && s.active.Some? && s.active.value in s.histories ==>
              && r.histories == s.histories[s.active.value := s.histories[s.active.value] + [Entry(Model, plan.raw)]]
              && r.ai == Generating && r.ui == s.ui && r.pulses == s.pulses
              && r.flags == Typewriter.Flags(plan.response != [], false)
              && r.tasks == s.tasks[k := if plan.response != []
                                         then Revealing(Typewriter.Reveal(plan.response, 1, plan.response[..1]),
                                                        Planned(plan.suggestions, plan.exportable))
                                         else AwaitVisual(true, plan.suggestions, plan.exportable)]
    ensures r.animating == s.animating
  {
    if StartsWith(plan.response, SearchMarker) then
      var query := Trim(plan.response[|SearchMarker|..]);
      SetAi(s, Searching).(tasks := s.tasks[k := AwaitSearch(query)])
    else if s.active.None? || s.active.value !in s.histories then
      s.(tasks := RemoveAt(s.tasks, k))
    else
      var b := s.active.value;
      var s1 := SetAi(s.(histories := s.histories[b := s.histories[b] + [Entry(Model, plan.raw)]]), Generating);
      BeginReveal(s1, k, plan.response, Planned(plan.suggestions, plan.exportable))
  }

  /** The planning request fails (network, JSON or missing field): the
      error handler pops the history of the branch active now and returns
      to input; with no such history the `pop` itself throws and nothing
      else happens. */
  function PlanFails(s: State, k: nat): (r: State)
    requires k < |s.tasks| && s.tasks[k].AwaitPlan?
    ensures r.tasks == RemoveAt(s.tasks, k)
    ensures s.active.Some? && s.active.value in s.histories ==>
              && r.histories == s.histories[s.active.value := Pop(s.histories[s.active.value])]
              && r.ui == Input && r.ai == Idle && r.pulses == []
    ensures !(s.active.Some? && s.active.value in s.histories) ==> r == s.(tasks := RemoveAt(s.tasks, k))
    ensures r.animating == s.animating
  {
    var rest := RemoveAt(s.tasks, k);
    if s.active.Some? && s.active.value in s.histories then
      var b := s.active.value;
      UpdateUi(s.(histories := s.histories[b := Pop(s.histories[b])], tasks := rest), Input)
    else s.(tasks := rest)
  }

  /** The search reply arrives: the text is pushed onto the active branch's
      history (skipped with no branch; a missing history throws into the
      handler's catch, which returns to input), then revealed. */
  function SearchArrives(s: State, k: nat, text: string): (r: State)
    requires k < |s.tasks| && s.tasks[k].AwaitSearch?
    ensures s.active.Some? && s.active.value !in s.histories ==>
              r == UpdateUi(s.(tasks := RemoveAt(s.tasks, k)), Input)
    ensures s.active.Some? && s.active.value in s.histories ==>
              r.histories == s.histories[s.active.value := s.histories[s.active.value] + [Entry(Model, text)]]
    ensures s.active.None? ==> r.histories == s.histories
    ensures r.ui == Input || r.ai == Generating
    ensures !(s.active.Some? && s.active.value !in s.histories) && text != [] ==>
              && r.ai == Generating && r.ui == s.ui && r.pulses == s.pulses
              && r.flags == Typewriter.Flags(true, false)
              && r.tasks == s.tasks[k := Revealing(Typewriter.Reveal(text, 1, text[..1]), Searched)]
    ensures !(s.active.Some? && s.active.value !in s.histories) && text == [] ==>
              && r.ui == Input && r.ai == Idle && r.pulses == []
              && !r.flags.generating && r.tasks == RemoveAt(s.tasks, k)
    ensures r.animating == s.animating
  {
    if s.active.Some? && s.active.value !in s.histories then
      UpdateUi(s.(tasks := RemoveAt(s.tasks, k)), Input)
    else
      var s1 := if s.active.Some? then
                  var b := s.active.value;
                  s.(histories := s.histories[b := s.histories[b] + [Entry(Model, text)]])
                else s;
      BeginReveal(SetAi(s1, Generating), k, text, Searched)
  }

  /** The search request fails: back to input, the prompt stays in the history. */
  function SearchFails(s: State, k: nat): (r: State)
    requires k < |s.tasks| && s.tasks[k].AwaitSearch?
    ensures r.histories == s.histories && r.tasks == RemoveAt(s.tasks, k)
    ensures r.ui == Input && r.ai == Idle && r.pulses == []
    ensures r.animating == s.animating
  {
    UpdateUi(s.(tasks := RemoveAt(s.tasks, k)), Input)
  }

  /** The visual task has settled: a completed answer gets its footer (when
      `renderFooter` renders one), then back to input. */
  function VisualSettles(s: State, k: nat): (r: State)
    requires k < |s.tasks| && s.tasks[k].AwaitVisual?
    ensures r.ui == Input && r.ai == Idle && r.pulses == []
    ensures r.histories == s.histories && r.tasks == RemoveAt(s.tasks, k)
    ensures var t := s.tasks[k];
            r.footer == if t.completed && Footer.Render(t.suggestions, t.exportable).Some?
                        then Footer.Render(t.suggestions, t.exportable) else s.footer
    ensures r.animating == s.animating
  {
    var t := s.tasks[k];
    var footer := if t.completed then
                    match Footer.Render(t.suggestions, t.exportable)
                    case Some(buttons) => Some(buttons)
                    case None => s.footer
                  else s.footer;
    UpdateUi(s.(footer := footer, tasks := RemoveAt(s.tasks, k)), Input)
  }

  /** The stop button. */
  function Stop(s: State): (r: State)
    ensures r == s.(flags := r.flags)
    ensures r.flags.generating == s.flags.generating
    ensures r.flags.stopping <==> s.flags.stopping || s.flags.generating
  {
    s.(flags := Typewriter.PressStop(s.flags))
  }

  /** The back button. */
  function Back(s: State): (r: State)
    ensures r.ui == Initial && r.active.None? && !r.chat && !IsWorking(r) && r.pulses == []
    ensures r.histories == s.histories && r.tasks == s.tasks
  {
    UpdateUi(s, Initial)
  }

  /** `handleResize` as written: it cancels the pending frame and calls
      `init()`, which goes back to the start view; `animationFrameId` still
      holds the cancelled request's (non-zero) id, so `init()` does not call
      `animate()` again and no frame is pending any more. */
  function Resize(s: State): (r: State)
    ensures r == Back(s).(animating := false)
    ensures r.ui == Initial && r.active.None? && !r.chat && !IsWorking(r) && r.pulses == []
    ensures r.histories == s.histories && r.tasks == s.tasks
  {
    UpdateUi(s, Initial).(animating := false)
  }

  /** `handleResize` as evidently intended: the animation loop is restarted
      after the start view is restored. */
  function ResizeRestarting(s: State): (r: State)
    ensures r == Back(s).(animating := true)
    ensures r.animating && r.ui == Initial && !IsWorking(r) && r.pulses == []
  {
    UpdateUi(s, Initial).(animating := true)
  }

  /** The pulse part of one animation frame. */
  function Frame(s: State, roll: bool, a: nat, b: nat, arrived: set<nat>): (r: State)
    requires a < DataPulses.ParticleCount && b < DataPulses.ParticleCount
    ensures r == s.(pulses := r.pulses)
    ensures DataPulses.Capped(s.pulses) ==> DataPulses.Capped(r.pulses)
    ensures !IsWorking(s) && s.pulses == [] ==> r.pulses == []
  {
    DataPulses.FrameCapped(IsWorking(s), roll, a, b, arrived, s.pulses);
    s.(pulses := DataPulses.Frame(IsWorking(s), roll, a, b, arrived, s.pulses))
  }

  /** Everything that can happen to the page. */
  datatype Event =
    | ChooseBranch(id: string)
    | ConfirmPrompt(raw: string)
    | PlanReply(k: nat, plan: Option<Plan>)
    | SearchReply(k: nat, text: Option<string>)
    | TimerTick(k: nat)
    | VisualDone(k: nat)
    | StopClicked
    | BackClicked
    | Resized
    | AnimationFrame(roll: bool, a: nat, b: nat, arrived: set<nat>)

  /** One event. An event that names no suitable continuation (or a branch
      with no card, or a particle that does not exist) cannot happen, so it
      changes nothing; neither does a frame while no frame is pending. */
  function Step(s: State, e: Event): (r: State)
    ensures e.ChooseBranch? && e.id !in Branches ==> r == s
    ensures || (e.PlanReply? && !(e.k < |s.tasks| && s.tasks[e.k].AwaitPlan?))
            || (e.SearchReply? && !(e.k < |s.tasks| && s.tasks[e.k].AwaitSearch?))
            || (e.TimerTick? && !(e.k < |s.tasks| && s.tasks[e.k].Revealing?))
            || (e.VisualDone? && !(e.k < |s.tasks| && s.tasks[e.k].AwaitVisual?))
            ==> r == s
    ensures e.AnimationFrame? && !s.animating ==> r == s
  {
    match e
    case ChooseBranch(id) => if id in Branches then SelectBranch(s, id) else s
    case ConfirmPrompt(raw) => Confirm(s, raw)
    case PlanReply(k, plan) =>
      if k < |s.tasks| && s.tasks[k].AwaitPlan? then
        (if plan.Some? then PlanArrives(s, k, plan.value) else PlanFails(s, k))
      else s
    case SearchReply(k, text) =>
      if k < |s.tasks| && s.tasks[k].AwaitSearch? then
        (if text.Some? then SearchArrives(s, k, text.value) else SearchFails(s, k))
      else s
    case TimerTick(k) =>
      if k < |s.tasks| && s.tasks[k].Revealing? && Typewriter.Consistent(s.tasks[k].typing) then TickReveal(s, k) else s
    case VisualDone(k) => if k < |s.tasks| && s.tasks[k].AwaitVisual? then VisualSettles(s, k) else s
    case StopClicked => Stop(s)
    case BackClicked => Back(s)
    case Resized => Resize(s)
    case AnimationFrame(roll, a, b, arrived) =>
      if s.animating && a < DataPulses.ParticleCount && b < DataPulses.ParticleCount
      then Frame(s, roll, a, b, arrived) else s
  }

  /** Only a prompt adds a continuation, and only by one; only a frame adds
      a pulse, every other event keeps the pulses or drops them all. */
  lemma StepGrowth(s: State, e: Event)
    ensures |Step(s, e).tasks| <= |s.tasks| + 1
    ensures |Step(s, e).tasks| > |s.tasks| ==> e.ConfirmPrompt?
    ensures !e.AnimationFrame? ==> Step(s, e).pulses == s.pulses || Step(s, e).pulses == []
  {
    match e
    case ChooseBranch(id) =>
    case ConfirmPrompt(raw) =>
    case PlanReply(k, plan) =>
    case SearchReply(k, text) =>
    case TimerTick(k) =>
    case VisualDone(k) =>
    case StopClicked =>
    case BackClicked =>
    case Resized =>
    case AnimationFrame(roll, a, b, arrived) =>
  }

  /** Only a resize stops the animation loop, and nothing restarts it. */
  lemma StepAnimating(s: State, e: Event)
    ensures Step(s, e).animating == if e.Resized? then false else s.animating
  {
    match e
    case ChooseBranch(id) =>
    case ConfirmPrompt(raw) =>
    case PlanReply(k, plan) =>
    case SearchReply(k, text) =>
    case TimerTick(k) =>
    case VisualDone(k) =>
    case StopClicked =>
    case BackClicked =>
    case Resized =>
    case AnimationFrame(roll, a, b, arrived) =>
  }

  function Run(s: State, es: seq<Event>): State
    decreases |es|
  {
    if es == [] then s else Run(Step(s, es[0]), es[1..])
  }

  lemma {:induction false} RunAppend(s: State, xs: seq<Event>, ys: seq<Event>)
    ensures Run(s, xs + ys) == Run(Run(s, xs), ys)
    decreases |xs|
  {
    if xs == [] {
      assert xs + ys == ys;
    } else {
      assert (xs + ys)[0] == xs[0];
      assert (xs + ys)[1..] == xs[1..] + ys;
      RunAppend(Step(s, xs[0]), xs[1..], ys);
    }
  }
}
