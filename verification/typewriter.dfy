/**
 * `typewriterEffect`: the answer is revealed one character per timer tick;
 * when the whole text is shown it is replaced by its rendered markdown and
 * the completion callback is told `true`; a stop request seen at a tick ends
 * the reveal where it is and the callback is told `false`.
 *
 * `isGeneratingText` and `isStopping` are globals shared by every reveal in
 * flight, so they are kept apart from the per-reveal position.
 */
module Typewriter {
  import Markdown

  /** The globals `isGeneratingText` and `isStopping`. */
  datatype Flags = Flags(generating: bool, stopping: bool)

  /** One reveal in flight: its text, the next index `i`, and what is shown. */
  datatype Reveal = Reveal(text: string, i: nat, shown: string)

  /** What is shown is exactly the first `i` characters of the text. */
  predicate Consistent(r: Reveal) {
    r.i <= |r.text| && r.shown == r.text[..r.i]
  }

  /** The outcome of one `type()` call: still typing, or finished with the
      element's final content and the value passed to the callback. */
  datatype Step = Typing(typing: Reveal) | Done(content: string, completed: bool)

  datatype Tock = Tock(flags: Flags, step: Step)

  /** The flags `typewriterEffect` sets before its first `type()` call. */
  const Started: Flags := Flags(true, false)

  /** A reveal that has not shown anything yet. */
  function Fresh(text: string): (r: Reveal)
    ensures Consistent(r) && r.text == text && r.shown == []
  {
    Reveal(text, 0, [])
  }

  /** One call of `type()`. A stop request wins over everything else; then
      one more character is shown; at the end the rendered markdown replaces
      the plain text. Either way of ending clears `isGeneratingText` and
      leaves `isStopping` as it was. */
  function Tick(f: Flags, r: Reveal): (t: Tock)
    requires Consistent(r)
    ensures t.step.Typing? <==> !f.stopping && r.i < |r.text|
    ensures t.step.Typing? ==> t.flags == f && Consistent(t.step.typing)
                               && t.step.typing.text == r.text && t.step.typing.i == r.i + 1
    ensures t.step.Done? ==> t.flags == Flags(false, f.stopping)
    ensures t.step.Done? ==> (t.step.completed <==> !f.stopping)
    ensures t.step.Done? && t.step.completed ==> r.i == |r.text| && t.step.content == Markdown.ParseMarkdown(r.text)
    ensures t.step.Done? && !t.step.completed ==> t.step.content == r.text[..r.i]
  {
    if f.stopping then Tock(Flags(false, f.stopping), Done(r.shown, false))
    else if r.i < |r.text| then
      assert r.text[..r.i + 1] == r.shown + [r.text[r.i]];
      Tock(f, Typing(Reveal(r.text, r.i + 1, r.shown + [r.text[r.i]])))
    else Tock(Flags(false, f.stopping), Done(Markdown.ParseMarkdown(r.text), true))
  }

  /** The stop button: it raises `isStopping` only while a reveal is running. */
  function PressStop(f: Flags): (r: Flags)
    ensures r.generating == f.generating
    ensures r.stopping <==> f.stopping || f.generating
  {
    if f.generating then f.(stopping := true) else f
  }

  /** One reveal on its own, seen from outside: the flags, where it is, and
      every value its callback has been called with so far. */
  datatype Session = Session(flags: Flags, step: Step, calls: seq<bool>)

  /** What can happen to a lone reveal: its timer fires, or stop is pressed. */
  datatype Input = TimerFires | StopPressed

  /** The log entry for one `type()` call: the callback value, if it was called. */
  function CallOf(s: Step): seq<bool> {
    if s.Done? then [s.completed] else []
  }

  /** `typewriterEffect(text, …)`: set the flags, then run `type()` once. */
  function Begin(text: string): Session {
    var t := Tick(Started, Fresh(text));
    Session(t.flags, t.step, CallOf(t.step))
  }

  /** A healthy lone reveal: it is typing exactly while `isGeneratingText`
      holds and the callback has not been called; once done, the callback has
      been called exactly once, with the outcome. */
  predicate SessionOk(s: Session) {
    && (s.step.Typing? ==> Consistent(s.step.typing) && s.calls == [])
    && (s.step.Done? ==> s.calls == [s.step.completed])
    && (s.flags.generating <==> s.step.Typing?)
  }

  function Feed(s: Session, e: Input): Session
    requires SessionOk(s)
  {
    match e
    case StopPressed => s.(flags := PressStop(s.flags))
    case TimerFires =>
      if s.step.Done? then s
      else
        var t := Tick(s.flags, s.step.typing);
        Session(t.flags, t.step, s.calls + CallOf(t.step))
  }

  lemma FeedOk(s: Session, e: Input)
    requires SessionOk(s)
    ensures SessionOk(Feed(s, e))
  {
  }

  function Run(s: Session, es: seq<Input>): Session
    requires SessionOk(s)
    decreases |es|
  {
    if es == [] then s
    else
      FeedOk(s, es[0]);
      Run(Feed(s, es[0]), es[1..])
  }

  /** Whatever happens, the callback is called at most once, exactly when
      the reveal has ended, and `isGeneratingText` is false from then on. */
  lemma {:induction false} RunOk(text: string, es: seq<Input>)
    ensures SessionOk(Begin(text))
    ensures var s := Run(Begin(text), es);
            && |s.calls| <= 1
            && (s.calls != [] <==> s.step.Done?)
            && (s.step.Done? ==> !s.flags.generating && s.calls == [s.step.completed])
  {
    RunKeepsOk(Begin(text), es);
  }

  lemma {:induction false} RunKeepsOk(s: Session, es: seq<Input>)
    requires SessionOk(s)
    ensures SessionOk(Run(s, es))
    decreases |es|
  {
    if es != [] {
      FeedOk(s, es[0]);
      RunKeepsOk(Feed(s, es[0]), es[1..]);
    }
  }

  lemma {:induction false} RunAppend(s: Session, xs: seq<Input>, ys: seq<Input>)
    requires SessionOk(s)
    ensures SessionOk(Run(s, xs))
    ensures Run(s, xs + ys) == Run(Run(s, xs), ys)
    decreases |xs|
  {
    RunKeepsOk(s, xs);
    if xs == [] {
      assert xs + ys == ys;
    } else {
      FeedOk(s, xs[0]);
      assert (xs + ys)[0] == xs[0];
      assert (xs + ys)[1..] == xs[1..] + ys;
      RunAppend(Feed(s, xs[0]), xs[1..], ys);
    }
  }

  /** `n` timer ticks in a row. */
  function Fires(n: nat): (es: seq<Input>)
    ensures |es| == n && forall k :: 0 <= k < n ==> es[k] == TimerFires
  {
    seq(n, _ => TimerFires)
  }

  /** Without a stop, after the `k`-th call of `type()` (the first one runs
      at once, the rest on timer ticks) the element shows the first `k`
      characters of the text. */
  lemma {:induction false} RevealPrefix(text: string, k: nat)
    requires 0 < k <= |text|
    ensures Run(Begin(text), Fires(k - 1)) == Session(Started, Typing(Reveal(text, k, text[..k])), [])
  {
    if k == 1 {
      assert Fires(0) == [];
      assert text[..1] == [] + [text[0]];
    } else {
      RevealPrefix(text, k - 1);
      assert Fires(k - 1) == Fires(k - 2) + [TimerFires];
      RunAppend(Begin(text), Fires(k - 2), [TimerFires]);
      assert text[..k] == text[..k - 1] + [text[k - 1]];
    }
  }

  /** Without a stop, the call after the last character renders the markdown
      of the whole text, clears `isGeneratingText` and calls back `true` once. */
  lemma RevealCompletes(text: string)
    ensures Run(Begin(text), Fires(|text|)) == Session(Flags(false, false), Done(Markdown.ParseMarkdown(text), true), [true])
  {
    if |text| == 0 {
      assert Fires(0) == [];
    } else {
      RevealPrefix(text, |text|);
      assert Fires(|text|) == Fires(|text| - 1) + [TimerFires];
      RunAppend(Begin(text), Fires(|text| - 1), [TimerFires]);
      assert text[..|text|] == text;
    }
  }

  /** A stop pressed after the `k`-th character is seen at the next tick:
      the first `k` characters stay, nothing is rendered, `isGeneratingText`
      is cleared and the callback gets `false`, once. This holds even when
      the whole text is already shown. */
  lemma StopAfter(text: string, k: nat)
    requires 0 < k <= |text|
    ensures Run(Begin(text), Fires(k - 1) + [StopPressed, TimerFires])
         == Session(Flags(false, true), Done(text[..k], false), [false])
  {
    RevealPrefix(text, k);
    RunAppend(Begin(text), Fires(k - 1), [StopPressed, TimerFires]);
    var s := Run(Begin(text), Fires(k - 1));
    var s1 := Feed(s, StopPressed);
    assert s1 == Session(Flags(true, true), Typing(Reveal(text, k, text[..k])), []);
    assert [StopPressed, TimerFires][1..] == [TimerFires];
  }

  /** Once a reveal has ended, the stop button does nothing to it. */
  lemma StopAfterEndIgnored(text: string)
    ensures var s := Run(Begin(text), Fires(|text|) + [StopPressed]);
            && s.flags == Flags(false, false)
            && s.calls == [true]
  {
    RevealCompletes(text);
    RunAppend(Begin(text), Fires(|text|), [StopPressed]);
  }
}
