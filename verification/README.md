# Omnibot conversation controller, in Dafny

Omnibot is a single-page chat assistant (`index.tsx`). The user picks one of
four branches (general, science, art, business) and types a prompt. The
prompt goes to a generative-language service, which first answers with a
JSON plan. The plan is either a direct answer or a request for a web search.
The answer is revealed one character per timer tick, then rendered from
markdown. A footer of follow-up suggestions and an export button may follow.
An animated particle field shows short "data pulses" while the assistant
works.

This project models the logic underneath that page:

- **Controller** (`controller.dfy`). The globals the script keeps are one
  immutable `State`:
  - the view (`initial`, `input`, `working`) and the AI state, where
    `isWorking` means "not idle"
  - the active branch and whether a chat exists
  - the per-branch histories
  - the data pulses
  - the typewriter flags `isGeneratingText` and `isStopping`
  - the footer
  - the suspended continuations of the asynchronous handlers
  - whether an animation frame is pending

  Every user action, service reply, timer tick, window resize and animation
  frame is a pure transition. Each `await` or `setTimeout` becomes a continuation (`Task`),
  and the event that resumes it names it. A resumed continuation reads the
  globals as they are then, exactly as the script does. So going back or
  switching branch while a request is pending behaves as the script does,
  including the `TypeError`s raised by pushing to or popping from a history
  that does not exist.
- **Resizing** (`resize.dfy`). What a window resize does to the animation
  loop, as written and as evidently intended.
- **Invariant** (`invariant.dfy`). A validity predicate that `init()`
  establishes and every event preserves.
- **Turns** (`turns.dfy`). Whole turns from confirmation back to the input
  view: the history entries each outcome leaves behind, and the state it
  ends in.
- **Typewriter** (`typewriter.dfy`). The character-by-character reveal, its
  stop handling and its completion callback.
- **Footer** (`footer.dfy`). The decision `renderFooter` makes.
- **DataPulses** (`pulses.dfy`). The pulse spawn, filter and update steps of
  an animation frame.
- **Markdown** (`markdown.dfy`, `tables.dfy`, `rewrite.dfy`, `js_string.dfy`).
  `parseMarkdown` as seven global regular-expression replacements, in order:
  fenced code, tables, list items, list wrapping, list merging, bold,
  italic. Each pattern is a matcher over the rest of the input, with its
  greedy or lazy search, its `^`-under-`m` line starts, and the JavaScript
  classes `\s`, `\w` and `.`. `trim`, `split` and `join` follow their
  ECMAScript definitions. The table pass computes its header cells as the
  script does; the corrected computation is defined beside it.
- **Options** (`options.dfy`). The absent-or-present value used wherever the
  script may find nothing.

## Model

| member | source | states |
|---|---|---|
| `JsString.TrimSpec` | index.tsx:841 | `trim` removes exactly the whitespace (ECMAScript WhiteSpace and LineTerminator) at both ends. The result is the infix after the leading whitespace, everything after it is whitespace, and it neither starts nor ends with whitespace. |
| `JsString.TrimParts` | index.tsx:841 | A prompt is exactly its trim with whitespace before and after it. |
| `JsString.TrimIdempotent` | index.tsx:841 | Trimming an already trimmed prompt changes nothing. |
| `JsString.TrimFrame` | index.tsx:440 | Whitespace around a text that has none at its ends is exactly what `trim` removes, so a search request padded with spaces yields the bare query. |
| `JsString.Split` | index.tsx:636-637 | `split` yields at least one piece, and no piece contains the separator. |
| `JsString.JoinSplit` | index.tsx:637 | Joining the pieces of `split('\n')` with the separator gives back the string. |
| `JsString.SplitJoin` | index.tsx:636-637 | Splitting a join of separator-free pieces gives back the pieces. |
| `Rewrite.SilentIsIdentity` | index.tsx:622-657 | A global replacement whose pattern matches nowhere returns its input unchanged. |
| `Rewrite.ReplaceAllPrefix` | index.tsx:622-657 | Where the pattern matches a prefix of the remaining input, the replacement is emitted and the scan resumes right after the match, in multiline mode at a line start exactly when the match ended with a line terminator. |
| `Rewrite.ReplaceAllWhole` | index.tsx:622-657 | A match that takes the whole remaining input is replaced by its replacement and nothing else. |
| `Rewrite.FindFrom` | index.tsx:625 | The lazy `[\s\S]*?` before the closing fence stops at the first closing fence: the result is an occurrence and none lies before it. `None` means there is none at all. |
| `Rewrite.FindFromIs` | index.tsx:625 | Conversely, an occurrence with none before it is the one the lazy search finds. |
| `Rewrite.FindOnLine` | index.tsx:654-655 | The lazy `.*?` of the bold and italic patterns stops at the first closing marker reachable without crossing a line terminator. |
| `Rewrite.FindLast` | index.tsx:652 | The greedy dotAll `.*` reaches the last `</li>`: the result is an occurrence and none lies after it. |
| `Rewrite.FindLastIs` | index.tsx:652 | Conversely, an occurrence with none after it is the one the greedy search finds. |
| `Rewrite.RunLength` | index.tsx:625 | The greedy `\w*` (and `.*`, `-+`) run: every character in it qualifies and the next one does not. |
| `Tables.FindTableEnd` | index.tsx:635 | The table body ends at the first LF that is followed by a line terminator or ends the input (`\n\n` or `\n$` under `m`). |
| `Tables.TableShape` | index.tsx:635 | A table match starts at a line start and is made of exactly the parts the pattern names: `\|`, a header line with no line terminator ending in `\|`, a LF, `\|`, one or more dashes, `\|`, then the body up to the first LF followed by a line terminator or the end; the match takes that LF and one more LF when it follows. |
| `Tables.TableSpan` | index.tsx:635 | The positions found (end of the header line, closing pipe of the separator, end of the body) delimit exactly those parts. |
| `Tables.TableSpanIs` | index.tsx:635 | Conversely, any positions that delimit those parts are the ones found. |
| `Tables.TableShapeIs` | index.tsx:635 | Conversely, text made of those parts is matched, with those captures and that length. |
| `Tables.Inner` | index.tsx:636-637 | `.slice(1, -1)` keeps everything but the first and last element, and nothing of a list shorter than two. |
| `Tables.TrimAll` | index.tsx:636-637 | `.map(c => c.trim())` trims every cell and keeps their number. |
| `Tables.RowCellsOfRow` | index.tsx:637 | A body row `\|a\|b\|…\|` yields exactly its cells, trimmed. |
| `Tables.AsWrittenHeaderLosesCells` | index.tsx:636 | As written, a header line loses its first and last cell, so it has two cells fewer than a body row written the same way. |
| `Tables.AsWrittenTwoColumnHeaderIsEmpty` | index.tsx:636 | As written, the header `\| a \| b \|` yields no header cell at all. |
| `Tables.HeaderMatchesRow` | index.tsx:636-637 | With every header cell kept, a header line yields the same cells as a body row written the same way. |
| `Tables.SampleRowCells` | index.tsx:636-637 | In the table `\| a \| b \|` over `\| 1 \| 2 \|`, the body row yields the cells `1` and `2`, and the header line, with every cell kept, `a` and `b`. |
| `Tables.SampleAsWritten` | index.tsx:635-640 | As written, the table pattern matches that whole table and renders a header row with no cell. |
| `Tables.SampleCorrected` | index.tsx:635-640 | With every header cell kept, the same match renders the header cells `a` and `b`. |
| `Tables.SamplePassAsWritten` | index.tsx:635-640 | As written, the table pass turns that whole text into a table whose header row is empty. |
| `Tables.SamplePassCorrected` | index.tsx:635-640 | With every header cell kept, the table pass turns it into a table headed `a`, `b`. |
| `Markdown.ReplaceCharSpec` | index.tsx:626 | Replacing every `c` leaves no `c` when the replacement has none, and keeps the set of other characters that occur. |
| `Markdown.ReplaceCharOne` | index.tsx:626 | A single `c` becomes the replacement; any other character stays as it is. |
| `Markdown.ReplaceCharAppend` | index.tsx:626 | The replacement works character by character: replacing in a concatenation concatenates the replacements, so with `ReplaceCharOne` every other character keeps its place. |
| `Markdown.EscapeNoBrackets` | index.tsx:626 | Escaped code contains no `<` and no `>`. |
| `Markdown.UnescapeEscape` | index.tsx:626 | For code without `&`, reading the two entities back gives the original code. |
| `Markdown.TrimEscape` | index.tsx:626-628 | Trimming the escaped code equals escaping the trimmed code. |
| `Markdown.CodeBodyShowsCode` | index.tsx:625-633 | A code block's body has no angle brackets and, for code without `&`, reads back as the trimmed code. |
| `Markdown.CodeFenceMatch` | index.tsx:625 | A fence, a word-character language, a LF, then code up to the first closing fence: this is matched as exactly one block. |
| `Markdown.CodeFenceAt` | index.tsx:625-633 | The code pass replaces that block by its HTML, with the language defaulting to `plaintext`, and goes on after the closing fence. |
| `Markdown.ListItemAt` | index.tsx:651 | A line `- x` becomes `<li>x</li>`, and the item is the rest of the line. |
| `Markdown.ListWrapAt` | index.tsx:652 | Everything from an `<li>` to the last `</li>` becomes one `<ul>`, including anything between items. |
| `Markdown.ListMergeJoins` | index.tsx:653 | A list closed and reopened with at most one whitespace character between is merged: both tags vanish. |
| `Markdown.StrongWraps` | index.tsx:654 | `**x**`, with no line break in `x` and no earlier closing `**`, becomes `<strong>x</strong>`. |
| `Markdown.EmphasisWraps` | index.tsx:655 | `*x*`, with no asterisk or line break in `x`, becomes `<em>x</em>`. |
| `Markdown.NoBacktickNoFence` | index.tsx:625 | Text without a backtick is left alone by the code pass. |
| `Markdown.NoPipeNoTable` | index.tsx:635 | Text without a pipe is left alone by the table pass. |
| `Markdown.NoAsteriskNoEmphasis` | index.tsx:654-655 | Text without an asterisk is left alone by the bold and italic passes. |
| `Markdown.ListPassesSilent` | index.tsx:651-653 | Text with no line-leading `- `, no `<li>` and no `</ul>` is left alone by the three list passes. |
| `Markdown.PlainTextSilent` | index.tsx:622-657 | Each of the seven passes leaves text with no `*`, backtick or `\|`, no line-leading `- `, and no `<li>` or `</ul>` as it is. |
| `Markdown.ParseMarkdown` | index.tsx:622-657 | `parseMarkdown` returns such plain text unchanged. |
| `Markdown.ListFreeByChars` | index.tsx:651-653 | Text without `i`, `u` or a dash cannot be touched by the list passes. |
| `Markdown.LaterPassesSilent` | index.tsx:651-655 | Text without an asterisk that the list passes cannot touch comes out of the last five passes unchanged. |
| `Markdown.AsWrittenTableLosesHeader` | index.tsx:622-657 | As written, `parseMarkdown` renders the table `\| a \| b \|` over `\| 1 \| 2 \|` as a table with an empty header row above the body row `1`, `2`. |
| `Footer.Render` | index.tsx:741-774 | Nothing is rendered exactly when there are no suggestions and the answer is not exportable. Otherwise the footer holds the suggestions in order, plus a final export button exactly when the answer is exportable. |
| `Footer.LabelsOfSuggestions` | index.tsx:750-763 | The suggestion buttons carry the suggestions, in order. |
| `DataPulses.Spawn` | index.tsx:267-271 | A pulse is added only while working, only on a successful roll, only below five pulses, and only between two different particles. It is added at the end, unfinished. |
| `DataPulses.Prune` | index.tsx:272 | The filter keeps exactly the unfinished pulses and never grows the list. |
| `DataPulses.PruneAppend` | index.tsx:272 | Filtering a concatenation filters each part, so the filter keeps the order of what it keeps. |
| `DataPulses.PruneSingle` | index.tsx:272 | A single pulse is kept exactly when it is unfinished. |
| `DataPulses.PruneCount` | index.tsx:272 | Every unfinished pulse is kept as often as it occurs, and every finished one is dropped. |
| `DataPulses.PruneIdempotent` | index.tsx:272 | Filtering twice is filtering once. |
| `DataPulses.PruneUnfinished` | index.tsx:272 | Filtering a list without finished pulses changes nothing. |
| `DataPulses.Advance` | index.tsx:162-172 | An update keeps every pulse's endpoints and marks finished exactly the pulses that reached their target. |
| `DataPulses.FrameCapped` | index.tsx:267-273 | A frame keeps the list within five well-formed pulses. It grows by at most one, only when the spawn condition holds, and an idle empty list stays empty. |
| `DataPulses.FrameMovesUnfinished` | index.tsx:267-273 | What a frame updates is exactly the previously unfinished pulses, in their order, followed by the new one when the spawn condition holds; none of them is finished. |
| `Typewriter.Fresh` | index.tsx:683-687 | A new reveal shows nothing yet and is consistent with its text. |
| `Typewriter.Tick` | index.tsx:689-706 | A stop request wins. Otherwise one more character is shown. At the end the rendered markdown replaces the text and the callback gets `true`. A stopped reveal keeps exactly the characters shown so far and the callback gets `false`. Either ending clears `isGeneratingText` and leaves `isStopping` as it was. |
| `Typewriter.PressStop` | index.tsx:870-875 | The stop button raises `isStopping` exactly when `isGeneratingText` holds. |
| `Typewriter.RunOk` | index.tsx:683-709 | For any sequence of ticks and stop presses, the callback is called at most once, exactly when the reveal has ended, with its outcome, and `isGeneratingText` is false from then on. |
| `Typewriter.RevealPrefix` | index.tsx:695-699 | Without a stop, after the `k`-th `type()` call the element shows the first `k` characters. |
| `Typewriter.RevealCompletes` | index.tsx:700-706 | Without a stop, one call per character plus one renders the markdown of the whole text and calls back `true` exactly once. |
| `Typewriter.StopAfter` | index.tsx:690-694 | A stop after the `k`-th character ends the reveal at the next tick with the first `k` characters shown and calls back `false` exactly once. This holds even when the whole text is already shown. |
| `Typewriter.StopAfterEndIgnored` | index.tsx:870-875 | A stop pressed after a reveal has ended sets no flag and causes no further callback. |
| `Controller.Pop` | index.tsx:477 | `pop` removes the last history entry if there is one, and is a no-op on an empty history. |
| `Controller.SetAi` | index.tsx:392-403 | `isWorking` is "not idle". Going idle drops every data pulse; nothing else changes. |
| `Controller.UpdateUi` | index.tsx:371-390 | The initial view forgets the branch and chat. The initial and input views both end all work and pulses. The working view changes nothing else. |
| `Controller.Init` | index.tsx:238-250 | The page starts in the initial view: idle, with no branch, no chat, no history and nothing in flight, and the animation loop running. |
| `Controller.SelectBranch` | index.tsx:333-369 | Choosing a branch makes it active with a chat and shows the input view, idle. Histories are only read, and the transcript (with any footer) is replaced. |
| `Controller.Send` | index.tsx:405-418 | Without a chat or branch nothing happens. Otherwise the footer goes, the AI analyzes, the prompt is pushed onto the active branch's history (created empty if missing), and the planning request is pending. |
| `Controller.Confirm` | index.tsx:840-846 | A prompt that is empty after trimming, or any prompt while working, is ignored. Otherwise the view becomes working and the trimmed prompt is sent. |
| `Controller.BeginReveal` | index.tsx:683-709 | Starting a reveal leaves `isStopping` clear and sets `isGeneratingText` exactly when the text is non-empty. A non-empty text is then typing with its first character shown. An empty text completes at once: the planning path awaits its visual task, the search path is back at input, idle. Histories, branch and footer are untouched. |
| `Controller.TickReveal` | index.tsx:463-472 | Without a stop and before the end of the text, a tick shows exactly one more character and leaves the flags as they are. Otherwise the reveal ends and clears `isGeneratingText`: the planning path then awaits its visual task, told whether the reveal completed (no stop was pending); the search path drops its continuation and returns to input, idle. Histories and branch are untouched. |
| `Controller.PlanArrives` | index.tsx:437-463 | A `SEARCHING::` answer starts a search for the trimmed rest and stores nothing more. Any other answer is pushed, raw, onto the history of the branch active now; the AI is generating, and the reveal of the answer has begun: typing with its first character shown, or, for an empty answer, already completed and awaiting the visual task. A missing history makes the push and the error handler's pop both throw, so only the continuation ends. |
| `Controller.PlanFails` | index.tsx:474-479 | A failed plan pops the history of the branch active now and returns to input, idle. With no such history nothing else happens. |
| `Controller.SearchArrives` | index.tsx:488-500 | The search answer is pushed onto the active branch's history. The push is skipped with no branch, and a missing history throws into the handler's catch, which returns to input. Otherwise a non-empty answer is being typed with its first character shown, the AI generating; an empty one ends the turn at once, at input, idle. |
| `Controller.SearchFails` | index.tsx:510-514 | A failed search returns to input, idle, and keeps the prompt on the history. |
| `Controller.VisualSettles` | index.tsx:464-471 | After the visual task, a completed answer gets its footer (when one is rendered) and the page returns to input, idle. |
| `Controller.Stop` | index.tsx:870-875 | The stop button sets `isStopping` only while a reveal is running and changes nothing else. |
| `Controller.Back` | index.tsx:868 | The back button forgets branch and chat, ends all work and drops every pulse. Histories and pending continuations are kept. |
| `Controller.Resize` | index.tsx:830-833 | As written, a resize does what the back button does and leaves no animation frame pending. |
| `Controller.ResizeRestarting` | index.tsx:238-249 | As intended, a resize does what the back button does and keeps the animation loop running. |
| `Controller.Frame` | index.tsx:267-273 | An animation frame touches only the pulses and keeps them capped; an idle page without pulses stays without them. |
| `Controller.Step` | index.tsx:859-880 | A reply, tick or settling for a continuation that is not waiting for it, a branch without a card, and a frame while no frame is pending all change nothing. |
| `Controller.StepGrowth` | index.tsx:859-880 | Only a confirmed prompt adds a continuation, and only one. Every event but a frame keeps the pulses or drops them all. |
| `Controller.StepAnimating` | index.tsx:830-833 | Only a resize stops the animation loop, and no event restarts it. |
| `Resizing.FrozenRun` | index.tsx:247-249 | With no frame pending and no pulse, no run of events brings back either. |
| `Resizing.ResizeStopsPulses` | index.tsx:830-833 | As written, after a resize the pulse list stays empty whatever happens. |
| `Resizing.ResizedWorkHasNoPulse` | index.tsx:830-833 | As written, after a resize the assistant works on a prompt and a frame rolls a pulse, yet no pulse appears. |
| `Resizing.RestartedWorkHasPulse` | index.tsx:267-271 | After the restarting resize the same events spawn that pulse. |
| `Invariant.InitValid` | index.tsx:238-250 | The page after `init()` is valid. |
| `Invariant.StepValid` | index.tsx:224-235 | Every event keeps the page valid. Validity means: pulses capped and absent while idle, a chat exactly while a branch is active, that branch one of the four, no branch in the initial view, every reveal showing a prefix of its text, and `isGeneratingText` only while a reveal is in flight. |
| `Invariant.RunValid` | index.tsx:224-235 | Any run of events from a valid page leaves it valid. |
| `Invariant.ReachablePulsesCapped` | index.tsx:267-273 | On every page reachable from `init()` there are at most five pulses, and none while idle. |
| `Invariant.StepTouchesOnlyActive` | index.tsx:417-418 | No event changes the history of a branch that is not active at that moment, not even whether it exists. |
| `Turns.ConfirmAsks` | index.tsx:840-846 | On a ready page, confirming a non-empty prompt pushes it and leaves the planning request pending, with the AI analyzing. |
| `Turns.PlanStartsSearch` | index.tsx:437-442 | A `SEARCHING::` plan replaces the pending planning request with a pending search for its query and leaves the history as it is. |
| `Turns.PlanStartsReveal` | index.tsx:446-463 | Any other plan pushes the raw reply after the prompt on the active branch's history and starts revealing its answer. |
| `Turns.PlanFailRestores` | index.tsx:474-479 | A failed planning request pops the prompt, so the branch's history is what it was before the confirmation, and the page returns to input. |
| `Turns.TypingTicks` | index.tsx:695-699 | Each tick before the end of the text shows one more character and changes nothing else. |
| `Turns.RevealRunsOut` | index.tsx:683-709 | Left alone, a reveal ends completed after one tick per character. |
| `Turns.RevealStopped` | index.tsx:690-694 | A stop after the `k`-th character ends the reveal, not completed, at the next tick. |
| `Turns.StopThenTick` | index.tsx:690-694 | A stop pressed in the middle of typing ends the reveal, not completed, at the next tick. |
| `Turns.PlanAnswered` | index.tsx:446-463 | A non-search plan puts the prompt and the raw reply on the history and starts revealing the answer. |
| `Turns.PlannedRevealRunsOut` | index.tsx:463-464 | Left alone, that answer is fully revealed and the turn waits for its visual task. |
| `Turns.Settles` | index.tsx:464-471 | Settling the visual task ends the turn at input, idle, with the footer of a completed answer. |
| `Turns.PlannedTurnSucceeds` | index.tsx:417-472 | A successful non-search turn appends exactly the prompt and the raw planning reply to the branch's history, changes no other history, and ends at input, idle, with the answer's footer. |
| `Turns.PlannedTurnFails` | index.tsx:474-479 | A failed planning request restores the branch's history (an empty one if it had none) and ends at input, idle. |
| `Turns.PlannedTurnStopped` | index.tsx:463-471 | A stopped turn keeps both history entries, renders no footer and ends at input, idle. |
| `Turns.SearchIsRequested` | index.tsx:439-442 | A `SEARCHING::` plan starts a search for the trimmed rest of the reply and adds nothing to the history. |
| `Turns.SearchAnswered` | index.tsx:494-500 | The search answer joins the prompt on the history and its reveal begins. |
| `Turns.SearchTextArrives` | index.tsx:488-500 | The search reply is pushed after the prompt and revealed, while the search continuation waits for the reveal to end. |
| `Turns.SearchTurnSucceeds` | index.tsx:482-508 | A successful search turn leaves the prompt and the search answer on the history and ends at input, idle. |
| `Turns.SearchFailKeeps` | index.tsx:510-514 | A failed search drops every continuation and returns to input; the prompt stays on the history. |
| `Turns.SearchTurnFails` | index.tsx:510-514 | A failed search leaves the prompt on the history, with no rollback, and ends at input, idle. |

## Findings

| source | as written | input that shows it | evidently intended | confidence | as-written member | corrected member |
|---|---|---|---|---|---|---|
| index.tsx:636 | The header cells are `headerLine.split('\|').slice(1, -1)`, but the captured `headerLine` already excludes the outer pipes, so the first and last header cells are dropped. Body rows still carry their pipes and keep all their cells. | The table `\| a \| b \|` / `\|-\|` / `\| 1 \| 2 \|`: no header cell, two body cells. | Every header cell kept, so the header has as many cells as a row written the same way. | not executed | `Markdown.AsWrittenTableLosesHeader` (with `Tables.AsWrittenHeaderLosesCells`, `Tables.SamplePassAsWritten`, `Tables.TableAsWritten`) | `Tables.HeaderMatchesRow` (with `Tables.SamplePassCorrected`, `Tables.HeaderCells`, `Tables.Table`) |
| index.tsx:830-833 | `handleResize` cancels the pending frame and calls `init()`, which starts `animate()` only while `animationFrameId` is unset. After the first frame it holds the cancelled request's non-zero id, so the loop never runs again. | Resize the window, choose a branch and send a prompt: the assistant works, but no data pulse (and no particle motion) appears from then on. | The loop restarted after the resize. | not executed | `Resizing.ResizedWorkHasNoPulse` (with `Resizing.ResizeStopsPulses`, `Controller.Resize`) | `Resizing.RestartedWorkHasPulse` (with `Controller.ResizeRestarting`) |

The page model (`Controller.Step`, `Markdown.ParseMarkdown`) follows the
script as written; each corrected definition is stated and proved beside it.

## Left out

- Particle physics is left out: `Particle.update`, the shockwave, connections and drawing. It is floating-point geometry with `Math.random`. `DataPulse.update` movement is abstracted to the set of pulses that arrive in a frame, and the random choices become event parameters.
- The `EffectParticle` burst of `createContentBurst` and the `nexus-core` tilt are left out; they are decoration only.
- The service calls (chat creation, planning, search, image and video generation, video polling) and `JSON.parse` are left out. Their outcomes are event payloads. A malformed reply is the planning-failure event.
- A search reply with no text part (`response.text` undefined, as for a blocked query) is not modelled: a search reply carries a string or is the failure event. In the script it would push a history entry without text, set `isGeneratingText`, and throw at `text.length` in the first `type()`. The catch then returns to input, idle, with `isGeneratingText` still set and no reveal running. So `Invariant.Valid`'s "`isGeneratingText` only while a reveal is in flight" is a statement about the modelled replies only.
- The dispatch on `module` to image, video or map content is left out. It affects only the DOM and the service; the model keeps the one `await visualTask` it adds before the footer. Nothing in the script sets the `visualizing` AI state.
- DOM work is left out: transcript building, history replay in `selectBranch`, grounding sources, the "interrupted" marker, copy buttons, lightbox, export and print, themes and focus. A resize is modelled only through the view and the animation loop; resizing the canvas and re-creating the particles is geometry. Likewise the textarea, whose text is the confirm event's payload; a suggestion button click is the confirm event with the suggestion as that text.
- `Controller.VisualSettles`: the footer field is the most recently rendered footer. Rendering into a message that a later branch switch has detached from the page is not distinguished. When several footers exist, which one `querySelector(...).remove()` takes is not modelled.
- `Markdown.UnescapeEscape` and `Markdown.CodeBodyShowsCode`: the round trip is stated only for code without `&`. The script does not escape `&`, so other code can read back differently.
- `Controller.Step`: a reply, tick or settling that names no waiting continuation, a branch id without a card, or a particle index of 150 or more cannot come from the script, so the model treats such an event as a no-op.
- `Controller.SelectBranch` requires one of the four branch ids: branch cards exist only for those. `Controller.Frame` requires particle indices below 150, the range of the random pick.
- Strings are sequences of characters: UTF-16 code units, surrogate pairs and the HTML re-parsing done by `innerHTML +=` are not modelled.
