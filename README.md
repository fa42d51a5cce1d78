# yt_to_blog: rating parser and draft-refinement loop

`yt_to_blog.py` downloads a YouTube video, converts it to MP3, and then refines a draft
blog post with an LLM. The LLM rates the draft out of 100. While the rating is absent or
below 90, the script asks for improvement suggestions, has the draft rewritten, and has
the new draft rated again. At the end it saves the final draft to `data/final_output.txt`.

This project models three parts of that script:

- `extract_rating`, the rating parser. Module `Rating` models `re.search` with the
  pattern `(\d+)/100` over the ASCII digits, and `int` on the matched digits.
- `generate_improvement_instructions`, the suggestion step with its `None` and
  empty-prompt guards.
- `main` from the download on: its early returns, its `while` loop and the final save.
  The step-by-step version is in module `Pipeline`. It runs against a `World` object that
  stands for everything outside the script's own logic:
  - every external call (video download, MP3 conversion, template read, LLM call) is
    answered from a fixed list of `Option<string>` responses (the *script*), consumed in
    call order through an index field;
  - every call and every `save_file` is appended to a `trace` field.

`PipelineSpec` describes the same behaviour as pure functions of the script. Each method
of `Pipeline` is proved to append to `trace` exactly the events of its matching function,
to return the same outcome, and to advance the script past exactly the answers of those
events. `World` keeps the invariant that the answers in its trace are the answers it has
given, in order. `PipelineProperties` proves what the source promises
about those functions. `Text` models `str.replace` and `Wrappers` holds `Option`.

A run ends in one of three outcomes:

- `Returned`: `main` returned.
- `Crashed`: `prompt1.txt` could not be read. `open_file` then returns `None`, and
  `None.replace` raises an `AttributeError` that nothing catches (lines 118 and 147). The
  same error in `generate_improvement_instructions` is caught there and gives `None`.
- `Exhausted`: the script ran out of answers. This is not behaviour of the program. It
  stands in for a loop that has no bound, so that the model is a terminating function.

Some consequences of the code that the model keeps:

- **A failed re-evaluation does not stop the loop.** When the LLM call at line 148
  returns `None`, `extract_rating(None)` at line 149 is `None`, and the `while` condition
  at line 129 holds again.
- **A failed rewrite saves `None`.** The `None` from the rewrite call at line 142 is
  assigned to `new_draft` before the `break` at line 145, and line 153 hands it to
  `save_file`.
- **A missing `prompt1.txt` crashes the program.** `None.replace` at line 118 or line 147
  raises an `AttributeError` that nothing catches.
- **A failed initial evaluation saves nothing.** `main` returns at line 122, before the
  loop and the save.
- **Ratings above 100 are accepted.** `extract_rating` (lines 50-55) does not clamp the
  value: `"150/100"` gives 150.

## Model

| member | source | states |
|---|---|---|
| Text.Replace | yt_to_blog.py:60-147 | the `.replace` of a placeholder at lines 60, 118 and 147: with a non-empty replacement, the substituted text is empty exactly when the template is empty; `ReplaceAbsent` and `ReplaceSingle` pin down its result |
| Text.ReplaceAbsent | yt_to_blog.py:60 | `str.replace` leaves a template without the placeholder unchanged |
| Text.ReplaceSingle | yt_to_blog.py:118 | a template with exactly one placeholder gets the replacement at that position and is otherwise unchanged |
| Rating.RunEnd | yt_to_blog.py:52 | the greedy `\d+` from a position ends at the first non-digit; everything before that is digits |
| Rating.GroupIsWholeRun | yt_to_blog.py:52 | any match of `(\d+)/100` at a position has the whole digit run from there as its group, so backtracking never finds a shorter group |
| Rating.Search | yt_to_blog.py:52-53 | `re.search` finds the leftmost match; there is no match before it; it gives `None` exactly when there is no match anywhere |
| Rating.GroupAt | yt_to_blog.py:52 | a match of `(\d+)/100` at `i` has its group end at `j`: the group starts with a digit and stops at a non-digit, inside the text |
| Rating.Value | yt_to_blog.py:54 | `int` on a numeral of n digits gives a natural number below 10^n; `DecimalValue` shows it inverts the decimal numeral and `LeadingZero` that leading zeros do not count |
| Rating.ExtractRating | yt_to_blog.py:50-55 | `None` exactly when the text is `None` or holds no match anywhere (`""` included); otherwise the value of the digits of a match with no match before it, that is, the leftmost one |
| Rating.FirstMatchIsMaximalRun | yt_to_blog.py:52-54 | the group of the first match is a maximal digit run: no digit just before it and none just after it |
| Rating.RatingOfFirstMatch | yt_to_blog.py:52-54 | the rating is the decimal value of the first match's digits, wherever that match stands |
| Rating.RatingIsFirstMatch | yt_to_blog.py:52-54 | conversely, a rating always comes from a match with no earlier match |
| Rating.NoDigitsNoRating | yt_to_blog.py:52-55 | a text without any digit has no rating |
| Rating.LeadingRating | yt_to_blog.py:52-54 | a reply that starts with digits and `/100` is rated by those digits, whatever follows |
| Rating.LeadingZero | yt_to_blog.py:54 | leading zeros do not change the value |
| Rating.DecimalValue | yt_to_blog.py:54 | reading back the decimal numeral of `n` gives `n` |
| Rating.NoClamp | yt_to_blog.py:52-54 | every natural number written before `/100` is the rating, with no clamp at 100 |
| Rating.ExampleTypical | yt_to_blog.py:52-54 | `"87/100 - good"` gives 87 |
| Rating.ExampleNoRating | yt_to_blog.py:51-55 | `"no rating here"`, `""` and `None` give `None` |
| Rating.ExampleNoClamp | yt_to_blog.py:52-54 | `"150/100"` gives 150 |
| Rating.ExampleLeadingZeros | yt_to_blog.py:52-54 | `"007/100"` gives 7 |
| Rating.ExampleThousand | yt_to_blog.py:52-54 | `"87/1000"` gives 87, because the match is not anchored at its end |
| PipelineSpec.RewritePrompt | yt_to_blog.py:135-141 | the rewrite request contains the draft followed by the suggestions |
| PipelineSpec.ImprovementSpec | yt_to_blog.py:58-67 | the suggestion step's events hold exactly the answers it consumed; the remaining answers follow them |
| PipelineSpec.RewriteAndEvaluate | yt_to_blog.py:135-149 | the rewrite and the re-evaluation consume the script in order: if the loop goes on, the answers they took are followed by the answers left; if it stops, they took a prefix, and all answers when the script ran out |
| PipelineSpec.Pass | yt_to_blog.py:130-149 | a pass that lets the loop go on consumes at least one answer, so the loop makes progress; a pass makes only calls |
| PipelineSpec.LoopRun | yt_to_blog.py:128-150 | the loop makes only calls and never saves; `LoopCallOrder`, `LoopReachedReason`, `LoopBreakReason`, `LoopFinalDraft` and `LoopAnswers` state its order, exits, final draft and consumption, and `RefinementLoop` is proved to run as it says |
| PipelineSpec.Conclude | yt_to_blog.py:153 | after the loop, a crash is exactly a missing `prompt1.txt` and running out of answers is exactly `Exhausted`; otherwise exactly one event is added, the save of `new_draft` to `data/final_output.txt`; a loop of calls gives a run that saves only at its end |
| PipelineSpec.RefineRun | yt_to_blog.py:114-153 | from the initial evaluation on, the only save is the last event, and a run that does not return saves nothing |
| PipelineSpec.MainRun | yt_to_blog.py:103-153 | `main` saves at most once, as its last event, and saves nothing unless it returns normally; `MainAnswers` and the early-return lemmas state the rest |
| Pipeline.World.Call | yt_to_blog.py:32-47 | an external call takes the next scripted answer and logs it with its request; with no answer left, nothing changes |
| Pipeline.World.SaveFile | yt_to_blog.py:25-30 | `save_file` logs the path and the value passed, `None` included, and consumes no answer |
| Pipeline.GenerateImprovementInstructions | yt_to_blog.py:58-67 | the trace gains exactly the suggestion step's events, the method returns its value, and the answers taken from the script are exactly those of the events |
| Pipeline.RewriteAndEvaluateStep | yt_to_blog.py:135-149 | the rest of a loop body does what `RewriteAndEvaluate` describes: same events, same way out, same `new_draft`, and on every way out the script has advanced past exactly the answers of those events |
| Pipeline.LoopBody | yt_to_blog.py:130-149 | one pass of the loop does what `Pass` describes, and on every way out the script has advanced past exactly the answers of its events |
| Pipeline.RefinementLoop | yt_to_blog.py:128-150 | the `while` loop's trace, exit reason and final `new_draft` are those of `LoopRun`, and the script has advanced past exactly the answers of those events |
| Pipeline.EvaluateAndRefine | yt_to_blog.py:114-153 | from the initial draft on, `main` produces the events and outcome of `RefineRun` and takes exactly their answers from the script |
| Pipeline.RunPipeline | yt_to_blog.py:103-153 | `main(url)` produces exactly the events and outcome of `MainRun` and takes exactly their answers from the script |
| PipelineProperties.ImprovementShape | yt_to_blog.py:58-67 | the suggestion step makes at most one LLM call and never rewrites; it gives `None` only after a failed template read, an empty prompt or a failed LLM call |
| PipelineProperties.RewriteShape | yt_to_blog.py:135-149 | when the loop goes on, the rewrite call is followed by one evaluation call; the rewrite's answer is the new draft and the evaluation's answer is the rating text |
| PipelineProperties.RewriteStopShape | yt_to_blog.py:142-147 | if the loop stops during the rewrite step, `new_draft` is `None` exactly after a failed rewrite, and is otherwise the latest draft |
| PipelineProperties.RewriteStopReason | yt_to_blog.py:142-147 | a failed rewrite ends with a rewrite call answered `None`; a crash ends with a failed read of `prompt1.txt` |
| PipelineProperties.PassShape | yt_to_blog.py:130-149 | a pass that goes on makes a suggestion call, a rewrite call and an evaluation call, in that order, and carries the rewritten draft |
| PipelineProperties.PassStopAfterRewrite | yt_to_blog.py:130-147 | a pass that stops after suggestions were obtained stops where the rewrite step stopped |
| PipelineProperties.PassStopShape | yt_to_blog.py:130-145 | a pass that stops was cut short after the suggestion call or after the rewrite call; it never stops by reaching the threshold; `new_draft` is `None` exactly after a failed rewrite |
| PipelineProperties.PassStopReason | yt_to_blog.py:130-147 | the last event of a stopped pass shows why it stopped |
| PipelineProperties.LoopCallOrder | yt_to_blog.py:129-150 | the calls inside the loop are suggestion, rewrite, evaluation, repeated in that order; a loop ended by the threshold leaves no round unfinished |
| PipelineProperties.LoopReachedReason | yt_to_blog.py:129-149 | the loop exits normally only with a rating of at least 90: the entry rating, when no pass ran, or the rating of the last evaluation |
| PipelineProperties.LoopBreakReason | yt_to_blog.py:130-147 | a `break` or crash is explained by the loop's last event: a failed suggestion step, a rewrite answered `None`, or a failed read of `prompt1.txt` |
| PipelineProperties.LoopFinalDraft | yt_to_blog.py:128-153 | after the threshold or a failed suggestion step, `new_draft` is the last successful rewrite (or the starting draft); after a failed rewrite it is `None`, and only then |
| PipelineProperties.PassAnswers | yt_to_blog.py:130-149 | a pass consumes the script's answers in order and invents none |
| PipelineProperties.LoopAnswers | yt_to_blog.py:129-150 | the loop's answers are a prefix of the script, and all of it when the script ran out |
| PipelineProperties.ConcludeAnswers | yt_to_blog.py:153 | saving consumes no answer |
| PipelineProperties.RefineAnswers | yt_to_blog.py:114-153 | from the initial evaluation on, `main` consumes the script in order |
| PipelineProperties.RefineLoopAnswers | yt_to_blog.py:124-153 | after a successful initial evaluation, `main` consumes the script in order |
| PipelineProperties.MainAnswers | yt_to_blog.py:103-153 | `main` consumes the script in order, and ends `Exhausted` only after using all of it |
| PipelineProperties.MediaFailureReturnsEarly | yt_to_blog.py:103-112 | if the download or the conversion fails, `main` returns with no template read, LLM call or save |
| PipelineProperties.EvaluationTemplateMissingCrashes | yt_to_blog.py:118 | a missing `prompt1.txt` crashes `main` before any LLM call |
| PipelineProperties.InitialEvaluationFailureReturns | yt_to_blog.py:118-122 | a failed initial evaluation returns with no suggestion call, rewrite call or save |
| PipelineProperties.InitialDraftAccepted | yt_to_blog.py:124-153 | an initial rating of at least 90 skips the loop and saves exactly the initial draft |
| PipelineProperties.ReEvaluationFailureContinues | yt_to_blog.py:129-149 | a re-evaluation answered `None` does not stop the loop: the next pass begins with the suggestion step's template read |
| PipelineProperties.PassStart | yt_to_blog.py:130 | a pass with answers left begins by reading `improvement_prompt.txt` |
| PipelineProperties.ImprovementGating | yt_to_blog.py:60-64 | a failed template read or an empty substituted prompt gives `None` with no LLM call; otherwise the reply to the substituted prompt is returned |
| PipelineProperties.ImprovementPromptEmpty | yt_to_blog.py:60-61 | with a non-empty draft, the improvement prompt is empty only for an empty template |
| PipelineProperties.ScenarioAcceptedAtOnce | yt_to_blog.py:114-153 | an evaluation answering `"95/100"` gives one evaluation, no loop pass, and the initial draft saved |
| PipelineProperties.ScenarioOneRound | yt_to_blog.py:129-150 | ratings `"50/100"` then `"92/100"` give exactly one round of suggestion, rewrite and evaluation, and the rewritten draft is kept |
| PipelineProperties.FullRound | yt_to_blog.py:130-149 | a pass whose calls all succeed and whose improvement prompt is non-empty goes on with the rewritten draft and the evaluation's reply, having used five answers |
| PipelineProperties.AcceptedRound | yt_to_blog.py:129-150 | from a draft below 90, a pass whose calls all succeed and whose evaluation reaches 90 ends the loop after one round of suggestion, rewrite and evaluation, with the rewritten draft kept |
| PipelineProperties.AcceptedAfterOnePass | yt_to_blog.py:129-150 | a pass whose evaluation reaches 90 is the last, and its draft is kept |
| PipelineProperties.ScenarioHelloWorld | yt_to_blog.py:129-150 | starting from `"Hello world"` rated 40, with suggestions `"add detail"` and a rewrite rated 99, one full round is made and `"Hello world, in detail"` is the final draft |

## Left out

- `chatgpt` (lines 32-47) is an oracle answer. The OpenAI request parameters and the
  global `openai.api_key` are not modelled.
- `download_youtube_video` and `convert_video_to_mp3` (lines 70-91) are oracle answers:
  only whether they succeed matters. `audio_path` is never used after line 112.
- `open_file` (lines 16-22) is an oracle answer. `save_file` (lines 25-30) records the
  value it is given.
- `os.mkdir` (lines 99-100) is not modelled.
- The file truncation that happens when `write(None)` raises in `save_file` is operating
  system behaviour and is not modelled.
- Logging, `sys.argv` handling and the `OPENAI_API_KEY` read (lines 13, 95, 156-161) are
  not modelled, because they are I/O with no logic.
- Rating.ExtractRating: `\d` and `int` accept only the ASCII digits '0'..'9'. Python's
  also accept other Unicode decimal digits. CPython (3.11 on, and security releases of
  earlier versions) also limits `int` on a string to 4300 digits by default and raises
  `ValueError` beyond that. At line 54 nothing catches it, neither `extract_rating` nor
  `main` (lines 124 and 149), so the program stops without saving. The model returns the
  value of a numeral of any length.
- Rating.NoClamp: holds in CPython only for numerals within that 4300-digit limit. For a
  longer one `int` raises `ValueError` instead of returning `n`.
- PipelineSpec.RewritePrompt: the exact text and whitespace of the rewrite request are
  not modelled. The single-quoted f-string at lines 135-141 spans several physical lines,
  so its exact form is unclear. The model joins a fixed introduction, the draft, a fixed
  heading and the suggestions, and its contract states only that the draft comes before
  the suggestions.
- Termination: the loop has no bound. The model runs on a finite script and ends
  `Exhausted` when the answers run out, so termination is not proved.
- Text.Replace models `str.replace` only for a non-empty placeholder. The source uses only
  `<<DRAFT>>` and `<<ANSWER>>`.
