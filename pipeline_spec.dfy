/**
 * What `main` and `generate_improvement_instructions` do, as functions of the answers
 * the outside world gives them. Every external call (the video download, the MP3
 * conversion, reading a template with `open_file`, an LLM call with `chatgpt`) is
 * answered by the next entry of a script of `Option<string>` replies, `None` being the
 * failure sentinel those helpers return. The script is finite: a run that needs more
 * answers than it holds ends as `Exhausted`, an outcome of the model and not of the
 * program, whose loop has no bound.
 */
module PipelineSpec {
  import opened Wrappers
  import opened Text
  import opened Rating

  /** The rating a draft must reach for the loop to accept it. */
  const Threshold: int := 90
  const EvaluationTemplate: string := "prompt1.txt"
  const ImprovementTemplate: string := "improvement_prompt.txt"
  const AnswerMarker: string := "<<ANSWER>>"
  const DraftMarker: string := "<<DRAFT>>"
  const OutputPath: string := "data/final_output.txt"
  /** The hard-coded starting draft of `main`. */
  const InitialDraft: string := "Your initial draft content here."

  /** The fixed text of the rewrite request around the draft and the suggestions. */
  const RewriteIntro: string := "Please improve the following draft based on the provided suggestions.\n\nOriginal Draft:\n"
  const SuggestionsHeading: string := "\n\nImprovement Suggestions:\n"

  /** The answers still to be given to external calls, in call order. */
  type Script = seq<Option<string>>

  /** An external call, tagged with the call site that makes it. */
  datatype Request =
    | Download(url: string)          // download_youtube_video
    | Convert(videoPath: string)     // convert_video_to_mp3
    | ReadTemplate(path: string)     // open_file
    | Evaluate(prompt: string)       // chatgpt on the evaluation prompt
    | Improve(prompt: string)        // chatgpt in generate_improvement_instructions
    | Rewrite(prompt: string)        // chatgpt on the rewrite request

  /** What the program does to the outside world: a call with the answer it got, or a save. */
  datatype Event =
    | Ask(request: Request, answer: Option<string>)
    | Save(path: string, content: Option<string>)

  /**
   * How `main` ends: it returns (early, or after saving), it crashes with the uncaught
   * `AttributeError` of `None.replace` when `prompt1.txt` cannot be read, or the script
   * runs out (model only).
   */
  datatype Outcome = Returned | Crashed | Exhausted

  datatype Run = Run(events: seq<Event>, outcome: Outcome)

  /** A step that produces a value and leaves the rest of the script, or runs out of answers. */
  datatype Reply =
    | Reply(events: seq<Event>, value: Option<string>, rest: Script)
    | Stuck(events: seq<Event>)

  /** Why the refinement loop stopped, and so what `main` does next. */
  datatype LoopExit =
    | RatingReached                  // the loop condition became false
    | NoInstructions                 // break: the suggestion step returned None
    | NoNewDraft                     // break: the rewrite returned None
    | EvaluationTemplateMissing      // open_file('prompt1.txt') returned None: crash
    | ScriptEnded                    // model only

  /** The loop's events, how it stopped, and the value of `new_draft` at that point. */
  datatype LoopResult = LoopResult(events: seq<Event>, exit: LoopExit, newDraft: Option<string>)

  /** The answers recorded in a sequence of events, in order. */
  function Answers(events: seq<Event>): Script
  {
    if events == [] then []
    else
      var last := events[|events| - 1];
      Answers(events[..|events| - 1]) + (if last.Ask? then [last.answer] else [])
  }

  /** Answers are taken in order: those of a concatenation are those of its parts. */
  lemma {:induction false} AnswersAppend(a: seq<Event>, b: seq<Event>)
    ensures Answers(a + b) == Answers(a) + Answers(b)
    decreases |b|
  {
    if b != [] {
      assert (a + b)[..|a + b| - 1] == a + b[..|b| - 1];
      AnswersAppend(a, b[..|b| - 1]);
    } else {
      assert a + b == a;
    }
  }

  /** Every event is an external call: nothing was saved. */
  predicate AllCalls(events: seq<Event>)
  {
    forall k :: 0 <= k < |events| ==> events[k].Ask?
  }

  /** At most one save, as the last event, to the output file. */
  predicate SavesOnlyAtEnd(events: seq<Event>)
  {
    forall k :: 0 <= k < |events| && events[k].Save? ==> k == |events| - 1 && events[k].path == OutputPath
  }

  /** Calls followed by calls are calls; calls followed by a run that saves last save last. */
  lemma CallsFirst(a: seq<Event>, b: seq<Event>)
    requires AllCalls(a)
    ensures AllCalls(b) ==> AllCalls(a + b)
    ensures SavesOnlyAtEnd(b) ==> SavesOnlyAtEnd(a + b)
  {
    forall k | |a| <= k < |a + b| ensures (a + b)[k] == b[k - |a|] {
    }
  }

  /**
   * The request for a new draft: the draft followed by the suggestions. The source's
   * line breaks and indentation are not modelled.
   */
  function RewritePrompt(draft: string, suggestions: string): (p: string)
    ensures exists a, b, c :: p == a + draft + b + suggestions + c
  {
    var a := RewriteIntro;
    var b := SuggestionsHeading;
    assert a + draft + b + suggestions == a + draft + b + suggestions + "";
    a + draft + b + suggestions
  }

  /**
   * `generate_improvement_instructions(draft)`: read the improvement template; a failed
   * read makes `.replace` raise, which the function catches, giving `None`; an empty
   * prompt gives `None` without an LLM call; otherwise the LLM's answer.
   */
  function ImprovementSpec(draft: string, s: Script): (r: Reply)
    ensures r.Reply? ==> s == Answers(r.events) + r.rest
    ensures r.Stuck? ==> s == Answers(r.events)
    ensures AllCalls(r.events)
  {
    if |s| == 0 then Stuck([])
    else
      var read := Ask(ReadTemplate(ImprovementTemplate), s[0]);
      assert Answers([read]) == [s[0]];
      if s[0].None? then Reply([read], None, s[1..])
      else
        var prompt := Replace(s[0].value, DraftMarker, draft);
        if prompt == "" then Reply([read], None, s[1..])
        else if |s| == 1 then Stuck([read])
        else
          var ask := Ask(Improve(prompt), s[1]);
          assert Answers([read, ask]) == [s[0], s[1]] by {
            assert [read, ask][..1] == [read];
          }
          Reply([read, ask], s[1], s[2..])
  }

  /**
   * One pass of the loop body: either the loop goes on with a new draft, the reply to
   * its evaluation and the rest of the script, or it stops (a `break`, a crash, or no answers left)
   * with the value `new_draft` then holds.
   */
  datatype PassResult =
    | Continue(events: seq<Event>, draft: string, evaluation: Option<string>, rest: Script)
    | Stop(events: seq<Event>, exit: LoopExit, newDraft: Option<string>)

  /**
   * The second half of a pass, once suggestions are in hand: ask for a rewrite; if there
   * is a new draft, read `prompt1.txt` and evaluate the new draft.
   */
  function RewriteAndEvaluate(draft: string, suggestions: string, s: Script): (p: PassResult)
    ensures p.Continue? ==> s == Answers(p.events) + p.rest
    ensures p.Stop? ==> Answers(p.events) <= s && (p.exit == ScriptEnded ==> Answers(p.events) == s)
    ensures AllCalls(p.events)
  {
    if |s| == 0 then Stop([], ScriptEnded, Some(draft))
    else
      var rewrite := Ask(Rewrite(RewritePrompt(draft, suggestions)), s[0]);
      assert Answers([rewrite]) == [s[0]];
      if s[0].None? then Stop([rewrite], NoNewDraft, None)
      else
        var next := s[0].value;
        if |s| == 1 then Stop([rewrite], ScriptEnded, Some(next))
        else
          var read := Ask(ReadTemplate(EvaluationTemplate), s[1]);
          assert Answers([rewrite, read]) == [s[0], s[1]] by {
            assert [rewrite, read][..1] == [rewrite];
          }
          if s[1].None? then Stop([rewrite, read], EvaluationTemplateMissing, Some(next))
          else if |s| == 2 then Stop([rewrite, read], ScriptEnded, Some(next))
          else
            var evaluate := Ask(Evaluate(Replace(s[1].value, AnswerMarker, next)), s[2]);
            assert Answers([rewrite, read, evaluate]) == [s[0], s[1], s[2]] by {
              assert [rewrite, read, evaluate][..2] == [rewrite, read];
              assert [rewrite, read][..1] == [rewrite];
            }
            Continue([rewrite, read, evaluate], next, s[2], s[3..])
  }

  /** `p` with `events` happening first. */
  function After(events: seq<Event>, p: PassResult): PassResult
  {
    match p
    case Continue(ev, d, e, rest) => Continue(events + ev, d, e, rest)
    case Stop(ev, exit, d) => Stop(events + ev, exit, d)
  }

  /** The body of the `while` loop of `main`: suggestions, a rewrite, then its evaluation. */
  function Pass(draft: string, s: Script): (p: PassResult)
    ensures p.Continue? ==> |p.rest| < |s|
    ensures AllCalls(p.events)
  {
    match ImprovementSpec(draft, s)
    case Stuck(ev) => Stop(ev, ScriptEnded, Some(draft))
    case Reply(ev, suggestions, s1) =>
      if suggestions.None? then Stop(ev, NoInstructions, Some(draft))
      else
        var p := RewriteAndEvaluate(draft, suggestions.value, s1);
        assert p.Continue? ==> |Answers(p.events)| == 3;
        CallsFirst(ev, p.events);
        After(ev, p)
  }

  /**
   * The `while` loop of `main`, entered with the current draft and its extracted rating:
   * it runs passes while the rating is absent or below the threshold. It only makes
   * calls; the save comes after it.
   */
  function LoopRun(draft: string, rating: Option<int>, s: Script): (l: LoopResult)
    ensures AllCalls(l.events)
    decreases |s|
  {
    if rating.Some? && rating.value >= Threshold then LoopResult([], RatingReached, Some(draft))
    else
      match Pass(draft, s)
      case Stop(ev, exit, newDraft) => LoopResult(ev, exit, newDraft)
      case Continue(ev, next, evaluation, rest) =>
        var more := LoopRun(next, ExtractRating(evaluation), rest);
        CallsFirst(ev, more.events);
        LoopResult(ev + more.events, more.exit, more.newDraft)
  }

  /**
   * After the loop: save `new_draft`, unless the loop crashed or the script ran out. The
   * loop's events come first; a crash is exactly a missing `prompt1.txt`; otherwise the
   * one event added is the save of `new_draft`, to the output file.
   */
  function Conclude(l: LoopResult): (r: Run)
    ensures l.events <= r.events
    ensures r.outcome == Crashed <==> l.exit == EvaluationTemplateMissing
    ensures r.outcome == Exhausted <==> l.exit == ScriptEnded
    ensures r.outcome == Returned ==> |r.events| == |l.events| + 1 && r.events[|l.events|] == Save(OutputPath, l.newDraft)
    ensures r.outcome != Returned ==> r.events == l.events
    ensures AllCalls(l.events) ==> SavesOnlyAtEnd(r.events)
  {
    match l.exit
    case EvaluationTemplateMissing => Run(l.events, Crashed)
    case ScriptEnded => Run(l.events, Exhausted)
    case _ => Run(l.events + [Save(OutputPath, l.newDraft)], Returned)
  }

  function Prefixed(events: seq<Event>, r: Run): Run
  {
    Run(events + r.events, r.outcome)
  }

  /**
   * From the initial evaluation on: read `prompt1.txt`, rate the initial draft, refine.
   * Only the last event can be a save, and a run that does not return saves nothing.
   */
  function RefineRun(s: Script): (r: Run)
    ensures SavesOnlyAtEnd(r.events)
    ensures r.outcome != Returned ==> AllCalls(r.events)
  {
    if |s| == 0 then Run([], Exhausted)
    else
      var read := Ask(ReadTemplate(EvaluationTemplate), s[0]);
      if s[0].None? then Run([read], Crashed)
      else if |s| == 1 then Run([read], Exhausted)
      else
        var ask := Ask(Evaluate(Replace(s[0].value, AnswerMarker, InitialDraft)), s[1]);
        if s[1].None? then Run([read, ask], Returned)
        else
          var concluded := Conclude(LoopRun(InitialDraft, ExtractRating(s[1]), s[2..]));
          CallsFirst([read, ask], concluded.events);
          Prefixed([read, ask], concluded)
  }

  /**
   * `main(url)`: download, convert, then refine; either media step failing returns at
   * once. Only the last event can be a save, and a run that does not return saves nothing.
   */
  function MainRun(url: string, s: Script): (r: Run)
    ensures SavesOnlyAtEnd(r.events)
    ensures r.outcome != Returned ==> AllCalls(r.events)
  {
    if |s| == 0 then Run([], Exhausted)
    else
      var download := Ask(Download(url), s[0]);
      if s[0].None? then Run([download], Returned)
      else if |s| == 1 then Run([download], Exhausted)
      else
        var convert := Ask(Convert(s[0].value), s[1]);
        if s[1].None? then Run([download, convert], Returned)
        else
          CallsFirst([download, convert], RefineRun(s[2..]).events);
          Prefixed([download, convert], RefineRun(s[2..]))
  }
}
