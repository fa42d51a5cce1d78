/**
 * `main` and `generate_improvement_instructions` as the step-by-step programs they are,
 * running against a `World` that answers their external calls from a scripted list,
 * advancing an index, and records every call and save. Each method is proved to do
 * exactly what the matching function of `PipelineSpec` describes.
 */
module Pipeline {
  import opened Wrappers
  import opened Text
  import opened Rating
  import opened PipelineSpec

  /** The outside world: scripted answers consumed in order, and a log of what happened. */
  class World {
    const responses: Script
    var next: nat
    var trace: seq<Event>

    /** The answers logged in `trace` are the answers used so far, in order. */
    ghost predicate Valid()
      reads this
    {
      next <= |responses| && Answers(trace) == responses[..next]
    }

    /** The answers not yet given. */
    function Remaining(): Script
      reads this
      requires Valid()
    {
      responses[next..]
    }

    constructor (responses: Script)
      ensures Valid() && this.responses == responses && next == 0 && trace == []
    {
      this.responses := responses;
      next := 0;
      trace := [];
    }

    /**
     * Makes one external call. When the script still has an answer, it is returned and
     * logged with the request; otherwise nothing happens and `answered` is false.
     */
    method Call(request: Request) returns (answered: bool, answer: Option<string>)
      requires Valid()
      modifies this
      ensures Valid()
      ensures answered == (old(Remaining()) != [])
      ensures answered ==> answer == old(Remaining())[0] && Remaining() == old(Remaining())[1..]
                           && trace == old(trace) + [Ask(request, answer)]
      ensures !answered ==> next == old(next) && trace == old(trace)
    {
      answered := next < |responses|;
      if answered {
        answer := responses[next];
        AnswersAppend(trace, [Ask(request, answer)]);
        assert Answers([Ask(request, answer)]) == [answer] by {
          assert [Ask(request, answer)][..0] == [];
        }
        assert responses[..next + 1] == responses[..next] + [answer];
        next := next + 1;
        trace := trace + [Ask(request, answer)];
      } else {
        answer := None;
      }
    }

    /** `save_file(path, content)`: records the value handed over, `None` included. */
    method SaveFile(path: string, content: Option<string>)
      requires Valid()
      modifies this
      ensures Valid() && next == old(next)
      ensures trace == old(trace) + [Save(path, content)]
    {
      AnswersAppend(trace, [Save(path, content)]);
      assert Answers([Save(path, content)]) == [] by {
        assert [Save(path, content)][..0] == [];
      }
      trace := trace + [Save(path, content)];
    }
  }

  /**
   * `generate_improvement_instructions(draft)`. `answered` is false when the script ran
   * out; otherwise `instructions` is the function's return value.
   */
  method GenerateImprovementInstructions(w: World, draft: string) returns (answered: bool, instructions: Option<string>)
    requires w.Valid()
    modifies w
    ensures w.Valid()
    ensures var r := ImprovementSpec(draft, old(w.Remaining()));
            answered == r.Reply? && w.trace == old(w.trace) + r.events
            && (answered ==> instructions == r.value && w.Remaining() == r.rest)
    ensures old(w.Remaining()) == Answers(ImprovementSpec(draft, old(w.Remaining())).events) + w.Remaining()
  {
    var template;
    answered, template := w.Call(ReadTemplate(ImprovementTemplate));
    if !answered {
      Consumed(w.responses, old(w.next), w.next, old(w.trace), ImprovementSpec(draft, old(w.Remaining())).events);
      return false, None;
    }
    if template.None? {
      // `None.replace` raises; the handler logs it and returns None.
      Consumed(w.responses, old(w.next), w.next, old(w.trace), ImprovementSpec(draft, old(w.Remaining())).events);
      return true, None;
    }
    var prompt := Replace(template.value, DraftMarker, draft);
    if prompt == "" {
      Consumed(w.responses, old(w.next), w.next, old(w.trace), ImprovementSpec(draft, old(w.Remaining())).events);
      return true, None;
    }
    answered, instructions := w.Call(Improve(prompt));
    Consumed(w.responses, old(w.next), w.next, old(w.trace), ImprovementSpec(draft, old(w.Remaining())).events);
  }

  /**
   * One pass of the body of `main`'s `while` loop: suggestions, a rewrite, then the
   * evaluation of the new draft. `goOn` is false where the body leaves the loop (a
   * `break`, the uncaught `AttributeError`, or no answers left), with `exit` saying
   * which; `newDraft` is then the value `new_draft` holds.
   */
  method LoopBody(w: World, draft: string) returns (goOn: bool, exit: LoopExit, newDraft: Option<string>, evaluation: Option<string>)
    requires w.Valid()
    modifies w
    ensures w.Valid()
    ensures var p := Pass(draft, old(w.Remaining()));
            w.trace == old(w.trace) + p.events && goOn == p.Continue?
            && (goOn ==> newDraft == Some(p.draft) && evaluation == p.evaluation && w.Remaining() == p.rest)
            && (!goOn ==> exit == p.exit && newDraft == p.newDraft)
    ensures old(w.Remaining()) == Answers(Pass(draft, old(w.Remaining())).events) + w.Remaining()
  {
    var answered, instructions := GenerateImprovementInstructions(w, draft);
    if !answered {
      Consumed(w.responses, old(w.next), w.next, old(w.trace), Pass(draft, old(w.Remaining())).events);
      return false, ScriptEnded, Some(draft), None;
    }
    if instructions.None? {
      Consumed(w.responses, old(w.next), w.next, old(w.trace), Pass(draft, old(w.Remaining())).events);
      return false, NoInstructions, Some(draft), None;
    }
    ghost var ev := ImprovementSpec(draft, old(w.Remaining())).events;
    ghost var rest := w.Remaining();
    goOn, exit, newDraft, evaluation := RewriteAndEvaluateStep(w, draft, instructions.value);
    AppendAssoc(old(w.trace), ev, RewriteAndEvaluate(draft, instructions.value, rest).events);
    Consumed(w.responses, old(w.next), w.next, old(w.trace), Pass(draft, old(w.Remaining())).events);
  }

  /**
   * The rest of the loop body once suggestions are in hand: the rewrite request, then,
   * for a new draft, `prompt1.txt` and the evaluation of that draft.
   */
  method RewriteAndEvaluateStep(w: World, draft: string, suggestions: string)
    returns (goOn: bool, exit: LoopExit, newDraft: Option<string>, evaluation: Option<string>)
    requires w.Valid()
    modifies w
    ensures w.Valid()
    ensures var p := RewriteAndEvaluate(draft, suggestions, old(w.Remaining()));
            w.trace == old(w.trace) + p.events && goOn == p.Continue?
            && (goOn ==> newDraft == Some(p.draft) && evaluation == p.evaluation && w.Remaining() == p.rest)
            && (!goOn ==> exit == p.exit && newDraft == p.newDraft)
    ensures old(w.Remaining()) == Answers(RewriteAndEvaluate(draft, suggestions, old(w.Remaining())).events) + w.Remaining()
  {
    exit, evaluation := ScriptEnded, None;
    newDraft := Some(draft);
    var answered, rewritten := w.Call(Rewrite(RewritePrompt(draft, suggestions)));
    if !answered {
      Consumed(w.responses, old(w.next), w.next, old(w.trace), RewriteAndEvaluate(draft, suggestions, old(w.Remaining())).events);
      return false, ScriptEnded, newDraft, None;
    }
    newDraft := rewritten;
    if newDraft.None? {
      Consumed(w.responses, old(w.next), w.next, old(w.trace), RewriteAndEvaluate(draft, suggestions, old(w.Remaining())).events);
      return false, NoNewDraft, newDraft, None;
    }
    var template;
    answered, template := w.Call(ReadTemplate(EvaluationTemplate));
    if !answered {
      Consumed(w.responses, old(w.next), w.next, old(w.trace), RewriteAndEvaluate(draft, suggestions, old(w.Remaining())).events);
      return false, ScriptEnded, newDraft, None;
    }
    if template.None? {
      // `None.replace` raises AttributeError, which nothing catches.
      Consumed(w.responses, old(w.next), w.next, old(w.trace), RewriteAndEvaluate(draft, suggestions, old(w.Remaining())).events);
      return false, EvaluationTemplateMissing, newDraft, None;
    }
    answered, evaluation := w.Call(Evaluate(Replace(template.value, AnswerMarker, newDraft.value)));
    if !answered {
      Consumed(w.responses, old(w.next), w.next, old(w.trace), RewriteAndEvaluate(draft, suggestions, old(w.Remaining())).events);
      return false, ScriptEnded, newDraft, None;
    }
    goOn := true;
    Consumed(w.responses, old(w.next), w.next, old(w.trace), RewriteAndEvaluate(draft, suggestions, old(w.Remaining())).events);
  }

  /**
   * The `while` loop of `main` (its lines from `new_draft = initial_draft` to the loop's
   * end), entered with the draft and its extracted rating. Returns how the loop stopped
   * and the value of `new_draft` at that point.
   */
  method RefinementLoop(w: World, draft: string, rating: Option<int>) returns (exit: LoopExit, newDraft: Option<string>)
    requires w.Valid()
    modifies w
    ensures w.Valid()
    ensures var l := LoopRun(draft, rating, old(w.Remaining()));
            w.trace == old(w.trace) + l.events && exit == l.exit && newDraft == l.newDraft
    ensures old(w.Remaining()) == Answers(LoopRun(draft, rating, old(w.Remaining())).events) + w.Remaining()
  {
    ghost var goal := LoopRun(draft, rating, w.Remaining());
    ghost var done: seq<Event> := [];
    newDraft := Some(draft);
    var extracted := rating;
    while extracted.None? || extracted.value < Threshold
      invariant w.Valid() && newDraft.Some? && w.trace == old(w.trace) + done
      invariant var l := LoopRun(newDraft.value, extracted, w.Remaining());
                goal == LoopResult(done + l.events, l.exit, l.newDraft)
      decreases |w.Remaining()|
    {
      ghost var pass := Pass(newDraft.value, w.Remaining());
      var goOn, stopped, next, evaluation := LoopBody(w, newDraft.value);
      AppendAssoc(old(w.trace), done, pass.events);
      if !goOn {
        Consumed(w.responses, old(w.next), w.next, old(w.trace), LoopRun(draft, rating, old(w.Remaining())).events);
        return stopped, next;
      }
      // A failed evaluation gives no rating, so the loop goes on.
      newDraft, extracted := next, ExtractRating(evaluation);
      AppendAssoc(done, pass.events, LoopRun(newDraft.value, extracted, w.Remaining()).events);
      done := done + pass.events;
    }
    exit := RatingReached;
    Consumed(w.responses, old(w.next), w.next, old(w.trace), LoopRun(draft, rating, old(w.Remaining())).events);
  }

  /** `main` from the initial draft on: evaluate it, refine, save. */
  method EvaluateAndRefine(w: World) returns (outcome: Outcome)
    requires w.Valid()
    modifies w
    ensures w.Valid()
    ensures var run := RefineRun(old(w.Remaining()));
            w.trace == old(w.trace) + run.events && outcome == run.outcome
    ensures old(w.Remaining()) == Answers(RefineRun(old(w.Remaining())).events) + w.Remaining()
  {
    var initialDraft := InitialDraft;
    var answered, template := w.Call(ReadTemplate(EvaluationTemplate));
    if !answered {
      Consumed(w.responses, old(w.next), w.next, old(w.trace), RefineRun(old(w.Remaining())).events);
      return Exhausted;
    }
    if template.None? {
      // `None.replace` raises AttributeError, which nothing catches.
      Consumed(w.responses, old(w.next), w.next, old(w.trace), RefineRun(old(w.Remaining())).events);
      return Crashed;
    }
    var rating;
    answered, rating := w.Call(Evaluate(Replace(template.value, AnswerMarker, initialDraft)));
    if !answered {
      Consumed(w.responses, old(w.next), w.next, old(w.trace), RefineRun(old(w.Remaining())).events);
      return Exhausted;
    }
    if rating.None? {
      Consumed(w.responses, old(w.next), w.next, old(w.trace), RefineRun(old(w.Remaining())).events);
      return Returned;
    }
    ghost var evaluated := [Ask(ReadTemplate(EvaluationTemplate), template), Ask(Evaluate(Replace(template.value, AnswerMarker, initialDraft)), rating)];
    ghost var l := LoopRun(initialDraft, ExtractRating(rating), w.Remaining());
    assert w.trace == old(w.trace) + evaluated;
    var exit, newDraft := RefinementLoop(w, initialDraft, ExtractRating(rating));
    AppendAssoc(old(w.trace), evaluated, l.events);
    if exit == EvaluationTemplateMissing {
      Consumed(w.responses, old(w.next), w.next, old(w.trace), RefineRun(old(w.Remaining())).events);
      return Crashed;
    }
    if exit == ScriptEnded {
      Consumed(w.responses, old(w.next), w.next, old(w.trace), RefineRun(old(w.Remaining())).events);
      return Exhausted;
    }
    w.SaveFile(OutputPath, newDraft);
    AppendAssoc(old(w.trace), evaluated, l.events + [Save(OutputPath, newDraft)]);
    AppendAssoc(old(w.trace) + evaluated, l.events, [Save(OutputPath, newDraft)]);
    outcome := Returned;
    Consumed(w.responses, old(w.next), w.next, old(w.trace), RefineRun(old(w.Remaining())).events);
  }

  lemma AppendAssoc<T>(a: seq<T>, b: seq<T>, c: seq<T>)
    ensures (a + b) + c == a + (b + c)
  {
  }

  /**
   * A world that went from answer `before` to answer `after` while logging `events` gave
   * exactly the answers of `events` in between.
   */
  lemma Consumed(responses: Script, before: nat, after: nat, trace: seq<Event>, events: seq<Event>)
    ensures before <= |responses| && after <= |responses|
            && Answers(trace) == responses[..before] && Answers(trace + events) == responses[..after]
            ==> responses[before..] == Answers(events) + responses[after..]
  {
    if before <= |responses| && after <= |responses|
       && Answers(trace) == responses[..before] && Answers(trace + events) == responses[..after]
    {
      AnswersAppend(trace, events);
      assert responses[..after] == responses[..before] + Answers(events);
      assert responses[before..after] == Answers(events);
      assert responses[before..] == responses[before..after] + responses[after..];
    }
  }

  /** `main(url)`. The log of `w` gains exactly the events of `MainRun`. */
  method RunPipeline(w: World, url: string) returns (outcome: Outcome)
    requires w.Valid()
    modifies w
    ensures w.Valid()
    ensures var run := MainRun(url, old(w.Remaining()));
            w.trace == old(w.trace) + run.events && outcome == run.outcome
    ensures old(w.Remaining()) == Answers(MainRun(url, old(w.Remaining())).events) + w.Remaining()
  {
    ghost var s := w.Remaining();
    var answered, videoPath := w.Call(Download(url));
    if !answered {
      assert s == [];
      Consumed(w.responses, old(w.next), w.next, old(w.trace), MainRun(url, old(w.Remaining())).events);
      return Exhausted;
    }
    if videoPath.None? {
      assert MainRun(url, s) == Run([Ask(Download(url), None)], Returned);
      Consumed(w.responses, old(w.next), w.next, old(w.trace), MainRun(url, old(w.Remaining())).events);
      return Returned;
    }
    var audioPath;
    answered, audioPath := w.Call(Convert(videoPath.value));
    if !answered {
      assert |s| == 1;
      Consumed(w.responses, old(w.next), w.next, old(w.trace), MainRun(url, old(w.Remaining())).events);
      return Exhausted;
    }
    ghost var media := [Ask(Download(url), videoPath), Ask(Convert(videoPath.value), audioPath)];
    if audioPath.None? {
      assert MainRun(url, s) == Run(media, Returned);
      Consumed(w.responses, old(w.next), w.next, old(w.trace), MainRun(url, old(w.Remaining())).events);
      return Returned;
    }
    assert w.Remaining() == s[2..];
    assert MainRun(url, s) == Prefixed(media, RefineRun(s[2..]));
    ghost var mid := w.trace;
    assert mid == old(w.trace) + media;
    // `audio_path` is not used again.
    outcome := EvaluateAndRefine(w);
    AppendAssoc(old(w.trace), media, RefineRun(s[2..]).events);
    Consumed(w.responses, old(w.next), w.next, old(w.trace), MainRun(url, old(w.Remaining())).events);
  }
}
