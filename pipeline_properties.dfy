/**
 * What the refinement pipeline guarantees, proved about the functions of `PipelineSpec`
 * (and so, through the contracts of `Pipeline`, about the imperative model).
 */
module PipelineProperties {
  import opened Wrappers
  import opened Text
  import opened Rating
  import opened PipelineSpec

  /** The order of LLM calls: 0 for a suggestion call, 1 for a rewrite, 2 for an evaluation. */
  function StageOf(e: Event): seq<int>
  {
    match e
    case Ask(Improve(_), _) => [0]
    case Ask(Rewrite(_), _) => [1]
    case Ask(Evaluate(_), _) => [2]
    case _ => []
  }

  /** The stages of the LLM calls among `events`, in order. */
  function Stages(events: seq<Event>): seq<int>
  {
    if events == [] then [] else Stages(events[..|events| - 1]) + StageOf(events[|events| - 1])
  }

  /** The draft `new_draft` holds after `events`: the last successful rewrite, else `draft`. */
  function LatestDraft(draft: string, events: seq<Event>): string
  {
    if events == [] then draft
    else
      var e := events[|events| - 1];
      if e.Ask? && e.request.Rewrite? && e.answer.Some? then e.answer.value
      else LatestDraft(draft, events[..|events| - 1])
  }

  lemma {:induction false} StagesAppend(a: seq<Event>, b: seq<Event>)
    ensures Stages(a + b) == Stages(a) + Stages(b)
    decreases |b|
  {
    if b != [] {
      assert (a + b)[..|a + b| - 1] == a + b[..|b| - 1];
      StagesAppend(a, b[..|b| - 1]);
    } else {
      assert a + b == a;
    }
  }

  lemma {:induction false} LatestDraftAppend(d: string, a: seq<Event>, b: seq<Event>)
    ensures LatestDraft(d, a + b) == LatestDraft(LatestDraft(d, a), b)
    decreases |b|
  {
    if b != [] {
      assert (a + b)[..|a + b| - 1] == a + b[..|b| - 1];
      LatestDraftAppend(d, a, b[..|b| - 1]);
    } else {
      assert a + b == a;
    }
  }

  /** The stages and latest draft of one, two and three events. */
  lemma One(d: string, a: Event)
    ensures Stages([a]) == StageOf(a)
    ensures LatestDraft(d, [a]) == if a.Ask? && a.request.Rewrite? && a.answer.Some? then a.answer.value else d
  {
    assert [a][..0] == [];
  }

  lemma Two(d: string, a: Event, b: Event)
    ensures Stages([a, b]) == StageOf(a) + StageOf(b)
    ensures LatestDraft(d, [a, b]) == LatestDraft(LatestDraft(d, [a]), [b])
  {
    assert [a, b][..1] == [a];
    One(d, a);
    LatestDraftAppend(d, [a], [b]);
    assert [a] + [b] == [a, b];
  }

  lemma Three(d: string, a: Event, b: Event, c: Event)
    ensures Stages([a, b, c]) == StageOf(a) + StageOf(b) + StageOf(c)
    ensures LatestDraft(d, [a, b, c]) == LatestDraft(LatestDraft(d, [a, b]), [c])
  {
    assert [a, b, c][..2] == [a, b];
    Two(d, a, b);
    LatestDraftAppend(d, [a, b], [c]);
    assert [a, b] + [c] == [a, b, c];
  }

  /** The last of a non-empty sequence of events. */
  function Last(events: seq<Event>): Event
    requires events != []
  {
    events[|events| - 1]
  }

  /**
   * The suggestion step makes one suggestion call at most, never a rewrite, and gives
   * `None` only after a failed template read, an empty prompt, or a failed LLM call.
   */
  lemma ImprovementShape(d: string, s: Script)
    ensures var r := ImprovementSpec(d, s);
            |r.events| <= 2 && Stages(r.events) == (if |r.events| == 2 then [0] else [])
            && LatestDraft(d, r.events) == d
            && (r.Reply? && r.value.Some? ==> |r.events| == 2)
            && (r.Reply? && r.value.None? ==>
                  r.events != [] && Last(r.events).Ask?
                  && (Last(r.events).request == ReadTemplate(ImprovementTemplate)
                      || (Last(r.events).request.Improve? && Last(r.events).answer == None)))
  {
    var ev := ImprovementSpec(d, s).events;
    if |ev| == 1 {
      One(d, ev[0]);
    } else if |ev| == 2 {
      One(d, ev[0]);
      One(d, ev[1]);
      Two(d, ev[0], ev[1]);
    }
  }

  /**
   * The rewrite step, when the loop goes on: a rewrite call, then an evaluation call
   * whose reply is the evaluation, the rewrite giving the new draft.
   */
  lemma RewriteShape(d: string, suggestions: string, s: Script)
    ensures var p := RewriteAndEvaluate(d, suggestions, s);
            p.Continue? ==> Stages(p.events) == [1, 2] && LatestDraft(d, p.events) == p.draft
                            && Last(p.events).Ask? && Last(p.events).request.Evaluate?
                            && Last(p.events).answer == p.evaluation
  {
    var p := RewriteAndEvaluate(d, suggestions, s);
    if p.Continue? {
      var rewrite := Ask(Rewrite(RewritePrompt(d, suggestions)), s[0]);
      var read := Ask(ReadTemplate(EvaluationTemplate), s[1]);
      var evaluate := Ask(Evaluate(Replace(s[1].value, AnswerMarker, s[0].value)), s[2]);
      assert p.events == [rewrite, read, evaluate];
      One(d, rewrite);
      One(LatestDraft(d, [rewrite]), read);
      Two(d, rewrite, read);
      One(LatestDraft(d, [rewrite, read]), evaluate);
      Three(d, rewrite, read, evaluate);
    }
  }

  /**
   * The rewrite step, when the loop stops in it: at most the rewrite call was made, and
   * `new_draft` is `None` exactly after a failed rewrite.
   */
  lemma RewriteStopShape(d: string, suggestions: string, s: Script)
    ensures var p := RewriteAndEvaluate(d, suggestions, s);
            p.Stop? ==> Stages(p.events) == (if p.events == [] then [] else [1])
                        && (p.exit == NoNewDraft || p.exit == EvaluationTemplateMissing || p.exit == ScriptEnded)
                        && (p.newDraft == None <==> p.exit == NoNewDraft)
                        && (p.exit != NoNewDraft ==> p.newDraft == Some(LatestDraft(d, p.events)))
  {
    if |s| > 0 {
      var rewrite := Ask(Rewrite(RewritePrompt(d, suggestions)), s[0]);
      One(d, rewrite);
      if s[0].Some? && |s| > 1 {
        var read := Ask(ReadTemplate(EvaluationTemplate), s[1]);
        One(LatestDraft(d, [rewrite]), read);
        Two(d, rewrite, read);
        if s[1].Some? && |s| > 2 {
          var evaluate := Ask(Evaluate(Replace(s[1].value, AnswerMarker, s[0].value)), s[2]);
          One(LatestDraft(d, [rewrite, read]), evaluate);
          Three(d, rewrite, read, evaluate);
        }
      }
    }
  }

  /** The rewrite step, when the loop stops in it: the last event shows why. */
  lemma RewriteStopReason(d: string, suggestions: string, s: Script)
    ensures var p := RewriteAndEvaluate(d, suggestions, s);
            p.Stop? ==> (p.exit == NoNewDraft ==>
                           p.events != [] && Last(p.events).Ask? && Last(p.events).request.Rewrite?
                           && Last(p.events).answer == None)
                        && (p.exit == EvaluationTemplateMissing ==>
                              p.events != [] && Last(p.events) == Ask(ReadTemplate(EvaluationTemplate), None))
  {
  }

  /**
   * One pass of the loop: when it goes on, it made a suggestion call, a rewrite and an
   * evaluation, the rewrite giving its new draft; when it stops, it made a suggestion
   * call and a rewrite at most, and the last event shows why it stopped.
   */
  lemma PassShape(d: string, s: Script)
    ensures var p := Pass(d, s);
            p.Continue? ==> Stages(p.events) == [0, 1, 2] && LatestDraft(d, p.events) == p.draft
                            && Last(p.events).Ask? && Last(p.events).request.Evaluate?
                            && Last(p.events).answer == p.evaluation
  {
    var r := ImprovementSpec(d, s);
    ImprovementShape(d, s);
    if r.Reply? && r.value.Some? {
      var q := RewriteAndEvaluate(d, r.value.value, r.rest);
      RewriteShape(d, r.value.value, r.rest);
      if q.Continue? {
        StagesAppend(r.events, q.events);
        LatestDraftAppend(d, r.events, q.events);
        assert Last(r.events + q.events) == Last(q.events);
      }
    }
  }

  /** One pass of the loop that stops after the suggestion step has given suggestions. */
  lemma PassStopAfterRewrite(d: string, s: Script)
    requires ImprovementSpec(d, s).Reply? && ImprovementSpec(d, s).value.Some?
    requires RewriteAndEvaluate(d, ImprovementSpec(d, s).value.value, ImprovementSpec(d, s).rest).Stop?
    ensures var r := ImprovementSpec(d, s);
            var q := RewriteAndEvaluate(d, r.value.value, r.rest);
            Pass(d, s) == Stop(r.events + q.events, q.exit, q.newDraft)
            && Stages(r.events + q.events) == [0] + Stages(q.events)
            && LatestDraft(d, r.events + q.events) == LatestDraft(d, q.events)
            && (q.events != [] ==> Last(r.events + q.events) == Last(q.events))
  {
    var r := ImprovementSpec(d, s);
    var q := RewriteAndEvaluate(d, r.value.value, r.rest);
    ImprovementShape(d, s);
    StagesAppend(r.events, q.events);
    LatestDraftAppend(d, r.events, q.events);
    if q.events != [] {
      assert Last(r.events + q.events) == Last(q.events);
    }
  }

  /**
   * One pass of the loop, when it stops: its calls are a prefix of suggestion, rewrite;
   * `new_draft` is `None` exactly after a failed rewrite and is otherwise the latest
   * draft.
   */
  lemma PassStopShape(d: string, s: Script)
    ensures var p := Pass(d, s);
            p.Stop? ==> (Stages(p.events) == [] || Stages(p.events) == [0] || Stages(p.events) == [0, 1])
                        && p.exit != RatingReached
                        && (p.newDraft == None <==> p.exit == NoNewDraft)
                        && (p.exit != NoNewDraft ==> p.newDraft == Some(LatestDraft(d, p.events)))
  {
    var r := ImprovementSpec(d, s);
    ImprovementShape(d, s);
    if r.Reply? && r.value.Some? {
      var q := RewriteAndEvaluate(d, r.value.value, r.rest);
      RewriteStopShape(d, r.value.value, r.rest);
      if q.Stop? {
        PassStopAfterRewrite(d, s);
      }
    }
  }

  /** One pass of the loop, when it stops: the exit reason matches the last event. */
  lemma PassStopReason(d: string, s: Script)
    ensures var p := Pass(d, s);
            p.Stop? ==> (p.exit == NoInstructions ==>
                           p.events != [] && Last(p.events).Ask?
                           && (Last(p.events).request == ReadTemplate(ImprovementTemplate)
                               || (Last(p.events).request.Improve? && Last(p.events).answer == None)))
                        && (p.exit == NoNewDraft ==>
                              p.events != [] && Last(p.events).Ask? && Last(p.events).request.Rewrite?
                              && Last(p.events).answer == None)
                        && (p.exit == EvaluationTemplateMissing ==>
                              p.events != [] && Last(p.events) == Ask(ReadTemplate(EvaluationTemplate), None))
  {
    var r := ImprovementSpec(d, s);
    ImprovementShape(d, s);
    if r.Reply? && r.value.Some? {
      var q := RewriteAndEvaluate(d, r.value.value, r.rest);
      RewriteStopReason(d, r.value.value, r.rest);
      if q.Stop? {
        PassStopAfterRewrite(d, s);
      }
    }
  }

  /** Stage `k` of a run is `k % 3`: suggestion, rewrite, evaluation, over and over. */
  predicate InOrder(st: seq<int>)
  {
    forall k :: 0 <= k < |st| ==> st[k] == k % 3
  }

  lemma RoundInOrder(st: seq<int>)
    requires InOrder(st)
    ensures InOrder([0, 1, 2] + st)
    ensures |[0, 1, 2] + st| % 3 == |st| % 3
  {
    var t := [0, 1, 2] + st;
    forall k | 3 <= k < |t| ensures t[k] == k % 3 {
      assert t[k] == st[k - 3];
    }
  }

  lemma ShortInOrder(st: seq<int>)
    requires st == [] || st == [0] || st == [0, 1]
    ensures InOrder(st)
  {
  }

  /**
   * Call order: in the loop the LLM calls go suggestion, rewrite, evaluation, again and
   * again, in that order, a `break` cutting the last round short; when the loop ends by
   * reaching the threshold, every round it began is complete.
   */
  lemma {:induction false} LoopCallOrder(d: string, rating: Option<int>, s: Script)
    ensures InOrder(Stages(LoopRun(d, rating, s).events))
    ensures LoopRun(d, rating, s).exit == RatingReached ==> |Stages(LoopRun(d, rating, s).events)| % 3 == 0
    decreases |s|
  {
    if !(rating.Some? && rating.value >= Threshold) {
      var p := Pass(d, s);
      PassShape(d, s);
      PassStopShape(d, s);
      if p.Continue? {
        var more := LoopRun(p.draft, ExtractRating(p.evaluation), p.rest);
        LoopCallOrder(p.draft, ExtractRating(p.evaluation), p.rest);
        StagesAppend(p.events, more.events);
        RoundInOrder(Stages(more.events));
      } else {
        ShortInOrder(Stages(p.events));
      }
    } else {
      assert Stages([]) == [];
    }
  }

  /**
   * The loop exits normally only with a rating present and at least 90: the one it was
   * entered with (no pass ran) or that of its last evaluation.
   */
  lemma {:induction false} LoopReachedReason(d: string, rating: Option<int>, s: Script)
    ensures var l := LoopRun(d, rating, s);
            l.exit == RatingReached ==>
              (l.events == [] && rating.Some? && rating.value >= Threshold && l.newDraft == Some(d))
              || (l.events != [] && Last(l.events).Ask? && Last(l.events).request.Evaluate?
                  && ExtractRating(Last(l.events).answer).Some?
                  && ExtractRating(Last(l.events).answer).value >= Threshold)
    decreases |s|
  {
    if !(rating.Some? && rating.value >= Threshold) {
      var p := Pass(d, s);
      PassStopShape(d, s);
      if p.Continue? {
        PassShape(d, s);
        var more := LoopRun(p.draft, ExtractRating(p.evaluation), p.rest);
        LoopReachedReason(p.draft, ExtractRating(p.evaluation), p.rest);
        if more.events == [] {
          assert p.events + more.events == p.events;
        } else {
          assert Last(p.events + more.events) == Last(more.events);
        }
      }
    }
  }

  /**
   * Why the loop stopped otherwise: the last event shows the failure behind the `break`
   * or the crash.
   */
  lemma {:induction false} LoopBreakReason(d: string, rating: Option<int>, s: Script)
    ensures var l := LoopRun(d, rating, s);
            l.exit == NoInstructions ==>
              l.events != [] && Last(l.events).Ask?
              && (Last(l.events).request == ReadTemplate(ImprovementTemplate)
                  || (Last(l.events).request.Improve? && Last(l.events).answer == None))
    ensures var l := LoopRun(d, rating, s);
            l.exit == NoNewDraft ==>
              l.events != [] && Last(l.events).Ask? && Last(l.events).request.Rewrite?
              && Last(l.events).answer == None
    ensures var l := LoopRun(d, rating, s);
            l.exit == EvaluationTemplateMissing ==>
              l.events != [] && Last(l.events) == Ask(ReadTemplate(EvaluationTemplate), None)
    decreases |s|
  {
    if !(rating.Some? && rating.value >= Threshold) {
      var p := Pass(d, s);
      PassStopReason(d, s);
      if p.Continue? {
        var more := LoopRun(p.draft, ExtractRating(p.evaluation), p.rest);
        LoopBreakReason(p.draft, ExtractRating(p.evaluation), p.rest);
        if more.events != [] {
          assert Last(p.events + more.events) == Last(more.events);
        }
      }
    }
  }

  /**
   * What the loop leaves in `new_draft`: after the threshold is reached or the suggestion
   * step fails, the last successful rewrite (or the draft it started with); after a failed
   * rewrite, `None`.
   */
  lemma {:induction false} LoopFinalDraft(d: string, rating: Option<int>, s: Script)
    ensures var l := LoopRun(d, rating, s);
            (l.exit == RatingReached || l.exit == NoInstructions) ==> l.newDraft == Some(LatestDraft(d, l.events))
    ensures var l := LoopRun(d, rating, s);
            l.newDraft == None <==> l.exit == NoNewDraft
    decreases |s|
  {
    if !(rating.Some? && rating.value >= Threshold) {
      var p := Pass(d, s);
      PassStopShape(d, s);
      if p.Continue? {
        PassShape(d, s);
        var more := LoopRun(p.draft, ExtractRating(p.evaluation), p.rest);
        LoopFinalDraft(p.draft, ExtractRating(p.evaluation), p.rest);
        LatestDraftAppend(d, p.events, more.events);
      }
    }
  }

  /** Putting the same events before both sides keeps a prefix a prefix. */
  lemma PrefixAfter<T>(a: seq<T>, b: seq<T>, c: seq<T>)
    requires b <= c
    ensures a + b <= a + c
  {
    assert (a + c)[..|a + b|] == a + b;
  }

  /**
   * A pass consumes the script's answers in order: when it goes on, its events hold the
   * answers it took and `rest` the ones after them; when it stops, its answers are a
   * prefix of the script, all of it when the script ran out.
   */
  lemma PassAnswers(d: string, s: Script)
    ensures var p := Pass(d, s);
            p.Continue? ==> s == Answers(p.events) + p.rest
    ensures var p := Pass(d, s);
            p.Stop? ==> Answers(p.events) <= s && (p.exit == ScriptEnded ==> Answers(p.events) == s)
  {
    var r := ImprovementSpec(d, s);
    if r.Reply? {
      if r.value.Some? {
        var q := RewriteAndEvaluate(d, r.value.value, r.rest);
        AnswersAppend(r.events, q.events);
        if q.Stop? {
          PrefixAfter(Answers(r.events), Answers(q.events), r.rest);
        }
      } else {
        PrefixAfter(Answers(r.events), [], r.rest);
      }
    }
  }

  /**
   * The loop takes the script's answers in order and invents none: what it records is a
   * prefix of the script, all of it when it ran out of answers.
   */
  lemma {:induction false} LoopAnswers(d: string, rating: Option<int>, s: Script)
    ensures var l := LoopRun(d, rating, s);
            Answers(l.events) <= s && (l.exit == ScriptEnded ==> Answers(l.events) == s)
    decreases |s|
  {
    if !(rating.Some? && rating.value >= Threshold) {
      var p := Pass(d, s);
      PassAnswers(d, s);
      if p.Continue? {
        var more := LoopRun(p.draft, ExtractRating(p.evaluation), p.rest);
        LoopAnswers(p.draft, ExtractRating(p.evaluation), p.rest);
        AnswersAppend(p.events, more.events);
        PrefixAfter(Answers(p.events), Answers(more.events), p.rest);
      }
    } else {
      assert Answers([]) == [];
    }
  }

  /** Saving the output takes no answer from the script. */
  lemma ConcludeAnswers(l: LoopResult)
    ensures Answers(Conclude(l).events) == Answers(l.events)
  {
    if l.exit != EvaluationTemplateMissing && l.exit != ScriptEnded {
      AnswersAppend(l.events, [Save(OutputPath, l.newDraft)]);
      assert Answers([Save(OutputPath, l.newDraft)]) == [];
    }
  }

  /**
   * Events answered by the first `n` answers of the script, followed by events whose
   * answers are a prefix of the rest, have answers that are a prefix of the script.
   */
  lemma Consumed<T>(s: seq<T>, n: nat, first: seq<T>, later: seq<T>)
    requires n <= |s| && first == s[..n] && later <= s[n..]
    ensures first + later <= s
    ensures later == s[n..] ==> first + later == s
  {
    assert s == s[..n] + s[n..];
    PrefixAfter(first, later, s[n..]);
  }

  /** The two events of a download and a conversion, or of a template read and an evaluation. */
  lemma AnswersTwo(a: Event, b: Event)
    requires a.Ask? && b.Ask?
    ensures Answers([a, b]) == [a.answer, b.answer]
  {
    assert [a, b][..1] == [a];
    assert [a][..0] == [];
    assert Answers([a]) == Answers([]) + [a.answer];
    assert Answers([a, b]) == Answers([a]) + [b.answer];
  }

  /** From the initial evaluation on, `main` takes the script's answers in order. */
  lemma RefineAnswers(s: Script)
    ensures Answers(RefineRun(s).events) <= s
    ensures RefineRun(s).outcome == Exhausted ==> Answers(RefineRun(s).events) == s
  {
    if |s| > 0 {
      var read := Ask(ReadTemplate(EvaluationTemplate), s[0]);
      assert Answers([read]) == [s[0]];
      if s[0].Some? && |s| > 1 {
        var ask := Ask(Evaluate(Replace(s[0].value, AnswerMarker, InitialDraft)), s[1]);
        AnswersTwo(read, ask);
        assert [s[0], s[1]] == s[..2];
        if s[1].Some? {
          RefineLoopAnswers(s, [read, ask]);
        } else {
          Consumed(s, 2, [s[0], s[1]], []);
        }
      } else {
        assert [s[0]] == s[..1];
        Consumed(s, 1, [s[0]], []);
      }
    } else {
      assert Answers([]) == [];
    }
  }

  lemma RefineLoopAnswers(s: Script, head: seq<Event>)
    requires |s| > 1 && s[0].Some? && s[1].Some? && Answers(head) == s[..2]
    requires head == [Ask(ReadTemplate(EvaluationTemplate), s[0]),
                      Ask(Evaluate(Replace(s[0].value, AnswerMarker, InitialDraft)), s[1])]
    ensures Answers(RefineRun(s).events) <= s
    ensures RefineRun(s).outcome == Exhausted ==> Answers(RefineRun(s).events) == s
  {
    var l := LoopRun(InitialDraft, ExtractRating(s[1]), s[2..]);
    LoopAnswers(InitialDraft, ExtractRating(s[1]), s[2..]);
    ConcludeAnswers(l);
    assert RefineRun(s).events == head + Conclude(l).events;
    AnswersAppend(head, Conclude(l).events);
    Consumed(s, 2, Answers(head), Answers(l.events));
  }

  /**
   * `main` as a whole takes the script's answers in order: the answers it records are a
   * prefix of the script, and it ends as `Exhausted` only when it has used them all.
   */
  lemma MainAnswers(url: string, s: Script)
    ensures Answers(MainRun(url, s).events) <= s
    ensures MainRun(url, s).outcome == Exhausted ==> Answers(MainRun(url, s).events) == s
  {
    if |s| > 0 {
      var download := Ask(Download(url), s[0]);
      assert Answers([download]) == [s[0]];
      if s[0].Some? && |s| > 1 {
        var convert := Ask(Convert(s[0].value), s[1]);
        AnswersTwo(download, convert);
        assert [s[0], s[1]] == s[..2];
        if s[1].Some? {
          RefineAnswers(s[2..]);
          assert MainRun(url, s).events == [download, convert] + RefineRun(s[2..]).events;
          AnswersAppend([download, convert], RefineRun(s[2..]).events);
          Consumed(s, 2, [s[0], s[1]], Answers(RefineRun(s[2..]).events));
        } else {
          Consumed(s, 2, [s[0], s[1]], []);
        }
      } else {
        assert [s[0]] == s[..1];
        Consumed(s, 1, [s[0]], []);
      }
    } else {
      assert Answers([]) == [];
    }
  }

  /** A failed download or conversion makes `main` return before any template read, LLM call or save. */
  lemma MediaFailureReturnsEarly(url: string, s: Script)
    requires |s| > 0 && (s[0].None? || (|s| > 1 && s[1].None?))
    ensures var run := MainRun(url, s);
            run.outcome == Returned && 0 < |run.events| <= 2
            && forall k :: 0 <= k < |run.events| ==>
                 run.events[k].Ask? && (run.events[k].request.Download? || run.events[k].request.Convert?)
  {
  }

  /** If `prompt1.txt` cannot be read, `.replace` on `None` crashes `main` before any LLM call. */
  lemma EvaluationTemplateMissingCrashes(url: string, s: Script)
    requires |s| > 2 && s[0].Some? && s[1].Some? && s[2].None?
    ensures MainRun(url, s) ==
            Run([Ask(Download(url), s[0]), Ask(Convert(s[0].value), s[1]), Ask(ReadTemplate(EvaluationTemplate), None)], Crashed)
  {
  }

  /** A failed initial evaluation makes `main` return with no suggestion call, rewrite or save. */
  lemma InitialEvaluationFailureReturns(url: string, s: Script)
    requires |s| > 3 && s[0].Some? && s[1].Some? && s[2].Some? && s[3].None?
    ensures MainRun(url, s) ==
            Run([Ask(Download(url), s[0]), Ask(Convert(s[0].value), s[1]),
                 Ask(ReadTemplate(EvaluationTemplate), s[2]),
                 Ask(Evaluate(Replace(s[2].value, AnswerMarker, InitialDraft)), None)], Returned)
  {
  }

  /** An initial rating of at least 90 skips the loop: `main` saves exactly the initial draft. */
  lemma InitialDraftAccepted(url: string, s: Script)
    requires |s| > 3 && s[0].Some? && s[1].Some? && s[2].Some? && s[3].Some?
    requires ExtractRating(s[3]).Some? && ExtractRating(s[3]).value >= Threshold
    ensures MainRun(url, s) ==
            Run([Ask(Download(url), s[0]), Ask(Convert(s[0].value), s[1]),
                 Ask(ReadTemplate(EvaluationTemplate), s[2]),
                 Ask(Evaluate(Replace(s[2].value, AnswerMarker, InitialDraft)), s[3]),
                 Save(OutputPath, Some(InitialDraft))], Returned)
  {
  }

  /**
   * A failed re-evaluation inside the loop does not stop it: the rating of `None` is
   * `None`, so the next pass begins with the suggestion step's template read.
   */
  lemma ReEvaluationFailureContinues(d: string, rating: Option<int>, s: Script)
    requires !(rating.Some? && rating.value >= Threshold)
    requires Pass(d, s).Continue? && Pass(d, s).evaluation == None
    ensures var p := Pass(d, s);
            var more := LoopRun(p.draft, None, p.rest);
            LoopRun(d, rating, s) == LoopResult(p.events + more.events, more.exit, more.newDraft)
            && (|p.rest| > 0 ==> more.events != [] && more.events[0] == Ask(ReadTemplate(ImprovementTemplate), p.rest[0]))
  {
    var p := Pass(d, s);
    assert ExtractRating(None) == None;
    if |p.rest| > 0 {
      PassStart(p.draft, p.rest);
    }
  }

  /** A pass entered with answers left begins by reading the improvement template. */
  lemma PassStart(d: string, s: Script)
    requires |s| > 0
    ensures Pass(d, s).events != [] && Pass(d, s).events[0] == Ask(ReadTemplate(ImprovementTemplate), s[0])
  {
    var r := ImprovementSpec(d, s);
    assert r.events[0] == Ask(ReadTemplate(ImprovementTemplate), s[0]);
    if r.Reply? && r.value.Some? {
      var q := RewriteAndEvaluate(d, r.value.value, r.rest);
      assert Pass(d, s).events == r.events + q.events;
    }
  }

  /**
   * `generate_improvement_instructions` makes no LLM call and returns `None` when the
   * template cannot be read or the substituted prompt is empty; otherwise it returns the
   * LLM's answer to that prompt.
   */
  lemma ImprovementGating(draft: string, s: Script)
    requires |s| > 0
    ensures var r := ImprovementSpec(draft, s);
            (s[0].None? || Replace(s[0].value, DraftMarker, draft) == "") ==>
              r == Reply([Ask(ReadTemplate(ImprovementTemplate), s[0])], None, s[1..])
    ensures var r := ImprovementSpec(draft, s);
            (s[0].Some? && Replace(s[0].value, DraftMarker, draft) != "" && |s| > 1) ==>
              r.Reply? && r.value == s[1] && r.events[1] == Ask(Improve(Replace(s[0].value, DraftMarker, draft)), s[1])
  {
  }

  /** With a non-empty draft the improvement prompt is empty only for an empty template. */
  lemma ImprovementPromptEmpty(draft: string, template: string)
    requires draft != ""
    ensures Replace(template, DraftMarker, draft) == "" <==> template == ""
  {
  }

  /** An evaluation that always answers "95/100": one evaluation, no loop, the initial draft saved. */
  lemma ScenarioAcceptedAtOnce(url: string, video: string, audio: string, template: string)
    ensures MainRun(url, [Some(video), Some(audio), Some(template), Some("95/100")]).events ==
            [Ask(Download(url), Some(video)), Ask(Convert(video), Some(audio)),
             Ask(ReadTemplate(EvaluationTemplate), Some(template)),
             Ask(Evaluate(Replace(template, AnswerMarker, InitialDraft)), Some("95/100")),
             Save(OutputPath, Some(InitialDraft))]
  {
    assert Value("95") == 95 by {
      ValueTwo("95");
    }
    RatedAs("95/100", "95", "");
    InitialDraftAccepted(url, [Some(video), Some(audio), Some(template), Some("95/100")]);
  }

  /**
   * Ratings "50/100" then "92/100": exactly one round of suggestions and rewrite, and the
   * rewritten draft is what is saved.
   */
  lemma ScenarioOneRound(evalTemplate: string, improveTemplate: string, suggestions: string, second: string)
    requires improveTemplate != ""
    ensures var l := LoopRun(InitialDraft, ExtractRating(Some("50/100")),
                             [Some(improveTemplate), Some(suggestions), Some(second), Some(evalTemplate), Some("92/100")]);
            l.exit == RatingReached && l.newDraft == Some(second) && Stages(l.events) == [0, 1, 2]
  {
    RatedFifty();
    RatedNinetyTwo();
    ImprovementPromptEmpty(InitialDraft, improveTemplate);
    AcceptedRound(InitialDraft, Some(50), improveTemplate, suggestions, second, evalTemplate, Some("92/100"));
  }

  /** The first rating of the one-round scenario. */
  lemma RatedFifty()
    ensures ExtractRating(Some("50/100")) == Some(50)
  {
    assert Value("50") == 50 by {
      ValueTwo("50");
    }
    RatedAs("50/100", "50", "");
  }

  /** The second rating of the one-round scenario. */
  lemma RatedNinetyTwo()
    ensures ExtractRating(Some("92/100")) == Some(92)
  {
    assert Value("92") == 92 by {
      ValueTwo("92");
    }
    RatedAs("92/100", "92", "");
  }

  /**
   * A draft below the threshold, a pass that gets every answer, and an evaluation that
   * reaches the threshold: the loop ends after that one round with the rewritten draft.
   */
  lemma AcceptedRound(d: string, rating: Option<int>, template: string, suggestions: string, next: string,
                      evalTemplate: string, evaluation: Option<string>)
    requires !(rating.Some? && rating.value >= Threshold)
    requires Replace(template, DraftMarker, d) != ""
    requires ExtractRating(evaluation).Some? && ExtractRating(evaluation).value >= Threshold
    ensures var l := LoopRun(d, rating, [Some(template), Some(suggestions), Some(next), Some(evalTemplate), evaluation]);
            l.exit == RatingReached && l.newDraft == Some(next) && Stages(l.events) == [0, 1, 2]
  {
    var s := [Some(template), Some(suggestions), Some(next), Some(evalTemplate), evaluation];
    FullRound(d, template, suggestions, next, evalTemplate, evaluation, []);
    assert s == s + [];
    AcceptedAfterOnePass(d, rating, s);
  }

  /**
   * A pass that gets every answer it asks for goes on with the rewritten draft and the
   * evaluation's reply, having used five answers.
   */
  lemma FullRound(d: string, template: string, suggestions: string, next: string, evalTemplate: string,
                  evaluation: Option<string>, tail: Script)
    requires Replace(template, DraftMarker, d) != ""
    ensures var p := Pass(d, [Some(template), Some(suggestions), Some(next), Some(evalTemplate), evaluation] + tail);
            p.Continue? && p.draft == next && p.evaluation == evaluation && p.rest == tail
  {
    var s := [Some(template), Some(suggestions), Some(next), Some(evalTemplate), evaluation] + tail;
    var r := ImprovementSpec(d, s);
    assert r.Reply? && r.value == Some(suggestions) && r.rest == s[2..];
    assert s[2..] == [Some(next), Some(evalTemplate), evaluation] + tail;
    var q := RewriteAndEvaluate(d, suggestions, s[2..]);
    assert q.Continue? && q.draft == next && q.evaluation == evaluation && q.rest == tail;
  }

  /** A pass whose evaluation reaches the threshold is the loop's last: its draft is kept. */
  lemma AcceptedAfterOnePass(d: string, rating: Option<int>, s: Script)
    requires !(rating.Some? && rating.value >= Threshold)
    requires Pass(d, s).Continue?
    requires ExtractRating(Pass(d, s).evaluation).Some? && ExtractRating(Pass(d, s).evaluation).value >= Threshold
    ensures var l := LoopRun(d, rating, s);
            l.exit == RatingReached && l.newDraft == Some(Pass(d, s).draft) && Stages(l.events) == [0, 1, 2]
  {
    PassShape(d, s);
    var p := Pass(d, s);
    assert p.events + [] == p.events;
  }

  /**
   * Starting from "Hello world" rated 40, suggestions "add detail" and a rewrite that
   * scores 99: one full round, and "Hello world, in detail" is the final draft.
   */
  lemma ScenarioHelloWorld(evalTemplate: string, improveTemplate: string)
    requires improveTemplate != ""
    ensures var l := LoopRun("Hello world", Some(40),
                             [Some(improveTemplate), Some("add detail"), Some("Hello world, in detail"),
                              Some(evalTemplate), Some("99/100")]);
            l.exit == RatingReached && l.newDraft == Some("Hello world, in detail") && |Stages(l.events)| == 3
  {
    assert ExtractRating(Some("99/100")) == Some(99) by {
      assert Value("99") == 99 by {
        ValueTwo("99");
      }
      RatedAs("99/100", "99", "");
    }
    ImprovementPromptEmpty("Hello world", improveTemplate);
    AcceptedRound("Hello world", Some(40), improveTemplate, "add detail", "Hello world, in detail", evalTemplate, Some("99/100"));
  }
}
