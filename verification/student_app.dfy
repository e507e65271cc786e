/** The student branch of the evaluator's web page: a session that moves from
    entering a topic, through asking, timing, scoring and skipping questions,
    to the summary, keeping its state between page runs. Each button press or
    page run is one method of `StudentSession`; the language model's replies,
    the JSON parser, the clock, the embedding similarity and the container
    runner are parameters of those methods. */
module StudentApp {
  import opened Base
  import opened Strings
  import opened ResponseCleaning
  import opened Scoring
  import opened Sandbox
  import opened Beliefs

  /** `max_questions`: the number of questions after which the test ends. */
  const MaxQuestions: nat := 10

  const McqName: string := "MCQ"
  const ShortAnswerName: string := "ShortAnswer"
  const CodingName: string := "Coding"

  /** The value of `step`. */
  datatype Step = Start | NextQuestion | ShowQuestion | Summarize

  /** The `type` of a generated question and the fields that its scoring reads. */
  datatype QuestionKind =
    | Mcq(options: seq<string>, correct: seq<string>)
    | ShortAnswer(reference: string)
    | Coding(tests: seq<TestCase>)
    | OtherKind(name: string)

  /** A question dictionary as returned by `generate_question`. */
  datatype Question = Question(text: string, kind: QuestionKind, timeLimit: int)

  /** The next-question decision of the language model: `tags`, `type`, `difficulty`. */
  datatype Decision = Decision(tags: seq<string>, kind: string, difficulty: string)

  /** The session keys other than `beliefs` and `question_counts`. */
  datatype SessionState = SessionState(
    topic: string,
    tags: seq<string>,
    question: Option<Question>,
    questionCount: nat,
    step: Step,
    askedTypes: seq<string>,
    currentTag: seq<string>,
    questionStartTime: Option<real>)

  /** The session as first initialised (and again after a restart). */
  const InitialState: SessionState := SessionState("", [], None, 0, Start, [], [], None)

  /** What pressing "Submit Answer" led to. */
  datatype SubmitOutcome = Submitted(score: real) | TimeUp | Failed(error: Exc)

  /** The `type_counts` of the next-question prompt: how many questions of each
      kind were asked so far. */
  function TypeCounts(asked: seq<string>): (counts: (nat, nat, nat))
    ensures counts == (multiset(asked)[McqName], multiset(asked)[ShortAnswerName], multiset(asked)[CodingName])
  {
    CountIsOccurrences(asked, McqName, t => t == McqName);
    CountIsOccurrences(asked, ShortAnswerName, t => t == ShortAnswerName);
    CountIsOccurrences(asked, CodingName, t => t == CodingName);
    (Count(asked, t => t == McqName), Count(asked, t => t == ShortAnswerName), Count(asked, t => t == CodingName))
  }

  /** Counting the entries equal to `kind` gives the number of occurrences of
      `kind`, which is what `Counter(...).get(kind, 0)` reports. */
  lemma {:induction false} CountIsOccurrences(xs: seq<string>, kind: string, p: string -> bool)
    requires forall t :: p(t) <==> t == kind
    ensures Count(xs, p) == multiset(xs)[kind]
    decreases |xs|
  {
    if xs != [] {
      var init := xs[..|xs| - 1];
      CountIsOccurrences(init, kind, p);
      assert xs == init + [xs[|xs| - 1]];
    }
  }

  /** The three counts never exceed the number of questions asked. */
  lemma {:induction false} TypeCountsBound(asked: seq<string>)
    ensures var c := TypeCounts(asked); c.0 + c.1 + c.2 <= |asked|
  {
    if asked != [] {
      var init := asked[..|asked| - 1];
      TypeCountsBound(init);
    }
  }

  /** Asking one more question adds one to the count of its kind only. */
  lemma TypeCountsAfterAsk(asked: seq<string>, kind: string)
    ensures var before := TypeCounts(asked); var after := TypeCounts(asked + [kind]);
      && after.0 == before.0 + (if kind == McqName then 1 else 0)
      && after.1 == before.1 + (if kind == ShortAnswerName then 1 else 0)
      && after.2 == before.2 + (if kind == CodingName then 1 else 0)
  {
    assert (asked + [kind])[..|asked|] == asked;
  }

  /** `generate_question`: the cleaned and parsed reply of the language model,
      with every failure (no reply, or a reply the parser rejects) turned into
      the one `ValueError`. `None` stands for a failed model call, whose
      non-string result makes the cleaning raise. */
  function GenerateQuestion(reply: Option<string>, parse: string -> Option<Question>): (r: Result<Question>)
    ensures r.Ok? <==> reply.Some? && parse(CleanResponse(reply.value)).Some?
    ensures r.Ok? ==> r.value == parse(CleanResponse(reply.value)).value
    ensures r.Err? ==> r.error == ValueError(ParseFailure)
  {
    if reply.None? then Err(ValueError(ParseFailure)) else ExtractJson(reply.value, parse)
  }

  /** A reply that wraps the question's JSON in a fenced block tagged `json`
      yields the question that JSON denotes. */
  lemma FencedQuestionReply(w1: string, j: string, w2: string, parse: string -> Option<Question>)
    requires AllSpace(w1) && AllSpace(w2) && IsStripped(j) && !Contains(j, NoneToken)
    requires parse(j).Some?
    ensures GenerateQuestion(Some(w1 + ("```json\n" + j + "\n```") + w2), parse) == Ok(parse(j).value)
  {
    TaggedFenceYieldsBody(w1, j, w2);
    ReplaceAbsent(j, NoneToken, NullToken);
  }

  /** `remaining = max(time_limit - int(now - start), 0)`. */
  function Remaining(limit: int, start: real, now: real): (r: nat)
    ensures start <= now && limit >= 0 ==> r <= limit
  {
    var elapsed := Trunc(now - start);
    if limit - elapsed > 0 then limit - elapsed else 0
  }

  /** Time is up (no time remains) exactly once a whole time limit has elapsed
      since the question was first shown. */
  lemma TimeUpExactly(limit: int, start: real, now: real)
    requires start <= now
    ensures Remaining(limit, start, now) == 0 <==> now - start >= limit as real
  {
    var e := Trunc(now - start);
    if now - start >= limit as real {
      assert e as real > limit as real - 1.0;
    }
  }

  /** The remaining time never goes up as the clock advances. */
  lemma RemainingCountsDown(limit: int, start: real, now1: real, now2: real)
    requires start <= now1 <= now2
    ensures Remaining(limit, start, now2) <= Remaining(limit, start, now1)
  {
    var e1 := Trunc(now1 - start);
    var e2 := Trunc(now2 - start);
    assert e1 as real < e2 as real + 1.0;
  }

  /** The score a submitted answer earns, as computed inside the `try` of the
      submit button: `evaluate_mcq` on the one selected option, the
      short-answer grade as a float, the share of passed tests, or 0 for any
      other question type. `None` is an answer the page did not provide. */
  function Score(kind: QuestionKind, answer: Option<string>, similarity: (string, string) -> real,
                 run: string -> RunOutcome): (r: Result<real>)
    ensures r.Ok? ==> 0.0 <= r.value <= 1.0
    ensures kind.OtherKind? ==> r == Ok(0.0)
    ensures kind.Mcq? && kind.correct == [] && answer.Some? ==> r == Err(ZeroDivisionError)
    ensures kind.Coding? && kind.tests == [] ==> r == Err(ZeroDivisionError)
    ensures answer.None? && !kind.OtherKind? && !(kind.Coding? && kind.tests == []) ==> r == Err(MissingAnswer)
  {
    match kind
    case Mcq(_, correct) =>
      if answer.None? then Err(MissingAnswer)
      else
        var r := McqScore([answer.value], correct);
        assert r.Ok? ==> r.value <= 1.0 by {
          if correct != [] {
            SingleChoice(answer.value, correct);
            ShareInUnit(1, |correct|);
          }
        }
        r
    case ShortAnswer(reference) =>
      if answer.None? then Err(MissingAnswer)
      else Ok(ShortAnswerGrade(answer.value, reference, similarity) as real)
    case Coding(tests) =>
      if tests == [] then Err(ZeroDivisionError)
      else if answer.None? then Err(MissingAnswer)
      else
        var judge := Judge(answer.value, run);
        PassedShare(tests, judge);
        Ok((Passed(tests, judge) as real) / (|tests| as real))
    case OtherKind(_) => Ok(0.0)
  }

  /** The scoring part of the submit button, calling the scorers in turn. */
  method EvaluateAnswer(kind: QuestionKind, answer: Option<string>, similarity: (string, string) -> real,
                        run: string -> RunOutcome) returns (score: Result<real>)
    ensures score == Score(kind, answer, similarity, run)
  {
    match kind {
      case Mcq(_, correct) =>
        if answer.None? {
          score := Err(MissingAnswer);
        } else {
          score := EvaluateMcq([answer.value], correct);
        }
      case ShortAnswer(reference) =>
        if answer.None? {
          score := Err(MissingAnswer);
        } else {
          score := Ok(ShortAnswerGrade(answer.value, reference, similarity) as real);
        }
      case Coding(tests) =>
        if answer.None? {
          score := if tests == [] then Err(ZeroDivisionError) else Err(MissingAnswer);
        } else {
          var report := RunCodeInSandbox(answer.value, tests, run);
          if report.total == 0 {
            score := Err(ZeroDivisionError);
          } else {
            score := Ok((report.passed as real) / (report.total as real));
          }
        }
      case OtherKind(_) =>
        score := Ok(0.0);
    }
  }

  /** A multiple-choice answer earns 1/len(correct_answer) when it is among
      the correct options and nothing otherwise. */
  lemma McqAnswerScore(options: seq<string>, correct: seq<string>, choice: string,
                       similarity: (string, string) -> real, run: string -> RunOutcome)
    requires correct != []
    ensures Score(Mcq(options, correct), Some(choice), similarity, run)
      == Ok(if Hit(choice, NormalizeAll(correct)) then 1.0 / (|correct| as real) else 0.0)
  {
    SingleChoice(choice, correct);
  }

  /** Code earns full marks exactly when every test case passes. */
  lemma CodingFullMarks(tests: seq<TestCase>, code: string, similarity: (string, string) -> real,
                        run: string -> RunOutcome)
    requires tests != []
    ensures Score(Coding(tests), Some(code), similarity, run) == Ok(1.0)
      <==> forall i :: 0 <= i < |tests| ==> Verdict(code, tests[i], run).None?
  {
    var judge := Judge(code, run);
    AllPassed(tests, judge);
    RatioIsOne(Passed(tests, judge) as real, |tests| as real);
    assert forall i :: 0 <= i < |tests| ==> judge(tests[i]) == Verdict(code, tests[i], run);
  }

  /** The submit button's effect on the two dictionaries: every listed count
      is bumped, then `update_beliefs` runs on the same tags. The first
      missing count stops the bumping, and the beliefs are then untouched. */
  function SubmitUpdate(t: Tally, tags: seq<string>, score: real): (r: Applied)
    ensures r.tally.beliefs.Keys == t.beliefs.Keys && r.tally.counts.Keys == t.counts.Keys
    ensures BumpAll(t, tags).failure.Some? ==> r == BumpAll(t, tags)
  {
    var bumped := BumpAll(t, tags);
    if bumped.failure.Some? then bumped else ObserveAll(bumped.tally, tags, score)
  }

  /** When beliefs and counts share their keys, a submission fails exactly
      when a listed tag is unknown, and otherwise every count grows by TWICE
      the number of times its tag is listed: once in the button's own loop
      and once more in `update_beliefs`. */
  lemma SubmitUpdateCounts(t: Tally, tags: seq<string>, score: real)
    requires t.counts.Keys == t.beliefs.Keys
    ensures var r := SubmitUpdate(t, tags, score);
      r.failure.None? <==> forall i :: 0 <= i < |tags| ==> tags[i] in t.counts
    ensures var r := SubmitUpdate(t, tags, score);
      r.failure.None? ==> forall x :: x in t.counts ==> r.tally.counts[x] == t.counts[x] + 2 * multiset(tags)[x]
  {
    var bumped := BumpAll(t, tags);
    if bumped.failure.None? {
      BumpAllCounts(t, tags);
      ObserveAllFailure(bumped.tally, tags, score);
      ObserveAllCounts(bumped.tally, tags, score);
    }
  }

  /** After a successful submission a tag listed `k` times has first had its
      count raised by `k` in the button's loop, its belief kept, and then `k`
      copies of the score added to its belief times count in
      `update_beliefs`: the new belief times the final count is the old
      belief times (count + k), plus `k` times the score. */
  lemma SubmitUpdateMass(t: Tally, tags: seq<string>, score: real)
    ensures var r := SubmitUpdate(t, tags, score);
      var b := BumpAll(t, tags).tally;
      r.failure.None? ==> forall x :: Known(t, x) ==>
        (&& Known(b, x) && b.beliefs[x] == t.beliefs[x] && b.counts[x] == t.counts[x] + multiset(tags)[x]
         && Known(r.tally, x) && Mass(r.tally, x) == Mass(b, x) + Scaled(multiset(tags)[x], score))
  {
    var bumped := BumpAll(t, tags);
    if bumped.failure.None? {
      forall x | Known(t, x)
        ensures var r := SubmitUpdate(t, tags, score);
          r.failure.None? ==>
            (&& Known(bumped.tally, x) && bumped.tally.beliefs[x] == t.beliefs[x]
             && bumped.tally.counts[x] == t.counts[x] + multiset(tags)[x]
             && Known(r.tally, x) && Mass(r.tally, x) == Mass(bumped.tally, x) + Scaled(multiset(tags)[x], score))
      {
        BumpedTag(t, tags, x);
        ObserveAllMassAt(bumped.tally, tags, score, x);
      }
    }
  }

  /** The button's loop raises a tag's count without touching its belief. */
  lemma BumpedTag(t: Tally, tags: seq<string>, x: string)
    requires Known(t, x) && BumpAll(t, tags).failure.None?
    ensures var b := BumpAll(t, tags).tally;
      Known(b, x) && b.beliefs[x] == t.beliefs[x] && b.counts[x] == t.counts[x] + multiset(tags)[x]
  {
    BumpAllCounts(t, tags);
  }

  /** For one tag, a submission averages the score in with the weight of one
      observation more than the tag has seen (the count was bumped first) and
      adds two to its count. */
  lemma SubmitOneTag(t: Tally, tag: string, score: real)
    requires Known(t, tag)
    ensures var r := SubmitUpdate(t, [tag], score);
      r.failure.None? && r.tally.beliefs[tag] == RunningMean(t.beliefs[tag], t.counts[tag] + 1, score)
      && r.tally.counts[tag] == t.counts[tag] + 2
  {
    var bumped := Bump(t, tag);
    BumpOne(t, tag);
    ObserveOne(bumped, tag, score);
    var r := SubmitUpdate(t, [tag], score);
    assert r == Applied(Observe(bumped, tag, score), None);
  }

  /** For one tag, a skip averages in a zero with the tag's true count and
      adds one to it. */
  lemma SkipOneTag(t: Tally, tag: string)
    requires Known(t, tag)
    ensures var r := ObserveAll(t, [tag], 0.0);
      r.failure.None? && r.tally.beliefs[tag] == RunningMean(t.beliefs[tag], t.counts[tag], 0.0)
      && r.tally.counts[tag] == t.counts[tag] + 1
  {
    ObserveOne(t, tag, 0.0);
  }

  lemma BumpOne(t: Tally, tag: string)
    requires tag in t.counts
    ensures BumpAll(t, [tag]) == Applied(Bump(t, tag), None)
  {
    assert [tag][0] == tag && [tag][1..] == [];
    assert BumpAll(t, [tag]) == BumpAll(Bump(t, tag), []);
  }

  lemma ObserveOne(t: Tally, tag: string, score: real)
    requires Known(t, tag)
    ensures ObserveAll(t, [tag], score) == Applied(Observe(t, tag, score), None)
    ensures Observe(t, tag, score).beliefs[tag] == RunningMean(t.beliefs[tag], t.counts[tag], score)
    ensures Observe(t, tag, score).counts[tag] == t.counts[tag] + 1
  {
    assert [tag][0] == tag && [tag][1..] == [];
    assert ObserveAll(t, [tag], score) == ObserveAll(Observe(t, tag, score), [], score);
  }

  /** Scores in [0, 1] keep every belief in [0, 1] through a submission. */
  lemma SubmitUpdateCalibrated(t: Tally, tags: seq<string>, score: real)
    requires Calibrated(t) && 0.0 <= score <= 1.0
    ensures Calibrated(SubmitUpdate(t, tags, score).tally)
  {
    var bumped := BumpAll(t, tags);
    if bumped.failure.None? {
      ObserveAllCalibrated(bumped.tally, tags, score);
    }
  }

  /** The start time of the current question once the page has run at `now`. */
  function StartOf(recorded: Option<real>, now: real): real {
    if recorded.Some? then recorded.value else now
  }

  /** The session of one user: `beliefs` and `question_counts` live in the
      store, the other keys in the fields below. */
  class StudentSession {
    var topic: string
    var tags: seq<string>
    var question: Option<Question>
    var questionCount: nat
    var step: Step
    var askedTypes: seq<string>
    var currentTag: seq<string>
    var questionStartTime: Option<real>
    const store: BeliefStore

    function State(): SessionState
      reads this
    {
      SessionState(topic, tags, question, questionCount, step, askedTypes, currentTag, questionStartTime)
    }

    /** What every page run relies on: the dictionaries share their keys and
        hold beliefs in [0, 1]; a question is on show only while the budget
        allows it; every counted question was asked. */
    ghost predicate Valid()
      reads this, store
    {
      && store.Valid()
      && store.counts.Keys == store.beliefs.Keys
      && Calibrated(store.Current())
      && questionCount <= MaxQuestions
      && questionCount <= |askedTypes| <= questionCount + 1
      && (step == Start ==> store.beliefs == map[] && store.counts == map[] && questionCount == 0 && askedTypes == [])
      && (step == NextQuestion ==> |askedTypes| == questionCount)
      && (step == ShowQuestion ==> question.Some? && questionCount < MaxQuestions && |askedTypes| == questionCount + 1)
    }

    /** The session initialisation of a first page run. */
    constructor()
      ensures Valid() && fresh(store)
      ensures State() == InitialState && store.beliefs == map[] && store.counts == map[]
    {
      topic := "";
      tags := [];
      question := None;
      questionCount := 0;
      step := Start;
      askedTypes := [];
      currentTag := [];
      questionStartTime := None;
      store := new BeliefStore();
    }

    /** "Start Test": the subtopics of the reply (`None` for a failed call)
        seed the beliefs, and the session moves on to the first question in
        either case; after a failure the tag list and the beliefs are empty. */
    method StartTest(topicText: string, reply: Option<seq<string>>)
      requires Valid() && step == Start
      modifies this, store
      ensures Valid()
      ensures State() == old(State()).(topic := topicText, tags := reply.GetOr([]), askedTypes := [], step := NextQuestion)
      ensures reply.Some? ==>
        && store.beliefs == Seeded(old(store.beliefs), reply.value, InitialBelief)
        && store.counts == Seeded(old(store.counts), reply.value, InitialCount)
      ensures reply.None? ==> store.beliefs == map[] && store.counts == old(store.counts)
    {
      if reply.Some? {
        SeedingCalibrated(store.Current(), reply.value);
      }
      var result := store.GenerateTags(reply);
      topic := topicText;
      tags := result.GetOr([]);
      if result.None? {
        store.ClearBeliefs();
      }
      askedTypes := [];
      step := NextQuestion;
    }

    /** The next-question step: past the budget the test goes to the summary;
        otherwise the model's decision (`None` when it gave none) and the
        generated question are taken, or an error is shown and nothing changes. */
    method RequestQuestion(decision: Option<Decision>, reply: Option<string>, parse: string -> Option<Question>)
      returns (error: Option<string>)
      requires Valid() && step == NextQuestion
      modifies this
      ensures Valid()
      ensures old(questionCount) >= MaxQuestions ==> error == None && State() == old(State()).(step := Summarize)
      ensures old(questionCount) < MaxQuestions && (decision.None? || GenerateQuestion(reply, parse).Err?) ==>
        error == Some(ParseFailure) && State() == old(State())
      ensures old(questionCount) < MaxQuestions && decision.Some? && GenerateQuestion(reply, parse).Ok? ==>
        && error == None
        && State() == old(State()).(question := Some(GenerateQuestion(reply, parse).value),
                                    currentTag := decision.value.tags,
                                    askedTypes := old(askedTypes) + [decision.value.kind],
                                    step := ShowQuestion)
    {
      if questionCount >= MaxQuestions {
        step := Summarize;
        return None;
      }
      if decision.None? {
        return Some(ParseFailure);
      }
      var q := GenerateQuestion(reply, parse);
      if q.Err? {
        return Some(ParseFailure);
      }
      question := Some(q.value);
      currentTag := decision.value.tags;
      askedTypes := askedTypes + [decision.value.kind];
      step := ShowQuestion;
      return None;
    }

    /** The timer of the question page: the start time is recorded on the
        first run, and the whole seconds left are returned. */
    method ShowTimer(now: real) returns (remaining: nat)
      requires Valid() && step == ShowQuestion
      modifies this
      ensures Valid()
      ensures State() == old(State()).(questionStartTime := Some(StartOf(old(questionStartTime), now)))
      ensures remaining == Remaining(question.value.timeLimit, StartOf(old(questionStartTime), now), now)
    {
      if questionStartTime.None? {
        questionStartTime := Some(now);
      }
      remaining := Remaining(question.value.timeLimit, questionStartTime.value, now);
    }

    /** "Skip Question": the listed tags are updated with score 0. An unknown
        tag raises `KeyError` out of the page run, after the updates before it;
        otherwise the next question is requested. */
    method SkipQuestion(now: real) returns (failure: Option<Exc>)
      requires Valid() && step == ShowQuestion
      modifies this, store
      ensures Valid()
      ensures var r := ObserveAll(old(store.Current()), old(currentTag), 0.0);
        && store.Current() == r.tally
        && (r.failure.Some? ==>
              failure == Some(KeyError(r.failure.value))
              && State() == old(State()).(questionStartTime := Some(StartOf(old(questionStartTime), now))))
        && (r.failure.None? ==>
              failure == None
              && State() == old(State()).(questionCount := old(questionCount) + 1, step := NextQuestion,
                                          questionStartTime := None))
    {
      var _ := ShowTimer(now);
      failure := RecordSkip();
    }

    /** The effect of "Skip Question" once the timer has been shown: score 0
        for every listed tag, then the next question. */
    method RecordSkip() returns (failure: Option<Exc>)
      requires Valid() && step == ShowQuestion
      modifies this, store
      ensures Valid()
      ensures var r := ObserveAll(old(store.Current()), old(currentTag), 0.0);
        && store.Current() == r.tally
        && (r.failure.Some? ==> failure == Some(KeyError(r.failure.value)) && State() == old(State()))
        && (r.failure.None? ==>
              failure == None
              && State() == old(State()).(questionCount := old(questionCount) + 1, step := NextQuestion,
                                          questionStartTime := None))
    {
      ObserveAllCalibrated(store.Current(), currentTag, 0.0);
      var updated := store.UpdateBeliefs(currentTag, 0.0);
      if updated.Err? {
        return Some(updated.error);
      }
      questionCount := questionCount + 1;
      step := NextQuestion;
      questionStartTime := None;
      return None;
    }

    /** "Submit Answer": refused once time is up; otherwise the answer is
        scored, the counts are bumped and the beliefs updated. Any exception
        is caught and shown, keeping whatever was changed before it. */
    method SubmitAnswer(now: real, answer: Option<string>, similarity: (string, string) -> real,
                        run: string -> RunOutcome) returns (outcome: SubmitOutcome)
      requires Valid() && step == ShowQuestion
      modifies this, store
      ensures Valid()
      ensures var start := StartOf(old(questionStartTime), now);
        var score := Score(old(question).value.kind, answer, similarity, run);
        var timed := old(State()).(questionStartTime := Some(start));
        if Remaining(old(question).value.timeLimit, start, now) == 0 then
          outcome == TimeUp && State() == timed && store.Current() == old(store.Current())
        else if score.Err? then
          outcome == Failed(score.error) && State() == timed && store.Current() == old(store.Current())
        else
          var r := SubmitUpdate(old(store.Current()), old(currentTag), score.value);
          && store.Current() == r.tally
          && (r.failure.Some? ==> outcome == Failed(KeyError(r.failure.value)) && State() == timed)
          && (r.failure.None? ==>
                outcome == Submitted(score.value)
                && State() == timed.(questionCount := old(questionCount) + 1, step := NextQuestion,
                                     questionStartTime := None))
    {
      var remaining := ShowTimer(now);
      if remaining <= 0 {
        return TimeUp;
      }
      var score := EvaluateAnswer(question.value.kind, answer, similarity, run);
      if score.Err? {
        return Failed(score.error);
      }
      outcome := RecordSubmission(score.value);
    }

    /** The part of "Submit Answer" after scoring: `question_counts[tag] += 1`
        for each tag, the question counted, the step advanced, the beliefs
        updated and the timer cleared. A missing count raises `KeyError`,
        which is caught after the counts before it were bumped; the update
        of the beliefs cannot fail once every count was found. */
    method RecordSubmission(score: real) returns (outcome: SubmitOutcome)
      requires Valid() && step == ShowQuestion && 0.0 <= score <= 1.0
      modifies this, store
      ensures Valid()
      ensures var r := SubmitUpdate(old(store.Current()), old(currentTag), score);
        && store.Current() == r.tally
        && (r.failure.Some? ==> outcome == Failed(KeyError(r.failure.value)) && State() == old(State()))
        && (r.failure.None? ==>
              outcome == Submitted(score)
              && State() == old(State()).(questionCount := old(questionCount) + 1, step := NextQuestion,
                                          questionStartTime := None))
    {
      SubmitUpdateCalibrated(store.Current(), currentTag, score);
      SubmitUpdateCounts(store.Current(), currentTag, score);
      var failure := store.BumpCounts(currentTag);
      if failure.Some? {
        return Failed(KeyError(failure.value));
      }
      questionCount := questionCount + 1;
      step := NextQuestion;
      var updated := store.UpdateBeliefs(currentTag, score);
      assert updated.Ok?;
      questionStartTime := None;
      return Submitted(score);
    }

    /** "End Test": straight to the summary. */
    method EndTest(now: real)
      requires Valid() && step == ShowQuestion
      modifies this
      ensures Valid()
      ensures State() == old(State()).(step := Summarize, questionStartTime := Some(StartOf(old(questionStartTime), now)))
    {
      var _ := ShowTimer(now);
      step := Summarize;
    }

    /** The summary shown in the last step. */
    function Summary(): (text: string)
      reads this, store
      requires Valid()
      ensures text == SummaryText(store.Items())
      ensures StartsWith(text, "User has strong knowledge in ")
    {
      SummaryText(store.Items())
    }

    /** "Restart": every session key is deleted, so the next run starts afresh. */
    method Restart()
      requires Valid() && step == Summarize
      modifies this, store
      ensures Valid()
      ensures State() == InitialState && store.beliefs == map[] && store.counts == map[]
    {
      store.Reset();
      topic := "";
      tags := [];
      question := None;
      questionCount := 0;
      step := Start;
      askedTypes := [];
      currentTag := [];
      questionStartTime := None;
    }
  }
}
