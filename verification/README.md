# AI Intelligent Evaluator — a verified model of its core

The evaluator tests a learner on a topic. A language model splits the topic into
tags (subtopics) and chooses the tags, type and difficulty of each next question.
Answers are then scored, in one of three ways:

- multiple choice is counted against the key;
- a short answer is graded by embedding similarity;
- code is run in a container against test cases.

Each tag carries a belief in [0, 1]. The belief is a running mean of the scores
seen for that tag, seeded at 0.5 with a count of 1. At the end the tags are
reported as strong, moderate or weak. There are two front ends:

- a step machine for the student page;
- an agent page that lets the language model call the same actions with a
  `CALL: name {json}` line.

This project models that core in Dafny and proves properties of the model.

| file | module | models |
|---|---|---|
| `base.dfy` | `Base` | `Option`, `Result` with the Python exceptions on the error paths, `int()` on floats |
| `strings.dfy` | `Strings` | the `str` operations the code relies on: `strip`, `upper`/`lower`, `in`, `startswith`/`endswith`, `partition`, `split`, `split(sep, 1)`, `replace`, `join` |
| `response_cleaning.dfy` | `ResponseCleaning` | `extract_json`: the cleaning of a model reply, then the parse |
| `scoring.dfy` | `Scoring` | `evaluate_mcq` (with its counting loop) and the threshold of `evaluate_short_answer` |
| `sandbox.dfy` | `Sandbox` | `run_code_in_sandbox`: the program built per test, the verdict, and the counting loop |
| `beliefs.dfy` | `Beliefs` | `update_beliefs`, the seeding loop of `generate_tags`, and `summarize_results`; class `BeliefStore` holds the `beliefs` and `question_counts` dictionaries, updated in place |
| `student_app.dfy` | `StudentApp` | the student page's session (class `StudentSession`): start, next question, timer, skip, submit, end, summary, restart |
| `evaluator_agent.dfy` | `EvaluatorAgent` | the `CALL:` parser and dispatch, the message appends, and the 60-second answer gate (class `AgentSession`) |

Everything the code cannot see is a parameter of the function or method that uses it:

- the language model's replies;
- `json.loads` (a partial function `string -> Option<…>`) and `json.dumps`;
- the embedding similarity (`(string, string) -> real`);
- the container run (`string -> RunOutcome`: the program text in, the decoded
  output or the exception's message out);
- the clock (a `now: real` argument);
- the actions called by the agent.

Floats are modelled as exact `real`s.

Python dictionaries keep their insertion order, and `summarize_results` lists tags
in that order. `BeliefStore` therefore keeps the key order of `beliefs` as a
sequence beside the two maps.

Behaviour of the code that the model keeps and states:

- **Submit counts a question twice.** The submit button bumps `question_counts[tag]`
  in its own loop (App.py:298-299) and then calls `update_beliefs`, which bumps it
  again (Actions.py:279). So a submitted answer adds 2 to a tag's count and is
  averaged in with weight 1/(n+2), where a skip adds 1 and uses 1/(n+1).
  `StudentApp.SubmitUpdateCounts`, `StudentApp.SubmitOneTag` and
  `StudentApp.SkipOneTag` state this.
- **Repeated options count each time.** `evaluate_mcq` counts every chosen entry
  that occurs in the key, so a repeated correct option counts twice and the score
  can exceed 1 (`Scoring.DuplicatesCountTwice`). A set-based reading would cap the
  score at 1; `evaluate_mcq` counts occurrences, and so does the model. The student
  page always passes exactly one option, so its scores stay in [0, 1]
  (`StudentApp.Score`).
- **The agent's countdown and its answer gate disagree in the last second.**
  - The countdown shows `max(0, int(60 - elapsed))`, which is already 0, with the
    "will not be evaluated" notice, once more than 59 seconds have passed.
  - An answer is taken up to 60 seconds (`EvaluatorAgent.GateDisagreesInLastSecond`).
- **A failing skip is not undone.** A tag with no count makes `update_beliefs`
  raise `KeyError`, and on the skip path nothing catches it. The tags updated
  before it stay updated, and the question is not counted
  (`StudentApp.StudentSession.SkipQuestion`).

## Model

| member | source | states |
|---|---|---|
| Base.Trunc | App.py:194 | `int()` of a float truncates toward zero: within one below a non-negative value, within one above a negative one |
| Base.ShareInUnit | App.py:293-295 | a count of passed tests over a positive total is a share in [0, 1] |
| Strings.Strip | Actions.py:34 | `strip()` yields a text with no whitespace at either end, never longer than its input |
| Strings.StripOfPadded | Actions.py:34 | stripping a stripped text surrounded by whitespace gives that text back |
| Strings.StripSplit | Actions.py:34 | every text is its leading whitespace, its stripped form and its trailing whitespace, in that order |
| Strings.StripPadded | Actions.py:223 | whitespace added around any text does not change its stripped form |
| Strings.FindFirst | Actions.py:38 | `partition`/`find` report the first occurrence: the pattern occurs there and at no earlier position, or nowhere |
| Strings.SplitOn | Intelligent_Evaluator_Agent.py:125 | `split` yields at least one piece, no piece contains the separator, and a single piece means the separator is absent |
| Strings.JoinSplit | Intelligent_Evaluator_Agent.py:125 | joining the pieces of `split` with the separator gives the text back |
| Strings.SplitOnTwice | Intelligent_Evaluator_Agent.py:125 | two non-overlapping occurrences of the separator make at least three pieces |
| Strings.JoinHasPart | Actions.py:288 | every piece occurs in the joined text |
| Strings.SplitFirst | Intelligent_Evaluator_Agent.py:126 | `split(sep, 1)` yields one piece (the text, separator absent) or two pieces around the first occurrence |
| Strings.FindFirstAfter | Intelligent_Evaluator_Agent.py:126 | a one-character separator absent from a prefix is first found right after it |
| Strings.ReplaceAll | Actions.py:48 | `replace` keeps the length when the replacement is as long as the pattern |
| Strings.ReplaceAbsent | Actions.py:48 | `replace` changes nothing when the pattern does not occur |
| Strings.ReplaceLeavesNoPattern | Actions.py:48 | after a resynchronizing replacement the pattern no longer occurs |
| Strings.KeptHeadStartsNoPattern | Actions.py:48 | when the text does not start with the pattern, the replaced text does not start with it either |
| Strings.ReplaceKeepsStripped | Actions.py:48 | a replacement ending in a non-space keeps a stripped text stripped |
| Strings.Upper | Actions.py:181 | `upper()` maps each character and keeps the length |
| Strings.StripStripped | Actions.py:34 | stripping an already stripped text changes nothing |
| Strings.Lower | Actions.py:41 | `lower()` maps each character and keeps the length |
| Strings.UpperStripped | Actions.py:181-184 | upper-casing a stripped option keeps it stripped |
| ResponseCleaning.FenceBody | Actions.py:37-47 | the fenced branch yields a stripped text no longer than the reply |
| ResponseCleaning.DropClosingFence | Actions.py:44-45 | removing a closing fence keeps the text stripped and never lengthens it |
| ResponseCleaning.ClosingFenceDropped | Actions.py:44-45 | a newline and a closing fence after a stripped body are both removed |
| ResponseCleaning.TaggedFenceBody | Actions.py:37-47 | the body of a block opened with a `json`-tagged fence is recovered exactly |
| ResponseCleaning.BareFenceBody | Actions.py:37-47 | the body of an untagged block that does not start with `json` is recovered exactly |
| ResponseCleaning.CleanResponse | Actions.py:34-48 | the text handed to the parser is stripped, contains no `: None`, and is never longer than the reply |
| ResponseCleaning.ExtractJson | Actions.py:32-54 | the result is the parser's value for the cleaned text, or the one `ValueError` when the parser rejects it; never a partial value |
| ResponseCleaning.TaggedFenceYieldsBody | Actions.py:34-48 | a reply wrapped (with any surrounding whitespace) in a `json`-tagged fence is cleaned to its body, with `: None` made `: null` |
| ResponseCleaning.BareFenceYieldsBody | Actions.py:34-48 | the same for an untagged fence whose body does not begin with `json` |
| ResponseCleaning.UnfencedReplyIsStripped | Actions.py:34-48 | a reply without a fence is only stripped and nullified; clean JSON passes through unchanged |
| Scoring.Normalize | Actions.py:181-184 | options are compared stripped and upper-cased |
| Scoring.McqScore | Actions.py:179-186 | an empty key raises `ZeroDivisionError`, and only then; otherwise the score lies in [0, len(chosen)/len(correct)] |
| Scoring.EvaluateMcq | Actions.py:179-186 | the counting loop computes exactly `McqScore`: hits over the length of the key |
| Scoring.HitsCommute | Actions.py:183-185 | the hits of two batches of choices add up, whatever their order |
| Scoring.HitsAll | Actions.py:183-185 | every choice counts exactly when every choice is in the key |
| Scoring.HitsNone | Actions.py:183-185 | no choice counts exactly when no choice is in the key |
| Scoring.McqEmptyChoice | Actions.py:179-186 | choosing nothing scores 0 |
| Scoring.McqScoreOk | Actions.py:179-186 | with a non-empty key the score is the number of hits over the key's length |
| Scoring.McqFullScore | Actions.py:179-186 | with as many choices as correct options, the score is 1 exactly when every choice is correct |
| Scoring.SingleChoice | Actions.py:179-186 | one choice scores 1/len(correct) when it is correct, otherwise 0 |
| Scoring.NormalizeLetter | Actions.py:181-184 | one letter with whitespace around it normalises to that letter upper-cased |
| Scoring.MatchOneOfTwo | Actions.py:179-186 | a choice that normalises like the second of two correct options scores one half |
| Scoring.NormalizedMatch | Actions.py:181-184 | " b" matches "B": `evaluate_mcq([" b"], ["A", "B"])` is 0.5 |
| Scoring.RepeatedHit | Actions.py:183-186 | a correct option chosen twice against a one-option key scores 2 |
| Scoring.DuplicatesCountTwice | Actions.py:183-186 | `evaluate_mcq(["A", "A"], ["A"])` is 2.0: a repeated correct option counts twice |
| Scoring.ShortAnswerGrade | Actions.py:189-205 | the grade is 0 or 1, and 1 exactly when the similarity is at least 0.5 |
| Scoring.ShortAnswerMonotone | Actions.py:205 | a higher similarity never gives a lower grade |
| Sandbox.Program | Actions.py:223 | the file run is the stripped code followed by the line `print(solution(<input>))` |
| Sandbox.ProgramIgnoresPadding | Actions.py:223 | whitespace around the submitted code does not change the program |
| Sandbox.Verdict | Actions.py:225-253 | a test passes exactly when the run finished and its stripped output equals the expected text; a mismatch records the input, the expected text and the run's stripped output, which differs; a crash is recorded exactly when the run raised, with its message |
| Sandbox.Failures | Actions.py:217-253 | there are never more details than tests |
| Sandbox.Passed | Actions.py:217-253 | each test increments exactly one counter: passes plus details equal the tests |
| Sandbox.RunCodeInSandbox | Actions.py:209-266 | the loop reports the passes, as many failures as details, the number of tests, and the details in test order; `passed + failed == total` |
| Sandbox.FailuresAppend | Actions.py:217-253 | two batches run in turn report the concatenation of their details and the sum of their passes |
| Sandbox.AllPassed | Actions.py:237-240 | every test passes exactly when no test yields a detail |
| Sandbox.FailuresFromTests | Actions.py:240-253 | every recorded detail is the verdict of one of the tests |
| Sandbox.PaddedOutputPasses | Actions.py:237-238 | output surrounded by whitespace (the newline of `print`) matches the expected text |
| Sandbox.PassedShare | App.py:291-295 | the coding score `passed / total` over a non-empty test list lies in [0, 1] |
| Sandbox.PrintedLinePasses | Actions.py:237-238 | a run that prints the expected text and a newline passes its test |
| Sandbox.CorrectRunsPassAll | Actions.py:237-240 | when every run prints the expected text and a newline, every test passes and no detail is recorded |
| Sandbox.AdderSample | Test.py:5-19 | the sample adder with its four tests reports four passes, no failure, four tests and no details |
| Beliefs.RunningMean | Actions.py:275 | the new belief times (n + 1) is the old belief times n plus the score |
| Beliefs.RunningMeanBetween | Actions.py:275 | the new belief lies between the old belief and the score |
| Beliefs.Observe | Actions.py:270-279 | one tag's count goes up by one and its belief absorbs the score; all other tags are unchanged |
| Beliefs.ObserveAll | Actions.py:269-281 | the update never adds or removes a key |
| Beliefs.ObserveAllMass | Actions.py:270-279 | after a successful update, each known tag's belief times count has grown by the score once per time the tag is listed |
| Beliefs.ScaledIsProduct | Actions.py:275 | adding `k` copies of a score gives `k` times the score |
| Beliefs.ObserveAllFailure | Actions.py:270-272 | the update raises `KeyError` exactly when a listed tag lacks a count or belief, and then at the first such tag |
| Beliefs.ObserveAllCounts | Actions.py:269-281 | a successful update adds to each count the number of times its tag is listed; unlisted tags keep their belief and count |
| Beliefs.ObserveScores | Actions.py:270-279 | repeated updates of one tag keep it known and never add or remove a key |
| Beliefs.ObserveAllCalibrated | Actions.py:269-281 | scores in [0, 1] keep every belief in [0, 1] |
| Beliefs.ObserveScoresMean | Actions.py:275-279 | after k scores a tag's count grew by k and belief times count by their sum: the belief is a true mean |
| Beliefs.BumpAll | App.py:298-299 | the submit loop leaves the beliefs alone, keeps the keys, and fails exactly when a listed tag has no count |
| Beliefs.BumpAllCounts | App.py:298-299 | a successful bump adds to each count the number of times its tag is listed |
| Beliefs.AppendNew | Actions.py:90-92 | assigning keys keeps the existing order as a prefix and the key set becomes old keys plus listed tags |
| Beliefs.FirstIndex | Actions.py:90 | the position of a tag's first occurrence in the subtopics |
| Beliefs.AppendNewOrder | Actions.py:90-92 | the keys added are new and listed, and come in the order in which they first occur in the subtopics |
| Beliefs.AppendNewDistinct | Actions.py:90-92 | the dictionary order never repeats a key |
| Beliefs.Seeded | Actions.py:90-92 | after seeding, every listed tag maps to the seed value and every other key keeps its value |
| Beliefs.SeedingCalibrated | Actions.py:90-92 | seeding keeps `beliefs` and `question_counts` on the same keys and every belief in [0, 1] |
| Beliefs.BandsPartition | Actions.py:284-286 | every belief falls in exactly one of strong (> 0.7), moderate (0.3 < b <= 0.7) and weak (<= 0.3) |
| Beliefs.Select | Actions.py:284-286 | every listed tag comes from an item whose belief is in the band |
| Beliefs.SelectInOrder | Actions.py:284-286 | selecting from two runs of items gives the first run's tags, then the second's: dictionary order is kept |
| Beliefs.SelectOne | Actions.py:284-286 | one item is listed exactly when its belief is in the band |
| Beliefs.SelectComplete | Actions.py:284-286 | every item whose belief is in the band is listed |
| Beliefs.SelectSizes | Actions.py:284-286 | the three lists together are exactly as long as the dictionary |
| Beliefs.SummaryText | Actions.py:288 | the summary opens with "User has strong knowledge in " |
| Beliefs.SummaryLayout | Actions.py:288 | the summary is the strong introduction, the strong tags joined with ", ", the moderate introduction and tags, the weak introduction and tags, then a full stop |
| Beliefs.TagInBandList | Actions.py:284-288 | a tag whose belief lies in a band occurs in that band's joined list |
| Beliefs.SummaryMentionsTag | Actions.py:283-288 | every tag of the dictionary occurs in the summary, inside the list of the band its belief lies in |
| Beliefs.SummaryPlacesEveryTag | Actions.py:283-288 | each tag of the store is listed in a band exactly when its belief lies in that band |
| Beliefs.PlacedInBand | Actions.py:284-286 | a tag of the store is listed under one band exactly when its belief lies in that band |
| Beliefs.BeliefStore.Items | Actions.py:284 | `beliefs.items()` pairs each key, in insertion order, with its belief |
| Beliefs.BeliefStore.constructor | App.py:62-73 | the session starts with empty `beliefs` and `question_counts` |
| Beliefs.BeliefStore.Reset | App.py:322-325 | restart empties both dictionaries |
| Beliefs.BeliefStore.ClearBeliefs | App.py:143 | a failed tag generation leaves `beliefs` empty and the counts as they were |
| Beliefs.BeliefStore.SeedTags | Actions.py:90-92 | each subtopic gets belief 0.5 and count 1, new ones last in the dictionary order |
| Beliefs.BeliefStore.UpdateBeliefs | Actions.py:269-281 | the dictionaries become the model update of the listed tags; `KeyError` names the first unknown tag and the earlier updates remain |
| Beliefs.BeliefStore.ObserveTag | Actions.py:273-279 | one tag's belief and count become those of `Observe`; the key order is kept |
| Beliefs.BeliefStore.BumpCounts | App.py:298-299 | each listed count goes up by one, stopping at the first tag without a count |
| Beliefs.BeliefStore.BumpTag | App.py:299 | one tag's count goes up by one and nothing else changes |
| Beliefs.BeliefStore.GenerateTags | Actions.py:78-104 | a reply's subtopics are seeded and returned; a failed reply changes nothing |
| StudentApp.TypeCounts | App.py:79-85 | the counts of "MCQ", "ShortAnswer" and "Coding" are their numbers of occurrences in `asked_types`, 0 for a kind never asked |
| StudentApp.CountIsOccurrences | App.py:80-85 | counting the entries equal to a kind gives that kind's number of occurrences |
| StudentApp.TypeCountsBound | App.py:80-85 | the three counts together never exceed the number of questions asked |
| StudentApp.TypeCountsAfterAsk | App.py:80-85 | asking one more question adds one to the count of its kind only |
| StudentApp.GenerateQuestion | Actions.py:166-175 | the question is the parser's value for the cleaned reply; a failed call or a rejected reply gives the one `ValueError` |
| StudentApp.FencedQuestionReply | Actions.py:166-175 | a reply that wraps the question's JSON in a `json`-tagged fence yields that question |
| StudentApp.Remaining | App.py:193-195 | the seconds left never exceed the time limit |
| StudentApp.TimeUpExactly | App.py:193-223 | time is up (nothing remains) exactly once a whole time limit has passed since the question was first shown |
| StudentApp.RemainingCountsDown | App.py:193-195 | the seconds left never go up as the clock advances |
| StudentApp.Score | App.py:285-297 | a submitted score lies in [0, 1]; other question types score 0; an empty key or test list raises `ZeroDivisionError`; a missing answer raises |
| StudentApp.EvaluateAnswer | App.py:286-297 | the scoring branch computes exactly `Score`, calling `evaluate_mcq` and `run_code_in_sandbox` |
| StudentApp.McqAnswerScore | App.py:287-288 | the selected option scores 1/len(correct_answer) when it is correct, otherwise 0 |
| StudentApp.CodingFullMarks | App.py:291-295 | code scores 1 exactly when every test case passes |
| StudentApp.SubmitUpdate | App.py:298-303 | a submission keeps the keys, and a missing count stops it before the beliefs are touched |
| StudentApp.SubmitUpdateMass | App.py:298-303 | after a successful submission, each known tag keeps its belief through the button's loop with its count raised by its listings, and its belief times count then grows by the score once per listing |
| StudentApp.SubmitUpdateCounts | App.py:298-303 | a submission fails exactly when a listed tag is unknown; otherwise each count grows by twice the times its tag is listed |
| StudentApp.SubmitOneTag | App.py:298-303 | for one tag a submission averages the score in with weight 1/(n+2) and adds 2 to its count |
| StudentApp.SkipOneTag | App.py:275-278 | for one tag a skip averages in 0 with weight 1/(n+1) and adds 1 to its count |
| StudentApp.SubmitUpdateCalibrated | App.py:298-303 | scores in [0, 1] keep every belief in [0, 1] through a submission |
| StudentApp.StudentSession.constructor | App.py:57-73 | the first page run: empty topic, tags and dictionaries, no question, count 0, step "start" |
| StudentApp.StudentSession.StartTest | App.py:136-149 | the reply's subtopics seed the beliefs and the step moves to the next question, after a failed generation too (with empty tags and beliefs) |
| StudentApp.StudentSession.RequestQuestion | App.py:152-180 | past the budget of 10 the step becomes the summary; otherwise a decision and a question record the question, its tags and its type; a failure changes nothing |
| StudentApp.StudentSession.ShowTimer | App.py:189-195 | the start time is recorded on the first run only, and the seconds left are returned |
| StudentApp.StudentSession.SkipQuestion | App.py:275-282 | the tags are updated with score 0, the question is counted, the step returns to the next question and the timer is dropped; a `KeyError` leaves the partial update and nothing else |
| StudentApp.StudentSession.RecordSkip | App.py:275-282 | after the timer, a skip updates the listed tags with score 0 and counts the question, or stops at an unknown tag with the earlier updates kept |
| StudentApp.StudentSession.SubmitAnswer | App.py:284-310 | refused once time is up; a scoring error changes nothing; otherwise the question is counted and every tag's count and belief change as `SubmitUpdate` says; the store stays calibrated |
| StudentApp.StudentSession.RecordSubmission | App.py:298-306 | the counts are bumped, the question counted, the step advanced and the beliefs updated, which cannot fail once every count was found |
| StudentApp.StudentSession.EndTest | App.py:265-267 | the step becomes the summary, with beliefs, counts and the question count unchanged |
| StudentApp.StudentSession.Summary | App.py:315-319 | the text shown is `SummaryText` of the store's items in dictionary order, so `SummaryLayout` and `SummaryMentionsTag` describe it |
| StudentApp.StudentSession.Restart | App.py:322-325 | every key is reset to its first-run value |
| EvaluatorAgent.ParseCall | Intelligent_Evaluator_Agent.py:122-128 | a reply is a call attempt exactly when it contains `CALL:`; a parsed name is stripped |
| EvaluatorAgent.CallParts | Intelligent_Evaluator_Agent.py:125-128 | a parsed call comes from a reply with exactly one marker; the stripped remainder is the raw name, a space, then the argument text |
| EvaluatorAgent.TwoMarkersMalformed | Intelligent_Evaluator_Agent.py:125 | a reply with the marker twice fails the two-way unpacking |
| EvaluatorAgent.NameOnlyMalformed | Intelligent_Evaluator_Agent.py:126 | a call whose stripped remainder holds no space fails the second unpacking |
| EvaluatorAgent.CallRoundTrip | Intelligent_Evaluator_Agent.py:122-128 | `CALL: name args` is read back as that name and that argument text |
| EvaluatorAgent.CallEffect | Intelligent_Evaluator_Agent.py:122-150 | a call appends at most one result and two messages; two messages exactly when it succeeded, a result exactly when the reply was appended; the reply comes first, then the action message; parsing fails exactly when the split or `json.loads` fails, and a parse failure or an unknown name appends nothing; a known name with parsed arguments has the effect of `PerformEffect` |
| EvaluatorAgent.PerformEffect | Intelligent_Evaluator_Agent.py:130-146 | the action is called with the keyword arguments when they are a dictionary, otherwise with none; a failing action records nothing; a successful one records its value under the name and the reply, and the action message holds `json.dumps` of the value exactly when serialisation succeeds |
| EvaluatorAgent.CallDispatched | Intelligent_Evaluator_Agent.py:122-144 | `CALL: name args` with a known name, parsed arguments, a successful action and serialisation records the value and appends the reply and the serialised action message |
| EvaluatorAgent.UnknownActionRecordsNothing | Intelligent_Evaluator_Agent.py:129-148 | an unknown action name appends nothing to either list |
| EvaluatorAgent.RemainingTime | Intelligent_Evaluator_Agent.py:167-169 | the countdown never exceeds 60 |
| EvaluatorAgent.RemainingZero | Intelligent_Evaluator_Agent.py:167-173 | the countdown shows zero exactly once more than 59 seconds have passed |
| EvaluatorAgent.GateDisagreesInLastSecond | Intelligent_Evaluator_Agent.py:167-183 | time left on the countdown means the answer is taken; between 59 and 60 seconds the countdown shows zero and the answer is still taken |
| EvaluatorAgent.AnswerGate | Intelligent_Evaluator_Agent.py:177-183 | a blank answer is ignored; a non-blank one is recorded exactly when at most 60 seconds have passed, and it is then the answer given |
| EvaluatorAgent.AgentSession.constructor | Intelligent_Evaluator_Agent.py:91-101 | the conversation opens with the stripped instructions as a system message; no results |
| EvaluatorAgent.AgentSession.StartAssessment | Intelligent_Evaluator_Agent.py:104-109 | starting appends one user message naming the topic |
| EvaluatorAgent.AgentSession.EnterAnswer | Intelligent_Evaluator_Agent.py:176 | the answer box holds what was typed |
| EvaluatorAgent.AgentSession.HandleCall | Intelligent_Evaluator_Agent.py:122-150 | the lists grow by exactly what `CallEffect` appends (which ties them to the parser, the action and the serialiser), and nothing else changes |
| EvaluatorAgent.AgentSession.Perform | Intelligent_Evaluator_Agent.py:130-146 | the lists grow by exactly what `PerformEffect` appends for the action's result, and nothing else changes |
| EvaluatorAgent.AgentSession.ShowReply | Intelligent_Evaluator_Agent.py:151-170 | a plain reply is appended as one assistant message, a pending clear empties the box, the timer starts once, and the countdown is returned |
| EvaluatorAgent.AgentSession.Turn | Intelligent_Evaluator_Agent.py:116-153 | a reply containing `CALL:` is dispatched, and any other reply is appended as one assistant message |
| EvaluatorAgent.AgentSession.SubmitAnswer | Intelligent_Evaluator_Agent.py:177-186 | the outcome is `AnswerGate` of the stripped answer; one user message is appended exactly when it is recorded; a blank answer keeps the box and the timer, any other clears the box and drops the timer |

## Left out

- The language-model calls: `query_llm`, `call_llm_agent`, the client of
  `call_llm_for_next_question` and the prompts. Their replies are inputs. The
  50/20/20 type mix exists only as prompt text, so nothing enforces it.
- `json.loads` and `json.dumps`: these are partial functions given as parameters.
  A parsed question is taken to be well formed. A JSON value with missing keys
  would fail when the page renders it, and that path is not modelled.
- The `SentenceTransformer` embedding and cosine similarity: the similarity is an
  input.
- The Docker client, the temporary files and `os.remove`: each run's outcome is
  given. `str(expected_output)` is taken to be the expected text.
- Streamlit rendering:
  - the JavaScript countdown, the widgets and the `flag` that clears the input
    widgets;
  - `st.rerun`, `print` and the messages shown;
  - role selection, the SME page, `Mcp_Action.py` and `Mcp_Generator.py`.
  - Restart also deletes the role key, which is not modelled.
- Python float rounding: beliefs and scores are exact reals.
- Strings.Upper: case mapping covers ASCII letters only. Python's `upper()` also
  maps other alphabets.
- Strings.Lower: case mapping covers ASCII letters only. Python's `lower()` also
  maps other alphabets.
- Beliefs.ObserveAll: its own contract states only the key sets. The counts, the
  belief mass of each known tag and the failure point are stated by
  `ObserveAllCounts`, `ObserveAllMass` and `ObserveAllFailure`.
- Beliefs.AppendNew: its own contract states the prefix and the key set. The order
  of the appended keys (first occurrence in the subtopics) is stated by
  `AppendNewOrder`.
- Beliefs.Select: its own contract states where each listed tag comes from. Order
  is stated by `SelectInOrder` and `SelectOne`, completeness by `SelectComplete`.
- Beliefs.SummaryText: its own contract states the opening words only. The full
  layout is stated by `SummaryLayout` and the placing of each tag by
  `SummaryMentionsTag`.
- StudentApp.SubmitUpdate: its own contract states the keys and the early stop.
  Counts and belief mass are stated by `SubmitUpdateCounts` and `SubmitUpdateMass`.
- The question template gives `correct_answer` of a multiple-choice question as
  one string, which `evaluate_mcq` would iterate character by character. The
  model keeps the declared list type.
- Beliefs.BeliefStore.GenerateTags: a reply that parses but is not a dictionary,
  or whose subtopics are not a list of strings, counts as a failed reply. Seeding
  that stops half-way on an unhashable tag is not modelled.
- StudentApp.Score: every scorer handed `None` raises the single `MissingAnswer`,
  whatever Python's exception type would be.
- Sandbox.Verdict: a detail records the input as the text written into the
  program. The code records the raw `test["input"]` value, which is not
  modelled apart from its text.
- The agent's `user_answer` key is set but never read.
- The `except` branch of "Start Test" is unreachable, because `generate_tags`
  catches everything.
- The `.get("passed", 0)` and `.get("total", 1)` defaults are never used, because
  the report always has both keys.
- The second `return` of `run_code_in_sandbox` (Actions.py:267) is never reached.
