/** Scoring of the two non-coding question kinds: `evaluate_mcq`, which counts
    the chosen options that appear (after normalisation) among the correct
    ones, and `evaluate_short_answer`, which thresholds a semantic similarity. */
module Scoring {
  import opened Base
  import opened Strings

  /** `x.strip().upper()`: the form in which options are compared. */
  function Normalize(x: string): (r: string)
    ensures IsStripped(r) && |r| <= |x|
  {
    UpperStripped(Strip(x));
    Upper(Strip(x))
  }

  /** The normalised answer key `[x.strip().upper() for x in correct_answer]`. */
  function NormalizeAll(xs: seq<string>): (r: seq<string>)
    ensures |r| == |xs| && forall i :: 0 <= i < |xs| ==> r[i] == Normalize(xs[i])
  {
    seq(|xs|, i requires 0 <= i < |xs| => Normalize(xs[i]))
  }

  /** Whether one chosen option counts as correct against the key. */
  predicate Hit(choice: string, key: seq<string>) {
    Normalize(choice) in key
  }

  /** How many entries of `xs` satisfy `p`. */
  function Count(xs: seq<string>, p: string -> bool): (n: nat)
    ensures n <= |xs|
  {
    if xs == [] then 0
    else Count(xs[..|xs| - 1], p) + (if p(xs[|xs| - 1]) then 1 else 0)
  }

  /** How many entries of `chosen` count as correct (duplicates count each time). */
  function Hits(chosen: seq<string>, key: seq<string>): (n: nat)
    ensures n <= |chosen|
  {
    Count(chosen, c => Hit(c, key))
  }

  /** `evaluate_mcq(chosen, correct)`: the number of hits over the number of
      correct options, or a `ZeroDivisionError` when no option is correct. */
  function McqScore(chosen: seq<string>, correct: seq<string>): (r: Result<real>)
    ensures r.Err? <==> correct == []
    ensures r.Err? ==> r.error == ZeroDivisionError
    ensures r.Ok? ==> 0.0 <= r.value <= (|chosen| as real) / (|correct| as real)
  {
    if correct == [] then Err(ZeroDivisionError)
    else
      var h := Hits(chosen, NormalizeAll(correct));
      assert (h as real) / (|correct| as real) <= (|chosen| as real) / (|correct| as real) by {
        DivMonotone(h as real, |chosen| as real, |correct| as real);
      }
      Ok((h as real) / (|correct| as real))
  }

  lemma DivMonotone(a: real, b: real, d: real)
    requires 0.0 <= a <= b && d > 0.0
    ensures 0.0 <= a / d <= b / d
  {
  }

  /** The loop of `evaluate_mcq`, counting hits one chosen option at a time. */
  method EvaluateMcq(chosen: seq<string>, correct: seq<string>) returns (r: Result<real>)
    ensures r == McqScore(chosen, correct)
  {
    var key := NormalizeAll(correct);
    var score: nat := 0;
    for i := 0 to |chosen|
      invariant score == Hits(chosen[..i], key)
    {
      assert chosen[..i + 1][..i] == chosen[..i];
      if Normalize(chosen[i]) in key {
        score := score + 1;
      }
    }
    assert chosen[..|chosen|] == chosen;
    if |correct| == 0 {
      r := Err(ZeroDivisionError);
    } else {
      r := Ok((score as real) / (|correct| as real));
    }
  }

  /** Counting distributes over a split of the sequence. */
  lemma {:induction false} CountAppend(a: seq<string>, b: seq<string>, p: string -> bool)
    ensures Count(a + b, p) == Count(a, p) + Count(b, p)
    decreases |b|
  {
    if b == [] {
      assert a + b == a;
    } else {
      var b' := b[..|b| - 1];
      assert (a + b)[..|a + b| - 1] == a + b';
      assert (a + b)[|a + b| - 1] == b[|b| - 1];
      CountAppend(a, b', p);
    }
  }

  /** Every entry is counted exactly when every entry satisfies `p`. */
  lemma {:induction false} CountAll(xs: seq<string>, p: string -> bool)
    ensures Count(xs, p) == |xs| <==> forall i :: 0 <= i < |xs| ==> p(xs[i])
  {
    if xs != [] {
      var init := xs[..|xs| - 1];
      CountAll(init, p);
      assert forall i :: 0 <= i < |init| ==> init[i] == xs[i];
    }
  }

  /** No entry is counted exactly when no entry satisfies `p`. */
  lemma {:induction false} CountNone(xs: seq<string>, p: string -> bool)
    ensures Count(xs, p) == 0 <==> forall i :: 0 <= i < |xs| ==> !p(xs[i])
  {
    if xs != [] {
      var init := xs[..|xs| - 1];
      CountNone(init, p);
      assert forall i :: 0 <= i < |init| ==> init[i] == xs[i];
    }
  }

  /** The order in which options are chosen does not change the count. */
  lemma HitsCommute(a: seq<string>, b: seq<string>, key: seq<string>)
    ensures Hits(a + b, key) == Hits(a, key) + Hits(b, key) == Hits(b + a, key)
  {
    CountAppend(a, b, c => Hit(c, key));
    CountAppend(b, a, c => Hit(c, key));
  }

  /** Every chosen option counts exactly when all of them are correct. */
  lemma HitsAll(chosen: seq<string>, key: seq<string>)
    ensures Hits(chosen, key) == |chosen| <==> forall i :: 0 <= i < |chosen| ==> Hit(chosen[i], key)
  {
    CountAll(chosen, c => Hit(c, key));
  }

  /** No chosen option counts exactly when none of them is correct. */
  lemma HitsNone(chosen: seq<string>, key: seq<string>)
    ensures Hits(chosen, key) == 0 <==> forall i :: 0 <= i < |chosen| ==> !Hit(chosen[i], key)
  {
    CountNone(chosen, c => Hit(c, key));
  }

  /** Choosing nothing scores 0. */
  lemma McqEmptyChoice(correct: seq<string>)
    requires correct != []
    ensures McqScore([], correct) == Ok(0.0)
  {
    McqScoreOk([], correct);
  }

  lemma McqScoreOk(chosen: seq<string>, correct: seq<string>)
    requires correct != []
    ensures McqScore(chosen, correct)
      == Ok((Hits(chosen, NormalizeAll(correct)) as real) / (|correct| as real))
  {
  }

  /** A full score (1.0) is reached exactly when the chosen options are as
      many as the correct ones and each of them is correct. */
  lemma McqFullScore(chosen: seq<string>, correct: seq<string>)
    requires correct != [] && |chosen| == |correct|
    ensures McqScore(chosen, correct) == Ok(1.0)
      <==> forall i :: 0 <= i < |chosen| ==> Hit(chosen[i], NormalizeAll(correct))
  {
    var key := NormalizeAll(correct);
    HitsAll(chosen, key);
    McqScoreOk(chosen, correct);
    RatioIsOne(Hits(chosen, key) as real, |correct| as real);
  }

  lemma RatioIsOne(h: real, d: real)
    requires d > 0.0
    ensures h / d == 1.0 <==> h == d
  {
    if h / d == 1.0 {
      assert h == (h / d) * d;
    }
  }

  lemma HitsSingle(choice: string, key: seq<string>)
    ensures Hits([choice], key) == if Hit(choice, key) then 1 else 0
  {
    assert [choice][..0] == [];
  }

  /** The single-choice call made for a multiple-choice question: the score is
      `1/len(correct)` when the choice is among the correct options, else 0. */
  lemma SingleChoice(choice: string, correct: seq<string>)
    requires correct != []
    ensures McqScore([choice], correct)
      == Ok(if Hit(choice, NormalizeAll(correct)) then 1.0 / (|correct| as real) else 0.0)
  {
    HitsSingle(choice, NormalizeAll(correct));
    McqScoreOk([choice], correct);
  }

  /** An option with whitespace around one letter normalises to that letter
      upper-cased. */
  lemma NormalizeLetter(x: string, w1: string, c: char, w2: string)
    requires AllSpace(w1) && AllSpace(w2) && !IsSpace(c) && x == w1 + [c] + w2
    ensures Normalize(x) == [UpperChar(c)]
  {
    StripOfPadded(w1, [c], w2);
    var u := Upper([c]);
    assert |u| == 1 && u[0] == UpperChar(c);
  }

  lemma HitSecond(choice: string, correct: seq<string>)
    requires |correct| == 2 && Normalize(choice) == Normalize(correct[1])
    ensures Hit(choice, NormalizeAll(correct))
  {
    assert NormalizeAll(correct)[1] == Normalize(correct[1]);
  }

  /** A choice matching the second of two correct options scores one half. */
  lemma MatchOneOfTwo(choice: string, correct: seq<string>)
    requires |correct| == 2 && Normalize(choice) == Normalize(correct[1])
    ensures McqScore([choice], correct) == Ok(0.5)
  {
    HitSecond(choice, correct);
    SingleChoice(choice, correct);
    assert (|correct| as real) == 2.0;
  }

  /** Options are compared after stripping and upper-casing: " b" matches "B". */
  lemma NormalizedMatch(choice: string, correct: seq<string>)
    requires choice == " b" && correct == ["A", "B"]
    ensures McqScore([choice], correct) == Ok(0.5)
  {
    NormalizeLetter(choice, [' '], 'b', []);
    NormalizeLetter(correct[1], [], 'B', []);
    MatchOneOfTwo(choice, correct);
  }

  /** A correct option chosen twice against a one-option key scores 2. */
  lemma RepeatedHit(choice: string, correct: seq<string>)
    requires |correct| == 1 && Normalize(choice) == Normalize(correct[0])
    ensures McqScore([choice, choice], correct) == Ok(2.0)
  {
    var key := NormalizeAll(correct);
    assert Hit(choice, key) by {
      assert key[0] == Normalize(correct[0]);
    }
    var chosen := [choice, choice];
    assert forall i :: 0 <= i < |chosen| ==> Hit(chosen[i], key);
    HitsAll(chosen, key);
    McqScoreOk(chosen, correct);
    assert (|correct| as real) == 1.0;
  }

  /** The same correct option chosen twice counts twice, so the score of
      `evaluate_mcq` is not bounded by 1. */
  lemma DuplicatesCountTwice(chosen: seq<string>, correct: seq<string>)
    requires chosen == ["A", "A"] && correct == ["A"]
    ensures McqScore(chosen, correct) == Ok(2.0)
  {
    RepeatedHit(correct[0], correct);
    assert chosen == [correct[0], correct[0]];
  }

  /** `evaluate_short_answer`: 1 when the similarity of the two answers
      reaches one half, 0 otherwise. The embedding model's cosine similarity
      is a parameter. */
  function ShortAnswerGrade(userAnswer: string, correctAnswer: string,
                            similarity: (string, string) -> real): (grade: int)
    ensures grade == 0 || grade == 1
    ensures grade == 1 <==> similarity(userAnswer, correctAnswer) >= 0.5
  {
    if similarity(userAnswer, correctAnswer) >= 0.5 then 1 else 0
  }

  /** A higher similarity never yields a lower grade. */
  lemma ShortAnswerMonotone(u1: string, c1: string, u2: string, c2: string,
                            similarity: (string, string) -> real)
    requires similarity(u1, c1) <= similarity(u2, c2)
    ensures ShortAnswerGrade(u1, c1, similarity) <= ShortAnswerGrade(u2, c2, similarity)
  {
  }
}
