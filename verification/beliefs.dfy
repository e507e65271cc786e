/** The learner model of the evaluator: one belief per tag (a running mean of
    the scores seen for that tag, seeded at 0.5 with a count of 1), its update
    after each answered or skipped question (`update_beliefs`), its seeding
    from the subtopics of a topic (`generate_tags`), and the final three-band
    summary (`summarize_results`). */
module Beliefs {
  import opened Base
  import opened Strings

  const InitialBelief: real := 0.5
  const InitialCount: nat := 1
  const StrongAbove: real := 0.7
  const WeakAtMost: real := 0.3

  /** The two dictionaries `beliefs` and `question_counts`, as values. */
  datatype Tally = Tally(beliefs: map<string, real>, counts: map<string, nat>)

  /** What a run over a list of tags leaves: the tallies, and the tag whose
      lookup raised `KeyError`, if any (the updates before it stay applied). */
  datatype Applied = Applied(tally: Tally, failure: Option<string>)

  /** A tag that `update_beliefs` can read: it has a count and a belief. */
  predicate Known(t: Tally, tag: string) {
    tag in t.counts && tag in t.beliefs
  }

  /** `(current_belief * n + score) / (n + 1)`. */
  function RunningMean(belief: real, n: nat, score: real): (r: real)
    ensures r * (n as real + 1.0) == belief * (n as real) + score
  {
    (belief * (n as real) + score) / (n as real + 1.0)
  }

  /** The new mean lies between the old mean and the new score. */
  lemma RunningMeanBetween(belief: real, n: nat, score: real)
    ensures belief <= score ==> belief <= RunningMean(belief, n, score) <= score
    ensures score <= belief ==> score <= RunningMean(belief, n, score) <= belief
  {
    var m := RunningMean(belief, n, score);
    var d := n as real + 1.0;
    assert m * d == belief * (n as real) + score;
    assert (m - belief) * d == score - belief;
    assert (m - score) * d == (belief - score) * (n as real);
    if belief <= score {
      ProductSign(m - belief, d);
      assert (belief - score) * (n as real) <= 0.0;
      ProductSign(m - score, d);
    } else {
      ProductSign(m - belief, d);
      assert (belief - score) * (n as real) >= 0.0;
      ProductSign(m - score, d);
    }
  }

  lemma ProductSign(x: real, d: real)
    requires d > 0.0
    ensures x * d >= 0.0 ==> x >= 0.0
    ensures x * d <= 0.0 ==> x <= 0.0
  {
    if x < 0.0 {
      assert x * d < 0.0;
    } else if x > 0.0 {
      assert x * d > 0.0;
    }
  }

  /** A tag's belief times its count: the sum of all scores it has seen,
      the seed included. */
  function Mass(t: Tally, tag: string): real
    requires Known(t, tag)
  {
    t.beliefs[tag] * (t.counts[tag] as real)
  }

  /** One step of the loop of `update_beliefs`. */
  function Observe(t: Tally, tag: string, score: real): (r: Tally)
    requires Known(t, tag)
    ensures r.beliefs.Keys == t.beliefs.Keys && r.counts.Keys == t.counts.Keys
    ensures r.counts[tag] == t.counts[tag] + 1
    ensures Mass(r, tag) == Mass(t, tag) + score
    ensures forall x :: x != tag && x in t.beliefs ==> r.beliefs[x] == t.beliefs[x]
    ensures forall x :: x != tag && x in t.counts ==> r.counts[x] == t.counts[x]
  {
    var n := t.counts[tag];
    Tally(t.beliefs[tag := RunningMean(t.beliefs[tag], n, score)], t.counts[tag := n + 1])
  }

  /** `update_beliefs(tags, score)`: every tag in turn, stopping at the first
      tag whose count or belief is missing. */
  function ObserveAll(t: Tally, tags: seq<string>, score: real): (r: Applied)
    ensures r.tally.beliefs.Keys == t.beliefs.Keys && r.tally.counts.Keys == t.counts.Keys
    decreases |tags|
  {
    if tags == [] then Applied(t, None)
    else if !Known(t, tags[0]) then Applied(t, Some(tags[0]))
    else ObserveAll(Observe(t, tags[0], score), tags[1..], score)
  }

  /** One turn of the loop of `update_beliefs`. */
  lemma ObserveAllHead(t: Tally, tags: seq<string>, score: real)
    requires tags != []
    ensures ObserveAll(t, tags, score)
      == if Known(t, tags[0]) then ObserveAll(Observe(t, tags[0], score), tags[1..], score)
         else Applied(t, Some(tags[0]))
  {
  }

  /** The update fails exactly when some listed tag is unknown, and then at
      the first such tag. */
  lemma {:induction false} ObserveAllFailure(t: Tally, tags: seq<string>, score: real)
    ensures ObserveAll(t, tags, score).failure.None? <==> forall i :: 0 <= i < |tags| ==> Known(t, tags[i])
    ensures ObserveAll(t, tags, score).failure.Some? ==>
      exists k :: 0 <= k < |tags| && tags[k] == ObserveAll(t, tags, score).failure.value
        && !Known(t, tags[k]) && forall j :: 0 <= j < k ==> Known(t, tags[j])
    decreases |tags|
  {
    if tags != [] && Known(t, tags[0]) {
      var t' := Observe(t, tags[0], score);
      ObserveAllFailure(t', tags[1..], score);
      assert forall x :: Known(t', x) <==> Known(t, x);
      assert forall i :: 1 <= i < |tags| ==> tags[1..][i - 1] == tags[i];
      var r := ObserveAll(t, tags, score);
      if r.failure.Some? {
        var k :| 0 <= k < |tags[1..]| && tags[1..][k] == r.failure.value
          && !Known(t', tags[1..][k]) && forall j :: 0 <= j < k ==> Known(t', tags[1..][j]);
        assert tags[k + 1] == r.failure.value;
        forall j | 0 <= j < k + 1 ensures Known(t, tags[j]) {
          if j > 0 { assert tags[j] == tags[1..][j - 1]; }
        }
      }
    }
  }

  /** A successful update adds to each count the number of times its tag is
      listed; tags that are not listed keep their belief and count. */
  lemma {:induction false} ObserveAllCounts(t: Tally, tags: seq<string>, score: real)
    ensures var r := ObserveAll(t, tags, score);
      r.failure.None? ==> forall x :: x in t.counts ==> r.tally.counts[x] == t.counts[x] + multiset(tags)[x]
    ensures var r := ObserveAll(t, tags, score);
      forall x :: x in t.beliefs && x !in tags ==> r.tally.beliefs[x] == t.beliefs[x]
    ensures var r := ObserveAll(t, tags, score);
      forall x :: x in t.counts && x !in tags ==> r.tally.counts[x] == t.counts[x]
    decreases |tags|
  {
    if tags != [] && Known(t, tags[0]) {
      var t' := Observe(t, tags[0], score);
      ObserveAllCounts(t', tags[1..], score);
      assert tags == [tags[0]] + tags[1..];
      assert multiset(tags) == multiset{tags[0]} + multiset(tags[1..]);
      forall x | x in t.beliefs && x !in tags ensures x != tags[0] && x !in tags[1..] {
        assert tags[0] in tags;
      }
    }
  }

  /** A successful update adds to each tag's belief times count the score once
      for every time the tag is listed, so each listed tag's belief becomes the
      mean of what it had seen and its new scores. */
  lemma ObserveAllMass(t: Tally, tags: seq<string>, score: real)
    ensures var r := ObserveAll(t, tags, score);
      r.failure.None? ==> forall x :: Known(t, x) ==>
        Known(r.tally, x) && Mass(r.tally, x) == Mass(t, x) + Scaled(multiset(tags)[x], score)
  {
    forall x | Known(t, x)
      ensures var r := ObserveAll(t, tags, score);
        r.failure.None? ==> Known(r.tally, x) && Mass(r.tally, x) == Mass(t, x) + Scaled(multiset(tags)[x], score)
    {
      ObserveAllMassAt(t, tags, score, x);
    }
  }

  /** `k` copies of `score` added up, that is `k * score` (`ScaledIsProduct`). */
  function Scaled(k: nat, score: real): real {
    if k == 0 then 0.0 else Scaled(k - 1, score) + score
  }

  lemma {:induction false} ScaledIsProduct(k: nat, score: real)
    ensures Scaled(k, score) == (k as real) * score
  {
    if k > 0 {
      ScaledIsProduct(k - 1, score);
      assert (k as real) * score == ((k - 1) as real) * score + score;
    }
  }

  /** `ObserveAllMass` for one tag. */
  lemma {:induction false} ObserveAllMassAt(t: Tally, tags: seq<string>, score: real, x: string)
    requires Known(t, x)
    ensures var r := ObserveAll(t, tags, score);
      r.failure.None? ==> Known(r.tally, x) && Mass(r.tally, x) == Mass(t, x) + Scaled(multiset(tags)[x], score)
    decreases |tags|
  {
    if tags == [] {
      assert multiset(tags)[x] == 0;
    } else if Known(t, tags[0]) {
      var t' := Observe(t, tags[0], score);
      assert ObserveAll(t, tags, score) == ObserveAll(t', tags[1..], score);
      ObserveAllMassAt(t', tags[1..], score, x);
      var m := multiset(tags[1..])[x];
      MultisetHead(tags, x);
      ObserveMassStep(t, tags[0], score, x, m);
    }
  }

  /** How often `x` is listed, counted from the head. */
  lemma MultisetHead(tags: seq<string>, x: string)
    requires tags != []
    ensures multiset(tags)[x] == multiset(tags[1..])[x] + (if x == tags[0] then 1 else 0)
  {
    assert tags == [tags[0]] + tags[1..];
  }

  /** One observation of `tag` followed by `m` more scores for `x`: the
      observation adds to `x`'s mass only when `x` is that tag. */
  lemma ObserveMassStep(t: Tally, tag: string, score: real, x: string, m: nat)
    requires Known(t, tag) && Known(t, x)
    ensures Known(Observe(t, tag, score), x)
    ensures Mass(Observe(t, tag, score), x) + Scaled(m, score)
         == Mass(t, x) + Scaled(m + (if x == tag then 1 else 0), score)
  {
    if x != tag {
      ObserveOther(t, tag, score, x);
    } else {
      assert Scaled(m + 1, score) == Scaled(m, score) + score;
    }
  }

  /** Observing one tag leaves another tag's mass alone. */
  lemma ObserveOther(t: Tally, tag: string, score: real, x: string)
    requires Known(t, tag) && Known(t, x) && x != tag
    ensures Known(Observe(t, tag, score), x) && Mass(Observe(t, tag, score), x) == Mass(t, x)
  {
    var t' := Observe(t, tag, score);
    assert t'.beliefs[x] == t.beliefs[x] && t'.counts[x] == t.counts[x];
  }

  /** All beliefs lie in [0, 1]. */
  predicate Calibrated(t: Tally) {
    forall x :: x in t.beliefs ==> 0.0 <= t.beliefs[x] <= 1.0
  }

  /** Scores in [0, 1] keep every belief in [0, 1]. */
  lemma {:induction false} ObserveAllCalibrated(t: Tally, tags: seq<string>, score: real)
    requires Calibrated(t) && 0.0 <= score <= 1.0
    ensures Calibrated(ObserveAll(t, tags, score).tally)
    decreases |tags|
  {
    if tags != [] && Known(t, tags[0]) {
      var tag := tags[0];
      RunningMeanBetween(t.beliefs[tag], t.counts[tag], score);
      var t' := Observe(t, tag, score);
      assert Calibrated(t');
      ObserveAllCalibrated(t', tags[1..], score);
    }
  }

  /** Repeated observations of one tag, one score each. */
  function ObserveScores(t: Tally, tag: string, scores: seq<real>): (r: Tally)
    requires Known(t, tag)
    ensures Known(r, tag) && r.beliefs.Keys == t.beliefs.Keys && r.counts.Keys == t.counts.Keys
    decreases |scores|
  {
    if scores == [] then t
    else ObserveScores(Observe(t, tag, scores[0]), tag, scores[1..])
  }

  function Sum(xs: seq<real>): real {
    if xs == [] then 0.0 else xs[0] + Sum(xs[1..])
  }

  /** The running mean is a true mean: after k scores, belief times count has
      grown by their sum and the count by k, so a seeded tag's belief is the
      mean of the scores and one pseudo-observation of 0.5. */
  lemma {:induction false} ObserveScoresMean(t: Tally, tag: string, scores: seq<real>)
    requires Known(t, tag)
    ensures var r := ObserveScores(t, tag, scores);
      r.counts[tag] == t.counts[tag] + |scores| && Mass(r, tag) == Mass(t, tag) + Sum(scores)
    decreases |scores|
  {
    if scores != [] {
      var t' := Observe(t, tag, scores[0]);
      ObserveScoresMean(t', tag, scores[1..]);
    }
  }

  /** `question_counts[tag] += 1` on its own. */
  function Bump(t: Tally, tag: string): (r: Tally)
    requires tag in t.counts
    ensures r.beliefs == t.beliefs && r.counts.Keys == t.counts.Keys
  {
    Tally(t.beliefs, t.counts[tag := t.counts[tag] + 1])
  }

  /** `question_counts[tag] += 1` for every listed tag, as `submit` does before
      calling `update_beliefs`; stops at the first tag without a count. */
  function BumpAll(t: Tally, tags: seq<string>): (r: Applied)
    ensures r.tally.beliefs == t.beliefs && r.tally.counts.Keys == t.counts.Keys
    ensures r.failure.None? <==> forall i :: 0 <= i < |tags| ==> tags[i] in t.counts
    decreases |tags|
  {
    if tags == [] then Applied(t, None)
    else if tags[0] !in t.counts then Applied(t, Some(tags[0]))
    else
      var r := BumpAll(Bump(t, tags[0]), tags[1..]);
      assert forall i :: 1 <= i < |tags| ==> tags[1..][i - 1] == tags[i];
      r
  }

  /** A successful bump adds to each count the number of times its tag is listed. */
  lemma {:induction false} BumpAllCounts(t: Tally, tags: seq<string>)
    ensures BumpAll(t, tags).failure.None? ==>
      forall x :: x in t.counts ==> BumpAll(t, tags).tally.counts[x] == t.counts[x] + multiset(tags)[x]
    decreases |tags|
  {
    if tags != [] && tags[0] in t.counts {
      BumpAllCounts(Bump(t, tags[0]), tags[1..]);
      assert tags == [tags[0]] + tags[1..];
      assert multiset(tags) == multiset{tags[0]} + multiset(tags[1..]);
    }
  }

  /** No element occurs twice. */
  predicate Distinct(s: seq<string>) {
    forall i, j :: 0 <= i < j < |s| ==> s[i] != s[j]
  }

  lemma DistinctAppend(order: seq<string>, tag: string)
    requires Distinct(order) && tag !in order
    ensures Distinct(order + [tag])
  {
  }

  /** The key order of a dictionary after assigning the listed keys in turn:
      a key already present keeps its place, a new key goes last. */
  function AppendNew(order: seq<string>, tags: seq<string>): (r: seq<string>)
    ensures |order| <= |r| && r[..|order|] == order
    ensures forall x :: x in r <==> x in order || x in tags
    decreases |tags|
  {
    if tags == [] then order
    else
      var next := if tags[0] in order then order else order + [tags[0]];
      var r := AppendNew(next, tags[1..]);
      assert r[..|order|] == r[..|next|][..|order|];
      assert forall x :: x in tags <==> x == tags[0] || x in tags[1..];
      r
  }

  /** `tags.index(x)`: the position of the first occurrence. */
  function FirstIndex(tags: seq<string>, x: string): (i: nat)
    requires x in tags
    ensures i < |tags| && tags[i] == x && forall j :: 0 <= j < i ==> tags[j] != x
  {
    if tags[0] == x then 0
    else
      var i := FirstIndex(tags[1..], x);
      assert forall j :: 1 <= j <= i ==> tags[j] == tags[1..][j - 1];
      i + 1
  }

  lemma FirstIndexTail(tags: seq<string>, y: string)
    requires tags != [] && y in tags[1..] && y != tags[0]
    ensures y in tags && FirstIndex(tags, y) == FirstIndex(tags[1..], y) + 1
  {
  }

  /** The keys appended are listed tags that were not keys yet, in the order
      of their first occurrence in the list. */
  lemma {:induction false} AppendNewOrder(order: seq<string>, tags: seq<string>)
    ensures var r := AppendNew(order, tags);
      && (forall p :: |order| <= p < |r| ==> r[p] !in order && r[p] in tags)
      && (forall p, q :: |order| <= p < q < |r| ==> FirstIndex(tags, r[p]) < FirstIndex(tags, r[q]))
    decreases |tags|
  {
    if tags != [] {
      var next := if tags[0] in order then order else order + [tags[0]];
      var r := AppendNew(order, tags);
      assert r == AppendNew(next, tags[1..]);
      AppendNewOrder(next, tags[1..]);
      forall y | y in tags[1..] && y != tags[0] ensures y in tags && FirstIndex(tags, y) == FirstIndex(tags[1..], y) + 1 {
        FirstIndexTail(tags, y);
      }
      if tags[0] !in order {
        assert r[..|next|] == next;
        assert r[|order|] == tags[0];
      }
    }
  }

  /** Appending only absent keys keeps the order free of repetitions. */
  lemma {:induction false} AppendNewDistinct(order: seq<string>, tags: seq<string>)
    requires Distinct(order)
    ensures Distinct(AppendNew(order, tags))
    decreases |tags|
  {
    if tags != [] {
      var next := if tags[0] in order then order else order + [tags[0]];
      if tags[0] !in order { DistinctAppend(order, tags[0]); }
      AppendNewDistinct(next, tags[1..]);
    }
  }

  /** The dictionary after `d[tag] = v` for each listed tag in turn. */
  function Seeded<V>(d: map<string, V>, tags: seq<string>, v: V): (r: map<string, V>)
    ensures forall x :: x in r <==> x in d || x in tags
    ensures forall x :: x in tags ==> r[x] == v
    ensures forall x :: x in d && x !in tags ==> r[x] == d[x]
    decreases |tags|
  {
    if tags == [] then d
    else
      var r := Seeded(d[tags[0] := v], tags[1..], v);
      assert forall x :: x in tags <==> x == tags[0] || x in tags[1..];
      r
  }

  /** Seeding keeps the two dictionaries on the same keys and every belief
      in [0, 1]. */
  lemma SeedingCalibrated(t: Tally, subtopics: seq<string>)
    requires t.counts.Keys == t.beliefs.Keys && Calibrated(t)
    ensures var s := Tally(Seeded(t.beliefs, subtopics, InitialBelief), Seeded(t.counts, subtopics, InitialCount));
      s.counts.Keys == s.beliefs.Keys && Calibrated(s)
  {
    var s := Tally(Seeded(t.beliefs, subtopics, InitialBelief), Seeded(t.counts, subtopics, InitialCount));
    forall x | x in s.beliefs ensures 0.0 <= s.beliefs[x] <= 1.0 {
      if x !in subtopics {
        assert s.beliefs[x] == t.beliefs[x];
      }
    }
  }

  /** The belief ranges of `summarize_results`. */
  predicate Strong(b: real) { b > StrongAbove }
  predicate Moderate(b: real) { WeakAtMost < b <= StrongAbove }
  predicate Weak(b: real) { b <= WeakAtMost }

  /** Every belief falls in exactly one band. */
  lemma BandsPartition(b: real)
    ensures Strong(b) || Moderate(b) || Weak(b)
    ensures !(Strong(b) && Moderate(b)) && !(Strong(b) && Weak(b)) && !(Moderate(b) && Weak(b))
  {
  }

  /** The tags, in dictionary order, whose belief lies in the band. */
  function Select(items: seq<(string, real)>, band: real -> bool): (r: seq<string>)
    ensures |r| <= |items|
    ensures forall x :: x in r ==> exists i :: 0 <= i < |items| && items[i].0 == x && band(items[i].1)
    decreases |items|
  {
    if items == [] then []
    else
      var rest := Select(items[1..], band);
      assert forall i :: 1 <= i < |items| ==> items[1..][i - 1] == items[i];
      (if band(items[0].1) then [items[0].0] else []) + rest
  }

  /** An item whose belief lies in the band is selected. */
  lemma {:induction false} SelectComplete(items: seq<(string, real)>, band: real -> bool, i: nat)
    requires i < |items| && band(items[i].1)
    ensures items[i].0 in Select(items, band)
    decreases |items|
  {
    if i > 0 {
      SelectComplete(items[1..], band, i - 1);
    }
  }

  /** The lists keep dictionary order: selecting from two runs of items one
      after the other gives the selections of each, in that order
      (`SelectOne` says what one item contributes). */
  lemma {:induction false} SelectInOrder(a: seq<(string, real)>, b: seq<(string, real)>, band: real -> bool)
    ensures Select(a + b, band) == Select(a, band) + Select(b, band)
    decreases |a|
  {
    if a == [] {
      assert a + b == b;
    } else {
      var ab := a + b;
      assert ab[0] == a[0] && ab[1..] == a[1..] + b;
      SelectInOrder(a[1..], b, band);
      SelectHead(a, band);
      SelectHead(ab, band);
    }
  }

  /** One step of `Select`. */
  lemma SelectHead(items: seq<(string, real)>, band: real -> bool)
    requires items != []
    ensures Select(items, band) == (if band(items[0].1) then [items[0].0] else []) + Select(items[1..], band)
  {
  }

  /** One item is selected exactly when its belief lies in the band. */
  lemma SelectOne(x: (string, real), band: real -> bool)
    ensures Select([x], band) == if band(x.1) then [x.0] else []
  {
    assert [x][1..] == [];
  }

  /** The three lists together hold every item exactly once. */
  lemma {:induction false} SelectSizes(items: seq<(string, real)>)
    ensures |Select(items, Strong)| + |Select(items, Moderate)| + |Select(items, Weak)| == |items|
    decreases |items|
  {
    if items != [] {
      BandsPartition(items[0].1);
      SelectSizes(items[1..]);
    }
  }

  const StrongIntro: string := "User has strong knowledge in "
  const ModerateIntro: string := " and User has moderate knowledge in "
  const WeakIntro: string := " and User has weak knowledge in "

  /** `summarize_results(beliefs)`, on the dictionary's items in order. */
  function SummaryText(items: seq<(string, real)>): (s: string)
    ensures StartsWith(s, StrongIntro)
  {
    var text := StrongIntro + Join(Select(items, Strong), ", ")
      + ModerateIntro + Join(Select(items, Moderate), ", ")
      + WeakIntro + Join(Select(items, Weak), ", ") + ".";
    assert text[..|StrongIntro|] == StrongIntro;
    text
  }

  /** The summary is laid out as the three introductions, each followed by
      its band's tags joined with ", ", and a closing full stop: the strong
      list starts at `o1`, the moderate one at `o2`, the weak one at `o3`. */
  lemma SummaryLayout(items: seq<(string, real)>) returns (o1: nat, o2: nat, o3: nat)
    ensures var s := SummaryText(items);
      var strong := Join(Select(items, Strong), ", ");
      var moderate := Join(Select(items, Moderate), ", ");
      var weak := Join(Select(items, Weak), ", ");
      && o1 == |StrongIntro| && OccursAt(s, StrongIntro, 0) && OccursAt(s, strong, o1)
      && o2 == o1 + |strong| + |ModerateIntro| && OccursAt(s, ModerateIntro, o1 + |strong|) && OccursAt(s, moderate, o2)
      && o3 == o2 + |moderate| + |WeakIntro| && OccursAt(s, WeakIntro, o2 + |moderate|) && OccursAt(s, weak, o3)
      && |s| == o3 + |weak| + 1 && s[|s| - 1] == '.'
  {
    o1, o2, o3 := LayoutOf(Join(Select(items, Strong), ", "), Join(Select(items, Moderate), ", "),
                           Join(Select(items, Weak), ", "));
  }

  /** The layout of the summary for any three lists. */
  lemma LayoutOf(strong: string, moderate: string, weak: string) returns (o1: nat, o2: nat, o3: nat)
    ensures var s := StrongIntro + strong + ModerateIntro + moderate + WeakIntro + weak + ".";
      && o1 == |StrongIntro| && OccursAt(s, StrongIntro, 0) && OccursAt(s, strong, o1)
      && o2 == o1 + |strong| + |ModerateIntro| && OccursAt(s, ModerateIntro, o1 + |strong|) && OccursAt(s, moderate, o2)
      && o3 == o2 + |moderate| + |WeakIntro| && OccursAt(s, WeakIntro, o2 + |moderate|) && OccursAt(s, weak, o3)
      && |s| == o3 + |weak| + 1 && s[|s| - 1] == '.'
  {
    var p1 := StrongIntro;
    var p2 := p1 + strong;
    var p3 := p2 + ModerateIntro;
    var p4 := p3 + moderate;
    var p5 := p4 + WeakIntro;
    var p6 := p5 + weak;
    o1, o2, o3 := |p1|, |p3|, |p5|;
    // Each piece occurs at the end of the prefix it completes, and stays
    // there as the remaining pieces are appended.
    assert OccursAt(p1, StrongIntro, 0);
    OccursExtend(p1, strong, StrongIntro, 0);
    OccursAtEnd(p1, strong);
    OccursExtend(p2, ModerateIntro, StrongIntro, 0);
    OccursExtend(p2, ModerateIntro, strong, o1);
    OccursAtEnd(p2, ModerateIntro);
    OccursExtend(p3, moderate, StrongIntro, 0);
    OccursExtend(p3, moderate, strong, o1);
    OccursExtend(p3, moderate, ModerateIntro, |p2|);
    OccursAtEnd(p3, moderate);
    OccursExtend(p4, WeakIntro, StrongIntro, 0);
    OccursExtend(p4, WeakIntro, strong, o1);
    OccursExtend(p4, WeakIntro, ModerateIntro, |p2|);
    OccursExtend(p4, WeakIntro, moderate, o2);
    OccursAtEnd(p4, WeakIntro);
    OccursExtend(p5, weak, StrongIntro, 0);
    OccursExtend(p5, weak, strong, o1);
    OccursExtend(p5, weak, ModerateIntro, |p2|);
    OccursExtend(p5, weak, moderate, o2);
    OccursExtend(p5, weak, WeakIntro, |p4|);
    OccursAtEnd(p5, weak);
    OccursExtend(p6, ".", StrongIntro, 0);
    OccursExtend(p6, ".", strong, o1);
    OccursExtend(p6, ".", ModerateIntro, |p2|);
    OccursExtend(p6, ".", moderate, o2);
    OccursExtend(p6, ".", WeakIntro, |p4|);
    OccursExtend(p6, ".", weak, o3);
  }

  /** A tag whose belief lies in a band occurs in that band's joined list. */
  lemma TagInBandList(items: seq<(string, real)>, i: nat, band: real -> bool) returns (j: nat)
    requires i < |items| && band(items[i].1)
    ensures OccursAt(Join(Select(items, band), ", "), items[i].0, j)
  {
    SelectComplete(items, band, i);
    var r := Select(items, band);
    var k :| 0 <= k < |r| && r[k] == items[i].0;
    j := JoinHasPart(r, ", ", k);
  }

  /** Every tag of the dictionary is named in the summary, inside the list of
      the band its belief falls in. */
  lemma SummaryMentionsTag(items: seq<(string, real)>, i: nat) returns (j: nat)
    requires i < |items|
    ensures OccursAt(SummaryText(items), items[i].0, j)
    ensures var o1, o2, o3 := |StrongIntro|,
        |StrongIntro| + |Join(Select(items, Strong), ", ")| + |ModerateIntro|,
        |StrongIntro| + |Join(Select(items, Strong), ", ")| + |ModerateIntro|
          + |Join(Select(items, Moderate), ", ")| + |WeakIntro|;
      && (Strong(items[i].1) ==> o1 <= j && j + |items[i].0| <= o1 + |Join(Select(items, Strong), ", ")|)
      && (Moderate(items[i].1) ==> o2 <= j && j + |items[i].0| <= o2 + |Join(Select(items, Moderate), ", ")|)
      && (Weak(items[i].1) ==> o3 <= j && j + |items[i].0| <= o3 + |Join(Select(items, Weak), ", ")|)
  {
    var o1, o2, o3 := SummaryLayout(items);
    BandsPartition(items[i].1);
    if Strong(items[i].1) {
      j := MentionInBand(items, i, Strong, o1);
    } else if Moderate(items[i].1) {
      j := MentionInBand(items, i, Moderate, o2);
    } else {
      j := MentionInBand(items, i, Weak, o3);
    }
  }

  /** A tag in its band's list, where that list sits in the summary. */
  lemma MentionInBand(items: seq<(string, real)>, i: nat, band: real -> bool, o: nat) returns (j: nat)
    requires i < |items| && band(items[i].1)
    requires OccursAt(SummaryText(items), Join(Select(items, band), ", "), o)
    ensures OccursAt(SummaryText(items), items[i].0, j)
    ensures o <= j && j + |items[i].0| <= o + |Join(Select(items, band), ", ")|
  {
    var k := TagInBandList(items, i, band);
    OccursWithin(SummaryText(items), Join(Select(items, band), ", "), o, items[i].0, k);
    j := o + k;
  }

  /** The dictionaries `beliefs` and `question_counts` held in the session,
      updated in place; `order` is the insertion order of the belief keys. */
  class BeliefStore {
    var beliefs: map<string, real>
    var counts: map<string, nat>
    var order: seq<string>

    ghost predicate Valid()
      reads this
    {
      Distinct(order) && (forall x :: x in order <==> x in beliefs)
    }

    function Current(): Tally
      reads this
    {
      Tally(beliefs, counts)
    }

    /** `beliefs.items()`, in insertion order. */
    function Items(): (items: seq<(string, real)>)
      reads this
      requires Valid()
      ensures |items| == |order|
      ensures forall i :: 0 <= i < |order| ==> items[i] == (order[i], beliefs[order[i]])
    {
      seq(|order|, i requires 0 <= i < |order| && order[i] in beliefs reads this => (order[i], beliefs[order[i]]))
    }

    constructor()
      ensures Valid() && beliefs == map[] && counts == map[] && order == []
    {
      beliefs := map[];
      counts := map[];
      order := [];
    }

    /** Every entry removed, as the restart button does. */
    method Reset()
      modifies this
      ensures Valid() && beliefs == map[] && counts == map[] && order == []
    {
      beliefs := map[];
      counts := map[];
      order := [];
    }

    /** `st.session_state.beliefs = {}`. */
    method ClearBeliefs()
      modifies this
      ensures Valid() && beliefs == map[] && order == [] && counts == old(counts)
    {
      beliefs := map[];
      order := [];
    }

    /** The seeding loop of `generate_tags`: each subtopic gets belief 0.5 and
        count 1, new ones going last in the dictionary order. */
    method SeedTags(subtopics: seq<string>)
      requires Valid()
      modifies this
      ensures Valid()
      ensures beliefs == Seeded(old(beliefs), subtopics, InitialBelief)
      ensures counts == Seeded(old(counts), subtopics, InitialCount)
      ensures order == AppendNew(old(order), subtopics)
    {
      for i := 0 to |subtopics|
        invariant Valid()
        invariant Seeded(old(beliefs), subtopics, InitialBelief) == Seeded(beliefs, subtopics[i..], InitialBelief)
        invariant Seeded(old(counts), subtopics, InitialCount) == Seeded(counts, subtopics[i..], InitialCount)
        invariant AppendNew(old(order), subtopics) == AppendNew(order, subtopics[i..])
      {
        var tag := subtopics[i];
        assert subtopics[i..][0] == tag && subtopics[i..][1..] == subtopics[i + 1..];
        if tag !in beliefs {
          DistinctAppend(order, tag);
          order := order + [tag];
        }
        beliefs := beliefs[tag := InitialBelief];
        counts := counts[tag := InitialCount];
      }
      assert subtopics[|subtopics|..] == [];
    }

    /** `update_beliefs(tags, score)`: the running-mean update of each listed
        tag, raising `KeyError` at the first tag without a count or belief
        (the updates made before it remain). */
    method UpdateBeliefs(tags: seq<string>, score: real) returns (r: Result<map<string, real>>)
      requires Valid()
      modifies this
      ensures Valid() && order == old(order)
      ensures Current() == ObserveAll(old(Current()), tags, score).tally
      ensures var f := ObserveAll(old(Current()), tags, score).failure;
        r == if f.Some? then Err(KeyError(f.value)) else Ok(beliefs)
    {
      var i := 0;
      while i < |tags|
        invariant 0 <= i <= |tags|
        invariant Valid() && order == old(order)
        invariant ObserveAll(old(Current()), tags, score) == ObserveAll(Current(), tags[i..], score)
      {
        var tag := tags[i];
        ObserveAllHead(Current(), tags[i..], score);
        assert tags[i..][0] == tag && tags[i..][1..] == tags[i + 1..];
        if tag !in counts {
          return Err(KeyError(tag));
        }
        if tag !in beliefs {
          return Err(KeyError(tag));
        }
        ObserveTag(tag, score);
        i := i + 1;
      }
      return Ok(beliefs);
    }

    /** The body of the loop of `update_beliefs` for a tag with a count and
        a belief. */
    method ObserveTag(tag: string, score: real)
      requires Valid() && Known(Current(), tag)
      modifies this
      ensures Valid() && order == old(order)
      ensures Current() == Observe(old(Current()), tag, score)
    {
      var n := counts[tag];
      var currentBelief := beliefs[tag];
      var newBelief := RunningMean(currentBelief, n, score);
      beliefs := beliefs[tag := newBelief];
      counts := counts[tag := n + 1];
    }

    /** The counter loop of `submit`: `question_counts[tag] += 1` for every
        listed tag, raising `KeyError` at the first tag without a count. */
    method BumpCounts(tags: seq<string>) returns (failure: Option<string>)
      requires Valid()
      modifies this
      ensures Valid() && order == old(order)
      ensures Current() == BumpAll(old(Current()), tags).tally
      ensures failure == BumpAll(old(Current()), tags).failure
    {
      var i := 0;
      while i < |tags|
        invariant 0 <= i <= |tags|
        invariant Valid() && order == old(order)
        invariant BumpAll(old(Current()), tags) == BumpAll(Current(), tags[i..])
      {
        var tag := tags[i];
        assert tags[i..][0] == tag && tags[i..][1..] == tags[i + 1..];
        if tag !in counts {
          return Some(tag);
        }
        BumpTag(tag);
        i := i + 1;
      }
      return None;
    }

    /** `question_counts[tag] += 1` for a tag that has a count. */
    method BumpTag(tag: string)
      requires Valid() && tag in counts
      modifies this
      ensures Valid() && order == old(order)
      ensures Current() == Bump(old(Current()), tag)
    {
      counts := counts[tag := counts[tag] + 1];
    }

    /** `generate_tags(topic)`: the subtopics of the language model's reply
        seed the store, which is then returned with them; `None` stands for a
        reply that could not be obtained or parsed (the error dictionary), and
        then nothing changes. A reply without `subtopics` is the empty list. */
    method GenerateTags(reply: Option<seq<string>>) returns (tags: Option<seq<string>>)
      requires Valid()
      modifies this
      ensures Valid()
      ensures tags == reply
      ensures reply.None? ==> beliefs == old(beliefs) && counts == old(counts) && order == old(order)
      ensures reply.Some? ==>
        && beliefs == Seeded(old(beliefs), reply.value, InitialBelief)
        && counts == Seeded(old(counts), reply.value, InitialCount)
        && order == AppendNew(old(order), reply.value)
    {
      match reply {
        case None =>
          tags := None;
        case Some(subtopics) =>
          SeedTags(subtopics);
          tags := Some(subtopics);
      }
    }
  }

  /** `summarize_results` on a store: each tag is listed in the one band its
      belief falls in. */
  lemma SummaryPlacesEveryTag(store: BeliefStore, x: string)
    requires store.Valid() && x in store.beliefs
    ensures var items := store.Items(); var b := store.beliefs[x];
      (x in Select(items, Strong) <==> Strong(b))
      && (x in Select(items, Moderate) <==> Moderate(b))
      && (x in Select(items, Weak) <==> Weak(b))
  {
    var i :| 0 <= i < |store.order| && store.order[i] == x;
    PlacedInBand(store, x, i, Strong);
    PlacedInBand(store, x, i, Moderate);
    PlacedInBand(store, x, i, Weak);
  }

  /** A tag is listed under a band exactly when its belief lies in it. */
  lemma PlacedInBand(store: BeliefStore, x: string, i: nat, band: real -> bool)
    requires store.Valid() && i < |store.order| && store.order[i] == x && x in store.beliefs
    ensures x in Select(store.Items(), band) <==> band(store.beliefs[x])
  {
    var items := store.Items();
    assert items[i] == (x, store.beliefs[x]);
    if band(store.beliefs[x]) {
      SelectComplete(items, band, i);
    }
    if x in Select(items, band) {
      var j :| 0 <= j < |items| && items[j].0 == x && band(items[j].1);
      assert store.order[j] == x;
    }
  }
}
