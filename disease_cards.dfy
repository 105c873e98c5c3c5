/**
 * The advisory cards derived from the prediction list (frontend/src/App.jsx,
 * `diseaseCards`): disease predictions grouped by label, each group keeping its
 * strongest confidence and the advice of its first prediction, strongest first.
 *
 * `Grouped` is the reference: the `byLabel` Map after the loop, in insertion
 * order. `SortByMaxConf` stands for the library's stable sort with the
 * comparator `b.maxConf - a.maxConf`. `DiseaseCards` is the loop itself.
 */
module DiseaseCards {
  import opened Common
  import opened Wire

  /** One card: a disease label (`label`, here `name`), its `maxConf`, and its `advice`. */
  datatype Card = Card(name: string, maxConf: real, advice: Option<Advice>)

  /** `Number(p.confidence) || 0`: a NaN conversion and a zero both give 0. */
  function Confidence(p: Pred): (c: real)
    ensures c == (if p.confidence.Num? then p.confidence.v else 0.0)
  {
    match ToNumber(p.confidence)
    case NaN => 0.0
    case Finite(v) => v
  }

  /** `p` is a disease prediction carrying `name`. */
  predicate Counts(p: Pred, name: string) {
    p.isDisease && p.name == name
  }

  /** Index of the first disease prediction carrying `name`, or `|preds|` when there is none. */
  function FirstDisease(preds: seq<Pred>, name: string): (k: nat)
    ensures k <= |preds|
    ensures k < |preds| ==> Counts(preds[k], name)
  {
    if preds == [] then 0
    else
      var f := FirstDisease(preds[..|preds| - 1], name);
      if f < |preds| - 1 then f
      else if Counts(preds[|preds| - 1], name) then |preds| - 1
      else |preds|
  }

  /** Position of the first card for `name`, or -1 when there is none. */
  function CardIndex(cards: seq<Card>, name: string): (k: int)
    ensures -1 <= k < |cards|
    ensures k >= 0 ==> cards[k].name == name
    ensures forall i :: 0 <= i < |cards| && (k < 0 || i < k) ==> cards[i].name != name
  {
    if cards == [] then -1
    else if cards[0].name == name then 0
    else
      var k := CardIndex(cards[1..], name);
      if k < 0 then -1 else k + 1
  }

  /** One pass of the loop body: skip, start a card, or raise a card's `maxConf`. */
  function AddPrediction(cards: seq<Card>, p: Pred): seq<Card> {
    if !p.isDisease then cards
    else
      var k := CardIndex(cards, p.name);
      if k < 0 then cards + [Card(p.name, Confidence(p), p.advice)]
      else cards[k := cards[k].(maxConf := Max(cards[k].maxConf, Confidence(p)))]
  }

  /** The values of `byLabel` after the loop, in insertion order. */
  function Grouped(preds: seq<Pred>): seq<Card> {
    if preds == [] then [] else AddPrediction(Grouped(preds[..|preds| - 1]), preds[|preds| - 1])
  }

  /** `preds[..k]` holds no disease prediction for `name` before its first one. */
  lemma {:induction false} FirstDiseaseIsFirst(preds: seq<Pred>, name: string, j: nat)
    requires j < FirstDisease(preds, name)
    ensures !Counts(preds[j], name)
  {
    var init := preds[..|preds| - 1];
    if j < |init| {
      FirstDiseaseIsFirst(init, name, j);
      assert init[j] == preds[j];
    }
  }

  lemma FirstDiseaseSnoc(preds: seq<Pred>, p: Pred, name: string)
    ensures FirstDisease(preds + [p], name) ==
      if FirstDisease(preds, name) < |preds| then FirstDisease(preds, name)
      else if Counts(p, name) then |preds| else |preds| + 1
  {
    assert (preds + [p])[..|preds|] == preds;
  }

  /** A label that already occurred keeps its first position when a prediction is appended. */
  lemma FirstDiseaseKept(preds: seq<Pred>, p: Pred, name: string)
    requires FirstDisease(preds, name) < |preds|
    ensures FirstDisease(preds + [p], name) == FirstDisease(preds, name)
  {
    FirstDiseaseSnoc(preds, p, name);
  }

  /**
   * `c` summarizes the disease predictions of `preds` labelled `c.name`: there
   * is at least one, `c.maxConf` is the largest of their confidences, and
   * `c.advice` is the advice of the first of them.
   */
  ghost predicate CardFor(preds: seq<Pred>, c: Card) {
    && FirstDisease(preds, c.name) < |preds|
    && (forall k :: 0 <= k < |preds| && Counts(preds[k], c.name) ==> Confidence(preds[k]) <= c.maxConf)
    && (exists k :: 0 <= k < |preds| && Counts(preds[k], c.name) && Confidence(preds[k]) == c.maxConf)
    && c.advice == preds[FirstDisease(preds, c.name)].advice
  }

  /** The cards follow the order in which their labels first appear among the disease predictions. */
  ghost predicate InAppearanceOrder(preds: seq<Pred>, g: seq<Card>) {
    Increasing(Firsts(preds, g))
  }

  /** The position of the first disease prediction of each card's label. */
  ghost function Firsts(preds: seq<Pred>, g: seq<Card>): seq<int> {
    seq(|g|, i requires 0 <= i < |g| => FirstDisease(preds, g[i].name))
  }

  /** Each element is smaller than the next. */
  predicate Increasing(xs: seq<int>) {
    |xs| < 2 || (xs[0] < xs[1] && Increasing(xs[1..]))
  }

  /** In an increasing sequence every earlier element is smaller than every later one. */
  lemma {:induction false} IncreasingAt(xs: seq<int>, i: nat, j: nat)
    requires Increasing(xs) && i < j < |xs|
    ensures xs[i] < xs[j]
  {
    if i > 0 {
      IncreasingAt(xs[1..], i - 1, j - 1);
    } else if j > 1 {
      IncreasingAt(xs[1..], 0, j - 1);
    }
  }

  lemma {:induction false} IncreasingSnoc(xs: seq<int>, n: int)
    requires Increasing(xs) && (xs == [] || xs[|xs| - 1] < n)
    ensures Increasing(xs + [n])
  {
    if xs != [] {
      assert (xs + [n])[1..] == xs[1..] + [n];
      IncreasingSnoc(xs[1..], n);
    }
  }

  /** Every disease prediction's label has a card. */
  ghost predicate Covers(preds: seq<Pred>, g: seq<Card>) {
    forall k :: 0 <= k < |preds| && preds[k].isDisease ==> CardIndex(g, preds[k].name) >= 0
  }

  /**
   * `g` is exactly the grouping of the disease predictions of `preds`: one card
   * per label, in order of first appearance, with the largest confidence of the
   * label and the advice of its first prediction.
   */
  ghost predicate AllCardsFor(preds: seq<Pred>, g: seq<Card>) {
    forall i :: 0 <= i < |g| ==> CardFor(preds, g[i])
  }

  ghost predicate Summarizes(preds: seq<Pred>, g: seq<Card>) {
    InAppearanceOrder(preds, g) && Covers(preds, g) && AllCardsFor(preds, g)
  }

  /** A later prediction for another label leaves a card's summary intact. */
  lemma CardForSnoc(preds: seq<Pred>, c: Card, p: Pred)
    requires CardFor(preds, c) && !Counts(p, c.name)
    ensures CardFor(preds + [p], c)
  {
    var s := preds + [p];
    var n := |preds|;
    FirstDiseaseSnoc(preds, p, c.name);
    forall k | 0 <= k < |s| && Counts(s[k], c.name) ensures Confidence(s[k]) <= c.maxConf {
      assert k < n && s[k] == preds[k];
    }
    var w :| 0 <= w < n && Counts(preds[w], c.name) && Confidence(preds[w]) == c.maxConf;
    assert s[w] == preds[w];
    assert s[FirstDisease(s, c.name)] == preds[FirstDisease(preds, c.name)];
  }

  /** A later prediction for the card's label raises `maxConf` to the larger of the two. */
  lemma CardForRaise(preds: seq<Pred>, c: Card, p: Pred)
    requires CardFor(preds, c) && Counts(p, c.name)
    ensures CardFor(preds + [p], c.(maxConf := Max(c.maxConf, Confidence(p))))
  {
    var s := preds + [p];
    var n := |preds|;
    var m := Max(c.maxConf, Confidence(p));
    FirstDiseaseSnoc(preds, p, c.name);
    forall k | 0 <= k < |s| && Counts(s[k], c.name) ensures Confidence(s[k]) <= m {
      if k < n { assert s[k] == preds[k]; }
    }
    if Confidence(p) > c.maxConf {
      assert s[n] == p;
    } else {
      var w :| 0 <= w < n && Counts(preds[w], c.name) && Confidence(preds[w]) == c.maxConf;
      assert s[w] == preds[w];
    }
    assert s[FirstDisease(s, c.name)] == preds[FirstDisease(preds, c.name)];
  }

  /** The first disease prediction of a label starts its card. */
  lemma CardForNew(preds: seq<Pred>, p: Pred)
    requires p.isDisease && FirstDisease(preds, p.name) == |preds|
    ensures CardFor(preds + [p], Card(p.name, Confidence(p), p.advice))
  {
    var s := preds + [p];
    var n := |preds|;
    FirstDiseaseSnoc(preds, p, p.name);
    forall k | 0 <= k < |s| && Counts(s[k], p.name) ensures Confidence(s[k]) <= Confidence(p) {
      if k < n {
        assert s[k] == preds[k];
        FirstDiseaseIsFirst(preds, p.name, k);
      }
    }
    assert s[n] == p;
  }

  /** Labels of cards already present keep their first position when a prediction is added. */
  lemma CarriedOrder(preds: seq<Pred>, g: seq<Card>, p: Pred)
    requires forall i :: 0 <= i < |g| ==> FirstDisease(preds, g[i].name) < |preds|
    ensures Firsts(preds + [p], g) == Firsts(preds, g)
  {
    forall i | 0 <= i < |g| ensures Firsts(preds + [p], g)[i] == Firsts(preds, g)[i] {
      FirstDiseaseKept(preds, p, g[i].name);
    }
  }

  lemma FirstsAppend(preds: seq<Pred>, g: seq<Card>, c: Card)
    ensures Firsts(preds, g + [c]) == Firsts(preds, g) + [FirstDisease(preds, c.name)]
  {
    var g' := g + [c];
    forall i | 0 <= i < |g'| ensures Firsts(preds, g')[i] == (Firsts(preds, g) + [FirstDisease(preds, c.name)])[i] {
      if i < |g| {
        assert g'[i] == g[i];
      }
    }
  }

  lemma SkipCovers(preds: seq<Pred>, g: seq<Card>, p: Pred)
    requires Covers(preds, g) && !p.isDisease
    ensures Covers(preds + [p], g)
  {
    var s := preds + [p];
    forall k | 0 <= k < |s| && s[k].isDisease ensures CardIndex(g, s[k].name) >= 0 {
      assert k < |preds| && s[k] == preds[k];
    }
  }

  lemma SkipCards(preds: seq<Pred>, g: seq<Card>, p: Pred)
    requires AllCardsFor(preds, g) && !p.isDisease
    ensures AllCardsFor(preds + [p], g)
  {
    forall i | 0 <= i < |g| ensures CardFor(preds + [p], g[i]) {
      CardForSnoc(preds, g[i], p);
    }
  }

  lemma SkipSummarizes(preds: seq<Pred>, g: seq<Card>, p: Pred)
    requires InAppearanceOrder(preds, g) && Covers(preds, g) && AllCardsFor(preds, g) && !p.isDisease
    ensures InAppearanceOrder(preds + [p], g) && Covers(preds + [p], g) && AllCardsFor(preds + [p], g)
  {
    CardsOccur(preds, g);
    CarriedOrder(preds, g, p);
    SkipCovers(preds, g, p);
    SkipCards(preds, g, p);
  }

  /** A label without a card has no disease prediction yet. */
  lemma UncardedIsNew(preds: seq<Pred>, g: seq<Card>, name: string)
    requires Covers(preds, g)
    requires forall i :: 0 <= i < |g| ==> g[i].name != name
    ensures FirstDisease(preds, name) == |preds|
  {
  }

  /** Appending the first prediction of a new label appends its position. */
  lemma FirstsStart(preds: seq<Pred>, g: seq<Card>, p: Pred)
    requires forall i :: 0 <= i < |g| ==> FirstDisease(preds, g[i].name) < |preds|
    requires FirstDisease(preds, p.name) == |preds| && p.isDisease
    ensures Firsts(preds + [p], g + [Card(p.name, Confidence(p), p.advice)]) == Firsts(preds, g) + [|preds|]
  {
    FirstsAppend(preds + [p], g, Card(p.name, Confidence(p), p.advice));
    CarriedOrder(preds, g, p);
    FirstDiseaseSnoc(preds, p, p.name);
  }

  lemma StartOrder(preds: seq<Pred>, g: seq<Card>, p: Pred)
    requires InAppearanceOrder(preds, g)
    requires forall i :: 0 <= i < |g| ==> FirstDisease(preds, g[i].name) < |preds|
    requires FirstDisease(preds, p.name) == |preds| && p.isDisease
    ensures InAppearanceOrder(preds + [p], g + [Card(p.name, Confidence(p), p.advice)])
  {
    FirstsStart(preds, g, p);
    IncreasingSnoc(Firsts(preds, g), |preds|);
  }

  lemma StartCovers(preds: seq<Pred>, g: seq<Card>, p: Pred)
    requires Covers(preds, g)
    ensures Covers(preds + [p], g + [Card(p.name, Confidence(p), p.advice)])
  {
    var s := preds + [p];
    var n := |preds|;
    var g' := g + [Card(p.name, Confidence(p), p.advice)];
    forall k | 0 <= k < |s| && s[k].isDisease ensures CardIndex(g', s[k].name) >= 0 {
      if k == n {
        assert g'[|g|].name == s[k].name;
      } else {
        assert s[k] == preds[k];
        var j := CardIndex(g, preds[k].name);
        assert g'[j] == g[j];
      }
    }
  }

  lemma StartSummarizes(preds: seq<Pred>, g: seq<Card>, p: Pred)
    requires Summarizes(preds, g) && p.isDisease
    requires forall i :: 0 <= i < |g| ==> g[i].name != p.name
    ensures Summarizes(preds + [p], g + [Card(p.name, Confidence(p), p.advice)])
  {
    var s := preds + [p];
    var g' := g + [Card(p.name, Confidence(p), p.advice)];
    UncardedIsNew(preds, g, p.name);
    StartOrder(preds, g, p);
    StartCovers(preds, g, p);
    forall i | 0 <= i < |g'| ensures CardFor(s, g'[i]) {
      if i < |g| {
        assert g'[i] == g[i];
        CardForSnoc(preds, g[i], p);
      } else {
        CardForNew(preds, p);
      }
    }
  }

  /** Cards in appearance order carry distinct labels. */
  lemma OrderedDistinct(preds: seq<Pred>, g: seq<Card>, i: nat, j: nat)
    requires InAppearanceOrder(preds, g)
    requires i < |g| && j < |g| && i != j
    ensures g[i].name != g[j].name
  {
    var f := Firsts(preds, g);
    if i < j {
      IncreasingAt(f, i, j);
    } else {
      IncreasingAt(f, j, i);
    }
  }

  /** Every summarized label has occurred. */
  lemma CardsOccur(preds: seq<Pred>, g: seq<Card>)
    requires AllCardsFor(preds, g)
    ensures forall i :: 0 <= i < |g| ==> FirstDisease(preds, g[i].name) < |preds|
  {
    forall i | 0 <= i < |g| ensures FirstDisease(preds, g[i].name) < |preds| {
      assert CardFor(preds, g[i]);
    }
  }

  /** Raising a card's confidence leaves every position as it was. */
  lemma FirstsRaise(preds: seq<Pred>, g: seq<Card>, p: Pred, c: nat, g': seq<Card>)
    requires forall i :: 0 <= i < |g| ==> FirstDisease(preds, g[i].name) < |preds|
    requires c < |g| && g' == g[c := g[c].(maxConf := Max(g[c].maxConf, Confidence(p)))]
    ensures Firsts(preds + [p], g') == Firsts(preds, g)
  {
    var f := Firsts(preds, g);
    var f' := Firsts(preds + [p], g');
    forall i | 0 <= i < |g'| ensures f'[i] == f[i] {
      assert g'[i].name == g[i].name;
      FirstDiseaseKept(preds, p, g[i].name);
    }
  }

  lemma RaiseOrder(preds: seq<Pred>, g: seq<Card>, p: Pred, c: nat, g': seq<Card>)
    requires InAppearanceOrder(preds, g)
    requires forall i :: 0 <= i < |g| ==> FirstDisease(preds, g[i].name) < |preds|
    requires c < |g| && g' == g[c := g[c].(maxConf := Max(g[c].maxConf, Confidence(p)))]
    ensures InAppearanceOrder(preds + [p], g')
  {
    FirstsRaise(preds, g, p, c, g');
  }

  lemma RaiseCovers(preds: seq<Pred>, g: seq<Card>, p: Pred, c: nat, g': seq<Card>)
    requires Covers(preds, g)
    requires c < |g| && g[c].name == p.name
    requires g' == g[c := g[c].(maxConf := Max(g[c].maxConf, Confidence(p)))]
    ensures Covers(preds + [p], g')
  {
    var s := preds + [p];
    var n := |preds|;
    forall k | 0 <= k < |s| && s[k].isDisease ensures CardIndex(g', s[k].name) >= 0 {
      if k == n {
        assert g'[c].name == s[k].name;
      } else {
        assert s[k] == preds[k];
        var j := CardIndex(g, preds[k].name);
        assert g'[j].name == g[j].name;
      }
    }
  }

  lemma RaiseCards(preds: seq<Pred>, g: seq<Card>, p: Pred, c: nat)
    requires InAppearanceOrder(preds, g) && AllCardsFor(preds, g)
    requires p.isDisease && c < |g| && g[c].name == p.name
    ensures AllCardsFor(preds + [p], g[c := g[c].(maxConf := Max(g[c].maxConf, Confidence(p)))])
  {
    var g' := g[c := g[c].(maxConf := Max(g[c].maxConf, Confidence(p)))];
    forall i | 0 <= i < |g'| ensures CardFor(preds + [p], g'[i]) {
      if i == c {
        CardForRaise(preds, g[c], p);
      } else {
        assert g'[i] == g[i];
        OrderedDistinct(preds, g, i, c);
        CardForSnoc(preds, g[i], p);
      }
    }
  }

  lemma RaiseSummarizes(preds: seq<Pred>, g: seq<Card>, p: Pred, c: nat)
    requires InAppearanceOrder(preds, g) && Covers(preds, g) && AllCardsFor(preds, g) && p.isDisease
    requires c < |g| && g[c].name == p.name
    ensures var g' := g[c := g[c].(maxConf := Max(g[c].maxConf, Confidence(p)))];
      InAppearanceOrder(preds + [p], g') && Covers(preds + [p], g') && AllCardsFor(preds + [p], g')
  {
    var g' := g[c := g[c].(maxConf := Max(g[c].maxConf, Confidence(p)))];
    CardsOccur(preds, g);
    RaiseOrder(preds, g, p, c, g');
    RaiseCovers(preds, g, p, c, g');
    RaiseCards(preds, g, p, c);
  }

  /** Adding one prediction keeps `Summarizes`. */
  lemma AddPredictionSummarizes(preds: seq<Pred>, g: seq<Card>, p: Pred)
    requires Summarizes(preds, g)
    ensures Summarizes(preds + [p], AddPrediction(g, p))
  {
    if !p.isDisease {
      SkipSummarizes(preds, g, p);
    } else {
      var c := CardIndex(g, p.name);
      if c < 0 {
        StartSummarizes(preds, g, p);
      } else {
        RaiseSummarizes(preds, g, p, c);
      }
    }
  }

  /** The reference grouping meets `Summarizes`. */
  lemma {:induction false} GroupedSummarizes(preds: seq<Pred>)
    ensures Summarizes(preds, Grouped(preds))
  {
    if preds != [] {
      var init := preds[..|preds| - 1];
      GroupedSummarizes(init);
      AddPredictionSummarizes(init, Grouped(init), preds[|preds| - 1]);
      assert init + [preds[|preds| - 1]] == preds;
    }
  }

  /** A prediction list with no disease entry yields no card. */
  lemma {:induction false} NoDiseaseNoCards(preds: seq<Pred>)
    requires forall k :: 0 <= k < |preds| ==> !preds[k].isDisease
    ensures Grouped(preds) == []
  {
    if preds != [] {
      NoDiseaseNoCards(preds[..|preds| - 1]);
    }
  }

  /** A non-disease prediction neither creates nor changes a card, wherever it stands. */
  lemma {:induction false} NonDiseaseIgnored(before: seq<Pred>, p: Pred, after: seq<Pred>)
    requires !p.isDisease
    ensures Grouped(before + [p] + after) == Grouped(before + after)
    decreases |after|
  {
    if after == [] {
      assert (before + [p] + after)[..|before|] == before;
      assert before + after == before;
    } else {
      var last := after[|after| - 1];
      var init := after[..|after| - 1];
      NonDiseaseIgnored(before, p, init);
      assert (before + [p] + after)[..|before + [p] + after| - 1] == before + [p] + init;
      assert (before + after)[..|before + after| - 1] == before + init;
    }
  }

  // ----- the sort -----

  /** Inserts `c` before the first card whose `maxConf` is not larger. */
  function InsertCard(c: Card, sorted: seq<Card>): (r: seq<Card>)
    ensures multiset(r) == multiset(sorted) + multiset{c}
  {
    if sorted == [] || sorted[0].maxConf <= c.maxConf then [c] + sorted
    else
      assert sorted == [sorted[0]] + sorted[1..];
      [sorted[0]] + InsertCard(c, sorted[1..])
  }

  /** `.sort((a, b) => b.maxConf - a.maxConf)`: stable, strongest first. */
  function SortByMaxConf(cards: seq<Card>): (r: seq<Card>)
    ensures multiset(r) == multiset(cards)
  {
    if cards == [] then []
    else
      assert cards == [cards[0]] + cards[1..];
      InsertCard(cards[0], SortByMaxConf(cards[1..]))
  }

  /** `a` goes before `b`: stronger, or equally strong and its label appeared first. */
  ghost predicate Precedes(preds: seq<Pred>, a: Card, b: Card) {
    || a.maxConf > b.maxConf
    || (a.maxConf == b.maxConf && FirstDisease(preds, a.name) < FirstDisease(preds, b.name))
  }

  /** Strongest first; among equal confidences, the label that appeared first comes first. */
  ghost predicate RankedOrder(preds: seq<Pred>, s: seq<Card>) {
    forall i, j :: 0 <= i < j < |s| ==> Precedes(preds, s[i], s[j])
  }

  lemma RankedTail(preds: seq<Pred>, s: seq<Card>)
    requires RankedOrder(preds, s) && s != []
    ensures RankedOrder(preds, s[1..])
  {
    var t := s[1..];
    forall i, j | 0 <= i < j < |t| ensures Precedes(preds, t[i], t[j]) {
      assert t[i] == s[i + 1] && t[j] == s[j + 1];
    }
  }

  lemma RankedCons(preds: seq<Pred>, x: Card, s: seq<Card>)
    requires RankedOrder(preds, s)
    requires forall j :: 0 <= j < |s| ==> Precedes(preds, x, s[j])
    ensures RankedOrder(preds, [x] + s)
  {
    var r := [x] + s;
    forall i, j | 0 <= i < j < |r| ensures Precedes(preds, r[i], r[j]) {
      assert r[j] == s[j - 1];
      if i > 0 {
        assert r[i] == s[i - 1];
      }
    }
  }

  lemma {:induction false} InsertCardRanked(preds: seq<Pred>, c: Card, s: seq<Card>)
    requires RankedOrder(preds, s)
    requires forall x :: x in s ==> FirstDisease(preds, c.name) < FirstDisease(preds, x.name)
    ensures RankedOrder(preds, InsertCard(c, s))
  {
    if s == [] || s[0].maxConf <= c.maxConf {
      forall j | 0 <= j < |s| ensures Precedes(preds, c, s[j]) {
        assert s[j] in s;
        if j > 0 {
          assert Precedes(preds, s[0], s[j]);
        }
      }
      RankedCons(preds, c, s);
    } else {
      var tail := s[1..];
      RankedTail(preds, s);
      forall x | x in tail ensures FirstDisease(preds, c.name) < FirstDisease(preds, x.name) {
        assert x in s;
      }
      InsertCardRanked(preds, c, tail);
      var rest := InsertCard(c, tail);
      forall j | 0 <= j < |rest| ensures Precedes(preds, s[0], rest[j]) {
        var x := rest[j];
        assert x in multiset(rest);
        if x != c {
          assert x in multiset(tail);
          var k :| 0 <= k < |tail| && tail[k] == x;
          assert Precedes(preds, s[0], s[k + 1]);
        }
      }
      RankedCons(preds, s[0], rest);
    }
  }

  /** Sorting a list ordered by first appearance gives confidence order, ties by first appearance. */
  lemma {:induction false} SortRanked(preds: seq<Pred>, g: seq<Card>)
    requires InAppearanceOrder(preds, g)
    ensures RankedOrder(preds, SortByMaxConf(g))
  {
    if g != [] {
      var tail := g[1..];
      var f := Firsts(preds, g);
      assert Firsts(preds, tail) == f[1..];
      assert Increasing(f[1..]);
      SortRanked(preds, tail);
      var sorted := SortByMaxConf(tail);
      forall x | x in sorted ensures FirstDisease(preds, g[0].name) < FirstDisease(preds, x.name) {
        assert x in multiset(tail);
        var k :| 0 <= k < |tail| && tail[k] == x;
        assert g[k + 1] == x;
        IncreasingAt(f, 0, k + 1);
      }
      InsertCardRanked(preds, g[0], sorted);
    }
  }

  /** No two cards share a label. */
  predicate DistinctNames(cs: seq<Card>) {
    forall i, j :: 0 <= i < j < |cs| ==> cs[i].name != cs[j].name
  }

  /** A card is determined by its label: two summaries of the same label are equal. */
  lemma CardForUnique(preds: seq<Pred>, c1: Card, c2: Card)
    requires CardFor(preds, c1) && CardFor(preds, c2) && c1.name == c2.name
    ensures c1 == c2
  {
    var w1 :| 0 <= w1 < |preds| && Counts(preds[w1], c1.name) && Confidence(preds[w1]) == c1.maxConf;
    var w2 :| 0 <= w2 < |preds| && Counts(preds[w2], c2.name) && Confidence(preds[w2]) == c2.maxConf;
    assert Confidence(preds[w2]) <= c1.maxConf;
    assert Confidence(preds[w1]) <= c2.maxConf;
  }

  /** Reordering summaries keeps each card a summary. */
  lemma PermutedCards(preds: seq<Pred>, g: seq<Card>, cs: seq<Card>)
    requires AllCardsFor(preds, g) && multiset(cs) == multiset(g)
    ensures AllCardsFor(preds, cs)
  {
    forall i | 0 <= i < |cs| ensures CardFor(preds, cs[i]) {
      var c := cs[i];
      assert c in multiset(g);
      assert c in g;
      var m :| 0 <= m < |g| && g[m] == c;
      assert CardFor(preds, g[m]);
    }
  }

  /** Reordering cards keeps every disease label covered. */
  lemma PermutedCovers(preds: seq<Pred>, g: seq<Card>, cs: seq<Card>)
    requires Covers(preds, g) && multiset(cs) == multiset(g)
    ensures Covers(preds, cs)
  {
    forall k | 0 <= k < |preds| && preds[k].isDisease ensures CardIndex(cs, preds[k].name) >= 0 {
      var c := g[CardIndex(g, preds[k].name)];
      assert c in multiset(cs);
      assert c in cs;
      var i :| 0 <= i < |cs| && cs[i] == c;
    }
  }

  /** In ranked order, summaries carry distinct labels. */
  lemma RankedDistinct(preds: seq<Pred>, cs: seq<Card>)
    requires AllCardsFor(preds, cs) && RankedOrder(preds, cs)
    ensures DistinctNames(cs)
  {
    forall i, j | 0 <= i < j < |cs| ensures cs[i].name != cs[j].name {
      assert Precedes(preds, cs[i], cs[j]);
      if cs[i].name == cs[j].name {
        CardForUnique(preds, cs[i], cs[j]);
      }
    }
  }

  /**
   * What the card list promises: every card summarizes one disease label, every
   * disease label has exactly one card, strongest first, and equal confidences
   * in order of first appearance.
   */
  lemma SortedCardsFacts(preds: seq<Pred>)
    ensures var cs := SortByMaxConf(Grouped(preds));
      && multiset(cs) == multiset(Grouped(preds))
      && AllCardsFor(preds, cs) && Covers(preds, cs) && DistinctNames(cs)
      && RankedOrder(preds, cs)
  {
    var g := Grouped(preds);
    GroupedSummarizes(preds);
    SortRanked(preds, g);
    PermutedCards(preds, g, SortByMaxConf(g));
    PermutedCovers(preds, g, SortByMaxConf(g));
    RankedDistinct(preds, SortByMaxConf(g));
  }

  /**
   * The loop's `byLabel` Map and its insertion order `order` hold exactly the
   * cards `g`, in the same order.
   */
  ghost predicate Mirrors(byLabel: map<string, Card>, order: seq<string>, g: seq<Card>) {
    && |order| == |g|
    && (forall j :: 0 <= j < |g| ==> order[j] == g[j].name && order[j] in byLabel && byLabel[order[j]] == g[j])
    && (forall key :: key in byLabel ==> key in order)
    && (forall j1, j2 :: 0 <= j1 < j2 < |order| ==> order[j1] != order[j2])
  }

  /** A disease label not yet in the Map gets a new entry, appended to the insertion order. */
  lemma MirrorsNew(byLabel: map<string, Card>, order: seq<string>, g: seq<Card>, p: Pred)
    requires Mirrors(byLabel, order, g) && p.isDisease && p.name !in byLabel
    ensures AddPrediction(g, p) == g + [Card(p.name, Confidence(p), p.advice)]
    ensures Mirrors(byLabel[p.name := Card(p.name, Confidence(p), p.advice)], order + [p.name], AddPrediction(g, p))
  {
    assert CardIndex(g, p.name) < 0;
  }

  /** A disease label already in the Map has its entry's `maxConf` raised in place. */
  lemma MirrorsRaise(byLabel: map<string, Card>, order: seq<string>, g: seq<Card>, p: Pred)
    requires Mirrors(byLabel, order, g) && p.isDisease && p.name in byLabel
    ensures Mirrors(byLabel[p.name := byLabel[p.name].(maxConf := Max(byLabel[p.name].maxConf, Confidence(p)))],
      order, AddPrediction(g, p))
  {
    var at :| 0 <= at < |order| && order[at] == p.name;
    assert CardIndex(g, p.name) == at by {
      var k := CardIndex(g, p.name);
      assert g[at].name == p.name;
    }
  }

  /**
   * The `diseaseCards` computation: the loop fills the `byLabel` Map (its keys in
   * `order`, as a Map iterates in insertion order), then its values are sorted.
   */
  method DiseaseCards(preds: seq<Pred>) returns (cards: seq<Card>)
    ensures cards == SortByMaxConf(Grouped(preds))
    ensures AllCardsFor(preds, cards) && Covers(preds, cards) && DistinctNames(cards)
    ensures RankedOrder(preds, cards)
  {
    var byLabel: map<string, Card> := map[];
    var order: seq<string> := [];
    ghost var g: seq<Card> := [];
    for i := 0 to |preds|
      invariant g == Grouped(preds[..i])
      invariant Mirrors(byLabel, order, g)
    {
      var p := preds[i];
      assert preds[..i + 1] == preds[..i] + [p];
      if p.isDisease {
        var key := p.name;
        var conf := Confidence(p);
        if key !in byLabel {
          MirrorsNew(byLabel, order, g, p);
          byLabel := byLabel[key := Card(key, conf, p.advice)];
          order := order + [key];
        } else {
          var cur := byLabel[key];
          MirrorsRaise(byLabel, order, g, p);
          byLabel := byLabel[key := cur.(maxConf := Max(cur.maxConf, conf))];
        }
      }
      g := AddPrediction(g, p);
    }
    assert preds[..|preds|] == preds;
    var values := seq(|order|, j requires 0 <= j < |order| => byLabel[order[j]]);
    assert values == g;
    cards := SortByMaxConf(values);
    SortedCardsFacts(preds);
  }
}
