/**
 * The two sides of the `/predict` call put together: the backend's predictions
 * as the browser receives them, and what the client's overlay and cards then
 * make of them.
 */
module Pipeline {
  import opened Common
  import Wire
  import Api
  import Backend
  import BoxOverlay
  import DiseaseCards

  /** The JSON object the client receives for one backend prediction. */
  function ToWire(p: Backend.Prediction): Wire.Pred {
    Wire.Pred(
      Wire.Num(p.classId as real),
      p.name,
      Wire.Num(p.confidence),
      Wire.Box(p.box.x1 as real, p.box.y1 as real, p.box.x2 as real, p.box.y2 as real),
      p.isDisease,
      p.advice)
  }

  function ToWireAll(preds: seq<Backend.Prediction>): seq<Wire.Pred> {
    seq(|preds|, i requires 0 <= i < |preds| => ToWire(preds[i]))
  }

  /**
   * A served prediction is never drawn with `undefined`: its class id is an
   * integer. It gets a colour unless its label names an inherited member.
   */
  lemma {:induction false} ServedPredictionHasColor(p: Backend.Prediction)
    ensures !BoxOverlay.PickColor(ToWire(p)).NoPaint?
    ensures p.name !in BoxOverlay.ObjectProtoKeys ==> BoxOverlay.PickColor(ToWire(p)).Hex?
  {
    BoxOverlay.NoColorIffFractionalId(ToWire(p));
  }

  /** A file the client sends passes the server's type and size checks, and a file the client refuses would fail them. */
  lemma {:induction false} UploadChecksAgree(f: Api.File, img: Backend.ImageInfo)
    ensures Api.CheckFile(Some(f)).Ok? <==>
      Backend.CheckUpload(Backend.Upload(Some(f.mime), f.size, Some(img))).Ok?
  {
  }

  /** Every prediction follows the server's disease and advice rule. */
  ghost predicate FollowsRule(cfg: Backend.Config, preds: seq<Backend.Prediction>) {
    forall i :: 0 <= i < |preds| ==>
      && (preds[i].isDisease <==> Backend.IsDisease(cfg.healthy, preds[i].name))
      && (preds[i].isDisease ==> preds[i].advice == Backend.AdviceOf(cfg.advice, preds[i].name))
  }

  /** The predictions of a successful `predict` follow the rule. */
  lemma {:induction false} PredictionsFollowRule(cfg: Backend.Config, dets: seq<Backend.Detection>, preds: seq<Backend.Prediction>)
    requires |preds| == |dets|
    requires forall i :: 0 <= i < |dets| ==> preds[i] == Backend.ToPrediction(cfg, dets[i])
    ensures FollowsRule(cfg, preds)
  {
    forall i | 0 <= i < |preds|
      ensures preds[i].isDisease <==> Backend.IsDisease(cfg.healthy, preds[i].name)
      ensures preds[i].isDisease ==> preds[i].advice == Backend.AdviceOf(cfg.advice, preds[i].name)
    {
      var p := Backend.ToPrediction(cfg, dets[i]);
      assert preds[i] == p;
    }
  }

  /** Under the rule, a card's label is a disease label and its advice is the table's entry for it. */
  lemma {:induction false} CardOfServed(cfg: Backend.Config, preds: seq<Backend.Prediction>, c: DiseaseCards.Card)
    requires FollowsRule(cfg, preds)
    requires DiseaseCards.CardFor(ToWireAll(preds), c)
    ensures Backend.IsDisease(cfg.healthy, c.name)
    ensures c.advice == Backend.AdviceOf(cfg.advice, c.name)
  {
    var k := DiseaseCards.FirstDisease(ToWireAll(preds), c.name);
    assert ToWireAll(preds)[k] == ToWire(preds[k]);
  }

  /**
   * Under the rule, and with non-negative confidences, a card's `maxConf` is the
   * server's `max_conf` for the same label.
   */
  lemma {:induction false} CardMatchesSummary(cfg: Backend.Config, preds: seq<Backend.Prediction>, c: DiseaseCards.Card)
    requires FollowsRule(cfg, preds)
    requires forall i :: 0 <= i < |preds| ==> preds[i].confidence >= 0.0
    requires DiseaseCards.CardFor(ToWireAll(preds), c)
    ensures c.maxConf == Backend.MaxConfOf(preds, c.name)
  {
    var ws := ToWireAll(preds);
    CardOfServed(cfg, preds, c);
    var m := Backend.MaxConfOf(preds, c.name);
    Backend.MaxConfBounds(preds, c.name);
    Backend.MaxConfAttained(preds, c.name);
    var k :| 0 <= k < |ws| && DiseaseCards.Counts(ws[k], c.name) && DiseaseCards.Confidence(ws[k]) == c.maxConf;
    assert ws[k] == ToWire(preds[k]);
    assert c.maxConf == preds[k].confidence <= m;
    if m != 0.0 {
      var j :| 0 <= j < |preds| && preds[j].name == c.name && preds[j].confidence == m;
      assert ws[j] == ToWire(preds[j]);
      assert DiseaseCards.Counts(ws[j], c.name);
    }
  }

  /**
   * What the client shows for a successful reply: every card names a disease
   * label under the server's rule, carries the table's advice for it, and
   * agrees with the server's `max_conf` when confidences are non-negative.
   */
  lemma {:induction false} ServedCards(cfg: Backend.Config, dets: seq<Backend.Detection>, preds: seq<Backend.Prediction>)
    requires |preds| == |dets|
    requires forall i :: 0 <= i < |dets| ==> preds[i] == Backend.ToPrediction(cfg, dets[i])
    ensures var cards := DiseaseCards.SortByMaxConf(DiseaseCards.Grouped(ToWireAll(preds)));
      forall c :: c in cards ==>
        && Backend.IsDisease(cfg.healthy, c.name)
        && c.advice == Backend.AdviceOf(cfg.advice, c.name)
        && ((forall d :: d in dets ==> d.conf >= 0.0) ==> c.maxConf == Backend.MaxConfOf(preds, c.name))
  {
    var ws := ToWireAll(preds);
    var cards := DiseaseCards.SortByMaxConf(DiseaseCards.Grouped(ws));
    PredictionsFollowRule(cfg, dets, preds);
    DiseaseCards.SortedCardsFacts(ws);
    forall c | c in cards
      ensures Backend.IsDisease(cfg.healthy, c.name)
      ensures c.advice == Backend.AdviceOf(cfg.advice, c.name)
      ensures (forall d :: d in dets ==> d.conf >= 0.0) ==> c.maxConf == Backend.MaxConfOf(preds, c.name)
    {
      var i :| 0 <= i < |cards| && cards[i] == c;
      CardOfServed(cfg, preds, c);
      if forall d :: d in dets ==> d.conf >= 0.0 {
        forall j | 0 <= j < |preds| ensures preds[j].confidence >= 0.0 {
          assert dets[j] in dets;
        }
        CardMatchesSummary(cfg, preds, c);
      }
    }
  }
}
