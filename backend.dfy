/**
 * The post-processing of the `/predict` endpoint (backend/app/main.py): the
 * upload checks, the clamping of detection boxes to non-negative integers, the
 * label and `is_disease`/`advice` rule for each detection, the per-label
 * summary and the choice of the top label.
 *
 * Image decoding and YOLO inference are foreign libraries: whether the body
 * decodes, and the detections the model returns, are inputs. The class-name
 * table, the set of healthy classes and the advice table are parameters.
 */
module Backend {
  import opened Common
  import Decimal

  /** The server's upload bound: 8 MiB. */
  const MaxBodyBytes: nat := 8 * 1024 * 1024

  /** An `HTTPException`: its status code and detail text. */
  datatype HttpError = HttpError(status: int, detail: string)

  /** `_img_info`: the decoded image's size. */
  datatype ImageInfo = ImageInfo(width: int, height: int)

  /**
   * An upload as the endpoint sees it: the declared content type (`None` when
   * absent), the body length in bytes, and the decoded image, `None` when the
   * image library cannot identify the bytes.
   */
  datatype Upload = Upload(contentType: Option<string>, size: nat, decoded: Option<ImageInfo>)

  /** `image.content_type` is present, non-empty and starts with "image/". */
  predicate ImageType(contentType: Option<string>) {
    contentType.Some? && contentType.value != "" && StartsWith(contentType.value, "image/")
  }

  /** The three refusals of `predict`, in source order: type, then size, then decoding. */
  function CheckUpload(u: Upload): (r: Result<ImageInfo, HttpError>)
    ensures !ImageType(u.contentType) ==> r == Err(HttpError(400, "Invalid file type"))
    ensures r == Err(HttpError(413, "File too large (> 8MB)")) <==>
      ImageType(u.contentType) && u.size > 8388608
    ensures ImageType(u.contentType) && u.size <= 8388608 && u.decoded.None? ==>
      r == Err(HttpError(400, "Unreadable image"))
    ensures r.Ok? <==> ImageType(u.contentType) && u.size <= 8388608 && u.decoded.Some?
    ensures r.Ok? ==> r.value == u.decoded.value
  {
    if !ImageType(u.contentType) then Err(HttpError(400, "Invalid file type"))
    else if u.size > MaxBodyBytes then Err(HttpError(413, "File too large (> 8MB)"))
    else if u.decoded.None? then Err(HttpError(400, "Unreadable image"))
    else Ok(u.decoded.value)
  }

  /** The size bound is inclusive, and a wrong type is reported whatever the size. */
  lemma UploadBoundary(ct: string, img: ImageInfo, size: nat)
    requires StartsWith(ct, "image/")
    ensures CheckUpload(Upload(Some(ct), 8 * 1024 * 1024, Some(img))) == Ok(img)
    ensures CheckUpload(Upload(Some(ct), 8 * 1024 * 1024 + 1, Some(img))).error.status == 413
    ensures CheckUpload(Upload(None, size, Some(img))).error.status == 400
  {
  }

  // ---------------------------------------------------------------------------
  // Boxes

  /** A detection's corners as the model reports them (`xyxy`), in pixels. */
  datatype Corners = Corners(x1: real, y1: real, x2: real, y2: real)

  /** The response's `Box`: integer corners. */
  datatype IntBox = IntBox(x1: int, y1: int, x2: int, y2: int)

  /** `int(max(0, v))`: negative values become 0, others are truncated toward zero. */
  function ClampCoord(v: real): (n: int)
    ensures n >= 0
    ensures v <= 0.0 ==> n == 0
    ensures v >= 0.0 ==> n as real <= v < n as real + 1.0
  {
    if v < 0.0 then 0 else v.Floor
  }

  /** `_box`: each corner coordinate clamped on its own. */
  function ClampBox(c: Corners): (b: IntBox)
    ensures b.x1 >= 0 && b.y1 >= 0 && b.x2 >= 0 && b.y2 >= 0
  {
    IntBox(ClampCoord(c.x1), ClampCoord(c.y1), ClampCoord(c.x2), ClampCoord(c.y2))
  }

  /** Clamping never reverses two coordinates. */
  lemma ClampMonotone(v: real, w: real)
    requires v <= w
    ensures ClampCoord(v) <= ClampCoord(w)
  {
    if 0.0 <= v {
      assert ClampCoord(v) as real <= v <= w < ClampCoord(w) as real + 1.0;
    }
  }

  /** A box whose corners are ordered keeps them ordered after clamping. */
  lemma ClampKeepsOrder(c: Corners)
    requires c.x1 <= c.x2 && c.y1 <= c.y2
    ensures ClampBox(c).x1 <= ClampBox(c).x2 && ClampBox(c).y1 <= ClampBox(c).y2
  {
    ClampMonotone(c.x1, c.x2);
    ClampMonotone(c.y1, c.y2);
  }

  /** A box that is already clamped comes back unchanged. */
  lemma ClampIdempotent(b: IntBox)
    requires b.x1 >= 0 && b.y1 >= 0 && b.x2 >= 0 && b.y2 >= 0
    ensures ClampBox(Corners(b.x1 as real, b.y1 as real, b.x2 as real, b.y2 as real)) == b
  {
  }

  // ---------------------------------------------------------------------------
  // Labels and the disease rule

  /** `str.lower()` on one character, for the ASCII letters. */
  function LowerChar(c: char): char {
    if 'A' <= c <= 'Z' then (c as int + 32) as char else c
  }

  function Lower(s: string): string {
    seq(|s|, i requires 0 <= i < |s| => LowerChar(s[i]))
  }

  /** `t in s` for strings: `t` occurs somewhere in `s`. */
  predicate Contains(s: string, t: string) {
    StartsWith(s, t) || (s != [] && Contains(s[1..], t))
  }

  /** `t` occurs in `s` at index `i`. */
  predicate OccursAt(s: string, t: string, i: int) {
    0 <= i && i + |t| <= |s| && s[i..i + |t|] == t
  }

  /** `Contains` finds an occurrence exactly when there is one at some index. */
  lemma {:induction false} ContainsAt(s: string, t: string)
    ensures Contains(s, t) <==> exists i :: OccursAt(s, t, i)
  {
    if StartsWith(s, t) {
      assert OccursAt(s, t, 0);
    } else if s != [] {
      ContainsAt(s[1..], t);
      if Contains(s, t) {
        var i :| OccursAt(s[1..], t, i);
        assert s[1..][i..i + |t|] == s[i + 1..i + 1 + |t|];
        assert OccursAt(s, t, i + 1);
      }
      if exists i :: OccursAt(s, t, i) {
        var i :| OccursAt(s, t, i);
        if i > 0 {
          assert s[1..][i - 1..i - 1 + |t|] == s[i..i + |t|];
          assert OccursAt(s[1..], t, i - 1);
        }
      }
    }
  }

  /** `label not in HEALTHY_CLASSES and "non" not in label.lower()`. */
  predicate IsDisease(healthy: set<string>, name: string) {
    name !in healthy && !Contains(Lower(name), "non")
  }

  /** The three letters n, o, n appear at index `i`, in any mix of upper and lower case. */
  predicate NonAt(name: string, i: int)
    requires 0 <= i && i + 3 <= |name|
  {
    LowerChar(name[i]) == 'n' && LowerChar(name[i + 1]) == 'o' && LowerChar(name[i + 2]) == 'n'
  }

  /** A label counts as a disease exactly when it is not healthy and spells "non" nowhere, in any case. */
  lemma IsDiseaseIff(healthy: set<string>, name: string)
    ensures IsDisease(healthy, name) <==>
      name !in healthy && forall i :: 0 <= i && i + 3 <= |name| ==> !NonAt(name, i)
  {
    var low := Lower(name);
    ContainsAt(low, "non");
    forall i | 0 <= i && i + 3 <= |name|
      ensures OccursAt(low, "non", i) <==> NonAt(name, i)
    {
      assert low[i..i + 3] == [low[i], low[i + 1], low[i + 2]];
    }
  }

  /** `names.get(cls_id, str(cls_id))`: a mapped id takes its name; an unmapped one its decimal text, which reads back as the id. */
  function LabelOf(names: map<int, string>, classId: int): (l: string)
    ensures classId in names ==> l == names[classId]
    ensures classId !in names ==> l == Decimal.IntText(classId)
    ensures classId !in names ==> Decimal.ParseInt(l) == Some(classId)
  {
    if classId in names then names[classId]
    else
      Decimal.IntTextRoundTrip(classId);
      Decimal.IntText(classId)
  }

  /** The tables the endpoint consults: `yolo_model.names`, `HEALTHY_CLASSES`, `DISEASE_ADVICE`. */
  datatype Config = Config(names: map<int, string>, healthy: set<string>, advice: map<string, Advice>)

  /** One detection from the model: its corners, confidence and class id. */
  datatype Detection = Detection(xyxy: Corners, conf: real, classId: int)

  /** The response's `Prediction`. */
  datatype Prediction = Prediction(
    box: IntBox,
    confidence: real,
    classId: int,
    name: string,
    isDisease: bool,
    advice: Option<Advice>)

  /** `DISEASE_ADVICE.get(label)`. */
  function AdviceOf(table: map<string, Advice>, name: string): (a: Option<Advice>)
    ensures a.Some? <==> name in table
    ensures a.Some? ==> a.value == table[name]
  {
    if name in table then Some(table[name]) else None
  }

  /** The body of the detection loop for one detection. */
  function ToPrediction(cfg: Config, d: Detection): (p: Prediction)
    ensures p.box == ClampBox(d.xyxy)
    ensures p.box.x1 >= 0 && p.box.y1 >= 0 && p.box.x2 >= 0 && p.box.y2 >= 0
    ensures p.confidence == d.conf && p.classId == d.classId
    ensures d.classId in cfg.names ==> p.name == cfg.names[d.classId]
    ensures d.classId !in cfg.names ==> p.name == Decimal.IntText(d.classId)
    ensures d.classId !in cfg.names ==> Decimal.ParseInt(p.name) == Some(d.classId)
    ensures p.isDisease <==> p.name !in cfg.healthy && !Contains(Lower(p.name), "non")
    ensures !p.isDisease ==> p.advice.None?
    ensures p.isDisease && p.name in cfg.advice ==> p.advice == Some(cfg.advice[p.name])
    ensures p.isDisease && p.name !in cfg.advice ==> p.advice.None?
  {
    var name := LabelOf(cfg.names, d.classId);
    var disease := IsDisease(cfg.healthy, name);
    Prediction(ClampBox(d.xyxy), d.conf, d.classId, name, disease,
      if disease then AdviceOf(cfg.advice, name) else None)
  }

  /** The loop that appends one prediction per detection, in the model's order. */
  method BuildPredictions(cfg: Config, dets: seq<Detection>) returns (preds: seq<Prediction>)
    ensures |preds| == |dets|
    ensures forall i :: 0 <= i < |dets| ==> preds[i] == ToPrediction(cfg, dets[i])
  {
    preds := [];
    for i := 0 to |dets|
      invariant |preds| == i
      invariant forall k :: 0 <= k < i ==> preds[k] == ToPrediction(cfg, dets[k])
    {
      preds := preds + [ToPrediction(cfg, dets[i])];
    }
  }

  // ---------------------------------------------------------------------------
  // The per-label summary

  /** One `by_label` entry: `count` and `max_conf`. */
  datatype Stat = Stat(count: nat, maxConf: real)

  /** How many predictions carry `label`. */
  function CountOf(preds: seq<Prediction>, name: string): nat {
    if preds == [] then 0
    else CountOf(preds[..|preds| - 1], name) + (if preds[|preds| - 1].name == name then 1 else 0)
  }

  /** The running `max(max_conf, confidence)` over the predictions with `label`, from 0.0. */
  function MaxConfOf(preds: seq<Prediction>, name: string): real {
    if preds == [] then 0.0
    else
      var m := MaxConfOf(preds[..|preds| - 1], name);
      if preds[|preds| - 1].name == name then Max(m, preds[|preds| - 1].confidence) else m
  }

  predicate Distinct(ls: seq<string>) {
    forall i, j :: 0 <= i < j < |ls| ==> ls[i] != ls[j]
  }

  /** The keys of `by_label` in insertion order: each label where it first occurs. */
  function LabelsInOrder(preds: seq<Prediction>): (ls: seq<string>)
    ensures Distinct(ls)
    ensures |ls| <= |preds|
    ensures preds != [] ==> ls != []
  {
    if preds == [] then []
    else
      var ls := LabelsInOrder(preds[..|preds| - 1]);
      var l := preds[|preds| - 1].name;
      if l in ls then ls else ls + [l]
  }

  /** The whole `by_label` dictionary as a map. */
  function StatsOf(preds: seq<Prediction>): map<string, Stat> {
    map l | l in LabelsInOrder(preds) :: Stat(CountOf(preds, l), MaxConfOf(preds, l))
  }

  lemma SnocPrefix(preds: seq<Prediction>, p: Prediction)
    ensures (preds + [p])[..|preds|] == preds
  {
  }

  /** A label is a key of the summary exactly when some prediction carries it. */
  lemma {:induction false} LabelsIffCounted(preds: seq<Prediction>, name: string)
    ensures name in LabelsInOrder(preds) <==> CountOf(preds, name) > 0
  {
    if preds != [] {
      LabelsIffCounted(preds[..|preds| - 1], name);
    }
  }

  /** The index of the first prediction carrying `name`, or `|preds|` when none does. */
  function FirstIndexOf(preds: seq<Prediction>, name: string): (k: nat)
    ensures k <= |preds|
    ensures k < |preds| ==> preds[k].name == name
    ensures forall i :: 0 <= i < k ==> preds[i].name != name
  {
    if preds == [] then 0
    else
      var k := FirstIndexOf(preds[..|preds| - 1], name);
      if k < |preds| - 1 || preds[|preds| - 1].name == name then k else |preds|
  }

  /** A label is a key of the summary exactly when it has a first occurrence. */
  lemma {:induction false} LabelsIffFirst(preds: seq<Prediction>, name: string)
    ensures name in LabelsInOrder(preds) <==> FirstIndexOf(preds, name) < |preds|
  {
    if preds != [] {
      LabelsIffFirst(preds[..|preds| - 1], name);
    }
  }

  /**
   * The keys of `by_label` come in the order in which the labels first
   * occur among the predictions.
   */
  lemma {:induction false} LabelsFirstOccurrence(preds: seq<Prediction>)
    ensures var ls := LabelsInOrder(preds);
      forall i :: 0 <= i < |ls| ==> FirstIndexOf(preds, ls[i]) < |preds|
    ensures var ls := LabelsInOrder(preds);
      forall i, j :: 0 <= i < j < |ls| ==> FirstIndexOf(preds, ls[i]) < FirstIndexOf(preds, ls[j])
  {
    if preds != [] {
      var init := preds[..|preds| - 1];
      var old_ls := LabelsInOrder(init);
      LabelsFirstOccurrence(init);
      forall i | 0 <= i < |old_ls|
        ensures FirstIndexOf(preds, old_ls[i]) == FirstIndexOf(init, old_ls[i]) < |init|
      {
        LabelsIffFirst(init, old_ls[i]);
      }
      var l := preds[|preds| - 1].name;
      if l !in old_ls {
        LabelsIffFirst(init, l);
        assert FirstIndexOf(preds, l) == |init|;
      }
    }
  }

  /** `LabelsFirstOccurrence` for one pair of keys. */
  lemma FirstOccurrenceOrder(preds: seq<Prediction>, i: nat, j: nat)
    requires i < j < |LabelsInOrder(preds)|
    ensures FirstIndexOf(preds, LabelsInOrder(preds)[i]) < FirstIndexOf(preds, LabelsInOrder(preds)[j])
  {
    LabelsFirstOccurrence(preds);
  }

  /** A label no prediction carries has count 0 and `max_conf` 0.0. */
  lemma {:induction false} UnseenLabel(preds: seq<Prediction>, name: string)
    requires name !in LabelsInOrder(preds)
    ensures CountOf(preds, name) == 0 && MaxConfOf(preds, name) == 0.0
  {
    if preds != [] {
      UnseenLabel(preds[..|preds| - 1], name);
    }
  }

  /** `max_conf` is at least 0.0 and at least every confidence with that label. */
  lemma {:induction false} MaxConfBounds(preds: seq<Prediction>, name: string)
    ensures MaxConfOf(preds, name) >= 0.0
    ensures forall k :: 0 <= k < |preds| && preds[k].name == name ==> preds[k].confidence <= MaxConfOf(preds, name)
  {
    if preds != [] {
      var init := preds[..|preds| - 1];
      MaxConfBounds(init, name);
      forall k | 0 <= k < |preds| - 1 && preds[k].name == name
        ensures preds[k].confidence <= MaxConfOf(preds, name)
      {
        assert preds[k] == init[k];
      }
    }
  }

  /** `max_conf` is 0.0 or the confidence of a prediction with that label. */
  lemma {:induction false} MaxConfAttained(preds: seq<Prediction>, name: string)
    ensures MaxConfOf(preds, name) == 0.0 ||
      exists k :: 0 <= k < |preds| && preds[k].name == name && preds[k].confidence == MaxConfOf(preds, name)
  {
    if preds != [] {
      var init := preds[..|preds| - 1];
      MaxConfAttained(init, name);
      var m := MaxConfOf(init, name);
      if MaxConfOf(preds, name) != m {
        assert preds[|preds| - 1].confidence == MaxConfOf(preds, name);
      } else if m != 0.0 {
        var k :| 0 <= k < |init| && init[k].name == name && init[k].confidence == m;
        assert preds[k] == init[k];
      }
    }
  }

  /** The sum of the counts of `ls`. */
  function SumCounts(preds: seq<Prediction>, ls: seq<string>): nat {
    if ls == [] then 0 else CountOf(preds, ls[0]) + SumCounts(preds, ls[1..])
  }

  lemma {:induction false} SumCountsAppend(preds: seq<Prediction>, ls: seq<string>, l: string)
    ensures SumCounts(preds, ls + [l]) == SumCounts(preds, ls) + CountOf(preds, l)
  {
    if ls != [] {
      assert (ls + [l])[1..] == ls[1..] + [l];
      SumCountsAppend(preds, ls[1..], l);
    }
  }

  /** One more prediction adds one to the sum when its label is among `ls`, which holds each label once. */
  lemma {:induction false} SumCountsSnoc(preds: seq<Prediction>, p: Prediction, ls: seq<string>)
    requires Distinct(ls)
    ensures SumCounts(preds + [p], ls) == SumCounts(preds, ls) + (if p.name in ls then 1 else 0)
  {
    if ls != [] {
      SnocPrefix(preds, p);
      assert Distinct(ls[1..]) by {
        forall i, j | 0 <= i < j < |ls[1..]| ensures ls[1..][i] != ls[1..][j] {
          assert ls[1..][i] == ls[i + 1] && ls[1..][j] == ls[j + 1];
        }
      }
      SumCountsSnoc(preds, p, ls[1..]);
      assert ls[0] !in ls[1..] by {
        forall j | 0 <= j < |ls[1..]| ensures ls[1..][j] != ls[0] {
          assert ls[1..][j] == ls[j + 1];
        }
      }
      assert p.name in ls <==> p.name == ls[0] || p.name in ls[1..] by {
        assert ls == [ls[0]] + ls[1..];
      }
    }
  }

  /** The counts of `by_label` add up to the number of predictions. */
  lemma {:induction false} CountsSum(preds: seq<Prediction>)
    ensures SumCounts(preds, LabelsInOrder(preds)) == |preds|
  {
    if preds != [] {
      var init := preds[..|preds| - 1];
      var p := preds[|preds| - 1];
      var ls := LabelsInOrder(init);
      assert preds == init + [p];
      CountsSum(init);
      SumCountsSnoc(init, p, ls);
      if p.name !in ls {
        SumCountsAppend(preds, ls, p.name);
        LabelsIffCounted(init, p.name);
        SnocPrefix(init, p);
      }
    }
  }

  /**
   * The summary loop: `setdefault` inserts a label with `{count: 0, max_conf: 0.0}`
   * the first time it is seen, then the entry is bumped in place. `keys` is the
   * dictionary's insertion order.
   */
  method Summarize(preds: seq<Prediction>) returns (keys: seq<string>, byLabel: map<string, Stat>)
    ensures keys == LabelsInOrder(preds)
    ensures byLabel == StatsOf(preds)
  {
    keys := [];
    byLabel := map[];
    for i := 0 to |preds|
      invariant keys == LabelsInOrder(preds[..i])
      invariant forall l :: l in byLabel <==> l in keys
      invariant forall l :: l in byLabel ==> byLabel[l] == Stat(CountOf(preds[..i], l), MaxConfOf(preds[..i], l))
    {
      var p := preds[i];
      assert preds[..i + 1][..i] == preds[..i];
      var n := if p.name in byLabel then byLabel[p.name] else Stat(0, 0.0);
      if p.name !in byLabel {
        UnseenLabel(preds[..i], p.name);
        keys := keys + [p.name];
      }
      byLabel := byLabel[p.name := Stat(n.count + 1, Max(n.maxConf, p.confidence))];
    }
    assert preds[..|preds|] == preds;
  }

  // ---------------------------------------------------------------------------
  // The top label

  /** `(count, max_conf)` of `a` compares greater than that of `b`, as Python orders tuples. */
  predicate Beats(a: Stat, b: Stat) {
    a.count > b.count || (a.count == b.count && a.maxConf > b.maxConf)
  }

  /**
   * `max(by_label, key=...)`: Python keeps the first key seen and replaces it
   * only by a later key that beats it, so the winner is the first maximal key.
   */
  function TopIndex(keys: seq<string>, stats: map<string, Stat>): (t: nat)
    requires keys != []
    requires forall k :: 0 <= k < |keys| ==> keys[k] in stats
    ensures t < |keys|
    ensures forall j :: 0 <= j < |keys| ==> !Beats(stats[keys[j]], stats[keys[t]])
    ensures forall j :: 0 <= j < t ==> Beats(stats[keys[t]], stats[keys[j]])
  {
    if |keys| == 1 then 0
    else
      var b := TopIndex(keys[..|keys| - 1], stats);
      if Beats(stats[keys[|keys| - 1]], stats[keys[b]]) then |keys| - 1 else b
  }

  /**
   * `top_label`: `None` for an empty summary; otherwise a key that no key
   * beats, and on ties the first such key in insertion order.
   */
  function TopLabel(keys: seq<string>, stats: map<string, Stat>): (top: Option<string>)
    requires forall k :: 0 <= k < |keys| ==> keys[k] in stats
    ensures top.None? <==> keys == []
    ensures top.Some? ==> top.value in keys
    ensures top.Some? ==> forall j :: 0 <= j < |keys| ==> !Beats(stats[keys[j]], stats[top.value])
    ensures top.Some? ==> exists t ::
      && 0 <= t < |keys| && keys[t] == top.value
      && forall j :: 0 <= j < t ==> Beats(stats[top.value], stats[keys[j]])
  {
    if keys == [] then None
    else
      var t := TopIndex(keys, stats);
      assert 0 <= t < |keys| && keys[t] == keys[t];
      Some(keys[t])
  }

  /** The top label of a set of predictions is `None` exactly when there are none; otherwise it is a label no other label beats. */
  lemma TopLabelOfPredictions(preds: seq<Prediction>)
    ensures var ls := LabelsInOrder(preds);
      && (forall k :: 0 <= k < |ls| ==> ls[k] in StatsOf(preds))
      && (TopLabel(ls, StatsOf(preds)).None? <==> preds == [])
      && (preds != [] ==> var top := TopLabel(ls, StatsOf(preds)).value;
            CountOf(preds, top) > 0 &&
            forall l :: l in ls ==> !Beats(StatsOf(preds)[l], StatsOf(preds)[top]))
  {
    var ls := LabelsInOrder(preds);
    if preds != [] {
      var t := TopIndex(ls, StatsOf(preds));
      LabelsIffCounted(preds, ls[t]);
    }
  }

  /** Among labels tied with the top label, the top label is the one that occurs first among the predictions. */
  lemma TopLabelFirstOnTies(preds: seq<Prediction>)
    requires preds != []
    ensures var ls := LabelsInOrder(preds);
      var stats := StatsOf(preds);
      var top := TopLabel(ls, stats).value;
      forall l :: l in ls && l != top && !Beats(stats[top], stats[l]) ==>
        FirstIndexOf(preds, top) < FirstIndexOf(preds, l)
  {
    var ls := LabelsInOrder(preds);
    var stats := StatsOf(preds);
    var t := TopIndex(ls, stats);
    forall l | l in ls && l != ls[t] && !Beats(stats[ls[t]], stats[l])
      ensures FirstIndexOf(preds, ls[t]) < FirstIndexOf(preds, l)
    {
      var j :| 0 <= j < |ls| && ls[j] == l;
      TopPrecedesTies(ls, stats, j);
      FirstOccurrenceOrder(preds, t, j);
    }
  }

  /** A key tied with the winner of `max` sits after it. */
  lemma TopPrecedesTies(keys: seq<string>, stats: map<string, Stat>, j: nat)
    requires forall k :: 0 <= k < |keys| ==> keys[k] in stats
    requires j < |keys|
    requires keys[j] != keys[TopIndex(keys, stats)]
    requires !Beats(stats[keys[TopIndex(keys, stats)]], stats[keys[j]])
    ensures TopIndex(keys, stats) < j
  {
  }

  // ---------------------------------------------------------------------------
  // The endpoint

  /** The response body without `elapsed_ms`. */
  datatype Response = Response(
    image: ImageInfo,
    predictions: seq<Prediction>,
    topLabel: Option<string>,
    labels: seq<string>,
    byLabel: map<string, Stat>)

  /**
   * `predict`: the upload checks, then one prediction per detection, then the
   * summary. `dets` is what the model detects in the decoded image.
   */
  method Predict(cfg: Config, upload: Upload, dets: seq<Detection>) returns (r: Result<Response, HttpError>)
    ensures r.Err? <==> CheckUpload(upload).Err?
    ensures r.Err? ==> r.error == CheckUpload(upload).error
    ensures r.Ok? ==> r.value.image == upload.decoded.value
    ensures r.Ok? ==> |r.value.predictions| == |dets|
    ensures r.Ok? ==> forall i :: 0 <= i < |dets| ==> r.value.predictions[i] == ToPrediction(cfg, dets[i])
    ensures r.Ok? ==> r.value.labels == LabelsInOrder(r.value.predictions) && r.value.byLabel == StatsOf(r.value.predictions)
    ensures r.Ok? ==> forall k :: 0 <= k < |r.value.labels| ==> r.value.labels[k] in r.value.byLabel
    ensures r.Ok? ==> r.value.topLabel == TopLabel(r.value.labels, r.value.byLabel)
    ensures r.Ok? ==> (r.value.topLabel.None? <==> dets == [])
    ensures r.Ok? && r.value.topLabel.Some? ==> var top := r.value.topLabel.value;
      && top in r.value.byLabel
      && forall l :: l in r.value.byLabel ==> !Beats(r.value.byLabel[l], r.value.byLabel[top])
  {
    match CheckUpload(upload)
    case Err(e) =>
      return Err(e);
    case Ok(image) =>
      var preds := BuildPredictions(cfg, dets);
      var keys, byLabel := Summarize(preds);
      TopLabelOfPredictions(preds);
      return Ok(Response(image, preds, TopLabel(keys, byLabel), keys, byLabel));
  }
}
