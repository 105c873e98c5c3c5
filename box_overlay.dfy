/**
 * The overlay drawn on top of the photo (frontend/src/components/BoxOverlay.jsx):
 * the guard against unknown sizes, the mapping of each box from natural to
 * displayed pixels, and the three-level colour choice.
 */
module BoxOverlay {
  import opened Common
  import opened Wire

  /** An image size as held in the client's state (`{ width, height }`). */
  datatype Size = Size(width: Number, height: Number)

  /**
   * A displayed coordinate. Heights are not guarded, so a zero or NaN natural
   * height gives a non-finite (NaN or infinite) vertical scale, and every
   * vertical coordinate multiplied by it is non-finite too.
   */
  datatype Coord = Fin(v: real) | NonFinite

  /** The style of one box: `left`, `top`, `width`, `height` in displayed pixels. */
  datatype Rect = Rect(left: real, top: Coord, width: real, height: Coord)

  /**
   * What `pickColor` returns: a colour string from one of the tables, the
   * non-colour value an object literal inherits under `key`, or `undefined`.
   */
  datatype Paint = Hex(hex: string) | Inherited(key: string) | NoPaint

  /** One drawn box: its rectangle and its border colour. */
  datatype Drawn = Drawn(rect: Rect, color: Paint)

  /** A number JavaScript treats as true: not 0 and not NaN. */
  predicate Truthy(n: Number) {
    n.Finite? && n.v != 0.0
  }

  /** The guard `natural?.width && displayed?.width`. */
  predicate Ready(natural: Size, displayed: Size) {
    Truthy(natural.width) && Truthy(displayed.width)
  }

  /** `displayed.height / natural.height`, finite only when both are numbers and the divisor is not 0. */
  function VerticalScale(natural: Size, displayed: Size): (s: Coord)
    ensures s.Fin? <==> Truthy(natural.height) && displayed.height.Finite?
    ensures s.Fin? ==> s.v * natural.height.v == displayed.height.v
  {
    if Truthy(natural.height) && displayed.height.Finite? then Fin(displayed.height.v / natural.height.v)
    else NonFinite
  }

  function Scaled(len: real, scale: Coord): Coord {
    match scale
    case Fin(s) => Fin(len * s)
    case NonFinite => NonFinite
  }

  /** The displayed rectangle of one box; X and Y are scaled independently and nothing is clamped. */
  function MapBox(b: Box, natural: Size, displayed: Size): (r: Rect)
    requires Ready(natural, displayed)
    ensures r.left * natural.width.v == b.x1 * displayed.width.v
    ensures (r.left + r.width) * natural.width.v == b.x2 * displayed.width.v
    ensures r.top.Fin? <==> Truthy(natural.height) && displayed.height.Finite?
    ensures r.height.Fin? <==> r.top.Fin?
    ensures r.top.Fin? ==>
      && r.top.v * natural.height.v == b.y1 * displayed.height.v
      && (r.top.v + r.height.v) * natural.height.v == b.y2 * displayed.height.v
  {
    var sx := displayed.width.v / natural.width.v;
    var sy := VerticalScale(natural, displayed);
    Rect(b.x1 * sx, Scaled(b.y1, sy), (b.x2 - b.x1) * sx, Scaled(b.y2 - b.y1, sy))
  }

  // ----- colours -----

  /** `fallbackPalette`, in its order. */
  const Palette: seq<string> := [
    "#ef4444", "#f97316", "#eab308", "#a855f7", "#06b6d4",
    "#2563eb", "#16a34a", "#15803d", "#f43f5e", "#ec4899",
    "#8b5cf6", "#dc2626", "#0ea5e9"
  ]

  /** `colorById`: one colour per class id 0..12. */
  const ColorById: map<int, string> := map[
    0 := "#ef4444", 1 := "#f97316", 2 := "#eab308", 3 := "#a855f7",
    4 := "#06b6d4", 5 := "#2563eb", 6 := "#16a34a", 7 := "#15803d",
    8 := "#f43f5e", 9 := "#ec4899", 10 := "#8b5cf6", 11 := "#dc2626",
    12 := "#0ea5e9"
  ]

  /** `colorByLabel`: one colour per known class label. */
  const ColorByLabel: map<string, string> := map[
    "Durian Leaf Blight Disease" := "#ef4444",
    "Durian Leaf Rust Disease" := "#f97316",
    "Durian Leaf Spot Disease" := "#eab308",
    "Leaf scorch" := "#a855f7",
    "Longkong-Rust-Spot-Disease" := "#06b6d4",
    "Mangosteen black spot disease" := "#2563eb",
    "Mangosteen-Leaf-Drying" := "#16a34a",
    "Mangosteen-Leaf-Spot-Disease" := "#15803d",
    "Mealybug" := "#f43f5e",
    "Powdery mildew of Rumbutan" := "#ec4899",
    "Rambutan Leaf Blight Disease" := "#8b5cf6",
    "Rambutan-Algal-Spot-Disease" := "#dc2626",
    "non-disease" := "#0ea5e9"
  ]

  /**
   * The members every object literal inherits from `Object.prototype`. Looking
   * one of them up in `colorByLabel` yields a function (or, for `__proto__`,
   * the prototype object): a truthy value that is not a colour. No number's
   * text is one of these names, so the `in colorById` test never meets them.
   */
  const ObjectProtoKeys: set<string> := {
    "constructor", "hasOwnProperty", "isPrototypeOf", "propertyIsEnumerable",
    "toLocaleString", "toString", "valueOf", "__proto__",
    "__defineGetter__", "__defineSetter__", "__lookupGetter__", "__lookupSetter__"
  }

  /** The class label each id stands for, as the id table names them. */
  const ClassNames: seq<string> := [
    "Durian Leaf Blight Disease", "Durian Leaf Rust Disease", "Durian Leaf Spot Disease",
    "Leaf scorch", "Longkong-Rust-Spot-Disease", "Mangosteen black spot disease",
    "Mangosteen-Leaf-Drying", "Mangosteen-Leaf-Spot-Disease", "Mealybug",
    "Powdery mildew of Rumbutan", "Rambutan Leaf Blight Disease",
    "Rambutan-Algal-Spot-Disease", "non-disease"
  ]

  /** Id keys: exactly 0..12, each with the colour of the same palette slot. */
  lemma IdTableMatchesPalette()
    ensures |Palette| == 13
    ensures forall k :: k in ColorById <==> 0 <= k < 13
    ensures forall k :: 0 <= k < 13 ==> ColorById[k] == Palette[k]
  {
    forall k | 0 <= k < 13 ensures k in ColorById && ColorById[k] == Palette[k] {
      if k == 0 {} else if k == 1 {} else if k == 2 {} else if k == 3 {} else if k == 4 {}
      else if k == 5 {} else if k == 6 {} else if k == 7 {} else if k == 8 {} else if k == 9 {}
      else if k == 10 {} else if k == 11 {} else {}
    }
  }

  /** Label keys: exactly the class names, each with the colour of its id. */
  lemma LabelTableMatchesIds()
    ensures |ClassNames| == 13
    ensures forall l :: l in ColorByLabel <==> l in ClassNames
    ensures forall k :: 0 <= k < 13 ==> ClassNames[k] in ColorByLabel && ColorByLabel[ClassNames[k]] == ColorById[k]
  {
    forall l | l in ColorByLabel ensures l in ClassNames {
      assert l in ColorByLabel.Keys;
      assert ColorByLabel.Keys == {
        ClassNames[0], ClassNames[1], ClassNames[2], ClassNames[3], ClassNames[4],
        ClassNames[5], ClassNames[6], ClassNames[7], ClassNames[8], ClassNames[9],
        ClassNames[10], ClassNames[11], ClassNames[12]};
    }
    forall k | 0 <= k < 13 ensures ClassNames[k] in ColorByLabel && ColorByLabel[ClassNames[k]] == ColorById[k] {
      LabelColorOfId(k);
    }
  }

  lemma LabelColorOfId(k: nat)
    requires k < 13
    ensures ClassNames[k] in ColorByLabel && ColorByLabel[ClassNames[k]] == ColorById[k]
  {
    if k == 0 {} else if k == 1 {} else if k == 2 {} else if k == 3 {} else if k == 4 {}
    else if k == 5 {} else if k == 6 {} else if k == 7 {} else if k == 8 {} else if k == 9 {}
    else if k == 10 {} else if k == 11 {} else {}
  }

  /** The three tables agree, so every colour any of them gives is a palette entry. */
  lemma TablesAgree()
    ensures forall k :: k in ColorById ==> ColorById[k] in Palette
    ensures forall l :: l in ColorByLabel ==> ColorByLabel[l] in Palette
  {
    IdTableMatchesPalette();
    LabelTableMatchesIds();
    forall l | l in ColorByLabel ensures ColorByLabel[l] in Palette {
      var k :| 0 <= k < |ClassNames| && ClassNames[k] == l;
      assert ColorByLabel[l] == Palette[k];
    }
  }

  /** `Math.abs(a)`. */
  function Abs(a: real): real {
    if a < 0.0 then -a else a
  }

  /** JavaScript's `a % m` for `a >= 0` and `m > 0`. */
  function Rem(a: real, m: real): (r: real)
    requires a >= 0.0 && m > 0.0
    ensures 0.0 <= r < m
  {
    FloorDivBounds(a, m);
    a - m * ((a / m).Floor as real)
  }

  lemma FloorDivBounds(a: real, m: real)
    requires m > 0.0
    ensures m * ((a / m).Floor as real) <= a
    ensures a < m * ((a / m).Floor as real) + m
  {
    var q := (a / m).Floor as real;
    assert q <= a / m < q + 1.0;
    QuotientLower(a, m, q);
    QuotientUpper(a, m, q);
  }

  lemma QuotientLower(a: real, m: real, q: real)
    requires m > 0.0 && q <= a / m
    ensures m * q <= a
  {
    var x := a / m;
    assert m * x == a;
    assert m * (x - q) >= 0.0;
    assert m * (x - q) == m * x - m * q;
  }

  lemma QuotientUpper(a: real, m: real, q: real)
    requires m > 0.0 && a / m < q + 1.0
    ensures a < m * q + m
  {
    var x := a / m;
    assert m * x == a;
    MulStrict(m, x, q + 1.0);
    assert m * (q + 1.0) == m * q + m;
  }

  lemma MulStrict(m: real, x: real, y: real)
    requires m > 0.0 && x < y
    ensures m * x < m * y
  {
  }

  predicate IsInteger(x: real) {
    x == x.Floor as real
  }

  /** `cid in colorById`: the number's text is one of the keys "0".."12". */
  predicate IsIdKey(cid: Number) {
    cid.Finite? && IsInteger(cid.v) && 0 <= cid.v.Floor <= 12
  }

  /** `Number.isNaN(cid) ? 0 : Math.abs(cid) % fallbackPalette.length`. */
  function FallbackIndex(cid: Number): (i: real)
    ensures 0.0 <= i < 13.0
  {
    match cid
    case NaN => 0.0
    case Finite(v) => Rem(Abs(v), 13.0)
  }

  /** `fallbackPalette[idx]`: `undefined` unless `idx` is an integer index of the palette. */
  function PaletteAt(idx: real): (c: Option<string>)
    ensures c.Some? ==> c.value in Palette
    ensures 0.0 <= idx < 13.0 && IsInteger(idx) ==> c.Some?
  {
    if IsInteger(idx) && 0 <= idx.Floor < |Palette| then Some(Palette[idx.Floor]) else None
  }

  /**
   * `pickColor(p)`: by id, then by label (an own or an inherited member of
   * `colorByLabel`), then by the rotating fallback palette.
   */
  function PickColor(p: Pred): (color: Paint)
    ensures color.Hex? ==> color.hex in Palette
    ensures color.Inherited? ==> color.key == p.name && p.name in ObjectProtoKeys
  {
    IdTableMatchesPalette();
    TablesAgree();
    var cid := ToNumber(p.classId);
    if IsIdKey(cid) then Hex(ColorById[cid.v.Floor])
    else if p.name != "" && p.name in ColorByLabel then Hex(ColorByLabel[p.name])
    else if p.name in ObjectProtoKeys then Inherited(p.name)
    else
      match PaletteAt(FallbackIndex(cid))
      case Some(c) => Hex(c)
      case None => NoPaint
  }

  /** The boxes `BoxOverlay` renders: nothing until both widths are known, then one per prediction, in order. */
  function Render(preds: seq<Pred>, natural: Size, displayed: Size): (r: seq<Drawn>)
    ensures !Ready(natural, displayed) ==> r == []
    ensures Ready(natural, displayed) ==> |r| == |preds|
    ensures Ready(natural, displayed) ==> forall i :: 0 <= i < |r| ==>
      r[i].rect == MapBox(preds[i].box, natural, displayed) && r[i].color == PickColor(preds[i])
  {
    if !Ready(natural, displayed) then []
    else seq(|preds|, i requires 0 <= i < |preds| => Drawn(MapBox(preds[i].box, natural, displayed), PickColor(preds[i])))
  }

  // ----- geometry properties -----

  /** When the image is shown at its natural size, each rectangle is its box. */
  lemma IdentityScaling(b: Box, s: Size)
    requires Ready(s, s) && Truthy(s.height)
    ensures MapBox(b, s, s) == Rect(b.x1, Fin(b.y1), b.x2 - b.x1, Fin(b.y2 - b.y1))
  {
    assert s.width.v / s.width.v == 1.0;
    assert s.height.v / s.height.v == 1.0;
  }

  /** Back from displayed to natural pixels, for sizes that are all known and non-zero. */
  function Unmap(r: Rect, natural: Size, displayed: Size): Box
    requires Ready(natural, displayed) && Truthy(natural.height) && Truthy(displayed.height)
    requires r.top.Fin? && r.height.Fin?
  {
    var sx := displayed.width.v / natural.width.v;
    var sy := displayed.height.v / natural.height.v;
    Box(r.left / sx, r.top.v / sy, (r.left + r.width) / sx, (r.top.v + r.height.v) / sy)
  }

  /** Mapping loses nothing: every box is recovered from its rectangle. */
  lemma MapBoxRoundTrip(b: Box, natural: Size, displayed: Size)
    requires Ready(natural, displayed) && Truthy(natural.height) && Truthy(displayed.height)
    ensures MapBox(b, natural, displayed).top.Fin? && MapBox(b, natural, displayed).height.Fin?
    ensures Unmap(MapBox(b, natural, displayed), natural, displayed) == b
  {
    var sx := displayed.width.v / natural.width.v;
    var sy := displayed.height.v / natural.height.v;
    assert sx != 0.0 && sy != 0.0;
    var r := MapBox(b, natural, displayed);
    assert r.left + r.width == b.x2 * sx;
    assert r.top.v + r.height.v == b.y2 * sy;
  }

  /** Left and width depend on widths only, top and height on heights only. */
  lemma AxesIndependent(b: Box, n1: Size, d1: Size, n2: Size, d2: Size)
    requires Ready(n1, d1) && Ready(n2, d2)
    ensures n1.width == n2.width && d1.width == d2.width ==>
      MapBox(b, n1, d1).left == MapBox(b, n2, d2).left && MapBox(b, n1, d1).width == MapBox(b, n2, d2).width
    ensures n1.height == n2.height && d1.height == d2.height ==>
      MapBox(b, n1, d1).top == MapBox(b, n2, d2).top && MapBox(b, n1, d1).height == MapBox(b, n2, d2).height
  {
  }

  /** An inverted box keeps its negative extent when scaled up or down. */
  lemma InvertedBoxNotClamped(b: Box, natural: Size, displayed: Size)
    requires Ready(natural, displayed)
    requires natural.width.v > 0.0 && displayed.width.v > 0.0
    requires b.x2 < b.x1
    ensures MapBox(b, natural, displayed).width < 0.0
  {
    var sx := displayed.width.v / natural.width.v;
    assert sx > 0.0;
    assert (b.x2 - b.x1) * sx < 0.0;
  }

  /** A 1000x500 image shown at 500x250 maps box (100,100)-(200,200) to 50,50 with size 50x50. */
  lemma HalfSizeExample()
    ensures MapBox(Box(100.0, 100.0, 200.0, 200.0),
                   Size(Finite(1000.0), Finite(500.0)), Size(Finite(500.0), Finite(250.0)))
      == Rect(50.0, Fin(50.0), 50.0, Fin(50.0))
  {
  }

  // ----- colour properties -----

  lemma RemOfNat(n: nat)
    ensures Rem(n as real, 13.0) == (n % 13) as real
  {
    var q, r := n / 13, n % 13;
    assert n == 13 * q + r;
    assert (n as real) / 13.0 == q as real + (r as real) / 13.0;
    assert ((n as real) / 13.0).Floor == q;
  }

  /** An id that converts to an integer 0..12 picks its id colour, whatever the label. */
  lemma ColorByIdFirst(p: Pred, k: int)
    requires 0 <= k <= 12 && ToNumber(p.classId) == Finite(k as real)
    ensures PickColor(p) == Hex(Palette[k])
  {
    IdTableMatchesPalette();
  }

  /** `Number(null)` is 0, so a null id picks the colour of id 0, not the label's. */
  lemma NullIdIsZero(p: Pred)
    requires p.classId == Null
    ensures PickColor(p) == Hex(Palette[0])
  {
    ColorByIdFirst(p, 0);
  }

  /** Without an id colour, a non-empty known label picks its label colour. */
  lemma ColorByLabelSecond(p: Pred)
    requires !IsIdKey(ToNumber(p.classId))
    requires p.name in ColorByLabel
    ensures PickColor(p) == Hex(ColorByLabel[p.name])
  {
    LabelTableMatchesIds();
  }

  /**
   * Without an id colour, a label naming an inherited member is found by the
   * label lookup, whatever the id, and what comes back is not a colour.
   */
  lemma InheritedLabelThird(p: Pred)
    requires !IsIdKey(ToNumber(p.classId))
    requires p.name in ObjectProtoKeys
    ensures PickColor(p) == Inherited(p.name)
  {
    ProtoKeysAreNotLabels(p.name);
  }

  /** No class label names an inherited member, so the two label lookups never compete. */
  lemma ProtoKeysAreNotLabels(l: string)
    requires l in ObjectProtoKeys
    ensures l !in ColorByLabel
  {
    ProtoKeyInitial(l);
    LabelKeyInitial(l);
  }

  /** Every class label starts with one of the letters D, L, M, P, R or n. */
  lemma LabelKeyInitial(l: string)
    ensures l in ColorByLabel ==> l != [] && l[0] in "DLMPRn"
  {
    if l in ColorByLabel {
      assert l in ColorByLabel.Keys;
    }
  }

  /** Every inherited member's name starts with one of c, h, i, p, t, v or `_`. */
  lemma ProtoKeyInitial(l: string)
    requires l in ObjectProtoKeys
    ensures l != [] && l[0] in "chiptv_"
  {
    if l == "constructor" {} else if l == "hasOwnProperty" {} else if l == "isPrototypeOf" {}
    else if l == "propertyIsEnumerable" {} else if l == "toLocaleString" {} else if l == "toString" {}
    else if l == "valueOf" {} else if l == "__proto__" {} else if l == "__defineGetter__" {}
    else if l == "__defineSetter__" {} else if l == "__lookupGetter__" {} else {}
  }

  /** Otherwise an integer id picks palette slot `|id| mod 13`, and a NaN id slot 0. */
  lemma FallbackThird(p: Pred)
    requires !IsIdKey(ToNumber(p.classId))
    requires p.name !in ColorByLabel && p.name !in ObjectProtoKeys
    ensures p.classId.Num? && IsInteger(p.classId.v) ==>
      PickColor(p) == Hex(Palette[(if p.classId.v < 0.0 then -p.classId.v.Floor else p.classId.v.Floor) % 13])
    ensures ToNumber(p.classId).NaN? ==> PickColor(p) == Hex(Palette[0])
  {
    if p.classId.Num? && IsInteger(p.classId.v) {
      var k := p.classId.v.Floor;
      var n: nat := if k < 0 then -k else k;
      assert Abs(p.classId.v) == n as real;
      RemOfNat(n);
    }
  }

  /** The fallback index is an integer exactly when the id is. */
  lemma RemIntegral(a: real)
    requires a >= 0.0
    ensures IsInteger(Rem(a, 13.0)) <==> IsInteger(a)
  {
    var q := (a / 13.0).Floor as real;
    var r := Rem(a, 13.0);
    assert r == a - 13.0 * q;
    if IsInteger(r) {
      assert a == r + 13.0 * q;
      assert a == (r.Floor + 13 * (a / 13.0).Floor) as real;
    }
    if IsInteger(a) {
      assert r == (a.Floor - 13 * (a / 13.0).Floor) as real;
    }
  }

  /**
   * `undefined` comes back exactly when the id is a non-integer number and the
   * label is found in neither lookup; anything other than a colour comes back
   * exactly when, in addition, the label may name an inherited member.
   */
  lemma NoColorIffFractionalId(p: Pred)
    ensures PickColor(p).NoPaint? <==>
      p.classId.Num? && !IsInteger(p.classId.v) && p.name !in ColorByLabel && p.name !in ObjectProtoKeys
    ensures !PickColor(p).Hex? <==>
      && !IsIdKey(ToNumber(p.classId)) && p.name !in ColorByLabel
      && (p.name in ObjectProtoKeys || (p.classId.Num? && !IsInteger(p.classId.v)))
  {
    var cid := ToNumber(p.classId);
    if cid.Finite? {
      RemIntegral(Abs(cid.v));
      assert IsInteger(Abs(cid.v)) <==> IsInteger(cid.v) by {
        if cid.v < 0.0 {
          assert Abs(cid.v) == -cid.v;
          assert (-cid.v).Floor == -cid.v.Floor || (-cid.v).Floor == -cid.v.Floor - 1;
        }
      }
    }
  }

  /** Class id 12 is always drawn in #0ea5e9. */
  lemma Id12Example(p: Pred)
    requires p.classId == Num(12.0)
    ensures PickColor(p) == Hex("#0ea5e9")
  {
    ColorByIdFirst(p, 12);
  }

  /** An unknown id 13 with an unknown label falls back to palette slot 0. */
  lemma Id13Example(p: Pred)
    requires p.classId == Num(13.0) && p.name !in ColorByLabel && p.name !in ObjectProtoKeys
    ensures PickColor(p) == Hex(Palette[0])
  {
    FallbackThird(p);
  }

  /** Id 13 with the label "constructor" finds the inherited `Object` function, not a colour. */
  lemma ConstructorLabelExample(p: Pred)
    requires p.classId == Num(13.0) && p.name == "constructor"
    ensures PickColor(p) == Inherited("constructor")
  {
    InheritedLabelThird(p);
  }
}
