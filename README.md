# Leaf Scan: a Dafny model of the prediction post-processing

Leaf Scan is a leaf-disease detector. A React client sends a leaf photo to a
FastAPI backend, and a YOLO model finds diseased spots on it. The backend turns
each detection into a prediction and returns the predictions with a per-label
summary. The client draws the boxes over the photo and groups the disease
predictions into advisory cards.

This project models the logic on both sides of that HTTP call and proves its
properties:

- **Client upload checks and URL** (`Api`, from `frontend/src/api.js`):
  - the `BASE` normalisation;
  - the checks `predictImage` makes before sending anything;
  - the request URL;
  - the error text for a failed reply.
- **Overlay** (`BoxOverlay`, from `frontend/src/components/BoxOverlay.jsx`):
  - the guard against unknown sizes;
  - the independent X/Y scaling of boxes;
  - the three-level colour choice over its three tables.
- **Disease cards** (`DiseaseCards`, from `frontend/src/App.jsx`): the
  `diseaseCards` fold, as a loop over a `Map`, plus its reference function and
  the stable sort.
- **UI state** (`App`, from `frontend/src/App.jsx`): the component state as a
  class whose methods are the `onFile`, `analyze` and `onImgLoad` handlers.
- **Backend** (`Backend`, from `backend/app/main.py`):
  - the upload checks of `/predict`;
  - `_box` clamping;
  - the label and `is_disease`/`advice` rule;
  - the `by_label` summary loop;
  - `top_label`.
- **Supporting modules:**
  - `Wire` is the JSON prediction as the client sees it, with JavaScript's
    `Number(...)` conversion.
  - `Decimal` is integer-to-decimal text and back.
  - `Common` holds `Option`, `Result` and the advice record.
- **Both sides together** (`Pipeline`): what the client makes of what the
  backend sends.

Confidences and coordinates are Dafny `real`s. The code only compares them,
takes maxima and scales them, so exact reals capture what it computes without
IEEE rounding.

`analyze` sets `loading` before it calls `predictImage` (frontend/src/App.jsx
lines 53-54), so a refused file is reported while `loading` is true; the
`finally` clause clears it again. `App.LeafScan.Analyze` ends with `loading`
false on every path.

## Model

| member | source | states |
|---|---|---|
| Decimal.IntText | backend/app/main.py:84 | `str(cls_id)` is non-empty and made of digits, with a leading minus exactly for a negative id; it is canonical: no leading zero after the minus, and none before a second digit, so `-0` and `007` never appear |
| Decimal.IntTextRoundTrip | backend/app/main.py:84 | parsing the decimal text of any integer gives the integer back |
| Decimal.IntTextInjective | backend/app/main.py:84 | two different ids never get the same fallback label text |
| Api.StripTrailingSlashes | frontend/src/api.js:2 | `replace(/\/+$/, "")`: the result is a prefix of the input, does not end in `/`, and every removed character is `/` |
| Api.Base | frontend/src/api.js:2 | an unset `VITE_API_URL` gives `http://127.0.0.1:8000`; `BASE` is never empty and never ends in `/` |
| Api.StripIdempotent | frontend/src/api.js:2 | stripping twice equals stripping once |
| Api.BaseFromEnv | frontend/src/api.js:2 | a configured URL is either made only of slashes (giving the default) or kept exactly up to its trailing slashes |
| Api.BaseIdempotent | frontend/src/api.js:2 | feeding `BASE` back in as the configured URL gives `BASE` again |
| Api.CheckFile | frontend/src/api.js:5-7 | missing file, then non-`image/` type, then size over 8·1024·1024; each refusal is exactly its condition after the earlier checks passed, and the file passes unchanged |
| Api.UploadErrorText | frontend/src/api.js:5-7 | the message thrown for each refusal |
| Api.SizeBoundary | frontend/src/api.js:7 | exactly 8 MiB passes and one byte more is refused as too large |
| Api.BuildRequest | frontend/src/api.js:4-12 | a request is built exactly when the checks pass, and a refusal carries that check's reason; the request carries the file in field `image`, and its URL uses the caller's `conf` and `iou`, or 0.25 and 0.45 when they are absent |
| Api.PredictUrlJoin | frontend/src/api.js:12 | the URL starts with `BASE`, then exactly one `/` before `predict?conf=` |
| Api.PredictUrl | frontend/src/api.js:12 | the template `${BASE}/predict?conf=${conf}&iou=${iou}` |
| Api.StatusMessageRoundTrip | frontend/src/api.js:15-18 | `API <status>: <text or statusText>` reads back into the status and the detail |
| Api.StatusMessage | frontend/src/api.js:17 | the template `API ${res.status}: ${text || res.statusText}` |
| Api.Settle | frontend/src/api.js:13-19 | a rejected `fetch` fails with its own message; a 2xx reply yields its JSON; any other status fails with exactly `API <status>: <body>`, the status text standing in for an empty or unreadable body, and that message reads back as the status and the text it carries |
| Api.PredictImage | frontend/src/api.js:4-19 | nothing is sent exactly when a check fails, and the call then fails with that check's message; otherwise the reply settles the call |
| Api.RefusalIgnoresNetwork | frontend/src/api.js:5-7 | a refused file fails the same way whatever the network would answer |
| BoxOverlay.IdTableMatchesPalette | frontend/src/components/BoxOverlay.jsx:9-47 | `colorById` has exactly the keys 0..12, and each maps to the palette slot with the same index |
| BoxOverlay.LabelTableMatchesIds | frontend/src/components/BoxOverlay.jsx:9-40 | `colorByLabel` has exactly the 13 class names as keys, and each has the colour of its id |
| BoxOverlay.LabelColorOfId | frontend/src/components/BoxOverlay.jsx:9-40 | class name `k` has the label colour that id `k` has |
| BoxOverlay.TablesAgree | frontend/src/components/BoxOverlay.jsx:9-47 | every colour either table gives is a palette entry |
| BoxOverlay.Rem | frontend/src/components/BoxOverlay.jsx:54 | JavaScript `%` of a non-negative number by a positive one lies in [0, m) |
| BoxOverlay.PickColor | frontend/src/components/BoxOverlay.jsx:49-56 | any colour string returned is a palette entry; an inherited member comes back only for a label naming one; `undefined` exactly as `BoxOverlay.NoColorIffFractionalId` states |
| BoxOverlay.Render | frontend/src/components/BoxOverlay.jsx:3-6 | nothing is drawn unless both widths are known and non-zero; otherwise there is one rectangle per prediction, in input order, with the mapped box and the picked colour |
| BoxOverlay.IdentityScaling | frontend/src/components/BoxOverlay.jsx:5-6 | shown at natural size, each rectangle reproduces its box |
| BoxOverlay.MapBoxRoundTrip | frontend/src/components/BoxOverlay.jsx:61-65 | with all sizes known and non-zero, every box can be recovered from its rectangle |
| BoxOverlay.AxesIndependent | frontend/src/components/BoxOverlay.jsx:5-6 | `left` and `width` depend only on the widths; `top` and `height` depend only on the heights |
| BoxOverlay.InvertedBoxNotClamped | frontend/src/components/BoxOverlay.jsx:64 | an inverted box keeps a negative width after scaling |
| BoxOverlay.HalfSizeExample | frontend/src/components/BoxOverlay.jsx:62-65 | a 1000x500 image shown at 500x250 maps (100,100)-(200,200) to (50,50) with size 50x50 |
| BoxOverlay.RemOfNat | frontend/src/components/BoxOverlay.jsx:54 | on naturals, JavaScript `%` by 13 is integer remainder |
| BoxOverlay.ColorByIdFirst | frontend/src/components/BoxOverlay.jsx:50-51 | an id that converts to an integer 0..12 picks `colorById` for that id, whatever the label |
| BoxOverlay.NullIdIsZero | frontend/src/components/BoxOverlay.jsx:50-51 | a `null` id converts to 0 and picks colour 0, not the label colour |
| BoxOverlay.ColorByLabelSecond | frontend/src/components/BoxOverlay.jsx:52 | without an id colour, a label in `colorByLabel` picks that colour |
| BoxOverlay.InheritedLabelThird | frontend/src/components/BoxOverlay.jsx:52 | without an id colour, a label naming an inherited member (`constructor`, `toString`, `__proto__`, ...) is found by `colorByLabel[p.label]`, whatever the id, and the value returned is that member, not a colour |
| BoxOverlay.ProtoKeysAreNotLabels | frontend/src/components/BoxOverlay.jsx:26-40 | no key of `colorByLabel` names an inherited member, so own colours and inherited members never compete |
| BoxOverlay.FallbackThird | frontend/src/components/BoxOverlay.jsx:54-55 | when neither the id nor the label is found in either lookup, an integer id picks palette slot `abs(id) mod 13`, and a NaN id picks slot 0 |
| BoxOverlay.RemIntegral | frontend/src/components/BoxOverlay.jsx:54 | the fallback index is an integer exactly when the id is |
| BoxOverlay.NoColorIffFractionalId | frontend/src/components/BoxOverlay.jsx:49-55 | `undefined` comes back exactly when the id is a non-integer number and the label is found in neither lookup; anything but a colour comes back exactly when there is no id colour, no own label colour, and the label names an inherited member or the id is fractional |
| BoxOverlay.Id12Example | frontend/src/components/BoxOverlay.jsx:22 | class id 12 is drawn in `#0ea5e9` |
| BoxOverlay.Id13Example | frontend/src/components/BoxOverlay.jsx:54-55 | id 13 with a label found in neither lookup wraps around to palette slot 0 |
| BoxOverlay.ConstructorLabelExample | frontend/src/components/BoxOverlay.jsx:52 | id 13 with the label `constructor` yields the inherited `Object` function instead of a colour |
| BoxOverlay.Ready | frontend/src/components/BoxOverlay.jsx:3 | the guard: both widths are numbers other than 0 and NaN |
| BoxOverlay.Truthy | frontend/src/components/BoxOverlay.jsx:3 | JavaScript truthiness of a number: finite and not 0 (NaN and a missing value are falsy) |
| BoxOverlay.VerticalScale | frontend/src/components/BoxOverlay.jsx:6 | `sy` is a number exactly when the natural height is truthy and the displayed height is a number, and then it times the natural height is the displayed height |
| BoxOverlay.IsIdKey | frontend/src/components/BoxOverlay.jsx:51 | `!Number.isNaN(cid) && cid in colorById`: `cid` is a whole number from 0 to 12, the keys of the id table |
| BoxOverlay.MapBox | frontend/src/components/BoxOverlay.jsx:61-65 | with `sx` and `sy` of lines 5-6: left edge and right edge are the box's x1 and x2 scaled by displayed over natural width; the vertical coordinates are finite exactly when the natural height is a non-zero number and the displayed height is a number, and then top edge and bottom edge are y1 and y2 scaled by displayed over natural height |
| BoxOverlay.FallbackIndex | frontend/src/components/BoxOverlay.jsx:54 | the fallback index lies in [0, 13) |
| BoxOverlay.PaletteAt | frontend/src/components/BoxOverlay.jsx:55 | `fallbackPalette[idx]` is a palette entry, and is defined for every integer index in [0, 13) |
| Wire.ToNumber | frontend/src/components/BoxOverlay.jsx:50 | `Number(...)`: `null` gives 0, a number itself, `undefined` and values whose conversion is NaN give NaN (anything converting to a number is represented by `Num`); also used at frontend/src/App.jsx line 77 |
| DiseaseCards.Confidence | frontend/src/App.jsx:77 | `Number(confidence) \|\| 0`: a number is taken as is; a missing, null or non-numeric confidence contributes 0 |
| DiseaseCards.FirstDisease | frontend/src/App.jsx:78-79 | the index found is a disease prediction with that label, or the list's length when there is none |
| DiseaseCards.FirstDiseaseIsFirst | frontend/src/App.jsx:78-79 | no disease prediction with the label comes before that index |
| DiseaseCards.FirstDiseaseSnoc | frontend/src/App.jsx:74-84 | appending a prediction keeps an existing first position, and otherwise makes the new one first when it is a disease with that label |
| DiseaseCards.FirstDiseaseKept | frontend/src/App.jsx:78-83 | a label that already occurred keeps its first position |
| DiseaseCards.CardIndex | frontend/src/App.jsx:78 | `byLabel.has(key)`: the position of the first card with the label, or -1 when no card has it |
| DiseaseCards.AddPrediction | frontend/src/App.jsx:75-83 | one pass of the loop body: a non-disease prediction is skipped, a new label starts a card at the end, and a known label raises its card's `maxConf` |
| DiseaseCards.Grouped | frontend/src/App.jsx:73-84 | the `byLabel` values after the loop, in insertion order; `GroupedSummarizes` states what they are |
| DiseaseCards.CardForSnoc | frontend/src/App.jsx:74-84 | a card summarising a label still summarises it after a prediction with another label, or a non-disease one, is appended |
| DiseaseCards.CardForRaise | frontend/src/App.jsx:81-82 | raising `maxConf` with `Math.max` keeps the card a summary: an upper bound that is attained, with the first advice |
| DiseaseCards.CardForNew | frontend/src/App.jsx:79 | a label's first disease prediction starts a card that summarises it |
| DiseaseCards.SkipSummarizes | frontend/src/App.jsx:75 | a non-disease prediction leaves a correct summary correct |
| DiseaseCards.StartSummarizes | frontend/src/App.jsx:78-79 | a new label appended at the end keeps the cards a summary in first-appearance order |
| DiseaseCards.RaiseSummarizes | frontend/src/App.jsx:80-83 | updating an existing card in place keeps the cards a summary, in the same order |
| DiseaseCards.AddPredictionSummarizes | frontend/src/App.jsx:74-84 | one pass of the loop body keeps the cards a summary of the predictions seen so far |
| DiseaseCards.GroupedSummarizes | frontend/src/App.jsx:73-84 | after the loop there is one card per disease label, ordered by first appearance; each card's `maxConf` is the largest confidence for its label and is attained, and its advice is that of the first prediction with the label |
| DiseaseCards.NoDiseaseNoCards | frontend/src/App.jsx:74-75 | a list with no disease prediction yields no cards |
| DiseaseCards.NonDiseaseIgnored | frontend/src/App.jsx:75 | inserting a non-disease prediction anywhere changes no card |
| DiseaseCards.InsertCard | frontend/src/App.jsx:86 | one insertion step of the sort adds exactly the card to the multiset |
| DiseaseCards.SortByMaxConf | frontend/src/App.jsx:86 | the sort is a permutation of its input |
| DiseaseCards.InsertCardRanked | frontend/src/App.jsx:86 | inserting a card before the first card whose `maxConf` is not larger than its own keeps the list ranked, when the card's label appeared before every label already in the list |
| DiseaseCards.SortRanked | frontend/src/App.jsx:86 | sorting the cards, which come in first-appearance order, gives non-increasing `maxConf`, with ties in first-appearance order (a stable sort) |
| DiseaseCards.CardForUnique | frontend/src/App.jsx:73-84 | two summaries of the same label are the same card |
| DiseaseCards.PermutedCards | frontend/src/App.jsx:86 | reordering cards keeps each one a summary |
| DiseaseCards.RankedDistinct | frontend/src/App.jsx:86 | ranked summaries carry pairwise distinct labels |
| DiseaseCards.SortedCardsFacts | frontend/src/App.jsx:72-87 | the memo's output is a permutation of the grouped cards, with one card per disease label and pairwise distinct labels; each card summarises its label, and the order is by `maxConf` then first appearance |
| DiseaseCards.MirrorsRaise | frontend/src/App.jsx:81-82 | mutating `cur.maxConf` through the `Map` matches the card list updated at the card's position |
| DiseaseCards.MirrorsNew | frontend/src/App.jsx:79 | `byLabel.set` of a new key matches appending the card, and the key goes last in insertion order |
| DiseaseCards.DiseaseCards | frontend/src/App.jsx:72-87 | the loop over a `Map` and the sort give the sorted reference cards, which have every property of `SortedCardsFacts` |
| App.AlertText | frontend/src/App.jsx:58 | the alert is the error message, or the fixed fallback text when the message is empty; it is never empty |
| App.LeafScan.constructor | frontend/src/App.jsx:8-16 | the initial hook values: no file, empty URL, 0x0 sizes, no predictions, not loading, conf 0.25, guide shown; `BASE` from the environment |
| App.LeafScan.OnFile | frontend/src/App.jsx:38-48 | an empty selection changes nothing; otherwise the first file is selected, its URL is shown, predictions are cleared, the guide is hidden and both sizes are reset to 0x0, so no cards and no boxes remain |
| App.LeafScan.CanAnalyze | frontend/src/App.jsx:114 | the analyze button is enabled exactly when a file is chosen and no analysis is running |
| App.LeafScan.Cards | frontend/src/App.jsx:72-87 | the cards of the current predictions: each summarizes one disease label, every disease label has a card, labels are distinct, strongest first and ties in order of first appearance |
| App.LeafScan.Overlay | frontend/src/App.jsx:157-161 | the overlay of the current predictions and sizes: nothing when the guard fails, otherwise one drawn box per prediction |
| App.LeafScan.SetConf | frontend/src/App.jsx:131 | the slider sets `conf` and nothing else |
| App.LeafScan.Analyze | frontend/src/App.jsx:50-62 | without a file nothing changes and nothing is sent; otherwise `predictImage` runs with the current `conf`; success replaces the predictions with `res.predictions` or `[]`; failure keeps them and alerts the message; `loading` ends false and analysis can run again |
| App.LeafScan.OnImgLoad | frontend/src/App.jsx:64-69 | once the element exists, its natural and client sizes are recorded; without an element nothing changes |
| Backend.CheckUpload | backend/app/main.py:61-71 | a missing or non-`image/` content type gives 400 whatever the size; over 8·1024·1024 bytes gives 413; an image the library cannot identify gives 400 "Unreadable image"; otherwise the decoded image passes |
| Backend.ImageType | backend/app/main.py:61 | the content type is present, non-empty and starts with `image/` |
| Backend.UploadBoundary | backend/app/main.py:65-66 | exactly 8 MiB passes, one byte more gives 413, and a missing content type gives 400 |
| Backend.ClampCoord | backend/app/main.py:56 | `int(max(0, v))` is never negative, is 0 for non-positive input, and truncates non-negative input to the integer below it |
| Backend.ClampBox | backend/app/main.py:56 | all four clamped corners are non-negative |
| Backend.ClampMonotone | backend/app/main.py:56 | clamping never reverses the order of two coordinates |
| Backend.ClampKeepsOrder | backend/app/main.py:56 | a box with ordered corners still has ordered corners after clamping |
| Backend.ClampIdempotent | backend/app/main.py:56 | an already clamped box comes back unchanged |
| Backend.ContainsAt | backend/app/main.py:85 | Python's substring test `t in s` holds exactly when `t` occurs in `s` at some index |
| Backend.IsDiseaseIff | backend/app/main.py:85 | a label is a disease exactly when it is not in `HEALTHY_CLASSES` and nowhere spells "non", in any mix of case |
| Backend.IsDisease | backend/app/main.py:85 | `label not in HEALTHY_CLASSES and "non" not in label.lower()`; `IsDiseaseIff` states it per index |
| Backend.LabelOf | backend/app/main.py:84 | a mapped id takes its class name; an unmapped id takes exactly `Decimal.IntText` of the id, which reads back as the id |
| Backend.AdviceOf | backend/app/main.py:57 | `DISEASE_ADVICE.get(label)`: the table's entry for a known label, `None` otherwise |
| Backend.ToPrediction | backend/app/main.py:81-93 | for each detection: the box is `_box` of its corners, so non-negative; confidence and id kept; label is the class name or, for an unmapped id, exactly `Decimal.IntText` of it; `is_disease` per the rule. Advice is `None` for a non-disease prediction and the table's entry (if any) for a disease one |
| Backend.BuildPredictions | backend/app/main.py:78-93 | one prediction per detection, in the model's order |
| Backend.CountOf | backend/app/main.py:97 | `count`: the number of predictions carrying the label |
| Backend.MaxConfOf | backend/app/main.py:99 | `max_conf`: the running maximum from 0.0 over the confidences carrying the label; `MaxConfBounds` and `MaxConfAttained` state its value |
| Backend.StatsOf | backend/app/main.py:95-99 | `by_label`: one entry per label that occurs, holding its `count` and `max_conf` |
| Backend.LabelsInOrder | backend/app/main.py:95-96 | the `by_label` keys are pairwise distinct, no more than the predictions, and non-empty when there are predictions |
| Backend.FirstIndexOf | backend/app/main.py:95-96 | the index of the first prediction with a label: that prediction carries it and none before does; the length when none does |
| Backend.LabelsIffFirst | backend/app/main.py:95-96 | a label is a `by_label` key exactly when it has a first occurrence |
| Backend.LabelsFirstOccurrence | backend/app/main.py:95-96 | the `by_label` keys are in the order in which their labels first occur among the predictions |
| Backend.LabelsIffCounted | backend/app/main.py:95-97 | a label is a key exactly when some prediction carries it |
| Backend.UnseenLabel | backend/app/main.py:96 | `setdefault` starts a label at count 0 and `max_conf` 0.0 |
| Backend.MaxConfBounds | backend/app/main.py:98 | `max_conf` is at least 0.0 and at least every confidence with that label |
| Backend.MaxConfAttained | backend/app/main.py:98 | `max_conf` is 0.0 or the confidence of some prediction with that label, so it is max(0.0, those confidences) |
| Backend.SumCountsSnoc | backend/app/main.py:97 | one more prediction adds one to the count total of the keys holding its label |
| Backend.CountsSum | backend/app/main.py:95-99 | the `by_label` counts add up to the number of predictions |
| Backend.Summarize | backend/app/main.py:95-99 | the loop yields the keys in insertion order and, for each key, its count and `max_conf` |
| Backend.Beats | backend/app/main.py:100 | the key `(count, max_conf)` of one entry compares greater than another's, as Python orders tuples |
| Backend.TopIndex | backend/app/main.py:100 | Python's `max` with the `(count, max_conf)` key: no key beats the chosen one lexicographically, and it beats every earlier key, so on ties the first inserted wins |
| Backend.TopLabel | backend/app/main.py:100 | `None` exactly when the summary is empty; otherwise one of its keys that no key beats on `(count, max_conf)`, and that beats every key inserted before it, so on ties the first inserted wins |
| Backend.TopLabelOfPredictions | backend/app/main.py:95-100 | `top_label` is `None` exactly when there are no predictions; otherwise it is a label some prediction carries, and no label beats it |
| Backend.TopLabelFirstOnTies | backend/app/main.py:95-100 | with predictions present, every other label tied with `top_label` on `(count, max_conf)` first occurs later among the predictions, so the tie goes to the label seen first |
| Backend.Predict | backend/app/main.py:60-107 | the endpoint fails exactly as `CheckUpload` does. Otherwise the response holds the image size, one prediction per detection, the summary, and `top_label` as `TopLabel` chooses it: `None` exactly when nothing was detected, otherwise unbeaten and first inserted among ties |
| Pipeline.ServedPredictionHasColor | frontend/src/components/BoxOverlay.jsx:49-55 | a prediction the backend sends is never drawn with `undefined`, because its class id is an integer, and it gets a palette colour unless its label names an inherited member |
| Pipeline.UploadChecksAgree | backend/app/main.py:61-66 | the client sends a file exactly when the server's type and size checks accept it |
| Pipeline.PredictionsFollowRule | backend/app/main.py:84-92 | every served prediction follows the disease and advice rule for its own label |
| Pipeline.CardOfServed | frontend/src/App.jsx:78-79 | a card built from served predictions names a disease label under the server's rule and carries the table's advice for it |
| Pipeline.CardMatchesSummary | backend/app/main.py:98 | with non-negative confidences, a card's `maxConf` equals the server's `max_conf` for that label |
| Pipeline.ServedCards | frontend/src/App.jsx:72-87 | every card the client shows for a successful reply is a disease label with the table's advice; with non-negative confidences its `maxConf` is the server's `max_conf` |

## Left out

- YOLO inference, model loading, the `torch` context and image decoding
  (backend/app/main.py lines 28 and 68-76): foreign libraries.
  - Whether the image library identifies the bytes is an input
    (`Upload.decoded`).
  - The detections are an input sequence.
  - `conf` and `iou` are handed to the model, so they play no part in the model.
- `Backend.CheckUpload`: decoding failures other than an unidentified image
  are not modelled. Only `UnidentifiedImageError` is caught
  (backend/app/main.py line 70), so an image that is identified but fails in
  `.convert("RGB")` (truncated data raising `OSError`, say) escapes as a 500
  response, in `Backend.Predict` too.
- The class-name table, `HEALTHY_CLASSES` and `DISEASE_ADVICE`: their contents
  are in a module that is not part of this model, so they are parameters
  (`Backend.Config`).
- `int(b.cls[0].item())` is taken to give the class id directly. The model's
  class outputs are whole numbers.
- `elapsed_ms`, `perf_counter`, FastAPI routing, CORS, pydantic validation and
  the `/health` and `/classes` endpoints: clocks and framework plumbing.
  - `Backend.Response` leaves out `elapsed_ms`.
  - `Backend.Response` keeps `by_label` as its keys in insertion order plus a
    map.
- `fetch`, `FormData`, `res.text()` and `res.json()`: network I/O. The answer
  is a parameter (`Api.Reply`).
- `getHealth`, the `apiOk` flag and the startup ping: network I/O with no
  decision logic.
- The window `resize` listener (frontend/src/App.jsx lines 28-36): a browser
  event.
- `URL.createObjectURL`, `alert` and `console.error`:
  - the object URL is a parameter of `OnFile`;
  - the alert text is an out-parameter of `Analyze`.
- JSX markup, CSS, and the `toFixed` percentage texts: presentation.
- The float-to-string conversion of `conf` and `iou` inside the URL: it is the
  parameter `show` of `Api.PredictUrl`.
- IEEE floating point: all confidences and coordinates are exact reals.
  - Negative zero, infinities and NaN arithmetic are not modelled.
  - The only NaN kept is the result of `Number(...)`.
- `Backend.LowerChar`: Python's `str.lower()` is modelled on ASCII letters only.
  - No other character lowercases to `n` or `o`, so the "non" test is
    unaffected.
  - `HEALTHY_CLASSES` membership uses the label as is.
- `DiseaseCards.SortByMaxConf`: `Array.prototype.sort` is a library call. It is
  modelled as a stable insertion sort, which is what the comparator
  `b.maxConf - a.maxConf` gives under the stable sort JavaScript engines are
  required to use.
- `DiseaseCards.DiseaseCards`: the in-place mutation `cur.maxConf = ...` is
  modelled as replacing the map entry. The client holds no other reference to
  the card object while the loop runs.
- `BoxOverlay.Render`: every prediction is an object with a `box`. A `null`
  prediction, or one without `box`, makes the destructuring at
  frontend/src/components/BoxOverlay.jsx line 61 throw and the overlay fail to
  render; the card loop skips a `null` prediction instead (`p?.is_disease`).
  `Wire.Pred` cannot be `null` or lack a box.
- Labels are strings. A `label` that is not a string (for example `null`), or
  that is a `Map` key colliding with another value under JavaScript equality,
  is not modelled.
- `App.LeafScan.Analyze`:
  - It runs to completion in one step. The intermediate render with
    `loading == true` during the `await` is not modelled.
  - Events arriving during the `await` are not modelled either.
  - A `res` that is `null` is not modelled (the JSON body always parses to an
    object here).
- `App.LeafScan.SetConf`: `parseFloat` of the slider text is taken to give a
  number.
- The object URL of a superseded file is never revoked by the source; the model
  does not track URLs beyond the current one.
