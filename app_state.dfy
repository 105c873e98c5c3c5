/**
 * The state of the `App` component (frontend/src/App.jsx) and the handlers that
 * change it: choosing a file, running the analysis, and measuring the image once
 * it has loaded. The two derived views, the disease cards and the overlay boxes,
 * are functions of that state.
 *
 * Each `useState` hook is a field; a handler is a method that reassigns the
 * fields it sets. React batches the setters of one handler into one update, so
 * a handler is one step from the state before to the state after. The network
 * reply and the object URL the browser creates are parameters.
 */
module App {
  import opened Common
  import Wire
  import Api
  import BoxOverlay
  import DiseaseCards

  /** The measured sizes of the mounted `<img>` element. */
  datatype ImgElement = ImgElement(
    naturalWidth: Wire.Number,
    naturalHeight: Wire.Number,
    clientWidth: Wire.Number,
    clientHeight: Wire.Number)

  /** `{ width: 0, height: 0 }`. */
  const ZeroSize: BoxOverlay.Size := BoxOverlay.Size(Wire.Finite(0.0), Wire.Finite(0.0))

  /** The alert text used when the error carries no message. */
  const FallbackAlert: string := "API Error! Backend อาจยังไม่รัน"

  /** `err.message || "API Error! ..."`: an empty message falls back to the fixed text. */
  function AlertText(message: string): (t: string)
    ensures t != ""
    ensures message != "" ==> t == message
  {
    if message != "" then message else FallbackAlert
  }

  class LeafScan {
    /** The API root the client talks to (`BASE`). */
    const base: string

    var file: Option<Api.File>
    var imgUrl: string
    var natural: BoxOverlay.Size
    var displayed: BoxOverlay.Size
    var preds: seq<Wire.Pred>
    var loading: bool
    var conf: real
    var showGuide: bool

    /** The initial state of the hooks; `env` is `VITE_API_URL`. */
    constructor(env: Option<string>)
      ensures base == Api.Base(env)
      ensures file.None? && imgUrl == "" && preds == [] && !loading
      ensures natural == ZeroSize && displayed == ZeroSize
      ensures conf == 0.25 && showGuide
    {
      base := Api.Base(env);
      file := None;
      imgUrl := "";
      natural := ZeroSize;
      displayed := ZeroSize;
      preds := [];
      loading := false;
      conf := 0.25;
      showGuide := true;
    }

    /** The analyze button is enabled: a file is chosen and no analysis is running. */
    predicate CanAnalyze()
      reads this
    {
      file.Some? && !loading
    }

    /** The `diseaseCards` memo for the current predictions. */
    function Cards(): (cs: seq<DiseaseCards.Card>)
      reads this
      ensures DiseaseCards.AllCardsFor(preds, cs) && DiseaseCards.Covers(preds, cs)
      ensures DiseaseCards.DistinctNames(cs) && DiseaseCards.RankedOrder(preds, cs)
    {
      DiseaseCards.SortedCardsFacts(preds);
      DiseaseCards.SortByMaxConf(DiseaseCards.Grouped(preds))
    }

    /** The boxes `BoxOverlay` draws for the current predictions and sizes. */
    function Overlay(): (o: seq<BoxOverlay.Drawn>)
      reads this
      ensures !BoxOverlay.Ready(natural, displayed) ==> o == []
      ensures BoxOverlay.Ready(natural, displayed) ==> |o| == |preds|
    {
      BoxOverlay.Render(preds, natural, displayed)
    }

    /**
     * `onFile`: the first selected file replaces the current one, its object URL
     * is shown, earlier predictions are cleared, the guide is hidden and both
     * sizes are reset until the image loads. An empty selection changes nothing.
     */
    method OnFile(files: seq<Api.File>, objectUrl: string)
      modifies this
      ensures files == [] ==> unchanged(this)
      ensures files != [] ==>
        && file == Some(files[0]) && imgUrl == objectUrl && preds == [] && !showGuide
        && natural == ZeroSize && displayed == ZeroSize
        && loading == old(loading) && conf == old(conf)
      ensures files != [] ==> Cards() == [] && Overlay() == []
    {
      if files == [] {
        return;
      }
      file := Some(files[0]);
      imgUrl := objectUrl;
      preds := [];
      showGuide := false;
      natural := ZeroSize;
      displayed := ZeroSize;
    }

    /** The confidence slider's `onChange`. */
    method SetConf(value: real)
      modifies this
      ensures conf == value
      ensures file == old(file) && imgUrl == old(imgUrl) && preds == old(preds) && loading == old(loading)
      ensures natural == old(natural) && displayed == old(displayed) && showGuide == old(showGuide)
    {
      conf := value;
    }

    /**
     * `analyze`: without a file nothing happens. Otherwise `predictImage` runs
     * with the current `conf` (and the default `iou`); `reply` is what the
     * network answers if a request is sent. On success the predictions are
     * replaced by `res.predictions || []`; on failure they are kept and the
     * error is alerted. Either way `loading` ends false.
     */
    method Analyze(reply: Api.Reply, show: real -> string) returns (sent: Option<Api.Request>, alert: Option<string>)
      modifies this
      ensures old(file).None? ==> unchanged(this) && sent.None? && alert.None?
      ensures old(file).Some? ==>
        var o := Api.PredictImage(old(file), Api.Options(Some(old(conf)), None), base, show, reply);
        && sent == o.sent
        && (o.result.Ok? ==> preds == o.result.value.predictions.GetOr([]) && alert.None?)
        && (o.result.Err? ==> preds == old(preds) && alert == Some(AlertText(o.result.error)))
      ensures old(file).Some? ==> !loading && CanAnalyze()
      ensures file == old(file) && imgUrl == old(imgUrl) && conf == old(conf)
      ensures natural == old(natural) && displayed == old(displayed) && showGuide == old(showGuide)
    {
      if file.None? {
        return None, None;
      }
      loading := true;
      var o := Api.PredictImage(file, Api.Options(Some(conf), None), base, show, reply);
      sent := o.sent;
      match o.result {
        case Ok(body) =>
          preds := body.predictions.GetOr([]);
          alert := None;
        case Err(message) =>
          alert := Some(AlertText(message));
      }
      loading := false;
    }

    /**
     * `onImgLoad`: once the image element exists, its natural and displayed
     * sizes are recorded; without an element nothing changes.
     */
    method OnImgLoad(el: Option<ImgElement>)
      modifies this
      ensures el.None? ==> unchanged(this)
      ensures el.Some? ==>
        && natural == BoxOverlay.Size(el.value.naturalWidth, el.value.naturalHeight)
        && displayed == BoxOverlay.Size(el.value.clientWidth, el.value.clientHeight)
      ensures file == old(file) && imgUrl == old(imgUrl) && preds == old(preds)
      ensures loading == old(loading) && conf == old(conf) && showGuide == old(showGuide)
    {
      if el.None? {
        return;
      }
      natural := BoxOverlay.Size(el.value.naturalWidth, el.value.naturalHeight);
      displayed := BoxOverlay.Size(el.value.clientWidth, el.value.clientHeight);
    }
  }
}
