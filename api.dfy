/**
 * The browser client's API wrapper (frontend/src/api.js): the base URL taken
 * from the environment, the checks `predictImage` makes before it sends
 * anything, the request URL, and the error text for a failed reply.
 * `fetch`, `FormData` and JSON parsing are not modelled; the network's answer
 * is a parameter (`Reply`).
 */
module Api {
  import opened Common
  import Decimal
  import Wire

  const DefaultBase: string := "http://127.0.0.1:8000"

  /** The client's upload bound: 8 MiB. */
  const MaxFileSize: nat := 8 * 1024 * 1024

  const DefaultConf: real := 0.25
  const DefaultIou: real := 0.45

  /** The browser `File` fields the client reads: its name, MIME type and size in bytes. */
  datatype File = File(name: string, mime: string, size: nat)

  /** `s.replace(/\/+$/, "")`: the longest prefix of `s` that is followed only by slashes. */
  function StripTrailingSlashes(s: string): (r: string)
    ensures |r| <= |s| && r == s[..|r|]
    ensures r == [] || r[|r| - 1] != '/'
    ensures forall i :: |r| <= i < |s| ==> s[i] == '/'
  {
    if s != [] && s[|s| - 1] == '/' then StripTrailingSlashes(s[..|s| - 1]) else s
  }

  /**
   * `BASE`: the configured URL without trailing slashes, or the loopback
   * default when the variable is unset (`None`) or strips to "".
   */
  function Base(env: Option<string>): (b: string)
    ensures env.None? ==> b == DefaultBase
    ensures b != [] && b[|b| - 1] != '/'
  {
    if env.None? then DefaultBase
    else
      var stripped := StripTrailingSlashes(env.value);
      if stripped == [] then DefaultBase else stripped
  }

  /** Stripping twice is stripping once. */
  lemma {:induction false} StripIdempotent(s: string)
    ensures StripTrailingSlashes(StripTrailingSlashes(s)) == StripTrailingSlashes(s)
  {
    var r := StripTrailingSlashes(s);
    assert r == [] || r[|r| - 1] != '/';
  }

  /** A configured URL is kept exactly up to its trailing slashes, which are all removed. */
  lemma BaseFromEnv(v: string)
    ensures var b := Base(Some(v));
      || (b == DefaultBase && forall i :: 0 <= i < |v| ==> v[i] == '/')
      || (|b| <= |v| && b == v[..|b|] && forall i :: |b| <= i < |v| ==> v[i] == '/')
  {
  }

  /** Feeding `BASE` back in as the configured URL gives `BASE` again. */
  lemma BaseIdempotent(env: Option<string>)
    ensures Base(Some(Base(env))) == Base(env)
  {
    StripIdempotent(if env.None? then DefaultBase else env.value);
    assert StripTrailingSlashes(DefaultBase) == DefaultBase;
  }

  /** The three reasons `predictImage` refuses a file before building a request. */
  datatype UploadError = NoFile | NotAnImage | TooLarge

  /** The `message` of the thrown `Error` for each refusal. */
  function UploadErrorText(e: UploadError): string {
    match e
    case NoFile => "no file"
    case NotAnImage => "please upload an image file"
    case TooLarge => "file too large (> 8 MB)"
  }

  /** The checks of `predictImage`, in source order: presence, then type, then size. */
  function CheckFile(file: Option<File>): (r: Result<File, UploadError>)
    ensures file.None? ==> r == Err(NoFile)
    ensures file.Some? && !StartsWith(file.value.mime, "image/") ==> r == Err(NotAnImage)
    ensures r == Err(TooLarge) <==>
      file.Some? && StartsWith(file.value.mime, "image/") && file.value.size > 8388608
    ensures r.Ok? <==>
      file.Some? && StartsWith(file.value.mime, "image/") && file.value.size <= 8388608
    ensures r.Ok? ==> r.value == file.value
  {
    if file.None? then Err(NoFile)
    else if !StartsWith(file.value.mime, "image/") then Err(NotAnImage)
    else if file.value.size > MaxFileSize then Err(TooLarge)
    else Ok(file.value)
  }

  /** `conf` and `iou` as passed by the caller; `None` is an absent property, which takes the default. */
  datatype Options = Options(conf: Option<real>, iou: Option<real>)

  /** What `predictImage` sends: the URL and the multipart field holding the file. */
  datatype Request = Request(url: string, field: string, file: File)

  /**
   * The request URL. `show` is JavaScript's number-to-string conversion inside
   * the template literal, which is not modelled.
   */
  function PredictUrl(base: string, conf: real, iou: real, show: real -> string): string {
    base + "/predict?conf=" + show(conf) + "&iou=" + show(iou)
  }

  /** The URL begins with `BASE`, joined to the path by exactly one slash. */
  lemma PredictUrlJoin(env: Option<string>, conf: real, iou: real, show: real -> string)
    ensures var b := Base(env); var u := PredictUrl(b, conf, iou, show);
      && |b| + 14 <= |u|
      && u[..|b|] == b
      && u[|b| - 1] != '/'
      && u[|b|..|b| + 14] == "/predict?conf="
  {
    var b := Base(env);
    var u := PredictUrl(b, conf, iou, show);
    assert u == b + ("/predict?conf=" + show(conf) + "&iou=" + show(iou));
  }

  /** The validation, then the request; `None` when the file is refused and nothing is sent. */
  function BuildRequest(file: Option<File>, opts: Options, base: string, show: real -> string)
    : (r: Result<Request, UploadError>)
    ensures r.Err? <==> CheckFile(file).Err?
    ensures r.Err? ==> r.error == CheckFile(file).error
    ensures r.Ok? ==> r.value.file == file.value && r.value.field == "image"
    ensures r.Ok? ==>
      r.value.url == PredictUrl(base, opts.conf.GetOr(0.25), opts.iou.GetOr(0.45), show)
  {
    match CheckFile(file)
    case Err(e) => Err(e)
    case Ok(f) =>
      Ok(Request(PredictUrl(base, opts.conf.GetOr(DefaultConf), opts.iou.GetOr(DefaultIou), show), "image", f))
  }

  /**
   * The network's answer to a request: `fetch` rejected with a message, or a
   * reply with its status, status text, body text (`None` when reading it
   * failed) and parsed JSON (an error message when parsing failed).
   */
  datatype Reply =
    | Unreachable(message: string)
    | Response(status: int, statusText: string, text: Option<string>, json: Result<Wire.Body, string>)

  /** `API <status>: <body>`, falling back to the status text when the body is empty. */
  function StatusMessage(status: int, text: string, statusText: string): string {
    "API " + Decimal.IntText(status) + ": " + (if text != "" then text else statusText)
  }

  /** The index of the first `c` in `s`, or `|s|`. */
  function IndexOf(s: string, c: char): (k: nat)
    ensures k <= |s|
    ensures k < |s| ==> s[k] == c
    ensures forall i :: 0 <= i < k ==> s[i] != c
  {
    if s == [] then 0 else if s[0] == c then 0 else 1 + IndexOf(s[1..], c)
  }

  /** Reads a status message back into its status code and detail text. */
  function ParseStatusMessage(m: string): Option<(int, string)> {
    if !StartsWith(m, "API ") then None
    else
      var rest := m[4..];
      var k := IndexOf(rest, ':');
      if k + 2 > |rest| || rest[k..k + 2] != ": " then None
      else
        match Decimal.ParseInt(rest[..k])
        case None => None
        case Some(status) => Some((status, rest[k + 2..]))
  }

  /** The error text of a failed reply carries the status code and the body (or status text) intact. */
  lemma StatusMessageRoundTrip(status: int, text: string, statusText: string)
    ensures ParseStatusMessage(StatusMessage(status, text, statusText))
      == Some((status, if text != "" then text else statusText))
  {
    var d := Decimal.IntText(status);
    var detail := if text != "" then text else statusText;
    var m := StatusMessage(status, text, statusText);
    assert m == "API " + (d + ": " + detail);
    var rest := m[4..];
    assert rest == d + ": " + detail;
    assert rest[|d|] == ':';
    assert IndexOf(rest, ':') == |d|;
    assert rest[..|d|] == d;
    assert rest[|d| + 2..] == detail;
    Decimal.IntTextRoundTrip(status);
  }

  /** What `predictImage` yields once a request was sent: the JSON body or the error message. */
  function Settle(reply: Reply): (r: Result<Wire.Body, string>)
    ensures reply.Unreachable? ==> r == Err(reply.message)
    ensures reply.Response? && 200 <= reply.status <= 299 ==> r == reply.json
    ensures reply.Response? && !(200 <= reply.status <= 299) ==>
      r == Err(StatusMessage(reply.status, reply.text.GetOr(""), reply.statusText))
    ensures reply.Response? && !(200 <= reply.status <= 299) ==>
      r.Err? && ParseStatusMessage(r.error) ==
        Some((reply.status, if reply.text.GetOr("") != "" then reply.text.value else reply.statusText))
  {
    match reply
    case Unreachable(m) => Err(m)
    case Response(status, statusText, text, json) =>
      if 200 <= status <= 299 then json
      else
        StatusMessageRoundTrip(status, text.GetOr(""), statusText);
        Err(StatusMessage(status, text.GetOr(""), statusText))
  }

  /** The outcome of one `predictImage` call: the request sent, if any, and the result. */
  datatype Outcome = Outcome(sent: Option<Request>, result: Result<Wire.Body, string>)

  /**
   * `predictImage(file, opts)`: a refused file fails with its message and sends
   * nothing, so `reply` plays no part; otherwise one request is sent and its
   * reply settles the call.
   */
  function PredictImage(file: Option<File>, opts: Options, base: string, show: real -> string, reply: Reply)
    : (o: Outcome)
    ensures o.sent.None? <==> CheckFile(file).Err?
    ensures CheckFile(file).Err? ==> o.result == Err(UploadErrorText(CheckFile(file).error))
    ensures o.sent.Some? ==> o.sent.value.file == file.value && o.result == Settle(reply)
  {
    match BuildRequest(file, opts, base, show)
    case Err(e) => Outcome(None, Err(UploadErrorText(e)))
    case Ok(req) => Outcome(Some(req), Settle(reply))
  }

  /** A refused file fails the same way whatever the network would have answered. */
  lemma RefusalIgnoresNetwork(file: Option<File>, opts: Options, base: string, show: real -> string, r1: Reply, r2: Reply)
    requires CheckFile(file).Err?
    ensures PredictImage(file, opts, base, show, r1) == PredictImage(file, opts, base, show, r2)
  {
  }

  /** The size bound is inclusive: exactly 8 MiB passes, one byte more is refused. */
  lemma SizeBoundary(name: string, mime: string)
    requires StartsWith(mime, "image/")
    ensures CheckFile(Some(File(name, mime, 8 * 1024 * 1024))).Ok?
    ensures CheckFile(Some(File(name, mime, 8 * 1024 * 1024 + 1))) == Err(TooLarge)
  {
  }
}
