/**
 * What `submitPrediction` (frontend/src/App.jsx:131-167) makes of the one request it sends.
 * The request itself (a multipart POST to `/predict`) is not modelled; its outcome arrives
 * as a `Response` value.
 */
module PredictionClient {
  import opened Wrappers

  /** How the request settled. `NetworkError` stands for any exception thrown on the way:
      a failed `fetch`, or a body that `response.json()` cannot parse. */
  datatype Response =
    | Ok(prediction: string, confidence: Option<real>)
    | HttpError(body: string)
    | NetworkError(message: string)

  const HttpFallback: string := "Prediction failed"
  const NetworkFallback: string := "Unable to reach the prediction service."

  /** `a || b` on strings: the empty string is falsy. */
  function OrElse(a: string, b: string): (r: string)
  {
    if a != "" then a else b
  }

  /** The message of the exception the `try` block ends with (line 151, or the thrown error's). */
  function ThrownMessage(r: Response): (m: string)
    requires !r.Ok?
    ensures r.HttpError? ==> m != "" && (r.body != "" ==> m == r.body)
    ensures r.NetworkError? ==> m == r.message
  {
    match r
    case HttpError(body) => OrElse(body, HttpFallback)
    case NetworkError(message) => message
  }

  /** `err.message || 'Unable to reach the prediction service.'` (line 163). */
  function ErrorMessage(r: Response): (m: string)
    requires !r.Ok?
    ensures m != ""
  {
    OrElse(ThrownMessage(r), NetworkFallback)
  }

  /** An HTTP failure shows its body, or "Prediction failed" for an empty body, and never the
      network fallback; a thrown error shows its message, or the network fallback when empty. */
  lemma ErrorMessageCases(r: Response)
    requires !r.Ok?
    ensures r.HttpError? && r.body != "" ==> ErrorMessage(r) == r.body
    ensures r.HttpError? && r.body == "" ==> ErrorMessage(r) == HttpFallback
    ensures r.NetworkError? && r.message != "" ==> ErrorMessage(r) == r.message
    ensures r.NetworkError? && r.message == "" ==> ErrorMessage(r) == NetworkFallback
  {
  }

  /** A 500 answer with body "model unavailable" shows exactly that text. */
  lemma ServerErrorShowsBody()
    ensures ErrorMessage(HttpError("model unavailable")) == "model unavailable"
  {
  }
}
