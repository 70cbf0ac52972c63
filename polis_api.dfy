/** The Polis HTTP endpoints the utilities read, and the caller-supplied
    transport as the only I/O seam. `fetchJson` (a GET through the transport
    followed by `res.json()`) is abstracted as one `FetchResult` per URL: the
    decoded body, or the message of whatever it threw. */
module PolisApi {
  import opened JsValues

  datatype FetchResult = Ok(body: Json) | Err(message: string)

  /** What `fetchJson(url, fetchFn)` yields for each URL. */
  type Transport = string -> FetchResult

  /** The four requests the pipeline can issue. */
  datatype Endpoint =
    | Reports(reportId: string)
    | Conversations(convoId: string)
    | Math(convoId: string)
    | Comments(convoId: string)

  function UrlOf(baseUrl: string, e: Endpoint): string {
    match e
    case Reports(id) => baseUrl + "api/v3/reports?report_id=" + id
    case Conversations(id) => baseUrl + "api/v3/conversations?conversation_id=" + id
    case Math(id) => baseUrl + "api/v3/math/pca2?conversation_id=" + id
    case Comments(id) =>
      baseUrl + "api/v3/comments?conversation_id=" + id + "&moderation=true&include_voting_patterns=true"
  }

  /** The response the transport gives for an endpoint. */
  function Fetch(transport: Transport, baseUrl: string, e: Endpoint): FetchResult {
    transport(UrlOf(baseUrl, e))
  }
}
