/** `getPolisDetails` of lib/polis-utils.js: parse the input, resolve a report
    id to its conversation, fetch the conversation metadata, the math
    (analytics) payload and, unless `minimal`, the comment languages, and
    assemble the summary record.

    The injected `fetchFn` becomes a `Transport`; every request the pipeline
    issues is recorded in a trace of `Endpoint`s. The rendering of the
    creation date (`parseInt`, `new Date`, `toISOString`) is the parameter
    `renderDate`, which yields the message of the exception where one of
    them throws. */
module PolisDetails {
  import opened JsValues
  import opened PolisInput
  import opened PolisApi
  import opened CommentLanguages

  const Yes: string := "\U{2705} yes"
  const VisibleNo: string := "\U{2716}\U{FE0F} no"
  const ClosedNo: string := "\U{274C} no"

  const ReportLookupFailed: string := "Report lookup failed"
  const NoConversationResolved: string := "No conversation ID resolved"

  /** The message of the TypeError thrown by reading property `key` of null. */
  function NullReadMessage(key: string): string {
    "Cannot read properties of null (reading '" + key + "')"
  }

  /** The record `getPolisDetails` resolves to on success. Fields that the
      source copies from a payload keep their JSON value. */
  datatype Summary = Summary(
    date: string,
    title: Json,
    convoUrl: string,
    visible: string,
    closed: string,
    reportUrl: string,
    voters: Json,
    groups: Json,
    comments: Json,
    meta: Json,
    lang: Json,
    owner: Json)

  datatype Outcome =
    | Success(summary: Summary)
    | Failure(error: string, cause: Option<string>)  // the `{ error, cause }` records
    | Rejected(reason: string)                       // the returned promise rejects

  /** `new Date(...).toISOString().split("T")[0]` for a truthy `created` that
      converts to a primitive: the day as `YYYY-MM-DD`, or the message of what
      `toISOString` throws (a RangeError for an invalid date). */
  datatype DateText = Day(text: string) | Threw(message: string)

  type DateRenderer = Json -> DateText

  /** `new Date(convo.created)` throws: `created` is truthy but is an object
      (or holds one) that cannot be converted to a primitive. */
  predicate NewDateThrows(convo: Json)
    requires !convo.JNull?
  {
    Truthy(Prop(convo, "created")) && !Printable(Prop(convo, "created"))
  }

  /** What one call yields, with the requests it issued in order. */
  datatype CallResult = CallResult(outcome: Outcome, trace: seq<Endpoint>)

  // ---------------------------------------------------------------------------
  // Resolving the conversation id

  datatype Resolution = Stop(outcome: Outcome) | Proceed(convoId: Json)

  /** The request the report step issues, if any. */
  function ReportTrace(p: Parsed): seq<Endpoint> {
    if p.reportId.Some? then [Reports(p.reportId.value)] else []
  }

  /** `reports[0]?.conversation_id` inside the `try`; any throw, including
      indexing a null payload, is the report lookup failure. */
  function LookupReport(response: FetchResult): (r: Resolution)
    ensures r.Stop? <==> response.Err? || response.body.JNull?
    ensures r.Stop? ==> r.outcome.Failure? && r.outcome.error == ReportLookupFailed && r.outcome.cause.Some?
    ensures response.Ok? && response.body == JArr([]) ==> r == Proceed(JNull)
  {
    match response
    case Err(message) => Stop(Failure(ReportLookupFailed, Some(message)))
    case Ok(reports) =>
      if reports.JNull? then Stop(Failure(ReportLookupFailed, Some(NullReadMessage("0"))))
      else Proceed(OptProp(Prop(reports, "0"), "conversation_id"))
  }

  /** The two hard exits: a failed report lookup, then a falsy conversation id. */
  function ResolveConversation(p: Parsed, transport: Transport): (r: Resolution)
    ensures r.Proceed? ==> Truthy(r.convoId)
    ensures r.Stop? ==> r.outcome.Failure?
  {
    var found :=
      if p.reportId.Some? then LookupReport(Fetch(transport, p.baseUrl, Reports(p.reportId.value)))
      else Proceed(if p.convoId.Some? then JStr(p.convoId.value) else JNull);
    match found
    case Stop(_) => found
    case Proceed(id) => if Truthy(id) then found else Stop(Failure(NoConversationResolved, None))
  }

  // ---------------------------------------------------------------------------
  // The enrichment fetches, each a soft failure

  /** The conversations payload is an array, a `{conversation}` wrapper or the
      record itself; reading `.conversation` of a missing first element or of
      a null payload throws, which the source swallows. */
  function NormalizeConversation(response: Json): (r: Option<Json>)
    ensures r.None? <==>
              response.JNull? || (response.JArr? && (response.items == [] || response.items[0].JNull?))
    ensures r.Some? ==> !r.value.JNull?
  {
    if response.JArr? then
      var first := Prop(response, "0");
      if first.JNull? then None else Some(Or(Prop(first, "conversation"), first))
    else if response.JNull? then None
    else Some(Or(Prop(response, "conversation"), response))
  }

  /** `convo`: the normalized payload, or `{}` where the fetch or the normalization threw. */
  function ConversationOf(response: FetchResult): (c: Json)
    ensures !c.JNull?
  {
    if response.Ok? && NormalizeConversation(response.body).Some?
    then NormalizeConversation(response.body).value
    else EmptyObject
  }

  /** `mathData`: the payload, or `{}` where the fetch threw. */
  function MathOf(response: FetchResult): Json {
    if response.Ok? then response.body else EmptyObject
  }

  /** The conversation record the summary is built from. */
  function ConvoFor(p: Parsed, id: string, minimal: bool, transport: Transport): (c: Json)
    ensures !c.JNull?
  {
    if minimal then EmptyObject else ConversationOf(Fetch(transport, p.baseUrl, Conversations(id)))
  }

  function MathFor(p: Parsed, id: string, transport: Transport): Json {
    MathOf(Fetch(transport, p.baseUrl, Math(id)))
  }

  /** `convo.lang ?? "---"` */
  function DeclaredLang(convo: Json): Json
    requires !convo.JNull?
  {
    Coalesce(Prop(convo, "lang"), Dashes)
  }

  /** `lang`: the comment languages unless minimal or their fetch failed. */
  function LangFor(p: Parsed, id: string, minimal: bool, transport: Transport, convo: Json): (r: Json)
    requires !convo.JNull?
    ensures !r.JNull?
    ensures minimal ==> r == Coalesce(Prop(convo, "lang"), Dashes)
  {
    if minimal then DeclaredLang(convo)
    else match FetchedLanguages(Fetch(transport, p.baseUrl, Comments(id)))
         case Some(langs) => JStr(langs)
         case None => DeclaredLang(convo)
  }

  /** The requests after the id is resolved: metadata, math, comments. */
  function EnrichmentTrace(id: string, minimal: bool): seq<Endpoint> {
    if minimal then [Math(id)] else [Conversations(id), Math(id), Comments(id)]
  }

  // ---------------------------------------------------------------------------
  // The record

  /** `reportUrl`, or None where `${convo.report_id}` throws. */
  function ReportUrl(baseUrl: string, reportId: Option<string>, convo: Json): (r: Option<string>)
    requires !convo.JNull?
    ensures r.None? <==>
              reportId.None? && Truthy(Prop(convo, "report_id")) && !Printable(Prop(convo, "report_id"))
    ensures r.Some? ==> r.value == NoValue || baseUrl + "report/" <= r.value
    ensures reportId.Some? ==> r.Some? && r.value != NoValue
  {
    var declared := Prop(convo, "report_id");
    if reportId.Some? then Some(baseUrl + "report/" + reportId.value)
    else if !Truthy(declared) then Some(NoValue)
    else if Printable(declared) then Some(baseUrl + "report/" + Stringify(declared))
    else None
  }

  /** `ts` and the returned object literal, whose fields are evaluated in
      order. The date throws where `new Date` cannot convert `created` or its
      rendering throws, `convoUrl` and `reportUrl` where `String` cannot
      convert the interpolated id, and reading `mathData.n` throws when the
      math payload was JSON null. */
  function Assemble(baseUrl: string, reportId: Option<string>, convoId: Json,
                    convo: Json, math: Json, lang: Json, renderDate: DateRenderer): (r: Outcome)
    requires !convo.JNull?
    ensures !r.Failure?
    ensures NewDateThrows(convo) ==> r == Rejected(NotPrimitiveMessage)
    ensures r.Success? <==>
              && !NewDateThrows(convo)
              && (Truthy(Prop(convo, "created")) ==> renderDate(Prop(convo, "created")).Day?)
              && Printable(convoId) && ReportUrl(baseUrl, reportId, convo).Some? && !math.JNull?
    ensures r.Success? ==> r.summary.convoUrl == baseUrl + Stringify(convoId) && r.summary.lang == lang
  {
    var created := Prop(convo, "created");
    var date := if !Truthy(created) then Day(NoValue)
                else if !Printable(created) then Threw(NotPrimitiveMessage)
                else renderDate(created);
    if date.Threw? then Rejected(date.message)
    else if !Printable(convoId) then Rejected(NotPrimitiveMessage)
    else if ReportUrl(baseUrl, reportId, convo).None? then Rejected(NotPrimitiveMessage)
    else if math.JNull? then Rejected(NullReadMessage("n"))
    else Success(Summary(
      date := date.text,
      title := Or(Or(Prop(convo, "topic"), Prop(convo, "title")), Dashes),
      convoUrl := baseUrl + Stringify(convoId),
      visible := if Prop(convo, "vis_type") == JNum(1) then Yes else VisibleNo,
      closed := if Prop(convo, "is_active") == JBool(false) then Yes else ClosedNo,
      reportUrl := ReportUrl(baseUrl, reportId, convo).value,
      voters := Coalesce(Prop(math, "n"), Dashes),
      groups := Coalesce(OptProp(Prop(math, "group-clusters"), "length"),
                         Coalesce(Prop(convo, "group_count"), Dashes)),
      comments := Coalesce(Prop(math, "n-cmts"), Coalesce(Prop(convo, "comment_count"), Dashes)),
      meta := Coalesce(OptProp(Prop(math, "meta-tids"), "length"), Dashes),
      lang := lang,
      owner := Or(Or(Prop(convo, "ownername"), Prop(convo, "owner")), Dashes)))
  }

  // ---------------------------------------------------------------------------
  // The pipeline

  /** `getPolisDetails(input, { fetchFn, minimal })` as a function of its inputs. */
  function Resolve(input: string, minimal: bool, transport: Transport, renderDate: DateRenderer): (r: CallResult)
    ensures r.trace == [] <==>
              Parse(input).reportId.None? && r.outcome == Failure(NoConversationResolved, None)
  {
    ResolveParsed(Parse(input), minimal, transport, renderDate)
  }

  /** The pipeline after `parsePolisInput`. The report request comes first,
      at most three requests follow it, and a failure stops after the report
      request. */
  function ResolveParsed(p: Parsed, minimal: bool, transport: Transport, renderDate: DateRenderer): (r: CallResult)
    ensures ReportTrace(p) <= r.trace && |r.trace| <= |ReportTrace(p)| + 3
    ensures r.outcome.Failure? ==> r.trace == ReportTrace(p)
    ensures r.trace == [] ==> r.outcome == Failure(NoConversationResolved, None)
  {
    match ResolveConversation(p, transport)
    case Stop(out) => CallResult(out, ReportTrace(p))
    case Proceed(convoId) =>
      if Printable(convoId) then
        var id := Stringify(convoId);
        var convo := ConvoFor(p, id, minimal, transport);
        var math := MathFor(p, id, transport);
        if NewDateThrows(convo) then
          // `ts` is computed after the math request and before the comments one.
          CallResult(Rejected(NotPrimitiveMessage), ReportTrace(p) + [Conversations(id), Math(id)])
        else
          var lang := LangFor(p, id, minimal, transport, convo);
          CallResult(Assemble(p.baseUrl, p.reportId, convoId, convo, math, lang, renderDate),
                     ReportTrace(p) + EnrichmentTrace(id, minimal))
      else
        // Each request URL interpolates `convoId` inside its `try`, so each
        // throws before its request is issued and is swallowed: `convo`,
        // `mathData` and `lang` keep their initial values.
        CallResult(Assemble(p.baseUrl, p.reportId, convoId, EmptyObject, EmptyObject,
                            DeclaredLang(EmptyObject), renderDate),
                   ReportTrace(p))
  }

  /** `getPolisDetails`, step by step as the source reassigns `convoId`,
      `convo`, `mathData` and `lang`, recording each request it issues. */
  method GetPolisDetails(input: string, minimal: bool, transport: Transport, renderDate: DateRenderer)
    returns (out: Outcome, trace: seq<Endpoint>)
    ensures CallResult(out, trace) == Resolve(input, minimal, transport, renderDate)
  {
    out, trace := DetailsFor(Parse(input), minimal, transport, renderDate);
  }

  /** The pipeline after `parsePolisInput`, step by step as the source
      reassigns `convoId`, `convo`, `mathData` and `lang`, recording each
      request it issues. */
  method DetailsFor(p: Parsed, minimal: bool, transport: Transport, renderDate: DateRenderer)
    returns (out: Outcome, trace: seq<Endpoint>)
    ensures CallResult(out, trace) == ResolveParsed(p, minimal, transport, renderDate)
  {
    var convoId: Json := if p.convoId.Some? then JStr(p.convoId.value) else JNull;
    trace := [];

    if p.reportId.Some? {
      trace := trace + [Reports(p.reportId.value)];
      var response := Fetch(transport, p.baseUrl, Reports(p.reportId.value));
      if response.Err? {
        out := Failure(ReportLookupFailed, Some(response.message));
        assert ResolveConversation(p, transport) == Stop(out);
        return;
      }
      var reports := response.body;
      if reports.JNull? {
        out := Failure(ReportLookupFailed, Some(NullReadMessage("0")));
        assert ResolveConversation(p, transport) == Stop(out);
        return;
      }
      convoId := OptProp(Prop(reports, "0"), "conversation_id");
    }

    if !Truthy(convoId) {
      out := Failure(NoConversationResolved, None);
      assert ResolveConversation(p, transport) == Stop(out);
      return;
    }
    assert trace == ReportTrace(p);

    if !Printable(convoId) {
      // Each request URL below interpolates `convoId`, so each throws inside
      // its `try` before the request is issued and the exception is
      // swallowed; the record then throws at `convoUrl`.
      out := Assemble(p.baseUrl, p.reportId, convoId, EmptyObject, EmptyObject, DeclaredLang(EmptyObject), renderDate);
      return;
    }
    var id := Stringify(convoId);

    var convo := EmptyObject;
    var mathData := EmptyObject;

    if !minimal {
      trace := trace + [Conversations(id)];
      var response := Fetch(transport, p.baseUrl, Conversations(id));
      if response.Ok? {
        var normalized := NormalizeConversation(response.body);
        if normalized.Some? {
          convo := normalized.value;
        }
      }
    }

    trace := trace + [Math(id)];
    var response := Fetch(transport, p.baseUrl, Math(id));
    if response.Ok? {
      mathData := response.body;
    }

    assert ResolveConversation(p, transport) == Proceed(convoId);
    assert convo == ConvoFor(p, id, minimal, transport);
    assert mathData == MathFor(p, id, transport);
    if NewDateThrows(convo) {
      // `new Date(convo.created)` throws outside any `try`.
      assert !minimal;
      assert trace == ReportTrace(p) + [Conversations(id)] + [Math(id)];
      assert trace == ReportTrace(p) + [Conversations(id), Math(id)];
      out := Rejected(NotPrimitiveMessage);
      return;
    }

    var lang := DeclaredLang(convo);
    if !minimal {
      trace := trace + [Comments(id)];
      var langs := CommentLangs(p.baseUrl, id, transport);
      if langs.Some? {
        lang := JStr(langs.value);
      } else {
        lang := DeclaredLang(convo);
      }
    }

    assert lang == LangFor(p, id, minimal, transport, convo);
    if minimal {
      assert trace == ReportTrace(p) + [Math(id)];
      assert trace == ReportTrace(p) + EnrichmentTrace(id, minimal);
    } else {
      assert trace == ReportTrace(p) + [Conversations(id)] + [Math(id)] + [Comments(id)];
      AppendThree(ReportTrace(p), Conversations(id), Math(id), Comments(id));
      assert trace == ReportTrace(p) + EnrichmentTrace(id, minimal);
    }
    out := Assemble(p.baseUrl, p.reportId, convoId, convo, mathData, lang, renderDate);
    ProceedRun(p, minimal, transport, renderDate);
  }

  /** Unfolding helper: a resolved call is the record assembled from the
      fetched payloads, after the report request and the enrichment requests,
      except that a `created` which `new Date` cannot convert stops it before
      the comments request. */
  lemma ProceedRun(p: Parsed, minimal: bool, transport: Transport, renderDate: DateRenderer)
    requires ResolveConversation(p, transport).Proceed?
    requires Printable(ResolveConversation(p, transport).convoId)
    ensures var convoId := ResolveConversation(p, transport).convoId;
      var id := Stringify(convoId);
      var convo := ConvoFor(p, id, minimal, transport);
      var run := ResolveParsed(p, minimal, transport, renderDate);
      && run.outcome == Assemble(p.baseUrl, p.reportId, convoId, convo, MathFor(p, id, transport),
                                 LangFor(p, id, minimal, transport, convo), renderDate)
      && (!NewDateThrows(convo) ==> run.trace == ReportTrace(p) + EnrichmentTrace(id, minimal))
      && (NewDateThrows(convo) ==>
            !minimal && run.trace == ReportTrace(p) + [Conversations(id), Math(id)])
  {
  }

  /** The record does not depend on `lang` except through its `lang` field. */
  lemma AssembleLang(baseUrl: string, reportId: Option<string>, convoId: Json,
                     convo: Json, math: Json, lang1: Json, lang2: Json, renderDate: DateRenderer)
    requires !convo.JNull?
    ensures var o1 := Assemble(baseUrl, reportId, convoId, convo, math, lang1, renderDate);
      var o2 := Assemble(baseUrl, reportId, convoId, convo, math, lang2, renderDate);
      && (o1.Success? <==> o2.Success?)
      && (!o1.Success? ==> o2 == o1)
      && (o1.Success? ==> o2 == Success(o1.summary.(lang := lang2)) && o1.summary.lang == lang1)
  {
  }

  /** `groups`, read off the record: the clusters' length, else `group_count`, else "---". */
  lemma AssembleGroups(baseUrl: string, reportId: Option<string>, convoId: Json,
                       convo: Json, math: Json, lang: Json, renderDate: DateRenderer)
    requires !convo.JNull?
    requires Assemble(baseUrl, reportId, convoId, convo, math, lang, renderDate).Success?
    ensures var clusters := Prop(math, "group-clusters");
      var s := Assemble(baseUrl, reportId, convoId, convo, math, lang, renderDate).summary;
      && (clusters.JArr? ==> s.groups == JNum(|clusters.items|))
      && (clusters.JNull? && !Prop(convo, "group_count").JNull? ==> s.groups == Prop(convo, "group_count"))
      && (clusters.JNull? && Prop(convo, "group_count").JNull? ==> s.groups == Dashes)
  {
    var clusters := Prop(math, "group-clusters");
    if clusters.JArr? {
      assert OptProp(clusters, "length") == JNum(|clusters.items|);
    }
  }

  /** The record built from the empty conversation `{}`: no date, title,
      owner or report link of its own, not visible, not closed, and counts
      from the math payload alone; it rejects where the id cannot be
      converted or the math payload is null. */
  lemma AssembleWithoutMetadata(baseUrl: string, reportId: Option<string>, convoId: Json,
                                math: Json, lang: Json, renderDate: DateRenderer)
    ensures var o := Assemble(baseUrl, reportId, convoId, EmptyObject, math, lang, renderDate);
      && (o.Success? <==> Printable(convoId) && !math.JNull?)
      && (!Printable(convoId) ==> o == Rejected(NotPrimitiveMessage))
      && (o.Success? ==>
            var s := o.summary;
            && s.date == NoValue && s.title == Dashes && s.owner == Dashes && s.lang == lang
            && s.visible == VisibleNo && s.closed == ClosedNo
            && s.reportUrl == (if reportId.Some? then baseUrl + "report/" + reportId.value else NoValue)
            && s.voters == Coalesce(Prop(math, "n"), Dashes)
            && s.comments == Coalesce(Prop(math, "n-cmts"), Dashes)
            && s.groups == Coalesce(OptProp(Prop(math, "group-clusters"), "length"), Dashes)
            && s.meta == Coalesce(OptProp(Prop(math, "meta-tids"), "length"), Dashes))
  {
  }

  lemma AppendThree<T>(s: seq<T>, a: T, b: T, c: T)
    ensures s + [a] + [b] + [c] == s + [a, b, c]
  {
  }

  // ---------------------------------------------------------------------------
  // Hard failures

  /** A failed report lookup returns "Report lookup failed" with the thrown
      message and issues no further request. */
  lemma ReportFailureStops(p: Parsed, minimal: bool, transport: Transport, renderDate: DateRenderer)
    requires p.reportId.Some?
    requires var response := Fetch(transport, p.baseUrl, Reports(p.reportId.value));
             response.Err? || response.body.JNull?
    ensures var response := Fetch(transport, p.baseUrl, Reports(p.reportId.value));
      var run := ResolveParsed(p, minimal, transport, renderDate);
      && run.trace == [Reports(p.reportId.value)]
      && run.outcome == Failure(ReportLookupFailed,
                                Some(if response.Err? then response.message else NullReadMessage("0")))
  {
  }

  /** An input with neither a report id nor a conversation id fails at once,
      without any request. */
  lemma NoIdentifierFails(p: Parsed, minimal: bool, transport: Transport, renderDate: DateRenderer)
    requires p.reportId.None? && p.convoId.None?
    ensures ResolveParsed(p, minimal, transport, renderDate) == CallResult(Failure(NoConversationResolved, None), [])
  {
  }

  /** A report whose first entry has no truthy `conversation_id` (an empty
      list, say) fails with "No conversation ID resolved" after the one lookup. */
  lemma UnresolvedReportFails(p: Parsed, minimal: bool, transport: Transport, renderDate: DateRenderer)
    requires p.reportId.Some?
    requires var response := Fetch(transport, p.baseUrl, Reports(p.reportId.value));
             response.Ok? && !response.body.JNull?
             && !Truthy(OptProp(Prop(response.body, "0"), "conversation_id"))
    ensures ResolveParsed(p, minimal, transport, renderDate)
            == CallResult(Failure(NoConversationResolved, None), [Reports(p.reportId.value)])
  {
  }

  /** The only failures are the two hard exits, and after one of them nothing
      but the report lookup has been requested. Every other run requests the
      math payload, unless the resolved id cannot be converted to a string:
      then no further request is issued and the promise rejects. */
  lemma FailuresAreHardExits(p: Parsed, minimal: bool, transport: Transport, renderDate: DateRenderer)
    ensures var r := ResolveConversation(p, transport);
      var run := ResolveParsed(p, minimal, transport, renderDate);
      && (run.outcome.Failure? <==> r.Stop?)
      && (run.outcome.Failure? ==> run.trace == ReportTrace(p))
      && (run.outcome.Failure? ==> run.outcome.error in {ReportLookupFailed, NoConversationResolved})
      && (run.outcome.Failure? && run.outcome.error == ReportLookupFailed ==> p.reportId.Some?)
      && (r.Proceed? && Printable(r.convoId) ==> Math(Stringify(r.convoId)) in run.trace)
      && (r.Proceed? && !Printable(r.convoId) ==> run == CallResult(Rejected(NotPrimitiveMessage), ReportTrace(p)))
  {
    var r := ResolveConversation(p, transport);
    if r.Proceed? && !Printable(r.convoId) {
      AssembleWithoutMetadata(p.baseUrl, p.reportId, r.convoId, EmptyObject, DeclaredLang(EmptyObject), renderDate);
    }
  }

  /** The example of a report whose `conversation_id` is an object with its
      own `toString`: after the report request nothing is requested, and the
      promise rejects with the TypeError of the failed conversion. */
  lemma ToStringIdRejects(p: Parsed, minimal: bool, transport: Transport, renderDate: DateRenderer)
    requires p.reportId.Some?
    requires Fetch(transport, p.baseUrl, Reports(p.reportId.value))
             == Ok(JArr([JObj(map["conversation_id" := JObj(map["toString" := JNum(1)])])]))
    ensures ResolveParsed(p, minimal, transport, renderDate)
            == CallResult(Rejected(NotPrimitiveMessage), [Reports(p.reportId.value)])
  {
    var id := JObj(map["toString" := JNum(1)]);
    assert ResolveConversation(p, transport) == Proceed(id);
    FailuresAreHardExits(p, minimal, transport, renderDate);
  }

  /** Whether a call fails depends on the input and the report response
      alone: metadata, math and comment fetches can never turn into a Failure. */
  lemma FailureIgnoresEnrichment(p: Parsed, minimal1: bool, minimal2: bool,
                                 t1: Transport, t2: Transport, rd1: DateRenderer, rd2: DateRenderer)
    requires p.reportId.Some? ==> Fetch(t1, p.baseUrl, Reports(p.reportId.value)) == Fetch(t2, p.baseUrl, Reports(p.reportId.value))
    ensures var run1, run2 := ResolveParsed(p, minimal1, t1, rd1), ResolveParsed(p, minimal2, t2, rd2);
      run1.outcome.Failure? ==> run2.outcome == run1.outcome
  {
    var r := ResolveConversation(p, t1);
    assert ResolveConversation(p, t2) == r;
    if r.Proceed? {
      FailuresAreHardExits(p, minimal1, t1, rd1);
    }
  }

  // ---------------------------------------------------------------------------
  // The requests issued

  /** No request is issued twice in one call. */
  lemma RequestsAreDistinct(p: Parsed, minimal: bool, transport: Transport, renderDate: DateRenderer)
    ensures var trace := ResolveParsed(p, minimal, transport, renderDate).trace;
      forall i, j :: 0 <= i < j < |trace| ==> trace[i] != trace[j]
  {
    var r := ResolveConversation(p, transport);
    if r.Proceed? && Printable(r.convoId) {
      var id := Stringify(r.convoId);
      ProceedRun(p, minimal, transport, renderDate);
      if NewDateThrows(ConvoFor(p, id, minimal, transport)) {
        StoppedTraceDistinct(p, id);
      } else {
        TraceEntriesDistinct(p, id, minimal);
      }
    }
  }

  lemma StoppedTraceDistinct(p: Parsed, id: string)
    ensures var trace := ReportTrace(p) + [Conversations(id), Math(id)];
      forall i, j :: 0 <= i < j < |trace| ==> trace[i] != trace[j]
  {
  }

  lemma TraceEntriesDistinct(p: Parsed, id: string, minimal: bool)
    ensures var trace := ReportTrace(p) + EnrichmentTrace(id, minimal);
      forall i, j :: 0 <= i < j < |trace| ==> trace[i] != trace[j]
  {
  }

  /** Minimal mode never requests the conversations or the comments endpoint;
      its summary has no metadata: no date, title or owner, not visible, not
      closed, and `lang` is "---". */
  lemma MinimalSkipsEnrichment(p: Parsed, transport: Transport, renderDate: DateRenderer)
    ensures var run := ResolveParsed(p, true, transport, renderDate);
      && (forall e :: e in run.trace ==> !e.Conversations? && !e.Comments?)
      && (run.outcome.Success? ==>
            var s := run.outcome.summary;
            && s.lang == Dashes && s.title == Dashes && s.owner == Dashes && s.date == NoValue
            && s.visible == VisibleNo && s.closed == ClosedNo)
  {
    var r := ResolveConversation(p, transport);
    if r.Proceed? && Printable(r.convoId) {
      var id := Stringify(r.convoId);
      assert ConvoFor(p, id, true, transport) == EmptyObject;
      assert LangFor(p, id, true, transport, EmptyObject) == Dashes;
    }
  }

  /** Outside minimal mode, a resolved conversation whose id converts to a
      string gets the metadata, math and comments requests, in that order,
      unless `new Date` cannot convert its `created`: then the promise rejects
      before the comments request. One whose id does not convert gets none
      of them. */
  lemma FullModeRequests(p: Parsed, transport: Transport, renderDate: DateRenderer)
    requires ResolveConversation(p, transport).Proceed?
    ensures var convoId := ResolveConversation(p, transport).convoId;
      var run := ResolveParsed(p, false, transport, renderDate);
      && (Printable(convoId) ==>
            var id := Stringify(convoId);
            var convo := ConvoFor(p, id, false, transport);
            && (!NewDateThrows(convo) ==>
                  run.trace == ReportTrace(p) + [Conversations(id), Math(id), Comments(id)])
            && (NewDateThrows(convo) ==>
                  run == CallResult(Rejected(NotPrimitiveMessage), ReportTrace(p) + [Conversations(id), Math(id)])))
      && (!Printable(convoId) ==> run.trace == ReportTrace(p))
  {
  }

  /** End to end: a bare alphanumeric id is looked up on pol.is without a
      report request, then its metadata, math and comments are requested;
      the comments request is skipped only when `new Date` cannot convert
      the conversation's `created`, and the promise then rejects. */
  lemma BareIdentifierRequests(input: string, transport: Transport, renderDate: DateRenderer)
    requires input != "" && AllAlnum(input)
    ensures var convo := ConversationOf(Fetch(transport, "https://pol.is/", Conversations(input)));
      var run := Resolve(input, false, transport, renderDate);
      && (!NewDateThrows(convo) ==> run.trace == [Conversations(input), Math(input), Comments(input)])
      && (NewDateThrows(convo) ==>
            run == CallResult(Rejected(NotPrimitiveMessage), [Conversations(input), Math(input)]))
  {
    BareIdentifier(input);
    var p := Parsed(DefaultDomain, "https://pol.is/", None, Some(input));
    assert Resolve(input, false, transport, renderDate) == ResolveParsed(p, false, transport, renderDate);
    assert ResolveConversation(p, transport) == Proceed(JStr(input));
    ProceedRun(p, false, transport, renderDate);
    assert ReportTrace(p) == [];
  }

  /** The example of a bare id whose conversation has a `created` object with
      its own `toString`: the metadata and math are requested, then
      `new Date` throws and the promise rejects without the comments request. */
  lemma UnconvertibleCreatedRejects(input: string, transport: Transport, renderDate: DateRenderer)
    requires input != "" && AllAlnum(input)
    requires Fetch(transport, "https://pol.is/", Conversations(input))
             == Ok(JObj(map["created" := JObj(map["toString" := JNum(1)])]))
    ensures Resolve(input, false, transport, renderDate)
            == CallResult(Rejected(NotPrimitiveMessage), [Conversations(input), Math(input)])
  {
    var convo := JObj(map["created" := JObj(map["toString" := JNum(1)])]);
    assert NormalizeConversation(convo) == Some(convo);
    assert NewDateThrows(convo);
    BareIdentifierRequests(input, transport, renderDate);
  }

  // ---------------------------------------------------------------------------
  // The record: precedence and soft failures

  /** The conversation payload's three shapes normalize to the same record. */
  lemma ConversationShapesAgree(c: Json, rest: seq<Json>)
    requires c.JObj? && !Truthy(Prop(c, "conversation"))
    ensures var wrapped := JObj(map["conversation" := c]);
      && NormalizeConversation(c) == Some(c)
      && NormalizeConversation(wrapped) == Some(c)
      && NormalizeConversation(JArr([c] + rest)) == Some(c)
      && NormalizeConversation(JArr([wrapped] + rest)) == Some(c)
  {
  }

  /** A successful call resolved an id that converts to a string. */
  lemma SuccessResolves(p: Parsed, minimal: bool, transport: Transport, renderDate: DateRenderer)
    requires ResolveParsed(p, minimal, transport, renderDate).outcome.Success?
    ensures ResolveConversation(p, transport).Proceed?
    ensures Printable(ResolveConversation(p, transport).convoId)
  {
  }

  /** Field by field precedence of a successful summary. `date` is "---" for
      a falsy `created`, else the rendered day; `||` lets every falsy value
      through (an empty topic falls through to the title), `??` only a
      missing one (zero voters stay zero); `closed` is yes exactly for
      `is_active === false`, so a missing flag means open. */
  lemma SummaryPrecedence(p: Parsed, minimal: bool, transport: Transport, renderDate: DateRenderer)
    requires ResolveParsed(p, minimal, transport, renderDate).outcome.Success?
    ensures ResolveConversation(p, transport).Proceed? && Printable(ResolveConversation(p, transport).convoId)
    ensures var id := Stringify(ResolveConversation(p, transport).convoId);
      var convo := ConvoFor(p, id, minimal, transport);
      var math := MathFor(p, id, transport);
      var s := ResolveParsed(p, minimal, transport, renderDate).outcome.summary;
      && !math.JNull?
      && (s.closed == Yes <==> Prop(convo, "is_active") == JBool(false))
      && (s.visible == Yes <==> Prop(convo, "vis_type") == JNum(1))
      && (Truthy(Prop(convo, "topic")) ==> s.title == Prop(convo, "topic"))
      && (!Truthy(Prop(convo, "topic")) && Truthy(Prop(convo, "title")) ==> s.title == Prop(convo, "title"))
      && (!Truthy(Prop(convo, "topic")) && !Truthy(Prop(convo, "title")) ==> s.title == Dashes)
      && (Truthy(Prop(convo, "ownername")) ==> s.owner == Prop(convo, "ownername"))
      && (!Truthy(Prop(convo, "ownername")) && Truthy(Prop(convo, "owner")) ==> s.owner == Prop(convo, "owner"))
      && (!Truthy(Prop(convo, "ownername")) && !Truthy(Prop(convo, "owner")) ==> s.owner == Dashes)
      && (!Prop(math, "n").JNull? ==> s.voters == Prop(math, "n"))
      && (Prop(math, "n").JNull? ==> s.voters == Dashes)
      && (!Prop(math, "n-cmts").JNull? ==> s.comments == Prop(math, "n-cmts"))
      && (Prop(math, "n-cmts").JNull? && !Prop(convo, "comment_count").JNull? ==>
            s.comments == Prop(convo, "comment_count"))
      && (Prop(math, "n-cmts").JNull? && Prop(convo, "comment_count").JNull? ==> s.comments == Dashes)
      && s.meta == Coalesce(OptProp(Prop(math, "meta-tids"), "length"), Dashes)
      && (p.reportId.Some? ==> s.reportUrl == p.baseUrl + "report/" + p.reportId.value)
      && (p.reportId.None? && Truthy(Prop(convo, "report_id")) ==>
            Printable(Prop(convo, "report_id"))
            && s.reportUrl == p.baseUrl + "report/" + Stringify(Prop(convo, "report_id")))
      && (p.reportId.None? && !Truthy(Prop(convo, "report_id")) ==> s.reportUrl == NoValue)
      && s.convoUrl == p.baseUrl + id
      && (!Truthy(Prop(convo, "created")) ==> s.date == NoValue)
      && (Truthy(Prop(convo, "created")) ==>
            renderDate(Prop(convo, "created")).Day? && s.date == renderDate(Prop(convo, "created")).text)
  {
    SuccessResolves(p, minimal, transport, renderDate);
  }

  /** `groups` prefers the number of group clusters, then `group_count`, then "---". */
  lemma GroupsPrecedence(p: Parsed, minimal: bool, transport: Transport, renderDate: DateRenderer)
    requires ResolveParsed(p, minimal, transport, renderDate).outcome.Success?
    ensures ResolveConversation(p, transport).Proceed? && Printable(ResolveConversation(p, transport).convoId)
    ensures var id := Stringify(ResolveConversation(p, transport).convoId);
      var convo := ConvoFor(p, id, minimal, transport);
      var math := MathFor(p, id, transport);
      var clusters := Prop(math, "group-clusters");
      var s := ResolveParsed(p, minimal, transport, renderDate).outcome.summary;
      && (clusters.JArr? ==> s.groups == JNum(|clusters.items|))
      && (clusters.JNull? && !Prop(convo, "group_count").JNull? ==> s.groups == Prop(convo, "group_count"))
      && (clusters.JNull? && Prop(convo, "group_count").JNull? ==> s.groups == Dashes)
  {
    SuccessResolves(p, minimal, transport, renderDate);
    ProceedRun(p, minimal, transport, renderDate);
    var convoId := ResolveConversation(p, transport).convoId;
    var id := Stringify(convoId);
    var convo := ConvoFor(p, id, minimal, transport);
    AssembleGroups(p.baseUrl, p.reportId, convoId, convo, MathFor(p, id, transport),
                   LangFor(p, id, minimal, transport, convo), renderDate);
  }

  /** A metadata fetch that throws, or a payload that does not normalize
      (null, `[]`, `[null]`), is swallowed: the run still requests the math
      payload and the comments, the metadata fields degrade to their
      defaults, and the counts come from the math payload alone. */
  lemma MetadataFailureDegrades(p: Parsed, transport: Transport, renderDate: DateRenderer)
    requires ResolveConversation(p, transport).Proceed?
    requires Printable(ResolveConversation(p, transport).convoId)
    requires var response := Fetch(transport, p.baseUrl, Conversations(Stringify(ResolveConversation(p, transport).convoId)));
             response.Err? || NormalizeConversation(response.body).None?
    ensures var id := Stringify(ResolveConversation(p, transport).convoId);
      var math := MathFor(p, id, transport);
      var run := ResolveParsed(p, false, transport, renderDate);
      && run.trace == ReportTrace(p) + [Conversations(id), Math(id), Comments(id)]
      && (run.outcome.Success? <==> !math.JNull?)
      && (run.outcome.Success? ==>
            var s := run.outcome.summary;
            && s.date == NoValue && s.title == Dashes && s.owner == Dashes
            && s.visible == VisibleNo && s.closed == ClosedNo
            && s.reportUrl == (if p.reportId.Some? then p.baseUrl + "report/" + p.reportId.value else NoValue)
            && s.voters == Coalesce(Prop(math, "n"), Dashes)
            && s.comments == Coalesce(Prop(math, "n-cmts"), Dashes)
            && s.groups == Coalesce(OptProp(Prop(math, "group-clusters"), "length"), Dashes)
            && s.meta == Coalesce(OptProp(Prop(math, "meta-tids"), "length"), Dashes))
  {
    ProceedRun(p, false, transport, renderDate);
    var convoId := ResolveConversation(p, transport).convoId;
    var id := Stringify(convoId);
    assert ConvoFor(p, id, false, transport) == EmptyObject;
    AssembleWithoutMetadata(p.baseUrl, p.reportId, convoId, MathFor(p, id, transport),
                            LangFor(p, id, false, transport, EmptyObject), renderDate);
  }

  /** The language list replaces the declared language only when the comments
      fetch and tally succeed; otherwise `lang` is `convo.lang ?? "---"`. */
  lemma LanguageFallback(p: Parsed, transport: Transport, renderDate: DateRenderer)
    requires ResolveParsed(p, false, transport, renderDate).outcome.Success?
    ensures ResolveConversation(p, transport).Proceed? && Printable(ResolveConversation(p, transport).convoId)
    ensures var id := Stringify(ResolveConversation(p, transport).convoId);
      var convo := ConvoFor(p, id, false, transport);
      var langs := FetchedLanguages(Fetch(transport, p.baseUrl, Comments(id)));
      var s := ResolveParsed(p, false, transport, renderDate).outcome.summary;
      && (langs.Some? ==> s.lang == JStr(langs.value))
      && (langs.None? ==> s.lang == Coalesce(Prop(convo, "lang"), Dashes))
  {
    SuccessResolves(p, false, transport, renderDate);
  }
}
