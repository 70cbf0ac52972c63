/** `getPolisDetails` of polis-utils.js, the older copy of the pipeline. It
    shares the parser, the report resolution, the payload normalization and
    the record with lib/polis-utils.js, but has no comment-language step:
    `lang` is always the conversation's own `lang ?? "---"` and the comments
    endpoint is never requested. */
module LegacyPolisDetails {
  import opened JsValues
  import opened PolisInput
  import opened PolisApi
  import opened PolisDetails

  /** The requests after the id is resolved: metadata, then math. */
  function LegacyEnrichmentTrace(id: string, minimal: bool): seq<Endpoint> {
    if minimal then [Math(id)] else [Conversations(id), Math(id)]
  }

  /** `getPolisDetails(input, { fetchFn, minimal })` of polis-utils.js. */
  function LegacyResolve(input: string, minimal: bool, transport: Transport, renderDate: DateRenderer): (r: CallResult)
    ensures r.trace == [] <==>
              Parse(input).reportId.None? && r.outcome == Failure(NoConversationResolved, None)
  {
    LegacyResolveParsed(Parse(input), minimal, transport, renderDate)
  }

  /** The older pipeline after `parsePolisInput`: the report request first, at
      most two requests after it, never a comments request, and nothing after
      the report request on a failure. */
  function LegacyResolveParsed(p: Parsed, minimal: bool, transport: Transport, renderDate: DateRenderer): (r: CallResult)
    ensures ReportTrace(p) <= r.trace && |r.trace| <= |ReportTrace(p)| + 2
    ensures forall e :: e in r.trace ==> !e.Comments?
    ensures r.outcome.Failure? ==> r.trace == ReportTrace(p)
  {
    match ResolveConversation(p, transport)
    case Stop(out) => CallResult(out, ReportTrace(p))
    case Proceed(convoId) =>
      if Printable(convoId) then
        var id := Stringify(convoId);
        var convo := ConvoFor(p, id, minimal, transport);
        var math := MathFor(p, id, transport);
        CallResult(Assemble(p.baseUrl, p.reportId, convoId, convo, math, DeclaredLang(convo), renderDate),
                   ReportTrace(p) + LegacyEnrichmentTrace(id, minimal))
      else
        // Both request URLs throw inside their `try` before the request is issued.
        CallResult(Assemble(p.baseUrl, p.reportId, convoId, EmptyObject, EmptyObject,
                            DeclaredLang(EmptyObject), renderDate),
                   ReportTrace(p))
  }

  /** The older `getPolisDetails`, reassigning `convoId`, `convo` and
      `mathData` step by step and recording each request it issues. */
  method LegacyGetPolisDetails(input: string, minimal: bool, transport: Transport, renderDate: DateRenderer)
    returns (out: Outcome, trace: seq<Endpoint>)
    ensures CallResult(out, trace) == LegacyResolve(input, minimal, transport, renderDate)
  {
    out, trace := LegacyDetailsFor(Parse(input), minimal, transport, renderDate);
  }

  /** The older pipeline after `parsePolisInput`, reassigning `convoId`,
      `convo` and `mathData` step by step and recording each request it
      issues. */
  method LegacyDetailsFor(p: Parsed, minimal: bool, transport: Transport, renderDate: DateRenderer)
    returns (out: Outcome, trace: seq<Endpoint>)
    ensures CallResult(out, trace) == LegacyResolveParsed(p, minimal, transport, renderDate)
  {
    var convoId: Json := if p.convoId.Some? then JStr(p.convoId.value) else JNull;
    trace := [];

    if p.reportId.Some? {
      trace := trace + [Reports(p.reportId.value)];
      var response := Fetch(transport, p.baseUrl, Reports(p.reportId.value));
      if response.Err? {
        out := Failure(ReportLookupFailed, Some(response.message));
        assert ResolveConversation(p, transport) == Stop(out);
        return;
      }
      var reports := response.body;
      if reports.JNull? {
        out := Failure(ReportLookupFailed, Some(NullReadMessage("0")));
        assert ResolveConversation(p, transport) == Stop(out);
        return;
      }
      convoId := OptProp(Prop(reports, "0"), "conversation_id");
    }

    if !Truthy(convoId) {
      out := Failure(NoConversationResolved, None);
      assert ResolveConversation(p, transport) == Stop(out);
      return;
    }
    assert trace == ReportTrace(p);

    if !Printable(convoId) {
      // Each request URL below interpolates `convoId`, so each throws inside
      // its `try` before the request is issued and the exception is
      // swallowed; the record then throws at `convoUrl`.
      out := Assemble(p.baseUrl, p.reportId, convoId, EmptyObject, EmptyObject, DeclaredLang(EmptyObject), renderDate);
      return;
    }
    var id := Stringify(convoId);

    var convo := EmptyObject;
    var mathData := EmptyObject;

    if !minimal {
      trace := trace + [Conversations(id)];
      var response := Fetch(transport, p.baseUrl, Conversations(id));
      if response.Ok? {
        var normalized := NormalizeConversation(response.body);
        if normalized.Some? {
          convo := normalized.value;
        }
      }
    }

    trace := trace + [Math(id)];
    var response := Fetch(transport, p.baseUrl, Math(id));
    if response.Ok? {
      mathData := response.body;
    }

    assert ResolveConversation(p, transport) == Proceed(convoId);
    assert convo == ConvoFor(p, id, minimal, transport);
    assert mathData == MathFor(p, id, transport);
    if minimal {
      assert trace == ReportTrace(p) + [Math(id)];
      assert trace == ReportTrace(p) + LegacyEnrichmentTrace(id, minimal);
    } else {
      assert trace == ReportTrace(p) + [Conversations(id)] + [Math(id)];
      AppendTwo(ReportTrace(p), Conversations(id), Math(id));
      assert trace == ReportTrace(p) + LegacyEnrichmentTrace(id, minimal);
    }
    out := Assemble(p.baseUrl, p.reportId, convoId, convo, mathData, DeclaredLang(convo), renderDate);
    LegacyProceedRun(p, minimal, transport, renderDate);
  }

  lemma AppendTwo<T>(s: seq<T>, a: T, b: T)
    ensures s + [a] + [b] == s + [a, b]
  {
  }

  // ---------------------------------------------------------------------------
  // The older copy against the newer one

  function WithoutComments(trace: seq<Endpoint>): seq<Endpoint> {
    if trace == [] then []
    else (if trace[0].Comments? then [] else [trace[0]]) + WithoutComments(trace[1..])
  }

  /** The older copy issues the newer copy's requests minus the comments one,
      in the same order; in particular it never requests comments. */
  lemma LegacyRequestsAreLibWithoutComments(p: Parsed, minimal: bool, transport: Transport, renderDate: DateRenderer)
    ensures LegacyResolveParsed(p, minimal, transport, renderDate).trace
            == WithoutComments(ResolveParsed(p, minimal, transport, renderDate).trace)
    ensures forall e :: e in LegacyResolveParsed(p, minimal, transport, renderDate).trace ==> !e.Comments?
  {
    var r := ResolveConversation(p, transport);
    var pre := ReportTrace(p);
    assert WithoutComments(pre) == pre by {
      if pre != [] {
        assert pre[1..] == [];
      }
    }
    if r.Proceed? && Printable(r.convoId) {
      var id := Stringify(r.convoId);
      ProceedRun(p, minimal, transport, renderDate);
      LegacyProceedRun(p, minimal, transport, renderDate);
      NoCommentsRequested(pre, id, minimal);
      var lib := ResolveParsed(p, minimal, transport, renderDate).trace;
      ResolvedWithoutComments(pre, id, minimal, NewDateThrows(ConvoFor(p, id, minimal, transport)), lib);
    } else {
      assert ResolveParsed(p, minimal, transport, renderDate).trace == pre;
      assert LegacyResolveParsed(p, minimal, transport, renderDate).trace == pre;
    }
  }

  /** The newer copy's trace after a resolved id, with or without the stop
      before its comments request, loses exactly that request. */
  lemma ResolvedWithoutComments(pre: seq<Endpoint>, id: string, minimal: bool, stopped: bool, lib: seq<Endpoint>)
    requires WithoutComments(pre) == pre
    requires stopped ==> !minimal && lib == pre + [Conversations(id), Math(id)]
    requires !stopped ==> lib == pre + EnrichmentTrace(id, minimal)
    ensures WithoutComments(lib) == pre + LegacyEnrichmentTrace(id, minimal)
  {
    if stopped {
      var e := [Conversations(id), Math(id)];
      WithoutCommentsConcat(pre, e);
      assert e[1..] == [Math(id)] && e[1..][1..] == [];
      assert WithoutComments([Math(id)]) == [Math(id)] + WithoutComments([]);
      assert WithoutComments(e) == [Conversations(id)] + WithoutComments([Math(id)]);
      assert WithoutComments(e) == LegacyEnrichmentTrace(id, minimal);
    } else {
      WithoutCommentsConcat(pre, EnrichmentTrace(id, minimal));
      EnrichmentWithoutComments(id, minimal);
    }
  }

  lemma NoCommentsRequested(pre: seq<Endpoint>, id: string, minimal: bool)
    requires forall e :: e in pre ==> e.Reports?
    ensures forall e :: e in pre + LegacyEnrichmentTrace(id, minimal) ==> !e.Comments?
  {
  }

  lemma EnrichmentWithoutComments(id: string, minimal: bool)
    ensures WithoutComments(EnrichmentTrace(id, minimal)) == LegacyEnrichmentTrace(id, minimal)
  {
    var e := EnrichmentTrace(id, minimal);
    if minimal {
      assert e[1..] == [];
      assert WithoutComments(e) == [Math(id)] + WithoutComments([]);
    } else {
      assert e[1..] == [Math(id), Comments(id)];
      assert e[1..][1..] == [Comments(id)];
      assert e[1..][1..][1..] == [];
      assert WithoutComments([Comments(id)]) == [];
      assert WithoutComments([Math(id), Comments(id)]) == [Math(id)];
    }
  }

  lemma {:induction false} WithoutCommentsConcat(a: seq<Endpoint>, b: seq<Endpoint>)
    ensures WithoutComments(a + b) == WithoutComments(a) + WithoutComments(b)
  {
    if a == [] {
      assert a + b == b;
    } else {
      var head := if a[0].Comments? then [] else [a[0]];
      assert (a + b)[0] == a[0];
      assert (a + b)[1..] == a[1..] + b;
      assert WithoutComments(a + b) == head + WithoutComments(a[1..] + b);
      WithoutCommentsConcat(a[1..], b);
      assert WithoutComments(a) == head + WithoutComments(a[1..]);
    }
  }

  /** A resolved call of the older copy, unfolded. */
  lemma LegacyProceedRun(p: Parsed, minimal: bool, transport: Transport, renderDate: DateRenderer)
    requires ResolveConversation(p, transport).Proceed?
    requires Printable(ResolveConversation(p, transport).convoId)
    ensures var convoId := ResolveConversation(p, transport).convoId;
      var id := Stringify(convoId);
      var convo := ConvoFor(p, id, minimal, transport);
      var run := LegacyResolveParsed(p, minimal, transport, renderDate);
      && run.outcome == Assemble(p.baseUrl, p.reportId, convoId, convo, MathFor(p, id, transport),
                                 DeclaredLang(convo), renderDate)
      && run.trace == ReportTrace(p) + LegacyEnrichmentTrace(id, minimal)
  {
  }

  /** The two copies differ only in `lang`: whenever the newer copy succeeds
      the older one returns the same record with the conversation's declared
      language, and otherwise both return the same outcome. */
  lemma LegacyDiffersOnlyInLang(p: Parsed, minimal: bool, transport: Transport, renderDate: DateRenderer)
    ensures var lib := ResolveParsed(p, minimal, transport, renderDate).outcome;
      var legacy := LegacyResolveParsed(p, minimal, transport, renderDate).outcome;
      && (!lib.Success? ==> legacy == lib)
      && (lib.Success? ==>
            var r := ResolveConversation(p, transport);
            && r.Proceed? && Printable(r.convoId)
            && legacy == Success(lib.summary.(lang := DeclaredLang(ConvoFor(p, Stringify(r.convoId), minimal, transport)))))
  {
    var r := ResolveConversation(p, transport);
    if r.Proceed? && !Printable(r.convoId) {
      AssembleWithoutMetadata(p.baseUrl, p.reportId, r.convoId, EmptyObject, DeclaredLang(EmptyObject), renderDate);
    }
    if r.Proceed? && Printable(r.convoId) {
      ProceedRun(p, minimal, transport, renderDate);
      LegacyProceedRun(p, minimal, transport, renderDate);
      var id := Stringify(r.convoId);
      var convo := ConvoFor(p, id, minimal, transport);
      AssembleLang(p.baseUrl, p.reportId, r.convoId, convo, MathFor(p, id, transport),
                   LangFor(p, id, minimal, transport, convo), DeclaredLang(convo), renderDate);
    }
  }

  /** Where the newer copy falls back to the declared language (minimal mode,
      or a comments fetch or tally that throws), the two copies agree. */
  lemma LegacyAgreesWithoutLanguages(p: Parsed, minimal: bool, transport: Transport, renderDate: DateRenderer)
    requires var r := ResolveConversation(p, transport);
      r.Proceed? && Printable(r.convoId) && !minimal ==>
        CommentLanguages.FetchedLanguages(Fetch(transport, p.baseUrl, Comments(Stringify(r.convoId)))).None?
    ensures LegacyResolveParsed(p, minimal, transport, renderDate).outcome
            == ResolveParsed(p, minimal, transport, renderDate).outcome
  {
  }

  /** The older copy's `date` is "---" for a falsy `created`, else the
      rendered day; its `lang` is always the conversation's `lang ?? "---"`;
      `title` is `topic || title || "---"` and `owner` is
      `ownername || owner || "---"`, so an empty string falls through. */
  lemma LegacyRecordPrecedence(p: Parsed, minimal: bool, transport: Transport, renderDate: DateRenderer)
    requires LegacyResolveParsed(p, minimal, transport, renderDate).outcome.Success?
    ensures ResolveConversation(p, transport).Proceed? && Printable(ResolveConversation(p, transport).convoId)
    ensures var id := Stringify(ResolveConversation(p, transport).convoId);
      var convo := ConvoFor(p, id, minimal, transport);
      var s := LegacyResolveParsed(p, minimal, transport, renderDate).outcome.summary;
      && (!Prop(convo, "lang").JNull? ==> s.lang == Prop(convo, "lang"))
      && (Prop(convo, "lang").JNull? ==> s.lang == Dashes)
      && (Truthy(Prop(convo, "topic")) ==> s.title == Prop(convo, "topic"))
      && (!Truthy(Prop(convo, "topic")) && Truthy(Prop(convo, "title")) ==> s.title == Prop(convo, "title"))
      && (!Truthy(Prop(convo, "topic")) && !Truthy(Prop(convo, "title")) ==> s.title == Dashes)
      && (Truthy(Prop(convo, "ownername")) ==> s.owner == Prop(convo, "ownername"))
      && (!Truthy(Prop(convo, "ownername")) && Truthy(Prop(convo, "owner")) ==> s.owner == Prop(convo, "owner"))
      && (!Truthy(Prop(convo, "ownername")) && !Truthy(Prop(convo, "owner")) ==> s.owner == Dashes)
      && (!Truthy(Prop(convo, "created")) ==> s.date == NoValue)
      && (Truthy(Prop(convo, "created")) ==>
            renderDate(Prop(convo, "created")).Day? && s.date == renderDate(Prop(convo, "created")).text)
  {
  }

  /** The older copy has the same two hard exits, after which nothing but the
      report lookup has been requested; otherwise it requests the math
      payload, or, for an id `String` cannot convert, nothing more before the
      promise rejects. */
  lemma LegacyFailuresAreHardExits(p: Parsed, minimal: bool, transport: Transport, renderDate: DateRenderer)
    ensures var r := ResolveConversation(p, transport);
      var run := LegacyResolveParsed(p, minimal, transport, renderDate);
      && (run.outcome.Failure? <==> r.Stop?)
      && (run.outcome.Failure? ==> run.trace == ReportTrace(p))
      && (run.outcome.Failure? ==> run.outcome.error in {ReportLookupFailed, NoConversationResolved})
      && (r.Proceed? && Printable(r.convoId) ==> Math(Stringify(r.convoId)) in run.trace)
      && (r.Proceed? && !Printable(r.convoId) ==> run == CallResult(Rejected(NotPrimitiveMessage), ReportTrace(p)))
  {
    var r := ResolveConversation(p, transport);
    if r.Proceed? && !Printable(r.convoId) {
      AssembleWithoutMetadata(p.baseUrl, p.reportId, r.convoId, EmptyObject, DeclaredLang(EmptyObject), renderDate);
    }
  }

  /** A metadata fetch that throws, or a payload that does not normalize
      (null, `[]`, `[null]`), is swallowed: the math payload is still
      requested and the counts come from it alone, the metadata fields
      degrade to "---" or "no", and `lang` is "---". */
  lemma LegacyMetadataFailureDegrades(p: Parsed, transport: Transport, renderDate: DateRenderer)
    requires ResolveConversation(p, transport).Proceed?
    requires Printable(ResolveConversation(p, transport).convoId)
    requires var response := Fetch(transport, p.baseUrl, Conversations(Stringify(ResolveConversation(p, transport).convoId)));
             response.Err? || NormalizeConversation(response.body).None?
    ensures var id := Stringify(ResolveConversation(p, transport).convoId);
      var math := MathFor(p, id, transport);
      var run := LegacyResolveParsed(p, false, transport, renderDate);
      && run.trace == ReportTrace(p) + [Conversations(id), Math(id)]
      && (run.outcome.Success? <==> !math.JNull?)
      && (run.outcome.Success? ==>
            var s := run.outcome.summary;
            && s.date == NoValue && s.title == Dashes && s.owner == Dashes && s.lang == Dashes
            && s.visible == VisibleNo && s.closed == ClosedNo
            && s.voters == Coalesce(Prop(math, "n"), Dashes)
            && s.comments == Coalesce(Prop(math, "n-cmts"), Dashes)
            && s.groups == Coalesce(OptProp(Prop(math, "group-clusters"), "length"), Dashes)
            && s.meta == Coalesce(OptProp(Prop(math, "meta-tids"), "length"), Dashes))
  {
    LegacyProceedRun(p, false, transport, renderDate);
    var convoId := ResolveConversation(p, transport).convoId;
    var id := Stringify(convoId);
    assert ConvoFor(p, id, false, transport) == EmptyObject;
    AssembleWithoutMetadata(p.baseUrl, p.reportId, convoId, MathFor(p, id, transport),
                            DeclaredLang(EmptyObject), renderDate);
  }
}
