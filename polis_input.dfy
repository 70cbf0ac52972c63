/** The input parser `parsePolisInput`: a free-form URL or identifier becomes
    the host to query, its https base URL, and either a report id or a
    conversation id. The parser is the same in lib/polis-utils.js and in
    polis-utils.js. Its three regular expressions are unanchored and
    non-global, so each finds its leftmost match; they are modelled by
    `Pattern`, `MatchesAt`, `FindFrom` and `Capture`. */
module PolisInput {
  import opened JsValues

  datatype Parsed = Parsed(
    domain: string,
    baseUrl: string,
    reportId: Option<string>,
    convoId: Option<string>)

  const DefaultDomain: string := "pol.is"

  predicate IsAlnum(c: char) {
    'A' <= c <= 'Z' || 'a' <= c <= 'z' || '0' <= c <= '9'
  }

  predicate AllAlnum(s: string) {
    forall i :: 0 <= i < |s| ==> IsAlnum(s[i])
  }

  /** The three searches the parser makes. */
  datatype Pattern =
    | SchemeHost   // https?:// then a run of characters other than '/'
    | ReportPath   // report/ then a run of [A-Za-z0-9]
    | ReportParam  // report_id= then a run of [A-Za-z0-9]

  predicate HasAt(s: string, lit: string, j: nat) {
    j + |lit| <= |s| && s[j..j + |lit|] == lit
  }

  /** Length of the literal prefix of `p` found at position `j`, 0 if there is none.
      For `https?://` at most one of the two spellings can start at `j`, so the
      optional `s` never needs backtracking. */
  function LiteralAt(s: string, p: Pattern, j: nat): nat {
    match p
    case SchemeHost =>
      if HasAt(s, "https://", j) then 8 else if HasAt(s, "http://", j) then 7 else 0
    case ReportPath => if HasAt(s, "report/", j) then 7 else 0
    case ReportParam => if HasAt(s, "report_id=", j) then 10 else 0
  }

  /** The character class repeated by the pattern's capture group. */
  predicate InClass(p: Pattern, c: char) {
    if p.SchemeHost? then c != '/' else IsAlnum(c)
  }

  /** `p` matches at `j`: its literal, then at least one character of its class. */
  predicate MatchesAt(s: string, p: Pattern, j: nat) {
    var n := LiteralAt(s, p, j);
    n > 0 && j + n < |s| && InClass(p, s[j + n])
  }

  ghost predicate NoMatch(s: string, p: Pattern) {
    forall j: nat :: !MatchesAt(s, p, j)
  }

  /** The greedy run of class characters starting at `k`. */
  function Run(s: string, p: Pattern, k: nat): (r: string)
    requires k <= |s|
    decreases |s| - k
    ensures k + |r| <= |s| && r == s[k..k + |r|]
    ensures forall i :: 0 <= i < |r| ==> InClass(p, r[i])
    ensures k + |r| == |s| || !InClass(p, s[k + |r|])
  {
    if k < |s| && InClass(p, s[k]) then [s[k]] + Run(s, p, k + 1) else []
  }

  /** The leftmost position at or after `from` where `p` matches. */
  function FindFrom(s: string, p: Pattern, from: nat): (r: Option<nat>)
    decreases |s| - from
    ensures r.Some? ==> from <= r.value < |s| && MatchesAt(s, p, r.value)
    ensures r.Some? ==> forall j: nat :: from <= j < r.value ==> !MatchesAt(s, p, j)
    ensures r.None? ==> forall j: nat :: from <= j ==> !MatchesAt(s, p, j)
  {
    if from >= |s| then None
    else if MatchesAt(s, p, from) then Some(from)
    else FindFrom(s, p, from + 1)
  }

  /** The capture group of a match at `j`. */
  function Capture(s: string, p: Pattern, j: nat): string
    requires MatchesAt(s, p, j)
  {
    Run(s, p, j + LiteralAt(s, p, j))
  }

  /** `s.match(re)?.[1]` for the regular expression `p`. */
  function Search(s: string, p: Pattern): (r: Option<string>)
    ensures r.None? <==> NoMatch(s, p)
  {
    match FindFrom(s, p, 0)
    case Some(j) => Some(Capture(s, p, j))
    case None => None
  }

  /** `s.split("/").pop()`: the text after the last '/', or all of `s`. */
  function Tail(s: string): (t: string)
    ensures |t| <= |s| && t == s[|s| - |t|..]
    ensures forall i :: 0 <= i < |t| ==> t[i] != '/'
    ensures |t| < |s| ==> s[|s| - |t| - 1] == '/'
  {
    if s == [] || s[|s| - 1] == '/' then []
    else Tail(s[..|s| - 1]) + [s[|s| - 1]]
  }

  /** `parsePolisInput(input)`. */
  function Parse(input: string): (r: Parsed)
    ensures r.baseUrl == "https://" + r.domain + "/"
    ensures r.domain != ""
    ensures r.reportId.Some? ==> r.convoId.None?
    ensures r.reportId.None? <==> NoMatch(input, ReportPath) && NoMatch(input, ReportParam)
    ensures r.reportId.Some? ==> r.reportId.value != "" && AllAlnum(r.reportId.value)
    ensures r.convoId.Some? <==>
              r.reportId.None? && Tail(input) != "" && AllAlnum(Tail(input))
    ensures r.convoId.Some? ==> r.convoId.value == Tail(input)
  {
    var domain := match Search(input, SchemeHost)
                  case Some(host) => host
                  case None => DefaultDomain;
    var reportId := match Search(input, ReportPath)
                    case Some(id) => Some(id)
                    case None => Search(input, ReportParam);
    var tail := Tail(input);
    var convoId := if reportId.None? && tail != "" && AllAlnum(tail) then Some(tail) else None;
    Parsed(domain, "https://" + domain + "/", reportId, convoId)
  }

  // ---------------------------------------------------------------------------
  // Properties of the parser

  /** With no `http://` or `https://` followed by a host character, the host is pol.is. */
  lemma DefaultHost(input: string)
    requires NoMatch(input, SchemeHost)
    ensures Parse(input).domain == DefaultDomain
    ensures Parse(input).baseUrl == "https://pol.is/"
  {
  }

  /** Otherwise the host is the whole run of non-'/' characters after the
      leftmost scheme: it contains no '/' and ends at a '/' or at the end. */
  lemma LeftmostHost(input: string, j: nat)
    requires MatchesAt(input, SchemeHost, j)
    requires forall i: nat :: i < j ==> !MatchesAt(input, SchemeHost, i)
    ensures var d := Parse(input).domain;
      var k := j + LiteralAt(input, SchemeHost, j);
      && d != ""
      && (forall i :: 0 <= i < |d| ==> d[i] != '/')
      && k + |d| <= |input| && input[k..k + |d|] == d
      && (k + |d| == |input| || input[k + |d|] == '/')
  {
    assert FindFrom(input, SchemeHost, 0) == Some(j);
    assert Search(input, SchemeHost) == Some(Capture(input, SchemeHost, j));
    assert Parse(input).domain == Capture(input, SchemeHost, j);
  }

  /** A `report/<alnum>` segment wins: its leftmost occurrence gives the report id. */
  lemma ReportPathFirst(input: string, j: nat)
    requires MatchesAt(input, ReportPath, j)
    requires forall i: nat :: i < j ==> !MatchesAt(input, ReportPath, i)
    ensures Parse(input).reportId == Some(Capture(input, ReportPath, j))
    ensures Parse(input).convoId.None?
  {
    assert FindFrom(input, ReportPath, 0) == Some(j);
  }

  /** Without one, the leftmost `report_id=<alnum>` gives the report id. */
  lemma ReportParamSecond(input: string, j: nat)
    requires NoMatch(input, ReportPath)
    requires MatchesAt(input, ReportParam, j)
    requires forall i: nat :: i < j ==> !MatchesAt(input, ReportParam, i)
    ensures Parse(input).reportId == Some(Capture(input, ReportParam, j))
    ensures Parse(input).convoId.None?
  {
    assert FindFrom(input, ReportParam, 0) == Some(j);
  }

  /** An input ending in '/' has an empty tail and so no conversation id. */
  lemma TrailingSlashHasNoConversation(input: string)
    requires |input| > 0 && input[|input| - 1] == '/'
    ensures Parse(input).convoId.None?
  {
  }

  /** A tail holding any character outside [A-Za-z0-9] (a '?', '.', '-', ...)
      gives no conversation id. */
  lemma PunctuatedTailRejected(input: string, i: nat)
    requires i < |Tail(input)| && !IsAlnum(Tail(input)[i])
    ensures Parse(input).convoId.None?
  {
  }

  /** A bare alphanumeric identifier is a conversation id on pol.is. */
  lemma BareIdentifier(input: string)
    requires input != "" && AllAlnum(input)
    ensures Parse(input) == Parsed(DefaultDomain, "https://pol.is/", None, Some(input))
  {
    forall j: nat ensures LiteralAt(input, SchemeHost, j) == 0 {
      AlnumLacksLiteral(input, "https://", 5, j);
      AlnumLacksLiteral(input, "http://", 4, j);
    }
    forall j: nat ensures LiteralAt(input, ReportPath, j) == 0 {
      AlnumLacksLiteral(input, "report/", 6, j);
    }
    forall j: nat ensures LiteralAt(input, ReportParam, j) == 0 {
      AlnumLacksLiteral(input, "report_id=", 6, j);
    }
    assert Search(input, SchemeHost) == None;
    assert Search(input, ReportPath) == None;
    assert Search(input, ReportParam) == None;
    TailOfSlashFree(input);
  }

  /** A literal holding a character outside [A-Za-z0-9] occurs nowhere in an alphanumeric string. */
  lemma AlnumLacksLiteral(s: string, lit: string, o: nat, j: nat)
    requires AllAlnum(s)
    requires o < |lit| && !IsAlnum(lit[o])
    ensures !HasAt(s, lit, j)
  {
  }

  lemma {:induction false} TailOfSlashFree(s: string)
    requires forall i :: 0 <= i < |s| ==> s[i] != '/'
    ensures Tail(s) == s
  {
    if s != [] {
      TailOfSlashFree(s[..|s| - 1]);
      assert s[..|s| - 1] + [s[|s| - 1]] == s;
    }
  }
}
