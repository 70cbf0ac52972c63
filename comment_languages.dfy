/** `getCommentLangs` of lib/polis-utils.js: fetch a conversation's comments,
    tally the declared language of every comment that is not moderated out,
    fall back to "unknown" when nothing was tallied, rank the languages by
    descending count with a stable sort and join them with ", ".

    The tally is kept as the source keeps its `langCounts` object: keys in
    first-insertion order (what `Object.entries` yields for keys that are not
    array indices) and a count per key. */
module CommentLanguages {
  import opened JsValues
  import opened PolisApi

  // ---------------------------------------------------------------------------
  // What is counted

  /** `c.lang && c.mod !== -1` (strict: a string "-1" does not exclude). */
  predicate Counted(c: Json)
    requires !c.JNull?
    ensures Counted(c) ==> Truthy(Prop(c, "lang"))
    ensures Prop(c, "mod") == JNum(-1) ==> !Counted(c)
  {
    Truthy(Prop(c, "lang")) && Prop(c, "mod") != JNum(-1)
  }

  /** Whether the `forEach` callback returns for `c`: reading `c.lang` of a
      null element throws, and so does using, as the key of `langCounts`, a
      counted `lang` that `String` cannot convert. */
  predicate Tallyable(c: Json) {
    !c.JNull? && (Counted(c) ==> Printable(Prop(c, "lang")))
  }

  /** The property key `langCounts[c.lang]` uses: the string form of `c.lang`. */
  function LangKey(c: Json): string
    requires Tallyable(c) && Counted(c)
  {
    Stringify(Prop(c, "lang"))
  }

  /** A comment list the tally gets through without throwing. */
  predicate AllTallyable(cs: seq<Json>) {
    forall i :: 0 <= i < |cs| ==> Tallyable(cs[i])
  }

  /** How many counted comments carry language `k`. */
  function CountOf(cs: seq<Json>, k: string): nat
    requires AllTallyable(cs)
  {
    if cs == [] then 0
    else
      var last := cs[|cs| - 1];
      CountOf(cs[..|cs| - 1], k) + (if Counted(last) && LangKey(last) == k then 1 else 0)
  }

  /** The languages of counted comments, each once, in order of first appearance. */
  function FirstSeen(cs: seq<Json>): seq<string>
    requires AllTallyable(cs)
  {
    if cs == [] then []
    else
      var prev := FirstSeen(cs[..|cs| - 1]);
      var last := cs[|cs| - 1];
      if Counted(last) && LangKey(last) !in prev then prev + [LangKey(last)] else prev
  }

  datatype Entry = Entry(lang: string, count: nat)

  /** `Object.entries(langCounts)` after the `forEach`: one entry per
      language, in first-insertion order, none with a zero count. */
  function Tally(cs: seq<Json>): (r: seq<Entry>)
    requires AllTallyable(cs)
    ensures |r| == |FirstSeen(cs)|
    ensures forall i :: 0 <= i < |r| ==> r[i].lang == FirstSeen(cs)[i] && r[i].count >= 1
  {
    var keys := FirstSeen(cs);
    FirstSeenCounted(cs);
    seq(|keys|, i requires 0 <= i < |keys| => Entry(keys[i], CountOf(cs, keys[i])))
  }

  lemma FirstSeenCounted(cs: seq<Json>)
    requires AllTallyable(cs)
    ensures forall k :: k in FirstSeen(cs) ==> CountOf(cs, k) > 0
  {
    forall k | k in FirstSeen(cs) ensures CountOf(cs, k) > 0 {
      FirstSeenIffCounted(cs, k);
    }
  }

  /** `if (!Object.keys(langCounts).length) langCounts["unknown"] = 1`. */
  function WithFallback(entries: seq<Entry>): seq<Entry> {
    if entries == [] then [Entry("unknown", 1)] else entries
  }

  // ---------------------------------------------------------------------------
  // The ranking: `.sort((a, b) => b[1] - a[1])`, a stable sort by descending count

  /** Insert `e` before the first entry whose count does not exceed its own. */
  function InsertByCount(e: Entry, s: seq<Entry>): (r: seq<Entry>)
    ensures |r| == |s| + 1
  {
    if s == [] || e.count >= s[0].count then [e] + s
    else [s[0]] + InsertByCount(e, s[1..])
  }

  function SortByCount(s: seq<Entry>): (r: seq<Entry>)
    ensures |r| == |s|
  {
    if s == [] then [] else InsertByCount(s[0], SortByCount(s[1..]))
  }

  function Langs(s: seq<Entry>): seq<string> {
    if s == [] then [] else [s[0].lang] + Langs(s[1..])
  }

  ghost predicate SortedByCount(s: seq<Entry>) {
    forall i, j :: 0 <= i < j < |s| ==> s[i].count >= s[j].count
  }

  /** The entries of `s` with count `n`, in their order in `s`. */
  function WithCount(s: seq<Entry>, n: nat): seq<Entry> {
    if s == [] then []
    else (if s[0].count == n then [s[0]] else []) + WithCount(s[1..], n)
  }

  /** The ranked language codes of a comment list the tally gets through:
      one per tallied language, or the single fallback. */
  function Ranking(cs: seq<Json>): (r: seq<string>)
    requires AllTallyable(cs)
    ensures |r| == if FirstSeen(cs) == [] then 1 else |FirstSeen(cs)|
  {
    var ranked := SortByCount(WithFallback(Tally(cs)));
    LangsLength(ranked);
    Langs(ranked)
  }

  /** What `getCommentLangs` resolves to for a decoded comments payload, or
      None where it throws: `comments.forEach` is not a function unless the
      payload is an array, and the callback throws on a null element or on a
      counted language `String` cannot convert. */
  function LanguageList(payload: Json): (r: Option<string>)
    ensures r.Some? <==> payload.JArr? && AllTallyable(payload.items)
  {
    if payload.JArr? && AllTallyable(payload.items) then Some(Join(Ranking(payload.items), ", "))
    else None
  }

  /** `getCommentLangs(baseUrl, convoId, fetchFn)` given the comments response. */
  function FetchedLanguages(response: FetchResult): Option<string> {
    match response
    case Ok(payload) => LanguageList(payload)
    case Err(_) => None
  }

  // ---------------------------------------------------------------------------
  // The operation

  /** `getCommentLangs`: the fetch, the tally, the fallback, the ranking and
      the join. */
  method CommentLangs(baseUrl: string, convoId: string, transport: Transport) returns (r: Option<string>)
    ensures r == FetchedLanguages(Fetch(transport, baseUrl, Comments(convoId)))
  {
    var response := Fetch(transport, baseUrl, Comments(convoId));
    if response.Err? {
      return None;
    }
    var payload := response.body;
    if !payload.JArr? {
      return None;
    }
    var cs := payload.items;
    var ok, keys, counts := TallyComments(cs);
    if !ok {
      return None;
    }
    if |keys| == 0 {
      keys := ["unknown"];
      counts := map["unknown" := 1];
    }
    var entries := seq(|keys|, j requires 0 <= j < |keys| => Entry(keys[j], counts[keys[j]]));
    assert entries == WithFallback(Tally(cs));
    r := Some(Join(Langs(SortByCount(entries)), ", "));
  }

  /** The `forEach` over the comments, building `langCounts` as a key order
      and a map of counts; `ok` is false where the callback throws. */
  method TallyComments(cs: seq<Json>) returns (ok: bool, keys: seq<string>, counts: map<string, nat>)
    ensures ok <==> AllTallyable(cs)
    ensures ok ==> keys == FirstSeen(cs)
    ensures ok ==> (forall k :: k in counts <==> k in keys)
    ensures ok ==> forall k :: k in counts ==> counts[k] == CountOf(cs, k)
  {
    keys := [];
    counts := map[];
    ghost var seen: seq<Json> := [];
    var i := 0;
    while i < |cs|
      invariant 0 <= i <= |cs| && seen == cs[..i]
      invariant AllTallyable(seen)
      invariant keys == FirstSeen(seen)
      invariant forall k :: k in counts <==> k in keys
      invariant forall k :: k in counts ==> counts[k] == CountOf(seen, k)
    {
      var c := cs[i];
      if !Tallyable(c) {
        // `c.lang` of null, or the conversion of the key, throws
        assert !AllTallyable(cs);
        return false, keys, counts;
      }
      TallyStep(seen, c);
      if Counted(c) {
        var k := LangKey(c);
        var n := if k in counts then counts[k] else 0;
        if k !in counts {
          FirstSeenIffCounted(seen, k);
          keys := keys + [k];
        }
        var before := counts;
        counts := before[k := n + 1];
        forall k' | k' in counts ensures counts[k'] == CountOf(seen + [c], k') {
          if k' != k {
            assert counts[k'] == before[k'];
          }
        }
      }
      assert cs[..i + 1] == seen + [c];
      seen := seen + [c];
      i := i + 1;
    }
    assert seen == cs;
    ok := true;
  }

  // ---------------------------------------------------------------------------
  // Properties of the tally

  /** One more comment: its key is appended if new, and only its count grows. */
  lemma TallyStep(cs: seq<Json>, c: Json)
    requires AllTallyable(cs) && Tallyable(c)
    ensures AllTallyable(cs + [c])
    ensures FirstSeen(cs + [c])
            == if Counted(c) && LangKey(c) !in FirstSeen(cs) then FirstSeen(cs) + [LangKey(c)] else FirstSeen(cs)
    ensures forall k :: CountOf(cs + [c], k) == CountOf(cs, k) + (if Counted(c) && LangKey(c) == k then 1 else 0)
  {
    assert (cs + [c])[..|cs|] == cs;
  }

  /** A language is listed in the tally exactly when some counted comment carries it. */
  lemma {:induction false} FirstSeenIffCounted(cs: seq<Json>, k: string)
    requires AllTallyable(cs)
    ensures k in FirstSeen(cs) <==> CountOf(cs, k) > 0
  {
    if cs != [] {
      FirstSeenIffCounted(cs[..|cs| - 1], k);
    }
  }

  /** Each language is listed once in the tally. */
  lemma {:induction false} FirstSeenOnce(cs: seq<Json>, k: string)
    requires AllTallyable(cs)
    ensures multiset(FirstSeen(cs))[k] == if CountOf(cs, k) > 0 then 1 else 0
  {
    if cs != [] {
      FirstSeenOnce(cs[..|cs| - 1], k);
      FirstSeenIffCounted(cs[..|cs| - 1], k);
    }
  }

  /** A comment that is not counted (in particular one with `mod === -1`,
      whatever its language) changes neither the tally nor its order. */
  lemma {:induction false} UncountedCommentIgnored(pre: seq<Json>, c: Json, post: seq<Json>)
    requires AllTallyable(pre + post) && !c.JNull?
    requires Prop(c, "mod") == JNum(-1) || !Truthy(Prop(c, "lang"))
    ensures AllTallyable(pre + [c] + post)
    ensures FirstSeen(pre + [c] + post) == FirstSeen(pre + post)
    ensures forall k :: CountOf(pre + [c] + post, k) == CountOf(pre + post, k)
  {
    if post == [] {
      assert pre + [c] + post == pre + [c] && pre + post == pre;
      TallyStep(pre, c);
    } else {
      var init, last := post[..|post| - 1], post[|post| - 1];
      assert pre + post == (pre + init) + [last];
      assert pre + [c] + post == (pre + [c] + init) + [last];
      assert AllTallyable(pre + init) by {
        forall i | 0 <= i < |pre + init| ensures Tallyable((pre + init)[i]) {
          assert (pre + init)[i] == (pre + post)[i];
        }
      }
      assert Tallyable(last) by {
        assert last == (pre + post)[|pre + post| - 1];
      }
      UncountedCommentIgnored(pre, c, init);
      TallyStep(pre + init, last);
      TallyStep(pre + [c] + init, last);
    }
  }

  /** So dropping such a comment leaves the result of `getCommentLangs` unchanged. */
  lemma UncountedCommentIgnoredInResult(pre: seq<Json>, c: Json, post: seq<Json>)
    requires AllTallyable(pre + post) && !c.JNull?
    requires Prop(c, "mod") == JNum(-1) || !Truthy(Prop(c, "lang"))
    ensures LanguageList(JArr(pre + [c] + post)) == LanguageList(JArr(pre + post))
  {
    UncountedCommentIgnored(pre, c, post);
    assert Tally(pre + [c] + post) == Tally(pre + post);
  }

  /** A counted comment whose language `String` cannot convert (an object with
      its own `toString`) makes `getCommentLangs` throw, wherever it stands. */
  lemma UnconvertibleLanguageThrows(pre: seq<Json>, c: Json, post: seq<Json>)
    requires !c.JNull? && Counted(c) && !Printable(Prop(c, "lang"))
    ensures LanguageList(JArr(pre + [c] + post)).None?
  {
    assert (pre + [c] + post)[|pre|] == c;
  }

  /** With nothing counted (no comments, all moderated out, none tagged) the
      result is exactly "unknown". */
  lemma NothingCountedIsUnknown(cs: seq<Json>)
    requires AllTallyable(cs)
    requires forall i :: 0 <= i < |cs| ==> !Counted(cs[i])
    ensures LanguageList(JArr(cs)) == Some("unknown")
  {
    NothingCountedNothingSeen(cs);
    assert Tally(cs) == [];
    assert SortByCount([Entry("unknown", 1)]) == [Entry("unknown", 1)];
    assert Langs([Entry("unknown", 1)]) == ["unknown"];
  }

  lemma {:induction false} NothingCountedNothingSeen(cs: seq<Json>)
    requires AllTallyable(cs)
    requires forall i :: 0 <= i < |cs| ==> !Counted(cs[i])
    ensures FirstSeen(cs) == []
  {
    if cs != [] {
      NothingCountedNothingSeen(cs[..|cs| - 1]);
    }
  }

  // ---------------------------------------------------------------------------
  // Properties of the sort

  lemma {:induction false} InsertPermutes(e: Entry, s: seq<Entry>)
    ensures multiset(InsertByCount(e, s)) == multiset(s) + multiset{e}
  {
    if s != [] && e.count < s[0].count {
      InsertPermutes(e, s[1..]);
      assert s == [s[0]] + s[1..];
    }
  }

  lemma {:induction false} InsertKeepsLanguages(e: Entry, s: seq<Entry>)
    ensures multiset(Langs(InsertByCount(e, s))) == multiset(Langs(s)) + multiset{e.lang}
  {
    if s != [] && e.count < s[0].count {
      InsertKeepsLanguages(e, s[1..]);
      assert InsertByCount(e, s) == [s[0]] + InsertByCount(e, s[1..]);
      assert Langs(s) == [s[0].lang] + Langs(s[1..]);
    }
  }

  /** The sort is a permutation of the entries. */
  lemma {:induction false} SortPermutes(s: seq<Entry>)
    ensures multiset(SortByCount(s)) == multiset(s)
  {
    if s != [] {
      SortPermutes(s[1..]);
      InsertPermutes(s[0], SortByCount(s[1..]));
      assert s == [s[0]] + s[1..];
    }
  }

  /** So it is a permutation of the languages too. */
  lemma {:induction false} SortKeepsLanguages(s: seq<Entry>)
    ensures multiset(Langs(SortByCount(s))) == multiset(Langs(s))
  {
    if s != [] {
      SortKeepsLanguages(s[1..]);
      InsertKeepsLanguages(s[0], SortByCount(s[1..]));
      assert Langs(s) == [s[0].lang] + Langs(s[1..]);
    }
  }

  lemma {:induction false} InsertKeepsSorted(e: Entry, s: seq<Entry>)
    requires SortedByCount(s)
    ensures SortedByCount(InsertByCount(e, s))
  {
    if s != [] && e.count < s[0].count {
      InsertKeepsSorted(e, s[1..]);
      InsertBounded(e, s[1..], s[0].count);
      var r := InsertByCount(e, s[1..]);
      var t := [s[0]] + r;
      assert InsertByCount(e, s) == t;
      forall i, j | 0 <= i < j < |t| ensures t[i].count >= t[j].count {
        assert t[j] == r[j - 1];
        if i > 0 {
          assert t[i] == r[i - 1];
        }
      }
    }
  }

  /** Inserting keeps every count under a common bound. */
  lemma {:induction false} InsertBounded(e: Entry, s: seq<Entry>, bound: nat)
    requires e.count <= bound && forall i :: 0 <= i < |s| ==> s[i].count <= bound
    ensures forall i :: 0 <= i < |InsertByCount(e, s)| ==> InsertByCount(e, s)[i].count <= bound
  {
    if s != [] && e.count < s[0].count {
      InsertBounded(e, s[1..], bound);
      assert InsertByCount(e, s) == [s[0]] + InsertByCount(e, s[1..]);
    }
  }

  /** The sort orders by non-increasing count. */
  lemma {:induction false} SortIsSorted(s: seq<Entry>)
    ensures SortedByCount(SortByCount(s))
  {
    if s != [] {
      SortIsSorted(s[1..]);
      InsertKeepsSorted(s[0], SortByCount(s[1..]));
    }
  }

  lemma {:induction false} InsertIsStable(e: Entry, s: seq<Entry>, n: nat)
    ensures WithCount(InsertByCount(e, s), n) ==
              (if e.count == n then [e] else []) + WithCount(s, n)
  {
    if s != [] && e.count < s[0].count {
      var r := InsertByCount(e, s[1..]);
      var t := [s[0]] + r;
      assert InsertByCount(e, s) == t;
      assert t[0] == s[0] && t[1..] == r;
      InsertIsStable(e, s[1..], n);
      assert WithCount(s, n) == (if s[0].count == n then [s[0]] else []) + WithCount(s[1..], n);
    } else {
      var t := [e] + s;
      assert InsertByCount(e, s) == t;
      assert t[0] == e && t[1..] == s;
    }
  }

  /** The sort is stable: restricted to any one count, it keeps the input order. */
  lemma {:induction false} SortIsStable(s: seq<Entry>, n: nat)
    ensures WithCount(SortByCount(s), n) == WithCount(s, n)
  {
    if s != [] {
      SortIsStable(s[1..], n);
      InsertIsStable(s[0], SortByCount(s[1..]), n);
    }
  }

  // ---------------------------------------------------------------------------
  // Properties of the ranking

  lemma {:induction false} LangsOfTally(cs: seq<Json>)
    requires AllTallyable(cs)
    ensures Langs(Tally(cs)) == FirstSeen(cs)
    ensures forall e :: e in Tally(cs) ==> e.count == CountOf(cs, e.lang)
  {
    LangsOfSeq(Tally(cs), FirstSeen(cs));
  }

  lemma {:induction false} LangsOfSeq(s: seq<Entry>, keys: seq<string>)
    requires |s| == |keys| && forall i :: 0 <= i < |s| ==> s[i].lang == keys[i]
    ensures Langs(s) == keys
  {
    if s != [] {
      LangsOfSeq(s[1..], keys[1..]);
    }
  }

  /** When some comment is counted, every counted language appears in the
      result exactly once, and nothing else does. */
  lemma RankingListsEachLanguageOnce(cs: seq<Json>, k: string)
    requires AllTallyable(cs)
    requires exists i :: 0 <= i < |cs| && Counted(cs[i])
    ensures multiset(Ranking(cs))[k] == if CountOf(cs, k) > 0 then 1 else 0
  {
    var i :| 0 <= i < |cs| && Counted(cs[i]);
    SomeCountedIsSeen(cs, i);
    LangsOfTally(cs);
    SortPermutes(Tally(cs));
    SortKeepsLanguages(Tally(cs));
    FirstSeenOnce(cs, k);
  }

  lemma {:induction false} SomeCountedIsSeen(cs: seq<Json>, i: nat)
    requires AllTallyable(cs) && i < |cs| && Counted(cs[i])
    ensures FirstSeen(cs) != []
  {
    if i < |cs| - 1 {
      SomeCountedIsSeen(cs[..|cs| - 1], i);
    }
  }

  /** Every entry of the sorted tally carries its language's count. */
  lemma SortedTallyCounts(cs: seq<Json>)
    requires AllTallyable(cs) && FirstSeen(cs) != []
    ensures forall e :: e in SortByCount(Tally(cs)) ==> e.count == CountOf(cs, e.lang)
  {
    LangsOfTally(cs);
    SortPermutes(Tally(cs));
    forall e | e in SortByCount(Tally(cs)) ensures e in Tally(cs) {
      assert e in multiset(SortByCount(Tally(cs)));
    }
  }

  lemma {:induction false} LangsLength(s: seq<Entry>)
    ensures |Langs(s)| == |s|
  {
    if s != [] {
      LangsLength(s[1..]);
    }
  }

  lemma {:induction false} LangsIndex(s: seq<Entry>, i: nat)
    requires i < |s|
    ensures |Langs(s)| == |s| && Langs(s)[i] == s[i].lang
  {
    if i > 0 {
      LangsIndex(s[1..], i - 1);
    } else if |s| > 1 {
      LangsIndex(s[1..], 0);
    }
  }

  /** The result lists languages by non-increasing count. */
  lemma RankingByCount(cs: seq<Json>, i: nat, j: nat)
    requires AllTallyable(cs) && FirstSeen(cs) != []
    requires i < j < |Ranking(cs)|
    ensures CountOf(cs, Ranking(cs)[i]) >= CountOf(cs, Ranking(cs)[j])
  {
    var sorted := SortByCount(Tally(cs));
    LangsLength(sorted);
    LangsIndex(sorted, i);
    LangsIndex(sorted, j);
    SortIsSorted(Tally(cs));
    SortedTallyCounts(cs);
    assert sorted[i] in sorted && sorted[j] in sorted;
  }

  /** The languages of `keys` whose count in `cs` is `n`, in the order of `keys`. */
  function LangsWithCount(cs: seq<Json>, keys: seq<string>, n: nat): seq<string>
    requires AllTallyable(cs)
  {
    if keys == [] then []
    else (if CountOf(cs, keys[0]) == n then [keys[0]] else []) + LangsWithCount(cs, keys[1..], n)
  }

  lemma {:induction false} LangsWithCountOfEntries(cs: seq<Json>, s: seq<Entry>, n: nat)
    requires AllTallyable(cs)
    requires forall e :: e in s ==> e.count == CountOf(cs, e.lang)
    ensures Langs(WithCount(s, n)) == LangsWithCount(cs, Langs(s), n)
  {
    if s != [] {
      assert s[0] in s;
      LangsWithCountOfEntries(cs, s[1..], n);
      assert Langs(s)[1..] == Langs(s[1..]);
      LangsOfConcat(if s[0].count == n then [s[0]] else [], WithCount(s[1..], n));
    }
  }

  lemma {:induction false} LangsOfConcat(a: seq<Entry>, b: seq<Entry>)
    ensures Langs(a + b) == Langs(a) + Langs(b)
  {
    if a != [] {
      LangsOfConcat(a[1..], b);
      calc {
        Langs(a + b);
        { assert (a + b)[0] == a[0] && (a + b)[1..] == a[1..] + b; }
        [a[0].lang] + Langs(a[1..] + b);
        [a[0].lang] + (Langs(a[1..]) + Langs(b));
        ([a[0].lang] + Langs(a[1..])) + Langs(b);
      }
    } else {
      assert a + b == b;
    }
  }

  /** Ties keep first-seen order: among languages with the same count, the
      result lists them in the order their first counted comment appeared. */
  lemma TiesInFirstSeenOrder(cs: seq<Json>, n: nat)
    requires AllTallyable(cs) && FirstSeen(cs) != []
    ensures LangsWithCount(cs, Ranking(cs), n) == LangsWithCount(cs, FirstSeen(cs), n)
  {
    var t := Tally(cs);
    LangsOfTally(cs);
    SortedTallyCounts(cs);
    SortIsStable(t, n);
    LangsWithCountOfEntries(cs, SortByCount(t), n);
    LangsWithCountOfEntries(cs, t, n);
  }

  function Tagged(lang: string): Json {
    JObj(map["lang" := JStr(lang)])
  }

  lemma TaggedCounted(lang: string)
    requires lang != ""
    ensures Tallyable(Tagged(lang)) && Counted(Tagged(lang)) && LangKey(Tagged(lang)) == lang
  {
    assert Prop(Tagged(lang), "lang") == JStr(lang);
  }

  /** Two comments in two different languages are listed in comment order. */
  lemma TwoLanguagesInCommentOrder(a: string, b: string)
    requires a != "" && b != "" && a != b
    ensures LanguageList(JArr([Tagged(a), Tagged(b)])) == Some(a + ", " + b)
  {
    var cs := [Tagged(a), Tagged(b)];
    TallyOfPair(a, b);
    assert [Entry(a, 1), Entry(b, 1)][1..] == [Entry(b, 1)];
    assert SortByCount([Entry(b, 1)]) == [Entry(b, 1)];
    assert SortByCount(Tally(cs)) == [Entry(a, 1), Entry(b, 1)];
    LangsOfPair(Entry(a, 1), Entry(b, 1));
    JoinPair(a, b, ", ");
  }

  lemma TallyOfPair(a: string, b: string)
    requires a != "" && b != "" && a != b
    ensures AllTallyable([Tagged(a), Tagged(b)])
    ensures Tally([Tagged(a), Tagged(b)]) == [Entry(a, 1), Entry(b, 1)]
  {
    var one := [Tagged(a)];
    var cs := one + [Tagged(b)];
    assert cs == [Tagged(a), Tagged(b)];
    TaggedCounted(a);
    TaggedCounted(b);
    TallyStep([], Tagged(a));
    assert [] + [Tagged(a)] == one;
    assert FirstSeen(one) == [a] && CountOf(one, a) == 1 && CountOf(one, b) == 0;
    TallyStep(one, Tagged(b));
    assert FirstSeen(cs) == [a, b];
    assert CountOf(cs, a) == 1 && CountOf(cs, b) == 1;
    TallyOfTwoKeys(cs, a, b);
  }

  lemma JoinPair(a: string, b: string, sep: string)
    ensures Join([a, b], sep) == a + sep + b
  {
    assert [a, b][1..] == [b];
  }

  lemma LangsOfPair(x: Entry, y: Entry)
    ensures Langs([x, y]) == [x.lang, y.lang]
  {
    assert [x, y][1..] == [y];
    assert Langs([y]) == [y.lang];
  }

  /** Ties make the result depend on comment order: two comments in different
      languages, given in either order, give two different lists. */
  lemma TiesFollowCommentOrder()
    ensures LanguageList(JArr([Tagged("en"), Tagged("fr")])) == Some("en, fr")
    ensures LanguageList(JArr([Tagged("fr"), Tagged("en")])) == Some("fr, en")
  {
    PairInOrder("en", "fr");
    PairInOrder("fr", "en");
  }

  /** `TwoLanguagesInCommentOrder` for two-letter codes, with the joined text
      spelled out. */
  lemma PairInOrder(a: string, b: string)
    requires |a| == 2 && |b| == 2 && a[0] != b[0]
    ensures LanguageList(JArr([Tagged(a), Tagged(b)])) == Some([a[0], a[1], ',', ' ', b[0], b[1]])
  {
    TwoLanguagesInCommentOrder(a, b);
    assert a + ", " + b == [a[0], a[1], ',', ' ', b[0], b[1]];
  }

  lemma TallyOfLaterPair(a: string, b: string)
    requires a != "" && b != "" && a != b
    ensures AllTallyable([Tagged(b), Tagged(a), Tagged(a)])
    ensures Tally([Tagged(b), Tagged(a), Tagged(a)]) == [Entry(b, 1), Entry(a, 2)]
  {
    var c1 := [Tagged(b)];
    var c2 := c1 + [Tagged(a)];
    var cs := c2 + [Tagged(a)];
    assert cs == [Tagged(b), Tagged(a), Tagged(a)];
    TaggedCounted(a);
    TaggedCounted(b);
    TallyStep([], Tagged(b));
    assert [] + [Tagged(b)] == c1;
    assert FirstSeen(c1) == [b] && CountOf(c1, a) == 0 && CountOf(c1, b) == 1;
    TallyStep(c1, Tagged(a));
    assert FirstSeen(c2) == [b, a] && CountOf(c2, a) == 1 && CountOf(c2, b) == 1;
    TallyStep(c2, Tagged(a));
    assert FirstSeen(cs) == [b, a];
    assert CountOf(cs, a) == 2 && CountOf(cs, b) == 1;
    TallyOfTwoKeys(cs, b, a);
  }

  /** A tally whose keys are two languages is their two entries. */
  lemma TallyOfTwoKeys(cs: seq<Json>, x: string, y: string)
    requires AllTallyable(cs) && FirstSeen(cs) == [x, y]
    ensures Tally(cs) == [Entry(x, CountOf(cs, x)), Entry(y, CountOf(cs, y))]
  {
  }

  /** A language seen twice is listed before one seen once, though it came later. */
  lemma MoreFrequentFirst(a: string, b: string)
    requires a != "" && b != "" && a != b
    ensures LanguageList(JArr([Tagged(b), Tagged(a), Tagged(a)])) == Some(a + ", " + b)
  {
    var cs := [Tagged(b), Tagged(a), Tagged(a)];
    TallyOfLaterPair(a, b);
    assert [Entry(b, 1), Entry(a, 2)][1..] == [Entry(a, 2)];
    assert SortByCount([Entry(a, 2)]) == [Entry(a, 2)];
    assert InsertByCount(Entry(b, 1), [Entry(a, 2)]) == [Entry(a, 2), Entry(b, 1)] by {
      assert [Entry(a, 2)][1..] == [];
    }
    assert SortByCount(Tally(cs)) == [Entry(a, 2), Entry(b, 1)];
    LangsOfPair(Entry(a, 2), Entry(b, 1));
    JoinPair(a, b, ", ");
  }
}
