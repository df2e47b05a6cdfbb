/**
 * The lexicon filter: keeps the posts whose body matches at least one of the
 * selected lexicons (built-in word lists and a comma-separated custom list),
 * records which lexicons matched, and afterwards turns its result into a
 * standalone search dataset.
 *
 * The word lists on disk are an input map from lexicon id to the set of its
 * lines (present exactly when the file exists), and the regular-expression
 * engine is a parameter `matches` deciding whether a compiled lexicon finds
 * anything in a post body.
 */
module LexicalFilter {
  import opened Wrappers
  import opened Text
  import opened Datasets

  const ProcessorType := "lexical-filter"
  const UserDefined := "user-defined"
  const MatchColumn := "matching_lexicons"

  type Post = map<string, string>
  type Lexicons = map<string, set<string>>

  /** The processor's parameters, each possibly absent. */
  datatype FilterOptions = FilterOptions(
    lexicon: Option<seq<string>>,
    lexiconCustom: Option<string>,
    asRegex: Option<bool>)

  /** The exception the word-list loading raises as written (line 75). */
  datatype FilterError = LexiconKeyError(lexiconId: string)

  /**
   * A compiled lexicon `\b(p1|p2|...)\b`, case-insensitive: its alternatives
   * and whether they were passed through `re.escape`. Whether `findall` finds
   * anything does not depend on the order of the alternatives.
   */
  datatype Matcher = Matcher(phrases: set<string>, escaped: bool)

  /** The stripped pieces that are not blank, as a set. */
  function StrippedTerms(pieces: seq<string>): (r: set<string>)
    ensures forall t :: t in r ==> t != "" && Strip(t) == t
  {
    var terms := set p | p in pieces && Strip(p) != "" :: Strip(p);
    assert forall t :: t in terms ==> Strip(t) == t by {
      forall p | p in pieces {
        StripIdempotent(p);
      }
    }
    terms
  }

  /** Lines 82-83: the comma-separated custom lexicon, each piece stripped, empty pieces dropped. */
  function CustomTerms(custom: string): (r: set<string>)
    ensures forall t :: t in r ==> t != "" && ',' !in t && Strip(t) == t
  {
    StrippedTerms(Split(custom, ','))
  }

  /** A term as the custom lexicon can carry it: non-empty, no comma, no surrounding whitespace. */
  predicate IsCleanTerm(t: string) {
    t != "" && ',' !in t && !IsSpace(t[0]) && !IsSpace(t[|t| - 1])
  }

  /** Lines 66-75 as evidently intended: each existing selected word list is merged into its own id. */
  function LoadWordlists(selected: seq<string>, wordlists: Lexicons): (r: Lexicons)
    ensures forall id :: id in r <==> id in selected && id in wordlists
    ensures forall id :: id in r ==> r[id] == wordlists[id]
  {
    if |selected| == 0 then map[]
    else
      var loaded := LoadWordlists(selected[..|selected| - 1], wordlists);
      var id := selected[|selected| - 1];
      assert forall x :: x in selected <==> x in selected[..|selected| - 1] || x == id;
      if id !in wordlists then loaded
      else loaded[id := (if id in loaded then loaded[id] else {}) + wordlists[id]]
  }

  /**
   * Lines 66-75 as written: a missing file is skipped, but for an existing one
   * `lexicons[lexicon_file]` is looked up under the file's `Path`, which is
   * never a key of the string-keyed dictionary, so it raises `KeyError`.
   */
  function LoadWordlistsAsWritten(selected: seq<string>, wordlists: Lexicons): (r: Result<Lexicons, FilterError>)
    ensures r.Failure? <==> exists id :: id in selected && id in wordlists
    ensures r.Success? ==> r.value == map[]
  {
    if |selected| == 0 then Success(map[])
    else if selected[0] in wordlists then Failure(LexiconKeyError(selected[0]))
    else
      var r := LoadWordlistsAsWritten(selected[1..], wordlists);
      assert forall x :: x in selected <==> x == selected[0] || x in selected[1..];
      r
  }

  /** Lines 66-84: the word lists, then the user-defined lexicon, which is always present. */
  function AssembleLexicons(opts: FilterOptions, wordlists: Lexicons): (r: Lexicons)
    ensures UserDefined in r
    ensures forall id :: id in r <==> id == UserDefined || (id in opts.lexicon.GetOr([]) && id in wordlists)
    ensures forall id :: id in r && id != UserDefined ==> r[id] == wordlists[id]
    ensures r[UserDefined] ==
      (if UserDefined in opts.lexicon.GetOr([]) && UserDefined in wordlists then wordlists[UserDefined] else {})
      + CustomTerms(opts.lexiconCustom.GetOr(""))
  {
    var loaded := LoadWordlists(opts.lexicon.GetOr([]), wordlists);
    var base := if UserDefined in loaded then loaded else loaded[UserDefined := {}];
    base[UserDefined := base[UserDefined] + CustomTerms(opts.lexiconCustom.GetOr(""))]
  }

  /** Lines 87-99: a matcher for every lexicon with at least one term; empty terms are left out of it. */
  function BuildMatchers(lexicons: Lexicons, asRegex: bool): (r: map<string, Matcher>)
    ensures forall id :: id in r <==> id in lexicons && lexicons[id] != {}
    ensures forall id :: id in r ==> "" !in r[id].phrases && r[id].escaped == asRegex
    ensures forall id :: id in r ==> forall t :: t in lexicons[id] && t != "" ==> t in r[id].phrases
    ensures forall id :: id in r ==> r[id].phrases <= lexicons[id]
  {
    map id | id in lexicons && lexicons[id] != {} :: Matcher(lexicons[id] - {""}, asRegex)
  }

  /** `post.get("body", None)`, with a missing body read as the empty one (both are falsy). */
  function Body(p: Post): string {
    if "body" in p then p["body"] else ""
  }

  /** Lines 128-139: the ids of the lexicons whose matcher finds something in `body`. */
  function MatchingLexicons(matchers: map<string, Matcher>, body: string, matches: (Matcher, string) -> bool): (r: set<string>)
    ensures forall id :: id in r <==> id in matchers && matches(matchers[id], body)
  {
    set id | id in matchers && matches(matchers[id], body)
  }

  /** A written row: the post, plus the lexicons recorded in its `matching_lexicons` column. */
  datatype Kept = Kept(post: Post, matching: set<string>)

  /** Lines 119-150 for one post: `None` when it is skipped or dropped. */
  function Decide(p: Post, matchers: map<string, Matcher>, matches: (Matcher, string) -> bool): Option<Kept> {
    if Body(p) == "" then None
    else
      var m := MatchingLexicons(matchers, Body(p), matches);
      if m == {} then None else Some(Kept(p, m))
  }

  /** The rows written for `posts`, in input order. */
  function FilterPosts(posts: seq<Post>, matchers: map<string, Matcher>, matches: (Matcher, string) -> bool): seq<Kept> {
    if |posts| == 0 then []
    else
      var init := FilterPosts(posts[..|posts| - 1], matchers, matches);
      match Decide(posts[|posts| - 1], matchers, matches)
      case None => init
      case Some(k) => init + [k]
  }

  /** The number of posts with a non-empty body: the `processed` counter. */
  function CountBodies(posts: seq<Post>): nat {
    if |posts| == 0 then 0
    else CountBodies(posts[..|posts| - 1]) + (if Body(posts[|posts| - 1]) != "" then 1 else 0)
  }

  /** Neither counter exceeds the next: rows written, posts with a body, posts read. */
  lemma {:induction false} FilterCounts(posts: seq<Post>, matchers: map<string, Matcher>, matches: (Matcher, string) -> bool)
    ensures |FilterPosts(posts, matchers, matches)| <= CountBodies(posts) <= |posts|
  {
    if |posts| > 0 {
      FilterCounts(posts[..|posts| - 1], matchers, matches);
    }
  }

  /**
   * Lines 118-151: the loop over the source posts, counting the posts with a
   * body (`processed`) and the rows written (`matching_items`).
   */
  method RunFilter(posts: seq<Post>, matchers: map<string, Matcher>, matches: (Matcher, string) -> bool)
      returns (kept: seq<Kept>, processed: nat, matchingItems: nat)
    ensures kept == FilterPosts(posts, matchers, matches)
    ensures processed == CountBodies(posts)
    ensures matchingItems == |kept|
    ensures matchingItems <= processed <= |posts|
  {
    kept, processed, matchingItems := [], 0, 0;
    for i := 0 to |posts|
      invariant kept == FilterPosts(posts[..i], matchers, matches)
      invariant processed == CountBodies(posts[..i])
      invariant matchingItems == |kept|
    {
      assert posts[..i + 1][..i] == posts[..i];
      var post := posts[i];
      if Body(post) == "" {
        continue;
      }
      var matching := MatchingLexicons(matchers, Body(post), matches);
      processed := processed + 1;
      if matching == {} {
        continue;
      }
      kept := kept + [Kept(post, matching)];
      matchingItems := matchingItems + 1;
    }
    assert posts[..|posts|] == posts;
    FilterCounts(posts, matchers, matches);
  }

  /** What `process()` produces: the output header, the rows written, and the counters. */
  datatype FilterOutput = FilterOutput(header: seq<string>, rows: seq<Kept>, processed: nat, finishCount: nat)

  /** The matchers `process()` compiles for the given options and word lists. */
  function MatchersFor(opts: FilterOptions, wordlists: Lexicons): map<string, Matcher> {
    BuildMatchers(AssembleLexicons(opts, wordlists), opts.asRegex.GetOr(false))
  }

  /**
   * `LexicalFilter.process()`: `header` is the source file's column list and
   * `posts` its rows; `finishCount` is the count passed to `dataset.finish`.
   */
  method Process(opts: FilterOptions, wordlists: Lexicons, header: seq<string>, posts: seq<Post>,
                 matches: (Matcher, string) -> bool) returns (out: FilterOutput)
    ensures out.header == header + [MatchColumn]
    ensures out.rows == FilterPosts(posts, MatchersFor(opts, wordlists), matches)
    ensures out.processed == CountBodies(posts)
    ensures out.finishCount == |out.rows| && out.finishCount <= out.processed <= |posts|
  {
    var matchers := MatchersFor(opts, wordlists);
    var rows, processed, matchingItems := RunFilter(posts, matchers, matches);
    out := FilterOutput(header + [MatchColumn], rows, processed, matchingItems);
  }

  datatype Standalone = Standalone(store: Store, copyKey: Key)

  /** `top_parent.parameters.get("datasource", "custom")`. */
  function SourceDatasource(top: Dataset): Value {
    if "datasource" in top.parameters then top.parameters["datasource"] else Str("custom")
  }

  /** `top_parent.board`, falling back to the processor type where reading it raises `KeyError`. */
  function SourceBoard(top: Dataset): Value {
    if "board" in top.parameters then top.parameters["board"] else Str(ProcessorType)
  }

  /**
   * `LexicalFilter.after_process()`: copies the filter's own dataset `own`
   * under a fresh key, re-types the copy as a root `search` dataset filtered
   * from `source`'s query, detaches it, and points `own` at the copy.
   */
  function AfterProcess(s: Store, own: Key, source: Key): Standalone
    requires own in s.datasets && source in s.datasets
  {
    var d := s.datasets[own];
    var top := s.datasets[source];
    var k := s.nextKey;
    var params := d.parameters
      ["body_match" := Str("(Filtered) " + top.query)]
      ["datasource" := SourceDatasource(top)]
      ["board" := SourceBoard(top)];
    var copy := d.(key := k, dtype := "search", parameters := params - {"key_parent"}, parent := None);
    Standalone(Store(s.datasets[k := copy][own := d.(copiedTo := Some(k))], s.queue, k + 1), k)
  }
}

module LexicalFilterProperties {
  import opened Wrappers
  import opened Text
  import opened Datasets
  import opened LexicalFilter

  /**
   * Parsing a comma-joined list of clean terms gives back exactly the set of
   * those terms: the custom-lexicon parser inverts joining with commas.
   */
  lemma CustomTermsOfJoin(ts: seq<string>)
    requires |ts| >= 1
    requires forall t :: t in ts ==> IsCleanTerm(t)
    ensures CustomTerms(Join(ts, ',')) == set t | t in ts
  {
    SplitJoin(ts, ',');
    StrippedTermsOfClean(ts);
  }

  /** Clean pieces are kept as they are, and all of them are kept. */
  lemma StrippedTermsOfClean(ts: seq<string>)
    requires forall t :: t in ts ==> IsCleanTerm(t)
    ensures StrippedTerms(ts) == set t | t in ts
  {
    var r := StrippedTerms(ts);
    forall t | t in ts
      ensures t in r
    {
      StripClean(t);
    }
    forall t | t in r
      ensures t in ts
    {
      var p :| p in ts && Strip(p) != "" && Strip(p) == t;
      StripClean(p);
    }
  }

  /** Whitespace-only and empty pieces contribute nothing: a blank custom lexicon is empty. */
  lemma CustomTermsBlank(custom: string)
    requires forall k :: 0 <= k < |custom| ==> IsSpace(custom[k]) || custom[k] == ','
    ensures CustomTerms(custom) == {}
  {
    JoinSplit(custom, ',');
    forall p | p in Split(custom, ',')
      ensures Strip(p) == ""
    {
      forall c | c in p
        ensures IsSpace(c)
      {
        JoinedPartChars(Split(custom, ','), ',', p, c);
      }
      StripEmpty(p);
    }
  }

  /** A character of one part of a join is a character of the join. */
  lemma {:induction false} JoinedPartChars(parts: seq<string>, sep: char, p: string, c: char)
    requires |parts| >= 1 && p in parts && c in p
    ensures c in Join(parts, sep)
  {
    if |parts| > 1 && p != parts[0] {
      JoinedPartChars(parts[1..], sep, p, c);
    }
  }

  /**
   * The bug at line 75 as a property: whenever a selected word list exists,
   * the code as written raises, while the intended loading yields that list's
   * terms under its id.
   */
  lemma WordlistKeyErrorDiverges(selected: seq<string>, wordlists: Lexicons, id: string)
    requires id in selected && id in wordlists
    ensures LoadWordlistsAsWritten(selected, wordlists).Failure?
    ensures id in LoadWordlists(selected, wordlists) && LoadWordlists(selected, wordlists)[id] == wordlists[id]
  {
  }

  /** A concrete instance: selecting one existing list. */
  lemma WordlistKeyErrorExample()
    ensures LoadWordlistsAsWritten(["hatebase-en-unambiguous"], map["hatebase-en-unambiguous" := {"term"}])
      == Failure(LexiconKeyError("hatebase-en-unambiguous"))
    ensures LoadWordlists(["hatebase-en-unambiguous"], map["hatebase-en-unambiguous" := {"term"}])
      == map["hatebase-en-unambiguous" := {"term"}]
  {
    var sel := ["hatebase-en-unambiguous"];
    var wl := map["hatebase-en-unambiguous" := {"term"}];
    assert LoadWordlists(sel[..0], wl) == map[];
  }

  /**
   * A lexicon matches a body exactly when it has at least one term and its
   * compiled alternatives (the non-empty terms, escaped iff `as_regex`) match.
   */
  lemma MatchingIff(opts: FilterOptions, wordlists: Lexicons, body: string, matches: (Matcher, string) -> bool, id: string)
    ensures var lex := AssembleLexicons(opts, wordlists);
      id in MatchingLexicons(MatchersFor(opts, wordlists), body, matches) <==>
        id in lex && lex[id] != {} && matches(Matcher(lex[id] - {""}, opts.asRegex.GetOr(false)), body)
  {
  }

  /** Filtering distributes over concatenation: rows come out in input order. */
  lemma {:induction false} FilterAppend(a: seq<Post>, b: seq<Post>, matchers: map<string, Matcher>, matches: (Matcher, string) -> bool)
    ensures FilterPosts(a + b, matchers, matches) == FilterPosts(a, matchers, matches) + FilterPosts(b, matchers, matches)
  {
    if |b| == 0 {
      assert a + b == a;
    } else {
      var b' := b[..|b| - 1];
      FilterAppend(a, b', matchers, matches);
      assert (a + b)[..|a + b| - 1] == a + b';
      assert (a + b)[|a + b| - 1] == b[|b| - 1];
    }
  }

  /**
   * A row is written exactly for a post with a non-empty body that some
   * compiled lexicon matches, and its recorded lexicons are exactly the ones
   * that match.
   */
  lemma {:induction false} KeptIff(posts: seq<Post>, matchers: map<string, Matcher>, matches: (Matcher, string) -> bool, p: Post, m: set<string>)
    ensures Kept(p, m) in FilterPosts(posts, matchers, matches) <==>
      && p in posts
      && Body(p) != ""
      && m == MatchingLexicons(matchers, Body(p), matches)
      && m != {}
  {
    if |posts| > 0 {
      var init := posts[..|posts| - 1];
      KeptIff(init, matchers, matches, p, m);
      assert posts == init + [posts[|posts| - 1]];
      assert forall q :: q in posts <==> q in init || q == posts[|posts| - 1];
    }
  }

  /**
   * The standalone copy: a fresh root dataset of type `search` without a
   * `key_parent` parameter, whose `body_match` is the source's query prefixed
   * with "(Filtered) ", whose `datasource` defaults to "custom" and whose
   * `board` falls back to the processor type; every other parameter and field
   * is the filter dataset's own. The filter dataset records the copy's key and
   * is otherwise unchanged, and no other dataset or job changes.
   */
  lemma AfterProcessSpec(s: Store, own: Key, source: Key)
    requires Valid(s) && own in s.datasets && source in s.datasets
    ensures var r := AfterProcess(s, own, source);
      var d := s.datasets[own];
      var top := s.datasets[source];
      && r.copyKey !in s.datasets
      && r.store.datasets.Keys == s.datasets.Keys + {r.copyKey}
      && r.store.queue == s.queue
      && var c := r.store.datasets[r.copyKey];
      && c.key == r.copyKey && c.dtype == "search" && c.parent == None
      && "key_parent" !in c.parameters
      && c.parameters["body_match"] == Str("(Filtered) " + top.query)
      && c.parameters["datasource"] == (if "datasource" in top.parameters then top.parameters["datasource"] else Str("custom"))
      && c.parameters["board"] == (if "board" in top.parameters then top.parameters["board"] else Str("lexical-filter"))
      && (forall n :: n in d.parameters && n !in {"key_parent", "body_match", "datasource", "board"} ==>
            n in c.parameters && c.parameters[n] == d.parameters[n])
      && c.parameters.Keys == d.parameters.Keys - {"key_parent"} + {"body_match", "datasource", "board"}
      && c.query == d.query && c.finished == d.finished && c.numRows == d.numRows
      && r.store.datasets[own] == d.(copiedTo := Some(r.copyKey))
      && (forall k :: k in s.datasets && k != own ==> r.store.datasets[k] == s.datasets[k])
  {
    var r := AfterProcess(s, own, source);
    var d := s.datasets[own];
    var top := s.datasets[source];
    var k := s.nextKey;
    var params := d.parameters
      ["body_match" := Str("(Filtered) " + top.query)]
      ["datasource" := SourceDatasource(top)]
      ["board" := SourceBoard(top)];
    var c := d.(key := k, dtype := "search", parameters := params - {"key_parent"}, parent := None);
    assert k != own;
    assert r.store.datasets[k] == c;
  }

  /** Making the standalone copy keeps the store valid: the copy is a new root. */
  lemma AfterProcessKeepsValid(s: Store, own: Key, source: Key)
    requires Valid(s) && own in s.datasets && source in s.datasets
    ensures Valid(AfterProcess(s, own, source).store)
  {
    var r := AfterProcess(s, own, source);
    assert s.nextKey !in s.datasets;
    assert forall k :: k in r.store.datasets ==> k == s.nextKey || k in s.datasets;
  }
}
