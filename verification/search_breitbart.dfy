/**
 * Post-processing of Breitbart search results: rows that open a thread (an
 * article: its `thread_id` is its own `id` and it has a subject) receive the
 * thread's `url`, `section` and `tags` from the thread-metadata table; every
 * other row receives the three columns empty. The metadata table is an input.
 */
module BreitbartSearch {
  import opened Wrappers

  /** A search result row: column name to value. */
  type Post = map<string, string>

  /** One row of the thread-metadata table. */
  datatype ThreadMeta = ThreadMeta(url: string, section: string, tags: string)

  /** The `KeyError`s the post-processing can raise: a row without a column, or a thread without metadata. */
  datatype SearchError = MissingField(field: string) | MissingThread(threadId: string)

  /** The columns the enrichment adds. */
  const MetaColumns: set<string> := {"url", "section", "tags"}

  function MetaRow(m: ThreadMeta): (r: Post)
    ensures r.Keys == MetaColumns
  {
    map["url" := m.url, "section" := m.section, "tags" := m.tags]
  }

  const EmptyMeta: Post := map["url" := "", "section" := "", "tags" := ""]

  predicate HasColumns(p: Post) {
    "thread_id" in p && "id" in p && "subject" in p
  }

  /** A row that opens a thread with a non-empty subject. */
  predicate IsArticle(p: Post)
    requires HasColumns(p)
  {
    p["thread_id"] == p["id"] && p["subject"] != ""
  }

  /** Reference definition: the thread ids of all article rows. */
  function ArticleThreadIds(posts: seq<Post>): set<string>
    requires forall p :: p in posts ==> HasColumns(p)
  {
    set p | p in posts && IsArticle(p) :: p["thread_id"]
  }

  /** Lines 36-39: the thread-id collection loop, raising where a row lacks a column it reads. */
  function CollectThreadIds(posts: seq<Post>): Result<set<string>, SearchError> {
    if |posts| == 0 then Success({})
    else
      var p := posts[0];
      if "thread_id" !in p then Failure(MissingField("thread_id"))
      else if "id" !in p then Failure(MissingField("id"))
      else if p["thread_id"] == p["id"] && "subject" !in p then Failure(MissingField("subject"))
      else
        var rest :- CollectThreadIds(posts[1..]);
        Success(if p["thread_id"] == p["id"] && p["subject"] != "" then {p["thread_id"]} + rest else rest)
  }

  /** Whether a row qualifies for metadata: non-empty subject and a collected thread id. */
  predicate Qualifies(p: Post, ids: set<string>)
    requires "subject" in p
  {
    p["subject"] != "" && "thread_id" in p && p["thread_id"] in ids
  }

  /**
   * What an output row is, given its input row: the input row with `url`,
   * `section` and `tags` added (overriding any present) — the thread's
   * metadata for a qualifying row, empty strings for every other row — and
   * every other column unchanged.
   */
  ghost predicate EnrichedFrom(out: Post, p: Post, ids: set<string>, md: map<string, ThreadMeta>) {
    && "subject" in p
    && out.Keys == p.Keys + MetaColumns
    && (forall k :: k in p && k !in MetaColumns ==> out[k] == p[k])
    && (if Qualifies(p, ids)
        then p["thread_id"] in md && out["url"] == md[p["thread_id"]].url
             && out["section"] == md[p["thread_id"]].section && out["tags"] == md[p["thread_id"]].tags
        else out["url"] == "" && out["section"] == "" && out["tags"] == "")
  }

  /** Lines 49-52 for one row. */
  function EnrichPost(p: Post, ids: set<string>, md: map<string, ThreadMeta>): (r: Result<Post, SearchError>)
    ensures r.Success? <==>
      && "subject" in p
      && (p["subject"] != "" ==> "thread_id" in p)
      && (Qualifies(p, ids) ==> p["thread_id"] in md)
  {
    if "subject" !in p then Failure(MissingField("subject"))
    else if p["subject"] != "" && "thread_id" !in p then Failure(MissingField("thread_id"))
    else if p["subject"] != "" && p["thread_id"] in ids then
      var tid := p["thread_id"];
      if tid !in md then Failure(MissingThread(tid))
      else Success(p + MetaRow(md[tid]))
    else Success(p + EmptyMeta)
  }

  /**
   * A row that goes through comes out enriched: metadata or empty strings in
   * `url`, `section` and `tags`, every other column unchanged.
   */
  lemma EnrichPostMerges(p: Post, ids: set<string>, md: map<string, ThreadMeta>)
    ensures EnrichPost(p, ids, md).Success? ==> EnrichedFrom(EnrichPost(p, ids, md).value, p, ids, md)
  {
  }

  /** Lines 47-54: every row, in order, enriched; the first failing row aborts. */
  function Enrich(posts: seq<Post>, ids: set<string>, md: map<string, ThreadMeta>): Result<seq<Post>, SearchError> {
    if |posts| == 0 then Success([])
    else
      var q :- EnrichPost(posts[0], ids, md);
      var rest :- Enrich(posts[1..], ids, md);
      Success([q] + rest)
  }

  /**
   * The enrichment succeeds exactly when every row does; then it keeps the
   * length and order of the input, and each output row is its input row
   * enriched.
   */
  lemma {:induction false} EnrichSpec(posts: seq<Post>, ids: set<string>, md: map<string, ThreadMeta>)
    ensures var r := Enrich(posts, ids, md);
      && (r.Success? <==> forall i :: 0 <= i < |posts| ==> EnrichPost(posts[i], ids, md).Success?)
      && (r.Success? ==> |r.value| == |posts|)
      && (r.Success? ==> forall i :: 0 <= i < |posts| ==> EnrichedFrom(r.value[i], posts[i], ids, md))
  {
    EnrichTotal(posts, ids, md);
    EnrichRows(posts, ids, md);
  }

  /** The enrichment succeeds exactly when every row does. */
  lemma {:induction false} EnrichTotal(posts: seq<Post>, ids: set<string>, md: map<string, ThreadMeta>)
    ensures Enrich(posts, ids, md).Success? <==> forall i :: 0 <= i < |posts| ==> EnrichPost(posts[i], ids, md).Success?
  {
    if |posts| > 0 {
      var tail := posts[1..];
      EnrichTotal(tail, ids, md);
      if Enrich(posts, ids, md).Success? {
        forall i | 0 <= i < |posts|
          ensures EnrichPost(posts[i], ids, md).Success?
        {
          if i > 0 {
            assert posts[i] == tail[i - 1];
          }
        }
      } else if EnrichPost(posts[0], ids, md).Success? {
        var j :| 0 <= j < |tail| && EnrichPost(tail[j], ids, md).Failure?;
        assert posts[j + 1] == tail[j];
      }
    }
  }

  /** A successful enrichment keeps length and order, and enriches each row. */
  lemma EnrichRows(posts: seq<Post>, ids: set<string>, md: map<string, ThreadMeta>)
    ensures var r := Enrich(posts, ids, md);
      r.Success? ==> |r.value| == |posts| && forall i :: 0 <= i < |posts| ==> EnrichedFrom(r.value[i], posts[i], ids, md)
  {
    var r := Enrich(posts, ids, md);
    if r.Success? {
      EnrichLength(posts, ids, md);
      forall i | 0 <= i < |posts|
        ensures EnrichedFrom(r.value[i], posts[i], ids, md)
      {
        EnrichRow(posts, ids, md, i);
        EnrichPostMerges(posts[i], ids, md);
      }
    }
  }

  lemma {:induction false} EnrichLength(posts: seq<Post>, ids: set<string>, md: map<string, ThreadMeta>)
    ensures var r := Enrich(posts, ids, md);
      r.Success? ==> |r.value| == |posts|
  {
    if |posts| > 0 {
      EnrichLength(posts[1..], ids, md);
    }
  }

  /** Output row `i` of a successful enrichment is input row `i` enriched on its own. */
  lemma {:induction false} EnrichRow(posts: seq<Post>, ids: set<string>, md: map<string, ThreadMeta>, i: nat)
    requires Enrich(posts, ids, md).Success? && i < |posts|
    ensures EnrichPost(posts[i], ids, md).Success?
    ensures i < |Enrich(posts, ids, md).value| && Enrich(posts, ids, md).value[i] == EnrichPost(posts[i], ids, md).value
  {
    if i > 0 {
      EnrichRow(posts[1..], ids, md, i - 1);
    }
  }

  /** `SearchBreitbart.after_search(posts)`, with the metadata query's result as `md`. */
  function AfterSearch(posts: seq<Post>, md: map<string, ThreadMeta>): Result<seq<Post>, SearchError> {
    var ids :- CollectThreadIds(posts);
    Enrich(posts, ids, md)
  }

  /** Prepends already processed rows to the outcome of processing the rest. */
  function Prepend(done: seq<Post>, r: Result<seq<Post>, SearchError>): Result<seq<Post>, SearchError> {
    if r.Success? then Success(done + r.value) else r
  }

  /** One step of the enrichment loop: the first row's outcome decides, then the rest follows. */
  lemma EnrichStep(posts: seq<Post>, ids: set<string>, md: map<string, ThreadMeta>)
    requires |posts| > 0
    ensures var e := EnrichPost(posts[0], ids, md);
      Enrich(posts, ids, md) == if e.Failure? then Failure(e.error) else Prepend([e.value], Enrich(posts[1..], ids, md))
  {
  }

  /** `EnrichStep` for the suffix of `posts` that starts at row `i`. */
  lemma EnrichAt(posts: seq<Post>, i: nat, ids: set<string>, md: map<string, ThreadMeta>)
    requires i < |posts|
    ensures var e := EnrichPost(posts[i], ids, md);
      Enrich(posts[i..], ids, md) == if e.Failure? then Failure(e.error) else Prepend([e.value], Enrich(posts[i + 1..], ids, md))
  {
    assert posts[i..][1..] == posts[i + 1..];
    EnrichStep(posts[i..], ids, md);
  }

  lemma PrependTwice(a: seq<Post>, b: seq<Post>, r: Result<seq<Post>, SearchError>)
    ensures Prepend(a, Prepend(b, r)) == Prepend(a + b, r)
  {
    if r.Success? {
      assert a + (b + r.value) == (a + b) + r.value;
    }
  }

  /**
   * Row `j` is the first row whose enrichment raises: every row before it
   * goes through.
   */
  predicate FirstFailing(posts: seq<Post>, ids: set<string>, md: map<string, ThreadMeta>, j: nat) {
    && j < |posts|
    && EnrichPost(posts[j], ids, md).Failure?
    && forall k :: 0 <= k < j ==> EnrichPost(posts[k], ids, md).Success?
  }

  /**
   * `after_search` as the source runs it: the second loop pops rows off the
   * front of `posts` and then processes them, appending each processed row.
   * `remaining` is what is left of the caller's list: all of it when the
   * first loop raises, nothing after a normal return, and the rows after the
   * first raising row when the second loop raises (that row is already popped).
   */
  method RunAfterSearch(posts: seq<Post>, md: map<string, ThreadMeta>)
      returns (r: Result<seq<Post>, SearchError>, remaining: seq<Post>)
    ensures r == AfterSearch(posts, md)
    ensures r.Success? ==> remaining == []
    ensures CollectThreadIds(posts).Failure? ==> remaining == posts
    ensures CollectThreadIds(posts).Success? && r.Failure? ==>
      exists j :: FirstFailing(posts, CollectThreadIds(posts).value, md, j) && remaining == posts[j + 1..]
  {
    var collected := CollectThreadIds(posts);
    if collected.Failure? {
      return Failure(collected.error), posts;
    }
    var ids := collected.value;
    assert AfterSearch(posts, md) == Enrich(posts, ids, md);
    var processed: seq<Post> := [];
    remaining := posts;
    assert Prepend([], Enrich(posts, ids, md)) == Enrich(posts, ids, md) by {
      if Enrich(posts, ids, md).Success? {
        assert [] + Enrich(posts, ids, md).value == Enrich(posts, ids, md).value;
      }
    }
    var i := 0;
    while i < |posts|
      invariant i <= |posts| && remaining == posts[i..] && |processed| == i
      invariant forall k :: 0 <= k < i ==> EnrichPost(posts[k], ids, md).Success?
      invariant AfterSearch(posts, md) == Prepend(processed, Enrich(posts[i..], ids, md))
      decreases |posts| - i
    {
      var post := remaining[0];
      remaining := remaining[1..];
      EnrichAt(posts, i, ids, md);
      var e := EnrichPost(post, ids, md);
      if e.Failure? {
        assert FirstFailing(posts, ids, md, i);
        return Failure(e.error), remaining;
      }
      PrependTwice(processed, [e.value], Enrich(posts[i + 1..], ids, md));
      processed := processed + [e.value];
      i := i + 1;
    }
    assert processed + [] == processed;
    r := Success(processed);
  }
}

module BreitbartSearchProperties {
  import opened Wrappers
  import opened BreitbartSearch

  /** The collection loop succeeds exactly when every row has the columns it reads. */
  lemma {:induction false} CollectThreadIdsTotal(posts: seq<Post>)
    ensures CollectThreadIds(posts).Success? <==>
      forall p :: p in posts ==> "thread_id" in p && "id" in p && (p["thread_id"] == p["id"] ==> "subject" in p)
  {
    if |posts| > 0 {
      CollectThreadIdsTotal(posts[1..]);
      assert forall p :: p in posts <==> p == posts[0] || p in posts[1..];
    }
  }

  /** `thread_ids` is exactly the set of thread ids of the article rows. */
  lemma {:induction false} CollectThreadIdsSpec(posts: seq<Post>)
    requires forall p :: p in posts ==> HasColumns(p)
    ensures CollectThreadIds(posts) == Success(ArticleThreadIds(posts))
  {
    if |posts| > 0 {
      CollectThreadIdsSpec(posts[1..]);
      assert forall p :: p in posts <==> p == posts[0] || p in posts[1..];
      var p := posts[0];
      assert p in posts;
      var rest := ArticleThreadIds(posts[1..]);
      assert CollectThreadIds(posts) == Success(if IsArticle(p) then {p["thread_id"]} + rest else rest);
      if IsArticle(p) {
        assert ArticleThreadIds(posts) == {p["thread_id"]} + rest;
      } else {
        assert forall t :: t in ArticleThreadIds(posts) ==> t in rest;
        assert ArticleThreadIds(posts) == rest;
      }
    } else {
      assert forall t :: t !in ArticleThreadIds(posts);
      assert ArticleThreadIds(posts) == {};
    }
  }

  /**
   * `after_search` returns normally exactly when every row has `thread_id`,
   * `id` and `subject` and every article's thread has a metadata row.
   */
  lemma AfterSearchTotal(posts: seq<Post>, md: map<string, ThreadMeta>)
    ensures AfterSearch(posts, md).Success? <==>
      && (forall p :: p in posts ==> HasColumns(p))
      && ArticleThreadIds(posts) <= md.Keys
  {
    CollectThreadIdsTotal(posts);
    var c := CollectThreadIds(posts);
    if c.Success? {
      EnrichSpec(posts, c.value, md);
    }
    if (forall p :: p in posts ==> HasColumns(p)) {
      CollectThreadIdsSpec(posts);
      var ids := ArticleThreadIds(posts);
      if ids <= md.Keys {
        forall i | 0 <= i < |posts|
          ensures EnrichPost(posts[i], ids, md).Success?
        {
          assert posts[i] in posts;
        }
      }
      if AfterSearch(posts, md).Success? {
        forall a | a in ids
          ensures a in md
        {
          var p :| p in posts && IsArticle(p) && p["thread_id"] == a;
          var i :| 0 <= i < |posts| && posts[i] == p;
          assert EnrichPost(posts[i], ids, md).Success?;
        }
      }
    }
    if AfterSearch(posts, md).Success? {
      forall p | p in posts
        ensures HasColumns(p)
      {
        var i :| 0 <= i < |posts| && posts[i] == p;
        assert EnrichPost(posts[i], c.value, md).Success?;
      }
    }
  }

  /**
   * On success the output has the input's length and order, and each output
   * row is its input row enriched with the article thread ids: metadata for
   * qualifying rows (overriding existing values), empty `url`/`section`/`tags`
   * for all others, every other column unchanged.
   */
  lemma AfterSearchSpec(posts: seq<Post>, md: map<string, ThreadMeta>)
    requires AfterSearch(posts, md).Success?
    ensures var out := AfterSearch(posts, md).value;
      && |out| == |posts|
      && (forall p :: p in posts ==> HasColumns(p))
      && forall i :: 0 <= i < |posts| ==> EnrichedFrom(out[i], posts[i], ArticleThreadIds(posts), md)
  {
    AfterSearchTotal(posts, md);
    CollectThreadIdsSpec(posts);
    EnrichSpec(posts, ArticleThreadIds(posts), md);
  }
}
