/**
 * The daily-snapshot worker: once the snapshot's search dataset is finished,
 * it queues three analyses under it (top neologisms, top bigrams, top
 * countries), each writing a copy of its result under the snapshot data path.
 */
module SnapshotAnalyser {
  import opened Wrappers
  import opened Text
  import opened Datasets

  /** Seconds after which an unfinished target is looked at again. */
  const RecheckDelay: nat := 5

  /** `config.PATH_SNAPSHOTDATA`, an opaque path prefix. */
  datatype Config = Config(snapshotDataPath: string)

  /** The exceptions the file-prefix formatting can raise: `KeyError` and `TypeError`. */
  datatype FormatError = MissingParameter(name: string) | BadType(name: string)

  /**
   * How `work()` ends for the job: `job.finish()`, `job.release(delay)`, or an
   * exception that propagates out of the worker (neither of the two).
   */
  datatype Outcome = Finished | Released(delay: nat) | Crashed(error: FormatError)

  datatype WorkResult = WorkResult(store: Store, outcome: Outcome)

  /** `"%i" % v`: integers and booleans render as decimals; anything else raises. */
  function FormatInt(name: string, v: Value): (r: Result<string, FormatError>)
    ensures r.Success? <==> v.Int? || v.Bool?
    ensures v.Int? ==> r == Success(IntToString(v.i))
  {
    match v
    case Int(i) => Success(IntToString(i))
    case Bool(b) => Success(if b then "1" else "0")
    case _ => Failure(BadType(name))
  }

  /** `"%s" % v` for scalar values; `None` renders as its name. */
  function FormatStr(name: string, v: Value): (r: Result<string, FormatError>)
    ensures r.Success? <==> !v.List? && !v.Dict?
    ensures v.Str? ==> r == Success(v.s)
    ensures v.Null? ==> r == Success("None")
  {
    match v
    case Null => Success("None")
    case Str(s) => Success(s)
    case Int(i) => Success(IntToString(i))
    case Bool(b) => Success(if b then "True" else "False")
    case _ => Failure(BadType(name))
  }

  /** `"/%i-%s-%s" % (max_date, datasource, board)`, reading the three parameters in order. */
  function FilePrefix(params: Parameters): (r: Result<string, FormatError>)
    ensures r.Success? <==>
      && "max_date" in params && "datasource" in params && "board" in params
      && FormatInt("max_date", params["max_date"]).Success?
      && FormatStr("datasource", params["datasource"]).Success?
      && FormatStr("board", params["board"]).Success?
    ensures r.Success? ==> "max_date" in params && "datasource" in params && "board" in params
    ensures r.Success? ==> exists date, source, board ::
      FormatInt("max_date", params["max_date"]) == Success(date) &&
      FormatStr("datasource", params["datasource"]) == Success(source) &&
      FormatStr("board", params["board"]) == Success(board) &&
      r.value == "/" + date + "-" + source + "-" + board
  {
    if "max_date" !in params then Failure(MissingParameter("max_date"))
    else if "datasource" !in params then Failure(MissingParameter("datasource"))
    else if "board" !in params then Failure(MissingParameter("board"))
    else
      var date :- FormatInt("max_date", params["max_date"]);
      var source :- FormatStr("datasource", params["datasource"]);
      var board :- FormatStr("board", params["board"]);
      Success("/" + date + "-" + source + "-" + board)
  }

  /** A `next` entry: `{"type": t, "parameters": p}`. */
  function ChainEntry(t: string, p: Parameters): Value {
    Dict(map["type" := Str(t), "parameters" := Dict(p)])
  }

  /** Tokenise with three word filters, then vectorise and rank the top 15 tokens. */
  function NeologismsParameters(cfg: Config, prefix: string): Parameters {
    var ranker := map[
      "amount" := Bool(true),
      "top" := Int(15),
      "copy_to" := Str(cfg.snapshotDataPath + prefix + "-neologisms.csv")];
    var vectorise := map["next" := List([ChainEntry("vector-ranker", ranker)])];
    map[
      "next" := List([ChainEntry("vectorise-tokens", vectorise)]),
      "echobrackets" := Bool(false),
      "stem" := Bool(false),
      "lemmatise" := Bool(false),
      "timeframe" := Str("all"),
      "filter" := List([Str("wordlist-cracklib-english"), Str("wordlist-unknown-dutch"), Str("stopwords-iso-all")])]
  }

  /** Tokenise with English stemming, then find the top 15 bigrams. */
  function BigramsParameters(cfg: Config, prefix: string): Parameters {
    var collocations := map[
      "n_size" := Int(2),
      "window_size" := Int(3),
      "max_output" := Int(15),
      "copy_to" := Str(cfg.snapshotDataPath + prefix + "-bigrams.csv")];
    map[
      "next" := List([ChainEntry("collocations", collocations)]),
      "echobrackets" := Bool(false),
      "stem" := Str("english"),
      "lemmatise" := Bool(false),
      "timeframe" := Str("all"),
      "filter" := List([Str("stopwords-iso-all")])]
  }

  /** Count the 15 most frequent country codes. */
  function CountriesParameters(cfg: Config, prefix: string): Parameters {
    map[
      "top" := Int(15),
      "attribute" := Str("country_code"),
      "timeframe" := Str("all"),
      "copy_to" := Str(cfg.snapshotDataPath + prefix + "-countries.csv")]
  }

  /** One analysis to start: the dataset (and job) type and its parameters. */
  datatype Analysis = Analysis(dtype: string, parameters: Parameters)

  /** Lines 32-80: the three analyses, in the order the worker creates them. */
  function Analyses(cfg: Config, prefix: string): seq<Analysis> {
    [Analysis("tokenise-posts", NeologismsParameters(cfg, prefix)),
     Analysis("tokenise-posts", BigramsParameters(cfg, prefix)),
     Analysis("attribute-frequencies", CountriesParameters(cfg, prefix))]
  }

  /** `SnapshotAnalyser.work()` for the claimed `job`. */
  function Work(s: Store, job: Job, cfg: Config): WorkResult {
    match Lookup(s, job.remoteId)
    case None => WorkResult(s, Finished)
    case Some(query) =>
      if !query.finished then WorkResult(s, Released(RecheckDelay))
      else
        match FilePrefix(query.parameters)
        case Failure(e) => WorkResult(s, Crashed(e))
        case Success(prefix) => WorkResult(Spawn(s, query.key, Analyses(cfg, prefix)), Finished)
  }

  /**
   * Each analysis dataset is created under `parent` and its job queued right
   * after it, in list order.
   */
  function Spawn(s: Store, parent: Key, analyses: seq<Analysis>): Store
    decreases |analyses|
  {
    if |analyses| == 0 then s
    else
      var a := analyses[0];
      var c := Create(s, a.dtype, a.parameters, Some(parent));
      Spawn(AddJob(c.store, a.dtype, c.key), parent, analyses[1..])
  }

  /** The follow-on dataset types a parameter tree declares under `next`, depth first. */
  function Chain(v: Value): seq<string> {
    match v
    case List(items) => ChainList(items)
    case Dict(m) =>
      (if "type" in m && m["type"].Str? then [m["type"].s] else [])
      + (if "parameters" in m then Chain(m["parameters"]) else [])
      + (if "next" in m then Chain(m["next"]) else [])
    case _ => []
  }

  function ChainList(items: seq<Value>): seq<string> {
    if |items| == 0 then [] else Chain(items[0]) + ChainList(items[1..])
  }

  /** Every `copy_to` path in a parameter tree and in the parameters of its `next` chain. */
  function CopyTargets(v: Value): seq<string> {
    match v
    case List(items) => CopyTargetsList(items)
    case Dict(m) =>
      (if "copy_to" in m && m["copy_to"].Str? then [m["copy_to"].s] else [])
      + (if "parameters" in m then CopyTargets(m["parameters"]) else [])
      + (if "next" in m then CopyTargets(m["next"]) else [])
    case _ => []
  }

  function CopyTargetsList(items: seq<Value>): seq<string> {
    if |items| == 0 then [] else CopyTargets(items[0]) + CopyTargetsList(items[1..])
  }
}

module SnapshotAnalyserProperties {
  import opened Wrappers
  import opened Datasets
  import opened SnapshotAnalyser

  /** The target dataset of `job` exists and has finished. */
  predicate TargetFinished(s: Store, job: Job) {
    job.remoteId in s.datasets && s.datasets[job.remoteId].finished
  }

  /** A missing target is a permanent condition: the job is finished and the store is untouched. */
  lemma WorkMissingTarget(s: Store, job: Job, cfg: Config)
    requires job.remoteId !in s.datasets
    ensures Work(s, job, cfg) == WorkResult(s, Finished)
  {
  }

  /** An unfinished target is polled: the job is released with a delay of exactly five and nothing is created or queued. */
  lemma WorkUnfinishedTarget(s: Store, job: Job, cfg: Config)
    requires job.remoteId in s.datasets && !s.datasets[job.remoteId].finished
    ensures Work(s, job, cfg) == WorkResult(s, Released(5))
  {
  }

  /**
   * Every run ends in exactly one of finish or release, unless formatting the
   * file prefix raises; the store changes only on the finishing path of a
   * finished target.
   */
  lemma WorkOutcome(s: Store, job: Job, cfg: Config)
    ensures var r := Work(s, job, cfg);
      && (r.outcome.Crashed? <==> TargetFinished(s, job) && FilePrefix(s.datasets[job.remoteId].parameters).Failure?)
      && (r.outcome.Released? <==> job.remoteId in s.datasets && !s.datasets[job.remoteId].finished)
      && (r.outcome.Released? ==> r.outcome.delay == RecheckDelay)
      && (r.store != s ==> r.outcome == Finished && TargetFinished(s, job))
  {
    var r := Work(s, job, cfg);
    if TargetFinished(s, job) && FilePrefix(s.datasets[job.remoteId].parameters).Success? {
      var prefix := FilePrefix(s.datasets[job.remoteId].parameters).value;
      var q := s.datasets[job.remoteId];
      assert r.store == Spawn(s, q.key, Analyses(cfg, prefix));
      SpawnQueue(s, q.key, Analyses(cfg, prefix));
      assert r.store.nextKey == s.nextKey + 3;
    }
  }

  /** On the finishing path of a finished target, the store is the target's three analyses spawned. */
  lemma WorkFinishedStore(s: Store, job: Job, cfg: Config, prefix: string)
    requires Valid(s)
    requires TargetFinished(s, job)
    requires FilePrefix(s.datasets[job.remoteId].parameters) == Success(prefix)
    ensures Work(s, job, cfg) == WorkResult(Spawn(s, job.remoteId, Analyses(cfg, prefix)), Finished)
  {
  }

  /** The `i`-th analysis spawned: created under the next free key plus `i`, as an unfinished child of `parent`. */
  function NewChild(s: Store, parent: Key, analyses: seq<Analysis>, i: nat): Dataset
    requires i < |analyses|
  {
    Dataset(s.nextKey + i, analyses[i].dtype, "", analyses[i].parameters, Some(parent), false, 0, None)
  }

  /** `Spawn` advances the allocator and extends the queue by one per analysis, keeping what was queued. */
  lemma {:induction false} SpawnGrowth(s: Store, parent: Key, analyses: seq<Analysis>)
    ensures var r := Spawn(s, parent, analyses);
      && r.nextKey == s.nextKey + |analyses|
      && |r.queue| == |s.queue| + |analyses|
      && r.queue[..|s.queue|] == s.queue
    decreases |analyses|
  {
    if |analyses| > 0 {
      var a := analyses[0];
      var c := Create(s, a.dtype, a.parameters, Some(parent));
      var s1 := AddJob(c.store, a.dtype, c.key);
      SpawnGrowth(s1, parent, analyses[1..]);
      var r := Spawn(s1, parent, analyses[1..]);
      assert s1.nextKey == s.nextKey + 1 && s1.queue == s.queue + [Job(a.dtype, s.nextKey)];
      assert r.queue[..|s.queue|] == r.queue[..|s1.queue|][..|s.queue|];
    }
  }

  /**
   * The queue `Spawn` leaves behind: one job per analysis appended in list
   * order, for consecutive fresh keys starting at the allocator.
   */
  lemma {:induction false} SpawnQueue(s: Store, parent: Key, analyses: seq<Analysis>)
    ensures var r := Spawn(s, parent, analyses);
      && r.nextKey == s.nextKey + |analyses|
      && |r.queue| == |s.queue| + |analyses|
      && r.queue[..|s.queue|] == s.queue
      && (forall i :: 0 <= i < |analyses| ==>
            r.queue[|s.queue| + i] == Job(analyses[i].dtype, s.nextKey + i))
    decreases |analyses|
  {
    SpawnGrowth(s, parent, analyses);
    if |analyses| > 0 {
      var a := analyses[0];
      var c := Create(s, a.dtype, a.parameters, Some(parent));
      var s1 := AddJob(c.store, a.dtype, c.key);
      var rest := analyses[1..];
      SpawnQueue(s1, parent, rest);
      var r := Spawn(s1, parent, rest);
      assert s1.nextKey == s.nextKey + 1 && s1.queue == s.queue + [Job(a.dtype, s.nextKey)];
      forall i | 0 <= i < |analyses|
        ensures r.queue[|s.queue| + i] == Job(analyses[i].dtype, s.nextKey + i)
      {
        if i > 0 {
          assert rest[i - 1] == analyses[i];
          assert r.queue[|s1.queue| + (i - 1)] == Job(rest[i - 1].dtype, s1.nextKey + (i - 1));
        } else {
          assert r.queue[|s.queue|] == r.queue[..|s1.queue|][|s.queue|];
        }
      }
    }
  }

  /**
   * The datasets `Spawn` leaves behind: one new, unfinished child of `parent`
   * per analysis under consecutive fresh keys, and every dataset below the
   * old allocator untouched.
   */
  lemma {:induction false} SpawnDatasets(s: Store, parent: Key, analyses: seq<Analysis>)
    ensures var r := Spawn(s, parent, analyses);
      && (forall k :: k in r.datasets <==> k in s.datasets || s.nextKey <= k < s.nextKey + |analyses|)
      && (forall i :: 0 <= i < |analyses| ==> r.datasets[s.nextKey + i] == NewChild(s, parent, analyses, i))
      && (forall k :: k in s.datasets && k < s.nextKey ==> r.datasets[k] == s.datasets[k])
    decreases |analyses|
  {
    if |analyses| > 0 {
      var a := analyses[0];
      var c := Create(s, a.dtype, a.parameters, Some(parent));
      var s1 := AddJob(c.store, a.dtype, c.key);
      var rest := analyses[1..];
      SpawnDatasets(s1, parent, rest);
      var r := Spawn(s1, parent, rest);
      assert s1.nextKey == s.nextKey + 1 && s1.datasets == s.datasets[s.nextKey := NewChild(s, parent, analyses, 0)];
      forall i | 0 < i < |analyses|
        ensures r.datasets[s.nextKey + i] == NewChild(s, parent, analyses, i)
      {
        assert rest[i - 1] == analyses[i];
        assert NewChild(s1, parent, rest, i - 1) == NewChild(s, parent, analyses, i);
      }
      assert s.nextKey in s1.datasets && s.nextKey < s1.nextKey;
    }
  }

  /** Spawning under an existing parent keeps the store valid. */
  lemma {:induction false} SpawnKeepsValid(s: Store, parent: Key, analyses: seq<Analysis>)
    requires Valid(s) && parent in s.datasets
    ensures Valid(Spawn(s, parent, analyses))
    decreases |analyses|
  {
    if |analyses| > 0 {
      var a := analyses[0];
      var c := Create(s, a.dtype, a.parameters, Some(parent));
      CreateKeepsValid(s, a.dtype, a.parameters, Some(parent));
      AddJobKeepsValid(c.store, a.dtype, c.key);
      SpawnKeepsValid(AddJob(c.store, a.dtype, c.key), parent, analyses[1..]);
    }
  }

  /** A job queued by `Spawn`, paired with the new dataset it refers to. */
  predicate ChildOf(before: Store, after: Store, j: Job, parent: Key) {
    && j.remoteId !in before.datasets
    && j.remoteId in after.datasets
    && after.datasets[j.remoteId].key == j.remoteId
    && after.datasets[j.remoteId].dtype == j.jtype
    && after.datasets[j.remoteId].parent == Some(parent)
    && !after.datasets[j.remoteId].finished
  }

  /**
   * On a valid store every job `Spawn` queues refers to a new, unfinished
   * dataset of the job's own type whose parent is `parent`, and no existing
   * dataset changes.
   */
  lemma SpawnPairing(s: Store, parent: Key, analyses: seq<Analysis>)
    requires Valid(s)
    ensures var r := Spawn(s, parent, analyses);
      && (forall i :: |s.queue| <= i < |r.queue| ==> ChildOf(s, r, r.queue[i], parent))
      && (forall k :: k in s.datasets ==> k in r.datasets && r.datasets[k] == s.datasets[k])
  {
    SpawnQueue(s, parent, analyses);
    SpawnDatasets(s, parent, analyses);
    var r := Spawn(s, parent, analyses);
    forall i | |s.queue| <= i < |r.queue|
      ensures ChildOf(s, r, r.queue[i], parent)
    {
      SpawnChild(s, parent, analyses, i - |s.queue|);
    }
  }

  /** The `n`-th job `Spawn` queues, paired with its dataset. */
  lemma SpawnChild(s: Store, parent: Key, analyses: seq<Analysis>, n: nat)
    requires Valid(s) && n < |analyses|
    ensures var r := Spawn(s, parent, analyses);
      |s.queue| + n < |r.queue| && ChildOf(s, r, r.queue[|s.queue| + n], parent)
  {
    SpawnQueue(s, parent, analyses);
    SpawnDatasets(s, parent, analyses);
    var r := Spawn(s, parent, analyses);
    assert r.queue[|s.queue| + n] == Job(analyses[n].dtype, s.nextKey + n);
    assert r.datasets[s.nextKey + n] == NewChild(s, parent, analyses, n);
  }

  /** The jobs `Spawn` queues refer to pairwise distinct datasets. */
  lemma SpawnDistinct(s: Store, parent: Key, analyses: seq<Analysis>)
    ensures var r := Spawn(s, parent, analyses);
      forall i, j :: |s.queue| <= i < j < |r.queue| ==> r.queue[i].remoteId != r.queue[j].remoteId
  {
    SpawnQueue(s, parent, analyses);
    var r := Spawn(s, parent, analyses);
    forall i, j | |s.queue| <= i < j < |r.queue|
      ensures r.queue[i].remoteId != r.queue[j].remoteId
    {
      assert r.queue[|s.queue| + (i - |s.queue|)] == Job(analyses[i - |s.queue|].dtype, s.nextKey + (i - |s.queue|));
      assert r.queue[|s.queue| + (j - |s.queue|)] == Job(analyses[j - |s.queue|].dtype, s.nextKey + (j - |s.queue|));
    }
  }

  /**
   * The `i`-th job `Spawn` queues has the `i`-th analysis's type and refers
   * to a dataset that carries the `i`-th analysis's parameters.
   */
  lemma SpawnCarries(s: Store, parent: Key, analyses: seq<Analysis>)
    ensures var r := Spawn(s, parent, analyses);
      && |r.queue| == |s.queue| + |analyses|
      && forall i :: 0 <= i < |analyses| ==>
           && r.queue[|s.queue| + i].jtype == analyses[i].dtype
           && r.queue[|s.queue| + i].remoteId in r.datasets
           && r.datasets[r.queue[|s.queue| + i].remoteId].parameters == analyses[i].parameters
  {
    SpawnQueue(s, parent, analyses);
    SpawnDatasets(s, parent, analyses);
    var r := Spawn(s, parent, analyses);
    assert |r.queue| == |s.queue| + |analyses|;
    forall i | 0 <= i < |analyses|
      ensures && r.queue[|s.queue| + i].jtype == analyses[i].dtype
              && r.queue[|s.queue| + i].remoteId in r.datasets
              && r.datasets[r.queue[|s.queue| + i].remoteId].parameters == analyses[i].parameters
    {
      var k := s.nextKey + i;
      assert r.queue[|s.queue| + i] == Job(analyses[i].dtype, k);
      assert k in r.datasets;
      assert r.datasets[k] == NewChild(s, parent, analyses, i);
    }
  }

  /**
   * A finished snapshot queues exactly three jobs after the existing ones, of
   * types tokenise-posts, tokenise-posts and attribute-frequencies in that
   * order, whose datasets carry the neologisms, bigrams and countries
   * parameters.
   */
  lemma WorkSpawnsAnalyses(s: Store, job: Job, cfg: Config, prefix: string)
    requires Valid(s)
    requires TargetFinished(s, job)
    requires FilePrefix(s.datasets[job.remoteId].parameters) == Success(prefix)
    ensures var r := Work(s, job, cfg).store;
      var xs := Analyses(cfg, prefix);
      && |r.queue| == |s.queue| + 3
      && forall i :: 0 <= i < 3 ==>
           && r.queue[|s.queue| + i].jtype == xs[i].dtype
           && r.queue[|s.queue| + i].remoteId in r.datasets
           && r.datasets[r.queue[|s.queue| + i].remoteId].parameters == xs[i].parameters
  {
    var xs := Analyses(cfg, prefix);
    WorkFinishedStore(s, job, cfg, prefix);
    var r := Work(s, job, cfg).store;
    assert r == Spawn(s, job.remoteId, xs);
    SpawnCarries(s, job.remoteId, xs);
    assert |xs| == 3;
    forall i | 0 <= i < 3
      ensures r.queue[|s.queue| + i].jtype == xs[i].dtype
      ensures r.queue[|s.queue| + i].remoteId in r.datasets
      ensures r.datasets[r.queue[|s.queue| + i].remoteId].parameters == xs[i].parameters
    {
      assert i < |xs|;
    }
  }

  /**
   * A finished snapshot creates exactly three datasets, one per new job: each
   * new job refers to a dataset that did not exist before, has the job's
   * type, is unfinished and has the target as parent; no existing dataset
   * changes.
   */
  lemma WorkChildren(s: Store, job: Job, cfg: Config, prefix: string)
    requires Valid(s)
    requires TargetFinished(s, job)
    requires FilePrefix(s.datasets[job.remoteId].parameters) == Success(prefix)
    ensures var r := Work(s, job, cfg).store;
      && |r.queue| == |s.queue| + 3
      && |r.datasets.Keys| == |s.datasets.Keys| + 3
      && (forall i :: |s.queue| <= i < |r.queue| ==> ChildOf(s, r, r.queue[i], job.remoteId))
      && (forall k :: k in s.datasets ==> k in r.datasets && r.datasets[k] == s.datasets[k])
  {
    var xs := Analyses(cfg, prefix);
    WorkFinishedStore(s, job, cfg, prefix);
    SpawnQueue(s, job.remoteId, xs);
    SpawnPairing(s, job.remoteId, xs);
    SpawnCount(s, job.remoteId, xs);
  }

  /** Below a fresh allocator, `Spawn` grows the dataset table by exactly one record per analysis. */
  lemma {:induction false} SpawnCount(s: Store, parent: Key, analyses: seq<Analysis>)
    requires forall k :: k in s.datasets ==> k < s.nextKey
    ensures |Spawn(s, parent, analyses).datasets.Keys| == |s.datasets.Keys| + |analyses|
    decreases |analyses|
  {
    if |analyses| > 0 {
      var a := analyses[0];
      var c := Create(s, a.dtype, a.parameters, Some(parent));
      var s1 := AddJob(c.store, a.dtype, c.key);
      assert s1.datasets.Keys == s.datasets.Keys + {s.nextKey} && s.nextKey !in s.datasets;
      assert s1.nextKey == s.nextKey + 1;
      SpawnCount(s1, parent, analyses[1..]);
    }
  }

  /** A single `next` entry contributes its type, then its own chain. */
  lemma ChainOfSingleEntry(t: string, p: Parameters)
    ensures Chain(List([ChainEntry(t, p)])) == [t] + Chain(Dict(p))
    ensures CopyTargets(List([ChainEntry(t, p)])) == CopyTargets(Dict(p))
  {
    var e := ChainEntry(t, p);
    assert Chain(e) == [t] + Chain(Dict(p));
    assert ChainList([e]) == Chain(e) + ChainList([]);
    assert CopyTargets(e) == CopyTargets(Dict(p));
    assert CopyTargetsList([e]) == CopyTargets(e) + CopyTargetsList([]);
  }

  /** Parameters with only a `next` list: their chain and copy targets are the list's. */
  lemma ChainOfNextOnly(next: Value)
    ensures Chain(Dict(map["next" := next])) == Chain(next)
    ensures CopyTargets(Dict(map["next" := next])) == CopyTargets(next)
  {
  }

  /** Leaf parameters, with a `copy_to` path and no `next`. */
  lemma ChainOfLeaf(m: Parameters, path: string)
    requires "copy_to" in m && m["copy_to"] == Str(path)
    requires "next" !in m && "type" !in m && "parameters" !in m
    ensures Chain(Dict(m)) == []
    ensures CopyTargets(Dict(m)) == [path]
  {
  }

  lemma NeologismsChain(cfg: Config, prefix: string)
    ensures Chain(Dict(NeologismsParameters(cfg, prefix))) == ["vectorise-tokens", "vector-ranker"]
    ensures CopyTargets(Dict(NeologismsParameters(cfg, prefix))) == [cfg.snapshotDataPath + prefix + "-neologisms.csv"]
  {
    var path := cfg.snapshotDataPath + prefix + "-neologisms.csv";
    var ranker := map["amount" := Bool(true), "top" := Int(15), "copy_to" := Str(path)];
    var vectorise := map["next" := List([ChainEntry("vector-ranker", ranker)])];
    var p := NeologismsParameters(cfg, prefix);
    ChainOfLeaf(ranker, path);
    ChainOfSingleEntry("vector-ranker", ranker);
    ChainOfNextOnly(List([ChainEntry("vector-ranker", ranker)]));
    ChainOfSingleEntry("vectorise-tokens", vectorise);
    assert p["next"] == List([ChainEntry("vectorise-tokens", vectorise)]);
    assert Chain(Dict(p)) == Chain(p["next"]);
    assert CopyTargets(Dict(p)) == CopyTargets(p["next"]);
  }

  lemma BigramsChain(cfg: Config, prefix: string)
    ensures Chain(Dict(BigramsParameters(cfg, prefix))) == ["collocations"]
    ensures CopyTargets(Dict(BigramsParameters(cfg, prefix))) == [cfg.snapshotDataPath + prefix + "-bigrams.csv"]
  {
    var path := cfg.snapshotDataPath + prefix + "-bigrams.csv";
    var collocations := map["n_size" := Int(2), "window_size" := Int(3), "max_output" := Int(15), "copy_to" := Str(path)];
    var p := BigramsParameters(cfg, prefix);
    ChainOfLeaf(collocations, path);
    ChainOfSingleEntry("collocations", collocations);
    assert p["next"] == List([ChainEntry("collocations", collocations)]);
    assert Chain(Dict(p)) == Chain(p["next"]);
    assert CopyTargets(Dict(p)) == CopyTargets(p["next"]);
  }

  lemma CountriesChain(cfg: Config, prefix: string)
    ensures "next" !in CountriesParameters(cfg, prefix)
    ensures CopyTargets(Dict(CountriesParameters(cfg, prefix))) == [cfg.snapshotDataPath + prefix + "-countries.csv"]
  {
  }

  /**
   * All three analyses copy their results to the snapshot data path followed
   * by the same prefix `/<max_date>-<datasource>-<board>`.
   */
  lemma CopyTargetsSharePrefix(cfg: Config, prefix: string)
    ensures forall p :: p in CopyTargets(Dict(NeologismsParameters(cfg, prefix)))
                          + CopyTargets(Dict(BigramsParameters(cfg, prefix)))
                          + CopyTargets(Dict(CountriesParameters(cfg, prefix))) ==>
      |p| > |cfg.snapshotDataPath + prefix| && p[..|cfg.snapshotDataPath + prefix|] == cfg.snapshotDataPath + prefix
  {
    NeologismsChain(cfg, prefix);
    BigramsChain(cfg, prefix);
    CountriesChain(cfg, prefix);
    var base := cfg.snapshotDataPath + prefix;
    assert (base + "-neologisms.csv")[..|base|] == base;
    assert (base + "-bigrams.csv")[..|base|] == base;
    assert (base + "-countries.csv")[..|base|] == base;
  }

  /** The worker keeps the store invariant: children are created before their jobs, under an existing parent. */
  lemma WorkPreservesValid(s: Store, job: Job, cfg: Config)
    requires Valid(s)
    ensures Valid(Work(s, job, cfg).store)
  {
    var t := job.remoteId;
    if TargetFinished(s, job) && FilePrefix(s.datasets[t].parameters).Success? {
      var prefix := FilePrefix(s.datasets[t].parameters).value;
      WorkFinishedStore(s, job, cfg, prefix);
      SpawnKeepsValid(s, t, Analyses(cfg, prefix));
    }
  }
}
