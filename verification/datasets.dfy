/**
 * The persistent dataset tree and job queue, reduced to the operations the
 * modelled workers call: looking a dataset up by key, creating a dataset
 * (optionally under a parent), replacing a dataset record, and queueing a job.
 */
module Datasets {
  import opened Wrappers

  /** Dataset keys are opaque; the store hands out fresh ones. */
  type Key = nat

  /** A JSON-like parameter value. */
  datatype Value =
    | Null
    | Int(i: int)
    | Bool(b: bool)
    | Str(s: string)
    | List(items: seq<Value>)
    | Dict(entries: map<string, Value>)

  type Parameters = map<string, Value>

  /**
   * One node of the dataset tree. `parent` is the `key_parent` link (`None`
   * marks a root) and `copiedTo` the key of a standalone copy, if any.
   */
  datatype Dataset = Dataset(
    key: Key,
    dtype: string,
    query: string,
    parameters: Parameters,
    parent: Option<Key>,
    finished: bool,
    numRows: nat,
    copiedTo: Option<Key>)

  /** A queued job: the worker type to run and the dataset it runs on (`remote_id`). */
  datatype Job = Job(jtype: string, remoteId: Key)

  /** The dataset table, the pending jobs in insertion order, and the next free key. */
  datatype Store = Store(datasets: map<Key, Dataset>, queue: seq<Job>, nextKey: Key)

  /**
   * Store invariant: every record sits under its own key, all keys are below
   * the allocator, every parent exists and was created before its child (so
   * parent links form a forest), and every queued job refers to an existing
   * dataset.
   */
  predicate Valid(s: Store) {
    && (forall k :: k in s.datasets ==> k < s.nextKey && s.datasets[k].key == k)
    && (forall k :: k in s.datasets && s.datasets[k].parent.Some? ==>
          s.datasets[k].parent.value in s.datasets && s.datasets[k].parent.value < k)
    && (forall i :: 0 <= i < |s.queue| ==> s.queue[i].remoteId in s.datasets)
  }

  /** `DataSet(key=k)`: the record, or `None` where the constructor raises `ValueError`. */
  function Lookup(s: Store, k: Key): (r: Option<Dataset>)
    ensures r.Some? <==> k in s.datasets
    ensures r.Some? ==> r.value == s.datasets[k]
  {
    if k in s.datasets then Some(s.datasets[k]) else None
  }

  datatype Created = Created(store: Store, key: Key)

  /** `DataSet(parameters=..., type=..., parent=...)`: a new, unfinished dataset under a fresh key. */
  function Create(s: Store, dtype: string, parameters: Parameters, parent: Option<Key>): (r: Created)
    ensures Valid(s) ==> r.key !in s.datasets
    ensures r.key in r.store.datasets && r.store.datasets.Keys == s.datasets.Keys + {r.key}
    ensures forall k :: k in s.datasets && k != r.key ==> r.store.datasets[k] == s.datasets[k]
    ensures r.store.datasets[r.key] == Dataset(r.key, dtype, "", parameters, parent, false, 0, None)
    ensures r.store.queue == s.queue && r.store.nextKey == r.key + 1
  {
    var k := s.nextKey;
    var d := Dataset(k, dtype, "", parameters, parent, false, 0, None);
    Created(Store(s.datasets[k := d], s.queue, k + 1), k)
  }

  /** `queue.add_job(jtype, remote_id=...)`: appends a pending job. */
  function AddJob(s: Store, jtype: string, remoteId: Key): (r: Store)
    ensures r.datasets == s.datasets && r.nextKey == s.nextKey
    ensures r.queue == s.queue + [Job(jtype, remoteId)]
  {
    Store(s.datasets, s.queue + [Job(jtype, remoteId)], s.nextKey)
  }

  /** Creating a dataset under an existing parent (or as a root) keeps the store valid. */
  lemma CreateKeepsValid(s: Store, dtype: string, parameters: Parameters, parent: Option<Key>)
    requires Valid(s) && (parent.Some? ==> parent.value in s.datasets)
    ensures Valid(Create(s, dtype, parameters, parent).store)
  {
  }

  /** Queueing a job for an existing dataset keeps the store valid. */
  lemma AddJobKeepsValid(s: Store, jtype: string, remoteId: Key)
    requires Valid(s) && remoteId in s.datasets
    ensures Valid(AddJob(s, jtype, remoteId))
  {
  }
}
