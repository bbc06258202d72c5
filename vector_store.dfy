/**
 * The vector database behind the service. Two backends implement one repository
 * interface (store embeddings, query neighbours by limit and/or distance threshold);
 * only the embedded Chroma backend is modelled in full. Its collection is a map from
 * filename to vector, updated in place by upserts, and its approximate nearest
 * neighbour search is an oracle.
 */
module VectorStore {
  import opened Wrappers
  import opened Seqs
  import opened Models

  // ---------------------------------------------------------------------------
  // The repository interface: backends, default limits and the delegations

  datatype Backend = EmbeddedChroma | PgVector

  /** Default `limit` of `get_neighbours`, per backend. */
  const ChromaNeighbourLimit: nat := 50
  const PgVectorDefaultLimit: nat := 10
  /** Both backends answer `get_neighbours_threshold` with at most this many results. */
  const ThresholdQueryLimit: nat := 100

  function DefaultNeighbourLimit(b: Backend): nat
  {
    match b
    case EmbeddedChroma => ChromaNeighbourLimit
    case PgVector => PgVectorDefaultLimit
  }

  /** The arguments of one `get_neighbours` call: an optional distance threshold and a limit. */
  datatype NeighbourQuery = NeighbourQuery(threshold: Option<real>, limit: nat)

  /** `get_neighbours_top_n(e, limit)`: the limit alone, no threshold. */
  function TopNQuery(limit: nat): NeighbourQuery
  {
    NeighbourQuery(None, limit)
  }

  /** `get_neighbours_threshold(e, t)`: `get_neighbours(e, t, limit=100)`. */
  function ThresholdQuery(t: real): NeighbourQuery
  {
    NeighbourQuery(Some(t), ThresholdQueryLimit)
  }

  // ---------------------------------------------------------------------------
  // The nearest-neighbour oracle

  /** The first (and only) query's lists of a Chroma query result. */
  datatype QueryResult = QueryResult(ids: seq<string>, embeddings: seq<Vector>, distances: seq<real>)

  /** The collection's approximate nearest-neighbour search under squared L2 distance. */
  type AnnSearch = (map<string, Vector>, Vector, nat) -> QueryResult

  /** What the search engine returns: at most `n` distinct stored ids, each with its stored
      vector and a non-negative distance, closest first. */
  predicate AnnResultOk(collection: map<string, Vector>, n: nat, r: QueryResult)
  {
    && |r.ids| <= n
    && |r.embeddings| == |r.ids| && |r.distances| == |r.ids|
    && Distinct(r.ids)
    && (forall i :: 0 <= i < |r.ids| ==>
          r.ids[i] in collection && r.embeddings[i] == collection[r.ids[i]] && 0.0 <= r.distances[i])
    && (forall i, j :: 0 <= i < j < |r.distances| ==> r.distances[i] <= r.distances[j])
  }

  ghost predicate AnnContract(ann: AnnSearch)
  {
    forall collection, v, n :: AnnResultOk(collection, n, ann(collection, v, n))
  }

  /** Python's `zip` over the three lists: as long as the shortest. */
  function ZipLength(q: QueryResult): nat
  {
    Min(Min(|q.ids|, |q.embeddings|), |q.distances|)
  }

  function ZipNeighbours(q: QueryResult): seq<ImageEmbeddingNeighbour>
  {
    seq(ZipLength(q), i requires 0 <= i < ZipLength(q) =>
      ImageEmbeddingNeighbour(q.embeddings[i], q.ids[i], q.distances[i]))
  }

  /** `_convert_chroma_results`: one neighbour per zipped position, in order. */
  method ConvertChromaResults(q: QueryResult) returns (ns: seq<ImageEmbeddingNeighbour>)
    ensures |ns| == Min(Min(|q.ids|, |q.embeddings|), |q.distances|)
    ensures forall i :: 0 <= i < |ns| ==>
      ns[i].filename == q.ids[i] && ns[i].embedding == q.embeddings[i] && ns[i].distance == q.distances[i]
    ensures ns == ZipNeighbours(q)
  {
    ns := [];
    var i := 0;
    var n := ZipLength(q);
    while i < n
      invariant 0 <= i <= n
      invariant ns == ZipNeighbours(q)[..i]
    {
      ns := ns + [ImageEmbeddingNeighbour(q.embeddings[i], q.ids[i], q.distances[i])];
      i := i + 1;
    }
  }

  // ---------------------------------------------------------------------------
  // Threshold filter

  /** `[n for n in ns if n.distance <= threshold]`. */
  function WithinThreshold(ns: seq<ImageEmbeddingNeighbour>, t: real): (r: seq<ImageEmbeddingNeighbour>)
    ensures |r| <= |ns|
    ensures forall n :: n in r ==> n in ns && n.distance <= t
    ensures forall n :: n in ns && n.distance <= t ==> n in r
    ensures forall n :: multiset(r)[n] == if n.distance <= t then multiset(ns)[n] else 0
    ensures IsSubseq(r, ns)
  {
    if ns == [] then []
    else
      var rest := WithinThreshold(ns[1..], t);
      assert ns == [ns[0]] + ns[1..];
      assert multiset(ns) == multiset([ns[0]]) + multiset(ns[1..]);
      if ns[0].distance <= t then
        assert ([ns[0]] + rest)[1..] == rest;
        [ns[0]] + rest
      else
        SubseqCons(rest, ns[1..], ns[0]);
        rest
  }

  /** For a fixed candidate list, a larger threshold keeps a superset, in the same order. */
  lemma {:induction false} ThresholdMonotone(ns: seq<ImageEmbeddingNeighbour>, t1: real, t2: real)
    requires t1 <= t2
    ensures IsSubseq(WithinThreshold(ns, t1), WithinThreshold(ns, t2))
  {
    if ns != [] {
      ThresholdMonotone(ns[1..], t1, t2);
      var r1, r2 := WithinThreshold(ns[1..], t1), WithinThreshold(ns[1..], t2);
      if ns[0].distance <= t1 {
        assert ([ns[0]] + r1)[1..] == r1 && ([ns[0]] + r2)[1..] == r2;
      } else if ns[0].distance <= t2 {
        SubseqCons(r1, r2, ns[0]);
      }
    }
  }

  /** Filtering twice by the same threshold is filtering once. */
  lemma {:induction false} ThresholdIdempotent(ns: seq<ImageEmbeddingNeighbour>, t: real)
    ensures WithinThreshold(WithinThreshold(ns, t), t) == WithinThreshold(ns, t)
  {
    if ns != [] {
      ThresholdIdempotent(ns[1..], t);
      var rest := WithinThreshold(ns[1..], t);
      if ns[0].distance <= t {
        assert ([ns[0]] + rest)[1..] == rest;
      }
    }
  }

  // ---------------------------------------------------------------------------
  // Upsert

  /** Chroma's `upsert`, one id after the other: insert or overwrite the vector under each filename. */
  function UpsertAll(m: map<string, Vector>, embs: seq<ImageEmbedding>): map<string, Vector>
    decreases |embs|
  {
    if embs == [] then m else UpsertAll(m[embs[0].filename := embs[0].embedding], embs[1..])
  }

  /** After an upsert of distinct filenames: exactly the old keys plus the new filenames,
      each new filename maps to its vector, every other key keeps its old vector. */
  lemma {:induction false} UpsertAllSpec(m: map<string, Vector>, embs: seq<ImageEmbedding>)
    requires Distinct(Filenames(embs))
    ensures UpsertAll(m, embs).Keys == m.Keys + set e | e in embs :: e.filename
    ensures forall i :: 0 <= i < |embs| ==> UpsertAll(m, embs)[embs[i].filename] == embs[i].embedding
    ensures forall k :: k in m && k !in Filenames(embs) ==> UpsertAll(m, embs)[k] == m[k]
    decreases |embs|
  {
    if embs != [] {
      var e0 := embs[0];
      var rest := embs[1..];
      assert Filenames(rest) == Filenames(embs)[1..];
      UpsertAllSpec(m[e0.filename := e0.embedding], rest);
      assert (set e | e in embs :: e.filename) == {e0.filename} + set e | e in rest :: e.filename by {
        assert forall e :: e in embs <==> e == e0 || e in rest;
      }
      forall i | 0 <= i < |embs|
        ensures UpsertAll(m, embs)[embs[i].filename] == embs[i].embedding
      {
        if i == 0 {
          assert e0.filename !in Filenames(rest) by {
            forall j | 0 <= j < |rest| ensures Filenames(rest)[j] != e0.filename {
              assert Filenames(embs)[j + 1] != Filenames(embs)[0];
            }
          }
          UpsertAllKeeps(m[e0.filename := e0.embedding], rest, e0.filename);
        } else {
          assert embs[i] == rest[i - 1];
        }
      }
      forall k | k in m && k !in Filenames(embs)
        ensures UpsertAll(m, embs)[k] == m[k]
      {
        assert Filenames(embs)[0] == e0.filename;
        assert k !in Filenames(rest);
      }
    }
  }

  /** A key that no upserted filename names keeps its value. */
  lemma {:induction false} UpsertAllKeeps(m: map<string, Vector>, embs: seq<ImageEmbedding>, k: string)
    requires k in m && k !in Filenames(embs)
    ensures k in UpsertAll(m, embs) && UpsertAll(m, embs)[k] == m[k]
    decreases |embs|
  {
    if embs != [] {
      assert Filenames(embs)[0] == embs[0].filename;
      assert Filenames(embs[1..]) == Filenames(embs)[1..];
      UpsertAllKeeps(m[embs[0].filename := embs[0].embedding], embs[1..], k);
    }
  }

  /** Storing the same embeddings a second time changes nothing. */
  lemma UpsertIdempotent(m: map<string, Vector>, embs: seq<ImageEmbedding>)
    requires Distinct(Filenames(embs))
    ensures UpsertAll(UpsertAll(m, embs), embs) == UpsertAll(m, embs)
  {
    var once := UpsertAll(m, embs);
    UpsertAllSpec(m, embs);
    UpsertAllSpec(once, embs);
    var twice := UpsertAll(once, embs);
    assert twice.Keys == once.Keys;
    forall k | k in once ensures twice[k] == once[k] {
      if k in Filenames(embs) {
        var i :| 0 <= i < |embs| && Filenames(embs)[i] == k;
        assert embs[i].filename == k;
      }
    }
  }

  /** Upserting full-width vectors into a collection of full-width vectors keeps it so. */
  lemma UpsertKeepsDimension(m: map<string, Vector>, embs: seq<ImageEmbedding>)
    requires Distinct(Filenames(embs))
    requires forall k :: k in m ==> |m[k]| == EmbeddingDim
    requires forall e :: e in embs ==> |e.embedding| == EmbeddingDim
    ensures forall k :: k in UpsertAll(m, embs) ==> |UpsertAll(m, embs)[k]| == EmbeddingDim
  {
    UpsertAllSpec(m, embs);
    forall k | k in UpsertAll(m, embs) ensures |UpsertAll(m, embs)[k]| == EmbeddingDim {
      if k in Filenames(embs) {
        var i :| 0 <= i < |embs| && Filenames(embs)[i] == k;
        assert embs[i] in embs;
      }
    }
  }

  /** Why an upsert is refused by the engine: the same id twice in one call, or a vector
      whose length is not the collection's dimension. Nothing is written then. */
  datatype StoreError = DuplicateIds | WrongDimension

  predicate AllFullWidth(embs: seq<ImageEmbedding>)
  {
    forall e :: e in embs ==> |e.embedding| == EmbeddingDim
  }

  // ---------------------------------------------------------------------------
  // The embedded Chroma backend

  class EmbeddedChromaDB {
    /** The collection: filename (id) to stored vector. */
    var collection: map<string, Vector>
    const ann: AnnSearch

    ghost predicate Valid()
      reads this
    {
      AnnContract(ann) && forall k :: k in collection ==> |collection[k]| == EmbeddingDim
    }

    /** `__init__`: open (or create) the persistent collection. */
    constructor (persisted: map<string, Vector>, ann: AnnSearch)
      requires AnnContract(ann)
      requires forall k :: k in persisted ==> |persisted[k]| == EmbeddingDim
      ensures Valid() && collection == persisted && this.ann == ann
    {
      collection := persisted;
      this.ann := ann;
    }

    /** `store_embeddings`: an empty list is a no-op; otherwise one upsert keyed by filename. */
    method StoreEmbeddings(embs: seq<ImageEmbedding>) returns (o: Outcome<StoreError>)
      requires Valid()
      modifies this
      ensures Valid()
      ensures embs == [] ==> o == Pass && collection == old(collection)
      ensures o == Fail(DuplicateIds) <==> embs != [] && !Distinct(Filenames(embs))
      ensures o == Fail(WrongDimension) <==> embs != [] && Distinct(Filenames(embs)) && !AllFullWidth(embs)
      ensures o.Fail? ==> collection == old(collection)
      ensures o.Pass? ==> collection == UpsertAll(old(collection), embs)
    {
      if embs == [] {
        return Pass;
      }
      var ids := Filenames(embs);
      if !Distinct(ids) {
        return Fail(DuplicateIds);
      }
      if !AllFullWidth(embs) {
        return Fail(WrongDimension);
      }
      UpsertKeepsDimension(collection, embs);
      collection := UpsertAll(collection, embs);
      return Pass;
    }

    /** The top-`limit` list: the search result converted to neighbours. */
    function TopN(v: Vector, limit: nat): (ns: seq<ImageEmbeddingNeighbour>)
      reads this
      requires Valid()
      ensures |ns| <= limit
      ensures forall n :: n in ns ==> n.filename in collection && n.embedding == collection[n.filename]
      ensures forall n :: n in ns ==> 0.0 <= n.distance
      ensures forall i, j :: 0 <= i < j < |ns| ==> ns[i].distance <= ns[j].distance
      ensures forall i, j :: 0 <= i < j < |ns| ==> ns[i].filename != ns[j].filename
    {
      var q := ann(collection, v, limit);
      assert AnnResultOk(collection, limit, q);
      ZipNeighbours(q)
    }

    /** What `get_neighbours` answers for a query: the top-`limit` list first, then, when a
        threshold is given, its members within the threshold. */
    function Neighbours(v: Vector, query: NeighbourQuery): (ns: seq<ImageEmbeddingNeighbour>)
      reads this
      requires Valid()
      ensures |ns| <= query.limit
      ensures IsSubseq(ns, TopN(v, query.limit))
      ensures query.threshold.None? ==> ns == TopN(v, query.limit)
      ensures query.threshold.Some? ==>
        forall n :: n in ns <==> n in TopN(v, query.limit) && n.distance <= query.threshold.value
      ensures forall n :: n in ns ==> n.filename in collection && n.embedding == collection[n.filename]
    {
      var top := TopN(v, query.limit);
      match query.threshold
      case None => SubseqRefl(top); top
      case Some(t) => WithinThreshold(top, t)
    }

    /** `get_neighbours_top_n`. */
    method GetNeighboursTopN(e: ImageEmbedding, limit: nat) returns (ns: seq<ImageEmbeddingNeighbour>)
      requires Valid()
      ensures ns == TopN(e.embedding, limit)
      ensures ns == Neighbours(e.embedding, TopNQuery(limit))
    {
      var q := ann(collection, e.embedding, limit);
      ns := ConvertChromaResults(q);
    }

    /** `get_neighbours`: the limit is applied by the search, the threshold afterwards. */
    method GetNeighbours(e: ImageEmbedding, threshold: Option<real>, limit: nat)
      returns (ns: seq<ImageEmbeddingNeighbour>)
      requires Valid()
      ensures ns == Neighbours(e.embedding, NeighbourQuery(threshold, limit))
    {
      ns := GetNeighboursTopN(e, limit);
      if threshold.None? {
        return;
      }
      ns := WithinThreshold(ns, threshold.value);
    }

    /** `get_neighbours_threshold`: at most 100 results within the threshold. */
    method GetNeighboursThreshold(e: ImageEmbedding, t: real) returns (ns: seq<ImageEmbeddingNeighbour>)
      requires Valid()
      ensures ns == Neighbours(e.embedding, ThresholdQuery(t))
      ensures |ns| <= ThresholdQueryLimit
      ensures forall n :: n in ns ==> n.distance <= t && n.filename in collection
    {
      ns := GetNeighbours(e, Some(t), ThresholdQueryLimit);
    }

    /** `_clear_database`: delete every id, issuing the delete only when there is one. */
    method ClearDatabase() returns (deleteIssued: bool)
      requires Valid()
      modifies this
      ensures Valid()
      ensures collection == map[]
      ensures deleteIssued <==> old(collection) != map[]
    {
      var ids := collection.Keys;
      deleteIssued := ids != {};
      if deleteIssued {
        collection := collection - ids;
      }
      assert collection.Keys == {};
    }
  }

  // ---------------------------------------------------------------------------
  // The PostgreSQL backend: delegations only

  /** The server-side `get_neighbours(vector, threshold, limit)` SQL function. */
  type SqlNeighbours = (Vector, Option<real>, nat) -> seq<ImageEmbeddingNeighbour>

  class PgVectorDB {
    const getNeighboursSql: SqlNeighbours

    constructor (getNeighboursSql: SqlNeighbours)
      ensures this.getNeighboursSql == getNeighboursSql
    {
      this.getNeighboursSql := getNeighboursSql;
    }

    /** What the SQL function answers for a query. */
    function Neighbours(v: Vector, query: NeighbourQuery): seq<ImageEmbeddingNeighbour>
    {
      getNeighboursSql(v, query.threshold, query.limit)
    }

    method GetNeighbours(e: ImageEmbedding, threshold: Option<real>, limit: nat)
      returns (ns: seq<ImageEmbeddingNeighbour>)
      ensures ns == Neighbours(e.embedding, NeighbourQuery(threshold, limit))
    {
      ns := getNeighboursSql(e.embedding, threshold, limit);
    }

    /** `get_neighbours_top_n`: `get_neighbours` without a threshold. */
    method GetNeighboursTopN(e: ImageEmbedding, limit: nat) returns (ns: seq<ImageEmbeddingNeighbour>)
      ensures ns == Neighbours(e.embedding, TopNQuery(limit))
    {
      ns := GetNeighbours(e, None, limit);
    }

    /** `get_neighbours_threshold`: `get_neighbours` with the threshold and limit 100, as for Chroma. */
    method GetNeighboursThreshold(e: ImageEmbedding, t: real) returns (ns: seq<ImageEmbeddingNeighbour>)
      ensures ns == Neighbours(e.embedding, ThresholdQuery(t))
    {
      ns := GetNeighbours(e, Some(t), ThresholdQueryLimit);
    }
  }

  /** For one store and one limit, raising the threshold only adds results, keeping their order. */
  lemma NeighboursMonotoneInThreshold(db: EmbeddedChromaDB, v: Vector, limit: nat, t1: real, t2: real)
    requires db.Valid() && t1 <= t2
    ensures IsSubseq(db.Neighbours(v, NeighbourQuery(Some(t1), limit)),
                     db.Neighbours(v, NeighbourQuery(Some(t2), limit)))
  {
    ThresholdMonotone(db.TopN(v, limit), t1, t2);
  }
}
