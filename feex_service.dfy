/**
 * The FEEX service: embed images (uploaded or from a folder), build one duplicate
 * report per image against the vector store, and optionally store the new embeddings,
 * always after every report of the call is built.
 */
module FeexService {
  import opened Wrappers
  import opened Seqs
  import opened Models
  import opened Host
  import opened EmbeddingModel
  import opened VectorStore
  import opened ImageReader
  import opened LocalImageService
  import opened RemoteImageService

  /** The report query's distance threshold. */
  const ReportDistanceCutoff: real := 0.6
  /** `DUPLICATE_THRESHOLD_PERCENTAGE`: from this percentage on, a neighbour is a duplicate. */
  const DuplicateThresholdPercentage: int := 80

  /** `get_neighbours(e, threshold=0.6)` with the backend's default limit. */
  function ReportQuery(b: Backend): NeighbourQuery
  {
    NeighbourQuery(Some(ReportDistanceCutoff), DefaultNeighbourLimit(b))
  }

  // ---------------------------------------------------------------------------
  // Report assembly

  function ToSuspicious(ns: seq<ImageEmbeddingNeighbour>): seq<SuspiciousFile>
  {
    seq(|ns|, i requires 0 <= i < |ns| => FromNeighbourEmbedding(ns[i]))
  }

  /** `[f for f in fs if f.duplicate_chance_in_percent >= t]`. */
  function AtLeast(fs: seq<SuspiciousFile>, t: int): (r: seq<SuspiciousFile>)
    ensures forall f :: f in r <==> f in fs && f.duplicateChanceInPercent >= t
    ensures IsSubseq(r, fs)
  {
    if fs == [] then []
    else
      var rest := AtLeast(fs[1..], t);
      assert fs == [fs[0]] + fs[1..];
      if fs[0].duplicateChanceInPercent >= t then
        assert ([fs[0]] + rest)[1..] == rest;
        [fs[0]] + rest
      else
        SubseqCons(rest, fs[1..], fs[0]);
        rest
  }

  /** `[f for f in fs if f.duplicate_chance_in_percent < t]`. */
  function Below(fs: seq<SuspiciousFile>, t: int): (r: seq<SuspiciousFile>)
    ensures forall f :: f in r <==> f in fs && f.duplicateChanceInPercent < t
    ensures IsSubseq(r, fs)
  {
    if fs == [] then []
    else
      var rest := Below(fs[1..], t);
      assert fs == [fs[0]] + fs[1..];
      if fs[0].duplicateChanceInPercent < t then
        assert ([fs[0]] + rest)[1..] == rest;
        [fs[0]] + rest
      else
        SubseqCons(rest, fs[1..], fs[0]);
        rest
  }

  /** The two buckets split the list: every file, with its multiplicity, lands in exactly one. */
  lemma {:induction false} BucketsPartition(fs: seq<SuspiciousFile>, t: int)
    ensures multiset(AtLeast(fs, t)) + multiset(Below(fs, t)) == multiset(fs)
    ensures |AtLeast(fs, t)| + |Below(fs, t)| == |fs|
  {
    if fs != [] {
      BucketsPartition(fs[1..], t);
      assert fs == [fs[0]] + fs[1..];
    }
  }

  /** `create_duplicate_report` once the neighbours are known. */
  function BuildReport(original: string, ns: seq<ImageEmbeddingNeighbour>, t: int): (r: DuplicateReport)
    ensures r.originalFilename == original
    ensures r.duplicates.numOfFiles == |r.duplicates.filenames|
    ensures r.suspicious.numOfFiles == |r.suspicious.filenames|
    ensures forall f :: f in r.duplicates.filenames ==> f.duplicateChanceInPercent >= t
    ensures forall f :: f in r.suspicious.filenames ==> f.duplicateChanceInPercent < t
    ensures multiset(r.duplicates.filenames) + multiset(r.suspicious.filenames) == multiset(ToSuspicious(ns))
    ensures IsSubseq(r.duplicates.filenames, ToSuspicious(ns)) && IsSubseq(r.suspicious.filenames, ToSuspicious(ns))
  {
    var fs := ToSuspicious(ns);
    var dups, susp := AtLeast(fs, t), Below(fs, t);
    BucketsPartition(fs, t);
    DuplicateReport(original, DuplicateReportPart(|dups|, dups), DuplicateReportPart(|susp|, susp))
  }

  /** Every reported file comes from one of the neighbours, with its distance and percentage. */
  lemma ReportedFilesAreNeighbours(original: string, ns: seq<ImageEmbeddingNeighbour>, t: int, f: SuspiciousFile)
    requires f in BuildReport(original, ns, t).duplicates.filenames || f in BuildReport(original, ns, t).suspicious.filenames
    ensures exists n :: n in ns && f == FromNeighbourEmbedding(n)
  {
    var r := BuildReport(original, ns, t);
    assert f in multiset(r.duplicates.filenames) + multiset(r.suspicious.filenames);
    var fs := ToSuspicious(ns);
    assert f in fs;
    var i :| 0 <= i < |fs| && fs[i] == f;
    assert ns[i] in ns;
  }

  /** With neighbours no farther than the cutoff, every reported percentage is at least 40. */
  lemma ReportedChanceAtLeastForty(original: string, ns: seq<ImageEmbeddingNeighbour>, t: int, f: SuspiciousFile)
    requires forall n :: n in ns ==> n.distance <= ReportDistanceCutoff
    requires f in BuildReport(original, ns, t).duplicates.filenames || f in BuildReport(original, ns, t).suspicious.filenames
    ensures f.duplicateChanceInPercent >= 40
  {
    ReportedFilesAreNeighbours(original, ns, t, f);
    var n :| n in ns && f == FromNeighbourEmbedding(n);
    ChanceWithinCutoff(n.distance);
  }

  // ---------------------------------------------------------------------------
  // The service

  class FEEXService {
    const db: EmbeddedChromaDB
    const model: ImageEmbeddingModel
    const localImageService: LocalImageService
    const remoteImageService: RemoteImageService
    const duplicateThreshold: int

    ghost predicate Valid()
      reads db, model
    {
      db.Valid() && model.Valid() && localImageService.model == model && remoteImageService.model == model
    }

    /** `__init__` with the embedded Chroma backend: both image services share the one model. */
    constructor (db: EmbeddedChromaDB, model: ImageEmbeddingModel)
      requires db.Valid() && model.Valid()
      ensures Valid() && this.db == db && this.model == model
      ensures duplicateThreshold == DuplicateThresholdPercentage
    {
      this.db := db;
      this.model := model;
      localImageService := new LocalImageService(model);
      remoteImageService := new RemoteImageService(model);
      duplicateThreshold := DuplicateThresholdPercentage;
    }

    /** The report the current collection yields for one embedding: only stored files, each
        within the cutoff and so at least 40 percent, at most 50 of them. */
    function ReportFor(e: ImageEmbedding): (r: DuplicateReport)
      reads db
      requires db.Valid()
      ensures r.originalFilename == e.filename
      ensures |r.duplicates.filenames| + |r.suspicious.filenames| <= ChromaNeighbourLimit
      ensures forall f :: f in r.duplicates.filenames || f in r.suspicious.filenames ==>
        f.filename in db.collection && f.duplicateChanceInPercent >= 40
    {
      var ns := db.Neighbours(e.embedding, ReportQuery(EmbeddedChroma));
      var r := BuildReport(e.filename, ns, duplicateThreshold);
      assert |multiset(r.duplicates.filenames) + multiset(r.suspicious.filenames)| == |ns|;
      forall f | f in r.duplicates.filenames || f in r.suspicious.filenames
        ensures f.filename in db.collection && f.duplicateChanceInPercent >= 40
      {
        ReportedFilesAreNeighbours(e.filename, ns, duplicateThreshold, f);
        ReportedChanceAtLeastForty(e.filename, ns, duplicateThreshold, f);
      }
      r
    }

    /** `create_duplicate_report`. */
    method CreateDuplicateReport(e: ImageEmbedding) returns (r: DuplicateReport)
      requires Valid()
      ensures r == ReportFor(e)
    {
      var ns := db.GetNeighbours(e, Some(ReportDistanceCutoff), ChromaNeighbourLimit);
      var fs := ToSuspicious(ns);
      var duplicateFiles := AtLeast(fs, duplicateThreshold);
      var suspiciousFiles := Below(fs, duplicateThreshold);
      r := DuplicateReport(
        e.filename,
        DuplicateReportPart(|duplicateFiles|, duplicateFiles),
        DuplicateReportPart(|suspiciousFiles|, suspiciousFiles));
    }

    /** The embeddings a call works on: the uploads when there are any, the folder otherwise. */
    function Embeddings(images: Option<seq<Upload>>, imageRoot: string, filenames: Option<seq<string>>, env: Environment)
      : (es: seq<ImageEmbedding>)
      reads model
      requires model.Valid()
      ensures images.Some? && images.value != [] ==> |es| == |images.value|
      ensures images.None? || images.value == [] ==>
        |es| == |Readable(ServiceFiles(imageRoot, filenames, env), env.imageSize)|
      ensures AllFullWidth(es)
    {
      if images.Some? && images.value != [] then
        RemoteEmbeddings(model, images.value, filenames, env)
      else
        LocalEmbeddingsSound(model, imageRoot, filenames, env);
        EmbedBatchesFilenames(model, env.loadImage, ServiceBatches(imageRoot, filenames, env));
        LocalEmbeddings(model, imageRoot, filenames, env)
    }

    /** `embed_remote_images` / `embed_local_images`, chosen by whether there are uploads. */
    method EmbedImages(images: Option<seq<Upload>>, imageRoot: string, filenames: Option<seq<string>>, env: Environment)
      returns (embs: seq<ImageEmbedding>)
      requires Valid()
      ensures embs == Embeddings(images, imageRoot, filenames, env)
    {
      if images.Some? && images.value != [] {
        embs := remoteImageService.EmbedImages(images.value, filenames, env);
      } else {
        embs := localImageService.EmbedLocalImages(imageRoot, filenames, env);
      }
    }

    /** `store_image_embeddings`. */
    method StoreImageEmbeddings(embs: seq<ImageEmbedding>) returns (o: Outcome<StoreError>)
      requires Valid()
      modifies db
      ensures Valid()
      ensures o.Pass? ==> db.collection == UpsertAll(old(db.collection), embs)
      ensures o.Fail? ==> db.collection == old(db.collection)
      ensures o == Fail(DuplicateIds) <==> embs != [] && !Distinct(Filenames(embs))
      ensures o == Fail(WrongDimension) <==> embs != [] && Distinct(Filenames(embs)) && !AllFullWidth(embs)
    {
      o := db.StoreEmbeddings(embs);
    }

    /** `check_duplicate`: embed, build every report against the collection as it was, and only
        then, when asked to, store the embeddings. A report therefore only lists files stored
        before the call. The only way the store refuses is an id given twice. */
    method CheckDuplicate(
      images: Option<seq<Upload>>, imageRoot: string, filenames: Option<seq<string>>,
      saveEmbeddings: bool, env: Environment)
      returns (r: Result<seq<DuplicateReport>, StoreError>)
      requires Valid()
      modifies db
      ensures Valid()
      ensures r.Success? ==>
        && |r.value| == |Embeddings(images, imageRoot, filenames, env)|
        && forall i :: 0 <= i < |r.value| ==>
             r.value[i] == old(ReportFor(Embeddings(images, imageRoot, filenames, env)[i]))
      ensures r.Success? ==> forall i, f :: 0 <= i < |r.value| && f in r.value[i].duplicates.filenames ==>
        f.filename in old(db.collection)
      ensures r.Success? ==> forall i, f :: 0 <= i < |r.value| && f in r.value[i].suspicious.filenames ==>
        f.filename in old(db.collection)
      ensures !saveEmbeddings ==> r.Success? && db.collection == old(db.collection)
      ensures saveEmbeddings && r.Success? ==>
        db.collection == UpsertAll(old(db.collection), Embeddings(images, imageRoot, filenames, env))
      ensures r.Failure? ==> db.collection == old(db.collection)
      ensures r == Failure(DuplicateIds) <==> saveEmbeddings && !Distinct(Filenames(Embeddings(images, imageRoot, filenames, env)))
      ensures r.Failure? ==> r.error == DuplicateIds
    {
      var imageEmbeddings := EmbedImages(images, imageRoot, filenames, env);
      var duplicateReports := seq(|imageEmbeddings|, i requires 0 <= i < |imageEmbeddings| && db.Valid() reads db =>
        ReportFor(imageEmbeddings[i]));
      if saveEmbeddings {
        var o := StoreImageEmbeddings(imageEmbeddings);
        if o.Fail? {
          return Failure(o.error);
        }
      }
      return Success(duplicateReports);
    }

    /** `embed_and_store_images`: embed and always store, without a duplicate check. */
    method EmbedAndStoreImages(images: Option<seq<Upload>>, imageRoot: string, filenames: Option<seq<string>>, env: Environment)
      returns (o: Outcome<StoreError>)
      requires Valid()
      modifies db
      ensures Valid()
      ensures o.Pass? ==> db.collection == UpsertAll(old(db.collection), Embeddings(images, imageRoot, filenames, env))
      ensures o.Fail? ==> db.collection == old(db.collection)
      ensures o == Fail(DuplicateIds) <==> !Distinct(Filenames(Embeddings(images, imageRoot, filenames, env)))
      ensures o.Fail? ==> o.error == DuplicateIds
    {
      var imageEmbeddings := EmbedImages(images, imageRoot, filenames, env);
      o := StoreImageEmbeddings(imageEmbeddings);
    }
  }

  /** Uploads without usable names get generated ones, which never collide: such a call is
      never refused by the store. */
  lemma GeneratedUploadNamesStore(model: ImageEmbeddingModel, uploads: seq<Upload>, filenames: Option<seq<string>>, env: Environment)
    requires model.Valid()
    requires filenames.None? || |filenames.value| != |uploads|
    requires forall i :: '_' !in env.clock(i)
    ensures Distinct(Filenames(RemoteEmbeddings(model, uploads, filenames, env)))
  {
    GeneratedNamesDistinct(env.clock, |uploads|);
    assert NamesFor(filenames, |uploads|, env.clock) == GeneratedNames(env.clock, |uploads|);
  }
}
