/**
 * Embedding the images of a local folder: a reader serves resolution-uniform batches,
 * each batch goes through the model once, and the vectors are paired with the batch's
 * filenames and concatenated in batch order.
 */
module LocalImageService {
  import opened Wrappers
  import opened Seqs
  import opened Models
  import opened Host
  import opened EmbeddingModel
  import opened ImageReader

  /** How the service builds its reader: no (or no) filenames means every image file of the folder. */
  function ReaderArguments(filenames: Option<seq<string>>): (args: (Option<seq<string>>, bool))
  {
    if filenames.None? || filenames.value == [] then (None, true) else (filenames, false)
  }

  /** The full paths the service's reader holds. */
  function ServiceFiles(imageRoot: string, filenames: Option<seq<string>>, env: Environment): (files: seq<string>)
    ensures filenames.None? || filenames.value == [] ==>
      files == JoinedPaths(imageRoot, ImageFileNames(env.listDir(imageRoot)), env.joinPath)
    ensures filenames.Some? && |filenames.value| > 1 ==>
      files == JoinedPaths(imageRoot, filenames.value, env.joinPath)
    ensures filenames.Some? && |filenames.value| == 1 ==>
      files == JoinedPaths(imageRoot, Split(filenames.value[0], ','), env.joinPath)
  {
    var args := ReaderArguments(filenames);
    JoinedPaths(imageRoot, RequestedNames(args.0, args.1, env.listDir(imageRoot)), env.joinPath)
  }

  /** The batches the service's reader serves. */
  function ServiceBatches(imageRoot: string, filenames: Option<seq<string>>, env: Environment): seq<seq<string>>
  {
    ReaderBatches(ServiceFiles(imageRoot, filenames, env), env.imageSize, LocalImageBatchSize)
  }

  /** `[ImageEmbedding(v, f) for v, f in zip(vectors, names)]`. */
  function ZipEmbeddings(vs: seq<Vector>, names: seq<string>): seq<ImageEmbedding>
  {
    seq(Min(|vs|, |names|), i requires 0 <= i < Min(|vs|, |names|) => ImageEmbedding(vs[i], names[i]))
  }

  /** The embeddings of one batch: its images through the model, paired with its filenames. */
  function BatchEmbeddings(model: ImageEmbeddingModel, load: string -> Image, names: seq<string>): (es: seq<ImageEmbedding>)
    reads model
    requires model.Valid()
    ensures Filenames(es) == names
    ensures forall e :: e in es ==> |e.embedding| == EmbeddingDim
  {
    var images := seq(|names|, j requires 0 <= j < |names| => load(names[j]));
    var vs := model.ComputeEmbeddingBatch(images);
    var es := ZipEmbeddings(vs, names);
    assert forall i :: 0 <= i < |es| ==> es[i].embedding == vs[i] && vs[i] in vs;
    es
  }

  /** The images the reader serves for a batch embed to that batch's embeddings. */
  lemma BatchStep(model: ImageEmbeddingModel, load: string -> Image, names: seq<string>, images: seq<Image>)
    requires model.Valid()
    requires |images| == |names| && forall j :: 0 <= j < |images| ==> images[j] == load(names[j])
    ensures ZipEmbeddings(model.ComputeEmbeddingBatch(images), names) == BatchEmbeddings(model, load, names)
  {
    assert images == seq(|names|, j requires 0 <= j < |names| => load(names[j]));
  }

  /** All batches' embeddings, concatenated in batch order. */
  function EmbedBatches(model: ImageEmbeddingModel, load: string -> Image, bs: seq<seq<string>>): seq<ImageEmbedding>
    reads model
    requires model.Valid()
  {
    if bs == [] then []
    else EmbedBatches(model, load, bs[..|bs| - 1]) + BatchEmbeddings(model, load, bs[|bs| - 1])
  }

  /** One more batch adds its embeddings at the end. */
  lemma EmbedBatchesPrefix(model: ImageEmbeddingModel, load: string -> Image, bs: seq<seq<string>>, i: nat)
    requires model.Valid() && i < |bs|
    ensures EmbedBatches(model, load, bs[..i + 1]) == EmbedBatches(model, load, bs[..i]) + BatchEmbeddings(model, load, bs[i])
  {
    assert bs[..i + 1][..i] == bs[..i];
  }

  lemma FilenamesAppend(a: seq<ImageEmbedding>, b: seq<ImageEmbedding>)
    ensures Filenames(a + b) == Filenames(a) + Filenames(b)
  {
  }

  /** The embeddings carry the batches' filenames, flattened in order, each with a full-width vector. */
  lemma {:induction false} EmbedBatchesFilenames(model: ImageEmbeddingModel, load: string -> Image, bs: seq<seq<string>>)
    requires model.Valid()
    ensures Filenames(EmbedBatches(model, load, bs)) == Flatten(bs)
    ensures forall e :: e in EmbedBatches(model, load, bs) ==> |e.embedding| == EmbeddingDim
  {
    if bs != [] {
      var init, last := bs[..|bs| - 1], bs[|bs| - 1];
      EmbedBatchesFilenames(model, load, init);
      FilenamesAppend(EmbedBatches(model, load, init), BatchEmbeddings(model, load, last));
      assert bs == init + [last];
      FlattenAppend(init, [last]);
      assert Flatten([last]) == last;
    }
  }

  /** What `embed_local_images` returns. */
  function LocalEmbeddings(model: ImageEmbeddingModel, imageRoot: string, filenames: Option<seq<string>>, env: Environment)
    : seq<ImageEmbedding>
    reads model
    requires model.Valid()
  {
    EmbedBatches(model, env.loadImage, ServiceBatches(imageRoot, filenames, env))
  }

  /** Every readable file is embedded exactly once, and nothing else is. */
  lemma LocalEmbeddingsSound(model: ImageEmbeddingModel, imageRoot: string, filenames: Option<seq<string>>, env: Environment)
    requires model.Valid()
    ensures Filenames(LocalEmbeddings(model, imageRoot, filenames, env)) == Flatten(ServiceBatches(imageRoot, filenames, env))
    ensures multiset(Filenames(LocalEmbeddings(model, imageRoot, filenames, env)))
         == multiset(Readable(ServiceFiles(imageRoot, filenames, env), env.imageSize))
    ensures |LocalEmbeddings(model, imageRoot, filenames, env)| == |Readable(ServiceFiles(imageRoot, filenames, env), env.imageSize)|
  {
    var files := ServiceFiles(imageRoot, filenames, env);
    EmbedBatchesFilenames(model, env.loadImage, ServiceBatches(imageRoot, filenames, env));
    ReaderBatchesSound(files, env.imageSize, LocalImageBatchSize);
    var es := LocalEmbeddings(model, imageRoot, filenames, env);
    assert |multiset(Filenames(es))| == |multiset(Readable(files, env.imageSize))|;
  }

  class LocalImageService {
    const model: ImageEmbeddingModel

    constructor (model: ImageEmbeddingModel)
      ensures this.model == model
    {
      this.model := model;
    }

    /** `embed_local_images`: build the reader, then embed what it serves. */
    method EmbedLocalImages(imageRoot: string, filenames: Option<seq<string>>, env: Environment)
      returns (embs: seq<ImageEmbedding>)
      requires model.Valid()
      ensures embs == LocalEmbeddings(model, imageRoot, filenames, env)
      ensures Filenames(embs) == Flatten(ServiceBatches(imageRoot, filenames, env))
      ensures |embs| == |Readable(ServiceFiles(imageRoot, filenames, env), env.imageSize)|
      ensures forall e :: e in embs ==> |e.embedding| == EmbeddingDim
    {
      var args := ReaderArguments(filenames);
      var reader := new LocalImgReader(args.0, imageRoot, LocalImageBatchSize, args.1, env);
      assert reader.filenames == ServiceFiles(imageRoot, filenames, env);
      embs := EmbedAllBatches(reader);
      LocalEmbeddingsSound(model, imageRoot, filenames, env);
      EmbedBatchesFilenames(model, env.loadImage, reader.batches);
    }

    /** The `for batch, names in reader` loop: index the reader from 0 until it raises
        IndexError, embedding each batch once. */
    method EmbedAllBatches(reader: LocalImgReader) returns (embs: seq<ImageEmbedding>)
      requires model.Valid() && reader.Valid()
      ensures embs == EmbedBatches(model, reader.env.loadImage, reader.batches)
    {
      var load := reader.env.loadImage;
      embs := [];
      var i := 0;
      var done := false;
      while !done
        invariant 0 <= i <= reader.Length()
        invariant done ==> i == reader.Length()
        invariant embs == EmbedBatches(model, load, reader.batches[..i])
        decreases reader.Length() - i, if done then 0 else 1
      {
        var r := reader.GetItem(i);
        match r
        case Failure(_) =>
          done := true;
        case Success(batch) =>
          var vs := model.ComputeEmbeddingBatch(batch.images);
          BatchStep(model, load, batch.filenames, batch.images);
          EmbedBatchesPrefix(model, load, reader.batches, i);
          embs := embs + ZipEmbeddings(vs, batch.filenames);
          i := i + 1;
      }
      assert reader.batches[..i] == reader.batches;
    }
  }
}
