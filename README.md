# Image duplicate detection (FEEX) — a Dafny model

This project models the core of `bube`, a service that finds duplicate and
near-duplicate images. Images are turned into 2048-wide embedding vectors by
an ONNX model. The vectors are stored in a vector database, either an
embedded Chroma collection or PgVector. The database is then asked for each
image's nearest neighbours, and the answer becomes a duplicate report. A
neighbour's *duplicate chance* is `int((1 - distance) * 100)`. Neighbours
with a chance of at least 80 % are listed as duplicates; the rest of the
neighbours within squared L2 distance 0.6 are listed as suspicious.

The modules follow the program's layout. Each service or repository module models its source file. `VectorStore` covers the repository interface and both backends. `Wrappers`, `Seqs` and `Host` are shared helpers that model no source file.

| module | file | form |
|---|---|---|
| `Wrappers` | `wrappers.dfy` | `Option`, `Result`, `Outcome` |
| `Seqs` | `seqs.dfy` | list helpers: flattening, order-preserving sublists, distinctness |
| `Models` | `models.dfy` | report records and the duplicate-chance computation |
| `Host` | `host.dfy` | the file system, image decoding and the clock, as a value |
| `ImageReader` | `local_img_reader.dfy` | the local image reader: a class over its batch list |
| `EmbeddingModel` | `image_embedding_model.dfy` | the singleton ONNX model and its provider choice |
| `VectorStore` | `vector_store.dfy` | the Chroma store, a class over its collection map, and the PgVector delegations |
| `LocalImageService` | `local_image_service.dfy` | embedding images read from disk |
| `RemoteImageService` | `remote_image_service.dfy` | embedding uploaded images and naming them |
| `FeexService` | `feex_service.dfy` | duplicate reports and the check/store entry points |

What the model treats as oracles:

- **The environment.** Everything outside the program is a `Host.Environment` value:
  - the directory listing;
  - path joining;
  - the size an image file reports, or `None` when it cannot be opened;
  - image loading and preprocessing;
  - decoding an upload;
  - the clock reading taken for the i-th generated name.
- **The ONNX session.** It is a function from a batch of images to a batch of
  vectors. `EmbeddingModel.ShapeContract` constrains it to return one
  2048-wide vector per image.
- **Chroma's approximate nearest-neighbour search.** It is a function of the
  collection, the query vector and the limit. `VectorStore.AnnContract`
  constrains its answer:
  - at most `limit` hits;
  - distinct ids;
  - every hit stored in the collection with the vector it returns;
  - non-negative distances in ascending order.
- **The PgVector SQL query.** It is an uninterpreted function. The model
  covers only the Python code that sits around it.

The Python semantics that matter are written out:

- `str.split(",")` and ASCII `lower()`.
- Dictionary insertion order. The resolution dictionary is a key sequence
  plus a map.
- Slicing a list into chunks of `max_batch_size`.
- `int()` truncating toward zero. This is not rounding and not flooring.
- `zip` stopping at the shortest list.
- Chroma's upsert refusing duplicate ids in one call.
- The reader's `__getitem__`: its guard lets `index == len(self)` through, and
  the list access then raises the `IndexError` that ends a `for` loop.

`int()` truncates toward zero rather than rounding
(`bube/models/duplicate_report.py:19`). `Models.ChanceTruncates` pins the
difference down: distance 0.554 gives 44, not 45.

## Model

| member | source | states |
|---|---|---|
| Models.TruncateToInt | bube/models/duplicate_report.py:19 | Python `int()` on a real: the result is the integer part, truncated toward zero, so it is within one of the argument and never further from zero than it |
| Models.FromNeighbourEmbedding | bube/models/duplicate_report.py:13-20 | the suspicious file keeps the neighbour's filename and distance; its percentage is `(1 - distance) * 100` truncated toward zero |
| Models.ChanceOfExactMatch | bube/models/duplicate_report.py:19 | a neighbour at distance 0 is a 100 % duplicate |
| Models.ChanceInPercentRange | bube/models/duplicate_report.py:19 | for a distance in [0, 1] the chance lies in 0..100 |
| Models.ChanceAntitone | bube/models/duplicate_report.py:19 | the chance never grows as the distance grows |
| Models.ChanceNotClamped | bube/models/duplicate_report.py:19 | nothing clamps the chance: above distance 1 it is at most 0, and it turns negative once `(1 - d) * 100 <= -1` |
| Models.ChanceTruncates | bube/models/duplicate_report.py:19 | distance 0.554 gives 44, not the rounded 45; distance 1.005 gives 0, not the floored -1 |
| Models.ChanceWithinCutoff | bube/services/feex_service/feex_service.py:88-98 | every neighbour inside the report cutoff 0.6 has a chance of at least 40 %, the lower bound the docstring promises |
| ImageReader.Split | bube/services/local_image_service/local_img_reader.py:37-40 | `str.split`: there is at least one part, no part contains the separator, and joining the parts with it gives back the string |
| ImageReader.SplitJoin | bube/services/local_image_service/local_img_reader.py:37-40 | splitting inverts joining for separator-free parts |
| ImageReader.ImageFileNames | bube/services/local_image_service/local_img_reader.py:45-48 | the directory filter keeps exactly the names whose lower-cased form ends in an image extension, each as often as listed, in listing order |
| ImageReader.RequestedNames | bube/services/local_image_service/local_img_reader.py:37-48 | a one-element filename list is split on commas; a longer list is kept as given; no list lists the directory when `all_img_files` is set, and otherwise gives no files |
| ImageReader.Readable | bube/services/local_image_service/local_img_reader.py:76-83 | the files that survive the scan are exactly those whose size can be read |
| ImageReader.ReadableFilters | bube/services/local_image_service/local_img_reader.py:76-83 | each readable file survives as often as it is given, and an unreadable one never does |
| ImageReader.ReadableKeepsOrder | bube/services/local_image_service/local_img_reader.py:76-83 | the surviving files keep their input order |
| ImageReader.FirstAppearances | bube/services/local_image_service/local_img_reader.py:86-88 | the dictionary keys are exactly the resolutions that occur, each once |
| ImageReader.Group | bube/services/local_image_service/local_img_reader.py:86-89 | a resolution's file list holds exactly the readable files of that resolution, and is empty exactly when the resolution never occurs |
| ImageReader.ScanStep | bube/services/local_image_service/local_img_reader.py:76-89 | one more scanned file either leaves the keys alone (unreadable, or a known resolution) or appends its new resolution; it is appended to its own group only |
| ImageReader.GroupsPartitionReadable | bube/services/local_image_service/local_img_reader.py:76-91 | the groups together are a permutation of the readable files: no file lost, none duplicated |
| ImageReader.GroupKeepsOrder | bube/services/local_image_service/local_img_reader.py:89 | each group is an order-preserving sublist of the scanned files |
| ImageReader.Chunk | bube/services/local_image_service/local_img_reader.py:109-110 | slicing by the batch size: the chunks concatenate back to the group, each holds 1..n files, and all but the last hold exactly n |
| ImageReader.BatchesOf | bube/services/local_image_service/local_img_reader.py:106-111 | the batches concatenate to the concatenated groups, and each holds 1..n files |
| ImageReader.BatchWithinGroup | bube/services/local_image_service/local_img_reader.py:108-110 | no batch mixes two groups |
| ImageReader.OneBatchPerGroup | bube/services/local_image_service/local_img_reader.py:108-110 | groups no larger than the batch size become one batch each, unchanged |
| ImageReader.ReaderBatchesSound | bube/services/local_image_service/local_img_reader.py:61-111 | every batch is non-empty, holds at most `max_batch_size` files, all of one resolution; the batches are a permutation of the readable files; there are no more batches than readable files, and none exactly when no file is readable |
| ImageReader.OneBatchPerResolution | bube/services/local_image_service/local_img_reader.py:106-111 | when no resolution has more files than the batch size, there is exactly one batch per resolution, in first-appearance order |
| ImageReader.UniformResolution | bube/services/local_image_service/local_img_reader.py:76-111 | files that all share one resolution give one dictionary key and are cut into consecutive chunks |
| ImageReader.ScenarioMissingFile | bube/services/local_image_service/local_img_reader.py:81-83 | a requested file that cannot be opened gives no batch, and no error |
| ImageReader.ScenarioFiveOfOneResolution | bube/services/local_image_service/local_img_reader.py:109-110 | five files of one resolution with batch size 4 give a batch of four followed by a batch of one |
| ImageReader.GuardAdmitsOnePastEnd | bube/services/local_image_service/local_img_reader.py:122 | the `index <= len` guard lets the one-past-the-end index through, while it refuses -1 and the index after that |
| ImageReader.LocalImgReader.constructor | bube/services/local_image_service/local_img_reader.py:28-50 | the reader keeps the root and batch size; its file list is the requested names joined to the root; its batches are built from that list |
| ImageReader.LocalImgReader.Length | bube/services/local_image_service/local_img_reader.py:53-59 | the length is the number of batches: zero exactly when no file is readable, and never more than the number of readable files |
| ImageReader.LocalImgReader.CreateBatches | bube/services/local_image_service/local_img_reader.py:61-63 | sorting then converting gives the reader's batch list |
| ImageReader.LocalImgReader.SortImgByRes | bube/services/local_image_service/local_img_reader.py:65-91 | the loop builds a well-formed dictionary whose keys are the resolutions in first-appearance order and whose values are the per-resolution groups |
| ImageReader.LocalImgReader.ConvertDictToBatches | bube/services/local_image_service/local_img_reader.py:93-111 | a batch size of 0 stands for `max_batch_size`; the result is the dictionary's groups, each cut into chunks, in key order |
| ImageReader.LocalImgReader.GetItem | bube/services/local_image_service/local_img_reader.py:113-131 | success exactly for `0 <= index < len`; a negative index or one past `len` is refused by the guard; `index == len` fails at the list access; on success the batch's filenames and one loaded image per filename |
| EmbeddingModel.GetExecutionProviders | bube/services/image_embedding_model/image_embedding_model.py:86-102 | CUDA comes first only when the GPU is requested and available; CPU is always present; without the GPU request the list is exactly the CPU provider |
| EmbeddingModel.ImageEmbeddingModel.Allocate | bube/services/image_embedding_model/image_embedding_model.py:27-31 | a freshly allocated model is not yet initialised |
| EmbeddingModel.ImageEmbeddingModel.Init | bube/services/image_embedding_model/image_embedding_model.py:33-55 | a second initialisation changes nothing; the first sets the dtype, the providers, the model path (the bundled model when the path is missing or empty) and the session, and leaves the model valid |
| EmbeddingModel.ImageEmbeddingModel.ComputeEmbeddingBatch | bube/services/image_embedding_model/image_embedding_model.py:71-84 | one 2048-wide vector per input image |
| EmbeddingModel.ImageEmbeddingModel.ComputeEmbeddingSingle | bube/services/image_embedding_model/image_embedding_model.py:57-69 | a single image's vector is 2048 wide and is the only vector of the one-image batch |
| EmbeddingModel.ModelRegistry.constructor | bube/services/image_embedding_model/image_embedding_model.py:15 | no instance exists before the first construction |
| EmbeddingModel.ModelRegistry.New | bube/services/image_embedding_model/image_embedding_model.py:27-31 | the first call allocates an uninitialised instance; every later call returns that same object |
| EmbeddingModel.ModelRegistry.Construct | bube/services/image_embedding_model/image_embedding_model.py:27-55 | construction always yields the single registered instance, valid; once it is initialised, later arguments are ignored |
| EmbeddingModel.SingletonTwice | bube/services/image_embedding_model/image_embedding_model.py:42-43 | two constructions return the same object, configured by the first call's arguments |
| VectorStore.ConvertChromaResults | bube/repository/embedded_chroma_db.py:85-90 | zip of ids, embeddings and distances: as many neighbours as the shortest list, each built from the same position of all three |
| VectorStore.WithinThreshold | bube/repository/embedded_chroma_db.py:67-70 | the kept neighbours are exactly those at distance at most the threshold, each as often as it occurs, in their original order |
| VectorStore.ThresholdMonotone | bube/repository/embedded_chroma_db.py:67-70 | raising the threshold only adds neighbours: the smaller answer is a sublist of the larger |
| VectorStore.ThresholdIdempotent | bube/repository/embedded_chroma_db.py:67-70 | filtering twice by the same threshold equals filtering once |
| VectorStore.UpsertAllSpec | bube/repository/embedded_chroma_db.py:43-49 | after upserting distinct filenames the keys are the old keys plus the new filenames, each new filename maps to its vector, and every other entry is untouched |
| VectorStore.UpsertAllKeeps | bube/repository/embedded_chroma_db.py:47-49 | an id not among the stored filenames keeps its entry |
| VectorStore.UpsertIdempotent | bube/repository/embedded_chroma_db.py:47-49 | storing the same embeddings twice leaves the same collection as storing them once |
| VectorStore.UpsertKeepsDimension | bube/repository/embedded_chroma_db.py:47-49 | upserting 2048-wide vectors keeps every stored vector 2048 wide |
| VectorStore.EmbeddedChromaDB.constructor | bube/repository/embedded_chroma_db.py:22-27 | the store opens on the persisted collection |
| VectorStore.EmbeddedChromaDB.StoreEmbeddings | bube/repository/embedded_chroma_db.py:43-49 | an empty list is a no-op; duplicate ids, then wrong widths, are refused with the collection unchanged; otherwise the collection is the upsert of all embeddings |
| VectorStore.EmbeddedChromaDB.TopN | bube/repository/embedded_chroma_db.py:72-77 | at most `limit` neighbours, with distinct filenames, all stored in the collection, at non-negative distances in ascending order |
| VectorStore.EmbeddedChromaDB.Neighbours | bube/repository/embedded_chroma_db.py:51-70 | at most `limit` neighbours, an order-preserving sublist of the top-n answer; with no threshold it is that answer; with a threshold it is exactly the top-n neighbours within it |
| VectorStore.EmbeddedChromaDB.GetNeighbours | bube/repository/embedded_chroma_db.py:51-70 | the method returns the neighbour answer for the given threshold and limit |
| VectorStore.EmbeddedChromaDB.GetNeighboursTopN | bube/repository/embedded_chroma_db.py:72-77 | the top-n answer, which is also the unthresholded neighbour query |
| VectorStore.EmbeddedChromaDB.GetNeighboursThreshold | bube/repository/embedded_chroma_db.py:79-83 | the thresholded query with limit 100: at most 100 neighbours, all stored and all within the threshold |
| VectorStore.EmbeddedChromaDB.ClearDatabase | bube/repository/embedded_chroma_db.py:92-96 | the collection ends empty; a delete is issued exactly when it held ids |
| VectorStore.NeighboursMonotoneInThreshold | bube/repository/embedded_chroma_db.py:51-70 | with the same limit, a larger threshold returns a superset, order preserved |
| VectorStore.PgVectorDB.constructor | bube/repository/pgvector.py:27-40 | the repository is bound to its neighbour query |
| VectorStore.PgVectorDB.GetNeighbours | bube/repository/pgvector.py:68-94 | the answer of the SQL neighbour query for the given threshold and limit |
| VectorStore.PgVectorDB.GetNeighboursTopN | bube/repository/pgvector.py:96-98 | top-n is the neighbour query without a threshold |
| VectorStore.PgVectorDB.GetNeighboursThreshold | bube/repository/pgvector.py:100-104 | the threshold query is the neighbour query with limit 100 |
| LocalImageService.ServiceFiles | bube/services/local_image_service/local_image_service.py:27-30 | no filenames, or an empty list, reads every image file in the root; otherwise the given names (a single entry split on commas), joined to the root |
| LocalImageService.BatchEmbeddings | bube/services/local_image_service/local_image_service.py:35-41 | one 2048-wide embedding per file of the batch, labelled with that file's name, in order |
| LocalImageService.EmbedBatchesFilenames | bube/services/local_image_service/local_image_service.py:32-42 | the embeddings' filenames are the batches' files concatenated, and every vector is 2048 wide |
| LocalImageService.LocalEmbeddingsSound | bube/services/local_image_service/local_image_service.py:16-43 | exactly one embedding per readable file: the filenames are a permutation of the readable files |
| LocalImageService.LocalImageService.constructor | bube/services/local_image_service/local_image_service.py:13-14 | the service holds the shared model |
| LocalImageService.LocalImageService.EmbedAllBatches | bube/services/local_image_service/local_image_service.py:32-42 | iterating the reader until it raises visits every batch once, in index order, and concatenates their embeddings |
| LocalImageService.LocalImageService.EmbedLocalImages | bube/services/local_image_service/local_image_service.py:16-43 | the result labels the batches' files in batch order, holds one 2048-wide vector per readable file of the chosen files, and is the batch-by-batch embedding of the reader's batches |
| RemoteImageService.NatToString | bube/services/remote_image_service/remote_image_service.py:40 | `str(i)`: the decimal text of an index is non-empty, all digits, without a leading zero, and parses back to the index |
| RemoteImageService.NamesFor | bube/services/remote_image_service/remote_image_service.py:38-40 | one name per upload: the given names when their count matches, otherwise `<timestamp>_image_<i>` for each index i |
| RemoteImageService.GeneratedNameInjective | bube/services/remote_image_service/remote_image_service.py:40 | when timestamps contain no underscore, a generated name determines its index |
| RemoteImageService.GeneratedNamesDistinct | bube/services/remote_image_service/remote_image_service.py:38-40 | generated names are pairwise distinct, even when two timestamps coincide |
| RemoteImageService.RemoteEmbeddings | bube/services/remote_image_service/remote_image_service.py:22-47 | one 2048-wide embedding per upload, labelled by the naming rule |
| RemoteImageService.RemoteImageService.constructor | bube/services/remote_image_service/remote_image_service.py:18-19 | the service holds the shared model |
| RemoteImageService.RemoteImageService.EmbedImages | bube/services/remote_image_service/remote_image_service.py:22-47 | embedding i is the single-image vector of upload i, decoded; labels are the given names when counts match, generated ones otherwise |
| FeexService.AtLeast | bube/services/feex_service/feex_service.py:101-103 | the duplicate bucket holds exactly the files at or above the threshold, in neighbour order |
| FeexService.Below | bube/services/feex_service/feex_service.py:104-106 | the suspicious bucket holds exactly the files below the threshold, in neighbour order |
| FeexService.BucketsPartition | bube/services/feex_service/feex_service.py:101-106 | the two buckets split the neighbours: their union is every neighbour, and their sizes add up |
| FeexService.BuildReport | bube/services/feex_service/feex_service.py:99-115 | the report names the original; each part's count is its list's length; duplicates reach the threshold, suspicious ones do not; together they are the converted neighbours in order |
| FeexService.ReportedFilesAreNeighbours | bube/services/feex_service/feex_service.py:99-106 | every reported file is one of the neighbours, with that neighbour's distance |
| FeexService.ReportedChanceAtLeastForty | bube/services/feex_service/feex_service.py:88-106 | with neighbours inside the 0.6 cutoff, every reported chance is at least 40 % |
| FeexService.FEEXService.constructor | bube/services/feex_service/feex_service.py:28-39 | the service owns a store, the model and both embedding services, with duplicate threshold 80 |
| FeexService.FEEXService.ReportFor | bube/services/feex_service/feex_service.py:84-115 | the report for an embedding lists at most 50 files, all stored in the collection, each with a chance of at least 40 % |
| FeexService.FEEXService.CreateDuplicateReport | bube/services/feex_service/feex_service.py:84-115 | the method returns that report |
| FeexService.FEEXService.Embeddings | bube/services/feex_service/feex_service.py:70-73 | uploads give one embedding each; with no uploads there is one per readable local file; all are 2048 wide |
| FeexService.FEEXService.EmbedImages | bube/services/feex_service/feex_service.py:70-73 | the method computes those embeddings |
| FeexService.FEEXService.StoreImageEmbeddings | bube/services/feex_service/feex_service.py:127-130 | passes the embeddings to the store's upsert, with its outcome |
| FeexService.FEEXService.CheckDuplicate | bube/services/feex_service/feex_service.py:41-82 | one report per embedding, built against the collection as it stood before storing; without saving the collection is unchanged; with saving it is the upsert, unless duplicate filenames make the store refuse; that is the only failure the store reports, and it leaves the collection unchanged |
| FeexService.FEEXService.EmbedAndStoreImages | bube/services/feex_service/feex_service.py:132-155 | embeddings are always stored; success means the upsert happened; the only failure the store reports is duplicate filenames, and it leaves the collection unchanged |
| FeexService.GeneratedUploadNamesStore | bube/services/remote_image_service/remote_image_service.py:38-40 | uploads named by the fallback rule never trip the store's duplicate-id refusal |

## Left out

- The HTTP layer (FastAPI routes, request parsing, response encoding) and the `config` loading. Only the services and repositories below them are modelled.
- The arithmetic inside the ONNX model, image preprocessing (reversing the channels to BGR, subtracting the ImageNet mean) and float rounding. The model is a function constrained to return 2048-wide vectors, and the reals stand in for floats.
- HEIF plugin registration and the logging calls. They have no effect on the results.
- PgVector's SQL (table setup, the `ON CONFLICT` upsert, the server-side `get_neighbours` function) and its `close`. Its neighbour query is an uninterpreted function, and its store is not modelled. `FeexService` is modelled over the Chroma backend only. With PgVector, the report's limit would be its default of 10 instead of 50 (`VectorStore.DefaultNeighbourLimit`).
- Chroma's collection dimension is fixed at 2048, the model's output width. The wrong-width refusal in `VectorStore.EmbeddedChromaDB.StoreEmbeddings` is modelled, but it never fires for embeddings the model produces.
- The per-query outer list of Chroma's query result is collapsed to the single query the code sends. The `documents` field is not modelled.
- The default `limit` of `get_neighbours_top_n` (20 for Chroma, 10 for PgVector) is not modelled. Callers pass the limit explicitly.
- Every `Host.Environment` call is total, and so is loading the inference session. In the source, several calls raise, and each of those exceptions aborts the request before anything is stored:
  - `os.listdir` on a missing root;
  - `Image.open` errors other than the two the reader catches, for example opening the root directory itself when a name is empty;
  - the full image decode in `__getitem__`;
  - the upload decode;
  - `ort.InferenceSession` failing to load the model.
- CheckDuplicate (`FeexService.FEEXService.CheckDuplicate`): its failures are only those the store reports. The exceptions above, which abort before storing, are outside the model because the environment is total.
- EmbedAndStoreImages (`FeexService.FEEXService.EmbedAndStoreImages`): likewise, its only failure is the store's duplicate-id refusal. The exceptions raised while reading or decoding images are not modelled.
- Chroma refuses a limit of 0 or less with an error. The model takes limits as `nat` and does not model that refusal.
- `ImageReader.Lower` folds ASCII letters only. Unicode case folding is not modelled.
- `image_root` being `None`, and a `max_batch_size` of 0 or less. The model takes a string root and requires a positive batch size. The config default is 4 (`ImageReader.LocalImageBatchSize`).
- The inference dtype is recorded on the model. The session is built from the model path and the providers only, as in the source. Casting the input batch to the configured inference dtype (`astype(self._inference_dtype)`, float32 by default) is not modelled.
- `ImageReader.LocalImgReader.GetItem`: the error raised past the end is modelled as an error value. What it captures is that iteration stops exactly at `len(self)`.
- The six-file test scenario (three resolutions, three batches) is covered by `ImageReader.OneBatchPerResolution` for every input. It is not stated as a separate concrete instance.
- `FeexService.FEEXService.ReportFor` does not state that the reported files are the nearest ones. That depends on the ANN index, which is constrained only as described above.
