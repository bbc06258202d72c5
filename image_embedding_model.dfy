/**
 * The process-wide embedding model: a singleton whose initialisation runs once,
 * chooses execution providers, loads an inference session, and turns image
 * batches into one 2048-wide vector per image.
 */
module EmbeddingModel {
  import opened Wrappers
  import opened Models

  const CpuProvider: string := "CPUExecutionProvider"
  const CudaProvider: string := "CUDAExecutionProvider"

  datatype InferenceDtype = Float16 | Float32 | Float64

  /** A loaded inference session, with the preprocessing in front of it: a batch of images
      in, a batch of vectors out. It is built from the model path and the providers alone. */
  type Session = seq<Image> -> seq<Vector>

  /** The model file's contract: one vector of `EmbeddingDim` floats per input image. */
  ghost predicate ShapeContract(run: Session)
  {
    forall batch :: |run(batch)| == |batch| && forall v :: v in run(batch) ==> |v| == EmbeddingDim
  }

  /** What the provider list must look like: CUDA first exactly when the GPU is wanted and
      CUDA is available, CPU always last, nothing else. */
  predicate PreferredProviders(useGpu: bool, available: seq<string>, providers: seq<string>)
  {
    && 1 <= |providers| <= 2
    && providers[|providers| - 1] == CpuProvider
    && (providers[0] == CudaProvider <==> useGpu && CudaProvider in available)
    && (|providers| == 2 ==> providers[0] == CudaProvider)
  }

  /** `_get_execution_providers`, with `config.USE_GPU` and `ort.get_available_providers()` as inputs. */
  method GetExecutionProviders(useGpu: bool, available: seq<string>) returns (providers: seq<string>)
    ensures PreferredProviders(useGpu, available, providers)
    ensures !useGpu ==> providers == [CpuProvider]
  {
    if !useGpu {
      return [CpuProvider];
    }
    providers := [];
    if CudaProvider in available {
      providers := providers + [CudaProvider];
    }
    providers := providers + [CpuProvider];
  }

  /** The path `__init__` loads: the override when one is given and non-empty, else the bundled model. */
  function ModelPathToLoad(modelPath: Option<string>, bundledPath: string): string
  {
    if modelPath.Some? && modelPath.value != "" then modelPath.value else bundledPath
  }

  class ImageEmbeddingModel {
    var isInitialized: bool
    var inferenceDtype: InferenceDtype
    var executionProviders: seq<string>
    var modelPath: string
    var session: Session

    ghost predicate Valid()
      reads this
    {
      isInitialized && ShapeContract(session)
    }

    /** The bare object `__new__` allocates, before `__init__` ran. */
    constructor Allocate()
      ensures !isInitialized
    {
      isInitialized := false;
      inferenceDtype := Float32;
      executionProviders := [];
      modelPath := "";
      session := (batch: seq<Image>) => [];
    }

    /** `__init__`: does nothing once initialised; otherwise picks providers, loads the session
        from the chosen path and marks the object initialised. `load` stands for the inference
        engine building a session from a model file. */
    method Init(
      modelPath: Option<string>, inferenceDtype: InferenceDtype,
      useGpu: bool, available: seq<string>, bundledPath: string,
      load: (string, seq<string>) -> Session)
      requires forall p, ps :: ShapeContract(load(p, ps))
      modifies this
      ensures old(isInitialized) ==> unchanged(this)
      ensures !old(isInitialized) ==>
        && this.inferenceDtype == inferenceDtype
        && PreferredProviders(useGpu, available, executionProviders)
        && this.modelPath == ModelPathToLoad(modelPath, bundledPath)
        && session == load(this.modelPath, executionProviders)
      ensures old(isInitialized) || Valid()
    {
      if isInitialized {
        return;
      }
      this.inferenceDtype := inferenceDtype;
      executionProviders := GetExecutionProviders(useGpu, available);
      this.modelPath := ModelPathToLoad(modelPath, bundledPath);
      session := load(this.modelPath, executionProviders);
      isInitialized := true;
    }

    /** `compute_embedding_batch`: one vector of `EmbeddingDim` components per image, in order. */
    function ComputeEmbeddingBatch(batch: seq<Image>): (vs: seq<Vector>)
      reads this
      requires Valid()
      ensures |vs| == |batch|
      ensures forall v :: v in vs ==> |v| == EmbeddingDim
    {
      session(batch)
    }

    /** `compute_embedding_single`: the image as a batch of one, squeezed back to one vector. */
    function ComputeEmbeddingSingle(image: Image): (v: Vector)
      reads this
      requires Valid()
      ensures |v| == EmbeddingDim
      ensures [v] == ComputeEmbeddingBatch([image])
    {
      var vs := ComputeEmbeddingBatch([image]);
      assert vs[0] in vs;
      vs[0]
    }
  }

  /** The class attribute `_instance` shared by every construction. */
  class ModelRegistry {
    var instance: ImageEmbeddingModel?

    /** An initialised instance always satisfies the model's shape contract. */
    ghost predicate Valid()
      reads this, instance
    {
      instance != null && instance.isInitialized ==> instance.Valid()
    }

    constructor ()
      ensures Valid() && instance == null
    {
      instance := null;
    }

    /** `__new__`: allocate on first use, afterwards hand out the same object. */
    method New() returns (m: ImageEmbeddingModel)
      requires Valid()
      modifies this
      ensures Valid()
      ensures old(instance) != null ==> m == old(instance)
      ensures old(instance) == null ==> fresh(m) && !m.isInitialized
      ensures instance == m
    {
      if instance == null {
        instance := new ImageEmbeddingModel.Allocate();
      }
      m := instance;
    }

    /** `ImageEmbeddingModel(model_path, inference_dtype)`: `__new__` then `__init__`. After the
        first construction every later one returns the same, unchanged, initialised object,
        whatever path or dtype it passes. */
    method Construct(
      modelPath: Option<string>, inferenceDtype: InferenceDtype,
      useGpu: bool, available: seq<string>, bundledPath: string,
      load: (string, seq<string>) -> Session) returns (m: ImageEmbeddingModel)
      requires Valid()
      requires forall p, ps :: ShapeContract(load(p, ps))
      modifies this, instance
      ensures Valid() && instance == m && m.Valid()
      ensures old(instance) != null ==> m == old(instance)
      ensures old(instance) != null && old(instance.isInitialized) ==> unchanged(m)
      ensures old(instance) == null ==> fresh(m)
      ensures old(instance) == null || !old(instance.isInitialized) ==>
        && m.inferenceDtype == inferenceDtype
        && m.modelPath == ModelPathToLoad(modelPath, bundledPath)
    {
      m := New();
      m.Init(modelPath, inferenceDtype, useGpu, available, bundledPath, load);
    }
  }

  /** Two constructions in a row: the second returns the first object, keeping the first
      call's model path and dtype although it asks for others. */
  method SingletonTwice(
    registry: ModelRegistry, useGpu: bool, available: seq<string>, bundledPath: string,
    load: (string, seq<string>) -> Session)
    returns (first: ImageEmbeddingModel, second: ImageEmbeddingModel)
    requires registry.Valid() && registry.instance == null
    requires forall p, ps :: ShapeContract(load(p, ps))
    modifies registry
    ensures second == first && first.Valid()
    ensures first.modelPath == bundledPath && first.inferenceDtype == Float32
  {
    first := registry.Construct(None, Float32, useGpu, available, bundledPath, load);
    second := registry.Construct(Some("other.onnx"), Float16, useGpu, available, bundledPath, load);
  }
}
