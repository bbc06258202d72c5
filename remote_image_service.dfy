/**
 * Embedding uploaded images: decode each upload, name it (the caller's names when there
 * is one per image, generated `<timestamp>_image_<i>` names otherwise), and embed the
 * images one at a time, in upload order.
 */
module RemoteImageService {
  import opened Wrappers
  import opened Seqs
  import opened Models
  import opened Host
  import opened EmbeddingModel

  // ---------------------------------------------------------------------------
  // Decimal rendering of the index in a generated name

  predicate IsDigit(c: char)
  {
    '0' <= c <= '9'
  }

  function DigitChar(d: nat): (c: char)
    requires d < 10
    ensures IsDigit(c) && DigitValue(c) == d
  {
    ('0' as int + d) as char
  }

  function DigitValue(c: char): nat
    requires IsDigit(c)
  {
    (c as int) - ('0' as int)
  }

  /** The value of a string of decimal digits. */
  function ParseNat(s: string): nat
    requires forall c :: c in s ==> IsDigit(c)
  {
    if s == [] then 0
    else 10 * ParseNat(s[..|s| - 1]) + DigitValue(s[|s| - 1])
  }

  /** `str(n)`: decimal digits, no leading zero; reading them back gives `n`. */
  function NatToString(n: nat): (s: string)
    ensures |s| >= 1 && forall c :: c in s ==> IsDigit(c)
    ensures ParseNat(s) == n
    ensures |s| == 1 || s[0] != '0'
  {
    if n < 10 then [DigitChar(n)]
    else
      var s := NatToString(n / 10) + [DigitChar(n % 10)];
      assert s[..|s| - 1] == NatToString(n / 10);
      s
  }

  // ---------------------------------------------------------------------------
  // Naming

  const ImageInfix: string := "_image_"

  /** `f"{datetime.now(UTC)}_image_{i}"`; `clock(i)` is the reading taken for the `i`-th name. */
  function GeneratedName(clock: nat -> string, i: nat): string
  {
    clock(i) + ImageInfix + NatToString(i)
  }

  function GeneratedNames(clock: nat -> string, n: nat): seq<string>
  {
    seq(n, i requires 0 <= i < n => GeneratedName(clock, i))
  }

  /** The names `embed_images` uses for `count` images. */
  function NamesFor(filenames: Option<seq<string>>, count: nat, clock: nat -> string): (names: seq<string>)
    ensures |names| == count
    ensures filenames.Some? && |filenames.value| == count ==> names == filenames.value
    ensures filenames.None? || |filenames.value| != count ==>
      forall i :: 0 <= i < count ==> names[i] == clock(i) + "_image_" + NatToString(i)
  {
    if filenames.None? || |filenames.value| != count then GeneratedNames(clock, count) else filenames.value
  }

  /** Two strings that both start with an underscore-free prefix followed by `_` split the same way. */
  lemma SplitAtFirstUnderscore(t1: string, r1: string, t2: string, r2: string)
    requires '_' !in t1 && '_' !in t2
    requires t1 + "_" + r1 == t2 + "_" + r2
    ensures t1 == t2 && r1 == r2
  {
    var s := t1 + "_" + r1;
    assert s == t2 + "_" + r2;
    assert s[|t1|] == '_' && s[|t2|] == '_';
    assert forall m :: 0 <= m < |t1| ==> s[m] == t1[m] != '_';
    assert forall m :: 0 <= m < |t2| ==> s[m] == t2[m] != '_';
    assert |t1| == |t2|;
    assert t1 == s[..|t1|] == t2;
    assert r1 == s[|t1| + 1..] == r2;
  }

  /** A generated name determines its index, as long as the clock reading in front of it
      holds no `_` (an ISO timestamp does not). */
  lemma GeneratedNameInjective(clock: nat -> string, i: nat, j: nat)
    requires '_' !in clock(i) && '_' !in clock(j)
    requires GeneratedName(clock, i) == GeneratedName(clock, j)
    ensures i == j
  {
    var rest := "image_";
    assert ImageInfix == "_" + rest;
    assert GeneratedName(clock, i) == clock(i) + "_" + (rest + NatToString(i));
    assert GeneratedName(clock, j) == clock(j) + "_" + (rest + NatToString(j));
    SplitAtFirstUnderscore(clock(i), rest + NatToString(i), clock(j), rest + NatToString(j));
    assert NatToString(i) == (rest + NatToString(i))[|rest|..];
    assert NatToString(j) == (rest + NatToString(j))[|rest|..];
  }

  /** Hence generated names never collide, and one upload never produces the same id twice. */
  lemma GeneratedNamesDistinct(clock: nat -> string, n: nat)
    requires forall i :: '_' !in clock(i)
    ensures Distinct(GeneratedNames(clock, n))
  {
    var names := GeneratedNames(clock, n);
    forall i, j | 0 <= i < j < n
      ensures names[i] != names[j]
    {
      if names[i] == names[j] {
        GeneratedNameInjective(clock, i, j);
      }
    }
  }

  // ---------------------------------------------------------------------------
  // The service

  /** What `embed_images` returns: image `i` embedded alone, under name `i`. */
  function RemoteEmbeddings(model: ImageEmbeddingModel, uploads: seq<Upload>, filenames: Option<seq<string>>, env: Environment)
    : (es: seq<ImageEmbedding>)
    reads model
    requires model.Valid()
    ensures |es| == |uploads|
    ensures Filenames(es) == NamesFor(filenames, |uploads|, env.clock)
    ensures forall e :: e in es ==> |e.embedding| == EmbeddingDim
  {
    var names := NamesFor(filenames, |uploads|, env.clock);
    seq(|uploads|, i requires 0 <= i < |uploads| && model.Valid() reads model =>
      ImageEmbedding(model.ComputeEmbeddingSingle(env.decodeUpload(uploads[i])), names[i]))
  }

  class RemoteImageService {
    const model: ImageEmbeddingModel

    constructor (model: ImageEmbeddingModel)
      ensures this.model == model
    {
      this.model := model;
    }

    /** `embed_images`: decode, name, then embed each image on its own in upload order. */
    method EmbedImages(uploads: seq<Upload>, filenames: Option<seq<string>>, env: Environment)
      returns (embs: seq<ImageEmbedding>)
      requires model.Valid()
      ensures embs == RemoteEmbeddings(model, uploads, filenames, env)
      ensures |embs| == |uploads|
      ensures forall i :: 0 <= i < |embs| ==>
        embs[i].embedding == model.ComputeEmbeddingSingle(env.decodeUpload(uploads[i]))
      ensures filenames.Some? && |filenames.value| == |uploads| ==> Filenames(embs) == filenames.value
      ensures filenames.None? || |filenames.value| != |uploads| ==> Filenames(embs) == GeneratedNames(env.clock, |uploads|)
    {
      var images := seq(|uploads|, i requires 0 <= i < |uploads| => env.decodeUpload(uploads[i]));
      var names: seq<string>;
      if filenames.None? || |images| != |filenames.value| {
        names := GeneratedNames(env.clock, |images|);
      } else {
        names := filenames.value;
      }
      embs := [];
      for i := 0 to Min(|images|, |names|)
        invariant |embs| == i
        invariant forall j :: 0 <= j < i ==> embs[j] == ImageEmbedding(model.ComputeEmbeddingSingle(images[j]), names[j])
      {
        var v := model.ComputeEmbeddingSingle(images[i]);
        embs := embs + [ImageEmbedding(v, names[i])];
      }
      assert names == NamesFor(filenames, |uploads|, env.clock);
      assert |embs| == |uploads|;
    }
  }
}
