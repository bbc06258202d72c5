/**
 * The records exchanged by the pipeline: image embeddings, their neighbours in the
 * vector store, and the duplicate report built from those neighbours.
 */
module Models {

  /** Output width of the feature extractor; every stored and queried vector has it. */
  const EmbeddingDim: nat := 2048

  /** Distances and vector components are floats in the source; here they are reals. */
  type Vector = seq<real>

  /** A decoded RGB image as float pixel intensities (height x width x 3, row-major). */
  type Image = seq<real>

  datatype ImageEmbedding = ImageEmbedding(embedding: Vector, filename: string)

  /** An `ImageEmbedding` extended with its distance (squared L2) to a query vector. */
  datatype ImageEmbeddingNeighbour = ImageEmbeddingNeighbour(embedding: Vector, filename: string, distance: real)

  datatype SuspiciousFile = SuspiciousFile(filename: string, distance: real, duplicateChanceInPercent: int)

  datatype DuplicateReportPart = DuplicateReportPart(numOfFiles: int, filenames: seq<SuspiciousFile>)

  datatype DuplicateReport = DuplicateReport(
    originalFilename: string,
    duplicates: DuplicateReportPart,
    suspicious: DuplicateReportPart)

  /** Python's `int(x)` on a float: truncation toward zero (not rounding, not flooring). */
  function TruncateToInt(x: real): (n: int)
    ensures 0.0 <= x ==> n as real <= x < n as real + 1.0
    ensures x < 0.0 ==> n as real - 1.0 < x <= n as real
  {
    if x >= 0.0 then x.Floor else -((-x).Floor)
  }

  /** The percentage `int((1 - distance) * 100)` attached to a neighbour. */
  function DuplicateChance(distance: real): int
  {
    TruncateToInt((1.0 - distance) * 100.0)
  }

  /** `SuspiciousFile.from_neighbour_embedding`. */
  function FromNeighbourEmbedding(n: ImageEmbeddingNeighbour): (s: SuspiciousFile)
    ensures s.filename == n.filename && s.distance == n.distance
    ensures n.distance <= 1.0 ==>
      s.duplicateChanceInPercent as real <= (1.0 - n.distance) * 100.0 < s.duplicateChanceInPercent as real + 1.0
    ensures n.distance > 1.0 ==>
      s.duplicateChanceInPercent as real - 1.0 < (1.0 - n.distance) * 100.0 <= s.duplicateChanceInPercent as real
  {
    SuspiciousFile(n.filename, n.distance, DuplicateChance(n.distance))
  }

  /** Truncation is monotone, so a larger distance never yields a larger percentage. */
  lemma ChanceAntitone(d1: real, d2: real)
    requires d1 <= d2
    ensures DuplicateChance(d2) <= DuplicateChance(d1)
  {
    var x1, x2 := (1.0 - d1) * 100.0, (1.0 - d2) * 100.0;
    assert x2 <= x1;
    var n1, n2 := TruncateToInt(x1), TruncateToInt(x2);
    if 0.0 <= x2 {
      assert n2 as real <= x2 <= x1 < n1 as real + 1.0;
    } else if 0.0 <= x1 {
      assert n2 as real < x2 + 1.0 < 1.0;
      assert 0.0 <= n1 as real + 1.0;
      assert n1 as real > x1 - 1.0 >= -1.0;
    } else {
      assert n2 as real - 1.0 < x2 <= x1 <= n1 as real;
    }
  }

  /** An exact match (distance 0) is reported as a 100 percent duplicate. */
  lemma ChanceOfExactMatch()
    ensures DuplicateChance(0.0) == 100
  {
  }

  /** For distances in [0, 1] the percentage lies in [0, 100]. */
  lemma ChanceInPercentRange(d: real)
    requires 0.0 <= d <= 1.0
    ensures 0 <= DuplicateChance(d) <= 100
  {
    ChanceAntitone(0.0, d);
    ChanceAntitone(d, 1.0);
  }

  /** No clamping: beyond distance 1 the percentage is at most 0, and negative once (1 - d) * 100 <= -1. */
  lemma ChanceNotClamped(d: real)
    requires d > 1.0
    ensures DuplicateChance(d) <= 0
    ensures (1.0 - d) * 100.0 <= -1.0 ==> DuplicateChance(d) < 0
  {
  }

  /** Truncation, not rounding: 44.6 gives 44 (rounding: 45), -0.5 gives 0 (flooring: -1). */
  lemma ChanceTruncates()
    ensures DuplicateChance(0.554) == 44
    ensures DuplicateChance(1.005) == 0
  {
    assert (1.0 - 0.554) * 100.0 == 44.6;
    assert (1.0 - 1.005) * 100.0 == -0.5;
  }

  /** A neighbour within distance 0.6 has a percentage of at least 40 (exact arithmetic). */
  lemma ChanceWithinCutoff(d: real)
    requires d <= 0.6
    ensures DuplicateChance(d) >= 40
  {
    ChanceAntitone(d, 0.6);
    assert (1.0 - 0.6) * 100.0 == 40.0;
  }

  /** The filenames of a list of embeddings, in order. */
  function Filenames(embs: seq<ImageEmbedding>): (names: seq<string>)
    ensures |names| == |embs|
  {
    seq(|embs|, i requires 0 <= i < |embs| => embs[i].filename)
  }
}
