/**
 * Everything the pipeline asks of the machine it runs on, passed in as values:
 * directory listing, path joining, image header and pixel reads, upload decoding
 * and the wall clock.
 */
module Host {
  import opened Wrappers
  import opened Models

  /** The `(height, width)` key the reader groups by (taken from PIL's `img.size`). */
  type Resolution = (int, int)

  type Upload = seq<bv8>

  datatype Environment = Environment(
    /** `os.listdir`: the entries of a directory. */
    listDir: string -> seq<string>,
    /** `str(Path(root) / name)`. */
    joinPath: (string, string) -> string,
    /** `Image.open(path).size` without a full decode; `None` when PIL raises
        `UnidentifiedImageError` or `FileNotFoundError`. */
    imageSize: string -> Option<Resolution>,
    /** `np.array(Image.open(path).convert("RGB"), dtype=np.float32)`. */
    loadImage: string -> Image,
    /** The same decode applied to an uploaded file object. */
    decodeUpload: Upload -> Image,
    /** `str(datetime.datetime.now(datetime.UTC))` at the i-th reading. */
    clock: nat -> string)
}
