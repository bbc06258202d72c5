/**
 * The local image reader: resolves the requested filenames, groups the readable
 * files by resolution, cuts each group into batches and serves batches by index.
 */
module ImageReader {
  import opened Wrappers
  import opened Seqs
  import opened Models
  import opened Host

  /** Default `max_batch_size` (configuration `LOCAL_IMAGE_BATCH_SIZE`). */
  const LocalImageBatchSize: nat := 4

  // ---------------------------------------------------------------------------
  // Filename resolution

  function IndexOf(s: string, c: char): (i: nat)
    requires c in s
    ensures i < |s| && s[i] == c && c !in s[..i]
  {
    if s[0] == c then 0
    else
      var j := IndexOf(s[1..], c);
      assert s[..j + 1] == [s[0]] + s[1..][..j];
      j + 1
  }

  /** `str.join`: the parts with one separator between neighbours. */
  function Join(parts: seq<string>, sep: char): string
  {
    if |parts| == 0 then ""
    else if |parts| == 1 then parts[0]
    else parts[0] + [sep] + Join(parts[1..], sep)
  }

  /** `str.split(sep)`: always at least one part, no part holds the separator,
      and joining the parts gives back the string. */
  function Split(s: string, sep: char): (parts: seq<string>)
    ensures |parts| >= 1
    ensures forall p :: p in parts ==> sep !in p
    ensures Join(parts, sep) == s
    decreases |s|
  {
    if sep !in s then [s]
    else
      var i := IndexOf(s, sep);
      var rest := Split(s[i + 1..], sep);
      assert s == s[..i] + [sep] + s[i + 1..];
      [s[..i]] + rest
  }

  /** The first separator of `p + [sep] + rest` sits right after a separator-free `p`. */
  lemma {:induction false} IndexAfterPrefix(p: string, sep: char, rest: string)
    requires sep !in p
    ensures sep in p + [sep] + rest
    ensures IndexOf(p + [sep] + rest, sep) == |p|
  {
    var s := p + [sep] + rest;
    assert s[|p|] == sep;
    if p != [] {
      assert s[0] == p[0] && p[0] in p;
      assert s[1..] == p[1..] + [sep] + rest;
      IndexAfterPrefix(p[1..], sep, rest);
    }
  }

  /** The other round trip: splitting a join of separator-free parts gives the parts. */
  lemma {:induction false} SplitJoin(parts: seq<string>, sep: char)
    requires |parts| >= 1
    requires forall p :: p in parts ==> sep !in p
    ensures Split(Join(parts, sep), sep) == parts
  {
    if |parts| > 1 {
      var p0, rest := parts[0], Join(parts[1..], sep);
      var s := p0 + [sep] + rest;
      assert Join(parts, sep) == s;
      assert p0 in parts;
      IndexAfterPrefix(p0, sep, rest);
      assert s[..|p0|] == p0 && s[|p0| + 1..] == rest;
      SplitJoin(parts[1..], sep);
      assert parts == [p0] + parts[1..];
    }
  }

  function LowerChar(c: char): char
  {
    if 'A' <= c <= 'Z' then (c as int + 32) as char else c
  }

  /** `str.lower()` on ASCII letters. */
  function Lower(s: string): (r: string)
    ensures |r| == |s|
  {
    seq(|s|, i requires 0 <= i < |s| => LowerChar(s[i]))
  }

  predicate EndsWith(s: string, suffix: string)
  {
    |suffix| <= |s| && s[|s| - |suffix|..] == suffix
  }

  /** The supported extensions `.jpg`, `.jpeg`, `.png`, `.heif`, compared case-insensitively. */
  predicate HasImageExtension(name: string)
  {
    var l := Lower(name);
    EndsWith(l, ".jpg") || EndsWith(l, ".jpeg") || EndsWith(l, ".png") || EndsWith(l, ".heif")
  }

  /** The directory entries kept when all image files are requested. */
  function ImageFileNames(entries: seq<string>): (r: seq<string>)
    ensures forall x :: x in r <==> x in entries && HasImageExtension(x)
    ensures forall x :: multiset(r)[x] == if HasImageExtension(x) then multiset(entries)[x] else 0
    ensures IsSubseq(r, entries)
  {
    if entries == [] then []
    else
      assert multiset(entries) == multiset([entries[0]]) + multiset(entries[1..]) by {
        assert entries == [entries[0]] + entries[1..];
      }
      if HasImageExtension(entries[0]) then [entries[0]] + ImageFileNames(entries[1..])
      else ImageFileNames(entries[1..])
  }

  /** The names the reader works on, before they are joined to the root. */
  function RequestedNames(filenames: Option<seq<string>>, allImgFiles: bool, entries: seq<string>): (names: seq<string>)
    ensures filenames.Some? && |filenames.value| == 1 ==> names == Split(filenames.value[0], ',')
    ensures filenames.Some? && |filenames.value| > 1 ==> names == filenames.value
    ensures filenames.None? || filenames.value == [] ==>
      names == if allImgFiles then ImageFileNames(entries) else []
  {
    var given := if filenames.Some? then filenames.value else [];
    var names := if |given| == 1 then Split(given[0], ',') else given;
    if names == [] && allImgFiles then ImageFileNames(entries) else names
  }

  function JoinedPaths(root: string, names: seq<string>, join: (string, string) -> string): (paths: seq<string>)
    ensures |paths| == |names|
  {
    seq(|names|, i requires 0 <= i < |names| => join(root, names[i]))
  }

  // ---------------------------------------------------------------------------
  // Grouping by resolution (defined on the last file, as the scan appends)

  /** The files whose resolution can be read, in input order. */
  function Readable(files: seq<string>, size: string -> Option<Resolution>): (r: seq<string>)
    ensures forall f :: f in r <==> f in files && size(f).Some?
  {
    if files == [] then []
    else
      var init, f := files[..|files| - 1], files[|files| - 1];
      assert files == init + [f];
      Readable(init, size) + (if size(f).Some? then [f] else [])
  }

  /** The scan keeps every readable file as often as it is given. */
  lemma {:induction false} ReadableFilters(files: seq<string>, size: string -> Option<Resolution>)
    ensures forall f :: multiset(Readable(files, size))[f] == if size(f).Some? then multiset(files)[f] else 0
  {
    if files != [] {
      var init, f := files[..|files| - 1], files[|files| - 1];
      assert files == init + [f];
      ReadableFilters(init, size);
      var tail := if size(f).Some? then [f] else [];
      assert Readable(files, size) == Readable(init, size) + tail;
      assert multiset(Readable(files, size)) == multiset(Readable(init, size)) + multiset(tail);
      assert multiset(files) == multiset(init) + multiset([f]);
    }
  }

  /** The scan keeps the readable files in input order. */
  lemma {:induction false} ReadableKeepsOrder(files: seq<string>, size: string -> Option<Resolution>)
    ensures IsSubseq(Readable(files, size), files)
  {
    if files != [] {
      var init, f := files[..|files| - 1], files[|files| - 1];
      assert files == init + [f];
      ReadableKeepsOrder(init, size);
      SubseqExtend(Readable(init, size), init, f);
      if size(f).Some? {
        assert Readable(files, size) == Readable(init, size) + [f];
      } else {
        assert Readable(files, size) == Readable(init, size);
      }
    }
  }

  /** The resolutions of the readable files, in input order, with repetitions. */
  function SizesOf(files: seq<string>, size: string -> Option<Resolution>): (r: seq<Resolution>)
    ensures forall f :: f in files && size(f).Some? ==> size(f).value in r
  {
    if files == [] then []
    else
      var init, f := files[..|files| - 1], files[|files| - 1];
      assert files == init + [f];
      SizesOf(init, size) + (if size(f).Some? then [size(f).value] else [])
  }

  /** Each value once, in order of first appearance (the key order of a Python dict). */
  function FirstAppearances(s: seq<Resolution>): (r: seq<Resolution>)
    ensures forall x :: x in r <==> x in s
    ensures Distinct(r)
  {
    if s == [] then []
    else
      var init, x := s[..|s| - 1], s[|s| - 1];
      assert s == init + [x];
      var d := FirstAppearances(init);
      if x in d then d else d + [x]
  }

  /** The files of one resolution, in input order. */
  function Group(files: seq<string>, size: string -> Option<Resolution>, key: Resolution): (g: seq<string>)
    ensures forall f :: f in g <==> f in files && size(f) == Some(key)
    ensures g == [] <==> key !in SizesOf(files, size)
  {
    if files == [] then []
    else
      var init, f := files[..|files| - 1], files[|files| - 1];
      assert files == init + [f];
      Group(init, size, key) + (if size(f) == Some(key) then [f] else [])
  }

  /** The group order of the scan: resolutions in order of first appearance. */
  function ResolutionKeys(files: seq<string>, size: string -> Option<Resolution>): seq<Resolution>
  {
    FirstAppearances(SizesOf(files, size))
  }

  function GroupsFor(keys: seq<Resolution>, files: seq<string>, size: string -> Option<Resolution>): (gs: seq<seq<string>>)
    ensures |gs| == |keys|
  {
    seq(|keys|, i requires 0 <= i < |keys| => Group(files, size, keys[i]))
  }

  /** The values of the scan's dictionary, in key order. */
  function GroupsInOrder(files: seq<string>, size: string -> Option<Resolution>): seq<seq<string>>
  {
    GroupsFor(ResolutionKeys(files, size), files, size)
  }

  lemma {:induction false} FlattenAppendAt(ss: seq<seq<string>>, j: nat, x: string)
    requires j < |ss|
    ensures multiset(Flatten(ss[j := ss[j] + [x]])) == multiset(Flatten(ss)) + multiset{x}
  {
    var ss' := ss[j := ss[j] + [x]];
    if j == 0 {
      assert ss'[1..] == ss[1..];
    } else {
      assert ss'[1..] == ss[1..][j - 1 := ss[1..][j - 1] + [x]];
      FlattenAppendAt(ss[1..], j - 1, x);
    }
  }

  /** Adding a file whose resolution is not among `keys` leaves their groups alone. */
  lemma GroupsForOtherKeys(keys: seq<Resolution>, init: seq<string>, f: string, size: string -> Option<Resolution>)
    requires size(f).None? || size(f).value !in keys
    ensures GroupsFor(keys, init + [f], size) == GroupsFor(keys, init, size)
  {
    var files := init + [f];
    assert files[..|files| - 1] == init;
    forall i | 0 <= i < |keys|
      ensures GroupsFor(keys, files, size)[i] == GroupsFor(keys, init, size)[i]
    {
      assert Group(files, size, keys[i]) == Group(init, size, keys[i]);
    }
  }

  /** Adding a file of an already seen resolution appends it to that group only. */
  lemma GroupsForKnownKey(keys: seq<Resolution>, init: seq<string>, f: string, size: string -> Option<Resolution>, j: nat)
    requires Distinct(keys) && j < |keys| && size(f) == Some(keys[j])
    ensures GroupsFor(keys, init + [f], size) == GroupsFor(keys, init, size)[j := GroupsFor(keys, init, size)[j] + [f]]
  {
    var files := init + [f];
    assert files[..|files| - 1] == init;
    forall i | 0 <= i < |keys|
      ensures GroupsFor(keys, files, size)[i] == GroupsFor(keys, init, size)[j := GroupsFor(keys, init, size)[j] + [f]][i]
    {
      assert Group(files, size, keys[i]) == Group(init, size, keys[i]) + (if i == j then [f] else []);
    }
  }

  lemma PartitionStepNewKey(init: seq<string>, f: string, size: string -> Option<Resolution>, key: Resolution)
    requires size(f) == Some(key) && key !in ResolutionKeys(init, size)
    ensures GroupsInOrder(init + [f], size) == GroupsInOrder(init, size) + [[f]]
  {
    var files := init + [f];
    var sizes0 := SizesOf(init, size);
    var keys0 := FirstAppearances(sizes0);
    assert files[..|files| - 1] == init;
    assert SizesOf(files, size) == sizes0 + [key];
    assert (sizes0 + [key])[..|sizes0|] == sizes0;
    assert ResolutionKeys(files, size) == keys0 + [key];
    GroupsForOtherKeys(keys0, init, f, size);
    assert Group(files, size, key) == [f];
    var gs1 := GroupsFor(keys0 + [key], files, size);
    assert gs1[..|keys0|] == GroupsFor(keys0, files, size);
    assert gs1 == gs1[..|keys0|] + [gs1[|keys0|]];
  }

  lemma PartitionStepKnownKey(init: seq<string>, f: string, size: string -> Option<Resolution>, j: nat)
    requires j < |ResolutionKeys(init, size)| && size(f) == Some(ResolutionKeys(init, size)[j])
    ensures GroupsInOrder(init + [f], size) == GroupsInOrder(init, size)[j := GroupsInOrder(init, size)[j] + [f]]
  {
    var files := init + [f];
    var sizes0 := SizesOf(init, size);
    var keys0 := FirstAppearances(sizes0);
    var key := keys0[j];
    assert files[..|files| - 1] == init;
    assert SizesOf(files, size) == sizes0 + [key];
    assert (sizes0 + [key])[..|sizes0|] == sizes0;
    assert ResolutionKeys(files, size) == keys0;
    GroupsForKnownKey(keys0, init, f, size, j);
  }

  lemma PartitionStepUnreadable(init: seq<string>, f: string, size: string -> Option<Resolution>)
    requires size(f).None?
    ensures GroupsInOrder(init + [f], size) == GroupsInOrder(init, size)
    ensures Readable(init + [f], size) == Readable(init, size)
  {
    var files := init + [f];
    assert files[..|files| - 1] == init;
    assert SizesOf(files, size) == SizesOf(init, size);
    GroupsForOtherKeys(ResolutionKeys(init, size), init, f, size);
  }

  /** Every readable file lands in exactly one group: the groups, taken together,
      are a permutation of the readable files. */
  lemma {:induction false} GroupsPartitionReadable(files: seq<string>, size: string -> Option<Resolution>)
    ensures multiset(Flatten(GroupsInOrder(files, size))) == multiset(Readable(files, size))
  {
    if files != [] {
      var init, f := files[..|files| - 1], files[|files| - 1];
      assert files == init + [f];
      GroupsPartitionReadable(init, size);
      var gs0 := GroupsInOrder(init, size);
      assert Readable(files, size) == Readable(init, size) + (if size(f).Some? then [f] else []);
      match size(f)
      case None =>
        PartitionStepUnreadable(init, f, size);
      case Some(key) =>
        if key !in ResolutionKeys(init, size) {
          PartitionStepNewKey(init, f, size, key);
          FlattenAppend(gs0, [[f]]);
          assert Flatten([[f]]) == [f];
          assert Flatten(GroupsInOrder(files, size)) == Flatten(gs0) + [f];
        } else {
          var j :| 0 <= j < |ResolutionKeys(init, size)| && ResolutionKeys(init, size)[j] == key;
          PartitionStepKnownKey(init, f, size, j);
          FlattenAppendAt(gs0, j, f);
        }
    }
  }

  /** Within a group, files keep their input order, and all share the group's resolution. */
  lemma {:induction false} GroupKeepsOrder(files: seq<string>, size: string -> Option<Resolution>, key: Resolution)
    ensures IsSubseq(Group(files, size, key), files)
  {
    if files != [] {
      var init, f := files[..|files| - 1], files[|files| - 1];
      assert files == init + [f];
      GroupKeepsOrder(init, size, key);
      SubseqExtend(Group(init, size, key), init, f);
      if size(f) == Some(key) {
        assert Group(files, size, key) == Group(init, size, key) + [f];
      } else {
        assert Group(files, size, key) == Group(init, size, key);
      }
    }
  }

  /** A subsequence stays one when the bigger list grows, and when both grow by the same element. */
  lemma {:induction false} SubseqExtend(a: seq<string>, b: seq<string>, y: string)
    requires IsSubseq(a, b)
    ensures IsSubseq(a, b + [y])
    ensures IsSubseq(a + [y], b + [y])
    decreases |b|
  {
    if a == [] {
      SubseqSingleton(b, y);
      assert a + [y] == [y];
    } else {
      assert b != [];
      assert (b + [y])[1..] == b[1..] + [y];
      assert (a + [y])[1..] == a[1..] + [y];
      if a[0] == b[0] {
        SubseqExtend(a[1..], b[1..], y);
      } else {
        SubseqExtend(a, b[1..], y);
      }
    }
  }

  lemma {:induction false} SubseqSingleton(b: seq<string>, y: string)
    ensures IsSubseq([y], b + [y])
    decreases |b|
  {
    if b != [] && b[0] != y {
      assert (b + [y])[1..] == b[1..] + [y];
      SubseqSingleton(b[1..], y);
    }
  }

  // ---------------------------------------------------------------------------
  // Batching

  /** `[s[i:i + n] for i in range(0, len(s), n)]`: consecutive slices of at most `n`. */
  function Chunk(s: seq<string>, n: nat): (cs: seq<seq<string>>)
    requires n > 0
    ensures Flatten(cs) == s
    ensures forall c :: c in cs ==> 0 < |c| <= n
    ensures forall i :: 0 <= i < |cs| - 1 ==> |cs[i]| == n
    ensures 0 < |s| <= n ==> cs == [s]
    decreases |s|
  {
    if s == [] then []
    else if |s| <= n then [s]
    else
      var rest := Chunk(s[n..], n);
      assert s == s[..n] + s[n..];
      [s[..n]] + rest
  }

  /** The batches of several groups: each group cut on its own, results concatenated in group order. */
  function BatchesOf(gs: seq<seq<string>>, n: nat): (bs: seq<seq<string>>)
    requires n > 0
    ensures Flatten(bs) == Flatten(gs)
    ensures forall b :: b in bs ==> 0 < |b| <= n
  {
    if gs == [] then []
    else
      var init, g := gs[..|gs| - 1], gs[|gs| - 1];
      var bs0 := BatchesOf(init, n);
      var cs := Chunk(g, n);
      FlattenAppend(bs0, cs);
      FlattenAppend(init, [g]);
      assert gs == init + [g];
      assert Flatten([g]) == g;
      bs0 + cs
  }

  lemma BatchesOfSnoc(gs: seq<seq<string>>, g: seq<string>, n: nat)
    requires n > 0
    ensures BatchesOf(gs + [g], n) == BatchesOf(gs, n) + Chunk(g, n)
  {
    assert (gs + [g])[..|gs|] == gs;
  }

  /** Cutting one more group of a list of groups appends its chunks. */
  lemma BatchesOfPrefix(gs: seq<seq<string>>, i: nat, n: nat)
    requires n > 0 && i < |gs|
    ensures BatchesOf(gs[..i + 1], n) == BatchesOf(gs[..i], n) + Chunk(gs[i], n)
  {
    assert gs[..i + 1] == gs[..i] + [gs[i]];
    BatchesOfSnoc(gs[..i], gs[i], n);
  }

  /** Each batch is drawn from a single group. */
  lemma {:induction false} BatchWithinGroup(gs: seq<seq<string>>, n: nat, b: seq<string>)
    requires n > 0 && b in BatchesOf(gs, n)
    ensures exists i :: 0 <= i < |gs| && forall x :: x in b ==> x in gs[i]
  {
    var init, g := gs[..|gs| - 1], gs[|gs| - 1];
    if b in BatchesOf(init, n) {
      BatchWithinGroup(init, n, b);
      var i :| 0 <= i < |init| && forall x :: x in b ==> x in init[i];
      assert gs[i] == init[i];
    } else {
      var cs := Chunk(g, n);
      var k :| 0 <= k < |cs| && cs[k] == b;
      forall x | x in b
        ensures x in gs[|gs| - 1]
      {
        InFlatten(cs, k, x);
      }
    }
  }

  /** How one more scanned file changes the key order and the groups. */
  lemma ScanStep(init: seq<string>, f: string, size: string -> Option<Resolution>)
    ensures size(f).None? ==> ResolutionKeys(init + [f], size) == ResolutionKeys(init, size)
    ensures size(f).Some? && size(f).value in ResolutionKeys(init, size) ==>
      ResolutionKeys(init + [f], size) == ResolutionKeys(init, size)
    ensures size(f).Some? && size(f).value !in ResolutionKeys(init, size) ==>
      ResolutionKeys(init + [f], size) == ResolutionKeys(init, size) + [size(f).value]
    ensures forall k :: Group(init + [f], size, k) == Group(init, size, k) + (if size(f) == Some(k) then [f] else [])
  {
    var files := init + [f];
    assert files[..|files| - 1] == init;
    var sizes0 := SizesOf(init, size);
    if size(f).Some? {
      assert SizesOf(files, size) == sizes0 + [size(f).value];
      assert (sizes0 + [size(f).value])[..|sizes0|] == sizes0;
    } else {
      assert SizesOf(files, size) == sizes0;
    }
  }

  /** When no group exceeds the batch size, there is exactly one batch per group, the group itself. */
  lemma {:induction false} OneBatchPerGroup(gs: seq<seq<string>>, n: nat)
    requires n > 0
    requires forall g :: g in gs ==> 0 < |g| <= n
    ensures BatchesOf(gs, n) == gs
  {
    if gs != [] {
      var init, last := gs[..|gs| - 1], gs[|gs| - 1];
      assert forall g :: g in init ==> g in gs;
      OneBatchPerGroup(init, n);
      assert last in gs;
      assert Chunk(last, n) == [last];
      BatchesOfSnoc(init, last, n);
      assert gs == init + [last];
    }
  }

  lemma {:induction false} FlattenOfNonEmpty(ss: seq<seq<string>>)
    requires forall s :: s in ss ==> s != []
    ensures |ss| <= |Flatten(ss)|
    ensures ss == [] <==> Flatten(ss) == []
  {
    if ss != [] {
      assert ss[0] in ss;
      forall s | s in ss[1..]
        ensures s != []
      {
        assert s in ss;
      }
      FlattenOfNonEmpty(ss[1..]);
    }
  }

  /** The batches the reader serves for the given (already joined) paths. */
  function ReaderBatches(files: seq<string>, size: string -> Option<Resolution>, n: nat): seq<seq<string>>
    requires n > 0
  {
    BatchesOf(GroupsInOrder(files, size), n)
  }

  /** What the reader promises about its batches: non-empty, at most `n` files, one resolution
      each; together a permutation of the readable files, so no file is lost or repeated. */
  lemma ReaderBatchesSound(files: seq<string>, size: string -> Option<Resolution>, n: nat)
    requires n > 0
    ensures forall b :: b in ReaderBatches(files, size, n) ==> 0 < |b| <= n
    ensures forall b :: b in ReaderBatches(files, size, n) ==>
      exists key :: forall x :: x in b ==> size(x) == Some(key)
    ensures multiset(Flatten(ReaderBatches(files, size, n))) == multiset(Readable(files, size))
    ensures |ReaderBatches(files, size, n)| <= |Readable(files, size)|
    ensures ReaderBatches(files, size, n) == [] <==> Readable(files, size) == []
  {
    var keys := ResolutionKeys(files, size);
    var gs := GroupsInOrder(files, size);
    var bs := ReaderBatches(files, size, n);
    GroupsPartitionReadable(files, size);
    forall b | b in bs
      ensures exists key :: forall x :: x in b ==> size(x) == Some(key)
    {
      BatchWithinGroup(gs, n, b);
      var i :| 0 <= i < |gs| && forall x :: x in b ==> x in gs[i];
      assert gs[i] == Group(files, size, keys[i]);
    }
    FlattenOfNonEmpty(bs);
    assert |multiset(Flatten(bs))| == |multiset(Readable(files, size))|;
  }

  /** With every resolution group no larger than `n`, batch `i` is exactly the `i`-th
      resolution's files in input order. */
  lemma OneBatchPerResolution(files: seq<string>, size: string -> Option<Resolution>, n: nat)
    requires n > 0
    requires forall key :: key in ResolutionKeys(files, size) ==> |Group(files, size, key)| <= n
    ensures ReaderBatches(files, size, n) == GroupsInOrder(files, size)
    ensures |ReaderBatches(files, size, n)| == |ResolutionKeys(files, size)|
  {
    var keys := ResolutionKeys(files, size);
    var gs := GroupsInOrder(files, size);
    forall g | g in gs
      ensures 0 < |g| <= n
    {
      var i :| 0 <= i < |gs| && gs[i] == g;
      assert g == Group(files, size, keys[i]);
    }
    OneBatchPerGroup(gs, n);
  }

  /** Files that all share one resolution form a single group, cut into consecutive batches. */
  lemma UniformResolution(files: seq<string>, size: string -> Option<Resolution>, key: Resolution, n: nat)
    requires n > 0 && files != []
    requires forall f :: f in files ==> size(f) == Some(key)
    ensures ResolutionKeys(files, size) == [key]
    ensures ReaderBatches(files, size, n) == Chunk(files, n)
  {
    KeysOfUniform(files, size, key);
    GroupOfUniform(files, size, key);
    assert GroupsInOrder(files, size) == [files];
    BatchesOfSnoc([], files, n);
    assert [] + [files] == [files];
  }

  lemma {:induction false} KeysOfUniform(files: seq<string>, size: string -> Option<Resolution>, key: Resolution)
    requires files != []
    requires forall f :: f in files ==> size(f) == Some(key)
    ensures ResolutionKeys(files, size) == [key]
  {
    var init, f := files[..|files| - 1], files[|files| - 1];
    assert files == init + [f];
    ScanStep(init, f, size);
    if init != [] {
      KeysOfUniform(init, size, key);
    }
  }

  lemma {:induction false} GroupOfUniform(files: seq<string>, size: string -> Option<Resolution>, key: Resolution)
    requires forall f :: f in files ==> size(f) == Some(key)
    ensures Group(files, size, key) == files
  {
    if files != [] {
      var init := files[..|files| - 1];
      assert files == init + [files[|files| - 1]];
      GroupOfUniform(init, size, key);
    }
  }

  /** A requested file that cannot be opened yields no batch and no error. */
  lemma ScenarioMissingFile(path: string, size: string -> Option<Resolution>, n: nat)
    requires n > 0 && size(path).None?
    ensures ReaderBatches([path], size, n) == []
  {
    assert Readable([path], size) == [];
    ReaderBatchesSound([path], size, n);
  }

  /** Five images of one resolution with batch size 4: two batches, of 4 and 1 files. */
  lemma ScenarioFiveOfOneResolution(files: seq<string>, size: string -> Option<Resolution>)
    requires |files| == 5
    requires forall f :: f in files ==> size(f) == Some((224, 224))
    ensures ReaderBatches(files, size, 4) == [files[..4], files[4..]]
  {
    UniformResolution(files, size, (224, 224), 4);
    assert Chunk(files[4..], 4) == [files[4..]];
  }

  // ---------------------------------------------------------------------------
  // The reader object

  /** An insertion-ordered dictionary from resolution to filenames: the key order and the map. */
  datatype ResolutionDict = ResolutionDict(order: seq<Resolution>, groups: map<Resolution, seq<string>>)
  {
    predicate Wf()
    {
      Distinct(order) && groups.Keys == set k | k in order
    }

    /** `dict.values()`, in insertion order. */
    function Values(): seq<seq<string>>
      requires Wf()
    {
      seq(|order|, i requires 0 <= i < |order| => groups[order[i]])
    }
  }

  datatype IndexError =
    | IndexOutOfRange(index: int)   // raised by the explicit guard
    | ListIndexOutOfRange           // raised by the list access behind it

  /** One served batch: the stacked images and their filenames, row for row. */
  datatype Batch = Batch(images: seq<Image>, filenames: seq<string>)

  class LocalImgReader {
    const imageRoot: string
    const maxBatchSize: nat
    const env: Environment
    var filenames: seq<string>
    var batches: seq<seq<string>>

    ghost predicate Valid()
      reads this
    {
      maxBatchSize > 0 && batches == ReaderBatches(filenames, env.imageSize, maxBatchSize)
    }

    constructor (filenames: Option<seq<string>>, imageRoot: string, maxBatchSize: nat, allImgFiles: bool, env: Environment)
      requires maxBatchSize > 0
      ensures Valid()
      ensures this.imageRoot == imageRoot && this.maxBatchSize == maxBatchSize && this.env == env
      ensures this.filenames == JoinedPaths(imageRoot, RequestedNames(filenames, allImgFiles, env.listDir(imageRoot)), env.joinPath)
    {
      var names := if filenames.Some? then filenames.value else [];
      if |names| == 1 {
        names := Split(names[0], ',');
      }
      this.imageRoot := imageRoot;
      this.maxBatchSize := maxBatchSize;
      this.env := env;
      if names == [] && allImgFiles {
        names := ImageFileNames(env.listDir(imageRoot));
      }
      this.filenames := JoinedPaths(imageRoot, names, env.joinPath);
      new;
      batches := CreateBatches(this.filenames);
    }

    /** `__len__`: the number of batches; zero exactly when no file was readable, never more than the readable files. */
    function Length(): (n: nat)
      reads this
      requires Valid()
      ensures n == |batches|
      ensures n == 0 <==> Readable(filenames, env.imageSize) == []
      ensures n <= |Readable(filenames, env.imageSize)|
    {
      ReaderBatchesSound(filenames, env.imageSize, maxBatchSize);
      |batches|
    }

    method CreateBatches(files: seq<string>) returns (bs: seq<seq<string>>)
      requires maxBatchSize > 0
      ensures bs == ReaderBatches(files, env.imageSize, maxBatchSize)
    {
      var dict := SortImgByRes(files);
      bs := ConvertDictToBatches(dict, 0);
    }

    /** `_sort_img_by_res`: one scan over the files, skipping those whose size cannot be read. */
    method SortImgByRes(files: seq<string>) returns (dict: ResolutionDict)
      ensures dict.Wf()
      ensures dict.order == ResolutionKeys(files, env.imageSize)
      ensures forall k :: k in dict.groups ==> dict.groups[k] == Group(files, env.imageSize, k)
      ensures dict.Values() == GroupsInOrder(files, env.imageSize)
    {
      var size := env.imageSize;
      var order: seq<Resolution> := [];
      var groups: map<Resolution, seq<string>> := map[];
      for i := 0 to |files|
        invariant order == ResolutionKeys(files[..i], size)
        invariant forall k :: k in groups <==> k in order
        invariant forall k :: k in groups ==> groups[k] == Group(files[..i], size, k)
      {
        var f := files[i];
        assert files[..i + 1] == files[..i] + [f];
        ScanStep(files[..i], f, size);
        match size(f)
        case None =>
        case Some(key) =>
          if key !in groups {
            order := order + [key];
            groups := groups[key := []];
          }
          groups := groups[key := groups[key] + [f]];
      }
      assert files[..|files|] == files;
      dict := ResolutionDict(order, groups);
      assert dict.Values() == GroupsInOrder(files, size);
    }

    /** `_convert_dict_to_batches`: `batchSize` 0 means "use `maxBatchSize`". */
    method ConvertDictToBatches(dict: ResolutionDict, batchSize: nat) returns (bs: seq<seq<string>>)
      requires dict.Wf() && maxBatchSize > 0
      ensures bs == BatchesOf(dict.Values(), if batchSize == 0 then maxBatchSize else batchSize)
    {
      var n := if batchSize == 0 then maxBatchSize else batchSize;
      var values := dict.Values();
      bs := [];
      for i := 0 to |values|
        invariant bs == BatchesOf(values[..i], n)
      {
        BatchesOfPrefix(values, i, n);
        bs := bs + Chunk(values[i], n);
      }
      assert values[..|values|] == values;
    }

    /** `__getitem__`: batch `index` with one decoded image per filename; any index outside
        `[0, Length())` is an IndexError, from the guard or, for `index == Length()`, from the list access. */
    method GetItem(index: int) returns (r: Result<Batch, IndexError>)
      requires Valid()
      ensures r.Success? <==> 0 <= index < Length()
      ensures (index < 0 || index > Length()) ==> r == Failure(IndexOutOfRange(index))
      ensures index == Length() ==> r == Failure(ListIndexOutOfRange)
      ensures r.Success? ==>
        && r.value.filenames == batches[index]
        && |r.value.images| == |r.value.filenames|
        && forall j :: 0 <= j < |r.value.images| ==> r.value.images[j] == env.loadImage(r.value.filenames[j])
    {
      if !GuardAdmits(index, Length()) {
        return Failure(IndexOutOfRange(index));
      }
      if index >= |batches| {
        return Failure(ListIndexOutOfRange);
      }
      var names := batches[index];
      var images := seq(|names|, j requires 0 <= j < |names| => env.loadImage(names[j]));
      r := Success(Batch(images, names));
    }
  }

  /** The guard of `__getitem__` as written: `0 <= index <= len`. */
  predicate GuardAdmits(index: int, len: int)
  {
    0 <= index <= len
  }

  /** The guard lets `index == len` through; only the list access behind it rejects that index. */
  lemma GuardAdmitsOnePastEnd(len: nat)
    ensures GuardAdmits(len, len)
    ensures !GuardAdmits(-1, len) && !GuardAdmits(len + 1, len)
  {
  }
}
