/**
 * The abstract filesystem that both traversals query, Go's fixed-width integers,
 * and the reference size of a subtree that the traversals are proved against.
 *
 * A path's metadata is a `FileInfo`: its size as `os.Stat` reports it and its kind.
 * A directory's kind carries what `ioutil.ReadDir` returns for it: the entries in
 * listing order, or the error of an unreadable directory.  Each entry carries what
 * `os.Stat` returns for `Join(dir, name)`.  The filesystem is therefore a finite,
 * acyclic tree; it does not change while it is examined.
 */
module Fs {

  datatype Option<T> = None | Some(value: T)

  const TWO_64: int := 0x1_0000_0000_0000_0000

  /** Go's `uint64`. */
  newtype uint64 = x: int | 0 <= x < 0x1_0000_0000_0000_0000

  /** Go's `int64`, the type of `FileInfo.Size()`. */
  newtype int64 = x: int | -0x8000_0000_0000_0000 <= x < 0x8000_0000_0000_0000

  /** `a + b` on `uint64`: wraps around modulo 2^64. */
  function Add64(a: uint64, b: uint64): (r: uint64)
    ensures a as int + b as int < TWO_64 ==> r as int == a as int + b as int
    ensures a as int + b as int >= TWO_64 ==> r as int == a as int + b as int - TWO_64
  {
    ((a as int + b as int) % TWO_64) as uint64
  }

  lemma Add64Zero(a: uint64)
    ensures Add64(a, 0) == a
  {
  }

  /** The conversion `uint64(x)` of an `int64`: the same bits, read as unsigned. */
  function ToUint64(x: int64): (r: uint64)
    ensures 0 <= x ==> r as int == x as int
    ensures x < 0 ==> r as int == x as int + TWO_64
  {
    (x as int % TWO_64) as uint64
  }

  /**
   * A path.  `filepath.Join` is modelled by the `Child` constructor, so that joining
   * is injective: distinct (directory, name) pairs never name the same path.
   */
  datatype Path = Root(arg: string) | Child(parent: Path, name: string)

  function Join(dir: Path, name: string): Path
  {
    Child(dir, name)
  }

  datatype Error = NotFound | PermissionDenied | ReadFailed

  datatype FileInfo = FileInfo(size: int64, kind: Kind)

  datatype Kind = Directory(listing: Listing) | Regular | Special

  datatype Listing = Listed(entries: seq<Entry>) | Unreadable(err: Error)

  /** One name returned by a directory listing, paired with what `os.Stat` says of it. */
  datatype Entry = Entry(name: string, stat: StatResult)

  datatype StatResult = Found(info: FileInfo) | StatFailed(err: Error)

  /** The shape of a directory's metadata whose listing succeeded. */
  predicate IsListedDir(info: FileInfo)
  {
    info.kind.Directory? && info.kind.listing.Listed?
  }

  /** A stat result that the classifiers turn into a node: a directory or a regular file. */
  predicate Classifiable(s: StatResult)
  {
    s.Found? && (s.info.kind.Directory? || s.info.kind.Regular?)
  }

  /** The entries of a listing that become children, in listing order. */
  function Kept(es: seq<Entry>): (ks: seq<Entry>)
    ensures |ks| <= |es|
  {
    if es == [] then []
    else
      var last := es[|es| - 1];
      assert es == es[..|es| - 1] + [last];
      Kept(es[..|es| - 1]) + (if Classifiable(last.stat) then [last] else [])
  }

  /** `Kept` keeps exactly the classified entries: each kept entry is one, and each one is kept. */
  lemma {:induction false} KeptExactly(es: seq<Entry>, e: Entry)
    ensures e in Kept(es) <==> e in es && Classifiable(e.stat)
    decreases |es|
  {
    if es != [] {
      var init, last := es[..|es| - 1], es[|es| - 1];
      assert es == init + [last];
      KeptExactly(init, e);
    }
  }

  /** The depth of the metadata tree; a child's height is below its parent's. */
  function Height(info: FileInfo): nat
  {
    match info.kind
    case Directory(Listed(es)) => 1 + MaxHeight(es)
    case _ => 0
  }

  function MaxHeight(es: seq<Entry>): nat
  {
    if es == [] then 0
    else
      var last := es[|es| - 1];
      var h := if last.stat.Found? then Height(last.stat.info) else 0;
      var m := MaxHeight(es[..|es| - 1]);
      if h < m then m else h
  }

  lemma {:induction false} MaxHeightBounds(es: seq<Entry>, k: nat)
    requires k < |es| && es[k].stat.Found?
    ensures Height(es[k].stat.info) <= MaxHeight(es)
    decreases |es|
  {
    if k < |es| - 1 {
      MaxHeightBounds(es[..|es| - 1], k);
    }
  }

  /** An entry of a listed directory is strictly lower than the directory. */
  lemma EntryLower(info: FileInfo, k: nat)
    requires IsListedDir(info)
    requires k < |info.kind.listing.entries| && info.kind.listing.entries[k].stat.Found?
    ensures Height(info.kind.listing.entries[k].stat.info) < Height(info)
  {
    MaxHeightBounds(info.kind.listing.entries, k);
  }

  /**
   * The reference size of a subtree: a regular file counts its stat size (converted to
   * `uint64`), a readable directory the wrapping sum of its entries, and everything else
   * (a special file, an unreadable directory) nothing.
   */
  function DuSize(info: FileInfo): uint64
  {
    match info.kind
    case Regular => ToUint64(info.size)
    case Directory(Listed(es)) => EntriesDu(es)
    case _ => 0
  }

  /** The size an entry contributes: nothing when its stat failed. */
  function EntryDu(e: Entry): uint64
  {
    if e.stat.Found? then DuSize(e.stat.info) else 0
  }

  /** The left-to-right wrapping sum of the entries' sizes. */
  function EntriesDu(es: seq<Entry>): uint64
  {
    if es == [] then 0 else Add64(EntriesDu(es[..|es| - 1]), EntryDu(es[|es| - 1]))
  }

  /** Leaving out the entries that are not classified changes no sum. */
  lemma {:induction false} EntriesDuKept(es: seq<Entry>)
    ensures EntriesDu(Kept(es)) == EntriesDu(es)
    decreases |es|
  {
    if es != [] {
      var init, last := es[..|es| - 1], es[|es| - 1];
      EntriesDuKept(init);
      var ks := Kept(init);
      if Classifiable(last.stat) {
        assert Kept(es) == ks + [last];
        assert (ks + [last])[..|ks|] == ks;
        assert EntriesDu(ks + [last]) == Add64(EntriesDu(ks), EntryDu(last));
      } else {
        assert Kept(es) == ks + [];
        assert ks + [] == ks;
        assert !last.stat.Found? || DuSize(last.stat.info) == 0;
        assert EntryDu(last) == 0;
        assert EntriesDu(es) == Add64(EntriesDu(init), 0);
      }
    }
  }

  /** The number of nodes a traversal creates for a subtree (this node included). */
  function Count(info: FileInfo): (n: nat)
    ensures 1 <= n
  {
    match info.kind
    case Directory(Listed(es)) => 1 + EntriesCount(es)
    case _ => 1
  }

  function EntriesCount(es: seq<Entry>): nat
  {
    if es == [] then 0
    else
      var last := es[|es| - 1];
      EntriesCount(es[..|es| - 1]) + (if Classifiable(last.stat) then Count(last.stat.info) else 0)
  }

  // ---------------------------------------------------------------------------
  // The reference size as a sum of regular-file sizes.

  /** The wrapping sum of a sequence of sizes, from left to right. */
  function Sum64(xs: seq<uint64>): uint64
  {
    if xs == [] then 0 else Add64(Sum64(xs[..|xs| - 1]), xs[|xs| - 1])
  }

  /** The sizes of the regular files of a subtree, in listing order, depth first. */
  function RegularSizes(info: FileInfo): seq<uint64>
  {
    match info.kind
    case Regular => [ToUint64(info.size)]
    case Directory(Listed(es)) => EntriesRegularSizes(es)
    case _ => []
  }

  function EntriesRegularSizes(es: seq<Entry>): seq<uint64>
  {
    if es == [] then []
    else
      var last := es[|es| - 1];
      EntriesRegularSizes(es[..|es| - 1]) + (if last.stat.Found? then RegularSizes(last.stat.info) else [])
  }

  lemma Add64Assoc(a: uint64, b: uint64, c: uint64)
    ensures Add64(Add64(a, b), c) == Add64(a, Add64(b, c))
  {
    var s := a as int + b as int + c as int;
    if a as int + b as int >= TWO_64 {
      assert Add64(a, b) as int == a as int + b as int - TWO_64;
    }
    if b as int + c as int >= TWO_64 {
      assert Add64(b, c) as int == b as int + c as int - TWO_64;
    }
  }

  lemma {:induction false} Sum64Append(xs: seq<uint64>, ys: seq<uint64>)
    ensures Sum64(xs + ys) == Add64(Sum64(xs), Sum64(ys))
    decreases |ys|
  {
    if ys == [] {
      assert xs + ys == xs;
    } else {
      var init, last := ys[..|ys| - 1], ys[|ys| - 1];
      assert (xs + ys)[..|xs + ys| - 1] == xs + init;
      Sum64Append(xs, init);
      Add64Assoc(Sum64(xs), Sum64(init), last);
    }
  }

  /** The reference size of a subtree is the wrapping sum of the sizes of its regular files. */
  lemma {:induction false} DuSizeIsRegularSum(info: FileInfo)
    ensures DuSize(info) == Sum64(RegularSizes(info))
    decreases info, 1
  {
    match info.kind
    case Regular =>
      assert [ToUint64(info.size)][..0] == [];
    case Directory(Listed(es)) =>
      EntriesDuIsRegularSum(es);
    case Directory(Unreadable(_)) =>
    case Special =>
  }

  lemma {:induction false} EntriesDuIsRegularSum(es: seq<Entry>)
    ensures EntriesDu(es) == Sum64(EntriesRegularSizes(es))
    decreases es, 0
  {
    if es != [] {
      var init, last := es[..|es| - 1], es[|es| - 1];
      EntriesDuIsRegularSum(init);
      if last.stat.Found? {
        DuSizeIsRegularSum(last.stat.info);
      }
      Sum64Append(EntriesRegularSizes(init), if last.stat.Found? then RegularSizes(last.stat.info) else []);
    }
  }
}
