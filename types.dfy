/**
 * The node model of lib/types.go: a `File` whose size is filled in once, a `Dir`
 * whose children are appended in place, and the lazy size aggregation
 * `Dir.GetByteSize`, which recomputes a directory's size from its children on
 * every call and never stores it.
 *
 * In Go the tree is built from pointers (`*File`, `*Dir`), so both are classes here
 * and `Filelike` is the sum type `FileNode | DirNode` of the two references.  A
 * recursive function over heap objects needs a frame and a termination measure:
 * both come from an arena, the sets of all directories and files of a traversal,
 * that is `Closed` (children of arena directories are in the arena, and each
 * child's metadata is lower than its parent's).
 */
module Types {
  import opened Fs

  class File {
    const relPath: Path
    var sizeBytes: uint64
    const fileInfo: FileInfo

    /** `NewFile(path, info)`: the size is 0 until the file's job has run. */
    constructor (path: Path, info: FileInfo)
      ensures relPath == path && fileInfo == info && sizeBytes == 0
    {
      relPath := path;
      sizeBytes := 0;
      fileInfo := info;
    }

    function GetPath(): Path
    {
      relPath
    }

    /** The metadata is that of a regular file. */
    predicate IsRegular()
    {
      fileInfo.kind.Regular?
    }

    function GetByteSize(): uint64
      reads this`sizeBytes
    {
      sizeBytes
    }
  }

  class Dir {
    const relPath: Path
    /** Set to 0 by `NewDir` and read by nothing: the size is recomputed instead. */
    var totalSizeBytes: uint64
    var children: seq<Filelike>
    const fileInfo: FileInfo

    /** `NewDir(path, info)`: no children yet. */
    constructor (path: Path, info: FileInfo)
      ensures relPath == path && fileInfo == info && totalSizeBytes == 0 && children == []
    {
      relPath := path;
      totalSizeBytes := 0;
      children := [];
      fileInfo := info;
    }

    function GetPath(): Path
    {
      relPath
    }

    /** The metadata is that of a directory. */
    predicate IsDirectory()
    {
      fileInfo.kind.Directory?
    }

    /**
     * The wrapping sum of the children's sizes, in child order.  The reads frame names
     * only the `children` of directories and the `sizeBytes` of files: the stored
     * `totalSizeBytes` plays no part, and as a function it changes nothing.
     */
    function GetByteSize(ghost dirs: set<Dir>, ghost files: set<File>): (r: uint64)
      reads dirs`children, files`sizeBytes
      requires this in dirs && Closed(dirs, files)
      ensures children == [] ==> r == 0
      decreases Height(fileInfo), 1, 0
    {
      SumSizes(children, dirs, files, Height(fileInfo))
    }
  }

  datatype Filelike = FileNode(file: File) | DirNode(dir: Dir)

  /** The interface method `GetPath`, for both variants. */
  function GetPath(n: Filelike): (p: Path)
    ensures n.FileNode? ==> p == n.file.relPath
    ensures n.DirNode? ==> p == n.dir.relPath
  {
    match n
    case FileNode(f) => f.GetPath()
    case DirNode(d) => d.GetPath()
  }

  function InfoOf(n: Filelike): FileInfo
  {
    match n
    case FileNode(f) => f.fileInfo
    case DirNode(d) => d.fileInfo
  }

  function Obj(n: Filelike): object
  {
    match n
    case FileNode(f) => f
    case DirNode(d) => d
  }

  /** The directory behind `n`, if any: with `FileOf`, the frame of a node's own fields. */
  function DirOf(n: Filelike): set<Dir>
  {
    if n.DirNode? then {n.dir} else {}
  }

  function FileOf(n: Filelike): set<File>
  {
    if n.FileNode? then {n.file} else {}
  }

  predicate InArena(n: Filelike, dirs: set<Dir>, files: set<File>)
  {
    match n
    case FileNode(f) => f in files
    case DirNode(d) => d in dirs
  }

  /** A `File` stands for a regular file, a `Dir` for a directory. */
  predicate WellKinded(n: Filelike)
  {
    match n
    case FileNode(f) => f.IsRegular()
    case DirNode(d) => d.IsDirectory()
  }

  /** The arena invariant that makes `GetByteSize` well defined. */
  ghost predicate Closed(dirs: set<Dir>, files: set<File>)
    reads dirs`children
  {
    && (forall f | f in files :: f.IsRegular())
    && (forall d | d in dirs :: d.IsDirectory())
    && (forall d, k | d in dirs && 0 <= k < |d.children| ::
          InArena(d.children[k], dirs, files) && Height(InfoOf(d.children[k])) < Height(d.fileInfo))
  }

  /** The interface method `GetByteSize`, dispatched on the variant. */
  function GetByteSize(n: Filelike, ghost dirs: set<Dir>, ghost files: set<File>): (r: uint64)
    reads dirs`children, files`sizeBytes
    requires Closed(dirs, files) && InArena(n, dirs, files)
    ensures n.FileNode? ==> r == n.file.sizeBytes
    decreases Height(InfoOf(n)), 2, 0
  {
    match n
    case FileNode(f) => f.GetByteSize()
    case DirNode(d) => d.GetByteSize(dirs, files)
  }

  /** The loop of `Dir.GetByteSize`: `sum += c.GetByteSize()` over `cs`, left to right. */
  function SumSizes(cs: seq<Filelike>, ghost dirs: set<Dir>, ghost files: set<File>, ghost bound: nat): (r: uint64)
    reads dirs`children, files`sizeBytes
    requires Closed(dirs, files)
    requires forall k | 0 <= k < |cs| :: InArena(cs[k], dirs, files) && Height(InfoOf(cs[k])) < bound
    ensures cs == [] ==> r == 0
    ensures |cs| == 1 ==> r == GetByteSize(cs[0], dirs, files)
    decreases bound, 0, |cs|
  {
    if cs == [] then 0
    else Add64(SumSizes(cs[..|cs| - 1], dirs, files, bound), GetByteSize(cs[|cs| - 1], dirs, files))
  }

  /**
   * `dir.Children = append(dir.Children, c)` raises the directory's size by exactly the
   * size of `c`, modulo 2^64, when nothing else changes: no node below the directory
   * can see its `children`, since each of them is strictly lower.
   */
  twostate lemma AppendChildSize(d: Dir, c: Filelike, dirs: set<Dir>, files: set<File>)
    requires d in dirs && old(Closed(dirs, files)) && Closed(dirs, files) && InArena(c, dirs, files)
    requires d.children == old(d.children) + [c]
    requires forall x | x in dirs && x != d :: x.children == old(x.children)
    requires forall f | f in files :: f.sizeBytes == old(f.sizeBytes)
    ensures d.GetByteSize(dirs, files) == Add64(old(d.GetByteSize(dirs, files)), GetByteSize(c, dirs, files))
  {
    var cs := old(d.children);
    var h := Height(d.fileInfo);
    LowerUnchanged(Below(cs, h, d, dirs, files));
    assert d.children[..|cs|] == cs;
  }

  /**
   * The arguments of `LowerUnchanged`, in one value: nodes `cs` all lower than `bound`,
   * itself no higher than `d`, in the arena `dirs`, `files`.
   */
  datatype Below = Below(cs: seq<Filelike>, bound: nat, d: Dir, dirs: set<Dir>, files: set<File>)

  /** A sequence of nodes all lower than `d` has the same sum as before `d.children` changed. */
  twostate lemma {:induction false} LowerUnchanged(b: Below)
    requires old(Closed(b.dirs, b.files)) && Closed(b.dirs, b.files)
    requires forall x | x in b.dirs && x != b.d :: x.children == old(x.children)
    requires forall f | f in b.files :: f.sizeBytes == old(f.sizeBytes)
    requires b.bound <= Height(b.d.fileInfo)
    requires forall k | 0 <= k < |b.cs| :: InArena(b.cs[k], b.dirs, b.files) && Height(InfoOf(b.cs[k])) < b.bound
    ensures SumSizes(b.cs, b.dirs, b.files, b.bound) == old(SumSizes(b.cs, b.dirs, b.files, b.bound))
    decreases b.bound, |b.cs|
  {
    var cs, dirs, files := b.cs, b.dirs, b.files;
    if cs != [] {
      var last := cs[|cs| - 1];
      LowerUnchanged(b.(cs := cs[..|cs| - 1]));
      match last
      case FileNode(f) =>
      case DirNode(x) =>
        assert x != b.d;
        LowerUnchanged(b.(cs := x.children, bound := Height(x.fileInfo)));
        assert x.GetByteSize(dirs, files) == SumSizes(x.children, dirs, files, Height(x.fileInfo));
        assert old(x.GetByteSize(dirs, files)) == old(SumSizes(x.children, dirs, files, Height(x.fileInfo)));
    }
  }
}
