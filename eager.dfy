/**
 * The older, eager traversal of gdu.go.  Nodes are values there (`gdu.Dir{...}` and
 * `gdu.File{...}` literals returned by value), so they are a datatype here.  A
 * directory's total is accumulated while its entries are examined, and each node
 * examined successfully is printed after its descendants when details are on.
 *
 * Each method is proved against a reference function of the filesystem oracle
 * (`ExpectedPath`, `ExpectedDir`), and the lemmas below relate that reference to the
 * reference size `DuSize`, to the lazy recomputation of lib/types.go, and to the
 * post-order of the printed trace.
 */
module Eager {
  import opened Fs

  /** The nodes gdu.go builds: a file with its stat size, a directory with its eager total. */
  datatype Filelike =
    | File(relPath: Path, sizeBytes: uint64)
    | Dir(relPath: Path, totalSizeBytes: uint64, children: seq<Filelike>)

  /** The pair `(gdu.Filelike, error)` that the examine functions return. */
  datatype Outcome = Outcome(node: Option<Filelike>, err: Option<Error>)

  /** One line of output: a size and a path. */
  datatype Line = Line(size: uint64, path: Path)

  /** `GetByteSize` as gdu.go calls it on its own nodes: the stored size or total. */
  function ByteSize(n: Filelike): (r: uint64)
    ensures n.File? ==> r == n.sizeBytes
    ensures n.Dir? ==> r == n.totalSizeBytes
  {
    match n
    case File(_, s) => s
    case Dir(_, t, _) => t
  }

  /** The stat results that yield a node: a regular file, or a directory that can be listed. */
  predicate Examinable(s: StatResult)
  {
    s.Found? && (s.info.kind.Regular? || IsListedDir(s.info))
  }

  /** The stat results that yield an error: a failed stat, or a directory whose listing fails. */
  predicate Failing(s: StatResult)
  {
    s.StatFailed? || (s.info.kind.Directory? && s.info.kind.listing.Unreadable?)
  }

  // ---------------------------------------------------------------------------
  // The reference: what examining a path yields.

  /** `examinePath` as a function of what `os.Stat` returns for the path. */
  function ExpectedPath(path: Path, s: StatResult): (o: Outcome)
    ensures o.node.None? || o.err.None?
    ensures o.node.Some? <==> Examinable(s)
    ensures o.err.Some? <==> Failing(s)
    ensures s.StatFailed? ==> o.err == Some(s.err)
    ensures o.node.Some? ==> o.node.value.relPath == path
    decreases s, 2
  {
    match s
    case StatFailed(e) => Outcome(None, Some(e))
    case Found(info) =>
      match info.kind
      case Directory(l) => ExpectedDir(path, l)
      case Regular => ExamineFile(info, path)
      case Special => Outcome(None, None)
  }

  /** `examineDir` as a function of what `ioutil.ReadDir` returns for the path. */
  function ExpectedDir(path: Path, l: Listing): (o: Outcome)
    ensures l.Unreadable? ==> o == Outcome(None, Some(l.err))
    ensures l.Listed? ==> o.err.None? && o.node.Some? && o.node.value.Dir? && o.node.value.relPath == path
    decreases l, 1
  {
    match l
    case Unreadable(e) => Outcome(None, Some(e))
    case Listed(es) =>
      var cs := ExpectedChildren(path, es);
      Outcome(Some(Dir(path, SumBytes(cs), cs)), None)
  }

  /** The children `examineDir` keeps, in listing order: those examined without error. */
  function ExpectedChildren(path: Path, es: seq<Entry>): (cs: seq<Filelike>)
    ensures |cs| <= |es|
    decreases es, 0
  {
    if es == [] then []
    else
      var last := es[|es| - 1];
      var o := ExpectedPath(Join(path, last.name), last.stat);
      ExpectedChildren(path, es[..|es| - 1]) + (if o.err.None? && o.node.Some? then [o.node.value] else [])
  }

  /** `d.TotalSizeBytes += child.GetByteSize()` over the kept children, from left to right. */
  function SumBytes(cs: seq<Filelike>): uint64
  {
    if cs == [] then 0 else Add64(SumBytes(cs[..|cs| - 1]), ByteSize(cs[|cs| - 1]))
  }

  /** `examineFile`: a file node with the given path and the stat size, and no error. */
  function ExamineFile(info: FileInfo, path: Path): (o: Outcome)
    ensures o.err.None? && o.node.Some? && o.node.value.File?
    ensures o.node.value.relPath == path
    ensures o.node.value.sizeBytes == ToUint64(info.size)
    ensures 0 <= info.size ==> o.node.value.sizeBytes as int == info.size as int
  {
    Outcome(Some(File(path, ToUint64(info.size))), None)
  }

  // ---------------------------------------------------------------------------
  // The printed trace.

  /** The lines a subtree prints: every descendant's before the node's own. */
  function PostOrder(n: Filelike): seq<Line>
    decreases n, 1
  {
    match n
    case File(p, s) => [Line(s, p)]
    case Dir(p, t, cs) => Traces(cs) + [Line(t, p)]
  }

  /** The lines of a sequence of subtrees, one after the other. */
  function Traces(cs: seq<Filelike>): seq<Line>
    decreases cs, 0
  {
    if cs == [] then [] else Traces(cs[..|cs| - 1]) + PostOrder(cs[|cs| - 1])
  }

  /** The lines `examinePath` prints for a node it returns. */
  function Printed(ret: Option<Filelike>, printDetails: bool): (out: seq<Line>)
    ensures out != [] <==> printDetails && ret.Some?
    ensures out != [] ==>
      |out| == Nodes(ret.value) && out[|out| - 1] == Line(ByteSize(ret.value), ret.value.relPath)
  {
    if printDetails && ret.Some? then PostOrderShape(ret.value); PostOrder(ret.value) else []
  }

  // ---------------------------------------------------------------------------
  // The traversal.

  /** `examinePath`; the lines printed while it runs are returned in `out`. */
  method ExaminePath(path: Path, stat: StatResult, printDetails: bool)
    returns (ret: Option<Filelike>, err: Option<Error>, out: seq<Line>)
    ensures Outcome(ret, err) == ExpectedPath(path, stat)
    ensures out == Printed(ret, printDetails)
    decreases stat, 2
  {
    match stat
    case StatFailed(e) =>
      return None, Some(e), [];
    case Found(fileInfo) =>
      ret, err, out := None, None, [];
      if fileInfo.kind.Directory? {
        ret, err, out := ExamineDir(path, fileInfo.kind.listing, printDetails);
      } else if fileInfo.kind.Regular? {
        var o := ExamineFile(fileInfo, path);
        ret, err := o.node, o.err;
      }
      if err == None && ret.Some? && printDetails {
        out := out + [Line(ByteSize(ret.value), ret.value.relPath)];
      }
  }

  /**
   * `examineDir`: an unreadable directory yields its error; otherwise each entry is
   * examined in listing order, and those examined without error are added to the total
   * and appended to the children.  `out` holds the children's lines, not the
   * directory's own, which `examinePath` prints.
   */
  method ExamineDir(path: Path, listing: Listing, printDetails: bool)
    returns (ret: Option<Filelike>, err: Option<Error>, out: seq<Line>)
    ensures Outcome(ret, err) == ExpectedDir(path, listing)
    ensures out == if printDetails && ret.Some? then Traces(ret.value.children) else []
    decreases listing, 1
  {
    match listing
    case Unreadable(e) =>
      return None, Some(e), [];
    case Listed(files) =>
      var total: uint64 := 0;
      var children: seq<Filelike> := [];
      out := [];
      for i := 0 to |files|
        invariant Accumulated(path, files[..i], children, total, out, printDetails)
      {
        var child, childErr, childOut := ExaminePath(Join(path, files[i].name), files[i].stat, printDetails);
        Advance(path, files, i, children, total, out, printDetails);
        out := out + childOut;
        if childErr == None && child.Some? {
          total := Add64(total, ByteSize(child.value));
          children := children + [child.value];
        }
      }
      assert files[..|files|] == files;
      return Some(Dir(path, total, children)), None, out;
  }

  /**
   * The state of the loop of `examineDir` after the entries `es`: the kept children,
   * their total, and the lines printed so far.
   */
  ghost predicate Accumulated(path: Path, es: seq<Entry>, cs: seq<Filelike>, total: uint64, out: seq<Line>, printDetails: bool)
  {
    && cs == ExpectedChildren(path, es)
    && total == SumBytes(cs)
    && out == (if printDetails then Traces(cs) else [])
  }

  /** One more entry examined: a kept node is added to the total and appended, its lines printed. */
  lemma Advance(path: Path, es: seq<Entry>, i: nat, cs: seq<Filelike>, total: uint64, out: seq<Line>, printDetails: bool)
    requires i < |es| && Accumulated(path, es[..i], cs, total, out, printDetails)
    ensures var o := ExpectedPath(Join(path, es[i].name), es[i].stat);
      if o.err.None? && o.node.Some? then
        Accumulated(path, es[..i + 1], cs + [o.node.value], Add64(total, ByteSize(o.node.value)),
          out + Printed(o.node, printDetails), printDetails)
      else
        Accumulated(path, es[..i + 1], cs, total, out + Printed(o.node, printDetails), printDetails)
  {
    assert es[..i + 1][..i] == es[..i];
    var o := ExpectedPath(Join(path, es[i].name), es[i].stat);
    if o.err.None? && o.node.Some? {
      AppendStep(cs, o.node.value);
    } else {
      assert Printed(o.node, printDetails) == [];
      assert out + [] == out;
      assert cs + [] == cs;
    }
  }

  /** Appending a child adds its size to the sum and its lines to the trace. */
  lemma AppendStep(cs: seq<Filelike>, c: Filelike)
    ensures SumBytes(cs + [c]) == Add64(SumBytes(cs), ByteSize(c))
    ensures Traces(cs + [c]) == Traces(cs) + PostOrder(c)
  {
    assert (cs + [c])[..|cs|] == cs;
  }

  // ---------------------------------------------------------------------------
  // The reference size.

  /** What a root contributes to the total in `main`: nothing when it errs or yields no node. */
  function Contribution(o: Outcome): uint64
  {
    if o.err.None? && o.node.Some? then ByteSize(o.node.value) else 0
  }

  /**
   * The eager size of a path is the reference size of its subtree: a child that is
   * skipped (stat failed, unreadable, neither file nor directory) adds nothing to it.
   */
  lemma {:induction false} ExpectedSize(path: Path, s: StatResult)
    ensures Contribution(ExpectedPath(path, s)) == (if s.Found? then DuSize(s.info) else 0)
    decreases s, 1
  {
    if s.Found? && IsListedDir(s.info) {
      ChildrenSize(path, s.info.kind.listing.entries);
    }
  }

  lemma {:induction false} ChildrenSize(path: Path, es: seq<Entry>)
    ensures SumBytes(ExpectedChildren(path, es)) == EntriesDu(es)
    decreases es, 0
  {
    if es != [] {
      var init, last := es[..|es| - 1], es[|es| - 1];
      var cs := ExpectedChildren(path, init);
      var o := ExpectedPath(Join(path, last.name), last.stat);
      ChildrenSize(path, init);
      ExpectedSize(Join(path, last.name), last.stat);
      if o.err.None? && o.node.Some? {
        AppendStep(cs, o.node.value);
      } else {
        assert ExpectedChildren(path, es) == cs + [] == cs;
        Add64Zero(EntriesDu(init));
      }
    }
  }

  // ---------------------------------------------------------------------------
  // The kept children follow the listing.

  /** The entries of a listing that `examineDir` keeps, in listing order. */
  function Examined(es: seq<Entry>): (xs: seq<Entry>)
    ensures |xs| <= |es|
  {
    if es == [] then []
    else
      var last := es[|es| - 1];
      Examined(es[..|es| - 1]) + (if Examinable(last.stat) then [last] else [])
  }

  /** `Examined` keeps exactly the examinable entries. */
  lemma {:induction false} ExaminedExactly(es: seq<Entry>, e: Entry)
    ensures e in Examined(es) <==> e in es && Examinable(e.stat)
    decreases |es|
  {
    if es != [] {
      var init, last := es[..|es| - 1], es[|es| - 1];
      assert es == init + [last];
      ExaminedExactly(init, e);
    }
  }

  /**
   * The children are the nodes of the examinable entries, one per entry and in listing
   * order: the k-th child is what examining the k-th such entry yields.
   */
  lemma {:induction false} ChildrenFollowListing(path: Path, es: seq<Entry>)
    ensures |ExpectedChildren(path, es)| == |Examined(es)|
    ensures forall k | 0 <= k < |Examined(es)| ::
      Some(ExpectedChildren(path, es)[k]) == ExpectedPath(Join(path, Examined(es)[k].name), Examined(es)[k].stat).node
    decreases |es|
  {
    if es != [] {
      var init, last := es[..|es| - 1], es[|es| - 1];
      ChildrenFollowListing(path, init);
      var o := ExpectedPath(Join(path, last.name), last.stat);
      var cs, xs := ExpectedChildren(path, init), Examined(init);
      if Examinable(last.stat) {
        assert ExpectedChildren(path, es) == cs + [o.node.value];
        assert Examined(es) == xs + [last];
      } else {
        assert ExpectedChildren(path, es) == cs + [];
        assert Examined(es) == xs + [];
      }
    }
  }

  // ---------------------------------------------------------------------------
  // The eager total agrees with the lazy recomputation of lib/types.go.

  /** `Dir.GetByteSize` of lib/types.go on these nodes: recomputed from the children. */
  function LazySize(n: Filelike): uint64
    decreases n, 1
  {
    match n
    case File(_, s) => s
    case Dir(_, _, cs) => LazySum(cs)
  }

  function LazySum(cs: seq<Filelike>): uint64
    decreases cs, 0
  {
    if cs == [] then 0 else Add64(LazySum(cs[..|cs| - 1]), LazySize(cs[|cs| - 1]))
  }

  /** Every directory of the subtree stores the sum of its children's sizes. */
  ghost predicate Consistent(n: Filelike)
    decreases n, 1
  {
    n.Dir? ==> n.totalSizeBytes == SumBytes(n.children) && AllConsistent(n.children)
  }

  ghost predicate AllConsistent(cs: seq<Filelike>)
    decreases cs, 0
  {
    forall k | 0 <= k < |cs| :: Consistent(cs[k])
  }

  /** In a consistent subtree the stored total is the lazily recomputed size. */
  lemma {:induction false} ConsistentIsLazy(n: Filelike)
    requires Consistent(n)
    ensures ByteSize(n) == LazySize(n)
    decreases n, 1
  {
    if n.Dir? {
      SumIsLazy(n.children);
    }
  }

  lemma {:induction false} SumIsLazy(cs: seq<Filelike>)
    requires AllConsistent(cs)
    ensures SumBytes(cs) == LazySum(cs)
    decreases cs, 0
  {
    if cs != [] {
      assert Consistent(cs[|cs| - 1]);
      ConsistentIsLazy(cs[|cs| - 1]);
      SumIsLazy(cs[..|cs| - 1]);
    }
  }

  /** Every node `examinePath` returns is consistent. */
  lemma {:induction false} ExpectedConsistent(path: Path, s: StatResult)
    ensures ExpectedPath(path, s).node.Some? ==> Consistent(ExpectedPath(path, s).node.value)
    decreases s, 1
  {
    if s.Found? && IsListedDir(s.info) {
      ChildrenConsistent(path, s.info.kind.listing.entries);
    }
  }

  lemma {:induction false} ChildrenConsistent(path: Path, es: seq<Entry>)
    ensures AllConsistent(ExpectedChildren(path, es))
    decreases es, 0
  {
    if es != [] {
      var init, last := es[..|es| - 1], es[|es| - 1];
      ChildrenConsistent(path, init);
      ExpectedConsistent(Join(path, last.name), last.stat);
    }
  }

  /** So the eager total of every returned node is what `Dir.GetByteSize` recomputes. */
  lemma EagerIsLazy(path: Path, s: StatResult)
    requires ExpectedPath(path, s).node.Some?
    ensures ByteSize(ExpectedPath(path, s).node.value) == LazySize(ExpectedPath(path, s).node.value)
  {
    ExpectedConsistent(path, s);
    ConsistentIsLazy(ExpectedPath(path, s).node.value);
  }

  // ---------------------------------------------------------------------------
  // The trace is a post-order with one line per node.

  /** The number of nodes of a subtree. */
  function Nodes(n: Filelike): nat
    decreases n, 1
  {
    match n
    case File(_, _) => 1
    case Dir(_, _, cs) => 1 + AllNodes(cs)
  }

  function AllNodes(cs: seq<Filelike>): nat
    decreases cs, 0
  {
    if cs == [] then 0 else AllNodes(cs[..|cs| - 1]) + Nodes(cs[|cs| - 1])
  }

  /** Exactly one line per node, the node's own line last. */
  lemma {:induction false} PostOrderShape(n: Filelike)
    ensures |PostOrder(n)| == Nodes(n)
    ensures PostOrder(n)[|PostOrder(n)| - 1] == Line(ByteSize(n), n.relPath)
    decreases n, 1
  {
    if n.Dir? {
      TracesLength(n.children);
    }
  }

  lemma {:induction false} TracesLength(cs: seq<Filelike>)
    ensures |Traces(cs)| == AllNodes(cs)
    decreases cs, 0
  {
    if cs != [] {
      TracesLength(cs[..|cs| - 1]);
      PostOrderShape(cs[|cs| - 1]);
    }
  }

  /** The lines of consecutive subtrees are the lines of each part, in order. */
  lemma {:induction false} TracesAppend(xs: seq<Filelike>, ys: seq<Filelike>)
    ensures Traces(xs + ys) == Traces(xs) + Traces(ys)
    decreases |ys|
  {
    if ys == [] {
      assert xs + ys == xs;
    } else {
      var init, last := ys[..|ys| - 1], ys[|ys| - 1];
      assert (xs + ys)[..|xs + ys| - 1] == xs + init;
      TracesAppend(xs, init);
    }
  }

  /**
   * A child's lines form one block, preceded by the blocks of the children listed before
   * it, followed by those listed after it, and all before the directory's own line.
   */
  lemma ChildBlock(n: Filelike, k: nat)
    requires n.Dir? && k < |n.children|
    ensures PostOrder(n) ==
      Traces(n.children[..k]) + PostOrder(n.children[k]) + Traces(n.children[k + 1..]) + [Line(ByteSize(n), n.relPath)]
  {
    var cs := n.children;
    assert cs == cs[..k] + [cs[k]] + cs[k + 1..];
    TracesAppend(cs[..k] + [cs[k]], cs[k + 1..]);
    TracesAppend(cs[..k], [cs[k]]);
    assert [cs[k]][..0] == [];
  }

  /** With details on, a returned node prints one line per node of its subtree, its own last. */
  lemma PrintedTrace(path: Path, s: StatResult)
    requires ExpectedPath(path, s).node.Some?
    ensures |Printed(ExpectedPath(path, s).node, true)| == Nodes(ExpectedPath(path, s).node.value)
    ensures Printed(ExpectedPath(path, s).node, true)[Nodes(ExpectedPath(path, s).node.value) - 1]
      == Line(Contribution(ExpectedPath(path, s)), path)
  {
    PostOrderShape(ExpectedPath(path, s).node.value);
  }

  // ---------------------------------------------------------------------------
  // `main`: examine every root, then sum what the roots send back.

  /** What each root sends on the channel, in root order. */
  function RootSizes(roots: seq<(Path, StatResult)>): (xs: seq<uint64>)
    ensures |xs| == |roots|
    ensures forall j | 0 <= j < |roots| :: xs[j] == Contribution(ExpectedPath(roots[j].0, roots[j].1))
  {
    if roots == [] then []
    else RootSizes(roots[..|roots| - 1]) + [Contribution(ExpectedPath(roots[|roots| - 1].0, roots[|roots| - 1].1))]
  }

  /** The lines a root's goroutine prints: the details, or else its summary line. */
  function RootTrace(root: (Path, StatResult), printDetails: bool): seq<Line>
  {
    var o := ExpectedPath(root.0, root.1);
    if o.err.None? && o.node.Some? then
      (if printDetails then PostOrder(o.node.value) else [Line(ByteSize(o.node.value), o.node.value.relPath)])
    else []
  }

  /**
   * A root prints something exactly when it yields a node: its whole subtree with details
   * on, its summary line alone otherwise, and in both cases its own path and size last.
   */
  lemma RootTraceShape(root: (Path, StatResult), printDetails: bool)
    ensures var out := RootTrace(root, printDetails);
      && (out != [] <==> Examinable(root.1))
      && (out != [] ==> out[|out| - 1] == Line(Contribution(ExpectedPath(root.0, root.1)), root.0))
      && (out != [] && !printDetails ==> |out| == 1)
      && (out != [] && printDetails ==> |out| == Nodes(ExpectedPath(root.0, root.1).node.value))
  {
    var o := ExpectedPath(root.0, root.1);
    if o.node.Some? {
      PostOrderShape(o.node.value);
    }
  }

  function RootTraces(roots: seq<(Path, StatResult)>, printDetails: bool): seq<Line>
  {
    if roots == [] then []
    else RootTraces(roots[..|roots| - 1], printDetails) + RootTrace(roots[|roots| - 1], printDetails)
  }

  /** The errors printed to standard error, in root order. */
  function RootErrors(roots: seq<(Path, StatResult)>): seq<Error>
  {
    if roots == [] then []
    else
      var o := ExpectedPath(roots[|roots| - 1].0, roots[|roots| - 1].1);
      RootErrors(roots[..|roots| - 1]) + (if o.err.Some? then [o.err.value] else [])
  }

  /** At most one error per root, and none at all exactly when no root's stat or listing fails. */
  lemma {:induction false} RootErrorsExactly(roots: seq<(Path, StatResult)>)
    ensures |RootErrors(roots)| <= |roots|
    ensures RootErrors(roots) == [] <==> forall k | 0 <= k < |roots| :: !Failing(roots[k].1)
    decreases |roots|
  {
    if roots != [] {
      var init := roots[..|roots| - 1];
      RootErrorsExactly(init);
      assert forall k | 0 <= k < |init| :: init[k] == roots[k];
    }
  }

  /** The path under which `main` prints the total. */
  const TOTAL: Path := Root("Total")

  /**
   * The wrapping sum of `xs[j]` over the indices in `ks`, taken in an arbitrary order:
   * the order in which the values arrive on the channel.
   */
  ghost function IndexSum(ks: set<nat>, xs: seq<uint64>): uint64
  {
    if ks == {} then 0
    else
      var k :| k in ks;
      Add64(IndexSum(ks - {k}, xs), if k < |xs| then xs[k] else 0)
  }

  /** Any index can be taken first: the sum does not depend on the order of arrival. */
  lemma {:induction false} IndexSumRemove(ks: set<nat>, xs: seq<uint64>, k: nat)
    requires k in ks
    ensures IndexSum(ks, xs) == Add64(IndexSum(ks - {k}, xs), if k < |xs| then xs[k] else 0)
    decreases |ks|
  {
    var y :| y in ks && IndexSum(ks, xs) == Add64(IndexSum(ks - {y}, xs), if y < |xs| then xs[y] else 0);
    if y != k {
      var a, b := if k < |xs| then xs[k] else 0, if y < |xs| then xs[y] else 0;
      IndexSumRemove(ks - {y}, xs, k);
      IndexSumRemove(ks - {k}, xs, y);
      assert ks - {y} - {k} == ks - {k} - {y};
      var r := IndexSum(ks - {y} - {k}, xs);
      Add64Assoc(r, a, b);
      Add64Assoc(r, b, a);
    }
  }

  /** The indices below `n`. */
  function Indices(n: nat): (ks: set<nat>)
    ensures forall j: nat :: j in ks <==> j < n
  {
    if n == 0 then {} else Indices(n - 1) + {n - 1}
  }

  /** Summed over every index, in whatever order, the values give their left-to-right sum. */
  lemma {:induction false} IndexSumAll(xs: seq<uint64>, n: nat)
    requires n <= |xs|
    ensures IndexSum(Indices(n), xs) == Sum64(xs[..n])
    decreases n
  {
    if n > 0 {
      IndexSumRemove(Indices(n), xs, n - 1);
      assert Indices(n) - {n - 1} == Indices(n - 1);
      IndexSumAll(xs, n - 1);
      assert xs[..n][..n - 1] == xs[..n - 1];
    }
  }

  lemma IndexSumWhole(xs: seq<uint64>)
    ensures IndexSum(Indices(|xs|), xs) == Sum64(xs)
  {
    IndexSumAll(xs, |xs|);
    assert xs[..|xs|] == xs;
  }

  /**
   * `main` after flag parsing: one goroutine per root examines it and sends its size
   * (0 after an error or for no node), then the sizes are received and summed, and the
   * total is printed last.
   */
  method Summarize(roots: seq<(Path, StatResult)>, printDetails: bool)
    returns (total: uint64, out: seq<Line>, errs: seq<Error>)
    ensures total == Sum64(RootSizes(roots))
    ensures out == RootTraces(roots, printDetails) + [Line(total, TOTAL)]
    ensures errs == RootErrors(roots)
  {
    var sizes;
    sizes, out, errs := ExamineRoots(roots, printDetails);
    total := ReceiveSizes(sizes);
    out := out + [Line(total, TOTAL)];
  }

  /** The goroutines of `main`, one per root, run one after the other in root order. */
  method ExamineRoots(roots: seq<(Path, StatResult)>, printDetails: bool)
    returns (sizes: seq<uint64>, out: seq<Line>, errs: seq<Error>)
    ensures sizes == RootSizes(roots)
    ensures out == RootTraces(roots, printDetails)
    ensures errs == RootErrors(roots)
  {
    sizes, out, errs := [], [], [];
    for j := 0 to |roots|
      invariant sizes == RootSizes(roots[..j])
      invariant out == RootTraces(roots[..j], printDetails)
      invariant errs == RootErrors(roots[..j])
    {
      var size: uint64 := 0;
      var ret, err, lines := ExaminePath(roots[j].0, roots[j].1, printDetails);
      var trace := lines;
      if err.Some? {
        errs := errs + [err.value];
      } else if ret.Some? {
        if !printDetails {
          trace := lines + [Line(ByteSize(ret.value), ret.value.relPath)];
        }
        size := ByteSize(ret.value);
      }
      RootStep(roots, j, printDetails);
      out := out + trace;
      sizes := sizes + [size];
    }
    assert roots[..|roots|] == roots;
  }

  /** One more root: its size, its lines and its error follow those of the roots before it. */
  lemma RootStep(roots: seq<(Path, StatResult)>, j: nat, printDetails: bool)
    requires j < |roots|
    ensures var o := ExpectedPath(roots[j].0, roots[j].1);
      && RootSizes(roots[..j + 1]) == RootSizes(roots[..j]) + [Contribution(o)]
      && RootTraces(roots[..j + 1], printDetails) == RootTraces(roots[..j], printDetails) + RootTrace(roots[j], printDetails)
      && RootErrors(roots[..j + 1]) == RootErrors(roots[..j]) + (if o.err.Some? then [o.err.value] else [])
  {
    assert roots[..j + 1][..j] == roots[..j];
  }

  /**
   * `total += <-ch` once per root: the sizes arrive in an order the scheduler picks,
   * and every order gives the left-to-right sum.
   */
  method ReceiveSizes(sizes: seq<uint64>) returns (total: uint64)
    ensures total == Sum64(sizes)
  {
    total := 0;
    var waiting: set<nat> := Indices(|sizes|);
    IndexSumWhole(sizes);
    assert Add64(0, IndexSum(waiting, sizes)) == Sum64(sizes);
    while waiting != {}
      invariant forall j | j in waiting :: j < |sizes|
      invariant Add64(total, IndexSum(waiting, sizes)) == Sum64(sizes)
      decreases |waiting|
    {
      var j :| j in waiting;
      ReceiveStep(total, waiting, sizes, j);
      total := Add64(total, sizes[j]);
      waiting := waiting - {j};
    }
  }

  /** Receiving one more size keeps the sum of what has arrived and what is still waiting. */
  lemma ReceiveStep(total: uint64, waiting: set<nat>, sizes: seq<uint64>, j: nat)
    requires j in waiting && j < |sizes|
    ensures Add64(total, IndexSum(waiting, sizes)) == Add64(Add64(total, sizes[j]), IndexSum(waiting - {j}, sizes))
  {
    var rest := IndexSum(waiting - {j}, sizes);
    IndexSumRemove(waiting, sizes, j);
    assert Add64(rest, sizes[j]) == Add64(sizes[j], rest);
    Add64Assoc(total, sizes[j], rest);
  }

  /** The total `main` prints is the wrapping sum of the reference sizes of the roots. */
  lemma {:induction false} TotalIsDu(roots: seq<(Path, StatResult)>)
    ensures Sum64(RootSizes(roots)) == Sum64(RootDu(roots))
    decreases |roots|
  {
    if roots != [] {
      var init := roots[..|roots| - 1];
      TotalIsDu(init);
      ExpectedSize(roots[|roots| - 1].0, roots[|roots| - 1].1);
      assert RootSizes(roots)[..|roots| - 1] == RootSizes(init);
      assert RootDu(roots)[..|roots| - 1] == RootDu(init);
    }
  }

  /** The reference size of each root; nothing for a root whose stat fails. */
  function RootDu(roots: seq<(Path, StatResult)>): (xs: seq<uint64>)
    ensures |xs| == |roots|
  {
    if roots == [] then []
    else
      var s := roots[|roots| - 1].1;
      RootDu(roots[..|roots| - 1]) + [if s.Found? then DuSize(s.info) else 0]
  }
}
