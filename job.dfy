/**
 * The dispatcher of lib/job.go, as a sequential state machine.
 *
 * `JobQueue` owns the outstanding-work counter (the `WaitGroup`) and the handoff
 * channel.  `EnqueueJob` increments the counter and then either hands the job over
 * (the non-blocking send succeeded: the job joins `pending`, where a worker will pick
 * it up) or runs it inline, recursively.  Which of the two happens is a free choice
 * in every call.  `ProcessJobs` stands for the workers: a sequential loop that takes
 * pending jobs in any order and runs them until none is left.
 *
 * The ghost state is the arena of every node the traversal has created (`dirs`,
 * `files`); each method also takes, as a ghost parameter `running`, the jobs being run
 * further up the call stack.  A node is `Initial` before its job
 * runs and `Done` afterwards; once `Join` returns, every node is done and every
 * node's lazily computed size is the reference size `DuSize` of its metadata,
 * whatever the send choices were.
 */
module Job {
  import opened Fs
  import opened Types

  /** A node as the classifier creates it, before its job has run. */
  ghost predicate Initial(n: Filelike)
    reads DirOf(n)`children, FileOf(n)`sizeBytes
  {
    match n
    case FileNode(f) => f.sizeBytes == 0
    case DirNode(d) => d.children == []
  }

  /**
   * The effect of a node's job: a file has its stat size; a readable directory has one
   * child per classified entry, in listing order; an unreadable one has no children.
   */
  ghost predicate Done(n: Filelike)
    reads DirOf(n)`children, FileOf(n)`sizeBytes
  {
    match n
    case FileNode(f) => FileDone(f)
    case DirNode(d) => DirDone(d)
  }

  ghost predicate FileDone(f: File)
    reads f`sizeBytes
  {
    f.sizeBytes == ToUint64(f.fileInfo.size)
  }

  ghost predicate DirDone(d: Dir)
    reads d`children
  {
    if IsListedDir(d.fileInfo) then ChildrenMatch(d.children, d.relPath, Kept(d.fileInfo.kind.listing.entries))
    else d.children == []
  }

  /** `cs` are the nodes classified from the entries `ks` of directory `p`, one each, in order. */
  ghost predicate ChildrenMatch(cs: seq<Filelike>, p: Path, ks: seq<Entry>)
  {
    && |cs| == |ks|
    && forall k | 0 <= k < |cs| ::
         GetPath(cs[k]) == Join(p, ks[k].name) && ks[k].stat.Found? && InfoOf(cs[k]) == ks[k].stat.info
  }

  /**
   * One entry of a listing examined: the children match one more entry exactly when the
   * entry was classified to a node and that node was appended.
   */
  lemma KeptStep(cs: seq<Filelike>, cs': seq<Filelike>, p: Path, es: seq<Entry>, i: nat, child: Option<Filelike>)
    requires i < |es| && ChildrenMatch(cs, p, Kept(es[..i]))
    requires child.Some? <==> Classifiable(es[i].stat)
    requires child.Some? ==>
      cs' == cs + [child.value] && GetPath(child.value) == Join(p, es[i].name) && InfoOf(child.value) == es[i].stat.info
    requires child.None? ==> cs' == cs
    ensures ChildrenMatch(cs', p, Kept(es[..i + 1]))
    ensures EntriesCount(es[..i + 1]) == EntriesCount(es[..i]) + (if child.Some? then Count(es[i].stat.info) else 0)
  {
    assert es[..i + 1][..i] == es[..i];
    if child.Some? {
      assert Kept(es[..i + 1]) == Kept(es[..i]) + [es[i]];
    } else {
      assert Kept(es[..i + 1]) == Kept(es[..i]) + [];
    }
  }

  /** Every pending job is a node of the arena that has not run. */
  ghost predicate PendingFresh(pending: set<Filelike>, dirs: set<Dir>, files: set<File>)
    reads dirs`children, files`sizeBytes
  {
    forall n | n in pending :: InArena(n, dirs, files) && Initial(n)
  }

  /** The number of nodes a job can still create, itself included. */
  ghost function Weight(n: Filelike): nat
  {
    Count(InfoOf(n))
  }

  /** The total weight of a set of pending jobs: a bound on the jobs still to run. */
  ghost function Load(m: set<Filelike>): nat
  {
    if m == {} then 0
    else
      var n :| n in m;
      Weight(n) + Load(m - {n})
  }

  lemma {:induction false} LoadRemove(m: set<Filelike>, x: Filelike)
    requires x in m
    ensures Load(m) == Weight(x) + Load(m - {x})
    decreases |m|
  {
    var y :| y in m && Load(m) == Weight(y) + Load(m - {y});
    if y != x {
      LoadRemove(m - {y}, x);
      LoadRemove(m - {x}, y);
      assert m - {y} - {x} == m - {x} - {y};
    }
  }

  /**
   * `CreateFileLike`: a failed stat yields no node and its error; a directory yields an
   * empty `Dir`, a regular file a `File` of size 0, both for the given path; any other
   * kind yields neither a node nor an error.
   */
  method CreateFileLike(path: Path, stat: StatResult) returns (node: Option<Filelike>, err: Option<Error>)
    ensures stat.StatFailed? ==> node == None && err == Some(stat.err)
    ensures stat.Found? ==> err == None
    ensures node.Some? <==> Classifiable(stat)
    ensures node.Some? ==>
      && fresh(Obj(node.value)) && WellKinded(node.value) && Initial(node.value)
      && GetPath(node.value) == path && InfoOf(node.value) == stat.info
  {
    match stat
    case StatFailed(e) =>
      return None, Some(e);
    case Found(info) =>
      if info.kind.Directory? {
        var dir := new Dir(path, info);
        return Some(DirNode(dir)), None;
      } else if info.kind.Regular? {
        var file := new File(path, info);
        return Some(FileNode(file)), None;
      }
      return None, None;
  }

  class JobQueue {
    /** The `WaitGroup` counter. */
    var counter: int
    /** Jobs handed over the channel that no worker has run yet. */
    var pending: set<Filelike>
    /** Every node the traversal has created. */
    ghost var dirs: set<Dir>
    ghost var files: set<File>

    /** The arena is closed, and each pending job is a node of the arena that has not run. */
    ghost predicate Valid()
      reads this`pending, this`dirs, this`files, dirs`children, files`sizeBytes
    {
      Closed(dirs, files) && PendingFresh(pending, dirs, files)
    }

    /**
     * Each node of the arena is done, waiting in `pending`, or one of the jobs in
     * `running`: those being run, inline or by a worker, further up the call stack.
     */
    ghost predicate Settled(running: set<Filelike>)
      reads this`pending, this`dirs, this`files, dirs`children, files`sizeBytes
    {
      && (forall d | d in dirs :: DirSettled(d, running))
      && (forall f | f in files :: FileSettled(f, running))
    }

    ghost predicate DirSettled(d: Dir, running: set<Filelike>)
      reads this`pending, d`children
    {
      DirDone(d) || DirNode(d) in pending || DirNode(d) in running
    }

    ghost predicate FileSettled(f: File, running: set<Filelike>)
      reads this`pending, f`sizeBytes
    {
      FileDone(f) || FileNode(f) in pending || FileNode(f) in running
    }

    /** The arena only grows, and only by nodes allocated since `old`. */
    twostate predicate Grows()
      reads this`dirs, this`files
    {
      && old(dirs) <= dirs && old(files) <= files
      && (forall d | d in dirs :: d in old(dirs) || fresh(d))
      && (forall f | f in files :: f in old(files) || fresh(f))
    }

    constructor ()
      ensures Valid() && Settled({})
      ensures counter == 0 && pending == {} && dirs == {} && files == {}
    {
      counter := 0;
      pending := {};
      dirs := {};
      files := {};
    }

    /**
     * Add a node that has just been created to the arena; it is not settled yet, so it
     * joins the exceptions.
     */
    ghost method Register(item: Filelike, running: set<Filelike>)
      requires Valid() && Settled(running) && WellKinded(item) && Initial(item) && !InArena(item, dirs, files)
      modifies this`dirs, this`files
      ensures Valid() && Settled(running + {item}) && InArena(item, dirs, files) && item !in pending
      ensures dirs == old(dirs) + DirOf(item) && files == old(files) + FileOf(item)
    {
      match item {
        case DirNode(d) => dirs := dirs + {d};
        case FileNode(f) => files := files + {f};
      }
    }

    /**
     * `EnqueueJob`: count the job, then hand it over or run it inline.  Either way the
     * counter exceeds the number of pending jobs by as much as before: a handed-over job
     * adds one to both, an inline job is counted down when it finishes.
     */
    method EnqueueJob(item: Filelike, ghost running: set<Filelike>)
      requires Valid() && Settled(running + {item}) && counter >= |pending|
      requires InArena(item, dirs, files) && Initial(item) && item !in pending
      modifies this`counter, this`pending, this`dirs, this`files, DirOf(item)`children, FileOf(item)`sizeBytes
      ensures Valid() && Settled(running) && Grows() && old(pending) <= pending
      ensures counter - |pending| == old(counter - |pending|)
      ensures Done(item) || item in pending
      ensures Load(pending) <= Load(old(pending)) + Weight(item)
      decreases Height(InfoOf(item)), 4
    {
      counter := counter + 1;
      var sent: bool :| true;
      if sent {
        Send(item, running);
      } else {
        ProcessJob(item, running);
      }
    }

    /** The send on the channel succeeded: a worker will run the job later. */
    method Send(item: Filelike, ghost running: set<Filelike>)
      requires Valid() && Settled(running + {item})
      requires InArena(item, dirs, files) && Initial(item) && item !in pending
      modifies this`pending
      ensures Valid() && Settled(running) && pending == old(pending) + {item}
      ensures Load(pending) == Load(old(pending)) + Weight(item)
    {
      pending := pending + {item};
      assert pending - {item} == old(pending);
      LoadRemove(pending, item);
    }

    /** `processJob`: run the job, then count it down, exactly once. */
    method ProcessJob(item: Filelike, ghost running: set<Filelike>)
      requires Valid() && Settled(running + {item}) && counter > |pending|
      requires InArena(item, dirs, files) && Initial(item) && item !in pending
      modifies this`counter, this`pending, this`dirs, this`files, DirOf(item)`children, FileOf(item)`sizeBytes
      ensures Valid() && Settled(running) && Grows() && old(pending) <= pending
      ensures counter - |pending| == old(counter - |pending|) - 1
      ensures Done(item)
      ensures Load(pending) < Load(old(pending)) + Weight(item)
      decreases Height(InfoOf(item)), 3
    {
      ExamineFilelike(item, running);
      counter := counter - 1;
    }

    method ExamineFilelike(item: Filelike, ghost running: set<Filelike>)
      requires Valid() && Settled(running + {item}) && counter >= |pending|
      requires InArena(item, dirs, files) && Initial(item) && item !in pending
      modifies this`counter, this`pending, this`dirs, this`files, DirOf(item)`children, FileOf(item)`sizeBytes
      ensures Valid() && Settled(running) && Grows() && old(pending) <= pending
      ensures counter - |pending| == old(counter - |pending|)
      ensures Done(item)
      ensures Load(pending) < Load(old(pending)) + Weight(item)
      decreases Height(InfoOf(item)), 2
    {
      match item
      case DirNode(d) =>
        var _ := ExamineDir(d, running);
      case FileNode(f) =>
        ExamineFile(f);
        SettleFile(f, running);
    }

    /** A file whose job has run leaves the stack of running jobs. */
    lemma SettleFile(f: File, running: set<Filelike>)
      requires Settled(running + {FileNode(f)}) && FileDone(f)
      ensures Settled(running)
    {
      assert FileSettled(f, running);
    }

    /**
     * `examineDir`: an unreadable directory yields its error and changes nothing;
     * otherwise every entry that classifies to a node is appended as a child, in listing
     * order, and enqueued; the other entries are skipped without touching the counter.
     */
    method ExamineDir(dir: Dir, ghost running: set<Filelike>) returns (err: Option<Error>)
      requires Valid() && Settled(running + {DirNode(dir)}) && counter >= |pending|
      requires dir in dirs && dir.children == [] && DirNode(dir) !in pending
      modifies this`counter, this`pending, this`dirs, this`files, dir`children
      ensures Valid() && Settled(running) && Grows() && old(pending) <= pending
      ensures counter - |pending| == old(counter - |pending|)
      ensures dir.fileInfo.kind.listing.Unreadable? ==>
        && err == Some(dir.fileInfo.kind.listing.err) && dir.children == old(dir.children)
        && counter == old(counter) && pending == old(pending) && dirs == old(dirs) && files == old(files)
      ensures dir.fileInfo.kind.listing.Listed? ==> err == None
      ensures DirDone(dir)
      ensures Load(pending) < Load(old(pending)) + Count(dir.fileInfo)
      decreases Height(dir.fileInfo), 1
    {
      ghost var stack := running + {DirNode(dir)};
      if dir.fileInfo.kind.listing.Unreadable? {
        SettleDir(dir, running);
        return Some(dir.fileInfo.kind.listing.err);
      }
      var entries := dir.fileInfo.kind.listing.entries;
      var i := 0;
      while i < |entries|
        invariant 0 <= i <= |entries|
        invariant Valid() && Settled(stack) && Grows() && counter >= |pending| && old(pending) <= pending
        invariant counter - |pending| == old(counter - |pending|)
        invariant dir in dirs && DirNode(dir) !in pending
        invariant ChildrenMatch(dir.children, dir.relPath, Kept(entries[..i]))
        invariant Load(pending) <= Load(old(pending)) + EntriesCount(entries[..i])
      {
        ghost var childrenBefore := dir.children;
        label step:
        var child := ExamineEntry(dir, i, stack);
        forall d | d in dirs
          ensures d in old(dirs) || fresh(d)
        {
          assert d in old@step(dirs) || fresh@step(d);
        }
        forall f | f in files
          ensures f in old(files) || fresh(f)
        {
          assert f in old@step(files) || fresh@step(f);
        }
        KeptStep(childrenBefore, dir.children, dir.relPath, entries, i, child);
        i := i + 1;
      }
      assert entries[..|entries|] == entries;
      SettleDir(dir, running);
      return None;
    }

    /**
     * One iteration of the loop of `examineDir`, on its `i`-th entry: classify the entry;
     * a node is appended to the children and enqueued, anything else is skipped.
     */
    method ExamineEntry(dir: Dir, i: nat, ghost stack: set<Filelike>) returns (child: Option<Filelike>)
      requires IsListedDir(dir.fileInfo) && i < |dir.fileInfo.kind.listing.entries|
      requires Valid() && Settled(stack) && DirNode(dir) in stack && counter >= |pending|
      requires dir in dirs && DirNode(dir) !in pending
      modifies this`counter, this`pending, this`dirs, this`files, dir`children
      ensures Valid() && Settled(stack) && Grows() && counter >= |pending| && old(pending) <= pending
      ensures counter - |pending| == old(counter - |pending|)
      ensures dir in dirs && DirNode(dir) !in pending
      ensures var e := dir.fileInfo.kind.listing.entries[i];
        && (child.Some? <==> Classifiable(e.stat))
        && (child.Some? ==>
              && dir.children == old(dir.children) + [child.value]
              && GetPath(child.value) == Fs.Join(dir.relPath, e.name) && InfoOf(child.value) == e.stat.info)
        && (child.None? ==>
              && dir.children == old(dir.children) && counter == old(counter) && pending == old(pending)
              && dirs == old(dirs) && files == old(files))
        && Load(pending) <= Load(old(pending)) + (if child.Some? then Count(e.stat.info) else 0)
      decreases Height(dir.fileInfo), 0
    {
      var e := dir.fileInfo.kind.listing.entries[i];
      var c, err := CreateFileLike(Fs.Join(dir.relPath, e.name), e.stat);
      if err == None && c.Some? {
        EntryLower(dir.fileInfo, i);
        Adopt(dir, c.value, stack);
        ghost var children := dir.children;
        assert dir !in DirOf(c.value);
        label adopted:
        EnqueueJob(c.value, stack);
        assert dir.children == children;
        forall d | d in dirs
          ensures d in old(dirs) || fresh(d)
        {
          assert d in old@adopted(dirs) || fresh@adopted(d);
        }
        forall f | f in files
          ensures f in old(files) || fresh(f)
        {
          assert f in old@adopted(files) || fresh@adopted(f);
        }
        child := c;
      } else {
        child := None;
      }
    }

    /** A directory whose job has run leaves the stack of running jobs. */
    lemma SettleDir(d: Dir, running: set<Filelike>)
      requires Settled(running + {DirNode(d)}) && DirDone(d)
      ensures Settled(running)
    {
      assert DirSettled(d, running);
    }

    /**
     * `dir.Children = append(dir.Children, c)`, for a node `c` just created, lower than
     * `dir`, whose job is about to be enqueued.
     */
    method Adopt(dir: Dir, c: Filelike, ghost running: set<Filelike>)
      requires Valid() && Settled(running) && DirNode(dir) in running
      requires dir in dirs && DirNode(dir) !in pending
      requires WellKinded(c) && Initial(c) && !InArena(c, dirs, files)
      requires Height(InfoOf(c)) < Height(dir.fileInfo)
      modifies this`dirs, this`files, dir`children
      ensures Valid() && Settled(running + {c}) && InArena(c, dirs, files) && c !in pending
      ensures dirs == old(dirs) + DirOf(c) && files == old(files) + FileOf(c)
      ensures dir.children == old(dir.children) + [c]
    {
      Register(c, running);
      dir.children := dir.children + [c];
    }

    /** `examineFile`: fill in the stat size; nothing else changes. */
    method ExamineFile(file: File)
      modifies file`sizeBytes
      ensures FileDone(file)
    {
      file.sizeBytes := ToUint64(file.fileInfo.size);
    }

    /** `Worker.ProcessJobs`, sequentially: run pending jobs, in any order, until none is left. */
    method ProcessJobs()
      requires Valid() && Settled({}) && counter == |pending|
      modifies this`counter, this`pending, this`dirs, this`files, dirs`children, files`sizeBytes
      ensures Valid() && Settled({}) && Grows() && pending == {} && counter == 0
    {
      while pending != {}
        invariant Valid() && Settled({}) && Grows() && counter == |pending|
        decreases Load(pending)
      {
        var job := Receive();
        ProcessJob(job, {});
      }
    }

    /** A worker receives some pending job from the channel; it is now running. */
    method Receive() returns (job: Filelike)
      requires Valid() && Settled({}) && counter == |pending| && pending != {}
      modifies this`pending
      ensures Valid() && Settled({job}) && counter == |pending| + 1
      ensures job in old(pending) && pending == old(pending) - {job}
      ensures InArena(job, dirs, files) && Initial(job)
      ensures Load(old(pending)) == Weight(job) + Load(pending)
    {
      job :| job in pending;
      LoadRemove(pending, job);
      pending := pending - {job};
    }

    /**
     * `Join`: wait until the counter is zero (closing the channel is not modelled).  At
     * that point every node is done, and the size of every node is the reference size of
     * its subtree.
     */
    method Join()
      requires Valid() && Settled({}) && counter == |pending|
      modifies this`counter, this`pending, this`dirs, this`files, dirs`children, files`sizeBytes
      ensures Valid() && Grows() && counter == 0 && pending == {}
      ensures forall d | d in dirs :: DirDone(d) && d.GetByteSize(dirs, files) == DuSize(d.fileInfo)
      ensures forall f | f in files :: FileDone(f) && f.GetByteSize() == DuSize(f.fileInfo)
    {
      ProcessJobs();
      forall d | d in dirs
        ensures DirDone(d) && d.GetByteSize(dirs, files) == DuSize(d.fileInfo)
      {
        assert DirSettled(d, {});
        DoneSize(DirNode(d), dirs, files);
      }
      forall f | f in files
        ensures FileDone(f)
      {
        assert FileSettled(f, {});
      }
    }
  }

  /** Once every node of a closed arena is done, a node's lazy size is its reference size. */
  lemma {:induction false} DoneSize(n: Filelike, dirs: set<Dir>, files: set<File>)
    requires Closed(dirs, files) && InArena(n, dirs, files)
    requires forall d | d in dirs :: DirDone(d)
    requires forall f | f in files :: FileDone(f)
    ensures GetByteSize(n, dirs, files) == DuSize(InfoOf(n))
    decreases Height(InfoOf(n)), 1, 0
  {
    match n
    case FileNode(f) =>
      assert FileDone(f);
    case DirNode(d) =>
      assert DirDone(d);
      if IsListedDir(d.fileInfo) {
        var es := d.fileInfo.kind.listing.entries;
        SumMatches(d.children, d.relPath, Kept(es), dirs, files, Height(d.fileInfo));
        EntriesDuKept(es);
      }
  }

  lemma {:induction false} SumMatches(cs: seq<Filelike>, p: Path, ks: seq<Entry>, dirs: set<Dir>, files: set<File>, bound: nat)
    requires Closed(dirs, files)
    requires forall k | 0 <= k < |cs| :: InArena(cs[k], dirs, files) && Height(InfoOf(cs[k])) < bound
    requires forall d | d in dirs :: DirDone(d)
    requires forall f | f in files :: FileDone(f)
    requires ChildrenMatch(cs, p, ks)
    ensures SumSizes(cs, dirs, files, bound) == EntriesDu(ks)
    decreases bound, 0, |cs|
  {
    if cs != [] {
      var last := cs[|cs| - 1];
      SumMatches(cs[..|cs| - 1], p, ks[..|ks| - 1], dirs, files, bound);
      DoneSize(last, dirs, files);
    }
  }

  /**
   * The caller's side of the protocol: classify each root path, enqueue the roots that
   * yield a node, join, and read each root's size.  `nodes[j]` and `errs[j]` are what
   * the classifier returned for `roots[j]`.
   */
  method Traverse(roots: seq<(Path, StatResult)>) returns (q: JobQueue, nodes: seq<Option<Filelike>>, errs: seq<Option<Error>>)
    ensures |nodes| == |roots| && |errs| == |roots|
    ensures q.counter == 0 && q.pending == {} && Closed(q.dirs, q.files)
    ensures forall j | 0 <= j < |roots| ::
      && (errs[j].Some? <==> roots[j].1.StatFailed?)
      && (nodes[j].Some? <==> Classifiable(roots[j].1))
      && (nodes[j].Some? ==>
            && InArena(nodes[j].value, q.dirs, q.files)
            && GetPath(nodes[j].value) == roots[j].0
            && GetByteSize(nodes[j].value, q.dirs, q.files) == DuSize(roots[j].1.info))
  {
    q := new JobQueue();
    nodes, errs := [], [];
    var j := 0;
    while j < |roots|
      invariant 0 <= j <= |roots| && |nodes| == j && |errs| == j
      invariant fresh(q) && q.Valid() && q.Settled({}) && q.counter == |q.pending|
      invariant forall d | d in q.dirs :: fresh(d)
      invariant forall f | f in q.files :: fresh(f)
      invariant forall i | 0 <= i < j :: Submitted(q, roots[i], nodes[i], errs[i])
    {
      var node, err := Submit(q, roots[j].0, roots[j].1);
      nodes, errs := nodes + [node], errs + [err];
      j := j + 1;
    }
    q.Join();
    forall i | 0 <= i < |roots| && nodes[i].Some?
      ensures GetByteSize(nodes[i].value, q.dirs, q.files) == DuSize(roots[i].1.info)
    {
      assert Submitted(q, roots[i], nodes[i], errs[i]);
      DoneSize(nodes[i].value, q.dirs, q.files);
    }
  }

  /** What classifying and enqueuing `root` left behind: the classifier's answer, in the arena. */
  ghost predicate Submitted(q: JobQueue, root: (Path, StatResult), node: Option<Filelike>, err: Option<Error>)
    reads q`dirs, q`files
  {
    && (err.Some? <==> root.1.StatFailed?)
    && (node.Some? <==> Classifiable(root.1))
    && (node.Some? ==>
          InArena(node.value, q.dirs, q.files) && GetPath(node.value) == root.0 && InfoOf(node.value) == root.1.info)
  }

  /** One root: classify it and, when it yields a node, enqueue that node's job. */
  method Submit(q: JobQueue, path: Path, stat: StatResult) returns (node: Option<Filelike>, err: Option<Error>)
    requires q.Valid() && q.Settled({}) && q.counter == |q.pending|
    modifies q`counter, q`pending, q`dirs, q`files
    ensures q.Valid() && q.Settled({}) && q.counter == |q.pending| && q.Grows() && old(q.pending) <= q.pending
    ensures Submitted(q, (path, stat), node, err)
  {
    node, err := CreateFileLike(path, stat);
    if node.Some? {
      var n := node.value;
      assert !InArena(n, q.dirs, q.files);
      q.Register(n, {});
      label registered:
      q.EnqueueJob(n, {});
      forall d | d in q.dirs
        ensures d in old(q.dirs) || fresh(d)
      {
        assert d in old@registered(q.dirs) || fresh@registered(d);
      }
      forall f | f in q.files
        ensures f in old(q.files) || fresh(f)
      {
        assert f in old@registered(q.files) || fresh@registered(f);
      }
    }
  }
}
