# gdu — a verified model of a `du` clone

gdu prints the disk usage of the paths given on its command line. For each path it
classifies the path as a directory, a regular file or something else. It walks
directories recursively and sums the sizes of regular files. The repository holds two
traversals of the same filesystem tree:

- **A dispatcher** (lib/job.go over the node types of lib/types.go).
  - Each classified node becomes a job.
  - `EnqueueJob` counts the job on a `WaitGroup` and offers it on a channel. If no
    worker takes it, the job runs inline.
  - A directory's job lists the directory, appends each classified entry to the
    directory's children and enqueues it.
  - A file's job fills in the file's size.
  - A directory's size is never stored: `Dir.GetByteSize` recomputes it from the
    children on every call.
- **An older, eager traversal** (gdu.go).
  - `examinePath` and `examineDir` build value nodes.
  - They add each kept child's size to the directory's total while they walk.
  - With details on, each node is printed after its descendants.
  - `main` sums the roots' sizes, as they arrive from one goroutine per root, and
    prints the total last.

The model has four modules:

- `Fs` (fs.dfy) is the filesystem the traversals query. It is a finite, acyclic tree of
  `FileInfo` values, where a directory carries its listing or its listing error. The
  module also holds Go's `uint64`/`int64` and the wrapping `+`. It defines the
  reference size `DuSize`: regular files count their stat size, and readable
  directories count the wrapping sum over their entries.
- `Types` (types.dfy) models lib/types.go.
  - `File` and `Dir` are classes, because Go uses them through pointers.
  - `Filelike` is the sum of the two references.
  - `Dir.GetByteSize` is a recursive function over an arena of nodes.
- `Job` (job.dfy) models lib/job.go as a sequential state machine, the class
  `JobQueue`.
  - The `WaitGroup` is the field `counter` and the channel is the field `pending`.
  - Whether the non-blocking send succeeds is a free boolean in every call.
  - `ProcessJobs` stands for the workers: it drains `pending` in any order.
  - `running` is a ghost parameter: the jobs being run further up the call stack.
  - The class's ghost state is the arena of created nodes.
  - Once `Join` returns, every node's lazily computed size is its reference size,
    whatever the send choices were.
- `Eager` (eager.dfy) models gdu.go on its own value datatype.
  - Its methods are proved equal to reference functions (`ExpectedPath`,
    `ExpectedDir`) of the filesystem.
  - The printed lines are returned as a sequence and proved to be a post-order of the
    returned tree.
  - The eager totals are proved equal to `DuSize` and to the lazy recomputation of
    lib/types.go.
  - `main`'s total is proved independent of the order in which the roots' sizes arrive.

The foreign calls become parts of the filesystem value:

- `os.Stat(p)` is the `StatResult` attached to `p`: the roots' results are parameters,
  and each listing entry carries its own.
- `ioutil.ReadDir` is the `Listing` inside a directory's `FileInfo`.
- `filepath.Join` is the injective constructor `Fs.Child`.
- Output lines are `(size, path)` pairs returned in a sequence. Errors written to
  standard error are returned in their own sequence.

The files of the repository disagree with each other in two places; the model follows each file as written:

- gdu.go does not compile against lib/types.go as shown:
  - it sets the field `TotalSizeBytes`, but the field is unexported;
  - it treats `PrintDetails` as a `bool`, but lib/flags.go makes it a `SummaryType`.

  gdu.go is therefore modelled on its own datatype, whose `GetByteSize` reads the
  stored total. `Eager.EagerIsLazy` proves that the stored total equals the lazy sum
  lib/types.go would compute, so either reading gives the same sizes.
- The two traversals treat an entry for an unreadable directory differently:
  - lib/job.go keeps it as a child with no children, because `CreateFileLike` only
    stats and `examineFilelike` discards `examineDir`'s error;
  - gdu.go skips it, because `examineDir` returns an error and no node.

  Either way it contributes 0 to its parent's size, and both traversals are proved
  against the same `DuSize`.

## Model

| member | source | states |
|---|---|---|
| Fs.ToUint64 | lib/job.go:75 | `uint64(size)` of a non-negative `int64` is the same number; a negative one gains 2^64 |
| Fs.Add64 | lib/types.go:55 | the `uint64` `+=`: the exact sum when it is below 2^64, and the sum minus 2^64 when it overflows |
| Fs.KeptExactly | lib/job.go:63-70 | an entry is among the kept entries exactly when it is in the listing and its stat classifies to a directory or a regular file |
| Fs.EntriesDuKept | lib/job.go:65 | leaving out the entries that do not classify changes no wrapping sum of reference sizes |
| Fs.DuSizeIsRegularSum | lib/types.go:52-58 | the reference size of a subtree is the wrapping sum of the stat sizes of its regular files, in listing order, depth first |
| Fs.EntriesDuIsRegularSum | lib/types.go:53-57 | the same for a listing: the entries' summed reference sizes are the regular-file sizes below them, summed |
| Types.File.constructor | lib/types.go:16-22 | `NewFile` has the given path and metadata and size 0 |
| Types.Dir.constructor | lib/types.go:39-46 | `NewDir` has the given path and metadata, stored total 0 and no children |
| Types.GetPath | lib/types.go:24-50 | `GetPath` of either variant is that node's `RelPath`: `File.GetPath` (lines 24-26) and `Dir.GetPath` (lines 48-50) |
| Types.GetByteSize | lib/types.go:28-30 | `GetByteSize` of a file is exactly its `SizeBytes` |
| Types.SumSizes | lib/types.go:53-57 | the loop `sum += c.GetByteSize()` over no children gives 0, and over a single child gives that child's size |
| Types.Dir.GetByteSize | lib/types.go:52-58 | the size of a directory with no children is 0; its reads frame holds only the children lists and the file sizes, so the stored total plays no part and nothing is modified |
| Types.AppendChildSize | lib/job.go:66 | appending `c` to a directory's children raises the directory's `GetByteSize` by exactly `GetByteSize(c)`, modulo 2^64, when nothing else changes |
| Job.CreateFileLike | lib/job.go:10-27 | a failed stat gives no node and that error; a directory gives a fresh `Dir` with the path, the metadata and no children; a regular file gives a fresh `File` of size 0; any other kind gives neither node nor error |
| Job.KeptStep | lib/job.go:63-70 | after one more entry, the children are still the classified entries in listing order: one more exactly when the entry classified and its node was appended |
| Job.JobQueue.constructor | lib/job.go:29-32 | a new queue has counter 0, nothing pending and an empty arena, all of it settled |
| Job.JobQueue.EnqueueJob | lib/job.go:39-47 | whether the job is sent or run inline, the counter minus the number of pending jobs is unchanged afterwards, jobs already pending stay pending, the job is done or pending, and every node of the arena is still done, pending or running |
| Job.JobQueue.Send | lib/job.go:42 | a successful send adds the job to the pending set and nothing else |
| Job.JobQueue.ProcessJob | lib/job.go:78-81 | the job is done afterwards, jobs already pending stay pending, and the counter has dropped exactly once relative to the pending jobs, including when `examineDir`'s error is discarded |
| Job.JobQueue.ExamineFilelike | lib/job.go:49-56 | dispatches on the variant; afterwards the job's node is done, jobs already pending stay pending, and the counter relation is unchanged |
| Job.JobQueue.ExamineDir | lib/job.go:58-72 | an unreadable directory returns its error and changes nothing, neither children nor counter nor pending jobs nor arena; otherwise it returns no error and the children are exactly the classified entries, one node each in listing order, each with its joined path and its metadata; jobs already pending stay pending and the counter relation is unchanged |
| Job.JobQueue.ExamineEntry | lib/job.go:64-69 | one entry: it yields a node exactly when its stat classifies, then that node with the joined path and the entry's metadata is appended and enqueued, keeping the counter relation and every job already pending; a skipped entry changes nothing: neither the children, nor the counter, nor the pending jobs, nor the arena |
| Job.JobQueue.Adopt | lib/job.go:66 | `append` puts the new node last and changes no other child |
| Job.JobQueue.ExamineFile | lib/job.go:74-76 | the file's size becomes its stat size converted to `uint64`; only that field may change |
| Job.JobQueue.ProcessJobs | lib/job.go:93-97 | running pending jobs in any order ends with nothing pending, counter 0 and every node settled; the loop terminates because each job's subtree bounds the jobs it can create |
| Job.JobQueue.Receive | lib/job.go:94 | a worker takes some pending job, which leaves `pending` and becomes the one running job |
| Job.JobQueue.Join | lib/job.go:34-37 | after the wait, counter is 0, nothing is pending, every file has its stat size, and every node's `GetByteSize` is the reference size of its subtree |
| Job.DoneSize | lib/types.go:52-58 | once every node of the arena is done, `GetByteSize` of any node is the reference size of its metadata |
| Job.SumMatches | lib/types.go:53-57 | the loop sum over children that match the kept entries equals the entries' summed reference sizes |
| Job.Submit | lib/job.go:39-47 | a root is classified; when it yields a node, that node joins the arena with the root's path and metadata and is enqueued, the pending jobs of earlier roots stay pending, and the counter again equals the number of pending jobs |
| Job.Traverse | lib/job.go:10-47 | for each root: an error exactly when its stat fails, a node exactly when it classifies, and then that node's `GetByteSize` after `Join` is the reference size of its subtree, for every sequence of send choices |
| Eager.ExpectedPath | gdu.go:47-65 | a path yields a node or an error, never both: a node exactly for a regular file or a listable directory, with the given path; an error exactly when the stat or the listing fails, and the stat's own error when the stat fails |
| Eager.ExpectedDir | gdu.go:17-38 | an unreadable listing yields no node and its error; a listing yields a directory with the given path and no error |
| Eager.ExpectedChildren | gdu.go:30-36 | no more children than entries |
| Eager.ByteSize | gdu.go:33 | `GetByteSize` on gdu.go's own nodes: a file's stored size, a directory's stored total |
| Eager.ExamineFile | gdu.go:40-45 | a file node with the given path and the stat size converted by `uint64(...)` (the same number when it is not negative), and no error |
| Eager.ExaminePath | gdu.go:47-65 | returns exactly the reference outcome of the path, and prints exactly the post-order lines of the returned node when details are on, and nothing otherwise |
| Eager.ExamineDir | gdu.go:17-38 | returns exactly the reference outcome of the listing, and prints the lines of the kept children, in order, when details are on |
| Eager.Advance | gdu.go:30-36 | one more entry: a kept child adds its size to the total, is appended last, and appends its lines; a skipped one changes none of them |
| Eager.AppendStep | gdu.go:33-34 | appending a child adds its size to the wrapping sum and its lines after the earlier children's |
| Eager.ExpectedSize | gdu.go:47-65 | what a path contributes to its parent is the reference size of its subtree, and 0 when its stat fails |
| Eager.ChildrenSize | gdu.go:30-36 | a directory's eager total is the wrapping sum of its entries' reference sizes: skipped children add nothing |
| Eager.ExaminedExactly | gdu.go:31-32 | an entry is examined exactly when it is in the listing and its stat is a regular file or a listable directory |
| Eager.ChildrenFollowListing | gdu.go:30-36 | there is one child per examined entry, and the k-th child is the node that examining the k-th such entry yields: listing order is kept |
| Eager.ConsistentIsLazy | lib/types.go:52-58 | in a tree where every directory stores the sum of its children, the stored total is the lazily recomputed size |
| Eager.SumIsLazy | lib/types.go:53-57 | the same for a sequence of such trees |
| Eager.ExpectedConsistent | gdu.go:33-34 | every node `examinePath` returns stores in each directory the sum of its children |
| Eager.ChildrenConsistent | gdu.go:30-36 | every kept child is such a tree |
| Eager.EagerIsLazy | gdu.go:33 | the eager total of every returned node equals what `Dir.GetByteSize` of lib/types.go recomputes |
| Eager.Printed | gdu.go:60-62 | `examinePath` prints something exactly when details are on and it returns a node: one line per node of the subtree, the node's own path and size last |
| Eager.PostOrderShape | gdu.go:55-62 | a subtree prints exactly one line per node, and its own line last |
| Eager.TracesLength | gdu.go:30-36 | a sequence of subtrees prints one line per node |
| Eager.TracesAppend | gdu.go:30-36 | the lines of consecutive subtrees are each part's lines, in order |
| Eager.ChildBlock | gdu.go:55-62 | each child's lines form one block, after the blocks for the children listed before it, before those listed after it, and before the directory's own line |
| Eager.PrintedTrace | gdu.go:55-62 | with details on, a returned node prints one line per node of its subtree, the last being its own path with the size it contributes |
| Eager.RootSizes | gdu.go:117-130 | each root sends its size, and 0 when it errs or yields no node |
| Eager.RootTraceShape | gdu.go:119-128 | a root's goroutine prints something exactly when the root yields a node: its whole subtree with details on, its summary line alone otherwise, its own path and size last |
| Eager.RootErrorsExactly | gdu.go:119-121 | at most one error per root, and none exactly when no root's stat or listing fails |
| Eager.RootStep | gdu.go:115-131 | one more root appends its size, its lines and its error after those of the roots before it |
| Eager.RootDu | gdu.go:112-134 | one reference size per root |
| Eager.IndexSumRemove | gdu.go:132-134 | the sum of the sizes that arrive is the same whichever size arrives first |
| Eager.IndexSumAll | gdu.go:132-134 | summed over the first `n` roots in any order of arrival, the sizes give their left-to-right wrapping sum |
| Eager.IndexSumWhole | gdu.go:132-134 | the same over all roots |
| Eager.ReceiveStep | gdu.go:133 | receiving one more size keeps the sum of what has arrived and what is still to come |
| Eager.ReceiveSizes | gdu.go:132-134 | receiving every root's size, in whatever order, totals their wrapping sum |
| Eager.ExamineRoots | gdu.go:115-131 | per root in order: the size sent, the lines printed (details, or the summary line when details are off) and the error reported |
| Eager.Summarize | gdu.go:112-136 | the total is the wrapping sum of the roots' sizes and is printed after every root's lines; the errors are those of the failing roots, in order |
| Eager.TotalIsDu | gdu.go:112-134 | the printed total is the wrapping sum of the roots' reference sizes, with 0 for a root whose stat fails |

## Left out

- Goroutines, channels, `sync.WaitGroup` blocking and worker scheduling. In the
  dispatcher these are a sequential state machine: a free send choice, an inline
  recursive call, and a drain loop that takes pending jobs in any order. gdu.go's one
  goroutine per root is run in root order. Only the arrival order of the roots' sizes
  is left free.
- Interleaving of output lines from concurrent gdu.go goroutines. Lines are modelled
  in root order.
- Job.JobQueue.Send: the channel holds a set, not a FIFO queue. Every job is a node
  allocated just before it is sent, so no job can be pending twice. Receive order is
  free, which covers every FIFO order.
- Job.JobQueue.EnqueueJob: the counter invariant is stated as the counter minus the
  number of pending jobs being preserved, and as the counter equalling the number of
  pending jobs when no job runs. That difference is
  the number of jobs in progress; the model does not name it as a separate quantity.
- `toHumanReadableSize` (gdu.go:75-101), because it uses floating-point `Log10`, `Pow`
  and `Sprintf`. The line format of `printEntry` (gdu.go:67-73) is left out too; a line
  is the pair (size, path).
- `close(q.JobQueue)` in `Join` (lib/job.go:36): nothing in the model reads whether the
  channel is closed, so the channel has no closed state.
- `fmt.Fprintf(os.Stderr, ...)`: errors are returned as a sequence, not written.
- `os.Stat`, `ioutil.ReadDir` and `filepath.Join`: these are foreign calls, replaced by
  the filesystem value. Because the tree is finite and acyclic, symbolic-link cycles,
  which make the Go code recurse forever, are not modelled.
- A filesystem that changes during the traversal. A directory's listing is part of its
  metadata, so it is the same whenever it is read.
- Flag parsing in `main` (gdu.go:104-110) and lib/flags.go. `printDetails` is a
  parameter instead.
- Job.Traverse is a driver of the dispatcher: none of the files shown calls lib/job.go.
  It creates the queue, classifies and enqueues each root,
  then joins, and it states the end-to-end property.
- Job.JobQueue.Register, Job.JobQueue.Adopt, Job.JobQueue.Send, Job.JobQueue.Receive,
  Job.JobQueue.ExamineEntry and Job.Submit split the Go functions into smaller steps.
  Register only updates the ghost arena.
- Eager.ExpectedChildren: its own contract only bounds the number of children. Their
  exact identity and order are stated by Eager.ChildrenFollowListing, and their total
  by Eager.ChildrenSize.
