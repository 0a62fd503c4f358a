# desktop_drop (macOS): a verified model of the drop handler

This project models the core of the macOS side of the `desktop_drop` Flutter
plugin, in `macos/desktop_drop/Sources/desktop_drop/DesktopDropPlugin.swift`:

- `findFlutterViewController`: a depth-first search of the window's
  view-controller tree for the Flutter view controller. It is modelled in
  `flutter_views.dfy` as a recursive function over a rose-tree datatype.
- `DropTarget.performDragOperation`: the handler that runs when files are
  dropped on the Flutter view. It reads the pasteboard's file URLs, legacy
  filename list and file-promise receivers. It announces an item count at
  once with `dropReceived`. Then it claims each path in a `seen` set, so
  that a repeated path yields nothing. Each new path is enriched with its
  directory flag and a security-scoped bookmark, and the batch goes out with
  `performOperation_macos`. Concrete file references take precedence over
  promises.
  - `drop_items.dfy` models `processURL` and the deduplication.
  - `drop_target.dfy` models the payload, the count, the two collection
    passes, the channel and the `DropTarget` class.

The operating-system calls are oracle functions in `DropItems.Env`:
- the `isDirectory` stat (`None` when it fails);
- bookmark minting (`None` when it fails);
- `URL(fileURLWithPath:).path` for legacy names;
- the container root and temporary-directory paths.

A file promise is abstracted to its outcome: `Failed`, or `Materialized(name)`
for a file written into the drop's destination directory.

Each pass is specified by a reference function. `DropItems.Enrich` is a
first-occurrence deduplication followed by `Describe`, and
`DropOperation.Batch` is the batch for a whole payload. Both loops are proved
to compute these functions. The properties the source promises are proved
about them as lemmas.

Notes on the source:
- The batch message is named `performOperation_macos`.
- In the concrete branch the delivered order is the index order of the
  combined list (URLs, then legacy names). Only the choice of which
  occurrence of a repeated path survives depends on scheduling.
- The condition "any URL or legacy name" is tested twice, once for the count
  (line 139) and once for the branch (line 198). `HasConcrete` is that
  condition.
- Promised files are written into `uniqueDropDestination()`, a directory
  `Drops/<stamp>` inside the temporary directory. `DropDestination` models
  its path, and a promise outcome names the file written there.

## Model

| member | source | states |
|---|---|---|
| `FlutterViews.FindFlutterViewController` | macos/desktop_drop/Sources/desktop_drop/DesktopDropPlugin.swift:4-18 | nil for a nil root. The root itself when it is a Flutter view controller. Otherwise the first Flutter controller in depth-first, pre-order, child-order traversal. nil exactly when no node of the tree is one. |
| `FlutterViews.FindIsFirstInPreorder` | macos/desktop_drop/Sources/desktop_drop/DesktopDropPlugin.swift:4-18 | The recursive search with early return equals the first match of the pre-order listing of the tree. |
| `FlutterViews.FindAmongIsFirstInPreorder` | macos/desktop_drop/Sources/desktop_drop/DesktopDropPlugin.swift:11-17 | The loop over children returns the first match among the children's subtrees taken in order, or nil when none matches. |
| `FlutterViews.Find` | macos/desktop_drop/Sources/desktop_drop/DesktopDropPlugin.swift:4-18 | The search as written: a Flutter controller returns itself. Any result it gives is a Flutter view controller. |
| `FlutterViews.FindAmong` | macos/desktop_drop/Sources/desktop_drop/DesktopDropPlugin.swift:11-17 | The loop over children with early return: no children gives nil. Any result it gives is a Flutter view controller. |
| `DropItems.Describe` | macos/desktop_drop/Sources/desktop_drop/DesktopDropPlugin.swift:175-194 | The bookmark is null when the path has the container root or the temp path as a plain string prefix. Otherwise it is the minted bookmark, or null when minting fails. `isDirectory` is true only when the stat succeeds and reports a directory. |
| `DropItems.HasPrefix` | macos/desktop_drop/Sources/desktop_drop/DesktopDropPlugin.swift:179 | `hasPrefix` as a plain prefix test: the string is the prefix followed by a remainder. |
| `DropItems.IsInsideContainer` | macos/desktop_drop/Sources/desktop_drop/DesktopDropPlugin.swift:179 | A path is inside when the container root or the temp path is a prefix of it. An empty root puts every path inside, and a path shorter than both roots is never inside. |
| `DropItems.UnderRootIsInside` | macos/desktop_drop/Sources/desktop_drop/DesktopDropPlugin.swift:179 | Every path spelled as the container root or the temp path followed by anything counts as inside, and its descriptor has a null bookmark. |
| `DropItems.ProcessURL` | macos/desktop_drop/Sources/desktop_drop/DesktopDropPlugin.swift:166-195 | The path is added to `seen`. The result is nil exactly when the path was already there, and otherwise it is the path's descriptor. |
| `DropItems.EnrichPaths` | macos/desktop_drop/Sources/desktop_drop/DesktopDropPlugin.swift:200-211 | The set of delivered paths equals the set of input paths: only duplicates are dropped. |
| `DropItems.EnrichUnique` | macos/desktop_drop/Sources/desktop_drop/DesktopDropPlugin.swift:170-173 | No two delivered items share a path. |
| `DropItems.EnrichDescribes` | macos/desktop_drop/Sources/desktop_drop/DesktopDropPlugin.swift:176-193 | Every delivered item is its own path's descriptor and carries the pass's `fromPromise` flag. |
| `DropItems.EnrichLength` | macos/desktop_drop/Sources/desktop_drop/DesktopDropPlugin.swift:204-211 | There are at most as many items as input paths. The counts are equal exactly when no path repeats. |
| `DropItems.Somes` | macos/desktop_drop/Sources/desktop_drop/DesktopDropPlugin.swift:211 | `compactMap { $0 }`: never longer than its input. It keeps every present value and only present values. |
| `DropItems.SomesAppend` | macos/desktop_drop/Sources/desktop_drop/DesktopDropPlugin.swift:211 | Compaction distributes over concatenation. Together with the one-element case, the present values are kept in their order and with their multiplicity, and absent ones are dropped. |
| `DropOperation.ConcretePaths` | macos/desktop_drop/Sources/desktop_drop/DesktopDropPlugin.swift:200 | The combined list is the URLs followed by the converted legacy names, in order. |
| `DropOperation.HasConcrete` | macos/desktop_drop/Sources/desktop_drop/DesktopDropPlugin.swift:139 | The branch condition holds exactly when the combined count of URLs and legacy names is positive. |
| `DropOperation.DropDestination` | macos/desktop_drop/Sources/desktop_drop/DesktopDropPlugin.swift:108-117 | The per-drop promise directory `Drops/<stamp>` lies under the temp path. |
| `DropOperation.ItemCount` | macos/desktop_drop/Sources/desktop_drop/DesktopDropPlugin.swift:138-143 | When either list is non-empty, the count is URLs plus legacy names, and it is positive. Otherwise it is the receiver count, or 0 when no receivers were read. |
| `DropOperation.MaterializedPathsFacts` | macos/desktop_drop/Sources/desktop_drop/DesktopDropPlugin.swift:215-224 | Every materialised file's path in the destination is handed over, and every handed-over path is some materialised file's path. Failed receivers contribute nothing, and all paths lie under the destination. |
| `DropOperation.MaterializedPathsLength` | macos/desktop_drop/Sources/desktop_drop/DesktopDropPlugin.swift:215-224 | There are at most as many written paths as receivers, and as many exactly when every receiver succeeded. |
| `DropOperation.CollectConcrete` | macos/desktop_drop/Sources/desktop_drop/DesktopDropPlugin.swift:198-211 | The pre-allocated results array, filled slot by slot through `processURL` and then compacted, is the first-occurrence dedup-and-enrich of the combined list with `fromPromise` false. |
| `DropOperation.CollectPromises` | macos/desktop_drop/Sources/desktop_drop/DesktopDropPlugin.swift:215-229 | Appending each new materialised file yields the dedup-and-enrich of the materialised paths with `fromPromise` true. |
| `DropOperation.Channel.InvokeMethod` | macos/desktop_drop/Sources/desktop_drop/DesktopDropPlugin.swift:147 | A message is appended to the channel's log and nothing else changes. |
| `DropOperation.DropTarget.constructor` | macos/desktop_drop/Sources/desktop_drop/DesktopDropPlugin.swift:84-87 | The drop target keeps the channel it is given. |
| `DropOperation.DropTarget.PerformDragOperation` | macos/desktop_drop/Sources/desktop_drop/DesktopDropPlugin.swift:126-243 | The drop is always accepted. The log gains a `dropReceived` message carrying the item count first. When the view still exists, a `performOperation_macos` message with exactly the reference batch follows it, and nothing else is sent. |
| `DropOperation.BatchOrigin` | macos/desktop_drop/Sources/desktop_drop/DesktopDropPlugin.swift:197-224 | With any URL or legacy name, promises are ignored. Every item then has `fromPromise` false, and the delivered paths are exactly the combined input paths. Otherwise every item has `fromPromise` true. |
| `DropOperation.PromiseBatchPaths` | macos/desktop_drop/Sources/desktop_drop/DesktopDropPlugin.swift:215-229 | In the promise branch, a path is delivered exactly when it is the destination path of a file some receiver materialised. Receivers that report an error contribute nothing. |
| `DropOperation.PromiseItemsUnbookmarked` | macos/desktop_drop/Sources/desktop_drop/DesktopDropPlugin.swift:218-224 | Every item of the promise branch comes from a promise, lies in the drop's destination directory and has a null bookmark, because that directory lies under the temp path. |
| `DropOperation.BatchUnique` | macos/desktop_drop/Sources/desktop_drop/DesktopDropPlugin.swift:166-211 | No two items of the delivered batch share a path, in either branch. |
| `DropOperation.BatchDescriptors` | macos/desktop_drop/Sources/desktop_drop/DesktopDropPlugin.swift:176-187 | Every delivered item obeys the bookmark rule (null inside the container or temp area, otherwise the minted result) and the stat default (`isDirectory` false unless the stat reports a directory). |
| `DropOperation.BatchCount` | macos/desktop_drop/Sources/desktop_drop/DesktopDropPlugin.swift:138-229 | The batch never exceeds the announced count. In the concrete branch they are equal exactly when no path repeats. In the promise branch they are equal exactly when every receiver succeeded and no materialised path repeats. |

## Left out

- Concurrency: `DispatchQueue.concurrentPerform`, the background and main-queue hops, `DispatchGroup`, `NSLock` and the promise `OperationQueue` are left out. Both passes are sequential loops. Under the real fan-out, which occurrence of a repeated path survives is not determined. The model keeps the first occurrence, which is a sequential refinement. The set-level and count-level facts (`EnrichPaths`, `EnrichUnique`, `EnrichLength`) hold whichever occurrence survives.
- DropOperation.DropTarget.PerformDragOperation: the model appends `dropReceived` and the batch to the log in one step, so they are adjacent. In the source, `performDragOperation` returns at once, and the batch is sent later from `DispatchQueue.main.async` (lines 151 and 238). So other channel messages can come between a drop's `dropReceived` and its batch: a later drag's `entered`, `updated` and `exited` messages (lines 94, 99, 104), or another drop's `dropReceived` and batch. The batches of overlapping drops can also arrive in either order. The model promises only the order within one drop: the notice, then that drop's batch.
- Promise order: promise completions arrive in any order. The model appends them in receiver order.
- Multi-file promises: a receiver that promises several files calls its completion block once per file. The model abstracts each receiver to one completion, either an error or one written file. This hides two consequences of the source for multi-file receivers:
  - `group.enter()` runs once per receiver (line 217) but `group.leave()` once per completion (line 219). Once the leaves of one receiver outnumber the enters still outstanding, `group.wait()` (line 235) can return before every file is processed. A leave that takes the group's count below zero is an unbalanced `leave()`, which `DispatchGroup` treats as a fatal error and which stops the app.
  - The promise-branch batch can hold more items than `itemCount = receivers.count` (line 142).
- BatchCount: its promise-branch bound `|batch| <= itemCount` holds only because each receiver is modelled with one completion; with multi-file receivers the source can exceed it.
- PromiseBatchPaths: it describes the paths of one completion per receiver; further files of a multi-file receiver are not modelled.
- Pasteboard reading is an input (`Payload`). The URLs are represented by their paths.
- Foundation calls are oracle functions of `Env`: `resourceValues`, `bookmarkData` and `URL(fileURLWithPath:)`. So are the bundle-identifier, home-directory and temporary-directory lookups that produce the container root and the temp path.
- `uniqueDropDestination` (lines 108-117): date formatting and directory creation are left out. The formatted stamp is an input (`Env.dropStamp`), and only the resulting path is modelled (`DropDestination`). The OS is taken to report each promised file at `<destination>/<file name>`, spelled with the same temp path as line 163.
- `convertPoint` (lines 245-247) is left out because it is floating-point arithmetic on the view bounds. The drop location is an opaque `Point` input.
- `DesktopDropPlugin.register` (lines 21-44) and `handle` (lines 46-75) are left out. They are Flutter channel and view plumbing, and wrappers over security-scoped bookmark resolution.
- The `draggingEntered`, `draggingUpdated` and `draggingExited` callbacks (lines 93-105) are left out. They only forward a message to the channel.
- Logging (`debugPrint` of a promise error) is left out.
- A hung promise is left out. It would block the source's `group.wait()` forever, whereas the model's promise outcomes are always already known.
- DropItems.Describe: the container test uses `HasPrefix`, which compares code points one by one. Swift's `String.hasPrefix` compares grapheme clusters up to canonical equivalence. So a precomposed `é` and `e` followed by U+0301 differ in the model but match in Swift. Also, `"e\u{301}x"` starts with `"e"` in the model but not in Swift. The bookmark rule is therefore stated for code-point prefixes.
