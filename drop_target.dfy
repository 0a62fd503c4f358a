/**
  `DropTarget.performDragOperation`: classify the pasteboard payload, announce
  the item count at once, run the dedup-and-enrich pass over either the
  concrete file references or the file promises, and deliver the batch.

  The background hop, the parallel fan-out and the lock are sequentialised:
  the concrete pass handles indices in increasing order, so of a repeated
  path the first occurrence is the one kept (a refinement of the source, in
  which any one occurrence may be kept).
 */
module DropOperation {
  import opened Wrappers
  import opened DropItems

  /** How one file promise ended: its completion block received an error, or
      the file was written into the drop's destination directory under this
      name. */
  datatype PromiseOutcome = Failed(error: string) | Materialized(fileName: string)

  /** What `performDragOperation` reads from the pasteboard: the file URLs (by
      their paths), the legacy `NSFilenamesPboardType` names, and the promise
      receivers, which are nil when the read fails. */
  datatype Payload = Payload(urls: seq<string>, legacy: seq<string>, receivers: Option<seq<PromiseOutcome>>)

  /** A surface-local drop location (the result of `convertPoint`). */
  datatype Point = Point(x: real, y: real)

  /** The path of `uniqueDropDestination()`: `Drops/<stamp>` inside the
      temporary directory, so it always lies under the temp path that the
      bookmark rule tests. */
  function DropDestination(env: Env): (dest: string)
    ensures HasPrefix(dest, env.tmpPath)
  {
    HasPrefixOfAppend(env.tmpPath, "/Drops/" + env.dropStamp);
    env.tmpPath + "/Drops/" + env.dropStamp
  }

  /** A message sent on the `desktop_drop` channel by this handler. */
  datatype Event = DropReceived(itemCount: nat, location: Point) | PerformOperation(items: seq<Item>)
  {
    /** The channel method name. */
    function Method(): string {
      match this
      case DropReceived(_, _) => "dropReceived"
      case PerformOperation(_) => "performOperation_macos"
    }
  }

  /** The payload carries at least one concrete file reference. */
  predicate HasConcrete(p: Payload)
    ensures HasConcrete(p) <==> |p.urls| + |p.legacy| > 0
  {
    p.urls != [] || p.legacy != []
  }

  /** `urls + legacyList.map { URL(fileURLWithPath: $0) }`, by path. */
  function ConcretePaths(env: Env, p: Payload): (paths: seq<string>)
    ensures |paths| == |p.urls| + |p.legacy|
    ensures paths[..|p.urls|] == p.urls
    ensures forall i :: 0 <= i < |p.legacy| ==> paths[|p.urls| + i] == env.fileURLPath(p.legacy[i])
  {
    p.urls + seq(|p.legacy|, i requires 0 <= i < |p.legacy| => env.fileURLPath(p.legacy[i]))
  }

  /** The count announced in `dropReceived`: the concrete references when
      there are any, otherwise the promise receivers, and 0 without either. */
  function ItemCount(p: Payload): (n: nat)
    ensures HasConcrete(p) ==> n == |p.urls| + |p.legacy| && n > 0
    ensures !HasConcrete(p) && p.receivers.Some? ==> n == |p.receivers.value|
    ensures !HasConcrete(p) && p.receivers.None? ==> n == 0
  {
    if HasConcrete(p) then |p.urls| + |p.legacy|
    else match p.receivers
      case Some(rs) => |rs|
      case None => 0
  }

  /** The paths of the promised files that were written into `dest`, in
      receiver order. */
  function MaterializedPaths(dest: string, rs: seq<PromiseOutcome>): seq<string>
    decreases |rs|
  {
    if rs == [] then []
    else
      var init := rs[..|rs| - 1];
      MaterializedPaths(dest, init) + (match rs[|rs| - 1] case Materialized(name) => [dest + "/" + name] case Failed(_) => [])
  }

  lemma MaterializedPathsSnoc(dest: string, rs: seq<PromiseOutcome>, r: PromiseOutcome)
    ensures MaterializedPaths(dest, rs + [r])
      == MaterializedPaths(dest, rs) + (match r case Materialized(name) => [dest + "/" + name] case Failed(_) => [])
  {
    assert (rs + [r])[..|rs|] == rs;
  }

  /** Reference definition of the delivered batch. */
  function Batch(env: Env, p: Payload): seq<Item> {
    if HasConcrete(p) then Enrich(env, ConcretePaths(env, p), false)
    else match p.receivers
      case Some(rs) => Enrich(env, MaterializedPaths(DropDestination(env), rs), true)
      case None => []
  }

  /** Failed promises contribute no path; each written file contributes its
      path inside `dest`, and nothing else is contributed. */
  lemma {:induction false} MaterializedPathsFacts(dest: string, rs: seq<PromiseOutcome>)
    ensures forall name :: Materialized(name) in rs ==> dest + "/" + name in MaterializedPaths(dest, rs)
    ensures forall x :: x in MaterializedPaths(dest, rs) ==>
      exists name :: Materialized(name) in rs && x == dest + "/" + name
    ensures forall x :: x in MaterializedPaths(dest, rs) ==> HasPrefix(x, dest)
    decreases |rs|
  {
    if rs != [] {
      var init := rs[..|rs| - 1];
      var last := rs[|rs| - 1];
      MaterializedPathsFacts(dest, init);
      assert rs == init + [last];
      if last.Materialized? {
        HasPrefixOfAppend(dest, "/" + last.fileName);
        assert dest + "/" + last.fileName == dest + ("/" + last.fileName);
      }
    }
  }

  /** There are never more written paths than receivers, and as many exactly
      when every promise was written. */
  lemma {:induction false} MaterializedPathsLength(dest: string, rs: seq<PromiseOutcome>)
    ensures |MaterializedPaths(dest, rs)| <= |rs|
    ensures |MaterializedPaths(dest, rs)| == |rs| <==> forall i :: 0 <= i < |rs| ==> rs[i].Materialized?
    decreases |rs|
  {
    if rs != [] {
      var init := rs[..|rs| - 1];
      var last := rs[|rs| - 1];
      MaterializedPathsLength(dest, init);
      assert forall i :: 0 <= i < |init| ==> rs[i] == init[i];
      if last.Materialized? {
        assert |MaterializedPaths(dest, rs)| == |MaterializedPaths(dest, init)| + 1;
        if |MaterializedPaths(dest, init)| < |init| {
          var i :| 0 <= i < |init| && !init[i].Materialized?;
          assert !rs[i].Materialized?;
        }
      } else {
        assert |MaterializedPaths(dest, rs)| == |MaterializedPaths(dest, init)|;
      }
    }
  }

  /** One slot of the concrete pass: the compacted slots so far, extended by
      the next slot, are the dedup-and-enrich of one more path. */
  lemma ConcreteStep(env: Env, allURLs: seq<string>, index: nat, before: seq<Option<Item>>, item: Option<Item>)
    requires index < |allURLs|
    requires Somes(before) == Enrich(env, allURLs[..index], false)
    requires item == if allURLs[index] in allURLs[..index] then None else Some(Describe(env, allURLs[index], false))
    ensures Somes(before + [item]) == Enrich(env, allURLs[..index + 1], false)
    ensures Elems(allURLs[..index]) + {allURLs[index]} == Elems(allURLs[..index + 1])
  {
    assert allURLs[..index + 1] == allURLs[..index] + [allURLs[index]];
    SomesSnoc(before, item);
    EnrichSnoc(env, allURLs[..index], allURLs[index], false);
  }

  /** The concrete pass: `results` is pre-allocated with nil, slot `index`
      receives `processURL(allURLs[index], fromPromise: false)`, and the batch
      is `results.compactMap { $0 }`. */
  method CollectConcrete(env: Env, allURLs: seq<string>) returns (items: seq<Item>)
    ensures items == Enrich(env, allURLs, false)
  {
    var n := |allURLs|;
    var results := new Option<Item>[n](_ => None);
    var seen: set<string> := {};
    for index := 0 to n
      invariant seen == Elems(allURLs[..index])
      invariant Somes(results[..index]) == Enrich(env, allURLs[..index], false)
    {
      ghost var before := results[..index];
      var item;
      item, seen := ProcessURL(env, allURLs[index], false, seen);
      results[index] := item;
      assert results[..index + 1] == before + [item];
      ConcreteStep(env, allURLs, index, before, item);
    }
    assert results[..] == results[..n];
    assert allURLs[..n] == allURLs;
    items := Somes(results[..]);
  }

  /** The promise pass: each receiver's completion either reports an error
      (nothing is added) or hands over the written file, which goes through
      `processURL(url, fromPromise: true)` and is appended when new. */
  method CollectPromises(env: Env, receivers: seq<PromiseOutcome>) returns (items: seq<Item>)
    ensures items == Enrich(env, MaterializedPaths(DropDestination(env), receivers), true)
  {
    var dest := DropDestination(env);
    items := [];
    var seen: set<string> := {};
    for i := 0 to |receivers|
      invariant seen == Elems(MaterializedPaths(dest, receivers[..i]))
      invariant items == Enrich(env, MaterializedPaths(dest, receivers[..i]), true)
    {
      ghost var done := MaterializedPaths(dest, receivers[..i]);
      MaterializedPathsSnoc(dest, receivers[..i], receivers[i]);
      assert receivers[..i + 1] == receivers[..i] + [receivers[i]];
      match receivers[i]
      case Failed(_) =>
        assert MaterializedPaths(dest, receivers[..i + 1]) == done;
      case Materialized(name) =>
        var path := dest + "/" + name;
        assert MaterializedPaths(dest, receivers[..i + 1]) == done + [path];
        var item;
        item, seen := ProcessURL(env, path, true, seen);
        EnrichSnoc(env, done, path, true);
        if item.Some? {
          items := items + [item.value];
        }
    }
    assert receivers[..|receivers|] == receivers;
  }

  /** The channel to the Dart side; only the order of messages is modelled. */
  class Channel {
    var log: seq<Event>

    constructor ()
      ensures log == []
    {
      log := [];
    }

    method InvokeMethod(e: Event)
      modifies this
      ensures log == old(log) + [e]
    {
      log := log + [e];
    }
  }

  class DropTarget {
    const channel: Channel

    constructor (channel: Channel)
      ensures this.channel == channel
    {
      this.channel := channel;
    }

    /** `performDragOperation`. `targetAlive` says whether the view still
        exists when the background work starts (`[weak self]`): when it does
        not, the batch is never sent. The method always accepts the drop. */
    method PerformDragOperation(env: Env, payload: Payload, location: Point, targetAlive: bool)
      returns (accepted: bool)
      modifies channel
      ensures accepted
      ensures channel.log == old(channel.log) + [DropReceived(ItemCount(payload), location)]
        + (if targetAlive then [PerformOperation(Batch(env, payload))] else [])
      ensures channel.log[|old(channel.log)|].Method() == "dropReceived"
      ensures targetAlive ==> channel.log[|old(channel.log)| + 1].Method() == "performOperation_macos"
    {
      var itemCount: nat;
      if payload.urls != [] || payload.legacy != [] {
        itemCount := |payload.urls| + |payload.legacy|;
      } else {
        itemCount := if payload.receivers.Some? then |payload.receivers.value| else 0;
      }
      channel.InvokeMethod(DropReceived(itemCount, location));
      if !targetAlive {
        return true;
      }
      var items: seq<Item> := [];
      if payload.urls != [] || payload.legacy != [] {
        items := CollectConcrete(env, ConcretePaths(env, payload));
      } else if payload.receivers.Some? && payload.receivers.value != [] {
        items := CollectPromises(env, payload.receivers.value);
      }
      channel.InvokeMethod(PerformOperation(items));
      return true;
    }
  }

  /** Precedence: with any concrete reference the promises are ignored and no
      item comes from a promise; otherwise every item comes from a promise. */
  lemma BatchOrigin(env: Env, p: Payload)
    ensures HasConcrete(p) ==> forall it :: it in Batch(env, p) ==> !it.fromPromise
    ensures HasConcrete(p) ==> PathSet(Batch(env, p)) == Elems(ConcretePaths(env, p))
    ensures !HasConcrete(p) ==> forall it :: it in Batch(env, p) ==> it.fromPromise
  {
    if HasConcrete(p) {
      EnrichDescribes(env, ConcretePaths(env, p), false);
      EnrichPaths(env, ConcretePaths(env, p), false);
    } else if p.receivers.Some? {
      EnrichDescribes(env, MaterializedPaths(DropDestination(env), p.receivers.value), true);
    }
  }

  /** In the promise branch the delivered paths are exactly those of the
      files that were written into the drop's destination; failed promises
      contribute nothing. */
  lemma PromiseBatchPaths(env: Env, p: Payload)
    requires !HasConcrete(p) && p.receivers.Some?
    ensures forall name :: Materialized(name) in p.receivers.value ==>
      DropDestination(env) + "/" + name in PathSet(Batch(env, p))
    ensures forall x :: x in PathSet(Batch(env, p)) ==>
      exists name :: Materialized(name) in p.receivers.value && x == DropDestination(env) + "/" + name
  {
    EnrichPaths(env, MaterializedPaths(DropDestination(env), p.receivers.value), true);
    MaterializedPathsFacts(DropDestination(env), p.receivers.value);
  }

  /** Promised files are written under the temporary directory, so every
      item of the promise branch carries a null bookmark. */
  lemma PromiseItemsUnbookmarked(env: Env, p: Payload)
    requires !HasConcrete(p)
    ensures forall it :: it in Batch(env, p) ==>
      it.fromPromise && it.bookmark == None && HasPrefix(it.path, DropDestination(env))
  {
    if p.receivers.Some? {
      var dest := DropDestination(env);
      var paths := MaterializedPaths(dest, p.receivers.value);
      EnrichDescribes(env, paths, true);
      EnrichPaths(env, paths, true);
      MaterializedPathsFacts(dest, p.receivers.value);
      forall it | it in Batch(env, p)
        ensures it.fromPromise && it.bookmark == None && HasPrefix(it.path, dest)
      {
        assert it.path in PathSet(Batch(env, p));
        HasPrefixTransitive(it.path, dest, env.tmpPath);
      }
    }
  }

  /** No two delivered items share a path. */
  lemma BatchUnique(env: Env, p: Payload)
    ensures UniquePaths(Batch(env, p))
  {
    if HasConcrete(p) {
      EnrichUnique(env, ConcretePaths(env, p), false);
    } else if p.receivers.Some? {
      EnrichUnique(env, MaterializedPaths(DropDestination(env), p.receivers.value), true);
    }
  }

  /** Sandbox-local suppression and the stat default hold for every item. */
  lemma BatchDescriptors(env: Env, p: Payload)
    ensures forall it :: it in Batch(env, p) ==>
      (IsInsideContainer(env, it.path) ==> it.bookmark == None) &&
      (!IsInsideContainer(env, it.path) ==> it.bookmark == env.bookmarkOf(it.path)) &&
      (it.isDirectory <==> env.isDirectoryOf(it.path) == Some(true))
  {
    if HasConcrete(p) {
      EnrichDescribes(env, ConcretePaths(env, p), false);
    } else if p.receivers.Some? {
      EnrichDescribes(env, MaterializedPaths(DropDestination(env), p.receivers.value), true);
    }
  }

  /** The announced count bounds the batch. In the concrete branch they are
      equal exactly when no path repeats; in the promise branch exactly when
      every promise was written and no path repeats. */
  lemma BatchCount(env: Env, p: Payload)
    ensures |Batch(env, p)| <= ItemCount(p)
    ensures HasConcrete(p) ==>
      (|Batch(env, p)| == ItemCount(p) <==> NoDuplicates(ConcretePaths(env, p)))
    ensures !HasConcrete(p) && p.receivers.Some? ==>
      (|Batch(env, p)| == ItemCount(p) <==>
        (forall i :: 0 <= i < |p.receivers.value| ==> p.receivers.value[i].Materialized?) &&
        NoDuplicates(MaterializedPaths(DropDestination(env), p.receivers.value)))
  {
    if HasConcrete(p) {
      EnrichLength(env, ConcretePaths(env, p), false);
    } else if p.receivers.Some? {
      EnrichLength(env, MaterializedPaths(DropDestination(env), p.receivers.value), true);
      MaterializedPathsLength(DropDestination(env), p.receivers.value);
    }
  }
}
