/**
 * The Snyk Code analysis cache as the listener sees it: a set of cached files per
 * project, and the cache-update runnable the listener hands to the task queue.
 */
module AnalysisData {
  import opened Vfs

  /** Identity of an open project. */
  type ProjectId = nat

  /** Cached files per project; a project without an entry has no cached files. */
  type Cache = map<ProjectId, set<File>>

  /** Above this many files to remove, the runnable drops the whole project instead. */
  const BulkEvictionThreshold: nat := 10

  /** The title under which the cache-update runnable is scheduled. */
  const UpdatingCachesTitle: string := "Snyk Code is updating caches..."

  /** The scheduled runnable: its title, its project and the files it captured. */
  datatype CacheTask = CacheTask(title: string, project: ProjectId, filesToRemove: set<File>)

  /** `getAllCachedFiles(project)`. */
  function CachedFiles(cache: Cache, p: ProjectId): set<File> {
    if p in cache then cache[p] else {}
  }

  /**
   * What the runnable does when it runs: more than ten captured files evicts the whole
   * project (`removeProjectFromCaches`), otherwise exactly the captured files are removed
   * (`removeFilesFromCache`). Other projects are never touched.
   */
  function ApplyCacheTask(cache: Cache, t: CacheTask): (r: Cache)
    ensures |t.filesToRemove| > BulkEvictionThreshold ==> t.project !in r && CachedFiles(r, t.project) == {}
    ensures |t.filesToRemove| <= BulkEvictionThreshold ==>
              CachedFiles(r, t.project) == CachedFiles(cache, t.project) - t.filesToRemove
    ensures forall q :: q != t.project ==> (q in r <==> q in cache) && CachedFiles(r, q) == CachedFiles(cache, q)
    ensures r.Keys <= cache.Keys
  {
    if |t.filesToRemove| > BulkEvictionThreshold then cache - {t.project}
    else if t.project in cache then cache[t.project := cache[t.project] - t.filesToRemove]
    else cache
  }

  /** Running the scheduled runnables one after another, in queue order. */
  function RunTasks(cache: Cache, tasks: seq<CacheTask>): Cache
    decreases |tasks|
  {
    if tasks == [] then cache else RunTasks(ApplyCacheTask(cache, tasks[0]), tasks[1..])
  }

  /** Runnables only ever remove: no project gains an entry, no entry gains a file. */
  lemma {:induction false} RunTasksShrinks(cache: Cache, tasks: seq<CacheTask>)
    ensures RunTasks(cache, tasks).Keys <= cache.Keys
    ensures forall q :: CachedFiles(RunTasks(cache, tasks), q) <= CachedFiles(cache, q)
    decreases |tasks|
  {
    if tasks != [] {
      RunTasksShrinks(ApplyCacheTask(cache, tasks[0]), tasks[1..]);
    }
  }

  /** A runnable has nothing left to do on `cache`. */
  ghost predicate Settled(cache: Cache, t: CacheTask) {
    if |t.filesToRemove| > BulkEvictionThreshold then t.project !in cache
    else CachedFiles(cache, t.project) !! t.filesToRemove
  }

  /** Once a queue has run, each of its runnables is settled: nothing it captured is still cached. */
  lemma {:induction false} RunTasksEvicts(cache: Cache, tasks: seq<CacheTask>, t: CacheTask)
    requires t in tasks
    ensures Settled(RunTasks(cache, tasks), t)
    ensures CachedFiles(RunTasks(cache, tasks), t.project) !! t.filesToRemove
    decreases |tasks|
  {
    var next := ApplyCacheTask(cache, tasks[0]);
    if t == tasks[0] {
      RunTasksShrinks(next, tasks[1..]);
      SettledWhileShrinking(next, RunTasks(next, tasks[1..]), t);
    } else {
      RunTasksEvicts(next, tasks[1..], t);
    }
  }

  /** A settled runnable changes nothing. */
  lemma SettledTaskIsNoOp(cache: Cache, t: CacheTask)
    requires Settled(cache, t)
    ensures ApplyCacheTask(cache, t) == cache
  {
    if |t.filesToRemove| <= BulkEvictionThreshold && t.project in cache {
      assert cache[t.project] - t.filesToRemove == cache[t.project];
    }
  }

  /** Settled stays settled while entries only shrink. */
  lemma SettledWhileShrinking(cache: Cache, smaller: Cache, t: CacheTask)
    requires Settled(cache, t)
    requires smaller.Keys <= cache.Keys
    requires forall q :: CachedFiles(smaller, q) <= CachedFiles(cache, q)
    ensures Settled(smaller, t)
  {
  }

  /** A queue whose runnables are all settled leaves the cache as it is. */
  lemma {:induction false} SettledQueueIsNoOp(cache: Cache, tasks: seq<CacheTask>)
    requires forall t :: t in tasks ==> Settled(cache, t)
    ensures RunTasks(cache, tasks) == cache
    decreases |tasks|
  {
    if tasks != [] {
      SettledTaskIsNoOp(cache, tasks[0]);
      SettledQueueIsNoOp(cache, tasks[1..]);
    }
  }

  /**
   * Running the same queue a second time changes nothing: evicting entries that are
   * already gone is a no-op.
   */
  lemma RunTasksIdempotent(cache: Cache, tasks: seq<CacheTask>)
    ensures RunTasks(RunTasks(cache, tasks), tasks) == RunTasks(cache, tasks)
  {
    var done := RunTasks(cache, tasks);
    forall t | t in tasks ensures Settled(done, t) {
      RunTasksEvicts(cache, tasks, t);
    }
    SettledQueueIsNoOp(done, tasks);
  }

  /** Running two queues one after the other is running their concatenation. */
  lemma {:induction false} RunTasksAppend(cache: Cache, first: seq<CacheTask>, second: seq<CacheTask>)
    ensures RunTasks(cache, first + second) == RunTasks(RunTasks(cache, first), second)
    decreases |first|
  {
    if first == [] {
      assert first + second == second;
    } else {
      assert (first + second)[1..] == first[1..] + second;
      RunTasksAppend(ApplyCacheTask(cache, first[0]), first[1..], second);
    }
  }

  /** Queueing the same runnables a second time, right after the first, leaves the same cache. */
  lemma RepeatedTailIsNoOp(cache: Cache, earlier: seq<CacheTask>, tasks: seq<CacheTask>)
    ensures RunTasks(cache, earlier + tasks + tasks) == RunTasks(cache, earlier + tasks)
  {
    var once := RunTasks(cache, earlier + tasks);
    RunTasksAppend(cache, earlier + tasks, tasks);
    forall t | t in tasks ensures Settled(once, t) {
      RunTasksEvicts(cache, earlier + tasks, t);
    }
    SettledQueueIsNoOp(once, tasks);
  }
}
