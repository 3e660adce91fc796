# Snyk IntelliJ plugin: cache invalidation on file changes, and the IaC output classifier

This project is a Dafny model of two parts of the Snyk IntelliJ plugin. It proves properties
of both.

**`SnykBulkFileListener`** receives the IDE's batches of virtual-file events. Before a batch
is applied (`before`), it runs through every open, non-disposed project and does four things:

- It drops the project's dependency-scan (OSS) results when a recognised build or manifest
  file inside the project content changed.
- It restarts a running Snyk Code analysis when a file of a supported format was affected.
- It schedules a runnable on the project's task queue that evicts the affected cached files
  from the Snyk Code cache. Files under an affected directory are evicted too. When more than
  ten files qualify, the runnable drops the whole project from the cache.
- It tells the `.dcignore` caches to clean.

After the batch (`after`), it tells the `.dcignore` caches to update. The two passes filter
different event classes:

- `before` considers content-change, move, copy and delete events.
- `after` considers content-change, move and copy events.

The model splits the listener across four modules:

- `Vfs` holds files, events, the `instanceOf` loop and the `getAffectedVirtualFiles` pipeline.
- `AnalysisData` holds the per-project cache and the deferred cache runnable.
- `CacheInvalidation` holds the per-project decisions of both passes as functions, and their
  folds over the open projects.
- `SnykBulkFileListener` holds a `Workbench` class. Its fields are the state the listener
  changes in place:
  - each project's `currentOssResults`
  - the Snyk Code cache
  - the projects under analysis
  - the task queue
  - the calls made to the rescan scheduler and the ignore-file caches

  Its methods `Before`, `After`, `CleanCaches` and `UpdateCaches` loop over the open projects
  as the listener does. Each method is proved to leave exactly the state the `CacheInvalidation`
  functions describe, and the lemmas about those functions state what the passes guarantee.
  The scheduled runnable is queued as a `CacheTask`. `RunScheduledTask` applies one when the
  queue runs it, and the "more than ten" decision is taken then, as in the listener.

**`IacScanService`** wraps the `snyk iac test --json` command. It classifies the CLI's raw
output as follows:

- the cancellation marker gives an empty result;
- empty output gives an error;
- a JSON array gives the decoded issues;
- a JSON object gives either one file's issues or the CLI's own error, depending on a
  substring test;
- anything else gives the output itself as the error message.

Every JSON syntax error is caught and reported as an error carrying the project's path. Gson
is modelled as three decoding functions, each of which may fail with a `JsonSyntaxException`.
The value of the cancellation marker is defined in `ConsoleCommandRunner`, which is not part
of this model, so it is a parameter. The "empty output" lemma assumes that marker is not the
empty string; otherwise the cancellation branch, tested first, would take the empty output.

The IntelliJ services the listener consults are fields of a `Host` value:

- the project's disposed flag;
- the content test of `ProjectRootManager`;
- the PSI lookup of `PsiManager`;
- `SnykCodeUtils.isSupportedFileFormat`.

The open projects are a given sequence. The lemmas that count runnables and calls per
project assume that sequence names each project once, as `ProjectUtil.getOpenProjects` does.

## Model

| member | source | states |
|---|---|---|
| Vfs.InstanceOf | src/main/kotlin/io/snyk/plugin/SnykBulkFileListener.kt:125-130 | The loop answers true iff some class in the collection matches the event; an empty collection gives false. |
| Vfs.AffectedFilesMembership | src/main/kotlin/io/snyk/plugin/SnykBulkFileListener.kt:113-123 | A file is affected iff some event of a listed class carries it (non-null) and it passes the file filter. |
| Vfs.SameEventsSameFiles | src/main/kotlin/io/snyk/plugin/SnykBulkFileListener.kt:113-123 | The result is a set: batches with the same events, in any order and with any repetition, give the same affected files. |
| Vfs.FilterNarrows | src/main/kotlin/io/snyk/plugin/SnykBulkFileListener.kt:113-123 | Filtering by a predicate gives exactly the unfiltered affected files that satisfy it. |
| Vfs.UnlistedEventIgnored | src/main/kotlin/io/snyk/plugin/SnykBulkFileListener.kt:118-119 | Inserting an event whose class is not listed anywhere in a batch leaves the affected files unchanged. |
| Vfs.ListedEventAdds | src/main/kotlin/io/snyk/plugin/SnykBulkFileListener.kt:118-122 | Inserting an event of a listed class adds exactly its file, if it has one and it passes the filter. |
| AnalysisData.ApplyCacheTask | src/main/kotlin/io/snyk/plugin/SnykBulkFileListener.kt:84-91 | With more than 10 files, the runnable removes the project from the cache. With 10 or fewer, it removes exactly those files from the project's entry. Every other project is unchanged, and no project is added. |
| AnalysisData.RunTasksShrinks | src/main/kotlin/io/snyk/plugin/SnykBulkFileListener.kt:84-91 | Running queued runnables never adds a project or a cached file. |
| AnalysisData.RunTasksEvicts | src/main/kotlin/io/snyk/plugin/SnykBulkFileListener.kt:84-91 | After a queue has run, none of the files of any runnable in it is cached for that runnable's project, and a bulk runnable leaves its project with no cached files. |
| AnalysisData.SettledTaskIsNoOp | src/main/kotlin/io/snyk/plugin/SnykBulkFileListener.kt:84-91 | A runnable whose effect is already in the cache changes nothing. |
| AnalysisData.SettledWhileShrinking | src/main/kotlin/io/snyk/plugin/SnykBulkFileListener.kt:84-91 | A runnable's effect stays in the cache while the cache only shrinks. |
| AnalysisData.SettledQueueIsNoOp | src/main/kotlin/io/snyk/plugin/SnykBulkFileListener.kt:84-91 | A queue whose runnables' effects are all in the cache changes nothing. |
| AnalysisData.RunTasksIdempotent | src/main/kotlin/io/snyk/plugin/SnykBulkFileListener.kt:84-91 | Running the same queue twice leaves the cache it leaves once. |
| AnalysisData.RunTasksAppend | src/main/kotlin/io/snyk/plugin/SnykBulkFileListener.kt:84-91 | Running two queues one after the other equals running their concatenation. |
| AnalysisData.RepeatedTailIsNoOp | src/main/kotlin/io/snyk/plugin/SnykBulkFileListener.kt:84-91 | Queueing the same runnables again after a queue has no further effect. |
| CacheInvalidation.BuildFileListMembership | src/main/kotlin/io/snyk/plugin/SnykBulkFileListener.kt:134-158 | A file counts as a build file iff its name is one of the 22 distinct names; the duplicated `project.assets.json` entry does not change membership. |
| CacheInvalidation.FilesToRemoveFromCache | src/main/kotlin/io/snyk/plugin/SnykBulkFileListener.kt:74-81 | The files to remove are cached files, and every cached file that is itself affected is among them. |
| CacheInvalidation.DirectoryEvictsItsContents | src/main/kotlin/io/snyk/plugin/SnykBulkFileListener.kt:76-81 | A cached file whose path extends the path of an affected directory is removed. |
| CacheInvalidation.UnaffectedFileKept | src/main/kotlin/io/snyk/plugin/SnykBulkFileListener.kt:75-81 | A cached file that is not affected, and whose path starts with no affected directory's path, is kept. |
| CacheInvalidation.RawPrefixAlsoEvictsSiblings | src/main/kotlin/io/snyk/plugin/SnykBulkFileListener.kt:80 | The path test has no separator check, so an affected `/p/src` also evicts `/p/src2/a.py`. |
| CacheInvalidation.OssResultsDroppedIff | src/main/kotlin/io/snyk/plugin/SnykBulkFileListener.kt:45-54 | A project's OSS results become null iff it is open and not disposed and a changed build file lies in its content. Every other project's results are kept, and no other entry is added. |
| CacheInvalidation.CacheTasksForSpec | src/main/kotlin/io/snyk/plugin/SnykBulkFileListener.kt:73-91 | The before pass schedules a runnable, titled "Snyk Code is updating caches...", iff the project is open and not disposed and has cached files to remove. The runnable captures exactly those files, a non-empty subset of the project's cache. |
| CacheInvalidation.CleanCallsForSpec | src/main/kotlin/io/snyk/plugin/SnykBulkFileListener.kt:62-94 | A rescan with delay 0 and both flags false is requested for a project iff it is open, not disposed, under analysis and has a supported file affected. Every open, non-disposed project's ignore caches are told to clean with the affected files. No other call is made. |
| CacheInvalidation.OneCacheTaskPerProject | src/main/kotlin/io/snyk/plugin/SnykBulkFileListener.kt:42-91 | With each open project enumerated once, no two runnables of the before pass are for the same project. A project gets one iff it is open, not disposed and has cached files to remove, so it gets exactly one then and none otherwise. |
| CacheInvalidation.OneCleanCallOfEachKindPerProject | src/main/kotlin/io/snyk/plugin/SnykBulkFileListener.kt:42-94 | With each open project enumerated once, the before pass requests at most one rescan per project and cleans each project's ignore caches at most once. |
| CacheInvalidation.UpdateCallsForSpec | src/main/kotlin/io/snyk/plugin/SnykBulkFileListener.kt:98-111 | The after pass tells every open, non-disposed project's ignore caches to update with the affected files, and calls nothing else. |
| CacheInvalidation.DisposedProjectUntouched | src/main/kotlin/io/snyk/plugin/SnykBulkFileListener.kt:42-43 | A disposed project keeps its OSS results, and neither pass schedules or calls anything for it; the after pass's skip is at line 100. |
| CacheInvalidation.DeletionsOnlyBeforeChange | src/main/kotlin/io/snyk/plugin/SnykBulkFileListener.kt:18-39 | A delete event's file is affected for the before pass and never for the after pass. |
| CacheInvalidation.AfterAffectedWithinBefore | src/main/kotlin/io/snyk/plugin/SnykBulkFileListener.kt:18-39 | Every file the after pass sees affected, the before pass saw affected too. |
| CacheInvalidation.BeforePassEvicts | src/main/kotlin/io/snyk/plugin/SnykBulkFileListener.kt:73-91 | Once the queue, with the before pass's runnables at its end, has run, no file chosen for eviction in an open, non-disposed project is cached. More than ten such files leave the project with none. |
| CacheInvalidation.BeforePassIdempotent | src/main/kotlin/io/snyk/plugin/SnykBulkFileListener.kt:83-91 | Handling the same batch's runnables twice leaves the cache they leave once. |
| CacheInvalidation.PackageJsonChangeScenario | src/main/kotlin/io/snyk/plugin/SnykBulkFileListener.kt:45-71 | A content change of `package.json` in an open project nulls its OSS results and, as it is no Snyk Code format, restarts no analysis. |
| SnykBulkFileListener.Workbench.Before | src/main/kotlin/io/snyk/plugin/SnykBulkFileListener.kt:29-39 | `before` cleans with the content-change, move, copy and delete classes. It leaves the OSS results, queue and calls the before-pass functions describe, and it changes the cache itself not at all. |
| SnykBulkFileListener.Workbench.After | src/main/kotlin/io/snyk/plugin/SnykBulkFileListener.kt:18-27 | `after` updates with the content-change, move and copy classes. It adds only the update calls and changes nothing else. |
| SnykBulkFileListener.Workbench.CleanCaches | src/main/kotlin/io/snyk/plugin/SnykBulkFileListener.kt:41-96 | The loop over the open projects leaves results, queue and calls equal to the folds of the per-project before-pass decisions. |
| SnykBulkFileListener.Workbench.CleanProjectCaches | src/main/kotlin/io/snyk/plugin/SnykBulkFileListener.kt:43-94 | For one project, the body nulls the OSS results, queues the runnable and records the calls exactly as that project's decisions say. A disposed project is left alone. |
| SnykBulkFileListener.Workbench.UpdateCaches | src/main/kotlin/io/snyk/plugin/SnykBulkFileListener.kt:98-111 | The loop adds exactly the update calls of the open, non-disposed projects and changes nothing else. |
| SnykBulkFileListener.Workbench.RemoveProjectFromCaches | src/main/kotlin/io/snyk/plugin/SnykBulkFileListener.kt:87 | The project has no cached files afterwards; other projects are unchanged. |
| SnykBulkFileListener.Workbench.RemoveFilesFromCache | src/main/kotlin/io/snyk/plugin/SnykBulkFileListener.kt:89 | Exactly the given files leave the project's cache; other projects are unchanged. |
| SnykBulkFileListener.Workbench.RunScheduledTask | src/main/kotlin/io/snyk/plugin/SnykBulkFileListener.kt:84-91 | Running the first queued runnable applies its cache effect and dequeues it. An empty queue changes nothing. |
| SnykBulkFileListener.Workbench.RunAllScheduledTasks | src/main/kotlin/io/snyk/plugin/SnykBulkFileListener.kt:84-91 | Draining the queue leaves the cache that running its runnables in order gives, and an empty queue. |
| SnykBulkFileListener.BeforeThenDrain | src/main/kotlin/io/snyk/plugin/SnykBulkFileListener.kt:73-91 | After `before` and a drained queue, none of an open, non-disposed project's files chosen for eviction is cached, and more than ten of them empty its cache. |
| Text.ContainsIffOccurs | src/main/kotlin/snyk/iac/IacScanService.kt:53-54 | The substring test used by the success check holds iff the key occurs at some position. |
| Iac.SuccessCheckIff | src/main/kotlin/snyk/iac/IacScanService.kt:53-54 | The output is a success iff `"infrastructureAsCodeIssues":` occurs in it and `"error":` occurs nowhere in it. |
| Iac.IacScanService.GetErrorResult | src/main/kotlin/snyk/iac/IacScanService.kt:22 | An error result has no issues and pairs the message with the project's path. |
| Iac.IacScanService.ConvertRawCliStringToCliResult | src/main/kotlin/snyk/iac/IacScanService.kt:24-51 | The cancellation marker gives neither issues nor error. Any other output gives exactly one of the two. An error carries a path other than the project's only when it is the CLI's own error, decoded from a `{` output that failed the success check. |
| Iac.IacScanService.EmptyOutputIsError | src/main/kotlin/snyk/iac/IacScanService.kt:31-33 | Empty output gives the error "CLI fail to produce any output" with the project's path, and no issues. |
| Iac.IacScanService.ArrayOutput | src/main/kotlin/snyk/iac/IacScanService.kt:34-35 | Output starting with `[` gives the decoded list as issues and no error. If decoding fails, it gives the exception's text as the error. |
| Iac.IacScanService.ObjectOutput | src/main/kotlin/snyk/iac/IacScanService.kt:37-43 | Output starting with `{` that passes the success check gives a one-element issues list. Otherwise it gives the decoded CLI error's message and path. A syntax error gives the exception's text. |
| Iac.IacScanService.MalformedJsonCaught | src/main/kotlin/snyk/iac/IacScanService.kt:49-51 | Whichever decoder the first character selects, its syntax error is caught. The result is the exception's message, or its description when the message is null, with the project's path. |
| Iac.IacScanService.OtherOutputEchoed | src/main/kotlin/snyk/iac/IacScanService.kt:45-47 | Output starting with any other character gives itself as the error message, with the project's path. |
| Iac.IacScanService.ErrorKeyNeverSuccess | src/main/kotlin/snyk/iac/IacScanService.kt:38-41 | A `{` output in which `"error":` occurs is never read as issues, whatever else it contains. |

## Left out

- Threading: the task queue runs its runnables on a background thread, and the IDE may run passes concurrently. The model runs the queue explicitly, in order, and interleaves nothing.
- IntelliJ services: the PSI lookup, `SnykCodeUtils.isSupportedFileFormat` and the `ProjectRootManager` content test are uninterpreted predicates of `Host`. A PSI file is identified with its virtual file.
- `SnykCodeIgnoreInfoHolder` and `RunUtils`: their calls are recorded with their arguments, because their internals are not part of this model.
- `AnalysisData`: its internals are not part of this model. Its cache is a set of files per project, and `isUpdateAnalysisInProgress` is a set of projects.
- File identity: a virtual file is a record of path, name and directory flag, compared structurally rather than by object identity.
- `ProjectUtil.getOpenProjects`: the open projects are a given sequence.
- `SnykToolWindowPanel`: only its `currentOssResults` field is modelled. The result's content is an opaque string.
- Gson: its parsing is left out. The three decoders are functions that return a value or a `JsonSyntaxException`.
- Other exceptions: exceptions other than `JsonSyntaxException` are not modelled, as the converter does not catch them.
- `CliAdapter.execute`: running the CLI process and composing the command line are not part of this model. Only the argument lists the service contributes are (`iac test` and `--json`). The integration test at src/integTest/kotlin/io/snyk/plugin/ui/toolwindow/SnykToolWindowPanelIntegTest.kt:82 expects the CLI path, then the command, then the options, but no property of that order is stated.
- `ConsoleCommandRunner.PROCESS_CANCELLED_BY_USER`: its value is not part of this model, so it is a parameter of the converter.
- UI code: `UIUtils`, the tool window's tree and the build configuration are not modelled.
