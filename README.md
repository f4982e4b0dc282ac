# generateThumbnail, modelled in Dafny

The repository holds one Firebase storage trigger, `generateThumbnail`. It runs
whenever an object in a Cloud Storage bucket changes. It first applies four
ordered stop checks to the event: the content type must start with `image/`,
the base name must not start with `thumb_`, the event must not be a deletion,
and it must not be a metadata update of an existing object. An event that
passes all four is processed by a promise chain. The chain downloads the object
to `tmpdir/<basename>`, runs ImageMagick `convert` on that file in place with
geometry `200x200>`, uploads the result as `<dirname>/thumb_<basename>` in the
same bucket, and deletes the temporary file.

The model has five modules:

- `Wrappers` (wrappers.dfy): an `Option` datatype.
- `Paths` (paths.dfy): Node's `path.basename`, `path.dirname` and `path.join`.
  Each is a split of the string at its last `/`.
- `Effects` (effects.dfy): the collaborator calls as abstract `Action` values,
  and their effect on a `World`. The world holds the bucket objects, the local
  scratch files, and the calls that the environment rejects.
- `Thumbnails` (thumbnails.dfy): the event, the stop checks, the two derived
  paths, and the `Plan` of an event. `Plan` either stops with a reason or
  gives the ordered chain of actions. The lemmas here state the trigger's
  guarantees, including the absence of a thumbnail-of-thumbnail loop.
- `Pipeline` (pipeline.dfy): a `Host` class whose fields are the buckets, the
  scratch files and the calls that succeeded. Its collaborator methods change
  these fields in place. `GenerateThumbnail` runs the checks and then the
  chain, and its result is proved equal to running `Plan`.

The scratch directory (`os.tmpdir()`) is a parameter. The stop messages become the
returned `StopReason`. The environment's failures (network errors, a nonzero
exit code of the tool) are given as a set of rejected calls inside the world.

Two consequences of following the code as written:

- The handler's comment at functions/index.js:131 calls the resource state
  `exists` or `not_exists`, but the code compares it as a string, so here it
  is an arbitrary string, not a two-valued enum. A state
  other than `exists` or `not_exists` is processed whatever its
  metageneration (`Thumbnails.ProcessedExactly`).
- For an object with no directory, the destination is `thumb_<name>`, with no
  leading `./` or `/`. This is because `path.join('.', x)` is `x`.

## Model

| member | source | states |
|---|---|---|
| Paths.LastSlash | functions/index.js:144 | the result is the index of a `/` with no `/` after it, and None exactly when the string has no `/` |
| Paths.Basename | functions/index.js:144 | the base name holds no `/`, and is the whole path when the path has none |
| Paths.BasenameIsLongestSlashFreeSuffix | functions/index.js:144 | the base name is a suffix of the path, and it is the whole path or is preceded by a `/` |
| Paths.Dirname | functions/index.js:181 | the directory of a path with no `/` is `.`; it is the root `/` when the only separator is the leading one; otherwise it is a prefix of the path |
| Paths.DirnameBasenameSplit | functions/index.js:181 | a path with a `/` is its directory followed by its base name: with no separator in between when the only `/` is the leading one and the directory is `/`, and with a `/` in between otherwise |
| Paths.Join | functions/index.js:169 | joining a slash-free name gives a path whose base name is that name, and an empty or `.` directory adds nothing |
| Paths.LastSlashBeforeName | functions/index.js:169 | after a prefix ending in `/`, a slash-free name is the base name and that `/` is the last separator |
| Paths.SplitAtSeparator | functions/index.js:144-181 | `dir/base`, for a slash-free base and a directory not ending in `/`, has base name `base` and directory `dir` |
| Paths.DirnameOfJoin | functions/index.js:180-181 | when the path has no repeated `/`, a name joined to its directory keeps that directory |
| Paths.JoinDirnameBasename | functions/index.js:180-181 | when the path has no repeated `/`, joining its directory and base name rebuilds the path, except when it has a `/` and its directory is `.` (a bare `./name`) |
| Paths.JoinAtInnerSlash | functions/index.js:180-181 | the same round trip when the last `/` is not the leading one |
| Paths.SplitAtLastSlash | functions/index.js:144-181 | a path is the part before its last `/`, that `/`, and a slash-free rest |
| Effects.Step | functions/index.js:171-187 | a rejected call fails; a download succeeds exactly when it is not rejected and the object exists; a successful call keeps the rejected set, and only an upload changes the objects |
| Effects.StepKeepsNames | functions/index.js:171-187 | a successful call never removes an object, and only an unlink removes a file (exactly its path) |
| Effects.Execute | functions/index.js:171-187 | the first `done` calls, applied in turn, all succeed and produce the returned world; the call after them, if any, fails in that world; if nothing ran, the world is unchanged |
| Effects.ExecuteCompletesIffAllApply | functions/index.js:171-187 | a run completes all its calls exactly when applying every call in turn succeeds |
| Effects.ExecuteFour | functions/index.js:171-187 | a four-call chain stops at the first failing call with the world it found, and completes all four only if each succeeds |
| Thumbnails.StopCondition | functions/index.js:138-162 | the reason returned is a check that fails and no earlier check fails; None exactly when no check fails |
| Thumbnails.TempFilePath | functions/index.js:169 | the temporary file has the object's base name, and for a scratch directory that is not empty, not `.` and does not end in `/` it is `tmpdir/<basename>`, whose directory is `tmpdir` |
| Thumbnails.ThumbFilePath | functions/index.js:180-181 | the destination's base name is `thumb_` followed by the object's base name, and it is in the object's directory (no repeated `/`) |
| Thumbnails.Plan | functions/index.js:138-187 | the trigger stops exactly when a check fails, and it reports that check's reason |
| Thumbnails.PlannedChain | functions/index.js:169-187 | an accepted event downloads to T, converts T in place with `-thumbnail 200x200>`, uploads T to the thumbnail path, then unlinks T, where T is the same path in all four steps |
| Thumbnails.NotAnImageStopsFirst | functions/index.js:138-141 | a non-image content type stops with NotAnImage and no actions, under any object name |
| Thumbnails.ThumbnailNameStops | functions/index.js:144-149 | a `thumb_` base name is never processed: AlreadyThumbnail for an image, otherwise NotAnImage |
| Thumbnails.DeletionStops | functions/index.js:152-155 | a `not_exists` event is never processed, whatever its metageneration, and past the first two checks it stops as DeletionEvent |
| Thumbnails.MetadataChangeStops | functions/index.js:159-162 | an `exists` event with metageneration above 1 is never processed, and past the first two checks it stops as MetadataChange |
| Thumbnails.MetagenerationOnlyWhenExists | functions/index.js:159 | when the state is not exactly `exists`, the metageneration has no effect on the verdict |
| Thumbnails.ProcessedExactly | functions/index.js:138-162 | the trigger processes an event exactly when all four conditions hold |
| Thumbnails.NoThumbnailLoop | functions/index.js:144-184 | any event on an object the trigger uploads is stopped, whatever its content type, state or metageneration, by the thumbnail check or the image check before it |
| Thumbnails.UploadInChain | functions/index.js:184 | the only upload in the chain sends the temporary file to the destination |
| Thumbnails.ThumbnailPathStops | functions/index.js:144-181 | an event on the thumbnail path of any name stops with NotAnImage or AlreadyThumbnail |
| Thumbnails.ProcessedEventEffect | functions/index.js:171-187 | if no call is rejected, an accepted event on an existing object adds its converted copy at the thumbnail path, changes no other object, and frees the temporary path; on a missing object nothing changes |
| Thumbnails.ChainEffect | functions/index.js:171-187 | the same effect for the four-step chain on any paths |
| Thumbnails.RejectedChainLeavesTempFile | functions/index.js:171-187 | a chain rejected after the download and before the unlink leaves the temporary file in place |
| Thumbnails.ConvertInPlace | functions/index.js:176 | convert with input and output both T replaces T by its thumbnail and changes nothing else |
| Thumbnails.ObjectInDirectory | functions/index.js:138-184 | a new image `dir/base` whose base name lacks `thumb_` is downloaded to `tmpdir` joined with `base`, and uploaded as `dir/thumb_base` |
| Thumbnails.ThumbInDirectory | functions/index.js:180-181 | the destination for `dir/base` is `dir/thumb_base` |
| Thumbnails.TestJpgExample | functions/index.js:126-184 | the documented object `/image/test.jpg` of type `image/jpg`, state `exists` and metageneration 1, with scratch directory `/tmp`, plans: download to `/tmp/test.jpg`, convert it in place, upload it as `/image/thumb_test.jpg` (the comment at functions/index.js:182), unlink it |
| Pipeline.Host.Download | functions/index.js:171-173 | the download succeeds as `Effects.Step` says; on success the object is copied to the local file and the call is recorded; on failure nothing changes |
| Pipeline.Host.Spawn | functions/index.js:176 | the convert run changes the files as `Effects.Step` says and is recorded only on success |
| Pipeline.Host.Upload | functions/index.js:184 | the upload stores the local file as the destination object as `Effects.Step` says, and is recorded only on success |
| Pipeline.Host.Unlink | functions/index.js:187 | the unlink removes the temporary file as `Effects.Step` says, and is recorded only on success |
| Pipeline.Host.RunChain | functions/index.js:171-187 | the calls run in order until the first rejection; the new state, the recorded calls and the count done are those of `Effects.Execute` on the chain |
| Pipeline.Host.GenerateThumbnail | functions/index.js:120-189 | the invocation is skipped with the first failing check's reason, or runs `Thumbnails.Plan` to completion or to its first rejected step; the new state and the recorded calls are exactly those of executing the plan |

## Left out

- Firebase trigger registration and the `event.data` wrapper (functions/index.js:120-123) are platform plumbing. The handler receives the object record directly.
- The Cloud Storage client and `child-process-promise` are not modelled; their calls are abstract `Action` values. A call's failure is either a missing input or a membership of `World.rejects`, which stands for network errors and nonzero exit codes.
- What ImageMagick computes is not modelled. A converted file is `Converted(source, options)`, and only the argument list is kept.
- `os.tmpdir()` is a parameter. The four stop messages of `console.log` (functions/index.js:139-161) are the returned `StopReason`; the progress messages after the download and the convert (functions/index.js:174 and 178) are not modelled.
- An event whose `contentType` or `name` is missing makes the handler throw a TypeError at functions/index.js:138 or 144, and the invocation fails. The event's fields here are plain strings, which are always present, so this failure is not modelled.
- Asynchrony is not modelled. The promise chain is a sequence in which each call starts after the previous one succeeds, and the first rejection ends the invocation.
- Concurrent invocations sharing the scratch directory are not modelled. Two objects with the same base name map to the same temporary path, and this only matters under concurrency.
- Paths.Basename: trailing slashes are not stripped as Node's `path.basename` does. A name ending in `/` has an empty base name here.
- Paths.Dirname: trailing slashes and Node's `//` root special case are not handled. `..`, `.` segments and repeated slashes are not normalised by `Paths.Join`, except that a directory of `""` or `.` adds nothing and a directory that already ends in `/` gets no second separator.
- Paths.DirnameOfJoin: proved only for names without repeated `/`. With `a//b` the code itself yields `a/thumb_b`, whose directory is `a`, not `a/`.
- The commented-out copy of the handler at functions/index.js:1-86 is not modelled.
- Paths.Join: an empty name gives `dir/`, while Node's `path.join` skips empty segments and gives `dir`. The handler reaches this only for an object whose name is empty or ends in `/`, whose base name is empty in the model (see `Paths.Basename` above). For such an object the model's temporary path is `tmpdir/`. Node gives `tmpdir` for the object `/`, and a file named after the last segment for a name such as `a/b/`.
