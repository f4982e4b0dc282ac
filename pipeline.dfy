/**
 * One invocation of the generateThumbnail handler: the stop checks, then
 * the promise chain download, convert, upload, unlink, each step starting
 * only after the previous one succeeded. The collaborators act on a host
 * whose bucket objects and scratch files they change in place.
 */
module Pipeline {
  import opened Paths
  import opened Effects
  import opened Thumbnails

  /** How one invocation ends: stopped by a check, rejected at a step of the chain, or done. */
  datatype Completion = Skipped(reason: StopReason) | Failed(step: nat) | Finished

  /** The storage buckets and the local scratch filesystem, and the calls that succeeded on them. */
  class Host {
    var objects: map<(string, string), Blob>
    var files: map<string, Blob>
    var rejects: set<Action>
    var performed: seq<Action>

    /** The abstract world the host currently holds. */
    function State(): World
      reads this
    {
      World(objects, files, rejects)
    }

    constructor (w: World)
      ensures State() == w && performed == []
    {
      objects, files, rejects, performed := w.objects, w.files, w.rejects, [];
    }

    /** bucket.file(name).download({destination}): copies an object to a local file. */
    method Download(bucket: string, objectName: string, destination: string) returns (ok: bool)
      modifies this
      ensures var a := Action.Download(bucket, objectName, destination);
        && ok == Step(old(State()), a).Some?
        && State() == (if ok then Step(old(State()), a).value else old(State()))
        && performed == old(performed) + (if ok then [a] else [])
    {
      ok := Action.Download(bucket, objectName, destination) !in rejects && (bucket, objectName) in objects;
      if ok {
        files := files[destination := objects[(bucket, objectName)]];
        performed := performed + [Action.Download(bucket, objectName, destination)];
      }
    }

    /** spawn(command, args): runs ImageMagick on its first argument, writing its last. */
    method Spawn(command: string, args: seq<string>) returns (ok: bool)
      modifies this
      ensures var a := Action.Spawn(command, args);
        && ok == Step(old(State()), a).Some?
        && State() == (if ok then Step(old(State()), a).value else old(State()))
        && performed == old(performed) + (if ok then [a] else [])
    {
      ok := Action.Spawn(command, args) !in rejects && command == "convert" && |args| >= 2 && args[0] in files;
      if ok {
        files := files[args[|args| - 1] := Converted(files[args[0]], args[1..|args| - 1])];
        performed := performed + [Action.Spawn(command, args)];
      }
    }

    /** bucket.upload(source, {destination}): stores a local file as an object. */
    method Upload(bucket: string, source: string, destination: string) returns (ok: bool)
      modifies this
      ensures var a := Action.Upload(bucket, source, destination);
        && ok == Step(old(State()), a).Some?
        && State() == (if ok then Step(old(State()), a).value else old(State()))
        && performed == old(performed) + (if ok then [a] else [])
    {
      ok := Action.Upload(bucket, source, destination) !in rejects && source in files;
      if ok {
        objects := objects[(bucket, destination) := files[source]];
        performed := performed + [Action.Upload(bucket, source, destination)];
      }
    }

    /** fs.unlinkSync(path): removes a local file, failing when there is none. */
    method Unlink(path: string) returns (ok: bool)
      modifies this
      ensures var a := Action.Unlink(path);
        && ok == Step(old(State()), a).Some?
        && State() == (if ok then Step(old(State()), a).value else old(State()))
        && performed == old(performed) + (if ok then [a] else [])
    {
      ok := Action.Unlink(path) !in rejects && path in files;
      if ok {
        files := files - {path};
        performed := performed + [Action.Unlink(path)];
      }
    }

    /**
     * The trigger on one event: returns at the first failing stop check, and
     * otherwise runs the chain until it completes or a step is rejected. The
     * new state and the calls made are those of running the plan.
     */
    method GenerateThumbnail(e: ObjectEvent, tmpdir: string) returns (c: Completion)
      modifies this
      ensures var o := Plan(e, tmpdir);
        var r := Execute(old(State()), Actions(o));
        && State() == r.world
        && performed == old(performed) + Actions(o)[..r.done]
        && c == (if o.Stopped? then Skipped(o.reason)
                 else if r.done == |Actions(o)| then Finished
                 else Failed(r.done))
    {
      var stop := StopCondition(e);
      if stop.Some? {
        return Skipped(stop.value);
      }
      var fileName := Basename(e.name);
      var tempFilePath := Join(tmpdir, fileName);
      var thumbFileName := ThumbPrefix + fileName;
      var thumbFilePath := Join(Dirname(e.name), thumbFileName);
      var done := RunChain(e.bucket, e.name, tempFilePath, thumbFilePath);
      c := if done == 4 then Finished else Failed(done);
    }

    /**
     * The promise chain on given paths: each call starts only after the
     * previous one succeeded, and the first rejection ends the chain.
     */
    method RunChain(bucket: string, name: string, tempFilePath: string, thumbFilePath: string) returns (done: nat)
      modifies this
      ensures var acts := Chain(bucket, name, tempFilePath, thumbFilePath);
        var r := Execute(old(State()), acts);
        && done == r.done
        && State() == r.world
        && performed == old(performed) + acts[..done]
    {
      ghost var w0, p0 := State(), performed;
      ghost var acts := Chain(bucket, name, tempFilePath, thumbFilePath);
      var ok := Download(bucket, name, tempFilePath);
      if ok {
        assert performed == p0 + acts[..1];
        ok := Spawn(ConvertCommand, [tempFilePath, "-thumbnail", ThumbnailGeometry, tempFilePath]);
        if ok {
          assert performed == p0 + acts[..1] + [acts[1]] == p0 + acts[..2];
          ok := Upload(bucket, tempFilePath, thumbFilePath);
          if ok {
            assert performed == p0 + acts[..2] + [acts[2]] == p0 + acts[..3];
            ok := Unlink(tempFilePath);
            if ok {
              assert performed == p0 + acts[..3] + [acts[3]] == p0 + acts[..4];
              done := 4;
            } else {
              done := 3;
            }
          } else {
            done := 2;
          }
        } else {
          done := 1;
        }
      } else {
        done := 0;
      }
      ExecuteFour(w0, acts[0], acts[1], acts[2], acts[3]);
      assert acts == [acts[0], acts[1], acts[2], acts[3]];
    }
  }
}
