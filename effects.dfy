/**
 * The collaborators the trigger drives (the storage bucket, the local scratch
 * filesystem and the ImageMagick subprocess) reduced to abstract actions and
 * their effect on an abstract world. Image contents are opaque values: a
 * converted image only remembers what it was converted from and with which
 * options.
 */
module Effects {
  import opened Wrappers

  /** Contents of a stored object or of a local file. */
  datatype Blob = Bytes(data: seq<bv8>) | Converted(source: Blob, options: seq<string>)

  /** One call into a collaborator, with the arguments it is given. */
  datatype Action =
    | Download(bucket: string, objectName: string, destination: string)
    | Spawn(command: string, args: seq<string>)
    | Upload(bucket: string, source: string, destination: string)
    | Unlink(path: string)

  /**
   * Objects of every bucket, keyed by (bucket, object name), local files by
   * path, and the calls the environment rejects for reasons outside the
   * trigger (a network error, a nonzero exit code of the tool).
   */
  datatype World = World(objects: map<(string, string), Blob>, files: map<string, Blob>, rejects: set<Action>)

  /**
   * The effect of one action, or None when the collaborator fails: a call
   * the environment rejects, a download of a missing object, a conversion or
   * upload of a missing file, an unlink of a missing file. Only `convert` is
   * a known command; it reads its first argument and writes its last,
   * applying the arguments between.
   */
  function Step(w: World, a: Action): (r: Option<World>)
    ensures a in w.rejects ==> r.None?
    ensures r.Some? ==> r.value.rejects == w.rejects
    ensures a.Download? ==> (r.Some? <==> a !in w.rejects && (a.bucket, a.objectName) in w.objects)
    ensures !a.Upload? && r.Some? ==> r.value.objects == w.objects
  {
    if a in w.rejects then None
    else
    match a
    case Download(bucket, objectName, destination) =>
      if (bucket, objectName) in w.objects
      then Some(w.(files := w.files[destination := w.objects[(bucket, objectName)]]))
      else None
    case Spawn(command, args) =>
      if command == "convert" && |args| >= 2 && args[0] in w.files
      then Some(w.(files := w.files[args[|args| - 1] := Converted(w.files[args[0]], args[1..|args| - 1])]))
      else None
    case Upload(bucket, source, destination) =>
      if source in w.files
      then Some(w.(objects := w.objects[(bucket, destination) := w.files[source]]))
      else None
    case Unlink(path) =>
      if path in w.files then Some(w.(files := w.files - {path})) else None
  }

  /** No call loses an object, and only an unlink loses a file. */
  lemma StepKeepsNames(w: World, a: Action)
    requires Step(w, a).Some?
    ensures Step(w, a).value.objects.Keys >= w.objects.Keys
    ensures !a.Unlink? ==> Step(w, a).value.files.Keys >= w.files.Keys
    ensures a.Unlink? ==> Step(w, a).value.files.Keys == w.files.Keys - {a.path}
  {
  }

  /** The world after running a chain of actions, and how many of them completed. */
  datatype Run = Run(world: World, done: nat)

  /**
   * Runs `actions` in order, each one only after the previous one succeeded,
   * and stops at the first failure, leaving the world as that failure found it.
   */
  function Execute(w: World, actions: seq<Action>): (r: Run)
    ensures r.done <= |actions|
    ensures ApplyAll(w, actions[..r.done]) == Some(r.world)
    ensures r.done < |actions| ==> Step(r.world, actions[r.done]).None?
    ensures r.done == 0 ==> r.world == w
    decreases |actions|
  {
    if actions == [] then Run(w, 0)
    else
      match Step(w, actions[0])
      case None => Run(w, 0)
      case Some(w') =>
        var r := Execute(w', actions[1..]);
        assert actions[..r.done + 1][1..] == actions[1..][..r.done];
        Run(r.world, r.done + 1)
  }

  /** The world after every one of `actions` succeeded in turn, or None if one of them fails. */
  function ApplyAll(w: World, actions: seq<Action>): Option<World>
    decreases |actions|
  {
    if actions == [] then Some(w)
    else
      match Step(w, actions[0])
      case None => None
      case Some(w') => ApplyAll(w', actions[1..])
  }

  /** A run completes every action exactly when every action, applied in turn, succeeds. */
  lemma {:induction false} ExecuteCompletesIffAllApply(w: World, actions: seq<Action>)
    ensures Execute(w, actions).done == |actions| <==> ApplyAll(w, actions).Some?
    decreases |actions|
  {
    if actions != [] {
      match Step(w, actions[0])
      case None =>
      case Some(w') => ExecuteCompletesIffAllApply(w', actions[1..]);
    }
  }

  /** Running four actions: each runs only if all before it succeeded, and the run stops at the first failure. */
  lemma ExecuteFour(w: World, a0: Action, a1: Action, a2: Action, a3: Action)
    ensures Execute(w, [a0, a1, a2, a3]) ==
      if Step(w, a0).None? then Run(w, 0)
      else var w1 := Step(w, a0).value;
      if Step(w1, a1).None? then Run(w1, 1)
      else var w2 := Step(w1, a1).value;
      if Step(w2, a2).None? then Run(w2, 2)
      else var w3 := Step(w2, a2).value;
      if Step(w3, a3).None? then Run(w3, 3)
      else Run(Step(w3, a3).value, 4)
  {
    assert [a0, a1, a2, a3] == [a0] + [a1, a2, a3];
    assert [a1, a2, a3] == [a1] + [a2, a3];
    assert [a2, a3] == [a2] + [a3];
    assert [a3] == [a3] + [];
    ExecuteCons(w, a0, [a1, a2, a3]);
    if Step(w, a0).Some? {
      var w1 := Step(w, a0).value;
      ExecuteCons(w1, a1, [a2, a3]);
      if Step(w1, a1).Some? {
        var w2 := Step(w1, a1).value;
        ExecuteCons(w2, a2, [a3]);
        if Step(w2, a2).Some? {
          var w3 := Step(w2, a2).value;
          ExecuteCons(w3, a3, []);
        }
      }
    }
  }

  /** The first action runs, and the rest run only if it succeeded, counted after it. */
  lemma ExecuteCons(w: World, a: Action, rest: seq<Action>)
    ensures Execute(w, [a] + rest) ==
      if Step(w, a).None? then Run(w, 0)
      else var r := Execute(Step(w, a).value, rest); Run(r.world, r.done + 1)
  {
    assert ([a] + rest)[1..] == rest;
  }
}
