/**
 * The storage trigger `generateThumbnail`: the stop checks applied to an
 * object-change event, the temporary and destination paths derived from the
 * object's name, and the chain of collaborator calls an accepted event
 * produces.
 */
module Thumbnails {
  import opened Wrappers
  import opened Paths
  import opened Effects

  const ImagePrefix: string := "image/"
  const ThumbPrefix: string := "thumb_"
  const NotExists: string := "not_exists"
  const Exists: string := "exists"
  const ConvertCommand: string := "convert"
  const ThumbnailGeometry: string := "200x200>"

  /** The storage object an event reports on, as the trigger reads it. */
  datatype ObjectEvent = ObjectEvent(
    bucket: string,
    name: string,
    contentType: string,
    resourceState: string,
    metageneration: int)

  /** Why the trigger returns without generating a thumbnail. */
  datatype StopReason = NotAnImage | AlreadyThumbnail | DeletionEvent | MetadataChange

  /** Position of each check in the order the trigger runs them. */
  function Rank(k: StopReason): nat {
    match k
    case NotAnImage => 0
    case AlreadyThumbnail => 1
    case DeletionEvent => 2
    case MetadataChange => 3
  }

  /** When each check, taken on its own, would stop the trigger. */
  predicate Fails(e: ObjectEvent, k: StopReason) {
    match k
    case NotAnImage => !(ImagePrefix <= e.contentType)
    case AlreadyThumbnail => ThumbPrefix <= Basename(e.name)
    case DeletionEvent => e.resourceState == NotExists
    case MetadataChange => e.resourceState == Exists && e.metageneration > 1
  }

  /** An event passes every check exactly when each of the four conditions is false. */
  lemma PassesEveryCheck(e: ObjectEvent)
    ensures (forall k :: !Fails(e, k)) <==>
      (ImagePrefix <= e.contentType && !(ThumbPrefix <= Basename(e.name))
       && e.resourceState != NotExists && !(e.resourceState == Exists && e.metageneration > 1))
  {
    if ImagePrefix <= e.contentType && !(ThumbPrefix <= Basename(e.name))
       && e.resourceState != NotExists && !(e.resourceState == Exists && e.metageneration > 1)
    {
      forall k ensures !Fails(e, k) {
        match k
        case NotAnImage =>
        case AlreadyThumbnail =>
        case DeletionEvent =>
        case MetadataChange =>
      }
    } else {
      assert Fails(e, NotAnImage) || Fails(e, AlreadyThumbnail) || Fails(e, DeletionEvent) || Fails(e, MetadataChange);
    }
  }

  /**
   * The stop checks, run in order: the result is the first check that fails,
   * or None when the event is to be processed.
   */
  function StopCondition(e: ObjectEvent): (r: Option<StopReason>)
    ensures r.None? <==> forall k :: !Fails(e, k)
    ensures r.Some? ==> Fails(e, r.value) && forall k :: Rank(k) < Rank(r.value) ==> !Fails(e, k)
  {
    PassesEveryCheck(e);
    if !(ImagePrefix <= e.contentType) then Some(NotAnImage)
    else
      var fileName := Basename(e.name);
      if ThumbPrefix <= fileName then Some(AlreadyThumbnail)
      else if e.resourceState == NotExists then Some(DeletionEvent)
      else if e.resourceState == Exists && e.metageneration > 1 then Some(MetadataChange)
      else
        None
  }

  /** The local copy: the object's base name inside the scratch directory. */
  function TempFilePath(tmpdir: string, name: string): (r: string)
    ensures Basename(r) == Basename(name)
    ensures tmpdir != "" && tmpdir != "." && tmpdir[|tmpdir| - 1] != '/' ==>
      r == tmpdir + "/" + Basename(name) && Dirname(r) == tmpdir
  {
    var base := Basename(name);
    var r := Join(tmpdir, base);
    assert tmpdir != "" && tmpdir != "." && tmpdir[|tmpdir| - 1] != '/' ==>
      r == tmpdir + "/" + base && Dirname(r) == tmpdir by {
      if tmpdir != "" && tmpdir != "." && tmpdir[|tmpdir| - 1] != '/' {
        SplitAtSeparator(tmpdir, base);
        JoinWithSeparator(tmpdir, base);
      }
    }
    r
  }

  /** Where the thumbnail goes: the object's directory, base name prefixed with "thumb_". */
  function ThumbFilePath(name: string): (r: string)
    ensures Basename(r) == ThumbPrefix + Basename(name)
    ensures NoRepeatedSlash(name) ==> Dirname(r) == Dirname(name)
  {
    var thumbFileName := ThumbPrefix + Basename(name);
    assert '/' !in thumbFileName by {
      assert forall i :: 0 <= i < |ThumbPrefix| ==> thumbFileName[i] == ThumbPrefix[i];
    }
    var r := Join(Dirname(name), thumbFileName);
    assert NoRepeatedSlash(name) ==> Dirname(r) == Dirname(name) by {
      if NoRepeatedSlash(name) { DirnameOfJoin(name, thumbFileName); }
    }
    r
  }

  /** What the trigger does with an event: stops with a reason, or calls its collaborators in order. */
  datatype Outcome = Stopped(reason: StopReason) | Planned(actions: seq<Action>)

  /** The actions an outcome performs; a stopped trigger performs none. */
  function Actions(o: Outcome): seq<Action> {
    match o
    case Stopped(_) => []
    case Planned(actions) => actions
  }

  /**
   * The trigger on one event with the scratch directory `tmpdir`: the stop
   * checks, then download, convert in place, upload and unlink, all on the
   * same temporary path.
   */
  function Plan(e: ObjectEvent, tmpdir: string): (o: Outcome)
    ensures o.Stopped? <==> StopCondition(e).Some?
    ensures o.Stopped? ==> StopCondition(e) == Some(o.reason)
  {
    match StopCondition(e)
    case Some(k) => Stopped(k)
    case None =>
      Planned(Chain(e.bucket, e.name, TempFilePath(tmpdir, e.name), ThumbFilePath(e.name)))
  }

  /** The promise chain: download to the temporary file, convert it in place, upload it, unlink it. */
  function Chain(bucket: string, name: string, tempFilePath: string, thumbFilePath: string): seq<Action> {
    [Download(bucket, name, tempFilePath),
     Spawn(ConvertCommand, [tempFilePath, "-thumbnail", ThumbnailGeometry, tempFilePath]),
     Upload(bucket, tempFilePath, thumbFilePath),
     Unlink(tempFilePath)]
  }

  /**
   * An accepted event is downloaded to a temporary file named after its base
   * name, converted there in place, uploaded beside the original under the
   * "thumb_" name, and the temporary file is then removed.
   */
  lemma PlannedChain(e: ObjectEvent, tmpdir: string)
    requires StopCondition(e).None?
    ensures var acts := Plan(e, tmpdir).actions;
      var temp := TempFilePath(tmpdir, e.name);
      var dest := ThumbFilePath(e.name);
      && Plan(e, tmpdir).Planned?
      && acts == [Download(e.bucket, e.name, temp),
                  Spawn(ConvertCommand, [temp, "-thumbnail", "200x200>", temp]),
                  Upload(e.bucket, temp, dest),
                  Unlink(temp)]
      && Basename(temp) == Basename(e.name)
      && Basename(dest) == ThumbPrefix + Basename(e.name)
      && (NoRepeatedSlash(e.name) ==> Dirname(dest) == Dirname(e.name))
  {
  }

  /**
   * A content type that does not start with "image/" stops the trigger before
   * the name is looked at: the same event under any other name stops too.
   */
  lemma NotAnImageStopsFirst(e: ObjectEvent, tmpdir: string, otherName: string)
    requires !(ImagePrefix <= e.contentType)
    ensures Plan(e, tmpdir) == Stopped(NotAnImage)
    ensures Plan(e.(name := otherName), tmpdir) == Stopped(NotAnImage)
    ensures Actions(Plan(e, tmpdir)) == []
  {
  }

  /** An object whose base name starts with "thumb_" is never processed, whatever its state. */
  lemma ThumbnailNameStops(e: ObjectEvent, tmpdir: string)
    requires ThumbPrefix <= Basename(e.name)
    ensures Actions(Plan(e, tmpdir)) == []
    ensures Plan(e, tmpdir) == if ImagePrefix <= e.contentType then Stopped(AlreadyThumbnail) else Stopped(NotAnImage)
  {
  }

  /** A deletion event is never processed, whatever its metageneration. */
  lemma DeletionStops(e: ObjectEvent, tmpdir: string)
    requires e.resourceState == NotExists
    ensures Actions(Plan(e, tmpdir)) == []
    ensures ImagePrefix <= e.contentType && !(ThumbPrefix <= Basename(e.name)) ==>
      Plan(e, tmpdir) == Stopped(DeletionEvent)
  {
  }

  /** A metadata update of an existing object is never processed. */
  lemma MetadataChangeStops(e: ObjectEvent, tmpdir: string)
    requires e.resourceState == Exists && e.metageneration > 1
    ensures Actions(Plan(e, tmpdir)) == []
    ensures ImagePrefix <= e.contentType && !(ThumbPrefix <= Basename(e.name)) ==>
      Plan(e, tmpdir) == Stopped(MetadataChange)
  {
  }

  /** The metageneration is consulted only when the state is exactly "exists". */
  lemma MetagenerationOnlyWhenExists(e: ObjectEvent, metageneration: int)
    requires e.resourceState != Exists
    ensures StopCondition(e.(metageneration := metageneration)) == StopCondition(e)
  {
  }

  /**
   * Exactly the image events whose base name lacks the prefix, that are not
   * deletions and not metadata updates of an existing object are processed;
   * a state other than "exists" or "not_exists" is processed whatever its
   * metageneration.
   */
  lemma ProcessedExactly(e: ObjectEvent, tmpdir: string)
    ensures Plan(e, tmpdir).Planned? <==>
      (ImagePrefix <= e.contentType && !(ThumbPrefix <= Basename(e.name))
       && e.resourceState != NotExists && !(e.resourceState == Exists && e.metageneration > 1))
  {
    PassesEveryCheck(e);
  }

  /**
   * No thumbnail-of-thumbnail loop: every object the trigger uploads, when it
   * raises an event of its own (with any content type, state or
   * metageneration), is stopped, by the thumbnail check or by the image
   * check before it.
   */
  lemma NoThumbnailLoop(e: ObjectEvent, tmpdir: string, upload: Action, next: ObjectEvent, nextTmpdir: string)
    requires upload in Actions(Plan(e, tmpdir)) && upload.Upload?
    requires next.bucket == upload.bucket && next.name == upload.destination
    ensures Actions(Plan(next, nextTmpdir)) == []
    ensures Plan(next, nextTmpdir) == Stopped(NotAnImage) || Plan(next, nextTmpdir) == Stopped(AlreadyThumbnail)
  {
    var thumb := ThumbFilePath(e.name);
    assert Plan(e, tmpdir) == Planned(Chain(e.bucket, e.name, TempFilePath(tmpdir, e.name), thumb));
    UploadInChain(e.bucket, e.name, TempFilePath(tmpdir, e.name), thumb, upload);
    ThumbnailPathStops(e.name, next);
  }

  /** The only upload of the chain is the one of the temporary file to the destination. */
  lemma UploadInChain(bucket: string, name: string, temp: string, dest: string, upload: Action)
    requires upload in Chain(bucket, name, temp, dest) && upload.Upload?
    ensures upload == Upload(bucket, temp, dest)
  {
  }

  /** An event on the thumbnail path of any object is stopped by the first or the second check. */
  lemma ThumbnailPathStops(name: string, next: ObjectEvent)
    requires next.name == ThumbFilePath(name)
    ensures StopCondition(next) == Some(NotAnImage) || StopCondition(next) == Some(AlreadyThumbnail)
  {
    assert ThumbPrefix <= Basename(next.name);
  }

  /**
   * Running the chain of an accepted event whose calls the environment does
   * not reject: when the object exists, the bucket gains its converted copy
   * at the thumbnail path, nothing else in any bucket changes, and the
   * temporary path is left free; when it does not, the download fails and
   * nothing at all changes.
   */
  lemma ProcessedEventEffect(e: ObjectEvent, tmpdir: string, w: World)
    requires StopCondition(e).None?
    requires forall a :: a in Actions(Plan(e, tmpdir)) ==> a !in w.rejects
    ensures var r := Execute(w, Actions(Plan(e, tmpdir)));
      var key := (e.bucket, e.name);
      if key in w.objects then
        r.done == 4
        && r.world.objects == w.objects[(e.bucket, ThumbFilePath(e.name)) := Converted(w.objects[key], ["-thumbnail", ThumbnailGeometry])]
        && r.world.files == w.files - {TempFilePath(tmpdir, e.name)}
      else
        r == Run(w, 0)
  {
    ChainEffect(w, e.bucket, e.name, TempFilePath(tmpdir, e.name), ThumbFilePath(e.name));
  }

  /** The four-step chain on any object, temporary path and destination. */
  lemma ChainEffect(w: World, bucket: string, name: string, temp: string, dest: string)
    requires forall a :: a in Chain(bucket, name, temp, dest) ==> a !in w.rejects
    ensures var r := Execute(w, Chain(bucket, name, temp, dest));
      var key := (bucket, name);
      if key in w.objects then
        r.done == 4
        && r.world.objects == w.objects[(bucket, dest) := Converted(w.objects[key], ["-thumbnail", ThumbnailGeometry])]
        && r.world.files == w.files - {temp}
        && r.world.rejects == w.rejects
      else
        r == Run(w, 0)
  {
    var acts := Chain(bucket, name, temp, dest);
    var key := (bucket, name);
    assert acts[0] !in w.rejects && acts[1] !in w.rejects && acts[2] !in w.rejects && acts[3] !in w.rejects;
    if key in w.objects {
      var thumb := Converted(w.objects[key], ["-thumbnail", ThumbnailGeometry]);
      var w1 := w.(files := w.files[temp := w.objects[key]]);
      var w2 := w.(files := w.files[temp := thumb]);
      var w3 := w2.(objects := w.objects[(bucket, dest) := thumb]);
      var w4 := w3.(files := w.files - {temp});
      assert Step(w, acts[0]) == Some(w1);
      ConvertInPlace(w, temp, w.objects[key]);
      assert Step(w2, acts[2]) == Some(w3);
      assert Step(w3, acts[3]) == Some(w4) by {
        assert w2.files - {temp} == w.files - {temp};
      }
    }
    ExecuteFour(w, acts[0], acts[1], acts[2], acts[3]);
    assert acts == [acts[0], acts[1], acts[2], acts[3]];
  }

  /**
   * A chain rejected after the download and before the unlink leaves the
   * temporary file behind: no cleanup runs on the failure path.
   */
  lemma RejectedChainLeavesTempFile(w: World, bucket: string, name: string, temp: string, dest: string)
    requires var r := Execute(w, Chain(bucket, name, temp, dest)); 0 < r.done < 4
    ensures temp in Execute(w, Chain(bucket, name, temp, dest)).world.files
  {
    var acts := Chain(bucket, name, temp, dest);
    var w1 := Step(w, acts[0]).value;
    assert temp in w1.files;
    var r1 := Execute(w1, acts[1..]);
    if r1.done > 0 {
      var w2 := Step(w1, acts[1]).value;
      assert temp in w2.files;
      assert acts[1..][1..] == acts[2..];
      var r2 := Execute(w2, acts[2..]);
      if r2.done > 0 {
        var w3 := Step(w2, acts[2]).value;
        assert w3.files == w2.files;
        assert acts[2..][1..] == acts[3..];
        assert Execute(w3, acts[3..]).done == 0;
      }
    }
  }

  /** The convert call of the chain replaces the temporary file by its thumbnail and touches nothing else. */
  lemma ConvertInPlace(w: World, temp: string, blob: Blob)
    requires Spawn(ConvertCommand, [temp, "-thumbnail", ThumbnailGeometry, temp]) !in w.rejects
    ensures Step(w.(files := w.files[temp := blob]), Spawn(ConvertCommand, [temp, "-thumbnail", ThumbnailGeometry, temp]))
      == Some(w.(files := w.files[temp := Converted(blob, ["-thumbnail", ThumbnailGeometry])]))
  {
    var args := [temp, "-thumbnail", ThumbnailGeometry, temp];
    assert args[1..|args| - 1] == ["-thumbnail", ThumbnailGeometry];
    var thumb := Converted(blob, ["-thumbnail", ThumbnailGeometry]);
    assert w.files[temp := blob][temp := thumb] == w.files[temp := thumb];
  }

  /**
   * An image `dir/base` (a plain directory, a base name without the prefix)
   * created with metageneration 1 is downloaded to `tmpdir/base` and
   * uploaded as `dir/thumb_base`.
   */
  lemma ObjectInDirectory(bucket: string, dir: string, base: string, contentType: string, tmpdir: string)
    requires dir != "" && dir != "." && dir[|dir| - 1] != '/'
    requires '/' !in base && !(ThumbPrefix <= base) && ImagePrefix <= contentType
    ensures Plan(ObjectEvent(bucket, dir + "/" + base, contentType, Exists, 1), tmpdir)
      == Planned(Chain(bucket, dir + "/" + base, Join(tmpdir, base), dir + "/" + ThumbPrefix + base))
  {
    SplitAtSeparator(dir, base);
    ThumbInDirectory(dir, base);
  }

  /** The thumbnail of `dir/base` is `dir/thumb_base`. */
  lemma ThumbInDirectory(dir: string, base: string)
    requires dir != "" && dir != "." && dir[|dir| - 1] != '/' && '/' !in base
    ensures ThumbFilePath(dir + "/" + base) == dir + "/" + ThumbPrefix + base
  {
    SplitAtSeparator(dir, base);
    var thumbName := ThumbPrefix + base;
    assert Join(dir, thumbName) == dir + "/" + thumbName;
    assert dir + "/" + thumbName == dir + "/" + ThumbPrefix + base;
  }

  /**
   * The example in the handler's comments (functions/index.js:126-128 and
   * 182): the object /image/test.jpg of type image/jpg, with /tmp as scratch
   * directory, gives the thumbnail /image/thumb_test.jpg.
   */
  lemma TestJpgExample(e: ObjectEvent, tmpdir: string)
    requires e == ObjectEvent("b", "/image/test.jpg", "image/jpg", "exists", 1) && tmpdir == "/tmp"
    ensures Plan(e, tmpdir)
      == Planned([
        Download("b", "/image/test.jpg", "/tmp/test.jpg"),
        Spawn("convert", ["/tmp/test.jpg", "-thumbnail", "200x200>", "/tmp/test.jpg"]),
        Upload("b", "/tmp/test.jpg", "/image/thumb_test.jpg"),
        Unlink("/tmp/test.jpg")])
  {
    var dir: string, base: string := "/image", "test.jpg";
    assert !(ThumbPrefix <= base) by { assert base[1] != ThumbPrefix[1]; }
    assert dir + "/" + base == "/image/test.jpg";
    assert ThumbPrefix + base == "thumb_test.jpg";
    assert dir + "/" + ThumbPrefix + base == "/image/thumb_test.jpg";
    assert "/tmp" + "/" + base == "/tmp/test.jpg";
    JoinWithSeparator("/tmp", base);
    ObjectInDirectory("b", dir, base, "image/jpg", "/tmp");
  }
}
