/** The thumbnail job handler of the `fileQueue` worker. */
module Worker {
  import opened Wrappers
  import opened Text
  import opened Model

  /** The thumbnail widths, in the order the handler maps over them. */
  const Sizes: seq<nat> := [500, 250, 100]

  /** The `data` of a job; an absent field is `None`. */
  datatype Job = Job(fileId: Option<string>, userId: Option<string>)

  /**
   * How a job ends: `Failed` names the error the handler throws (how Bull
   * then settles the job is not modelled); completed when `done()` is
   * called, after every thumbnail was written; or pending when a thumbnail
   * could not be produced, so that `done()` is never called.
   */
  datatype Outcome = Failed(reason: string) | Completed | Pending

  /** A thumbnail generator: `image-thumbnail` on some content and width; `None` when it rejects. */
  type Thumbnailer = (Bytes, nat) -> Option<Bytes>

  /** `${filePath}_${size}`. */
  function ThumbPath(path: string, width: nat): (thumbPath: string)
    ensures |thumbPath| > |path| + 1 && thumbPath[..|path|] == path && thumbPath[|path|] == '_'
  {
    path + "_" + DecimalString(width)
  }

  /**
   * `imageThumbnail(filePath, { width })`: the thumbnail of the content at
   * `path`; a file missing from the disk is a rejection.
   */
  function Resize(disk: map<string, Bytes>, path: string, width: nat, thumb: Thumbnailer): (r: Option<Bytes>)
    ensures path !in disk ==> r.None?
    ensures path in disk ==> r == thumb(disk[path], width)
  {
    match Get(disk, path)
    case None => None
    case Some(content) => thumb(content, width)
  }

  /** The disk after writing, width by width, every thumbnail that could be produced. */
  function Thumbnails(disk: map<string, Bytes>, path: string, widths: seq<nat>, thumb: Thumbnailer): (r: map<string, Bytes>)
    ensures disk.Keys <= r.Keys
    ensures forall key :: key in r && key !in disk ==> exists w :: w in widths && key == ThumbPath(path, w)
    decreases |widths|
  {
    if widths == [] then disk
    else
      var before := Thumbnails(disk, path, widths[..|widths| - 1], thumb);
      var width := widths[|widths| - 1];
      match Resize(before, path, width, thumb)
      case None => before
      case Some(t) => before[ThumbPath(path, width) := t]
  }

  /** `files.findOne({ _id: fileId, userId })`: the record must match both. */
  function FileOf(files: seq<FileRecord>, fileId: string, userId: string): (r: Option<nat>)
    ensures r.Some? ==> r.value < |files| && files[r.value].id == fileId && files[r.value].userId == userId
    ensures r.None? ==> forall j :: 0 <= j < |files| ==> !(files[j].id == fileId && files[j].userId == userId)
  {
    First(files, (f: FileRecord) => f.id == fileId && f.userId == userId)
  }

  /**
   * The handler: `fileId`, then `userId`, must be truthy; the record must
   * match both; then a thumbnail for each width is written next to the
   * record's `localPath`. Only the disk changes.
   */
  function ProcessJob(s: State, job: Job, thumb: Thumbnailer): (out: (Outcome, State))
    ensures out.1 == s.(disk := out.1.disk)
    ensures !Truthy(job.fileId) ==> out == (Failed("Missing fileId"), s)
    ensures Truthy(job.fileId) && !Truthy(job.userId) ==> out == (Failed("Missing userId"), s)
    ensures (Truthy(job.fileId) && Truthy(job.userId) &&
             FileOf(s.files, job.fileId.value, job.userId.value).None?) ==>
      out == (Failed("File not found"), s)
    ensures out.0.Failed? <==>
      !Truthy(job.fileId) || !Truthy(job.userId) || FileOf(s.files, job.fileId.value, job.userId.value).None?
    ensures !out.0.Failed? ==>
      var rec := s.files[FileOf(s.files, job.fileId.value, job.userId.value).value];
      (out.0 == Completed <==>
         rec.localPath.Some? && forall w :: w in Sizes ==> Resize(s.disk, rec.localPath.value, w, thumb).Some?)
  {
    if !Truthy(job.fileId) then (Failed("Missing fileId"), s)
    else if !Truthy(job.userId) then (Failed("Missing userId"), s)
    else match FileOf(s.files, job.fileId.value, job.userId.value)
      case None => (Failed("File not found"), s)
      case Some(i) =>
        match s.files[i].localPath
        case None => (Pending, s)
        case Some(path) =>
          var produced := forall w :: w in Sizes ==> Resize(s.disk, path, w, thumb).Some?;
          (if produced then Completed else Pending, s.(disk := Thumbnails(s.disk, path, Sizes, thumb)))
  }

  // ---------------------------------------------------------------------------
  // Where the thumbnails go

  /** The thumbnail of width 500 is `<path>_500`, and likewise for 250 and 100. */
  lemma ThumbPathsSpelledOut(path: string)
    ensures ThumbPath(path, 500) == path + "_500"
    ensures ThumbPath(path, 250) == path + "_250"
    ensures ThumbPath(path, 100) == path + "_100"
  {
  }

  /** Thumbnail paths of one file differ for different widths, and never equal the file's own path. */
  lemma ThumbPathsDistinct(path: string, a: nat, b: nat)
    ensures ThumbPath(path, a) != path
    ensures ThumbPath(path, a) == ThumbPath(path, b) ==> a == b
  {
    if ThumbPath(path, a) == ThumbPath(path, b) {
      var n := |path| + 1;
      assert ThumbPath(path, a)[n..] == DecimalString(a);
      assert ThumbPath(path, b)[n..] == DecimalString(b);
      DecimalStringInjective(a, b);
    }
  }

  /** Writing thumbnails never touches the original file. */
  lemma {:induction false} ThumbnailsKeepSource(disk: map<string, Bytes>, path: string, widths: seq<nat>, thumb: Thumbnailer)
    ensures Get(Thumbnails(disk, path, widths, thumb), path) == Get(disk, path)
    decreases |widths|
  {
    if widths != [] {
      ThumbnailsKeepSource(disk, path, widths[..|widths| - 1], thumb);
      ThumbPathsDistinct(path, widths[|widths| - 1], 0);
    }
  }

  /**
   * The thumbnail, if any, that the writes for `widths` leave at `key`: the
   * last width whose path is `key` and whose thumbnail could be produced.
   */
  function Written(disk: map<string, Bytes>, path: string, widths: seq<nat>, thumb: Thumbnailer, key: string): Option<Bytes>
    decreases |widths|
  {
    if widths == [] then None
    else
      var width := widths[|widths| - 1];
      var t := Resize(disk, path, width, thumb);
      if ThumbPath(path, width) == key && t.Some? then t
      else Written(disk, path, widths[..|widths| - 1], thumb, key)
  }

  /** After the writes, each entry is the thumbnail written there, or else what was there before. */
  lemma {:induction false} ThumbnailsAt(disk: map<string, Bytes>, path: string, widths: seq<nat>, thumb: Thumbnailer, key: string)
    ensures Get(Thumbnails(disk, path, widths, thumb), key) ==
      match Written(disk, path, widths, thumb, key)
      case Some(t) => Some(t)
      case None => Get(disk, key)
    decreases |widths|
  {
    if widths != [] {
      var init := widths[..|widths| - 1];
      ThumbnailsAt(disk, path, init, thumb, key);
      ThumbnailsKeepSource(disk, path, init, thumb);
    }
  }

  /** What is written at a thumbnail path depends only on the original file. */
  lemma {:induction false} WrittenDependsOnSource(d1: map<string, Bytes>, d2: map<string, Bytes>, path: string,
                                                  widths: seq<nat>, thumb: Thumbnailer, key: string)
    requires Get(d1, path) == Get(d2, path)
    ensures Written(d1, path, widths, thumb, key) == Written(d2, path, widths, thumb, key)
    decreases |widths|
  {
    if widths != [] {
      WrittenDependsOnSource(d1, d2, path, widths[..|widths| - 1], thumb, key);
    }
  }

  /** The entry at `<path>_<w>` is the thumbnail of width `w`, for each listed width whose thumbnail is produced. */
  lemma {:induction false} WrittenAtThumbPath(disk: map<string, Bytes>, path: string, widths: seq<nat>, thumb: Thumbnailer, w: nat)
    ensures Written(disk, path, widths, thumb, ThumbPath(path, w)) ==
      if w in widths then Resize(disk, path, w, thumb) else None
    decreases |widths|
  {
    if widths != [] {
      var init, last := widths[..|widths| - 1], widths[|widths| - 1];
      assert widths == init + [last];
      WrittenAtThumbPath(disk, path, init, thumb, w);
      ThumbPathsDistinct(path, last, w);
    }
  }

  /** Only thumbnail paths of listed widths are written. */
  lemma {:induction false} WrittenOnlyAtThumbPaths(disk: map<string, Bytes>, path: string, widths: seq<nat>, thumb: Thumbnailer, key: string)
    requires forall w :: w in widths ==> ThumbPath(path, w) != key
    ensures Written(disk, path, widths, thumb, key) == None
    decreases |widths|
  {
    if widths != [] {
      var init := widths[..|widths| - 1];
      assert forall w :: w in init ==> w in widths;
      WrittenOnlyAtThumbPaths(disk, path, init, thumb, key);
    }
  }

  /** Two disks with the same entries are the same disk. */
  lemma SameEntries(d1: map<string, Bytes>, d2: map<string, Bytes>)
    requires forall key :: Get(d1, key) == Get(d2, key)
    ensures d1 == d2
  {
    assert d1.Keys == d2.Keys by {
      forall key | key in d1 ensures key in d2 {
        assert Get(d1, key).Some?;
      }
      forall key | key in d2 ensures key in d1 {
        assert Get(d2, key).Some?;
      }
    }
    forall key | key in d1 ensures d1[key] == d2[key] {
      assert Get(d1, key) == Get(d2, key);
    }
  }

  /**
   * Writing the thumbnails a second time leaves the disk as the first time did.
   * This rests on `thumb` being a function of the file's content and the
   * width, as `Thumbnailer` models `image-thumbnail`.
   */
  lemma ThumbnailsIdempotent(disk: map<string, Bytes>, path: string, widths: seq<nat>, thumb: Thumbnailer)
    ensures Thumbnails(Thumbnails(disk, path, widths, thumb), path, widths, thumb) ==
            Thumbnails(disk, path, widths, thumb)
  {
    var once := Thumbnails(disk, path, widths, thumb);
    var twice := Thumbnails(once, path, widths, thumb);
    ThumbnailsKeepSource(disk, path, widths, thumb);
    forall key ensures Get(twice, key) == Get(once, key) {
      ThumbnailsAt(once, path, widths, thumb, key);
      ThumbnailsAt(disk, path, widths, thumb, key);
      WrittenDependsOnSource(once, disk, path, widths, thumb, key);
    }
    SameEntries(twice, once);
  }

  // ---------------------------------------------------------------------------
  // The job as a whole

  /**
   * A successful lookup writes `<localPath>_<w>` for each of the three widths
   * whose thumbnail is produced, and changes no other disk entry.
   */
  lemma ProcessJobWrites(s: State, job: Job, thumb: Thumbnailer)
    requires Truthy(job.fileId) && Truthy(job.userId)
    requires FileOf(s.files, job.fileId.value, job.userId.value).Some?
    ensures
      var rec := s.files[FileOf(s.files, job.fileId.value, job.userId.value).value];
      var disk := ProcessJob(s, job, thumb).1.disk;
      match rec.localPath
      case None => disk == s.disk
      case Some(path) =>
        && Get(disk, path) == Get(s.disk, path)
        && (forall w :: w in Sizes ==>
              Get(disk, ThumbPath(path, w)) ==
                if Resize(s.disk, path, w, thumb).Some? then Resize(s.disk, path, w, thumb)
                else Get(s.disk, ThumbPath(path, w)))
        && (forall key :: (forall w :: w in Sizes ==> ThumbPath(path, w) != key) ==>
              Get(disk, key) == Get(s.disk, key))
  {
    var rec := s.files[FileOf(s.files, job.fileId.value, job.userId.value).value];
    if rec.localPath.Some? {
      var path := rec.localPath.value;
      ThumbnailsKeepSource(s.disk, path, Sizes, thumb);
      forall w | w in Sizes
        ensures Get(Thumbnails(s.disk, path, Sizes, thumb), ThumbPath(path, w)) ==
                if Resize(s.disk, path, w, thumb).Some? then Resize(s.disk, path, w, thumb)
                else Get(s.disk, ThumbPath(path, w))
      {
        ThumbnailsAt(s.disk, path, Sizes, thumb, ThumbPath(path, w));
        WrittenAtThumbPath(s.disk, path, Sizes, thumb, w);
      }
      forall key | forall w :: w in Sizes ==> ThumbPath(path, w) != key
        ensures Get(Thumbnails(s.disk, path, Sizes, thumb), key) == Get(s.disk, key)
      {
        ThumbnailsAt(s.disk, path, Sizes, thumb, key);
        WrittenOnlyAtThumbPaths(s.disk, path, Sizes, thumb, key);
      }
    }
  }

  /**
   * Running the same job again ends the same way and leaves the same stores.
   * Like `ThumbnailsIdempotent`, this holds because `image-thumbnail` is
   * modelled as a deterministic function of the file's content and the width.
   */
  lemma ProcessJobIdempotent(s: State, job: Job, thumb: Thumbnailer)
    ensures ProcessJob(ProcessJob(s, job, thumb).1, job, thumb) == ProcessJob(s, job, thumb)
  {
    var s1 := ProcessJob(s, job, thumb).1;
    if Truthy(job.fileId) && Truthy(job.userId) {
      match FileOf(s.files, job.fileId.value, job.userId.value)
      case None =>
      case Some(i) =>
        match s.files[i].localPath
        case None =>
        case Some(path) =>
          ThumbnailsIdempotent(s.disk, path, Sizes, thumb);
          ThumbnailsKeepSource(s.disk, path, Sizes, thumb);
          assert forall w :: Resize(s1.disk, path, w, thumb) == Resize(s.disk, path, w, thumb);
    }
  }

  /** The worker keeps the stores consistent: it only adds or overwrites disk entries. */
  lemma ProcessJobKeepsConsistent(s: State, job: Job, thumb: Thumbnailer)
    requires Consistent(s)
    ensures Consistent(ProcessJob(s, job, thumb).1)
  {
  }

  /** No disk entry disappears while a job runs. */
  lemma ProcessJobKeepsEntries(s: State, job: Job, thumb: Thumbnailer, key: string)
    requires key in s.disk
    ensures key in ProcessJob(s, job, thumb).1.disk
  {
  }

  /** The `fileQueue.process` handler over the stores. */
  method HandleJob(db: Stores, job: Job, thumb: Thumbnailer) returns (outcome: Outcome)
    modifies db`disk
    ensures (outcome, db.Snapshot()) == ProcessJob(old(db.Snapshot()), job, thumb)
  {
    if !Truthy(job.fileId) {
      return Failed("Missing fileId");
    }
    if !Truthy(job.userId) {
      return Failed("Missing userId");
    }
    var found := FileOf(db.files, job.fileId.value, job.userId.value);
    if found.None? {
      return Failed("File not found");
    }
    var localPath := db.files[found.value].localPath;
    if localPath.None? {
      return Pending;
    }
    var filePath := localPath.value;
    var allProduced := true;
    for i := 0 to |Sizes|
      invariant db.disk == Thumbnails(old(db.disk), filePath, Sizes[..i], thumb)
      invariant allProduced <==> forall j :: 0 <= j < i ==> Resize(old(db.disk), filePath, Sizes[j], thumb).Some?
    {
      ThumbnailsKeepSource(old(db.disk), filePath, Sizes[..i], thumb);
      assert Sizes[..i + 1][..i] == Sizes[..i];
      var thumbnail := Resize(db.disk, filePath, Sizes[i], thumb);
      if thumbnail.Some? {
        db.disk := db.disk[ThumbPath(filePath, Sizes[i]) := thumbnail.value];
      } else {
        allProduced := false;
      }
    }
    assert Sizes[..|Sizes|] == Sizes;
    assert (forall w :: w in Sizes ==> Resize(old(db.disk), filePath, w, thumb).Some?) <==>
           (forall j :: 0 <= j < |Sizes| ==> Resize(old(db.disk), filePath, Sizes[j], thumb).Some?);
    return if allProduced then Completed else Pending;
  }
}
