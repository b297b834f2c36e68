/** The upload button's batch loop: each selected file passes the 50 MB gate
    (an oversized image is compressed first), is stored in the application bucket
    and catalogued; the loop counts successes and failures and reports both. */
module Upload {
  import opened Wrappers
  import opened Text
  import opened Encryption
  import opened StorageProviders
  import opened Api
  import opened Credentials

  const MaxSize: nat := 52428800
  const CompressTarget: nat := 1048576
  const TooLarge: string := "File size exceeds 50MB limit"

  /** What the outside world answers while one file is handled: the file
      `compressImage` produces (or its failure), the clock and random token the
      path is named with, the storage reply, the id, clock and reply of the
      catalog insert, and what the file utilities answer for this file
      (`isImageFile` on its type, `sanitizeFileName` on the stored file's name). */
  datatype Attempt = Attempt(
    compressed: Result<LocalFile>,
    millis: nat,
    token: string,
    uploadReply: Reply,
    rowId: string,
    now: nat,
    createReply: Reply,
    image: bool,
    safeName: string)

  /** The component's fixed inputs: the signed-in user's id and the folder being viewed. */
  datatype Context = Context(userId: string, folderId: Option<string>)

  /** The bucket's objects, the file table and the two counters. */
  datatype Tally = Tally(objects: map<string, Blob>, files: map<string, FileRecord>, successes: nat, errors: nat)

  /** The file that goes to storage, or the failure that ends this file's turn:
      files up to the limit pass unchanged, an oversized image is replaced by its
      compressed copy, any other oversized file is refused. */
  function Prepared(file: LocalFile, image: bool, compressed: Result<LocalFile>): (r: Result<LocalFile>)
    ensures |file.bytes| <= MaxSize ==> r == Ok(file)
    ensures |file.bytes| > MaxSize && !image ==> r == Err(TooLarge)
    ensures |file.bytes| > MaxSize && image ==> r == compressed
  {
    if |file.bytes| > MaxSize then
      if image then compressed else Err(TooLarge)
    else Ok(file)
  }

  /** The path `storageApi.uploadFile` names the (possibly compressed) file with. */
  function PathOf(file: LocalFile, a: Attempt, ctx: Context): string {
    LegacyObjectPath(ctx.userId, a.millis, a.token, file.name)
  }

  /** The catalog row requested for a stored file. */
  function Draft(file: LocalFile, a: Attempt, ctx: Context): (d: FileDraft)
    ensures d.name == a.safeName && d.size == |file.bytes| && d.mime == file.mime
    ensures d.storagePath == PathOf(file, a, ctx) && d.folderId == ctx.folderId && d.ownerId == ctx.userId
    ensures d.lastAccessedAt == None && !d.isFavorite
  {
    FileDraft(a.safeName, |file.bytes|, file.mime, PathOf(file, a, ctx), ctx.folderId, ctx.userId,
              None, false)
  }

  /** Whether a file makes it through every stage: the gate, the upload and the insert. */
  predicate Succeeds(file: LocalFile, a: Attempt, ctx: Context) {
    Prepared(file, a.image, a.compressed).Ok? && a.uploadReply.Delivered? && a.createReply.Delivered?
  }

  /** One turn of the loop. A failure at any stage counts one error and leaves
      the catalog as it was; an object stored before the insert failed stays in
      the bucket. */
  function Step(t: Tally, file: LocalFile, a: Attempt, ctx: Context): (r: Tally)
    ensures r.successes + r.errors == t.successes + t.errors + 1
    ensures r.successes == t.successes + 1 <==> Succeeds(file, a, ctx)
    ensures !Succeeds(file, a, ctx) ==> r.files == t.files
    ensures Succeeds(file, a, ctx) ==>
              var f := Prepared(file, a.image, a.compressed).value;
              r.files == t.files[a.rowId := NewFile(a.rowId, Draft(f, a, ctx), a.now)]
    ensures Prepared(file, a.image, a.compressed).Ok? && a.uploadReply.Delivered? ==>
              var f := Prepared(file, a.image, a.compressed).value;
              r.objects == t.objects[PathOf(f, a, ctx) := Blob(f.bytes, f.mime)]
    ensures !(Prepared(file, a.image, a.compressed).Ok? && a.uploadReply.Delivered?) ==> r.objects == t.objects
  {
    match Prepared(file, a.image, a.compressed)
    case Err(_) => t.(errors := t.errors + 1)
    case Ok(f) =>
      var (uploaded, objects) :=
        ProviderUpload(Supabase(SupabaseBucket), t.objects, Blob(f.bytes, f.mime), PathOf(f, a, ctx), a.uploadReply);
      if uploaded.Err? then t.(objects := objects, errors := t.errors + 1)
      else if !a.createReply.Delivered? then t.(objects := objects, errors := t.errors + 1)
      else t.(objects := objects, files := t.files[a.rowId := NewFile(a.rowId, Draft(f, a, ctx), a.now)],
              successes := t.successes + 1)
  }

  /** The loop over the selected files, in order. */
  function Run(t: Tally, selected: seq<LocalFile>, attempts: seq<Attempt>, ctx: Context): Tally
    requires |selected| == |attempts|
    decreases |selected|
  {
    if selected == [] then t
    else
      var n := |selected| - 1;
      Step(Run(t, selected[..n], attempts[..n], ctx), selected[n], attempts[n], ctx)
  }

  /** The loop after its first `i` turns, counted by index. */
  function Prefix(t: Tally, selected: seq<LocalFile>, attempts: seq<Attempt>, ctx: Context, i: nat): Tally
    requires |selected| == |attempts| && i <= |selected|
    decreases i
  {
    if i == 0 then t else Step(Prefix(t, selected, attempts, ctx, i - 1), selected[i - 1], attempts[i - 1], ctx)
  }

  /** The first `i` turns are the loop over the first `i` files. */
  lemma {:induction false} PrefixIsRun(t: Tally, selected: seq<LocalFile>, attempts: seq<Attempt>, ctx: Context,
                                       i: nat)
    requires |selected| == |attempts| && i <= |selected|
    ensures Prefix(t, selected, attempts, ctx, i) == Run(t, selected[..i], attempts[..i], ctx)
    decreases i
  {
    if i > 0 {
      PrefixIsRun(t, selected, attempts, ctx, i - 1);
      assert selected[..i][..i - 1] == selected[..i - 1] && attempts[..i][..i - 1] == attempts[..i - 1];
    }
  }

  /** How many of the files make it through. */
  function Count(selected: seq<LocalFile>, attempts: seq<Attempt>, ctx: Context): (n: nat)
    requires |selected| == |attempts|
    ensures n <= |selected|
    decreases |selected|
  {
    if selected == [] then 0
    else
      var n := |selected| - 1;
      Count(selected[..n], attempts[..n], ctx) + (if Succeeds(selected[n], attempts[n], ctx) then 1 else 0)
  }

  /** Some file got through exactly when the count is positive, so the upload
      callback fires exactly when one did. */
  lemma {:induction false} CountPositive(selected: seq<LocalFile>, attempts: seq<Attempt>, ctx: Context)
    requires |selected| == |attempts|
    ensures Count(selected, attempts, ctx) > 0 <==> exists i :: 0 <= i < |selected| && Succeeds(selected[i], attempts[i], ctx)
    decreases |selected|
  {
    if selected != [] {
      var n := |selected| - 1;
      CountPositive(selected[..n], attempts[..n], ctx);
      assert forall i :: 0 <= i < n ==> selected[..n][i] == selected[i] && attempts[..n][i] == attempts[i];
    }
  }

  /** The ids the catalog hands out during the batch are distinct. */
  predicate DistinctRowIds(attempts: seq<Attempt>) {
    forall i, j :: 0 <= i < j < |attempts| ==> attempts[i].rowId != attempts[j].rowId
  }

  /** ... and none of them is in use yet. */
  predicate FreshRowIds(files: map<string, FileRecord>, attempts: seq<Attempt>) {
    && (forall i :: 0 <= i < |attempts| ==> attempts[i].rowId !in files)
    && DistinctRowIds(attempts)
  }

  /** Every file is counted once: as a success when it gets through, as an error otherwise. */
  lemma {:induction false} RunCounts(t: Tally, selected: seq<LocalFile>, attempts: seq<Attempt>, ctx: Context)
    requires |selected| == |attempts|
    ensures Run(t, selected, attempts, ctx).successes == t.successes + Count(selected, attempts, ctx)
    ensures Run(t, selected, attempts, ctx).errors == t.errors + |selected| - Count(selected, attempts, ctx)
    decreases |selected|
  {
    if selected != [] {
      var n := |selected| - 1;
      RunCounts(t, selected[..n], attempts[..n], ctx);
    }
  }

  /** Objects are only ever added to the bucket during the batch. */
  lemma {:induction false} RunKeepsObjects(t: Tally, selected: seq<LocalFile>, attempts: seq<Attempt>, ctx: Context)
    requires |selected| == |attempts|
    ensures forall k :: k in t.objects ==> k in Run(t, selected, attempts, ctx).objects
    decreases |selected|
  {
    if selected != [] {
      var n := |selected| - 1;
      RunKeepsObjects(t, selected[..n], attempts[..n], ctx);
    }
  }

  /** The catalog gains rows only under the ids the batch was handed. */
  lemma {:induction false} RunOnlyBatchIds(t: Tally, selected: seq<LocalFile>, attempts: seq<Attempt>, ctx: Context,
                                           k: string)
    requires |selected| == |attempts|
    requires k !in t.files && forall i :: 0 <= i < |attempts| ==> attempts[i].rowId != k
    ensures k !in Run(t, selected, attempts, ctx).files
    decreases |selected|
  {
    if selected != [] {
      var n := |selected| - 1;
      assert forall i :: 0 <= i < n ==> attempts[..n][i] == attempts[i];
      RunOnlyBatchIds(t, selected[..n], attempts[..n], ctx, k);
    }
  }

  /** The id handed to the next file is still unused when its turn comes. */
  lemma PendingIdFresh(t: Tally, selected: seq<LocalFile>, attempts: seq<Attempt>, ctx: Context, i: int)
    requires |selected| == |attempts| && 0 <= i < |selected|
    requires FreshRowIds(t.files, attempts)
    ensures attempts[i].rowId !in Prefix(t, selected, attempts, ctx, i).files
  {
    PrefixIsRun(t, selected, attempts, ctx, i);
    FreshPrefix(t.files, attempts, i);
    RunOnlyBatchIds(t, selected[..i], attempts[..i], ctx, attempts[i].rowId);
  }

  /** With fresh, distinct ids the catalog grows by exactly one row per success. */
  lemma {:induction false} RunRowCount(t: Tally, selected: seq<LocalFile>, attempts: seq<Attempt>, ctx: Context)
    requires |selected| == |attempts|
    requires FreshRowIds(t.files, attempts)
    ensures |Run(t, selected, attempts, ctx).files| == |t.files| + Count(selected, attempts, ctx)
    decreases |selected|
  {
    if selected != [] {
      var n := |selected| - 1;
      var fs, ats := selected[..n], attempts[..n];
      FreshPrefix(t.files, attempts, n);
      RunRowCount(t, fs, ats, ctx);
      RunOnlyBatchIds(t, fs, ats, ctx, attempts[n].rowId);
      StepRowCount(Run(t, fs, ats, ctx), selected[n], attempts[n], ctx);
    }
  }

  /** The ids of the first `n` turns are fresh too, and none is the id of turn `n`. */
  lemma FreshPrefix(files: map<string, FileRecord>, attempts: seq<Attempt>, n: nat)
    requires FreshRowIds(files, attempts) && n < |attempts|
    ensures FreshRowIds(files, attempts[..n])
    ensures forall i :: 0 <= i < n ==> attempts[..n][i].rowId != attempts[n].rowId
  {
    assert forall i :: 0 <= i < n ==> attempts[..n][i] == attempts[i];
  }

  /** One turn under an unused id adds a row exactly when the file gets through. */
  lemma StepRowCount(t: Tally, file: LocalFile, a: Attempt, ctx: Context)
    requires a.rowId !in t.files
    ensures |Step(t, file, a, ctx).files| == |t.files| + if Succeeds(file, a, ctx) then 1 else 0
  {
  }

  /** Every row the batch adds names an object that is in the bucket. */
  lemma {:induction false} RunRowsStored(t: Tally, selected: seq<LocalFile>, attempts: seq<Attempt>, ctx: Context)
    requires |selected| == |attempts|
    ensures var r := Run(t, selected, attempts, ctx);
            forall k :: k in r.files && k !in t.files ==> r.files[k].storagePath in r.objects
    decreases |selected|
  {
    if selected != [] {
      var n := |selected| - 1;
      RunRowsStored(t, selected[..n], attempts[..n], ctx);
    }
  }

  /** The row catalogued for each file that gets through: the sanitised name,
      the size and type of the file actually stored, its storage path, the
      current folder and owner, not a favourite and never opened. */
  lemma {:induction false} RunRecords(t: Tally, selected: seq<LocalFile>, attempts: seq<Attempt>, ctx: Context, i: int)
    requires |selected| == |attempts|
    requires DistinctRowIds(attempts)
    requires 0 <= i < |selected| && Succeeds(selected[i], attempts[i], ctx)
    ensures var r := Run(t, selected, attempts, ctx);
            var f := Prepared(selected[i], attempts[i].image, attempts[i].compressed).value;
            && attempts[i].rowId in r.files
            && r.files[attempts[i].rowId] == NewFile(attempts[i].rowId, Draft(f, attempts[i], ctx), attempts[i].now)
            && PathOf(f, attempts[i], ctx) in r.objects
    decreases |selected|
  {
    var n := |selected| - 1;
    var fs, ats := selected[..n], attempts[..n];
    assert DistinctRowIds(ats);
    if i < n {
      assert fs[i] == selected[i] && ats[i] == attempts[i];
      RunRecords(t, fs, ats, ctx, i);
    }
  }

  /** A file over the limit that is not an image never reaches the bucket or
      the catalog. */
  lemma OversizedNonImageRefused(t: Tally, file: LocalFile, a: Attempt, ctx: Context)
    requires |file.bytes| > MaxSize && !a.image
    ensures Step(t, file, a, ctx) == t.(errors := t.errors + 1)
  {
  }

  /** The toasts shown after the loop: the completion notice when anything got
      through, the error notice when anything failed. */
  function Summary(successes: nat, errors: nat): (toasts: seq<Toast>)
    ensures |toasts| == (if successes > 0 then 1 else 0) + (if errors > 0 then 1 else 0)
    ensures successes > 0 ==>
              toasts[0] == Toast("Upload Complete", "Successfully uploaded " + Decimal(successes) + " file(s)", false)
    ensures errors > 0 ==>
              toasts[|toasts| - 1] == Toast("Upload Errors", "Failed to upload " + Decimal(errors) + " file(s)", true)
  {
    (if successes > 0 then [Toast("Upload Complete", "Successfully uploaded " + Decimal(successes) + " file(s)", false)]
     else [])
    + (if errors > 0 then [Toast("Upload Errors", "Failed to upload " + Decimal(errors) + " file(s)", true)] else [])
  }

  /** The body of the loop's `try` block for one file: gate, upload, insert.
      The tally `t` stands for the state the turn starts from. */
  method TryUpload(file: LocalFile, a: Attempt, ctx: Context, db: Database, bucket: Provider, ghost t: Tally)
    returns (ok: bool)
    requires db.Valid() && bucket.backend == Supabase(SupabaseBucket) && a.rowId !in db.files
    requires t.objects == bucket.objects && t.files == db.files
    modifies db, bucket
    ensures ok <==> Succeeds(file, a, ctx)
    ensures Step(t, file, a, ctx) == Tally(bucket.objects, db.files, if ok then t.successes + 1 else t.successes,
                                           if ok then t.errors else t.errors + 1)
    ensures db.Valid() && db.folders == old(db.folders) && db.sharedLinks == old(db.sharedLinks)
  {
    var prepared := Prepared(file, a.image, a.compressed);
    if prepared.Err? {
      return false;
    }
    var f := prepared.value;
    var path := Api.UploadFile(bucket, f, ctx.userId, a.millis, a.token, a.uploadReply);
    if path.Err? {
      return false;
    }
    var row := db.CreateFile(Draft(f, a, ctx), a.rowId, a.now, a.createReply);
    ok := row.Ok?;
  }

  /** The progress bar after `done` of `total` files, `(done / total) * 100`:
      never empty once a file is under way, never past full, and full at the last file. */
  method ProgressPercent(done: nat, total: nat) returns (p: real)
    requires 0 < done <= total
    ensures 0.0 < p <= 100.0
    ensures p == 100.0 <==> done == total
  {
    var q := done as real / total as real;
    assert q * total as real == done as real;
    p := q * 100.0;
  }

  /** The upload button's state: the progress dialog is open while `uploading`. */
  class UploadButton {
    var uploading: bool
    var progress: real
    var currentFile: string

    constructor ()
      ensures !uploading && progress == 0.0 && currentFile == []
    {
      uploading := false;
      progress := 0.0;
      currentFile := [];
    }

    /** The `for` loop of `handleFileChange`: every file in order, each failure
        counted and skipped; the dialog shows the file being handled. */
    method UploadEach(selected: seq<LocalFile>, attempts: seq<Attempt>, ctx: Context, db: Database, bucket: Provider)
      returns (successCount: nat, errorCount: nat)
      requires db.Valid() && bucket.backend == Supabase(SupabaseBucket)
      requires |attempts| == |selected|
      requires FreshRowIds(db.files, attempts)
      modifies this, db, bucket
      ensures db.Valid() && db.folders == old(db.folders) && db.sharedLinks == old(db.sharedLinks)
      ensures Run(Tally(old(bucket.objects), old(db.files), 0, 0), selected, attempts, ctx)
              == Tally(bucket.objects, db.files, successCount, errorCount)
      ensures uploading == old(uploading)
    {
      ghost var t0 := Tally(bucket.objects, db.files, 0, 0);
      successCount, errorCount := 0, 0;
      var i := 0;
      while i < |selected|
        invariant 0 <= i <= |selected|
        invariant db.Valid() && db.folders == old(db.folders) && db.sharedLinks == old(db.sharedLinks)
        invariant uploading == old(uploading)
        invariant Prefix(t0, selected, attempts, ctx, i) == Tally(bucket.objects, db.files, successCount, errorCount)
      {
        var file := selected[i];
        var a := attempts[i];
        currentFile := file.name;
        progress := ProgressPercent(i + 1, |selected|);
        PendingIdFresh(t0, selected, attempts, ctx, i);
        ghost var before := Tally(bucket.objects, db.files, successCount, errorCount);
        var ok := TryUpload(file, a, ctx, db, bucket, before);
        assert Prefix(t0, selected, attempts, ctx, i + 1) == Step(before, file, a, ctx);
        if ok {
          successCount := successCount + 1;
        } else {
          errorCount := errorCount + 1;
        }
        i := i + 1;
      }
      PrefixIsRun(t0, selected, attempts, ctx, i);
      assert selected[..i] == selected && attempts[..i] == attempts;
    }

    /** `handleFileChange`: `attempts[i]` is what the world answers for
        `selected[i]`. Returns whether `onUploadComplete` fired and the toasts
        shown after the loop. */
    method HandleFileChange(selected: seq<LocalFile>, attempts: seq<Attempt>, profileId: Option<string>,
                            folderId: Option<string>, db: Database, bucket: Provider)
      returns (notified: bool, toasts: seq<Toast>)
      requires db.Valid() && bucket.backend == Supabase(SupabaseBucket)
      requires |attempts| == |selected|
      requires FreshRowIds(db.files, attempts)
      modifies this, db, bucket
      ensures db.Valid() && db.folders == old(db.folders) && db.sharedLinks == old(db.sharedLinks)
      ensures selected == [] || profileId.None? ==>
                && !notified && toasts == []
                && bucket.objects == old(bucket.objects) && db.files == old(db.files)
                && uploading == old(uploading) && progress == old(progress) && currentFile == old(currentFile)
      ensures selected != [] && profileId.Some? ==>
                var ctx := Context(profileId.value, folderId);
                var r := Run(Tally(old(bucket.objects), old(db.files), 0, 0), selected, attempts, ctx);
                && bucket.objects == r.objects && db.files == r.files
                && (notified <==> r.successes > 0) && toasts == Summary(r.successes, r.errors)
                && !uploading && progress == 0.0 && currentFile == []
    {
      if selected == [] || profileId.None? {
        return false, [];
      }
      var ctx := Context(profileId.value, folderId);
      uploading := true;
      var successCount, errorCount := UploadEach(selected, attempts, ctx, db, bucket);
      uploading := false;
      progress := 0.0;
      currentFile := [];
      notified := successCount > 0;
      toasts := Summary(successCount, errorCount);
    }
  }
}
