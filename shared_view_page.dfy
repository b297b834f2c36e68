/** The public page behind a share link: the access decision that loads the link
    and its file, and the gate in front of the download button. */
module SharedViewPage {
  import opened Wrappers
  import opened Text
  import opened Encryption
  import opened StorageProviders
  import opened Api
  import opened Credentials

  const LinkNotFound: string := "Share link not found or has expired"
  const LinkExpired: string := "This share link has expired"
  const FileGone: string := "File not found or has been deleted"
  const LoadFailed: string := "Failed to load shared content"
  const Downloaded: Toast := Toast("Success", "File downloaded successfully", false)
  const DownloadFailed: Toast := Toast("Error", "Failed to download file", true)

  /** What the page shows: the link, the file, the spinner and the error text
      (the error page whenever it is non-empty). */
  datatype View = View(shareLink: Option<SharedLink>, file: Option<FileRecord>, loading: bool, error: string)

  /** The page as first rendered. */
  const Initial: View := View(None, None, true, "")

  /** The state setters one load calls: each field is written only when `Some`. */
  datatype Writes = Writes(link: Option<SharedLink>, file: Option<FileRecord>, error: Option<string>)

  /** A link with an expiry time before `now`; a link without one never expires. */
  predicate Expired(link: SharedLink, now: nat) {
    link.expiresAt.Some? && link.expiresAt.value < now
  }

  /** The access decision of `loadSharedContent` for `token`, given the
      share-link and file tables and how their two queries end. */
  function Decide(links: map<string, SharedLink>, files: map<string, FileRecord>, token: string,
                  linkReply: Reply, fileReply: Reply, now: nat): (w: Writes)
    requires forall k :: k in links ==> links[k].id == k
    requires Keyed(files)
    ensures w.error == Some(LinkNotFound) <==> LookupShareLink(links, token, linkReply) == Ok(None)
    ensures w.error == Some(LinkExpired) <==>
              exists l :: LookupShareLink(links, token, linkReply) == Ok(Some(l)) && Expired(l, now)
    ensures w.link.Some? ==>
              && LookupShareLink(links, token, linkReply) == Ok(w.link)
              && !Expired(w.link.value, now)
    ensures w.file.Some? ==>
              var f := w.file.value;
              && w.link.Some? && w.error.None?
              && w.link.value.fileId == Some(f.id)
              && f.id in files && files[f.id] == f && !f.isDeleted
    ensures w.link.None? ==> w.file.None? && w.error.Some?
    ensures w.error.Some? ==> w.error.value != []
    ensures w.link.Some? && w.file.None? && w.error.None? <==> w.link.Some? && !Truthy(w.link.value.fileId)
    ensures var found := LookupShareLink(links, token, linkReply);
            var withFile := found.Ok? && found.value.Some? && !Expired(found.value.value, now)
                            && Truthy(found.value.value.fileId);
            var fileRow := if withFile then LookupFile(files, found.value.value.fileId.value, fileReply) else Ok(None);
            && (w.file.Some? <==> withFile && fileRow.Ok? && fileRow.value.Some? && !fileRow.value.value.isDeleted)
            && (w.error == Some(FileGone) <==>
                  withFile && fileRow.Ok? && (fileRow.value.None? || fileRow.value.value.isDeleted))
            && (w.error == Some(LoadFailed) <==> found.Err? || (withFile && fileRow.Err?))
  {
    match LookupShareLink(links, token, linkReply)
    case Err(_) => Writes(None, None, Some(LoadFailed))
    case Ok(None) => Writes(None, None, Some(LinkNotFound))
    case Ok(Some(link)) =>
      if Expired(link, now) then Writes(None, None, Some(LinkExpired))
      else if !Truthy(link.fileId) then Writes(Some(link), None, None)
      else match LookupFile(files, link.fileId.value, fileReply)
        case Err(_) => Writes(Some(link), None, Some(LoadFailed))
        case Ok(Some(f)) =>
          if !f.isDeleted then Writes(Some(link), Some(f), None) else Writes(Some(link), None, Some(FileGone))
        case Ok(None) => Writes(Some(link), None, Some(FileGone))
  }

  /** The page after a load as the component does it: only the written fields
      change, and the spinner stops. */
  function Applied(v: View, w: Writes): (r: View)
    ensures r.shareLink == (if w.link.Some? then w.link else v.shareLink)
    ensures r.file == (if w.file.Some? then w.file else v.file)
    ensures r.error == (if w.error.Some? then w.error.value else v.error)
    ensures !r.loading
  {
    View(if w.link.Some? then w.link else v.shareLink,
         if w.file.Some? then w.file else v.file,
         false,
         if w.error.Some? then w.error.value else v.error)
  }

  /** The page after a load that starts from a clean slate; on the page's first
      load this is exactly what the component shows. */
  function Reloaded(w: Writes): (r: View)
    ensures r == Applied(Initial, w)
  {
    View(w.link, w.file, false, if w.error.Some? then w.error.value else "")
  }

  /** Whether the download button does anything. */
  predicate CanDownload(v: View) {
    v.file.Some? && v.shareLink.Some? && v.shareLink.value.canDownload
  }

  /** Once an error is shown, no later load of the same page clears it, even
      one for a token whose link and file are fine. */
  lemma ErrorPersists(v: View, links: map<string, SharedLink>, files: map<string, FileRecord>, token: string,
                      linkReply: Reply, fileReply: Reply, now: nat)
    requires forall k :: k in links ==> links[k].id == k
    requires Keyed(files)
    requires v.error != []
    ensures Applied(v, Decide(links, files, token, linkReply, fileReply, now)).error != []
  {
  }

  /** An unknown or expired link shows no link and no file on a fresh page. */
  lemma RefusedLinkShowsNothing(links: map<string, SharedLink>, files: map<string, FileRecord>, token: string,
                                fileReply: Reply, now: nat)
    requires forall k :: k in links ==> links[k].id == k
    requires Keyed(files)
    requires forall k :: k in links && links[k].shareToken == token ==> Expired(links[k], now)
    ensures var v := Reloaded(Decide(links, files, token, Delivered, fileReply, now));
            v.shareLink.None? && v.file.None? && v.error != [] && !CanDownload(v)
  {
  }

  /** A freshly created share link that never expires, to a live file, shows
      that file, and the download button follows the link's own setting. */
  lemma {:induction false} CreatedLinkShowsFile(links: map<string, SharedLink>, files: map<string, FileRecord>,
                                                link: SharedLink, now: nat)
    requires forall k :: k in links ==> links[k].id == k
    requires Keyed(files)
    requires forall k :: k in links ==> links[k].shareToken != link.shareToken
    requires link.expiresAt.None? && link.fileId.Some? && link.fileId.value != []
    requires link.fileId.value in files && !files[link.fileId.value].isDeleted
    ensures var v := Reloaded(Decide(links[link.id := link], files, link.shareToken, Delivered, Delivered, now));
            && v == View(Some(link), Some(files[link.fileId.value]), false, "")
            && (CanDownload(v) <==> link.canDownload)
  {
    CreatedLinkIsFound(links, link);
  }

  /** The page's state. */
  class SharedView {
    var shareLink: Option<SharedLink>
    var file: Option<FileRecord>
    var loading: bool
    var error: string

    constructor ()
      ensures Shown() == Initial
    {
      shareLink, file, loading, error := None, None, true, "";
    }

    function Shown(): View
      reads this
    {
      View(shareLink, file, loading, error)
    }

    /** The effect that runs whenever the route's token changes. Without a token
        nothing happens, so a page opened without one keeps its spinner. */
    method LoadSharedContent(token: Option<string>, db: Database, linkReply: Reply, fileReply: Reply, now: nat)
      requires db.Valid()
      modifies this
      ensures !Truthy(token) ==> Shown() == old(Shown())
      ensures Truthy(token) ==>
                Shown() == Applied(old(Shown()), Decide(db.sharedLinks, db.files, token.value, linkReply, fileReply, now))
    {
      if !Truthy(token) {
        return;
      }
      loading := true;
      var link := LookupShareLink(db.sharedLinks, token.value, linkReply);
      if link.Err? {
        error := LoadFailed;
        loading := false;
        return;
      }
      if link.value.None? {
        error := LinkNotFound;
        loading := false;
        return;
      }
      var l := link.value.value;
      if l.expiresAt.Some? && l.expiresAt.value < now {
        error := LinkExpired;
        loading := false;
        return;
      }
      shareLink := Some(l);
      if Truthy(l.fileId) {
        var data := LookupFile(db.files, l.fileId.value, fileReply);
        if data.Err? {
          error := LoadFailed;
        } else if data.value.Some? && !data.value.value.isDeleted {
          file := data.value;
        } else {
          error := FileGone;
        }
      }
      loading := false;
    }

    /** `handleDownload`: only with a loaded file and a link that allows
        downloads; the file's object is fetched from the application bucket. */
    method HandleDownload(bucket: Provider, reply: Reply) returns (blob: Option<Blob>, toast: Option<Toast>)
      requires bucket.backend == Supabase(SupabaseBucket)
      ensures !CanDownload(Shown()) ==> blob == None && toast == None
      ensures CanDownload(Shown()) ==>
                var r := ProviderDownload(bucket.backend, bucket.objects, file.value.storagePath, reply);
                && (r.Ok? ==> blob == Some(r.value) && toast == Some(Downloaded))
                && (r.Err? ==> blob == None && toast == Some(DownloadFailed))
    {
      if file.None? || shareLink.None? || !shareLink.value.canDownload {
        return None, None;
      }
      var r := Api.DownloadFile(bucket, file.value.storagePath, reply);
      if r.Ok? {
        blob, toast := Some(r.value), Some(Downloaded);
      } else {
        blob, toast := None, Some(DownloadFailed);
      }
    }
  }

  /** The loader never clears a file or link from an earlier token: a page that
      showed file `f` through a link that forbids downloads, and is then
      pointed at a folder-only link that allows them, keeps showing `f` with a
      working download button. */
  lemma StaleFileOutlivesItsLink()
    ensures var f := FileRecord("f", "report.pdf", 1, "application/pdf", "u/1_a.pdf", None, "u", false, None,
                                0, 0, None, false);
            var a := SharedLink("a", Some("f"), None, "u", "tokA", false, None, 0, None, 0, 0, None);
            var b := SharedLink("b", None, Some("d"), "u", "tokB", true, None, 0, None, 0, 0, None);
            var links := map["a" := a, "b" := b];
            var files := map["f" := f];
            var first := Applied(Initial, Decide(links, files, "tokA", Delivered, Delivered, 0));
            var second := Applied(first, Decide(links, files, "tokB", Delivered, Delivered, 0));
            && first.file == Some(f) && !CanDownload(first)
            && second.file == Some(f) && second.shareLink == Some(b) && CanDownload(second)
            && b.fileId != Some(f.id)
  {
    var f := FileRecord("f", "report.pdf", 1, "application/pdf", "u/1_a.pdf", None, "u", false, None,
                        0, 0, None, false);
    var a := SharedLink("a", Some("f"), None, "u", "tokA", false, None, 0, None, 0, 0, None);
    var b := SharedLink("b", None, Some("d"), "u", "tokB", true, None, 0, None, 0, 0, None);
    var files := map["f" := f];
    assert Keyed(files);
    CreatedLinkIsFound(map["b" := b], a);
    CreatedLinkIsFound(map["a" := a], b);
    assert map["b" := b]["a" := a] == map["a" := a, "b" := b];
  }

  /** With a clean reload, a download is only ever offered for the file of the
      link the page was opened with, and only when that link allows it. */
  lemma ReloadedDownloadMatchesLink(links: map<string, SharedLink>, files: map<string, FileRecord>, token: string,
                                    linkReply: Reply, fileReply: Reply, now: nat)
    requires forall k :: k in links ==> links[k].id == k
    requires Keyed(files)
    ensures var v := Reloaded(Decide(links, files, token, linkReply, fileReply, now));
            CanDownload(v) ==>
              && v.shareLink.value.shareToken == token && v.shareLink.value.canDownload
              && v.shareLink.value.fileId == Some(v.file.value.id)
              && !Expired(v.shareLink.value, now) && !v.file.value.isDeleted
  {
  }
}
