/** The metadata catalog kept in the database (`folderApi`, `fileApi`,
    `sharedLinkApi`) and the unencrypted upload path of `storageApi`.

    Each table is a map from row id to row, held by one `Database` object; the
    answer of the database to each query is a `Reply` parameter, and a failed
    reply is rethrown as its error. Timestamps are instants on one clock, so the
    ISO strings the database writes compare as numbers do. */
module Api {
  import opened Wrappers
  import opened Text
  import opened Encryption
  import opened StorageProviders

  /** Error text of a `maybeSingle()` query that matched more than one row. */
  const MultipleRows: string := "JSON object requested, multiple (or no) rows returned"

  datatype Folder = Folder(
    id: string,
    name: string,
    parentId: Option<string>,
    ownerId: string,
    createdAt: nat,
    updatedAt: nat)

  datatype FileRecord = FileRecord(
    id: string,
    name: string,
    size: nat,
    mime: string,
    storagePath: string,
    folderId: Option<string>,
    ownerId: string,
    isDeleted: bool,
    deletedAt: Option<nat>,
    createdAt: nat,
    updatedAt: nat,
    lastAccessedAt: Option<nat>,
    isFavorite: bool)

  /** The columns `createFile` supplies; the table fills in id, timestamps and
      the deletion columns. */
  datatype FileDraft = FileDraft(
    name: string,
    size: nat,
    mime: string,
    storagePath: string,
    folderId: Option<string>,
    ownerId: string,
    lastAccessedAt: Option<nat>,
    isFavorite: bool)

  datatype SharedLink = SharedLink(
    id: string,
    fileId: Option<string>,
    folderId: Option<string>,
    ownerId: string,
    shareToken: string,
    canDownload: bool,
    expiresAt: Option<nat>,
    createdAt: nat,
    password: Option<string>,
    viewCount: nat,
    downloadCount: nat,
    lastAccessedAt: Option<nat>)

  // ---------------------------------------------------------------- folder ancestry

  /** The walk goes on from `f` to its parent: the parent id is truthy and names a row. */
  predicate Continues(folders: map<string, Folder>, f: Folder) {
    Truthy(f.parentId) && f.parentId.value in folders
  }

  /** `rank` strictly decreases from every folder to the parent the walk visits next. */
  ghost predicate RankedBy(folders: map<string, Folder>, rank: map<string, nat>) {
    && (forall k :: k in folders ==> k in rank)
    && (forall k :: k in folders && Continues(folders, folders[k]) ==>
          folders[k].parentId.value in rank && rank[folders[k].parentId.value] < rank[k])
  }

  /** The parent relation has no cycle. */
  ghost predicate Acyclic(folders: map<string, Folder>) {
    exists rank :: RankedBy(folders, rank)
  }

  /** `path` is the chain `getFolderPath(start)` collects: it ends with the start
      folder, each folder is preceded by the parent the walk fetched for it, and
      the first folder's parent stops the walk. */
  ghost predicate IsAncestry(folders: map<string, Folder>, start: string, path: seq<Folder>) {
    && path != []
    && start in folders
    && path[|path| - 1] == folders[start]
    && (forall i :: 0 < i < |path| ==>
          Continues(folders, path[i]) && path[i - 1] == folders[path[i].parentId.value])
    && !Continues(folders, path[0])
  }

  lemma {:induction false} AncestryAligned(folders: map<string, Folder>, start: string,
                                           p: seq<Folder>, q: seq<Folder>, k: nat)
    requires IsAncestry(folders, start, p) && IsAncestry(folders, start, q)
    requires k < |p| && k < |q|
    ensures p[|p| - 1 - k] == q[|q| - 1 - k]
    decreases k
  {
    if k > 0 {
      AncestryAligned(folders, start, p, q, k - 1);
    }
  }

  /** There is only one such chain per start folder. */
  lemma AncestryUnique(folders: map<string, Folder>, start: string, p: seq<Folder>, q: seq<Folder>)
    requires IsAncestry(folders, start, p) && IsAncestry(folders, start, q)
    ensures p == q
  {
    var m := if |p| <= |q| then |p| else |q|;
    AncestryAligned(folders, start, p, q, m - 1);
    assert |p| == |q|;
    forall i | 0 <= i < |p|
      ensures p[i] == q[i]
    {
      AncestryAligned(folders, start, p, q, |p| - 1 - i);
    }
  }

  // ---------------------------------------------------------------- listings

  /** `a` sorts no later than `b` under `ORDER BY … DESC`, where PostgreSQL puts
      NULL first. */
  predicate SortsBefore(a: Option<nat>, b: Option<nat>) {
    a.None? || (b.Some? && a.value >= b.value)
  }

  /** The `ORDER BY … DESC` column of a listing. */
  datatype Order = ByCreatedAt | ByDeletedAt

  function SortKey(order: Order, f: FileRecord): Option<nat> {
    match order
    case ByCreatedAt => Some(f.createdAt)
    case ByDeletedAt => f.deletedAt
  }

  predicate Descending(r: seq<FileRecord>, order: Order) {
    forall i, j :: 0 <= i < j < |r| ==> SortsBefore(SortKey(order, r[i]), SortKey(order, r[j]))
  }

  /** Every row is stored under its own id. */
  predicate Keyed(files: map<string, FileRecord>) {
    forall k :: k in files ==> files[k].id == k
  }

  /** `x` is a row of the table. */
  predicate IsRow(files: map<string, FileRecord>, x: FileRecord) {
    x.id in files && files[x.id] == x
  }

  /** Places `x` before the first row it sorts before. */
  function Insert(r: seq<FileRecord>, x: FileRecord, order: Order): (s: seq<FileRecord>)
    ensures |s| == |r| + 1
  {
    if r == [] then [x]
    else if SortsBefore(SortKey(order, x), SortKey(order, r[0])) then [x] + r
    else [r[0]] + Insert(r[1..], x, order)
  }

  /** Inserting adds exactly `x`. */
  lemma {:induction false} InsertCounts(r: seq<FileRecord>, x: FileRecord, order: Order)
    ensures multiset(Insert(r, x, order)) == multiset(r) + multiset{x}
  {
    if r != [] && !SortsBefore(SortKey(order, x), SortKey(order, r[0])) {
      InsertCounts(r[1..], x, order);
      assert r == [r[0]] + r[1..];
    }
  }

  /** Every row of the result is `x` or a row of `r`. */
  lemma {:induction false} InsertMembers(r: seq<FileRecord>, x: FileRecord, order: Order)
    ensures forall y :: y in Insert(r, x, order) ==> y == x || y in r
  {
    if r != [] && !SortsBefore(SortKey(order, x), SortKey(order, r[0])) {
      InsertMembers(r[1..], x, order);
    }
  }

  /** A head that sorts before every row of a descending listing keeps it descending. */
  lemma ConsDescending(h: FileRecord, s: seq<FileRecord>, order: Order)
    requires Descending(s, order)
    requires forall y :: y in s ==> SortsBefore(SortKey(order, h), SortKey(order, y))
    ensures Descending([h] + s, order)
  {
    var t := [h] + s;
    forall i, j | 0 <= i < j < |t|
      ensures SortsBefore(SortKey(order, t[i]), SortKey(order, t[j]))
    {
      assert t[j] == s[j - 1];
      if i > 0 {
        assert t[i] == s[i - 1];
      } else {
        assert s[j - 1] in s;
      }
    }
  }

  lemma {:induction false} InsertKeepsOrder(r: seq<FileRecord>, x: FileRecord, order: Order)
    requires Descending(r, order)
    ensures Descending(Insert(r, x, order), order)
    ensures multiset(Insert(r, x, order)) == multiset(r) + multiset{x}
  {
    InsertCounts(r, x, order);
    if r == [] {
    } else if SortsBefore(SortKey(order, x), SortKey(order, r[0])) {
      forall y | y in r ensures SortsBefore(SortKey(order, x), SortKey(order, y)) {
        var t :| 0 <= t < |r| && r[t] == y;
        if t > 0 {
          assert SortsBefore(SortKey(order, r[0]), SortKey(order, r[t]));
        }
      }
      ConsDescending(x, r, order);
    } else {
      var tail := r[1..];
      InsertKeepsOrder(tail, x, order);
      InsertMembers(tail, x, order);
      var s := Insert(tail, x, order);
      forall y | y in s ensures SortsBefore(SortKey(order, r[0]), SortKey(order, y)) {
        if y != x {
          var t :| 0 <= t < |tail| && tail[t] == y;
          assert r[t + 1] == y;
        }
      }
      ConsDescending(r[0], s, order);
    }
  }

  /** The `WHERE` clause of a listing. */
  datatype Selection = InFolderRows(folderId: Option<string>, includeDeleted: bool) | DeletedRows | SearchRows(query: string)

  predicate Selects(sel: Selection, f: FileRecord) {
    match sel
    case InFolderRows(folderId, includeDeleted) => InFolder(f, folderId, includeDeleted)
    case DeletedRows => f.isDeleted
    case SearchRows(query) => MatchesQuery(f, query)
  }

  /** The rows of `table` that `sel` selects, each exactly once, ordered by the
      `order` column descending with NULL first. */
  method Listing(table: map<string, FileRecord>, sel: Selection, order: Order)
    returns (r: seq<FileRecord>)
    requires Keyed(table)
    ensures forall x :: multiset(r)[x] == if IsRow(table, x) && Selects(sel, x) then 1 else 0
    ensures Descending(r, order)
  {
    r := [];
    var rest := table.Keys;
    while rest != {}
      invariant rest <= table.Keys
      invariant Descending(r, order)
      invariant forall x :: multiset(r)[x] == if IsRow(table, x) && Selects(sel, x) && x.id !in rest then 1 else 0
      decreases |rest|
    {
      var k :| k in rest;
      var row := table[k];
      ghost var before := r;
      if Selects(sel, row) {
        InsertKeepsOrder(r, row, order);
        r := Insert(r, row, order);
      }
      ListedStep(table, sel, before, r, rest, k);
      rest := rest - {k};
    }
  }

  /** Visiting key `k` adds its row exactly when it is selected. */
  lemma ListedStep(table: map<string, FileRecord>, sel: Selection, r: seq<FileRecord>, r2: seq<FileRecord>,
                   rest: set<string>, k: string)
    requires Keyed(table) && k in rest && k in table
    requires forall x :: multiset(r)[x] == if IsRow(table, x) && Selects(sel, x) && x.id !in rest then 1 else 0
    requires multiset(r2) == multiset(r) + if Selects(sel, table[k]) then multiset{table[k]} else multiset{}
    ensures forall x :: multiset(r2)[x] == if IsRow(table, x) && Selects(sel, x) && x.id !in rest - {k} then 1 else 0
  {
  }

  /** The filter of `getFiles(folderId, includeDeleted)`: `folder_id` equals the
      argument (`null` meaning the root), and deleted rows only on request. */
  predicate InFolder(f: FileRecord, folderId: Option<string>, includeDeleted: bool) {
    f.folderId == folderId && (includeDeleted || !f.isDeleted)
  }

  /** The filter of `searchFiles(query)`: a live row whose name contains the query,
      ignoring case. */
  predicate MatchesQuery(f: FileRecord, query: string) {
    !f.isDeleted && IsSubstring(ToLowerAscii(query), ToLowerAscii(f.name))
  }

  // ---------------------------------------------------------------- soft delete

  /** The row after `softDeleteFile`: only the two deletion columns change. */
  function SoftDeleted(f: FileRecord, now: nat): (g: FileRecord)
    ensures g.isDeleted && g.deletedAt == Some(now)
    ensures g.(isDeleted := f.isDeleted, deletedAt := f.deletedAt) == f
  {
    f.(isDeleted := true, deletedAt := Some(now))
  }

  /** The row after `restoreFile`: only the two deletion columns change. */
  function Restored(f: FileRecord): (g: FileRecord)
    ensures !g.isDeleted && g.deletedAt == None
    ensures g.(isDeleted := f.isDeleted, deletedAt := f.deletedAt) == f
  {
    f.(isDeleted := false, deletedAt := None)
  }

  /** Restoring a soft-deleted live row gives back the row; and the row moves from
      the folder listing and the search results to the recycle bin and back. */
  lemma DeleteRestoreRoundTrip(f: FileRecord, now: nat, query: string)
    requires !f.isDeleted && f.deletedAt == None
    ensures Restored(SoftDeleted(f, now)) == f
    ensures !InFolder(SoftDeleted(f, now), f.folderId, false) && SoftDeleted(f, now).isDeleted
    ensures InFolder(SoftDeleted(f, now), f.folderId, true)
    ensures !MatchesQuery(SoftDeleted(f, now), query)
    ensures MatchesQuery(Restored(SoftDeleted(f, now)), query) == MatchesQuery(f, query)
  {
  }

  // ---------------------------------------------------------------- share links

  /** The row `createShareLink` inserts; the columns it leaves out take the table's
      defaults (no password, zero counters, never accessed). */
  function NewShareLink(id: string, fileId: Option<string>, folderId: Option<string>, ownerId: string,
                        token: string, canDownload: bool, expiresAt: Option<nat>, now: nat): (l: SharedLink)
    ensures l.id == id && l.shareToken == token && l.ownerId == ownerId && l.createdAt == now
    ensures l.fileId == fileId && l.folderId == folderId
    ensures l.canDownload == canDownload && l.expiresAt == expiresAt
    ensures l.password == None && l.viewCount == 0 && l.downloadCount == 0 && l.lastAccessedAt == None
  {
    SharedLink(id, fileId, folderId, ownerId, token, canDownload, expiresAt, now, None, 0, 0, None)
  }

  /** The row `createFile` inserts for a draft. */
  function NewFile(id: string, draft: FileDraft, now: nat): (f: FileRecord)
    ensures f.id == id && f.createdAt == now && f.updatedAt == now
    ensures !f.isDeleted && f.deletedAt == None
    ensures f.name == draft.name && f.size == draft.size && f.mime == draft.mime
    ensures f.storagePath == draft.storagePath && f.folderId == draft.folderId
    ensures f.ownerId == draft.ownerId && f.lastAccessedAt == draft.lastAccessedAt
    ensures f.isFavorite == draft.isFavorite
  {
    FileRecord(id, draft.name, draft.size, draft.mime, draft.storagePath, draft.folderId,
               draft.ownerId, false, None, now, now, draft.lastAccessedAt, draft.isFavorite)
  }

  // ---------------------------------------------------------------- the database

  class Database {
    var folders: map<string, Folder>
    var files: map<string, FileRecord>
    var sharedLinks: map<string, SharedLink>

    /** Every table keeps each row under its own id (the primary key). */
    ghost predicate Valid()
      reads this
    {
      && (forall k :: k in folders ==> folders[k].id == k)
      && Keyed(files)
      && (forall k :: k in sharedLinks ==> sharedLinks[k].id == k)
    }

    constructor (folders: map<string, Folder>, files: map<string, FileRecord>,
                 sharedLinks: map<string, SharedLink>)
      requires forall k :: k in folders ==> folders[k].id == k
      requires Keyed(files)
      requires forall k :: k in sharedLinks ==> sharedLinks[k].id == k
      ensures Valid()
      ensures this.folders == folders && this.files == files && this.sharedLinks == sharedLinks
    {
      this.folders := folders;
      this.files := files;
      this.sharedLinks := sharedLinks;
    }

    /** `folderApi.getFolderPath(folderId)`: the folders from the top of the
        chain down to `folderId`; empty for a falsy id or a missing folder. */
    method GetFolderPath(folderId: Option<string>) returns (path: seq<Folder>)
      requires Valid() && Acyclic(folders)
      ensures path == [] <==> !Truthy(folderId) || folderId.value !in folders
      ensures path != [] ==> IsAncestry(folders, folderId.value, path)
      ensures forall i :: 0 < i < |path| ==> path[i].parentId == Some(path[i - 1].id)
      ensures forall i :: 0 <= i < |path| ==> path[i].id in folders && folders[path[i].id] == path[i]
    {
      if !Truthy(folderId) {
        return [];
      }
      ghost var rank :| RankedBy(folders, rank);
      path := [];
      var currentId := folderId;
      while Truthy(currentId)
        invariant path == [] ==> currentId == folderId
        invariant path != [] ==> folderId.value in folders && path[|path| - 1] == folders[folderId.value]
        invariant path != [] ==> currentId == path[0].parentId
        invariant forall i :: 0 < i < |path| ==>
                    Continues(folders, path[i]) && path[i - 1] == folders[path[i].parentId.value]
        invariant forall i :: 0 <= i < |path| ==> path[i].id in folders && folders[path[i].id] == path[i]
        decreases if Truthy(currentId) && currentId.value in folders then rank[currentId.value] + 1 else 0
      {
        if currentId.value !in folders {
          break;
        }
        var folder := folders[currentId.value];
        path := [folder] + path;
        currentId := folder.parentId;
      }
    }

    /** `fileApi.getFiles(folderId, includeDeleted)`, newest first. */
    method GetFiles(reply: Reply, folderId: Option<string> := None, includeDeleted: bool := false)
      returns (r: Result<seq<FileRecord>>)
      requires Valid()
      ensures r.Ok? <==> reply.Delivered?
      ensures r.Err? ==> r.message == ErrorOf(reply)
      ensures r.Ok? ==> forall x :: multiset(r.value)[x] ==
                          if IsRow(files, x) && InFolder(x, folderId, includeDeleted) then 1 else 0
      ensures r.Ok? ==> forall i, j :: 0 <= i < j < |r.value| ==> r.value[i].createdAt >= r.value[j].createdAt
    {
      if !reply.Delivered? {
        return Err(ErrorOf(reply));
      }
      var rows := Listing(files, InFolderRows(folderId, includeDeleted), ByCreatedAt);
      r := Ok(rows);
    }

    /** `fileApi.getDeletedFiles()`: the recycle bin, most recently deleted first
        (rows without a deletion time first). */
    method GetDeletedFiles(reply: Reply) returns (r: Result<seq<FileRecord>>)
      requires Valid()
      ensures r.Ok? <==> reply.Delivered?
      ensures r.Err? ==> r.message == ErrorOf(reply)
      ensures r.Ok? ==> forall x :: multiset(r.value)[x] == if IsRow(files, x) && x.isDeleted then 1 else 0
      ensures r.Ok? ==> forall i, j :: 0 <= i < j < |r.value| ==>
                          SortsBefore(r.value[i].deletedAt, r.value[j].deletedAt)
    {
      if !reply.Delivered? {
        return Err(ErrorOf(reply));
      }
      var rows := Listing(files, DeletedRows, ByDeletedAt);
      r := Ok(rows);
    }

    /** `fileApi.searchFiles(query)`, newest first. */
    method SearchFiles(query: string, reply: Reply) returns (r: Result<seq<FileRecord>>)
      requires Valid()
      ensures r.Ok? <==> reply.Delivered?
      ensures r.Err? ==> r.message == ErrorOf(reply)
      ensures r.Ok? ==> forall x :: multiset(r.value)[x] ==
                          if IsRow(files, x) && MatchesQuery(x, query) then 1 else 0
      ensures r.Ok? ==> forall i, j :: 0 <= i < j < |r.value| ==> r.value[i].createdAt >= r.value[j].createdAt
    {
      if !reply.Delivered? {
        return Err(ErrorOf(reply));
      }
      var rows := Listing(files, SearchRows(query), ByCreatedAt);
      r := Ok(rows);
    }

    /** `fileApi.createFile(draft)`: inserts one row under a fresh id and returns it. */
    method CreateFile(draft: FileDraft, rowId: string, now: nat, reply: Reply) returns (r: Result<FileRecord>)
      requires Valid() && rowId !in files
      modifies this
      ensures Valid()
      ensures r.Ok? <==> reply.Delivered?
      ensures r.Ok? ==> r.value == NewFile(rowId, draft, now) && files == old(files)[rowId := r.value]
      ensures r.Err? ==> r.message == ErrorOf(reply) && files == old(files)
      ensures folders == old(folders) && sharedLinks == old(sharedLinks)
    {
      if !reply.Delivered? {
        return Err(ErrorOf(reply));
      }
      var row := NewFile(rowId, draft, now);
      files := files[rowId := row];
      r := Ok(row);
    }

    /** `fileApi.softDeleteFile(id)`: the updated row, or `null` for an unknown id. */
    method SoftDeleteFile(id: string, now: nat, reply: Reply) returns (r: Result<Option<FileRecord>>)
      requires Valid()
      modifies this
      ensures Valid()
      ensures r.Err? <==> !reply.Delivered?
      ensures r.Err? ==> r.message == ErrorOf(reply) && files == old(files)
      ensures r.Ok? && id in old(files) ==>
                r.value == Some(SoftDeleted(old(files)[id], now)) && files == old(files)[id := r.value.value]
      ensures r.Ok? && id !in old(files) ==> r.value == None && files == old(files)
      ensures folders == old(folders) && sharedLinks == old(sharedLinks)
    {
      if !reply.Delivered? {
        return Err(ErrorOf(reply));
      }
      if id !in files {
        return Ok(None);
      }
      var row := SoftDeleted(files[id], now);
      files := files[id := row];
      r := Ok(Some(row));
    }

    /** `fileApi.restoreFile(id)`: the updated row, or `null` for an unknown id. */
    method RestoreFile(id: string, reply: Reply) returns (r: Result<Option<FileRecord>>)
      requires Valid()
      modifies this
      ensures Valid()
      ensures r.Err? <==> !reply.Delivered?
      ensures r.Err? ==> r.message == ErrorOf(reply) && files == old(files)
      ensures r.Ok? && id in old(files) ==>
                r.value == Some(Restored(old(files)[id])) && files == old(files)[id := r.value.value]
      ensures r.Ok? && id !in old(files) ==> r.value == None && files == old(files)
      ensures folders == old(folders) && sharedLinks == old(sharedLinks)
    {
      if !reply.Delivered? {
        return Err(ErrorOf(reply));
      }
      if id !in files {
        return Ok(None);
      }
      var row := Restored(files[id]);
      files := files[id := row];
      r := Ok(Some(row));
    }

    /** `sharedLinkApi.createShareLink(...)`: inserts one row under the fresh random
        `token`; downloads are allowed and the link never expires unless the caller
        says otherwise. */
    method CreateShareLink(fileId: Option<string>, folderId: Option<string>, ownerId: string,
                           token: string, rowId: string, now: nat, reply: Reply,
                           canDownload: bool := true, expiresAt: Option<nat> := None)
      returns (r: Result<SharedLink>)
      requires Valid() && rowId !in sharedLinks
      modifies this
      ensures Valid()
      ensures r.Ok? <==> reply.Delivered?
      ensures r.Ok? ==> r.value == NewShareLink(rowId, fileId, folderId, ownerId, token, canDownload, expiresAt, now)
                        && sharedLinks == old(sharedLinks)[rowId := r.value]
      ensures r.Err? ==> r.message == ErrorOf(reply) && sharedLinks == old(sharedLinks)
      ensures folders == old(folders) && files == old(files)
    {
      if !reply.Delivered? {
        return Err(ErrorOf(reply));
      }
      var link := NewShareLink(rowId, fileId, folderId, ownerId, token, canDownload, expiresAt, now);
      sharedLinks := sharedLinks[rowId := link];
      r := Ok(link);
    }

  }

  /** `fileApi.getFile(id)`. */
  function LookupFile(files: map<string, FileRecord>, id: string, reply: Reply): (r: Result<Option<FileRecord>>)
    requires Keyed(files)
    ensures r.Err? <==> !reply.Delivered?
    ensures r.Err? ==> r.message == ErrorOf(reply)
    ensures r.Ok? ==> (r.value.Some? <==> id in files)
    ensures r.Ok? && r.value.Some? ==> IsRow(files, r.value.value) && r.value.value.id == id
  {
    if !reply.Delivered? then Err(ErrorOf(reply))
    else if id in files then Ok(Some(files[id]))
    else Ok(None)
  }

  lemma SingletonSet(s: set<string>)
    requires |s| == 1
    ensures forall x, y :: x in s && y in s ==> x == y
  {
    forall x, y | x in s && y in s
      ensures x == y
    {
      assert |s - {x}| == 0;
    }
  }

  /** The ids of the links that carry `token`. */
  function Carrying(links: map<string, SharedLink>, token: string): set<string> {
    set k | k in links && links[k].shareToken == token
  }

  /** `sharedLinkApi.getShareLink(token)`: the one link carrying the token,
      `null` when none does, and an error when several do. */
  function LookupShareLink(links: map<string, SharedLink>, token: string, reply: Reply)
    : (r: Result<Option<SharedLink>>)
    requires forall k :: k in links ==> links[k].id == k
    ensures !reply.Delivered? ==> r == Err(ErrorOf(reply))
    ensures r == Ok(None) <==> reply.Delivered? && forall k :: k in links ==> links[k].shareToken != token
    ensures r.Ok? && r.value.Some? ==>
              var l := r.value.value;
              && l.id in links && links[l.id] == l && l.shareToken == token
              && (forall k :: k in links && links[k].shareToken == token ==> k == l.id)
    ensures reply.Delivered? ==> (r.Err? <==> |Carrying(links, token)| > 1)
    ensures reply.Delivered? && r.Err? ==> r.message == MultipleRows
  {
    if !reply.Delivered? then Err(ErrorOf(reply))
    else
      var matches := Carrying(links, token);
      assert forall k :: k in links ==> (k in matches <==> links[k].shareToken == token);
      if matches == {} then Ok(None)
      else if |matches| > 1 then Err(MultipleRows)
      else
        SingletonSet(matches);
        var k :| k in matches;
        Ok(Some(links[k]))
  }

  /** A link just created under a token no other link carries is the one
      `getShareLink` finds for that token. */
  lemma CreatedLinkIsFound(links: map<string, SharedLink>, link: SharedLink)
    requires forall k :: k in links ==> links[k].id == k
    requires forall k :: k in links ==> links[k].shareToken != link.shareToken
    ensures LookupShareLink(links[link.id := link], link.shareToken, Delivered) == Ok(Some(link))
  {
    var after := links[link.id := link];
    assert Carrying(after, link.shareToken) == {link.id};
  }

  // ---------------------------------------------------------------- storageApi

  /** `${userId}/${Date.now()}_${token}.${ext}` (storageApi.uploadFile). */
  function LegacyObjectPath(userId: string, millis: nat, token: string, name: string): string {
    userId + "/" + Decimal(millis) + "_" + token + "." + Extension(name)
  }

  /** The unencrypted upload path is the encrypted one without `.enc`, and it
      carries the file's extension as its own. */
  lemma LegacyPathShape(userId: string, millis: nat, token: string, name: string)
    ensures EncryptedObjectPath(userId, millis, token, name) == LegacyObjectPath(userId, millis, token, name) + ".enc"
    ensures Extension(LegacyObjectPath(userId, millis, token, name)) == Extension(name)
    ensures LegacyObjectPath(userId, millis, token, name)[..|userId| + 1] == userId + "/"
  {
    var p := LegacyObjectPath(userId, millis, token, name);
    var e := Extension(name);
    var u, d := userId + "/", Decimal(millis);
    var stem := u + d + "_" + token;
    PrefixOfAppend(u, d, |u|);
    PrefixOfAppend(u + d, "_", |u|);
    PrefixOfAppend(u + d + "_", token, |u|);
    PrefixOfAppend(stem, ".", |u|);
    PrefixOfAppend(stem + ".", e, |u|);
    ExtensionAfterDot(stem, e);
  }

  /** `storageApi.uploadFile(file, userId)`: the plaintext file goes to the
      application bucket, and the path is returned only after the upload succeeded. */
  method UploadFile(bucket: Provider, file: LocalFile, userId: string, millis: nat, token: string,
                    reply: Reply) returns (r: Result<string>)
    requires bucket.backend == Supabase(SupabaseBucket)
    modifies bucket
    ensures (r, bucket.objects) == ProviderUpload(bucket.backend, old(bucket.objects), Blob(file.bytes, file.mime),
                                                  LegacyObjectPath(userId, millis, token, file.name), reply)
    ensures r.Ok? ==> r.value == LegacyObjectPath(userId, millis, token, file.name)
                      && bucket.objects[r.value] == Blob(file.bytes, file.mime)
  {
    var path := LegacyObjectPath(userId, millis, token, file.name);
    r := bucket.UploadFile(Blob(file.bytes, file.mime), path, reply);
  }

  /** `storageApi.downloadFile(path)`. */
  method DownloadFile(bucket: Provider, path: string, reply: Reply) returns (r: Result<Blob>)
    requires bucket.backend == Supabase(SupabaseBucket)
    ensures r == ProviderDownload(bucket.backend, bucket.objects, path, reply)
    ensures r.Ok? ==> path in bucket.objects && r.value == bucket.objects[path]
  {
    r := bucket.DownloadFile(path, reply);
  }
}
