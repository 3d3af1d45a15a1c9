/**
 * The uploader of HomeTest/scripts/upload_to_vector_store.py: it resolves the
 * vector store by name, then walks the "updated" files and then the "new"
 * files, uploads each one whose article it can find in the local
 * `metadata.json`, and records the new file id.
 *
 * The remote side (OpenAI's file storage and the vector store) is an
 * `IndexStore` whose ghost call log records every request with its outcome;
 * the outcomes are inputs (a `Response` per file), and the remote state (live
 * files, vector-store members) is a function of the log.
 */
module Upload {
  import opened Wrappers

  type Key = string      // JSON object keys of metadata.json
  type FileId = string
  type StoreId = string

  const VectorStoreName: string := "optisign-help-center"

  /** One article's entry in `metadata.json`: what the uploader reads and writes, and the rest. */
  datatype Record = Record(slug: Option<string>, fileId: Option<FileId>, rest: map<string, string>)

  datatype Entry = Entry(key: Key, rec: Record)

  /** `metadata.json` in the dict's iteration (insertion) order. */
  type Metadata = seq<Entry>

  /** No key occurs twice, as in any dict that `json.load` returns. */
  predicate UniqueKeys(md: Metadata) {
    forall i, j :: 0 <= i < j < |md| ==> md[i].key != md[j].key
  }

  /** Python truthiness of an optional string: present and non-empty. */
  predicate Truthy(s: Option<string>) {
    s.Some? && s.value != ""
  }

  // ---------------------------------------------------------------------------
  // The vector store (lines 75-112)
  // ---------------------------------------------------------------------------

  datatype StoreInfo = StoreInfo(id: StoreId, name: Option<string>)

  /** The first listed store whose name is `name`. */
  function FirstNamed(stores: seq<StoreInfo>, name: string): Option<StoreInfo> {
    if stores == [] then None
    else if stores[0].name == Some(name) then Some(stores[0])
    else FirstNamed(stores[1..], name)
  }

  /**
   * `create_or_get_vector_store`: `listing` is the list request's `data`
   * (None when the request fails), `created` the create request's reply
   * (None when it fails).
   */
  function Resolve(name: string, listing: Option<seq<StoreInfo>>, created: Option<StoreInfo>): Option<StoreInfo> {
    if listing.None? then None
    else if FirstNamed(listing.value, name).Some? then FirstNamed(listing.value, name)
    else created
  }

  lemma {:induction false} FirstNamedIsFirst(stores: seq<StoreInfo>, name: string)
    ensures FirstNamed(stores, name).None? <==> forall k :: 0 <= k < |stores| ==> stores[k].name != Some(name)
    ensures FirstNamed(stores, name).Some? ==>
      exists k :: 0 <= k < |stores| && FirstNamed(stores, name) == Some(stores[k]) && stores[k].name == Some(name)
                  && forall j :: 0 <= j < k ==> stores[j].name != Some(name)
  {
    if stores != [] && stores[0].name != Some(name) {
      FirstNamedIsFirst(stores[1..], name);
      if FirstNamed(stores, name).Some? {
        var k :| 0 <= k < |stores[1..]| && FirstNamed(stores[1..], name) == Some(stores[1..][k])
                 && stores[1..][k].name == Some(name)
                 && forall j :: 0 <= j < k ==> stores[1..][j].name != Some(name);
        assert forall j :: 0 <= j < k + 1 ==> stores[j].name != Some(name) by {
          forall j | 0 <= j < k + 1 ensures stores[j].name != Some(name) {
            if j > 0 { assert stores[j] == stores[1..][j - 1]; }
          }
        }
      } else {
        forall k | 0 <= k < |stores| ensures stores[k].name != Some(name) {
          if k > 0 { assert stores[k] == stores[1..][k - 1]; }
        }
      }
    }
  }

  /**
   * The search loop of `create_or_get_vector_store`: the first store with an
   * exact name match is returned; a store is created only when the listing
   * succeeded and nothing matched.
   */
  method ResolveStore(name: string, listing: Option<seq<StoreInfo>>, created: Option<StoreInfo>)
    returns (store: Option<StoreInfo>, createAttempted: bool)
    ensures store == Resolve(name, listing, created)
    ensures createAttempted <==> listing.Some? && forall k :: 0 <= k < |listing.value| ==> listing.value[k].name != Some(name)
  {
    if listing.None? {
      return None, false;
    }
    var stores := listing.value;
    FirstNamedIsFirst(stores, name);
    for i := 0 to |stores|
      invariant FirstNamed(stores, name) == FirstNamed(stores[i..], name)
      invariant forall k :: 0 <= k < i ==> stores[k].name != Some(name)
    {
      assert stores[i..][1..] == stores[i + 1..];
      if stores[i].name == Some(name) {
        return Some(stores[i]), false;
      }
    }
    return created, true;
  }

  // ---------------------------------------------------------------------------
  // The remote calls (lines 45-73, 114-130, 190-193, 226-229)
  // ---------------------------------------------------------------------------

  datatype Call =
    | DeleteFile(file: FileId, ok: bool)                // delete_file_from_openai
    | Detach(store: StoreId, file: FileId, ok: bool)    // delete_file_from_vector_store
    | Upload(name: string, result: Option<FileId>)      // client.files.create; None when it raises
    | Attach(store: StoreId, file: FileId, ok: bool)    // add_file_to_vector_store

  /** The provider's state: the files that exist, and which store holds which file. */
  datatype RemoteState = RemoteState(live: set<FileId>, members: set<(StoreId, FileId)>)

  function Apply(s: RemoteState, call: Call): RemoteState {
    match call
    case DeleteFile(f, ok) => if ok then s.(live := s.live - {f}) else s
    case Detach(vs, f, ok) => if ok then s.(members := s.members - {(vs, f)}) else s
    case Upload(_, r) => if r.Some? then s.(live := s.live + {r.value}) else s
    case Attach(vs, f, ok) => if ok then s.(members := s.members + {(vs, f)}) else s
  }

  function ApplyAll(s: RemoteState, calls: seq<Call>): RemoteState
    decreases |calls|
  {
    if calls == [] then s else Apply(ApplyAll(s, calls[..|calls| - 1]), calls[|calls| - 1])
  }

  /** The remote provider, as seen through the requests the uploader sends it. */
  class IndexStore {
    ghost const initial: RemoteState
    ghost var log: seq<Call>

    ghost function State(): RemoteState
      reads this
    {
      ApplyAll(initial, log)
    }

    constructor (ghost s: RemoteState)
      ensures initial == s && log == []
    {
      initial := s;
      log := [];
    }

    /** `delete_file_from_openai`: returns whether the request succeeded. */
    method DeleteFileFromOpenAI(file: FileId, ok: bool) returns (deleted: bool)
      modifies this
      ensures deleted == ok && log == old(log) + [DeleteFile(file, ok)]
    {
      log := log + [DeleteFile(file, ok)];
      deleted := ok;
    }

    /** `delete_file_from_vector_store`. */
    method DeleteFileFromVectorStore(vs: StoreId, file: FileId, ok: bool) returns (removed: bool)
      modifies this
      ensures removed == ok && log == old(log) + [Detach(vs, file, ok)]
    {
      log := log + [Detach(vs, file, ok)];
      removed := ok;
    }

    /** `client.files.create`: the new file's id, or None when the call raises. */
    method CreateFile(name: string, result: Option<FileId>) returns (id: Option<FileId>)
      modifies this
      ensures id == result && log == old(log) + [Upload(name, result)]
    {
      log := log + [Upload(name, result)];
      id := result;
    }

    /** `add_file_to_vector_store`: the reply, modelled as success or `None`. */
    method AddFileToVectorStore(vs: StoreId, file: FileId, ok: bool) returns (added: bool)
      modifies this
      ensures added == ok && log == old(log) + [Attach(vs, file, ok)]
    {
      log := log + [Attach(vs, file, ok)];
      added := ok;
    }
  }

  // ---------------------------------------------------------------------------
  // Finding a file's article (lines 169-178, 212-221)
  // ---------------------------------------------------------------------------

  datatype Lookup =
    | Match(index: nat)  // the first entry whose slug + ".md" is the file name
    | NoMatch
    | SlugError          // an entry without a slug came first: `None + ".md"` raises TypeError

  function FindFrom(md: Metadata, filename: string, i: nat): Lookup
    decreases |md| - i
  {
    if i >= |md| then NoMatch
    else if md[i].rec.slug.None? then SlugError
    else if md[i].rec.slug.value + ".md" == filename then Match(i)
    else FindFrom(md, filename, i + 1)
  }

  function Find(md: Metadata, filename: string): Lookup {
    FindFrom(md, filename, 0)
  }

  /** Entry `j` has a slug, and it does not name `filename`. */
  predicate Passes(md: Metadata, filename: string, j: int)
    requires 0 <= j < |md|
  {
    md[j].rec.slug.Some? && md[j].rec.slug.value + ".md" != filename
  }

  lemma {:induction false} FindFromCharacterized(md: Metadata, filename: string, i: nat)
    requires i <= |md|
    ensures var r := FindFrom(md, filename, i);
      && (r.Match? ==> i <= r.index < |md| && md[r.index].rec.slug.Some?
                       && md[r.index].rec.slug.value + ".md" == filename
                       && forall j :: i <= j < r.index ==> Passes(md, filename, j))
      && (r.NoMatch? <==> forall j :: i <= j < |md| ==> Passes(md, filename, j))
      && (r.SlugError? ==> exists k :: i <= k < |md| && md[k].rec.slug.None?
                                       && forall j :: i <= j < k ==> Passes(md, filename, j))
    decreases |md| - i
  {
    if i < |md| && md[i].rec.slug.Some? && md[i].rec.slug.value + ".md" != filename {
      FindFromCharacterized(md, filename, i + 1);
    } else if i < |md| {
      assert !Passes(md, filename, i);
    }
  }

  /**
   * The slug lookup: the first entry (in iteration order) whose slug plus
   * ".md" is the file name; no match when every entry has a slug and none
   * fits; a `TypeError` when an entry without a slug is reached first.
   */
  lemma FindCharacterized(md: Metadata, filename: string)
    ensures var r := Find(md, filename);
      && (r.Match? ==> r.index < |md| && md[r.index].rec.slug.Some?
                       && md[r.index].rec.slug.value + ".md" == filename
                       && forall j :: 0 <= j < r.index ==> Passes(md, filename, j))
      && (r.NoMatch? <==> forall j :: 0 <= j < |md| ==> Passes(md, filename, j))
      && (r.SlugError? ==> exists k :: 0 <= k < |md| && md[k].rec.slug.None?
                                       && forall j :: 0 <= j < k ==> Passes(md, filename, j))
  {
    FindFromCharacterized(md, filename, 0);
  }

  /** The `for aid, meta in metadata.items()` loop with its `break`. */
  method FindArticle(md: Metadata, filename: string) returns (r: Lookup)
    ensures r == Find(md, filename)
  {
    r := NoMatch;
    for i := 0 to |md|
      invariant Find(md, filename) == FindFrom(md, filename, i)
    {
      var slug := md[i].rec.slug;
      if slug.None? {
        return SlugError;
      }
      if slug.value + ".md" == filename {
        return Match(i);
      }
    }
  }

  // ---------------------------------------------------------------------------
  // One pass over a file list, as a function (lines 165-205, 208-241)
  // ---------------------------------------------------------------------------

  /** What the remote side answers for one file. */
  datatype Response = Response(deleteOk: bool, detachOk: bool, upload: Option<FileId>, attachOk: bool)

  /** A pass's state: the metadata, its counter, the requests sent, and whether it raised. */
  datatype Progress = Progress(md: Metadata, uploaded: nat, calls: seq<Call>, raised: bool)

  /** The two best-effort deletions of the old file, for an updated file that has one. */
  function Retire(rec: Record, vs: StoreId, updated: bool, resp: Response): seq<Call> {
    if updated && Truthy(rec.fileId) then
      [DeleteFile(rec.fileId.value, resp.deleteOk), Detach(vs, rec.fileId.value, resp.detachOk)]
    else []
  }

  /** The upload and, when it returned an id, the add-to-vector-store request. */
  function Place(name: string, vs: StoreId, resp: Response): seq<Call> {
    [Upload(name, resp.upload)] + (if resp.upload.Some? then [Attach(vs, resp.upload.value, resp.attachOk)] else [])
  }

  function SetFileId(md: Metadata, i: nat, id: FileId): Metadata
    requires i < |md|
  {
    md[i := md[i].(rec := md[i].rec.(fileId := Some(id)))]
  }

  /** What handling one file amounts to, whatever the counters and the log so far. */
  datatype Effect =
    | Abort                                                  // the lookup raised
    | Skip                                                   // no article found (or its id is falsy)
    | Attempt(index: nat, calls: seq<Call>, newId: Option<FileId>)

  function FileEffect(md: Metadata, vs: StoreId, name: string, updated: bool, resp: Response): (e: Effect)
    ensures e.Attempt? ==> e.index < |md|
  {
    match Find(md, name)
    case SlugError => Abort
    case NoMatch => Skip
    case Match(i) =>
      FindCharacterized(md, name);
      if md[i].key == "" then Skip  // `if not article_id`
      else Attempt(i, Retire(md[i].rec, vs, updated, resp) + Place(name, vs, resp), resp.upload)
  }

  /** The metadata after a file's effect: the matched entry's id is replaced after a successful upload. */
  function AfterEffect(md: Metadata, e: Effect): Metadata {
    if e.Attempt? && e.newId.Some? && e.index < |md| then SetFileId(md, e.index, e.newId.value) else md
  }

  function ProcessFile(p: Progress, vs: StoreId, name: string, updated: bool, resp: Response): Progress {
    if p.raised then p
    else
      var e := FileEffect(p.md, vs, name, updated, resp);
      match e
      case Abort => p.(raised := true)
      case Skip => p
      case Attempt(_, calls, newId) =>
        Progress(AfterEffect(p.md, e), p.uploaded + (if newId.Some? then 1 else 0), p.calls + calls, false)
  }

  function ProcessAll(p: Progress, vs: StoreId, names: seq<string>, updated: bool, resps: seq<Response>): Progress
    requires |resps| == |names|
    decreases |names|
  {
    if names == [] then p
    else
      var n := |names| - 1;
      ProcessFile(ProcessAll(p, vs, names[..n], updated, resps[..n]), vs, names[n], updated, resps[n])
  }

  /** Once a pass has raised, later files change nothing. */
  lemma {:induction false} RaisedIsFinal(p: Progress, vs: StoreId, names: seq<string>, updated: bool,
                                         resps: seq<Response>, k: nat)
    requires |resps| == |names| && k <= |names|
    requires ProcessAll(p, vs, names[..k], updated, resps[..k]).raised
    ensures ProcessAll(p, vs, names, updated, resps) == ProcessAll(p, vs, names[..k], updated, resps[..k])
    decreases |names| - k
  {
    if k < |names| {
      var n := |names| - 1;
      assert names[..n][..k] == names[..k] && resps[..n][..k] == resps[..k];
      if k == n {
        assert names[..n] == names[..k] && resps[..n] == resps[..k];
      } else {
        RaisedIsFinal(p, vs, names[..n], updated, resps[..n], k);
      }
    } else {
      assert names[..k] == names && resps[..k] == resps;
    }
  }

  // ---------------------------------------------------------------------------
  // The loops and the whole function (lines 133-288)
  // ---------------------------------------------------------------------------

  /** `metadata.json` on disk. */
  class MetadataFile {
    var entries: Metadata

    constructor (entries: Metadata)
      ensures this.entries == entries
    {
      this.entries := entries;
    }
  }

  /**
   * For a matched article: delete its old file when the article was updated
   * and has one, upload the new file, and add it to the vector store when
   * the upload returned an id.
   */
  method RetireAndPlace(remote: IndexStore, vs: StoreId, rec: Record, filename: string, updated: bool,
                        resp: Response)
    returns (newFileId: Option<FileId>)
    modifies remote
    ensures newFileId == resp.upload
    ensures remote.log == old(remote.log) + Retire(rec, vs, updated, resp) + Place(filename, vs, resp)
  {
    var oldFileId := rec.fileId;
    if updated && oldFileId.Some? && oldFileId.value != "" {
      var _ := remote.DeleteFileFromOpenAI(oldFileId.value, resp.deleteOk);
      var _ := remote.DeleteFileFromVectorStore(vs, oldFileId.value, resp.detachOk);
    }
    ghost var retired := remote.log;
    newFileId := remote.CreateFile(filename, resp.upload);
    if newFileId.Some? {
      var _ := remote.AddFileToVectorStore(vs, newFileId.value, resp.attachOk);
    }
    assert remote.log == retired + Place(filename, vs, resp);
  }

  /**
   * The body of one `for idx, md_file in enumerate(...)` loop: find the
   * file's article, retire the old file (updated files only), upload, add to
   * the vector store, and record the new id.
   */
  method ReconcileFile(metadata: Metadata, remote: IndexStore, vs: StoreId, filename: string, updated: bool,
                       resp: Response)
    returns (md: Metadata, uploaded: bool, raised: bool)
    modifies remote
    ensures var e := FileEffect(metadata, vs, filename, updated, resp);
      && raised == e.Abort?
      && uploaded == (e.Attempt? && e.newId.Some?)
      && md == AfterEffect(metadata, e)
      && remote.log == old(remote.log) + (if e.Attempt? then e.calls else [])
  {
    md, uploaded, raised := metadata, false, false;
    var found := FindArticle(md, filename);
    if found.SlugError? {
      raised := true;
      return;
    }
    FindCharacterized(md, filename);
    if found.NoMatch? || md[found.index].key == "" {
      return;
    }
    var i := found.index;
    var newFileId := RetireAndPlace(remote, vs, md[i].rec, filename, updated, resp);
    if newFileId.Some? {
      md := SetFileId(md, i, newFileId.value);
      uploaded := true;
    }
  }

  lemma AppendAssoc<T>(a: seq<T>, b: seq<T>, c: seq<T>)
    ensures a + b + c == a + (b + c)
  {
  }

  /** One more file: the pass's new state is the old one with that file's effect applied. */
  lemma PassStep(p: Progress, vs: StoreId, names: seq<string>, updated: bool, resps: seq<Response>, i: nat)
    requires |resps| == |names| && i < |names|
    requires !ProcessAll(p, vs, names[..i], updated, resps[..i]).raised
    ensures var before := ProcessAll(p, vs, names[..i], updated, resps[..i]);
      var after := ProcessAll(p, vs, names[..i + 1], updated, resps[..i + 1]);
      var e := FileEffect(before.md, vs, names[i], updated, resps[i]);
      && after.raised == e.Abort?
      && after.md == AfterEffect(before.md, e)
      && after.uploaded == before.uploaded + (if e.Attempt? && e.newId.Some? then 1 else 0)
      && after.calls == before.calls + (if e.Attempt? then e.calls else [])
  {
    assert names[..i + 1][..i] == names[..i] && resps[..i + 1][..i] == resps[..i];
  }

  /**
   * One loop over a file list; `raised` is set when a lookup raised, which
   * ends the whole upload.
   */
  method UploadPass(metadata: Metadata, remote: IndexStore, vs: StoreId, files: seq<string>, updated: bool,
                    resps: seq<Response>)
    returns (md: Metadata, uploaded: nat, raised: bool)
    requires |resps| == |files|
    modifies remote
    ensures var p := ProcessAll(Progress(metadata, 0, [], false), vs, files, updated, resps);
      && md == p.md && uploaded == p.uploaded && raised == p.raised
      && remote.log == old(remote.log) + p.calls
  {
    md, uploaded, raised := metadata, 0, false;
    ghost var start := Progress(metadata, 0, [], false);
    for idx := 0 to |files|
      invariant var p := ProcessAll(start, vs, files[..idx], updated, resps[..idx]);
        md == p.md && uploaded == p.uploaded && !p.raised && remote.log == old(remote.log) + p.calls
    {
      PassStep(start, vs, files, updated, resps, idx);
      ghost var before := ProcessAll(start, vs, files[..idx], updated, resps[..idx]);
      ghost var e := FileEffect(md, vs, files[idx], updated, resps[idx]);
      var gotId;
      md, gotId, raised := ReconcileFile(md, remote, vs, files[idx], updated, resps[idx]);
      AppendAssoc(old(remote.log), before.calls, if e.Attempt? then e.calls else []);
      if raised {
        RaisedIsFinal(start, vs, files, updated, resps, idx + 1);
        assert files[..|files|] == files && resps[..|resps|] == resps;
        return;
      }
      if gotId {
        uploaded := uploaded + 1;
      }
    }
    assert files[..|files|] == files && resps[..|resps|] == resps;
  }

  datatype UploadResult =
    | StoreUnavailable                              // `return False` (line 147-149)
    | Raised                                        // the TypeError of the slug lookup escapes
    | Done(newUploaded: nat, updatedUploaded: nat)  // `return True`

  /** The "updated" pass, then (unless it raised) the "new" pass on the metadata it left. */
  function Reconcile(md: Metadata, vs: StoreId, updatedFiles: seq<string>, newFiles: seq<string>,
                     updResps: seq<Response>, newResps: seq<Response>): (Progress, Progress)
    requires |updResps| == |updatedFiles| && |newResps| == |newFiles|
  {
    var u := ProcessAll(Progress(md, 0, [], false), vs, updatedFiles, true, updResps);
    var n := if u.raised then Progress(u.md, 0, [], true)
             else ProcessAll(Progress(u.md, 0, [], false), vs, newFiles, false, newResps);
    (u, n)
  }

  /**
   * `upload_articles`.  `listing` and `created` answer the store resolution;
   * `updatedFiles` and `newFiles` are the sorted file names of the two
   * folders, and `updResps`/`newResps` the remote answers for each file.
   * Metadata is written back only when the function returns normally.
   */
  method UploadArticles(disk: MetadataFile, remote: IndexStore, listing: Option<seq<StoreInfo>>,
                        created: Option<StoreInfo>, updatedFiles: seq<string>, newFiles: seq<string>,
                        updResps: seq<Response>, newResps: seq<Response>)
    returns (result: UploadResult)
    requires |updResps| == |updatedFiles| && |newResps| == |newFiles|
    requires UniqueKeys(disk.entries)
    modifies disk, remote
    ensures UniqueKeys(disk.entries)
    ensures Resolve(VectorStoreName, listing, created).None? ==>
      result == StoreUnavailable && disk.entries == old(disk.entries) && remote.log == old(remote.log)
    ensures Resolve(VectorStoreName, listing, created).Some? ==>
      var r := Reconcile(old(disk.entries), Resolve(VectorStoreName, listing, created).value.id,
                         updatedFiles, newFiles, updResps, newResps);
      && remote.log == old(remote.log) + r.0.calls + r.1.calls
      && (r.1.raised ==> result == Raised && disk.entries == old(disk.entries))
      && (!r.1.raised ==> result == Done(r.1.uploaded, r.0.uploaded) && disk.entries == r.1.md)
  {
    var metadata := disk.entries;
    var vectorStore, _ := ResolveStore(VectorStoreName, listing, created);
    if vectorStore.None? {
      return StoreUnavailable;
    }
    var vs := vectorStore.value.id;
    var updatedUploaded, newUploaded, raised;
    metadata, updatedUploaded, raised := UploadPass(metadata, remote, vs, updatedFiles, true, updResps);
    if raised {
      return Raised;
    }
    metadata, newUploaded, raised := UploadPass(metadata, remote, vs, newFiles, false, newResps);
    if raised {
      return Raised;
    }
    UploadBounds(old(disk.entries), vs, updatedFiles, newFiles, updResps, newResps);
    disk.entries := metadata;  // save_metadata
    result := Done(newUploaded, updatedUploaded);
  }

  // ---------------------------------------------------------------------------
  // Properties
  // ---------------------------------------------------------------------------

  /** `md2` is `md1` with, at most, other `openai_file_id` values. */
  predicate OnlyFileIdsDiffer(md1: Metadata, md2: Metadata) {
    && |md1| == |md2|
    && forall k :: 0 <= k < |md1| ==>
         md2[k].key == md1[k].key && md2[k].rec.slug == md1[k].rec.slug && md2[k].rec.rest == md1[k].rec.rest
  }

  /**
   * A pass changes nothing but `openai_file_id` values, counts at most one
   * upload per file, and only appends to the requests already sent.
   */
  lemma {:induction false} ProcessAllFacts(p: Progress, vs: StoreId, names: seq<string>, updated: bool,
                                           resps: seq<Response>)
    requires |resps| == |names|
    ensures var q := ProcessAll(p, vs, names, updated, resps);
      && OnlyFileIdsDiffer(p.md, q.md)
      && q.uploaded <= p.uploaded + |names|
      && |p.calls| <= |q.calls| && q.calls[..|p.calls|] == p.calls
      && (p.raised ==> q == p)
    decreases |names|
  {
    if names != [] {
      var n := |names| - 1;
      ProcessAllFacts(p, vs, names[..n], updated, resps[..n]);
      var q := ProcessAll(p, vs, names[..n], updated, resps[..n]);
      var e := FileEffect(q.md, vs, names[n], updated, resps[n]);
      if !q.raised && e.Attempt? {
        assert (q.calls + e.calls)[..|p.calls|] == q.calls[..|p.calls|];
      }
    }
  }

  /**
   * The counters: `updated_uploaded <= len(updated_files)`,
   * `new_uploaded <= len(new_files)`, and the metadata written back differs
   * from what was read only in `openai_file_id` values.
   */
  lemma UploadBounds(md: Metadata, vs: StoreId, updatedFiles: seq<string>, newFiles: seq<string>,
                     updResps: seq<Response>, newResps: seq<Response>)
    requires |updResps| == |updatedFiles| && |newResps| == |newFiles|
    ensures var r := Reconcile(md, vs, updatedFiles, newFiles, updResps, newResps);
      && r.0.uploaded <= |updatedFiles| && r.1.uploaded <= |newFiles|
      && OnlyFileIdsDiffer(md, r.1.md)
      && (UniqueKeys(md) ==> UniqueKeys(r.1.md))
  {
    var u := ProcessAll(Progress(md, 0, [], false), vs, updatedFiles, true, updResps);
    ProcessAllFacts(Progress(md, 0, [], false), vs, updatedFiles, true, updResps);
    if !u.raised {
      ProcessAllFacts(Progress(u.md, 0, [], false), vs, newFiles, false, newResps);
    }
  }

  /** A file that no entry's slug names causes no request and changes nothing. */
  lemma UnmatchedFileIgnored(p: Progress, vs: StoreId, name: string, updated: bool, resp: Response)
    requires forall j :: 0 <= j < |p.md| ==> Passes(p.md, name, j)
    ensures ProcessFile(p, vs, name, updated, resp) == p
  {
    FindCharacterized(p.md, name);
  }

  /**
   * After an upload that returned `id`, the matched entry's `openai_file_id`
   * is `id` and the counter moves, whether or not adding the file to the
   * vector store succeeded; every other entry and field is unchanged.
   */
  lemma UploadRecorded(p: Progress, vs: StoreId, name: string, updated: bool, resp: Response, i: nat)
    requires !p.raised && i < |p.md| && Find(p.md, name) == Match(i) && p.md[i].key != "" && resp.upload.Some?
    ensures var q := ProcessFile(p, vs, name, updated, resp);
      && q.md == p.md[i := Entry(p.md[i].key, p.md[i].rec.(fileId := resp.upload))]
      && q.uploaded == p.uploaded + 1 && !q.raised
  {
    FindCharacterized(p.md, name);
  }

  /** When the upload raises, the entry and the counter stay as they were and the pass goes on. */
  lemma FailedUploadLeavesRecord(p: Progress, vs: StoreId, name: string, updated: bool, resp: Response)
    requires !p.raised && !Find(p.md, name).SlugError? && resp.upload.None?
    ensures var q := ProcessFile(p, vs, name, updated, resp);
      q.md == p.md && q.uploaded == p.uploaded && !q.raised
  {
  }

  /**
   * For an updated file whose entry has an `openai_file_id`, both deletions
   * of the old id are sent before the upload, and the upload is sent however
   * the deletions turned out.
   */
  lemma RetireBeforeUpload(md: Metadata, vs: StoreId, name: string, resp: Response, i: nat)
    requires i < |md| && Find(md, name) == Match(i) && md[i].key != "" && Truthy(md[i].rec.fileId)
    ensures var e := FileEffect(md, vs, name, true, resp);
      var oldId := md[i].rec.fileId.value;
      && e.Attempt? && |e.calls| >= 3
      && e.calls[0] == DeleteFile(oldId, resp.deleteOk)
      && e.calls[1] == Detach(vs, oldId, resp.detachOk)
      && e.calls[2] == Upload(name, resp.upload)
  {
    FindCharacterized(md, name);
  }

  /** A new file never has its previous id retired, even when its entry has one. */
  lemma NewFileNotRetired(md: Metadata, vs: StoreId, name: string, resp: Response, i: nat)
    requires i < |md| && Find(md, name) == Match(i) && md[i].key != ""
    ensures var e := FileEffect(md, vs, name, false, resp);
      e.Attempt? && e.calls[0] == Upload(name, resp.upload)
  {
    FindCharacterized(md, name);
  }

  lemma ApplyAllAppend(s: RemoteState, a: seq<Call>, b: seq<Call>)
    ensures ApplyAll(s, a + b) == ApplyAll(ApplyAll(s, a), b)
    decreases |b|
  {
    if b != [] {
      assert (a + b)[..|a + b| - 1] == a + b[..|b| - 1];
      ApplyAllAppend(s, a, b[..|b| - 1]);
    } else {
      assert a + b == a;
    }
  }

  /**
   * When both deletions and the upload succeed, the old file is gone from the
   * provider and from the vector store, the new one exists, and it is in the
   * vector store once the add succeeded.
   */
  lemma OldFileReplaced(s: RemoteState, md: Metadata, vs: StoreId, name: string, resp: Response, i: nat)
    requires i < |md| && Find(md, name) == Match(i) && md[i].key != "" && Truthy(md[i].rec.fileId)
    requires resp.deleteOk && resp.detachOk && resp.upload.Some? && resp.upload.value != md[i].rec.fileId.value
    ensures var e := FileEffect(md, vs, name, true, resp);
      var t := ApplyAll(s, e.calls);
      var oldId := md[i].rec.fileId.value;
      && oldId !in t.live && (vs, oldId) !in t.members
      && resp.upload.value in t.live
      && (resp.attachOk ==> (vs, resp.upload.value) in t.members)
  {
    FindCharacterized(md, name);
    var e := FileEffect(md, vs, name, true, resp);
    var oldId := md[i].rec.fileId.value;
    var y := resp.upload.value;
    assert e.calls == [DeleteFile(oldId, true), Detach(vs, oldId, true), Upload(name, resp.upload),
                       Attach(vs, y, resp.attachOk)];
    var c := e.calls;
    assert c[..3][..2] == c[..2] && c[..2][..1] == c[..1] && c[..1][..0] == [];
    var s1 := ApplyAll(s, c[..1]);
    var s2 := ApplyAll(s, c[..2]);
    var s3 := ApplyAll(s, c[..3]);
    assert c[..1][..|c[..1]| - 1] == [] && c[..1][|c[..1]| - 1] == c[0];
    assert c[..2][..|c[..2]| - 1] == c[..1] && c[..2][|c[..2]| - 1] == c[1];
    assert c[..3][..|c[..3]| - 1] == c[..2] && c[..3][|c[..3]| - 1] == c[2];
    assert c[..|c| - 1] == c[..3];
    assert ApplyAll(s, []) == s;
    assert s1 == Apply(ApplyAll(s, []), c[0]);
    assert s1 == Apply(s, DeleteFile(oldId, true));
    assert s2 == Apply(s1, Detach(vs, oldId, true));
    assert s3 == Apply(s2, Upload(name, resp.upload));
    assert ApplyAll(s, c) == Apply(s3, Attach(vs, y, resp.attachOk));
  }
}
