/**
 * The file-entry store of App.tsx: the list of uploaded files and the four
 * updaters that change it (`handleFilesAdded`, `handleRemoveFile`,
 * `handleUpdateAiName`, `handleClearAll` with its confirm and cancel
 * buttons). Their browser side effects are kept as plain logs beside the
 * list: every `URL.revokeObjectURL` argument, in order, and every toast.
 */
module App {
  import opened Outcomes
  import opened FileUtils

  /** `UploadedFile.status`; nothing in the application ever sets it to anything but `Idle`. */
  datatype Status = Idle | Analyzing | Succeeded | Failed

  /** `UploadedFile` (types.ts). */
  datatype Entry = Entry(
    id: string,
    file: File,
    previewUrl: string,
    filename: string,
    aiName: Option<string>,
    kind: MediaKind,
    status: Status)

  /**
   * One file of a batch with the values the browser supplies for it: the
   * id `generateId` drew and the URL `URL.createObjectURL` returned.
   */
  datatype Upload = Upload(file: File, id: string, previewUrl: string)

  /** The toasts the store raises. */
  datatype Notice = FilesAdded(count: nat) | AiNameSaved | ClearPrompt | AllCleared

  /** The `files` state plus the revocation and toast logs. */
  datatype State = State(files: seq<Entry>, revoked: seq<string>, notices: seq<Notice>)

  const Empty: State := State([], [], [])

  function Urls(files: seq<Entry>): (urls: seq<string>)
    ensures |urls| == |files|
    ensures forall i :: 0 <= i < |files| ==> urls[i] == files[i].previewUrl
  {
    if files == [] then [] else [files[0].previewUrl] + Urls(files[1..])
  }

  function Ids(files: seq<Entry>): (ids: seq<string>)
    ensures |ids| == |files|
    ensures forall i :: 0 <= i < |files| ==> ids[i] == files[i].id
  {
    if files == [] then [] else [files[0].id] + Ids(files[1..])
  }

  /** The record `handleFilesAdded` builds for one file. */
  function NewEntry(u: Upload): (e: Entry)
    ensures e.id == u.id && e.file == u.file && e.previewUrl == u.previewUrl
    ensures e.filename == CleanFilename(u.file.name) && e.kind == GetFileType(u.file)
    ensures e.status == Idle && e.aiName == None
  {
    Entry(u.id, u.file, u.previewUrl, CleanFilename(u.file.name), None, GetFileType(u.file), Idle)
  }

  /** `newFiles.map(...)`: one entry per file, in input order. */
  function NewEntries(uploads: seq<Upload>): (es: seq<Entry>)
    ensures |es| == |uploads|
    ensures forall i :: 0 <= i < |uploads| ==> es[i] == NewEntry(uploads[i])
  {
    if uploads == [] then [] else [NewEntry(uploads[0])] + NewEntries(uploads[1..])
  }

  /**
   * `handleFilesAdded`: the new batch goes in front of the old list, and a
   * non-empty batch raises one toast carrying its size.
   */
  function AddFiles(s: State, uploads: seq<Upload>): (t: State)
    ensures |t.files| == |uploads| + |s.files|
    ensures forall i :: 0 <= i < |uploads| ==> t.files[i] == NewEntry(uploads[i])
    ensures t.files[|uploads|..] == s.files
    ensures t.revoked == s.revoked
    ensures uploads == [] ==> t == s
    ensures uploads != [] ==> t.notices == s.notices + [FilesAdded(|uploads|)]
  {
    var added := NewEntries(uploads);
    var files := added + s.files;
    assert files[|uploads|..] == s.files;
    if |added| > 0 then State(files, s.revoked, s.notices + [FilesAdded(|added|)])
    else State(files, s.revoked, s.notices)
  }

  /** The entry at `i` is the first whose id is `id`. */
  predicate FirstWithId(files: seq<Entry>, id: string, i: int) {
    0 <= i < |files| && files[i].id == id && forall j :: 0 <= j < i ==> files[j].id != id
  }

  predicate HasId(files: seq<Entry>, id: string) {
    exists i :: 0 <= i < |files| && files[i].id == id
  }

  /** `files.find(f => f.id === id)`. */
  function FindById(files: seq<Entry>, id: string): (r: Option<Entry>)
    ensures r.None? <==> !HasId(files, id)
    ensures r.Some? ==> exists i :: FirstWithId(files, id, i) && files[i] == r.value
  {
    if files == [] then None
    else if files[0].id == id then
      assert FirstWithId(files, id, 0);
      Some(files[0])
    else
      var r := FindById(files[1..], id);
      if r.Some? then
        var i :| FirstWithId(files[1..], id, i) && files[1..][i] == r.value;
        assert FirstWithId(files, id, i + 1);
        r
      else
        assert forall i :: 1 <= i < |files| ==> files[i] == files[1..][i - 1];
        r
  }

  /** `files.filter(f => f.id !== id)`. */
  function WithoutId(files: seq<Entry>, id: string): (r: seq<Entry>)
    ensures |r| <= |files|
    ensures forall e :: e in r <==> e in files && e.id != id
    ensures !HasId(files, id) ==> r == files
  {
    if files == [] then []
    else if files[0].id == id then WithoutId(files[1..], id)
    else
      assert forall i :: 1 <= i < |files| ==> files[i] == files[1..][i - 1];
      [files[0]] + WithoutId(files[1..], id)
  }

  /**
   * `handleRemoveFile`: every entry with the id leaves the list, the rest
   * keep their order, and the URL of the first match (only) is revoked.
   */
  function RemoveFile(s: State, id: string): (t: State)
    ensures forall e :: e in t.files <==> e in s.files && e.id != id
    ensures t.notices == s.notices
    ensures !HasId(s.files, id) ==> t == s
    ensures forall i :: FirstWithId(s.files, id, i) ==>
              t.revoked == s.revoked + [s.files[i].previewUrl]
  {
    var found := FindById(s.files, id);
    var revoked := if found.Some? then s.revoked + [found.value.previewUrl] else s.revoked;
    FirstIsUnique(s.files, id);
    State(WithoutId(s.files, id), revoked, s.notices)
  }

  lemma FirstIsUnique(files: seq<Entry>, id: string)
    ensures forall i, j :: FirstWithId(files, id, i) && FirstWithId(files, id, j) ==> i == j
  {
  }

  /** `files.map(f => f.id === id ? { ...f, aiExtractedName: name } : f)`. */
  function SetAiName(files: seq<Entry>, id: string, name: string): (r: seq<Entry>)
    ensures |r| == |files|
    ensures forall i :: 0 <= i < |files| && files[i].id != id ==> r[i] == files[i]
    ensures forall i :: 0 <= i < |files| && files[i].id == id ==> r[i] == files[i].(aiName := Some(name))
  {
    if files == [] then [] else
      [if files[0].id == id then files[0].(aiName := Some(name)) else files[0]]
      + SetAiName(files[1..], id, name)
  }

  /**
   * `handleUpdateAiName`: only entries with the id get the name; length,
   * order and every other field stay; the success toast is raised whether
   * or not the id is present.
   */
  function UpdateAiName(s: State, id: string, name: string): (t: State)
    ensures |t.files| == |s.files|
    ensures Ids(t.files) == Ids(s.files) && Urls(t.files) == Urls(s.files)
    ensures forall i :: 0 <= i < |s.files| ==>
              t.files[i].(aiName := s.files[i].aiName) == s.files[i]
              && (t.files[i].aiName == if s.files[i].id == id then Some(name) else s.files[i].aiName)
    ensures !HasId(s.files, id) ==> t.files == s.files
    ensures t.revoked == s.revoked
    ensures t.notices == s.notices + [AiNameSaved]
  {
    var files := SetAiName(s.files, id, name);
    assert !HasId(s.files, id) ==> files == s.files;
    State(files, s.revoked, s.notices + [AiNameSaved])
  }

  /**
   * `handleClearAll`: with files present a confirmation toast opens; its
   * buttons close over the list as it was at that moment.
   */
  datatype Prompted = Prompted(state: State, snapshot: Option<seq<Entry>>)

  function HandleClearAll(s: State): (p: Prompted)
    ensures s.files == [] ==> p == Prompted(s, None)
    ensures s.files != [] ==> p.snapshot == Some(s.files)
    ensures p.state.files == s.files && p.state.revoked == s.revoked
  {
    if |s.files| == 0 then Prompted(s, None)
    else Prompted(State(s.files, s.revoked, s.notices + [ClearPrompt]), Some(s.files))
  }

  datatype Answer = Confirm | Cancel

  /**
   * The prompt's buttons as written: "Ya, Hapus" revokes every URL of the
   * list captured when the prompt opened and then empties the list;
   * "Batal" only dismisses the toast.
   */
  function AnswerPromptAsWritten(s: State, snapshot: seq<Entry>, answer: Answer): (t: State)
    ensures answer == Cancel ==> t == s
    ensures answer == Confirm ==>
              t.files == [] && t.revoked == s.revoked + Urls(snapshot)
              && t.notices == s.notices + [AllCleared]
  {
    match answer
    case Cancel => s
    case Confirm => State([], s.revoked + Urls(snapshot), s.notices + [AllCleared])
  }

  /**
   * The confirm button as intended: it revokes the URLs of the list it
   * empties, i.e. the live list at the moment of the click.
   */
  function AnswerPrompt(s: State, answer: Answer): (t: State)
    ensures answer == Cancel ==> t == s
    ensures answer == Confirm ==>
              t.files == [] && t.revoked == s.revoked + Urls(s.files)
              && t.notices == s.notices + [AllCleared]
  {
    match answer
    case Cancel => s
    case Confirm => State([], s.revoked + Urls(s.files), s.notices + [AllCleared])
  }

  /** `map` over a concatenation is the concatenation of the maps. */
  lemma {:induction false} NewEntriesAppend(x: seq<Upload>, y: seq<Upload>)
    ensures NewEntries(x + y) == NewEntries(x) + NewEntries(y)
  {
    if x != [] {
      assert (x + y)[1..] == x[1..] + y;
      NewEntriesAppend(x[1..], y);
    } else {
      assert x + y == y;
    }
  }

  /** Two batches in a row give the later batch first, each in its own input order. */
  lemma AddBatchesCompose(s: State, x: seq<Upload>, y: seq<Upload>)
    ensures AddFiles(AddFiles(s, x), y).files == AddFiles(s, y + x).files
  {
    var s1 := AddFiles(s, x);
    assert s1.files == NewEntries(x) + s.files;
    assert AddFiles(s1, y).files == NewEntries(y) + (NewEntries(x) + s.files);
    NewEntriesAppend(y, x);
    assert AddFiles(s, y + x).files == NewEntries(y + x) + s.files;
  }

  /** Adding [a, b] and then [c] gives the order c, a, b in front of the old list. */
  lemma AddOrderExample(s: State, a: Upload, b: Upload, c: Upload)
    ensures AddFiles(AddFiles(s, [a, b]), [c]).files
            == [NewEntry(c), NewEntry(a), NewEntry(b)] + s.files
  {
    AddBatchesCompose(s, [a, b], [c]);
  }

  /** Filtering keeps relative order: it distributes over concatenation. */
  lemma {:induction false} WithoutIdAppend(a: seq<Entry>, b: seq<Entry>, id: string)
    ensures WithoutId(a + b, id) == WithoutId(a, id) + WithoutId(b, id)
  {
    if a != [] {
      assert (a + b)[1..] == a[1..] + b;
      WithoutIdAppend(a[1..], b, id);
    } else {
      assert a + b == b;
    }
  }

  /** Removal keeps the entries on either side of the removed ones in their order. */
  lemma RemoveKeepsOrder(before: seq<Entry>, e: Entry, after: seq<Entry>, revoked: seq<string>, notices: seq<Notice>)
    requires !HasId(before, e.id) && !HasId(after, e.id)
    ensures RemoveFile(State(before + [e] + after, revoked, notices), e.id).files == before + after
  {
    WithoutIdAppend(before + [e], after, e.id);
    WithoutIdAppend(before, [e], e.id);
  }

  /** Removing the same id twice is removing it once: the second call is a no-op. */
  lemma RemoveTwiceIsNoop(s: State, id: string)
    ensures RemoveFile(RemoveFile(s, id), id) == RemoveFile(s, id)
  {
  }

  /**
   * A scan that settles after its card was removed: the late update leaves
   * the list as the removal left it; only the toast is raised.
   */
  lemma LateUpdateAfterRemove(s: State, id: string, name: string)
    ensures var t := RemoveFile(s, id);
            var u := UpdateAiName(t, id, name);
            u.files == t.files && u.revoked == t.revoked && u.notices == t.notices + [AiNameSaved]
  {
  }

  /** Nothing ever leaves `Idle`: every updater keeps all statuses `Idle`. */
  predicate AllIdle(files: seq<Entry>) {
    forall i :: 0 <= i < |files| ==> files[i].status == Idle
  }

  lemma StatusStaysIdle(s: State, uploads: seq<Upload>, id: string, name: string, answer: Answer)
    requires AllIdle(s.files)
    ensures AllIdle(AddFiles(s, uploads).files)
    ensures AllIdle(RemoveFile(s, id).files)
    ensures AllIdle(UpdateAiName(s, id, name).files)
    ensures AllIdle(HandleClearAll(s).state.files)
    ensures AllIdle(AnswerPrompt(s, answer).files)
  {
    AddKeepsIdle(s, uploads);
    RemoveKeepsIdle(s, id);
  }

  lemma AddKeepsIdle(s: State, uploads: seq<Upload>)
    requires AllIdle(s.files)
    ensures AllIdle(AddFiles(s, uploads).files)
  {
    var t := AddFiles(s, uploads);
    forall i | |uploads| <= i < |t.files| ensures t.files[i].status == Idle {
      assert t.files[i] == t.files[|uploads|..][i - |uploads|];
    }
  }

  lemma RemoveKeepsIdle(s: State, id: string)
    requires AllIdle(s.files)
    ensures AllIdle(RemoveFile(s, id).files)
  {
    var r := RemoveFile(s, id);
    forall i | 0 <= i < |r.files| ensures r.files[i].status == Idle {
      assert r.files[i] in s.files;
    }
  }
}
