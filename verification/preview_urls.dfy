/**
 * The life cycle of preview URLs and entry ids across the store's updaters.
 * A state is well formed when no id is shared by two entries, no URL is
 * live twice, revoked twice, or both live and revoked, and every entry is
 * `Idle`. Conservation says that an updater neither loses a URL (a leak:
 * it leaves the list without being revoked) nor revokes one twice: the live
 * URLs and the revoked URLs together form the same multiset before and
 * after, plus the URLs of a newly added batch.
 */
module PreviewUrls {
  import opened Outcomes
  import opened FileUtils
  import opened App

  /** No value occurs twice. */
  predicate NoDup<T(==)>(xs: seq<T>) {
    forall x | x in xs :: multiset(xs)[x] == 1
  }

  /** Every URL ever handed out: the live ones, then the revoked ones. */
  function Handles(s: State): seq<string> {
    Urls(s.files) + s.revoked
  }

  predicate Wellformed(s: State) {
    && NoDup(Ids(s.files))
    && NoDup(Handles(s))
    && AllIdle(s.files)
  }

  function UploadIds(uploads: seq<Upload>): (ids: seq<string>)
    ensures |ids| == |uploads|
  {
    seq(|uploads|, i requires 0 <= i < |uploads| => uploads[i].id)
  }

  function UploadUrls(uploads: seq<Upload>): (urls: seq<string>)
    ensures |urls| == |uploads|
  {
    seq(|uploads|, i requires 0 <= i < |uploads| => uploads[i].previewUrl)
  }

  /**
   * What a batch needs from `generateId` and `URL.createObjectURL`: ids that
   * clash with no other id, URLs never seen before.
   */
  predicate Fresh(s: State, uploads: seq<Upload>) {
    NoDup(UploadIds(uploads) + Ids(s.files)) && NoDup(UploadUrls(uploads) + Handles(s))
  }

  lemma NoDupSub<T>(a: seq<T>, b: seq<T>)
    requires multiset(a) <= multiset(b) && NoDup(b)
    ensures NoDup(a)
  {
    forall x | x in a ensures multiset(a)[x] == 1 {
      assert x in multiset(a);
      assert x in multiset(b);
      assert x in b;
    }
  }

  lemma UrlsAppend(a: seq<Entry>, b: seq<Entry>)
    ensures Urls(a + b) == Urls(a) + Urls(b)
  {
    assert forall i :: 0 <= i < |a + b| ==> Urls(a + b)[i] == (Urls(a) + Urls(b))[i];
  }

  lemma IdsAppend(a: seq<Entry>, b: seq<Entry>)
    ensures Ids(a + b) == Ids(a) + Ids(b)
  {
    assert forall i :: 0 <= i < |a + b| ==> Ids(a + b)[i] == (Ids(a) + Ids(b))[i];
  }

  /** With unique ids, the head's id occurs nowhere in the tail. */
  lemma HeadIdNotInTail(files: seq<Entry>)
    requires files != [] && NoDup(Ids(files))
    ensures !HasId(files[1..], files[0].id) && NoDup(Ids(files[1..]))
  {
    var rest := files[1..];
    assert files == [files[0]] + rest;
    IdsAppend([files[0]], rest);
    NoDupSub(Ids(rest), Ids(files));
    var x := files[0].id;
    assert x in Ids(files);
    assert multiset(Ids(files))[x] == 1 + multiset(Ids(rest))[x];
    assert x !in multiset(Ids(rest));
    forall i | 0 <= i < |rest| ensures rest[i].id != x {
      assert Ids(rest)[i] in multiset(Ids(rest));
    }
  }

  /**
   * With unique ids, filtering an id out removes exactly the URL of the
   * entry `find` returns, or nothing when there is none.
   */
  lemma {:induction false} WithoutUniqueId(files: seq<Entry>, id: string)
    requires NoDup(Ids(files))
    ensures var found := FindById(files, id);
            multiset(Urls(files)) ==
            multiset(Urls(WithoutId(files, id)))
            + (if found.Some? then multiset{found.value.previewUrl} else multiset{})
  {
    if files != [] {
      var f := files[0];
      var rest := files[1..];
      assert files == [f] + rest;
      UrlsAppend([f], rest);
      assert multiset(Urls(files)) == multiset{f.previewUrl} + multiset(Urls(rest));
      HeadIdNotInTail(files);
      if f.id == id {
        assert FindById(files, id) == Some(f);
        assert WithoutId(files, id) == rest;
      } else {
        WithoutUniqueId(rest, id);
        var w := WithoutId(rest, id);
        assert FindById(files, id) == FindById(rest, id);
        assert WithoutId(files, id) == [f] + w;
        UrlsAppend([f], w);
        assert multiset(Urls([f] + w)) == multiset{f.previewUrl} + multiset(Urls(w));
      }
    }
  }

  /** Filtering never adds an id. */
  lemma {:induction false} WithoutIdKeepsIds(files: seq<Entry>, id: string)
    ensures multiset(Ids(WithoutId(files, id))) <= multiset(Ids(files))
  {
    if files != [] {
      var f := files[0];
      var rest := files[1..];
      assert files == [f] + rest;
      IdsAppend([f], rest);
      WithoutIdKeepsIds(rest, id);
      if f.id != id {
        var w := WithoutId(rest, id);
        assert WithoutId(files, id) == [f] + w;
        IdsAppend([f], w);
      }
    }
  }

  /** Adding a fresh batch keeps the state well formed and revokes nothing. */
  lemma AddKeepsWellformed(s: State, uploads: seq<Upload>)
    requires Wellformed(s) && Fresh(s, uploads)
    ensures var t := AddFiles(s, uploads);
            Wellformed(t) && Handles(t) == UploadUrls(uploads) + Handles(s)
  {
    AddPrepends(s, uploads);
    AddKeepsIdle(s, uploads);
  }

  /** The batch's ids and URLs go in front of the old ones. */
  lemma AddPrepends(s: State, uploads: seq<Upload>)
    ensures var t := AddFiles(s, uploads);
            Ids(t.files) == UploadIds(uploads) + Ids(s.files)
            && Handles(t) == UploadUrls(uploads) + Handles(s)
  {
    var added := NewEntries(uploads);
    var t := AddFiles(s, uploads);
    assert t.files == added + s.files && t.revoked == s.revoked;
    NewEntriesKeys(uploads);
    Prepended(t, s, added);
  }

  lemma Prepended(t: State, s: State, added: seq<Entry>)
    requires t.files == added + s.files && t.revoked == s.revoked
    ensures Ids(t.files) == Ids(added) + Ids(s.files)
    ensures Handles(t) == Urls(added) + Handles(s)
  {
    IdsAppend(added, s.files);
    UrlsAppend(added, s.files);
    var a, b, c := Urls(added), Urls(s.files), s.revoked;
    assert (a + b) + c == a + (b + c);
  }

  lemma NewEntriesKeys(uploads: seq<Upload>)
    ensures Urls(NewEntries(uploads)) == UploadUrls(uploads)
    ensures Ids(NewEntries(uploads)) == UploadIds(uploads)
  {
    var es := NewEntries(uploads);
    assert forall i :: 0 <= i < |uploads| ==> Urls(es)[i] == UploadUrls(uploads)[i];
    assert forall i :: 0 <= i < |uploads| ==> Ids(es)[i] == UploadIds(uploads)[i];
  }

  /**
   * Removing an id keeps the state well formed, revokes the removed entry's
   * URL once, and leaves it nowhere in the live list.
   */
  lemma RemoveKeepsWellformed(s: State, id: string)
    requires Wellformed(s)
    ensures var t := RemoveFile(s, id);
            Wellformed(t) && multiset(Handles(t)) == multiset(Handles(s))
            && forall u :: u in t.revoked && u !in s.revoked ==> u !in Urls(t.files)
  {
    RemoveConserves(s, id);
    RemoveKeepsIdle(s, id);
    Shrunk(s, RemoveFile(s, id));
  }

  /**
   * A state whose URLs are a rearrangement of a well-formed state's, and
   * whose ids are some of its ids, is well formed if its entries are idle.
   */
  lemma Shrunk(s: State, t: State)
    requires Wellformed(s) && AllIdle(t.files)
    requires multiset(Handles(t)) == multiset(Handles(s))
    requires multiset(Ids(t.files)) <= multiset(Ids(s.files))
    ensures Wellformed(t)
    ensures forall u :: u in t.revoked ==> u !in Urls(t.files)
  {
    NoDupSub(Ids(t.files), Ids(s.files));
    NoDupSub(Handles(t), Handles(s));
    forall u | u in t.revoked ensures u !in Urls(t.files) {
      NoDupApart(Urls(t.files), t.revoked, u);
    }
  }

  lemma RemoveConserves(s: State, id: string)
    requires NoDup(Ids(s.files))
    ensures var t := RemoveFile(s, id);
            multiset(Handles(t)) == multiset(Handles(s))
            && multiset(Ids(t.files)) <= multiset(Ids(s.files))
  {
    var t := RemoveFile(s, id);
    var found := FindById(s.files, id);
    assert t.files == WithoutId(s.files, id);
    assert t.revoked == if found.Some? then s.revoked + [found.value.previewUrl] else s.revoked;
    WithoutUniqueId(s.files, id);
    WithoutIdKeepsIds(s.files, id);
  }

  /** In a sequence without repeats, no value lies in both parts. */
  lemma NoDupApart<T>(a: seq<T>, b: seq<T>, u: T)
    requires NoDup(a + b) && (u in a || u in b)
    ensures u in a ==> u !in b
    ensures u in b ==> u !in a
  {
    assert u in a + b;
    assert multiset(a + b)[u] == multiset(a)[u] + multiset(b)[u];
    if u in a {
      assert u in multiset(a);
    } else {
      assert u in multiset(b);
    }
  }

  /** Saving an AI name touches neither ids nor URLs nor statuses. */
  lemma UpdateKeepsWellformed(s: State, id: string, name: string)
    requires Wellformed(s)
    ensures var t := UpdateAiName(s, id, name);
            Wellformed(t) && Handles(t) == Handles(s)
  {
  }

  /** The intended confirm keeps the state well formed and hands every live URL to the revocation log. */
  lemma ConfirmKeepsWellformed(s: State)
    requires Wellformed(s)
    ensures var t := AnswerPrompt(s, Confirm);
            Wellformed(t) && multiset(Handles(t)) == multiset(Handles(s))
  {
    var t := AnswerPrompt(s, Confirm);
    assert Urls(t.files) == [];
    assert Handles(t) == s.revoked + Urls(s.files);
    assert multiset(Handles(t)) == multiset(Handles(s));
    NoDupSub(Handles(t), Handles(s));
  }

  /** Opening the prompt changes neither the list nor the revocation log. */
  lemma PromptKeepsWellformed(s: State)
    requires Wellformed(s)
    ensures Wellformed(HandleClearAll(s).state)
  {
  }

  lemma NoDupSingle<T>(x: T)
    ensures NoDup([x])
  {
    assert multiset([x]) == multiset{x};
  }

  /** A prompt answered before the list changes does the same in both readings. */
  lemma AsWrittenAgreesWhenUnchanged(s: State, answer: Answer)
    ensures AnswerPromptAsWritten(s, s.files, answer) == AnswerPrompt(s, answer)
  {
  }

  /** Example batch entries used by the counterexamples below. */
  const Pic: File := File("pic.png", "image/png", 1)

  /**
   * The confirm button as written, after the card was removed while the
   * prompt was open: the removed entry's URL is revoked a second time.
   */
  lemma StaleConfirmRevokesTwice()
    ensures var s0 := AddFiles(Empty, [Upload(Pic, "a", "blob:1")]);
            var p := HandleClearAll(s0);
            var s1 := RemoveFile(p.state, "a");
            var s2 := AnswerPromptAsWritten(s1, p.snapshot.value, Confirm);
            Wellformed(s1) && s2.revoked == ["blob:1", "blob:1"] && !NoDup(Handles(s2))
  {
    var u := Upload(Pic, "a", "blob:1");
    SingleUpload(u);
    var s0 := AddFiles(Empty, [u]);
    StaleConfirmRevokesRemovedTwice(s0, 0);
    var p := HandleClearAll(s0);
    var s1 := RemoveFile(p.state, "a");
    assert FirstWithId(p.state.files, "a", 0);
    assert s1.revoked == ["blob:1"];
    var s2 := AnswerPromptAsWritten(s1, p.snapshot.value, Confirm);
    assert Urls(p.snapshot.value) == ["blob:1"];
    assert Handles(s2) == s2.revoked == ["blob:1", "blob:1"];
    assert multiset(Handles(s2))["blob:1"] == 2;
  }

  /** A single upload into the empty store gives a well-formed one-entry list. */
  lemma SingleUpload(u: Upload)
    ensures var s0 := AddFiles(Empty, [u]);
            Wellformed(s0) && s0.files == [NewEntry(u)] && s0.revoked == []
  {
    NoDupSingle(u.id);
    NoDupSingle(u.previewUrl);
    assert UploadIds([u]) + Ids(Empty.files) == [u.id];
    assert UploadUrls([u]) + Handles(Empty) == [u.previewUrl];
    AddKeepsWellformed(Empty, [u]);
  }

  /**
   * The confirm button as written, after a batch was added while the
   * prompt was open: the new entries leave the list, yet their URLs are
   * neither live nor revoked afterwards.
   */
  lemma StaleConfirmLeaks(s: State, uploads: seq<Upload>)
    requires Wellformed(s) && s.files != [] && uploads != []
    requires Fresh(HandleClearAll(s).state, uploads)
    ensures var p := HandleClearAll(s);
            var s1 := AddFiles(p.state, uploads);
            var s2 := AnswerPromptAsWritten(s1, p.snapshot.value, Confirm);
            Wellformed(s1) && s2.files == []
            && forall u :: u in UploadUrls(uploads) ==> u in Handles(s1) && u !in Handles(s2)
  {
    var p := HandleClearAll(s);
    PromptKeepsWellformed(s);
    AddKeepsWellformed(p.state, uploads);
    var s1 := AddFiles(p.state, uploads);
    var s2 := AnswerPromptAsWritten(s1, p.snapshot.value, Confirm);
    assert Handles(s2) == [] + s.revoked + Urls(s.files);
    forall u | u in UploadUrls(uploads) ensures u !in Handles(s2) {
      NoDupApart(UploadUrls(uploads), Handles(p.state), u);
    }
  }

  /**
   * The confirm button as written, after a card was removed while the
   * prompt was open: the removed card's URL ends up revoked twice.
   */
  lemma StaleConfirmRevokesRemovedTwice(s: State, i: int)
    requires Wellformed(s) && 0 <= i < |s.files|
    ensures var p := HandleClearAll(s);
            var s1 := RemoveFile(p.state, s.files[i].id);
            var s2 := AnswerPromptAsWritten(s1, p.snapshot.value, Confirm);
            Wellformed(s1) && multiset(s2.revoked)[s.files[i].previewUrl] == 2
  {
    var e := s.files[i];
    var p := HandleClearAll(s);
    PromptKeepsWellformed(s);
    RemoveKeepsWellformed(p.state, e.id);
    forall j | 0 <= j < i ensures s.files[j].id != e.id {
      NoDupIndices(Ids(s.files), j, i);
    }
    assert FirstWithId(p.state.files, e.id, i);
    var s1 := RemoveFile(p.state, e.id);
    assert s1.revoked == s.revoked + [e.previewUrl];
    NoDupApart(Urls(s.files), s.revoked, e.previewUrl);
    assert Urls(s.files)[i] == e.previewUrl;
    NoDupPrefix(Urls(s.files), s.revoked);
    assert multiset(Urls(s.files))[e.previewUrl] == 1;
  }

  lemma NoDupIndices<T>(xs: seq<T>, j: int, i: int)
    requires NoDup(xs) && 0 <= j < i < |xs|
    ensures xs[j] != xs[i]
  {
    var x := xs[i];
    assert xs == xs[..i] + [x] + xs[i + 1..];
    assert multiset(xs)[x] == multiset(xs[..i])[x] + 1 + multiset(xs[i + 1..])[x];
    assert x !in multiset(xs[..i]);
    assert xs[j] == xs[..i][j];
  }

  lemma NoDupPrefix<T>(a: seq<T>, b: seq<T>)
    requires NoDup(a + b)
    ensures NoDup(a)
  {
    NoDupSub(a, a + b);
  }

  /**
   * Why unique ids matter: with two entries sharing an id, removal drops
   * both but revokes only the first one's URL, so the second leaks.
   */
  lemma DuplicateIdLeaks()
    ensures var s0 := AddFiles(Empty, [Upload(Pic, "a", "blob:1"), Upload(Pic, "a", "blob:2")]);
            var s1 := RemoveFile(s0, "a");
            s1.files == [] && s1.revoked == ["blob:1"]
  {
    var u := Upload(Pic, "a", "blob:1");
    var v := Upload(Pic, "a", "blob:2");
    var s0 := AddFiles(Empty, [u, v]);
    assert s0.files == [NewEntry(u), NewEntry(v)];
    assert FirstWithId(s0.files, "a", 0);
    assert s0.files[1..] == [NewEntry(v)];
    assert WithoutId([NewEntry(v)], "a") == [];
    assert WithoutId(s0.files, "a") == [];
  }
}
