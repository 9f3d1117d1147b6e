/**
 * The store driven by a sequence of user actions, with the clear-all prompt
 * answered through the corrected confirm (`AnswerPrompt`, which revokes the
 * list it empties). Under fresh ids and URLs from the browser, every state
 * reached is well formed: each preview URL is released at most once, and
 * only once its entry has left the list.
 */
module Session {
  import opened App
  import opened PreviewUrls

  datatype Action =
    | Add(uploads: seq<Upload>)
    | Remove(id: string)
    | SaveAiName(id: string, name: string)
    | ClearAll(answer: Answer)

  /**
   * One user action. Only a removal and a confirmed clear release URLs; a
   * confirmed clear leaves the list empty; saving a name keeps every id.
   */
  function Step(s: State, a: Action): (t: State)
    ensures !a.Remove? && a != ClearAll(Confirm) ==> t.revoked == s.revoked
    ensures a == ClearAll(Confirm) ==> t.files == []
    ensures a.SaveAiName? ==> Ids(t.files) == Ids(s.files)
  {
    match a
    case Add(uploads) => AddFiles(s, uploads)
    case Remove(id) => RemoveFile(s, id)
    case SaveAiName(id, name) => UpdateAiName(s, id, name)
    case ClearAll(answer) =>
      var p := HandleClearAll(s);
      if p.snapshot.None? then p.state else AnswerPrompt(p.state, answer)
  }

  /** An added batch must come with fresh ids and URLs. */
  predicate Admissible(s: State, a: Action) {
    a.Add? ==> Fresh(s, a.uploads)
  }

  function Run(s: State, actions: seq<Action>): State
    decreases |actions|
  {
    if actions == [] then s else Run(Step(s, actions[0]), actions[1..])
  }

  predicate AdmissibleRun(s: State, actions: seq<Action>)
    decreases |actions|
  {
    actions == [] || (Admissible(s, actions[0]) && AdmissibleRun(Step(s, actions[0]), actions[1..]))
  }

  /** Every admissible action keeps the store well formed and never drops a URL it has seen. */
  lemma StepKeepsWellformed(s: State, a: Action)
    requires Wellformed(s) && Admissible(s, a)
    ensures Wellformed(Step(s, a))
    ensures multiset(Handles(s)) <= multiset(Handles(Step(s, a)))
  {
    match a
    case Add(uploads) =>
      AddStepKeepsWellformed(s, uploads);
    case Remove(id) =>
      RemoveKeepsWellformed(s, id);
    case SaveAiName(id, name) =>
      UpdateKeepsWellformed(s, id, name);
    case ClearAll(answer) =>
      ClearStepKeepsWellformed(s, answer);
  }

  lemma AddStepKeepsWellformed(s: State, uploads: seq<Upload>)
    requires Wellformed(s) && Fresh(s, uploads)
    ensures Wellformed(AddFiles(s, uploads))
    ensures multiset(Handles(s)) <= multiset(Handles(AddFiles(s, uploads)))
  {
    AddKeepsWellformed(s, uploads);
    assert multiset(Handles(AddFiles(s, uploads))) == multiset(UploadUrls(uploads)) + multiset(Handles(s));
  }

  lemma ClearStepKeepsWellformed(s: State, answer: Answer)
    requires Wellformed(s)
    ensures Wellformed(Step(s, ClearAll(answer)))
    ensures multiset(Handles(s)) <= multiset(Handles(Step(s, ClearAll(answer))))
  {
    PromptKeepsWellformed(s);
    var p := HandleClearAll(s);
    var t := Step(s, ClearAll(answer));
    assert Handles(p.state) == Handles(s);
    if p.snapshot.None? {
      assert t == p.state;
    } else if answer == Confirm {
      ConfirmKeepsWellformed(p.state);
      assert t == AnswerPrompt(p.state, Confirm);
      assert multiset(Handles(t)) == multiset(Handles(s));
    } else {
      assert t == p.state;
    }
  }

  /** Every state an admissible run reaches from a well-formed state is well formed. */
  lemma {:induction false} RunKeepsWellformed(s: State, actions: seq<Action>)
    requires Wellformed(s) && AdmissibleRun(s, actions)
    ensures Wellformed(Run(s, actions))
    ensures multiset(Handles(s)) <= multiset(Handles(Run(s, actions)))
    decreases |actions|
  {
    if actions != [] {
      StepKeepsWellformed(s, actions[0]);
      RunKeepsWellformed(Step(s, actions[0]), actions[1..]);
    }
  }

  /** The empty store is well formed. */
  lemma EmptyIsWellformed()
    ensures Wellformed(Empty)
  {
  }
}
