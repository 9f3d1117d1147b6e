/**
 * One scan end to end: a card's scan click, the AI extraction client, and
 * the store update the card's resolution triggers through
 * `onUpdateAiName` (App.tsx `handleUpdateAiName`). Between click and
 * settlement the list may change (the entry may even be removed); the store
 * passed here is the list at settlement time.
 */
module Workflow {
  import opened Outcomes
  import opened FileUtils
  import App
  import GeminiService
  import FileCard

  /** What the service environment would do if asked: the key, the reader and the model. */
  datatype Service = Service(apiKey: Option<string>, encoding: GeminiService.Encoding, reply: GeminiService.Reply)

  datatype Outcome = Outcome(card: FileCard.Card, store: App.State, requests: seq<GeminiService.Request>)

  /** One effect of the card applied to the store: only `onUpdateAiName` reaches it. */
  function ApplyEffect(s: App.State, f: FileCard.Effect): App.State {
    if f.UpdateAiName? then App.UpdateAiName(s, f.id, f.name) else s
  }

  /** The card's effects applied to the store in order; the list keeps its length and nothing is revoked. */
  function ApplyEffects(s: App.State, effects: seq<FileCard.Effect>): (t: App.State)
    ensures t.revoked == s.revoked && |t.files| == |s.files| && App.Ids(t.files) == App.Ids(s.files)
    decreases |effects|
  {
    if effects == [] then s else ApplyEffects(ApplyEffect(s, effects[0]), effects[1..])
  }

  lemma ApplySingle(s: App.State, f: FileCard.Effect)
    ensures ApplyEffects(s, [f]) == ApplyEffect(s, f)
  {
    assert [f][1..] == [];
  }

  /** Click the scan button of the card for `e`, run the service, and settle. */
  function Scan(c: FileCard.Card, e: App.Entry, s: App.State, svc: Service): (o: Outcome)
    requires !FileCard.ShowsAiName(e)
    ensures |o.store.files| == |s.files| && o.store.revoked == s.revoked
    ensures App.Ids(o.store.files) == App.Ids(s.files)
    ensures o.requests != [] ==> !c.scanning && e.file.size <= FileCard.MaxScanBytes
    ensures !c.scanning ==> !o.card.scanning
  {
    var started := FileCard.HandleScan(c, e);
    if !(FileCard.CallService(e.file) in started.effects) then
      Outcome(started.card, s, [])
    else
      var x := GeminiService.ExtractUsernameFromMedia(svc.apiKey, e.file.mime, svc.encoding, svc.reply);
      match x.result
      case Ok(name) =>
        var settled := FileCard.OnResolved(started.card, e.id, name);
        Outcome(settled.card, ApplyEffects(s, settled.effects), x.requests)
      case Err(message) =>
        var settled := FileCard.OnRejected(started.card, message);
        Outcome(settled.card, ApplyEffects(s, settled.effects), x.requests)
  }

  /**
   * A scan never leaves the card scanning (unless one was already in
   * flight) and never shows an empty error. The card's own fallback is
   * never needed: a rejection always carries the service's message.
   */
  lemma ScanSettlesCleanly(c: FileCard.Card, e: App.Entry, s: App.State, svc: Service)
    requires !FileCard.ShowsAiName(e) && !c.scanning
    ensures var o := Scan(c, e, s, svc);
            !o.card.scanning
            && (o.card.error.Some? ==> o.card.error.value != "")
            && o.card.copied == c.copied && o.card.copiedAi == c.copiedAi
    ensures var x := GeminiService.ExtractUsernameFromMedia(svc.apiKey, e.file.mime, svc.encoding, svc.reply);
            e.file.size <= FileCard.MaxScanBytes && x.result.Err? ==>
            Scan(c, e, s, svc).card.error == Some(x.result.message)
  {
  }

  /** A file over the ceiling fails on the spot: no request, no store change. */
  lemma OversizeNeverCallsService(c: FileCard.Card, e: App.Entry, s: App.State, svc: Service)
    requires !FileCard.ShowsAiName(e) && !c.scanning && e.file.size > FileCard.MaxScanBytes
    ensures Scan(c, e, s, svc) == Outcome(c.(error := Some(FileCard.TooLargeMessage)), s, [])
  {
  }

  /** Without a key every accepted scan shows the configuration message and changes nothing else. */
  lemma MissingKeyLeavesStore(c: FileCard.Card, e: App.Entry, s: App.State, svc: Service)
    requires !FileCard.ShowsAiName(e) && !c.scanning && e.file.size <= FileCard.MaxScanBytes
    requires !GeminiService.KeyConfigured(svc.apiKey)
    ensures var o := Scan(c, e, s, svc);
            o.store == s && o.requests == []
            && o.card == c.(error := Some(GeminiService.MissingKeyMessage))
  {
  }

  /**
   * A successful scan records the name on every entry with the card's id
   * and on nothing else; the store raises its toast.
   */
  lemma SuccessRecordsName(c: FileCard.Card, e: App.Entry, s: App.State, svc: Service)
    requires !FileCard.ShowsAiName(e) && !c.scanning && e.file.size <= FileCard.MaxScanBytes
    requires GeminiService.KeyConfigured(svc.apiKey) && svc.encoding.Encoded? && svc.reply.Replied?
    ensures var o := Scan(c, e, s, svc);
            var name := GeminiService.ReplyText(svc.reply.text);
            o.store == App.UpdateAiName(s, e.id, name)
            && o.card.error == None
            && o.requests == [GeminiService.ReadFile, GeminiService.GenerateContent(e.file.mime, svc.encoding.data)]
  {
    var started := FileCard.HandleScan(c, e);
    assert FileCard.CallService(e.file) in started.effects;
    var x := GeminiService.ExtractUsernameFromMedia(svc.apiKey, e.file.mime, svc.encoding, svc.reply);
    var name := GeminiService.ReplyText(svc.reply.text);
    assert x.result == Ok(name);
    ApplySingle(s, FileCard.UpdateAiName(e.id, name));
  }

  /** A scan that settles after its entry was removed leaves the list untouched. */
  lemma ScanAfterRemovalIsHarmless(c: FileCard.Card, e: App.Entry, s: App.State, svc: Service)
    requires !FileCard.ShowsAiName(e) && !c.scanning
    requires !App.HasId(s.files, e.id)
    ensures Scan(c, e, s, svc).store.files == s.files
  {
    var started := FileCard.HandleScan(c, e);
    if FileCard.CallService(e.file) in started.effects {
      var x := GeminiService.ExtractUsernameFromMedia(svc.apiKey, e.file.mime, svc.encoding, svc.reply);
      if x.result.Ok? {
        ApplySingle(s, FileCard.UpdateAiName(e.id, x.result.value));
      }
    }
  }

  /**
   * After a successful scan with a non-blank result the entry shows the
   * name and the scan button is gone; a blank result ("" after trimming)
   * is falsy, so the button comes back.
   */
  lemma ScanButtonAfterSuccess(c: FileCard.Card, e: App.Entry, s: App.State, svc: Service, i: int)
    requires !FileCard.ShowsAiName(e) && !c.scanning && e.file.size <= FileCard.MaxScanBytes
    requires GeminiService.KeyConfigured(svc.apiKey) && svc.encoding.Encoded? && svc.reply.Replied?
    requires 0 <= i < |s.files| && s.files[i].id == e.id
    ensures var o := Scan(c, e, s, svc);
            var name := GeminiService.ReplyText(svc.reply.text);
            o.store.files[i].aiName == Some(name)
            && (FileCard.Offered(o.card, o.store.files[i], FileCard.ScanClicked) <==> name == "")
  {
    SuccessRecordsName(c, e, s, svc);
  }
}
