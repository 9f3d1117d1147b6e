/**
 * The per-card state machine of components/FileCard.tsx: the four state
 * variables `copied`, `copiedAi`, `isScanning` and `error`, and the events
 * that change them. The 2-second timers and the promise settlement are
 * explicit events; the calls the card makes to the outside (the AI service,
 * `onUpdateAiName`, `onCopy`) are returned as effects.
 */
module FileCard {
  import opened Outcomes
  import opened FileUtils
  import App

  /** The size ceiling for a scan: 10 MiB, compared strictly. */
  const MaxScanBytes: nat := 10 * 1024 * 1024
  const TooLargeMessage: string := "File terlalu besar (>10MB)"
  const ScanFailedMessage: string := "Gagal memindai"

  datatype Card = Card(copied: bool, copiedAi: bool, scanning: bool, error: Option<string>)

  const Initial: Card := Card(false, false, false, None)

  /** What the card asks of the outside world. */
  datatype Effect =
    | CallService(file: File)
    | UpdateAiName(id: string, name: string)
    | CopyText(text: string)

  datatype Event =
    | ScanClicked
    | ServiceResolved(name: string)
    | ServiceRejected(message: string)
    | FilenameClicked
    | AiNameClicked
    | CopiedExpired
    | CopiedAiExpired

  datatype Step = Step(card: Card, effects: seq<Effect>)

  /** `fileData.aiExtractedName` is truthy: present and not the empty string. */
  predicate ShowsAiName(e: App.Entry) {
    e.aiName.Some? && e.aiName.value != ""
  }

  /**
   * The events the rendered card can receive: the scan button exists only
   * while no AI name is shown, the AI-name copy target only while one is,
   * and a settlement only while a scan is in flight.
   */
  predicate Offered(c: Card, e: App.Entry, ev: Event) {
    match ev
    case ScanClicked => !ShowsAiName(e)
    case AiNameClicked => ShowsAiName(e)
    case ServiceResolved(_) => c.scanning
    case ServiceRejected(_) => c.scanning
    case _ => true
  }

  /** Between a scan's start and its settlement the error is cleared. */
  predicate Consistent(c: Card) {
    c.scanning ==> c.error == None
  }

  /**
   * `handleScan` up to the `await`: the re-entrancy guard, then the size
   * guard, then the start of the scan.
   */
  function HandleScan(c: Card, e: App.Entry): (st: Step)
    ensures c.scanning ==> st == Step(c, [])
    ensures CallService(e.file) in st.effects <==> !c.scanning && e.file.size <= MaxScanBytes
    ensures |st.effects| <= 1 && forall f :: f in st.effects ==> f == CallService(e.file)
    ensures !c.scanning && e.file.size > MaxScanBytes ==>
              !st.card.scanning && st.card.error == Some(TooLargeMessage)
    ensures !c.scanning && e.file.size <= MaxScanBytes ==>
              st.card.scanning && st.card.error == None
    ensures st.card.copied == c.copied && st.card.copiedAi == c.copiedAi
  {
    if c.scanning then Step(c, [])
    else if e.file.size > MaxScanBytes then Step(c.(error := Some(TooLargeMessage)), [])
    else Step(c.(scanning := true, error := None), [CallService(e.file)])
  }

  /** The `try` branch after the service resolved, and the `finally`. */
  function OnResolved(c: Card, id: string, name: string): (st: Step)
    requires c.scanning
    ensures st.effects == [UpdateAiName(id, name)]
    ensures !st.card.scanning && st.card.error == c.error
    ensures st.card.copied == c.copied && st.card.copiedAi == c.copiedAi
  {
    Step(c.(scanning := false), [UpdateAiName(id, name)])
  }

  /** `err.message || "Gagal memindai"`. */
  function ErrorText(message: string): (m: string)
    ensures m != ""
    ensures message != "" ==> m == message
    ensures message == "" ==> m == ScanFailedMessage
  {
    if message != "" then message else ScanFailedMessage
  }

  /** The `catch` branch after the service rejected, and the `finally`. */
  function OnRejected(c: Card, message: string): (st: Step)
    requires c.scanning
    ensures st.effects == []
    ensures !st.card.scanning && st.card.error == Some(ErrorText(message))
    ensures st.card.copied == c.copied && st.card.copiedAi == c.copiedAi
  {
    Step(c.(scanning := false, error := Some(ErrorText(message))), [])
  }

  /** `handleCopy(text, isAi)`: hands the text on and raises the matching flag. */
  function HandleCopy(c: Card, text: string, isAi: bool): (st: Step)
    ensures st.effects == [CopyText(text)]
    ensures st.card.scanning == c.scanning && st.card.error == c.error
    ensures isAi ==> st.card.copiedAi && st.card.copied == c.copied
    ensures !isAi ==> st.card.copied && st.card.copiedAi == c.copiedAi
  {
    if isAi then Step(c.(copiedAi := true), [CopyText(text)])
    else Step(c.(copied := true), [CopyText(text)])
  }

  /** One event delivered to a card rendering entry `e`. */
  function Handle(c: Card, e: App.Entry, ev: Event): (st: Step)
    requires Offered(c, e, ev)
    ensures |st.effects| <= 1
    ensures ev.FilenameClicked? ==> st.effects == [CopyText(e.filename)]
    ensures ev.AiNameClicked? ==> st.effects == [CopyText(e.aiName.value)] && e.aiName.value != ""
    ensures ev.CopiedExpired? || ev.CopiedAiExpired? ==>
              st.effects == [] && st.card.scanning == c.scanning && st.card.error == c.error
    ensures ev.CopiedExpired? ==> !st.card.copied && st.card.copiedAi == c.copiedAi
    ensures ev.CopiedAiExpired? ==> !st.card.copiedAi && st.card.copied == c.copied
  {
    match ev
    case ScanClicked => HandleScan(c, e)
    case ServiceResolved(name) => OnResolved(c, e.id, name)
    case ServiceRejected(message) => OnRejected(c, message)
    case FilenameClicked => HandleCopy(c, e.filename, false)
    case AiNameClicked => HandleCopy(c, e.aiName.value, true)
    case CopiedExpired => Step(c.(copied := false), [])
    case CopiedAiExpired => Step(c.(copiedAi := false), [])
  }

  /** Every event keeps a consistent card consistent, and a shown error is never empty. */
  lemma HandleKeepsConsistent(c: Card, e: App.Entry, ev: Event)
    requires Offered(c, e, ev) && Consistent(c)
    requires c.error.Some? ==> c.error.value != ""
    ensures var st := Handle(c, e, ev);
            Consistent(st.card) && (st.card.error.Some? ==> st.card.error.value != "")
  {
  }

  /** The service is called only by an accepted scan click, and a click while scanning does nothing. */
  lemma ServiceCalledOnlyOnAcceptedScan(c: Card, e: App.Entry, ev: Event)
    requires Offered(c, e, ev)
    ensures var st := Handle(c, e, ev);
            (exists f :: CallService(f) in st.effects) <==>
            ev == ScanClicked && !c.scanning && e.file.size <= MaxScanBytes
    ensures ev == ScanClicked && c.scanning ==> Handle(c, e, ev) == Step(c, [])
  {
    var st := Handle(c, e, ev);
    if ev == ScanClicked && !c.scanning && e.file.size <= MaxScanBytes {
      assert CallService(e.file) in st.effects;
    }
  }

  /** `onUpdateAiName` is called by exactly the resolution, once, with the card's id and the resolved name. */
  lemma UpdateOnlyOnResolve(c: Card, e: App.Entry, ev: Event)
    requires Offered(c, e, ev)
    ensures var st := Handle(c, e, ev);
            (exists id, name :: UpdateAiName(id, name) in st.effects) <==> ev.ServiceResolved?
    ensures ev.ServiceResolved? ==> Handle(c, e, ev).effects == [UpdateAiName(e.id, ev.name)]
  {
    var st := Handle(c, e, ev);
    if ev.ServiceResolved? {
      assert UpdateAiName(e.id, ev.name) in st.effects;
    }
  }

  /**
   * The two copy acknowledgements are independent: each is raised only by
   * its own copy and lowered only by its own timer.
   */
  lemma CopyFlagsIndependent(c: Card, e: App.Entry, ev: Event)
    requires Offered(c, e, ev)
    ensures var st := Handle(c, e, ev);
            (st.card.copied != c.copied ==> ev == FilenameClicked || ev == CopiedExpired)
            && (st.card.copiedAi != c.copiedAi ==> ev == AiNameClicked || ev == CopiedAiExpired)
            && (ev == FilenameClicked ==> st.card.copied && st.effects == [CopyText(e.filename)])
            && (ev == AiNameClicked ==> st.card.copiedAi && st.effects == [CopyText(e.aiName.value)])
  {
  }

  /** The size guard is strict: exactly 10485760 bytes may be scanned, one more may not. */
  lemma SizeGuardBoundary(c: Card, e: App.Entry)
    requires !c.scanning
    ensures MaxScanBytes == 10485760
    ensures e.file.size == 10485760 ==> HandleScan(c, e).card.scanning
    ensures e.file.size == 10485761 ==>
              HandleScan(c, e) == Step(c.(error := Some(TooLargeMessage)), [])
  {
  }

  /** A whole scan, accepted and then settled either way, ends with the card idle again. */
  lemma ScanSettles(c: Card, e: App.Entry, outcome: Result<string>)
    requires !c.scanning && e.file.size <= MaxScanBytes
    ensures var s1 := HandleScan(c, e).card;
            var s2 := match outcome
                      case Ok(name) => OnResolved(s1, e.id, name).card
                      case Err(m) => OnRejected(s1, m).card;
            !s2.scanning && s2.copied == c.copied && s2.copiedAi == c.copiedAi
            && (outcome.Ok? ==> s2.error == None)
  {
  }
}
