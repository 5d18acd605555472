/**
 Sending meeting minutes and submitting reports. Every awaited call is a step of its own, steps of any
 number of clients interleave, and a client may crash between any two.
 */
module ReviewedWrites {
  import opened Wrappers
  import opened Drafts

  type Client = nat

  /** Emails and reports go to different connectors, each with its own idempotency keys. */
  datatype Channel = EmailSystem | ReportSystem
  datatype Key = Key(channel: Channel, text: string)

  /** One external effect: an email that left, or a report that was filed. */
  datatype Delivery = Delivery(key: Key, target: Target, employee: string, content: Content,
                               comment: Option<string>, basis: nat)

  /** `keys` is the connector's own table of idempotency keys; a receipt is the position of a delivery
      in `outbox`. `calls` counts every call of the connector, repeated ones included. */
  datatype Connector = Connector(keys: map<Key, nat>, outbox: seq<Delivery>, calls: multiset<Target>)

  /** The idempotency records, and the replies given so far. */
  datatype Ledger = Ledger(results: map<Target, nat>, replies: seq<(Target, nat)>)

  datatype Phase =
    | Idle
    | ReviewSaving(target: Target, ref: Ref, approve: bool, note: Option<string>)
    | LookedUp(target: Target)
    | Loaded(target: Target, ref: Ref, employee: string)
    | Calling(target: Target, ref: Ref, delivery: Delivery)
    | Called(target: Target, ref: Ref, receipt: nat)
    | Saved(target: Target, receipt: nat)

  datatype State = State(drafts: Store, connector: Connector, ledger: Ledger, clients: map<Client, Phase>)

  datatype Step =
    | Generating(newTarget: Target, newContent: Content)
    | Reviewing(c: Client, which: Target, verdict: bool, comment: Option<string>)
    | ReviewSave(c: Client)
    | SendLookup(c: Client, which: Target)
    | SendLoad(c: Client)
    | SubmitLoad(c: Client, which: Target, employeeId: string)
    | SubmitLookup(c: Client)
    | Call(c: Client)
    | MarkSave(c: Client)
    | Remember(c: Client)
    | Crash(c: Client)

  /** `shareable` is the sensitive-data policy applied to what is about to leave. */
  datatype Config = Config(shared: bool, shareable: (Target, Content, Option<string>) -> bool)

  const INIT := State(Store([], map[], map[], []), Connector(map[], [], multiset{}), Ledger(map[], []), map[])

  function PhaseOf(s: State, c: Client): Phase {
    if c in s.clients then s.clients[c] else Idle
  }

  function To(s: State, c: Client, p: Phase): State {
    s.(clients := s.clients[c := p])
  }

  function Answer(l: Ledger, t: Target): Ledger
    requires t in l.results
  {
    l.(replies := l.replies + [(t, l.results[t])])
  }

  /** First write wins: a second result for the same target is dropped. */
  function Record(l: Ledger, t: Target, receipt: nat): Ledger {
    if t in l.results then l else l.(results := l.results[t := receipt])
  }

  /** A connector that deduplicates by key. */
  function Deliver(x: Connector, t: Target, d: Delivery): (r: (Connector, nat)) {
    var called := x.(calls := x.calls + multiset{t});
    if d.key in x.keys then (called, x.keys[d.key])
    else (called.(keys := x.keys[d.key := |x.outbox|], outbox := x.outbox + [d]), |x.outbox|)
  }

  /** The key handed to the connector. */
  function ConnectorKey(t: Target, employee: string, content: Content): Key {
    match t
    case Meeting(tenant, id) => Key(EmailSystem, tenant + ":" + id)
    case Report(tenant, id) => Key(ReportSystem, tenant + ":" + employee + ":" + content.reportDate + ":" + id)
  }

  /** Approved and shareable: the draft may leave. */
  predicate MayLeave(cfg: Config, d: Draft) {
    d.status.Approved? && cfg.shareable(d.target, d.content, d.comment)
  }

  function DeliveryOf(d: Draft, employee: string): Delivery {
    Delivery(ConnectorKey(d.target, employee, d.content), d.target, employee, d.content, d.comment, d.basis)
  }

  // ----- steps -----------------------------------------------------------------------------------

  predicate Stored(s: State, t: Target) {
    t in s.drafts.table && s.drafts.table[t] < |s.drafts.heap|
  }

  predicate HasRef(s: State, p: Phase) {
    (p.ReviewSaving? || p.Loaded? || p.Called?) && p.ref < |s.drafts.heap|
  }

  predicate Enabled(cfg: Config, s: State, step: Step) {
    match step
    case Generating(t, _) => t.Report? ==> t !in s.drafts.born
    case Reviewing(c, t, _, _) => PhaseOf(s, c).Idle? && Stored(s, t)
    case ReviewSave(c) => PhaseOf(s, c).ReviewSaving? && HasRef(s, PhaseOf(s, c))
    case SendLookup(c, t) => PhaseOf(s, c).Idle? && t.Meeting?
    case SendLoad(c) => PhaseOf(s, c).LookedUp?
    case SubmitLoad(c, t, _) => PhaseOf(s, c).Idle? && t.Report?
    case SubmitLookup(c) => PhaseOf(s, c).Loaded? && HasRef(s, PhaseOf(s, c))
    case Call(c) => PhaseOf(s, c).Calling?
    case MarkSave(c) => PhaseOf(s, c).Called? && HasRef(s, PhaseOf(s, c))
    case Remember(c) => PhaseOf(s, c).Saved?
    case Crash(c) => true
  }

  function GenerateStep(s: State, t: Target, content: Content): State {
    s.(drafts := Generate(s.drafts, t, content))
  }

  /** The reviewer's verdict. Only in a shared store does it take effect before it is saved. */
  function ReviewStep(cfg: Config, s: State, c: Client, t: Target, approve: bool, note: Option<string>): State
    requires Stored(s, t)
  {
    var ref := s.drafts.table[t];
    var drafts := if cfg.shared then Give(cfg.shared, s.drafts, t, ref, approve, note) else s.drafts;
    To(s.(drafts := drafts), c, ReviewSaving(t, ref, approve, note))
  }

  function ReviewSaveStep(cfg: Config, s: State, c: Client): State
    requires PhaseOf(s, c).ReviewSaving? && HasRef(s, PhaseOf(s, c))
  {
    var p := PhaseOf(s, c);
    To(s.(drafts := SaveReviewed(cfg.shared, s.drafts, p.target, p.ref, p.approve, p.note)), c, Idle)
  }

  /** Minutes look the result up first. */
  function SendLookupStep(s: State, c: Client, t: Target): State {
    if t in s.ledger.results then To(s.(ledger := Answer(s.ledger, t)), c, Idle) else To(s, c, LookedUp(t))
  }

  function SendLoadStep(cfg: Config, s: State, c: Client): State
    requires PhaseOf(s, c).LookedUp?
  {
    var t := PhaseOf(s, c).target;
    if !Stored(s, t) then To(s, c, Idle)
    else
      var ref := s.drafts.table[t];
      var d := s.drafts.heap[ref];
      To(s, c, if MayLeave(cfg, d) then Calling(t, ref, DeliveryOf(d, "")) else Idle)
  }

  /** Reports load the draft first, and check it after the lookup. */
  function SubmitLoadStep(s: State, c: Client, t: Target, employee: string): State {
    To(s, c, if Stored(s, t) then Loaded(t, s.drafts.table[t], employee) else Idle)
  }

  function SubmitLookupStep(cfg: Config, s: State, c: Client): State
    requires PhaseOf(s, c).Loaded? && HasRef(s, PhaseOf(s, c))
  {
    var p := PhaseOf(s, c);
    var d := s.drafts.heap[p.ref];
    if p.target in s.ledger.results then To(s.(ledger := Answer(s.ledger, p.target)), c, Idle)
    else To(s, c, if MayLeave(cfg, d) then Calling(p.target, p.ref, DeliveryOf(d, p.employee)) else Idle)
  }

  function CallStep(s: State, c: Client): State
    requires PhaseOf(s, c).Calling?
  {
    var p := PhaseOf(s, c);
    var (connector, receipt) := Deliver(s.connector, p.target, p.delivery);
    To(s.(connector := connector), c, Called(p.target, p.ref, receipt))
  }

  function MarkSaveStep(cfg: Config, s: State, c: Client): State
    requires PhaseOf(s, c).Called? && HasRef(s, PhaseOf(s, c))
  {
    var p := PhaseOf(s, c);
    To(s.(drafts := Mark(cfg.shared, s.drafts, p.target, p.ref)), c, Saved(p.target, p.receipt))
  }

  function RememberStep(s: State, c: Client): State
    requires PhaseOf(s, c).Saved?
  {
    var p := PhaseOf(s, c);
    To(s.(ledger := Answer(Record(s.ledger, p.target, p.receipt), p.target)), c, Idle)
  }

  function Next(cfg: Config, s: State, step: Step): State
    requires Enabled(cfg, s, step)
  {
    match step
    case Generating(t, content) => GenerateStep(s, t, content)
    case Reviewing(c, t, approve, note) => ReviewStep(cfg, s, c, t, approve, note)
    case ReviewSave(c) => ReviewSaveStep(cfg, s, c)
    case SendLookup(c, t) => SendLookupStep(s, c, t)
    case SendLoad(c) => SendLoadStep(cfg, s, c)
    case SubmitLoad(c, t, employee) => SubmitLoadStep(s, c, t, employee)
    case SubmitLookup(c) => SubmitLookupStep(cfg, s, c)
    case Call(c) => CallStep(s, c)
    case MarkSave(c) => MarkSaveStep(cfg, s, c)
    case Remember(c) => RememberStep(s, c)
    case Crash(c) => To(s, c, Idle)
  }

  ghost predicate Run(cfg: Config, s: State, steps: seq<Step>, s': State)
    decreases |steps|
  {
    if steps == [] then s == s'
    else Enabled(cfg, s, steps[0]) && Run(cfg, Next(cfg, s, steps[0]), steps[1..], s')
  }

  ghost predicate Reachable(cfg: Config, s: State) {
    exists steps :: Run(cfg, INIT, steps, s)
  }

  // ----- the invariant -----------------------------------------------------------------------------

  /** What leaves, or is about to: the approved content, checked, under its own key. */
  predicate DeliveryOk(cfg: Config, drafts: Store, d: Delivery) {
    && d.basis < |drafts.log|
    && drafts.log[d.basis] == Reviewed(d.target, d.content, d.comment, true)
    && cfg.shareable(d.target, d.content, d.comment)
    && d.key == ConnectorKey(d.target, d.employee, d.content)
    && d.target in drafts.born && (d.target.Report? ==> d.content == drafts.born[d.target])
  }

  /** The key is one that calls for this target use. */
  ghost predicate IsKeyOf(key: Key, t: Target) {
    exists employee, content :: key == ConnectorKey(t, employee, content)
  }

  /** A receipt is a real delivery, under a key of the target. */
  ghost predicate ReceiptOk(x: Connector, t: Target, receipt: nat) {
    receipt < |x.outbox| && IsKeyOf(x.outbox[receipt].key, t)
  }

  ghost predicate PhaseOk(cfg: Config, s: State, p: Phase) {
    && (p.ReviewSaving? || p.Loaded? || p.Calling? || p.Called? ==>
          p.ref < |s.drafts.heap| && s.drafts.heap[p.ref].target == p.target && p.target in s.drafts.table)
    && (!cfg.shared && (p.Calling? || p.Called?) ==> s.drafts.heap[p.ref].status.Approved?)
    && (p.LookedUp? ==> p.target.Meeting?)
    && (p.Loaded? ==> p.target.Report?)
    && (p.Calling? ==> p.delivery.target == p.target && DeliveryOk(cfg, s.drafts, p.delivery))
    && (p.Called? || p.Saved? ==> ReceiptOk(s.connector, p.target, p.receipt))
  }

  ghost predicate ClientsOk(cfg: Config, s: State) {
    forall c :: c in s.clients ==> PhaseOk(cfg, s, s.clients[c])
  }

  predicate ConnectorOk(x: Connector) {
    && (forall i :: 0 <= i < |x.outbox| ==> x.outbox[i].key in x.keys && x.keys[x.outbox[i].key] == i)
    && (forall k :: k in x.keys ==> x.keys[k] < |x.outbox| && x.outbox[x.keys[k]].key == k)
  }

  predicate OutboxOk(cfg: Config, drafts: Store, x: Connector) {
    forall i :: 0 <= i < |x.outbox| ==> DeliveryOk(cfg, drafts, x.outbox[i])
  }

  predicate LedgerOk(l: Ledger) {
    forall i :: 0 <= i < |l.replies| ==>
      l.replies[i].0 in l.results && l.results[l.replies[i].0] == l.replies[i].1
  }

  ghost predicate ResultsOk(x: Connector, l: Ledger) {
    forall t :: t in l.results ==> ReceiptOk(x, t, l.results[t])
  }

  ghost predicate Inv(cfg: Config, s: State) {
    && StoreOk(cfg.shared, s.drafts) && ConnectorOk(s.connector) && OutboxOk(cfg, s.drafts, s.connector)
    && LedgerOk(s.ledger) && ResultsOk(s.connector, s.ledger) && ClientsOk(cfg, s)
  }

  // ----- every step keeps it -------------------------------------------------------------------------

  lemma ClientsStayOk(cfg: Config, s: State, s': State, c: Client, p: Phase)
    requires ClientsOk(cfg, s) && Grows(cfg.shared, s.drafts, s'.drafts) && s.connector.outbox <= s'.connector.outbox
    requires s'.clients == s.clients[c := p] && PhaseOk(cfg, s', p)
    ensures ClientsOk(cfg, s')
  {}

  lemma OutboxStaysOk(cfg: Config, drafts: Store, drafts': Store, x: Connector)
    requires OutboxOk(cfg, drafts, x) && Grows(cfg.shared, drafts, drafts')
    ensures OutboxOk(cfg, drafts', x)
  {}

  /** A step that touches only drafts and one client's phase. */
  lemma DraftStepKeepsInv(cfg: Config, s: State, s': State, c: Client, p: Phase)
    requires Inv(cfg, s) && StoreOk(cfg.shared, s'.drafts) && Grows(cfg.shared, s.drafts, s'.drafts)
    requires s' == s.(drafts := s'.drafts, clients := s.clients[c := p]) && PhaseOk(cfg, s', p)
    ensures Inv(cfg, s')
  {
    ClientsStayOk(cfg, s, s', c, p);
    OutboxStaysOk(cfg, s.drafts, s'.drafts, s.connector);
  }

  lemma GenerateKeepsInv(cfg: Config, s: State, t: Target, content: Content)
    requires Inv(cfg, s) && (t.Report? ==> t !in s.drafts.born)
    ensures Inv(cfg, GenerateStep(s, t, content))
  {
    var s' := GenerateStep(s, t, content);
    GenerateOk(cfg.shared, s.drafts, t, content);
    OutboxStaysOk(cfg, s.drafts, s'.drafts, s.connector);
  }

  lemma ReviewKeepsInv(cfg: Config, s: State, c: Client, t: Target, approve: bool, note: Option<string>)
    requires Inv(cfg, s) && Stored(s, t)
    ensures Inv(cfg, ReviewStep(cfg, s, c, t, approve, note))
  {
    assert StoredOk(cfg.shared, s.drafts, t);
    GiveOk(cfg.shared, s.drafts, t, s.drafts.table[t], approve, note);
    var s' := ReviewStep(cfg, s, c, t, approve, note);
    DraftStepKeepsInv(cfg, s, s', c, s'.clients[c]);
  }

  lemma ReviewSaveKeepsInv(cfg: Config, s: State, c: Client)
    requires Inv(cfg, s) && PhaseOf(s, c).ReviewSaving? && HasRef(s, PhaseOf(s, c))
    ensures Inv(cfg, ReviewSaveStep(cfg, s, c))
  {
    var p := PhaseOf(s, c);
    assert PhaseOk(cfg, s, p);
    SaveReviewedOk(cfg.shared, s.drafts, p.target, p.ref, p.approve, p.note);
    DraftStepKeepsInv(cfg, s, ReviewSaveStep(cfg, s, c), c, Idle);
  }

  lemma DeliveryOfOk(cfg: Config, drafts: Store, ref: Ref, employee: string)
    requires StoreOk(cfg.shared, drafts) && ref < |drafts.heap| && MayLeave(cfg, drafts.heap[ref])
    ensures DeliveryOk(cfg, drafts, DeliveryOf(drafts.heap[ref], employee))
  {
    assert DraftOk(drafts, drafts.heap[ref]);
  }

  lemma SendLoadKeepsInv(cfg: Config, s: State, c: Client)
    requires Inv(cfg, s) && PhaseOf(s, c).LookedUp?
    ensures Inv(cfg, SendLoadStep(cfg, s, c))
  {
    var t := PhaseOf(s, c).target;
    var s' := SendLoadStep(cfg, s, c);
    if Stored(s, t) {
      assert StoredOk(cfg.shared, s.drafts, t);
      var ref := s.drafts.table[t];
      if MayLeave(cfg, s.drafts.heap[ref]) { DeliveryOfOk(cfg, s.drafts, ref, ""); }
    }
    DraftStepKeepsInv(cfg, s, s', c, s'.clients[c]);
  }

  lemma SubmitLoadKeepsInv(cfg: Config, s: State, c: Client, t: Target, employee: string)
    requires Inv(cfg, s) && t.Report?
    ensures Inv(cfg, SubmitLoadStep(s, c, t, employee))
  {
    if Stored(s, t) { assert StoredOk(cfg.shared, s.drafts, t); }
    var s' := SubmitLoadStep(s, c, t, employee);
    DraftStepKeepsInv(cfg, s, s', c, s'.clients[c]);
  }

  lemma AnswerKeepsInv(cfg: Config, s: State, c: Client, t: Target)
    requires Inv(cfg, s) && t in s.ledger.results
    ensures Inv(cfg, To(s.(ledger := Answer(s.ledger, t)), c, Idle))
  {}

  lemma SendLookupKeepsInv(cfg: Config, s: State, c: Client, t: Target)
    requires Inv(cfg, s) && t.Meeting?
    ensures Inv(cfg, SendLookupStep(s, c, t))
  {
    if t in s.ledger.results {
      AnswerKeepsInv(cfg, s, c, t);
    } else {
      DraftStepKeepsInv(cfg, s, SendLookupStep(s, c, t), c, LookedUp(t));
    }
  }

  lemma SubmitLookupKeepsInv(cfg: Config, s: State, c: Client)
    requires Inv(cfg, s) && PhaseOf(s, c).Loaded? && HasRef(s, PhaseOf(s, c))
    ensures Inv(cfg, SubmitLookupStep(cfg, s, c))
  {
    var p := PhaseOf(s, c);
    assert PhaseOk(cfg, s, p);
    var s' := SubmitLookupStep(cfg, s, c);
    if p.target in s.ledger.results {
      AnswerKeepsInv(cfg, s, c, p.target);
    } else {
      if MayLeave(cfg, s.drafts.heap[p.ref]) { DeliveryOfOk(cfg, s.drafts, p.ref, p.employee); }
      DraftStepKeepsInv(cfg, s, s', c, s'.clients[c]);
    }
  }

  lemma DeliverOk(cfg: Config, drafts: Store, x: Connector, t: Target, d: Delivery)
    requires ConnectorOk(x) && OutboxOk(cfg, drafts, x) && DeliveryOk(cfg, drafts, d) && d.target == t
    ensures var (x', receipt) := Deliver(x, t, d);
            && ConnectorOk(x') && OutboxOk(cfg, drafts, x') && ReceiptOk(x', t, receipt)
            && x.outbox <= x'.outbox && x'.outbox[receipt].key == d.key
  {}

  lemma CallKeepsInv(cfg: Config, s: State, c: Client)
    requires Inv(cfg, s) && PhaseOf(s, c).Calling?
    ensures Inv(cfg, CallStep(s, c))
  {
    var p := PhaseOf(s, c);
    assert PhaseOk(cfg, s, p);
    DeliverOk(cfg, s.drafts, s.connector, p.target, p.delivery);
    var s' := CallStep(s, c);
    ClientsStayOk(cfg, s, s', c, s'.clients[c]);
  }

  lemma MarkSaveKeepsInv(cfg: Config, s: State, c: Client)
    requires Inv(cfg, s) && PhaseOf(s, c).Called? && HasRef(s, PhaseOf(s, c))
    ensures Inv(cfg, MarkSaveStep(cfg, s, c))
  {
    var p := PhaseOf(s, c);
    assert PhaseOk(cfg, s, p);
    MarkOk(cfg.shared, s.drafts, p.target, p.ref);
    DraftStepKeepsInv(cfg, s, MarkSaveStep(cfg, s, c), c, Saved(p.target, p.receipt));
  }

  lemma RememberKeepsInv(cfg: Config, s: State, c: Client)
    requires Inv(cfg, s) && PhaseOf(s, c).Saved?
    ensures Inv(cfg, RememberStep(s, c))
  {}

  lemma StepKeepsInv(cfg: Config, s: State, step: Step)
    requires Inv(cfg, s) && Enabled(cfg, s, step)
    ensures Inv(cfg, Next(cfg, s, step))
  {
    match step
    case Generating(t, content) => GenerateKeepsInv(cfg, s, t, content);
    case Reviewing(c, t, approve, note) => ReviewKeepsInv(cfg, s, c, t, approve, note);
    case ReviewSave(c) => ReviewSaveKeepsInv(cfg, s, c);
    case SendLookup(c, t) => SendLookupKeepsInv(cfg, s, c, t);
    case SendLoad(c) => SendLoadKeepsInv(cfg, s, c);
    case SubmitLoad(c, t, employee) => SubmitLoadKeepsInv(cfg, s, c, t, employee);
    case SubmitLookup(c) => SubmitLookupKeepsInv(cfg, s, c);
    case Call(c) => CallKeepsInv(cfg, s, c);
    case MarkSave(c) => MarkSaveKeepsInv(cfg, s, c);
    case Remember(c) => RememberKeepsInv(cfg, s, c);
    case Crash(c) => DraftStepKeepsInv(cfg, s, Next(cfg, s, step), c, Idle);
  }
}
