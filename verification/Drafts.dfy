/**
 The drafts behind reviewed external writes. They live on a heap. With a shared store a client works on
 the stored draft itself, and changes it in place; with a snapshot store cells of the heap are versions
 that never change, and a save adds a version. Nothing else differs between the two.
 */
module Drafts {
  import opened Wrappers

  type Ref = nat

  datatype Target = Meeting(tenantId: string, meetingId: string) | Report(tenantId: string, reportId: string)

  datatype Content = Content(text: string, reportDate: string)

  /** `Delivered` is `sent` for minutes and `submitted` for reports. */
  datatype DraftStatus = Drafted | Approved | Rejected | Delivered

  datatype Event =
    | Generated(target: Target, content: Content)
    | Reviewed(target: Target, content: Content, comment: Option<string>, approved: bool)

  /** `basis` is history: the log position of the event that gave the draft its status, or gave it the
      status it was delivered with. */
  datatype Draft = Draft(target: Target, content: Content, status: DraftStatus, comment: Option<string>, basis: nat)

  /** `log` is history: an event is logged when a draft that is generated, or a verdict that is given,
      takes effect on what is stored. `born` holds the content each target was first generated with. */
  datatype Store = Store(heap: seq<Draft>, table: map<Target, Ref>, born: map<Target, Content>, log: seq<Event>)

  /** The position of the latest event about a target, or -1. */
  function Latest(log: seq<Event>, t: Target): (i: int)
    ensures -1 <= i < |log|
    ensures i >= 0 ==> log[i].target == t
    ensures forall j :: i < j < |log| ==> log[j].target != t
  {
    if log == [] then -1
    else if log[|log| - 1].target == t then |log| - 1
    else Latest(log[..|log| - 1], t)
  }

  /** Store a draft for a target: over the object itself, or as a new version. */
  function Put(shared: bool, s: Store, t: Target, ref: Ref, d: Draft): Store
    requires ref < |s.heap|
  {
    if shared then s.(heap := s.heap[ref := d], table := s.table[t := ref])
    else s.(heap := s.heap + [d], table := s.table[t := |s.heap|])
  }

  /** A new draft object for the target, in state `draft`. */
  function Generate(s: Store, t: Target, content: Content): Store {
    Store(s.heap + [Draft(t, content, Drafted, None, |s.log|)], s.table[t := |s.heap|],
          if t in s.born then s.born else s.born[t := content],
          s.log + [Generated(t, content)])
  }

  /** A reviewer's verdict takes effect, whatever the status of the draft was. */
  function Give(shared: bool, s: Store, t: Target, ref: Ref, approve: bool, note: Option<string>): Store
    requires ref < |s.heap|
  {
    var d := s.heap[ref];
    var judged := d.(status := if approve then Approved else Rejected, comment := note, basis := |s.log|);
    Put(shared, s, t, ref, judged).(log := s.log + [Reviewed(d.target, d.content, note, approve)])
  }

  /** The save that ends a review. A snapshot store learns of the verdict only now. In a shared store the
      object has it already; if another object was stored in the meantime, the save puts this one back,
      as it is by now. No draft is drawn and no verdict given by that, so nothing is logged. */
  function SaveReviewed(shared: bool, s: Store, t: Target, ref: Ref, approve: bool, note: Option<string>): Store
    requires ref < |s.heap|
  {
    if shared then Put(shared, s, t, ref, s.heap[ref]) else Give(shared, s, t, ref, approve, note)
  }

  /** If nothing happens in between, the save adds nothing in a shared store and everything in the other. */
  lemma ReviewedAtOnce(shared: bool, s: Store, t: Target, ref: Ref, approve: bool, note: Option<string>)
    requires ref < |s.heap|
    ensures var given := Give(shared, s, t, ref, approve, note);
            SaveReviewed(shared, if shared then given else s, t, ref, approve, note) == given
  {}

  function Mark(shared: bool, s: Store, t: Target, ref: Ref): Store
    requires ref < |s.heap|
  {
    Put(shared, s, t, ref, s.heap[ref].(status := Delivered))
  }

  /** The event a draft rests on is one of its own, and its status is what that event made it, unless
      it has been delivered since. */
  predicate DraftOk(s: Store, d: Draft) {
    && d.basis < |s.log|
    && s.log[d.basis].target == d.target && s.log[d.basis].content == d.content
    && (d.status.Drafted? ==> s.log[d.basis].Generated?)
    && (d.status.Approved? ==> s.log[d.basis] == Reviewed(d.target, d.content, d.comment, true))
    && (d.status.Rejected? ==> s.log[d.basis] == Reviewed(d.target, d.content, d.comment, false))
    && d.target in s.born
    && (d.target.Report? ==> d.content == s.born[d.target])
  }

  /** Minutes in a shared store can be replaced by an older object, and anything by a delivered version;
      apart from that what is stored rests on the latest event about its target. */
  predicate StoredOk(shared: bool, s: Store, t: Target)
    requires t in s.table
  {
    && s.table[t] < |s.heap| && s.heap[s.table[t]].target == t
    && (shared && t.Report? ==> s.heap[s.table[t]].basis == Latest(s.log, t))
    && (!shared && !s.heap[s.table[t]].status.Delivered? ==> s.heap[s.table[t]].basis == Latest(s.log, t))
  }

  /** In a shared store a report has one object for ever. */
  predicate OneObjectPerReport(s: Store) {
    forall r :: 0 <= r < |s.heap| && s.heap[r].target.Report? ==>
      s.heap[r].target in s.table && s.table[s.heap[r].target] == r
  }

  /** In a shared store an event is about one object. */
  predicate OwnEvents(s: Store) {
    forall q, r :: 0 <= q < r < |s.heap| ==> s.heap[q].basis != s.heap[r].basis
  }

  predicate HeapOk(s: Store) {
    forall r :: 0 <= r < |s.heap| ==> DraftOk(s, s.heap[r])
  }

  predicate TableOk(shared: bool, s: Store) {
    forall t :: t in s.table ==> StoredOk(shared, s, t)
  }

  predicate StoreOk(shared: bool, s: Store) {
    HeapOk(s) && TableOk(shared, s) && (shared ==> OneObjectPerReport(s) && OwnEvents(s))
  }

  /** Nothing recorded is ever taken back, a draft never changes its target, and in a snapshot store no
      version ever changes. */
  predicate Grows(shared: bool, s: Store, s': Store) {
    && s.log <= s'.log
    && |s.heap| <= |s'.heap|
    && (forall r :: 0 <= r < |s.heap| ==> s'.heap[r].target == s.heap[r].target)
    && (!shared ==> s.heap <= s'.heap)
    && s.table.Keys <= s'.table.Keys
    && (forall t :: t in s.born ==> t in s'.born && s'.born[t] == s.born[t])
  }

  /** One more event moves the latest position of its own target only. */
  lemma LatestOfMore(log: seq<Event>, e: Event, t: Target)
    ensures Latest(log + [e], t) == if e.target == t then |log| else Latest(log, t)
  {
    assert (log + [e])[..|log|] == log;
  }

  lemma PutKeepsHeap(shared: bool, s: Store, t: Target, ref: Ref, d: Draft)
    requires HeapOk(s) && ref < |s.heap| && s.heap[ref].target == d.target && DraftOk(s, d)
    ensures HeapOk(Put(shared, s, t, ref, d)) && Grows(shared, s, Put(shared, s, t, ref, d))
  {}

  lemma PutKeepsObjects(s: Store, t: Target, ref: Ref, d: Draft)
    requires OneObjectPerReport(s) && ref < |s.heap| && s.heap[ref].target == t == d.target
    ensures OneObjectPerReport(Put(true, s, t, ref, d))
  {}

  /** Storing a draft again, with whatever status it may have by now, but resting on the same event. */
  lemma PutOk(shared: bool, s: Store, t: Target, ref: Ref, d: Draft)
    requires StoreOk(shared, s) && ref < |s.heap| && s.heap[ref].target == t
    requires d.target == t && DraftOk(s, d) && d.basis == s.heap[ref].basis && (!shared ==> d.status.Delivered?)
    ensures StoreOk(shared, Put(shared, s, t, ref, d)) && Grows(shared, s, Put(shared, s, t, ref, d))
  {
    var s' := Put(shared, s, t, ref, d);
    PutKeepsHeap(shared, s, t, ref, d);
    if shared { PutKeepsObjects(s, t, ref, d); }
    forall x | x in s'.table ensures StoredOk(shared, s', x) {
      if x in s.table { assert StoredOk(shared, s, x); }
    }
  }

  lemma GenerateKeepsTable(shared: bool, s: Store, t: Target, content: Content)
    requires TableOk(shared, s)
    ensures TableOk(shared, Generate(s, t, content))
  {
    var s' := Generate(s, t, content);
    forall x | x in s'.table ensures StoredOk(shared, s', x) {
      LatestOfMore(s.log, Generated(t, content), x);
      if x != t { assert StoredOk(shared, s, x); }
    }
  }

  lemma GenerateKeepsHeap(shared: bool, s: Store, t: Target, content: Content)
    requires HeapOk(s) && (t.Report? ==> t !in s.born)
    ensures HeapOk(Generate(s, t, content)) && Grows(shared, s, Generate(s, t, content))
  {}

  /** A drawn draft is stored, unreviewed, with its content. */
  lemma GenerateOk(shared: bool, s: Store, t: Target, content: Content)
    requires StoreOk(shared, s) && (t.Report? ==> t !in s.born)
    ensures var s' := Generate(s, t, content);
            && StoreOk(shared, s') && Grows(shared, s, s') && s'.log == s.log + [Generated(t, content)]
            && var d := s'.heap[s'.table[t]];
               d.target == t && d.content == content && d.status.Drafted? && d.comment.None?
  {
    GenerateKeepsTable(shared, s, t, content);
    GenerateKeepsHeap(shared, s, t, content);
  }

  lemma GiveKeepsHeap(shared: bool, s: Store, t: Target, ref: Ref, approve: bool, note: Option<string>)
    requires HeapOk(s) && ref < |s.heap|
    ensures HeapOk(Give(shared, s, t, ref, approve, note)) && Grows(shared, s, Give(shared, s, t, ref, approve, note))
  {
    assert DraftOk(s, s.heap[ref]);
  }

  lemma GiveKeepsTable(shared: bool, s: Store, t: Target, ref: Ref, approve: bool, note: Option<string>)
    requires TableOk(shared, s) && ref < |s.heap| && s.heap[ref].target == t
    ensures TableOk(shared, Give(shared, s, t, ref, approve, note))
  {
    var s' := Give(shared, s, t, ref, approve, note);
    forall x | x in s'.table ensures StoredOk(shared, s', x) {
      LatestOfMore(s.log, s'.log[|s.log|], x);
      if x != t { assert StoredOk(shared, s, x); }
    }
  }

  lemma GiveKeepsObjects(s: Store, t: Target, ref: Ref, approve: bool, note: Option<string>)
    requires HeapOk(s) && OneObjectPerReport(s) && OwnEvents(s) && ref < |s.heap| && s.heap[ref].target == t
    ensures OneObjectPerReport(Give(true, s, t, ref, approve, note)) && OwnEvents(Give(true, s, t, ref, approve, note))
  {
    var s' := Give(true, s, t, ref, approve, note);
    PutKeepsObjects(s, t, ref, s'.heap[ref]);
    assert forall r :: 0 <= r < |s.heap| ==> DraftOk(s, s.heap[r]);
  }

  /** A verdict leaves every draft resting on an event of its own. What is stored carries the verdict and
      the reviewer's comment, rests on that event, and is otherwise what was judged. */
  lemma GiveOk(shared: bool, s: Store, t: Target, ref: Ref, approve: bool, note: Option<string>)
    requires StoreOk(shared, s) && ref < |s.heap| && s.heap[ref].target == t
    ensures var s' := Give(shared, s, t, ref, approve, note);
            && StoreOk(shared, s') && Grows(shared, s, s')
            && s'.log == s.log + [Reviewed(t, s.heap[ref].content, note, approve)]
            && var d := s'.heap[s'.table[t]];
               && d.status == (if approve then Approved else Rejected) && d.comment == note
               && d.content == s.heap[ref].content && d.basis == Latest(s'.log, t) == |s.log|
  {
    GiveKeepsHeap(shared, s, t, ref, approve, note);
    GiveKeepsTable(shared, s, t, ref, approve, note);
    if shared { GiveKeepsObjects(s, t, ref, approve, note); }
  }

  lemma SaveReviewedOk(shared: bool, s: Store, t: Target, ref: Ref, approve: bool, note: Option<string>)
    requires StoreOk(shared, s) && ref < |s.heap| && s.heap[ref].target == t
    ensures StoreOk(shared, SaveReviewed(shared, s, t, ref, approve, note))
    ensures Grows(shared, s, SaveReviewed(shared, s, t, ref, approve, note))
  {
    if shared {
      PutOk(shared, s, t, ref, s.heap[ref]);
    } else {
      GiveOk(shared, s, t, ref, approve, note);
    }
  }

  lemma MarkOk(shared: bool, s: Store, t: Target, ref: Ref)
    requires StoreOk(shared, s) && ref < |s.heap| && s.heap[ref].target == t
    ensures var s' := Mark(shared, s, t, ref);
            && StoreOk(shared, s') && Grows(shared, s, s') && s'.log == s.log
            && var d := s'.heap[s'.table[t]];
               d.status.Delivered? && d.content == s.heap[ref].content && d.comment == s.heap[ref].comment
  {
    assert DraftOk(s, s.heap[ref]);
    PutOk(shared, s, t, ref, s.heap[ref].(status := Delivered));
  }
}
