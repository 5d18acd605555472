/**
 From work events to a report draft: deduplication, and the split into sections. Title normalisation
 (lower case, single spaces) is a parameter, so everything holds of any such function.
 */
module Reports {
  import opened Text
  import opened Wrappers

  datatype WorkStatus = Completed | InProgress | Blocked | Planned | Unknown

  datatype WorkEvent = WorkEvent(id: string, title: string, status: WorkStatus, projectId: Option<string>,
                                 confidence: real, description: Option<string>, result: Option<string>)

  datatype EventKey = EventKey(projectId: Option<string>, title: string)

  type Normalise = string -> string

  function KeyOf(norm: Normalise, e: WorkEvent): EventKey {
    EventKey(e.projectId, norm(e.title))
  }

  // ----- what deduplication means ----------------------------------------------------------------------

  /** The keys of the events, each once, in the order of first occurrence. */
  function Keys(norm: Normalise, xs: seq<WorkEvent>): seq<EventKey> {
    if xs == [] then []
    else
      var before, k := Keys(norm, xs[..|xs| - 1]), KeyOf(norm, xs[|xs| - 1]);
      if k in before then before else before + [k]
  }

  /** Keep the first choice unless the second is strictly more certain. */
  function Better(a: Option<WorkEvent>, b: Option<WorkEvent>): Option<WorkEvent> {
    if a.None? then b
    else if b.None? then a
    else if b.value.confidence > a.value.confidence then b else a
  }

  /** The event chosen for a key. */
  function Best(norm: Normalise, xs: seq<WorkEvent>, k: EventKey): Option<WorkEvent> {
    if xs == [] then None
    else
      var last := xs[|xs| - 1];
      Better(Best(norm, xs[..|xs| - 1], k), if KeyOf(norm, last) == k then Some(last) else None)
  }

  lemma {:induction false} KeysHaveBest(norm: Normalise, xs: seq<WorkEvent>, k: EventKey)
    ensures k in Keys(norm, xs) <==> Best(norm, xs, k).Some?
    ensures Best(norm, xs, k).Some? ==> KeyOf(norm, Best(norm, xs, k).value) == k
  {
    if xs == [] {
    } else {
      KeysHaveBest(norm, xs[..|xs| - 1], k);
    }
  }

  /** One event per key, in the order of the keys. */
  function Choose(norm: Normalise, xs: seq<WorkEvent>, keys: seq<EventKey>): seq<WorkEvent>
    requires forall k :: k in keys ==> Best(norm, xs, k).Some?
  {
    seq(|keys|, i requires 0 <= i < |keys| => Best(norm, xs, keys[i]).value)
  }

  function Dedup(norm: Normalise, xs: seq<WorkEvent>): seq<WorkEvent> {
    assert forall k :: k in Keys(norm, xs) ==> Best(norm, xs, k).Some? by {
      forall k | k in Keys(norm, xs) ensures Best(norm, xs, k).Some? { KeysHaveBest(norm, xs, k); }
    }
    Choose(norm, xs, Keys(norm, xs))
  }

  /** The position of the first event with a key. */
  ghost predicate FirstAt(norm: Normalise, xs: seq<WorkEvent>, k: EventKey, i: int) {
    0 <= i < |xs| && KeyOf(norm, xs[i]) == k && forall j :: 0 <= j < i ==> KeyOf(norm, xs[j]) != k
  }

  lemma {:induction false} KeysAreDistinct(norm: Normalise, xs: seq<WorkEvent>)
    ensures forall i :: 0 <= i < |xs| ==> KeyOf(norm, xs[i]) in Keys(norm, xs)
    ensures forall a, b :: 0 <= a < b < |Keys(norm, xs)| ==> Keys(norm, xs)[a] != Keys(norm, xs)[b]
  {
    if xs == [] {
    } else {
      var init := xs[..|xs| - 1];
      KeysAreDistinct(norm, init);
      forall i | 0 <= i < |xs| ensures KeyOf(norm, xs[i]) in Keys(norm, xs) {
        if i < |init| { assert init[i] == xs[i]; }
      }
    }
  }

  lemma {:induction false} FirstOccurrence(norm: Normalise, xs: seq<WorkEvent>, k: EventKey) returns (i: nat)
    requires k in Keys(norm, xs)
    ensures FirstAt(norm, xs, k, i)
  {
    var n := |xs| - 1;
    var init := xs[..n];
    if k in Keys(norm, init) {
      i := FirstOccurrence(norm, init, k);
    } else {
      i := n;
      KeysAreDistinct(norm, init);
      assert forall j :: 0 <= j < n ==> init[j] == xs[j];
    }
  }

  /** `Keys` is what it says: its order is the order in which the keys first occur. */
  lemma {:induction false} KeysInFirstOccurrenceOrder(norm: Normalise, xs: seq<WorkEvent>,
                                                      a: nat, b: nat, i: nat, j: nat)
    requires a < |Keys(norm, xs)| && b < |Keys(norm, xs)|
    requires FirstAt(norm, xs, Keys(norm, xs)[a], i) && FirstAt(norm, xs, Keys(norm, xs)[b], j)
    ensures a < b <==> i < j
  {
    var n := |xs| - 1;
    var init := xs[..n];
    var known := |Keys(norm, init)|;
    KeysAreDistinct(norm, init);
    KeysAreDistinct(norm, xs);
    assert forall q :: 0 <= q < n ==> init[q] == xs[q];
    if a < known && b < known {
      var i' := FirstOccurrence(norm, init, Keys(norm, xs)[a]);
      var j' := FirstOccurrence(norm, init, Keys(norm, xs)[b]);
      assert i == i' && j == j';
      KeysInFirstOccurrenceOrder(norm, init, a, b, i, j);
    } else if a < known {
      var i' := FirstOccurrence(norm, init, Keys(norm, xs)[a]);
      assert i == i';
    } else if b < known {
      var j' := FirstOccurrence(norm, init, Keys(norm, xs)[b]);
      assert j == j';
    }
  }

  /** The chosen event is one of the events, none of its key is more certain, and no earlier one is
      as certain. */
  lemma {:induction false} BestIsEarliestMostCertain(norm: Normalise, xs: seq<WorkEvent>, k: EventKey) returns (p: nat)
    requires Best(norm, xs, k).Some?
    ensures p < |xs| && xs[p] == Best(norm, xs, k).value && KeyOf(norm, xs[p]) == k
    ensures forall q :: 0 <= q < |xs| && KeyOf(norm, xs[q]) == k ==>
              xs[q].confidence < xs[p].confidence || (xs[q].confidence == xs[p].confidence && p <= q)
  {
    var n := |xs| - 1;
    var init := xs[..n];
    if Best(norm, init, k).Some? {
      p := BestIsEarliestMostCertain(norm, init, k);
      forall q | 0 <= q < n && KeyOf(norm, xs[q]) == k
        ensures xs[q].confidence < xs[p].confidence || (xs[q].confidence == xs[p].confidence && p <= q)
      {
        assert init[q] == xs[q];
      }
      if KeyOf(norm, xs[n]) == k && xs[n].confidence > xs[p].confidence {
        p := n;
      }
    } else {
      p := n;
      forall q | 0 <= q < n ensures KeyOf(norm, xs[q]) != k {
        KeysHaveBest(norm, init, k);
        KeysAreDistinct(norm, init);
        assert init[q] == xs[q];
      }
    }
  }

  // ----- the same, over the events' own fields ---------------------------------------------------------

  /** Both events are about one project, or none, and have the same normalised title. */
  predicate Alike(norm: Normalise, a: WorkEvent, b: WorkEvent) {
    a.projectId == b.projectId && norm(a.title) == norm(b.title)
  }

  /** The event kept at a position is the one at `p` of the input: the most certain of those like it, and
      the earliest of the most certain. */
  predicate KeptFrom(norm: Normalise, events: seq<WorkEvent>, e: WorkEvent, p: int) {
    && 0 <= p < |events| && events[p] == e
    && forall q :: 0 <= q < |events| && events[q].projectId == e.projectId && norm(events[q].title) == norm(e.title) ==>
         events[q].confidence < e.confidence || (events[q].confidence == e.confidence && p <= q)
  }

  /** No two kept events are alike. */
  lemma KeptAreApart(norm: Normalise, events: seq<WorkEvent>, a: nat, b: nat)
    requires a < b < |Dedup(norm, events)|
    ensures var (x, y) := (Dedup(norm, events)[a], Dedup(norm, events)[b]);
            x.projectId != y.projectId || norm(x.title) != norm(y.title)
  {
    KeysAreDistinct(norm, events);
    KeysHaveBest(norm, events, Keys(norm, events)[a]);
    KeysHaveBest(norm, events, Keys(norm, events)[b]);
  }

  /** Every kept event is one of the input, the most certain of those like it and the earliest of these. */
  lemma KeptIsEarliestMostCertain(norm: Normalise, events: seq<WorkEvent>, j: nat) returns (p: nat)
    requires j < |Dedup(norm, events)|
    ensures KeptFrom(norm, events, Dedup(norm, events)[j], p)
  {
    var key := Keys(norm, events)[j];
    KeysHaveBest(norm, events, key);
    p := BestIsEarliestMostCertain(norm, events, key);
    forall q | 0 <= q < |events| && Alike(norm, events[q], events[p])
      ensures events[q].confidence < events[p].confidence || (events[q].confidence == events[p].confidence && p <= q)
    {
      assert KeyOf(norm, events[q]) == key;
    }
  }

  /** Every event of the input has a kept event like it. */
  lemma EveryEventHasKept(norm: Normalise, events: seq<WorkEvent>, i: nat) returns (j: nat)
    requires i < |events|
    ensures j < |Dedup(norm, events)|
    ensures var e := Dedup(norm, events)[j];
            e.projectId == events[i].projectId && norm(e.title) == norm(events[i].title)
  {
    KeysAreDistinct(norm, events);
    j :| 0 <= j < |Keys(norm, events)| && Keys(norm, events)[j] == KeyOf(norm, events[i]);
    KeysHaveBest(norm, events, Keys(norm, events)[j]);
  }

  /** Kept events come in the order in which events like them first occur. */
  lemma KeptInFirstOccurrenceOrder(norm: Normalise, events: seq<WorkEvent>, a: nat, b: nat, i: nat) returns (first: nat)
    requires a < b < |Dedup(norm, events)| && i < |events| && Alike(norm, events[i], Dedup(norm, events)[b])
    ensures first < i && Alike(norm, events[first], Dedup(norm, events)[a])
  {
    var x, y := Keys(norm, events)[a], Keys(norm, events)[b];
    KeysHaveBest(norm, events, x);
    KeysHaveBest(norm, events, y);
    first := FirstOccurrence(norm, events, x);
    var second := FirstOccurrence(norm, events, y);
    KeysInFirstOccurrenceOrder(norm, events, a, b, first, second);
    assert KeyOf(norm, events[i]) == y;
  }

  /** What the reader of a deduplicated list can rely on: no two events of one project and title, every
      event the best of those like it, and every event of the input represented. */
  ghost predicate Represents(norm: Normalise, kept: seq<WorkEvent>, events: seq<WorkEvent>) {
    && (forall a, b :: 0 <= a < b < |kept| ==>
          kept[a].projectId != kept[b].projectId || norm(kept[a].title) != norm(kept[b].title))
    && (forall j :: 0 <= j < |kept| ==> IsKept(norm, events, kept[j]))
    && (forall i :: 0 <= i < |events| ==> HasKept(norm, kept, events[i]))
  }

  ghost predicate IsKept(norm: Normalise, events: seq<WorkEvent>, e: WorkEvent) {
    exists p :: KeptFrom(norm, events, e, p)
  }

  ghost predicate HasKept(norm: Normalise, kept: seq<WorkEvent>, e: WorkEvent) {
    exists j :: 0 <= j < |kept| && kept[j].projectId == e.projectId && norm(kept[j].title) == norm(e.title)
  }

  lemma DedupRepresents(norm: Normalise, events: seq<WorkEvent>)
    ensures Represents(norm, Dedup(norm, events), events)
  {
    var kept := Dedup(norm, events);
    forall a, b | 0 <= a < b < |kept|
      ensures kept[a].projectId != kept[b].projectId || norm(kept[a].title) != norm(kept[b].title)
    {
      KeptAreApart(norm, events, a, b);
    }
    forall j | 0 <= j < |kept| ensures IsKept(norm, events, kept[j]) {
      var p := KeptIsEarliestMostCertain(norm, events, j);
    }
    forall i | 0 <= i < |events| ensures HasKept(norm, kept, events[i]) {
      var j := EveryEventHasKept(norm, events, i);
    }
  }

  /** The loop over an insertion-ordered dictionary computes it. */
  method Deduplicate(norm: Normalise, events: seq<WorkEvent>) returns (kept: seq<WorkEvent>)
    ensures kept == Dedup(norm, events) && Represents(norm, kept, events)
  {
    var order: seq<EventKey> := [];
    var selected: map<EventKey, WorkEvent> := map[];
    for i := 0 to |events|
      invariant order == Keys(norm, events[..i])
      invariant forall k :: k in selected <==> k in order
      invariant forall k :: k in order ==> Best(norm, events[..i], k) == Some(selected[k])
    {
      var key := KeyOf(norm, events[i]);
      assert events[..i + 1][..i] == events[..i];
      KeysHaveBest(norm, events[..i], key);
      if key !in selected {
        order := order + [key];
        selected := selected[key := events[i]];
      } else if events[i].confidence > selected[key].confidence {
        selected := selected[key := events[i]];
      }
    }
    assert events[..|events|] == events;
    kept := seq(|order|, i requires 0 <= i < |order| && forall k :: k in order ==> k in selected => selected[order[i]]);
    DedupRepresents(norm, events);
  }

  // ----- its laws ---------------------------------------------------------------------------------------

  /** Add the keys that are not there yet. */
  function AddKeys(keys: seq<EventKey>, more: seq<EventKey>): seq<EventKey> {
    if more == [] then keys
    else
      var before, k := AddKeys(keys, more[..|more| - 1]), more[|more| - 1];
      if k in before then before else before + [k]
  }

  lemma {:induction false} AddKeysMembers(keys: seq<EventKey>, more: seq<EventKey>)
    ensures forall k :: k in AddKeys(keys, more) <==> k in keys || k in more
  {
    if more == [] {
    } else {
      AddKeysMembers(keys, more[..|more| - 1]);
      assert more == more[..|more| - 1] + [more[|more| - 1]];
    }
  }

  lemma {:induction false} KeysOfConcat(norm: Normalise, xs: seq<WorkEvent>, ys: seq<WorkEvent>)
    ensures Keys(norm, xs + ys) == AddKeys(Keys(norm, xs), Keys(norm, ys))
  {
    if ys == [] {
      assert xs + ys == xs;
    } else {
      var n := |ys| - 1;
      var k := KeyOf(norm, ys[n]);
      assert (xs + ys)[..|xs + ys| - 1] == xs + ys[..n];
      KeysOfConcat(norm, xs, ys[..n]);
      AddKeysMembers(Keys(norm, xs), Keys(norm, ys[..n]));
      var before := Keys(norm, ys[..n]);
      if k !in before { assert (before + [k])[..|before|] == before; }
    }
  }

  lemma {:induction false} BestOfConcat(norm: Normalise, xs: seq<WorkEvent>, ys: seq<WorkEvent>, k: EventKey)
    ensures Best(norm, xs + ys, k) == Better(Best(norm, xs, k), Best(norm, ys, k))
  {
    if ys == [] {
      assert xs + ys == xs;
    } else {
      assert (xs + ys)[..|xs + ys| - 1] == xs + ys[..|ys| - 1];
      BestOfConcat(norm, xs, ys[..|ys| - 1], k);
    }
  }

  lemma {:induction false} KeysOfChosen(norm: Normalise, xs: seq<WorkEvent>, keys: seq<EventKey>)
    requires forall x :: x in keys ==> Best(norm, xs, x).Some? && KeyOf(norm, Best(norm, xs, x).value) == x
    requires forall a, b :: 0 <= a < b < |keys| ==> keys[a] != keys[b]
    ensures Keys(norm, Choose(norm, xs, keys)) == keys
    decreases |keys|
  {
    if keys == [] {
    } else {
      var n := |keys| - 1;
      var init, last := keys[..n], keys[n];
      var chosen := Choose(norm, xs, keys);
      KeysOfChosen(norm, xs, init);
      assert chosen[..n] == Choose(norm, xs, init);
      assert last in keys && KeyOf(norm, chosen[n]) == last;
      assert last !in init && keys == init + [last];
    }
  }

  lemma {:induction false} BestOfChosen(norm: Normalise, xs: seq<WorkEvent>, keys: seq<EventKey>, k: EventKey)
    requires forall x :: x in keys ==> Best(norm, xs, x).Some? && KeyOf(norm, Best(norm, xs, x).value) == x
    requires forall a, b :: 0 <= a < b < |keys| ==> keys[a] != keys[b]
    ensures Best(norm, Choose(norm, xs, keys), k) == if k in keys then Best(norm, xs, k) else None
    decreases |keys|
  {
    if keys == [] {
    } else {
      var n := |keys| - 1;
      var init := keys[..n];
      BestOfChosen(norm, xs, init, k);
      assert Choose(norm, xs, keys)[..n] == Choose(norm, xs, init);
      assert keys[n] in keys;
    }
  }

  lemma DedupKeeps(norm: Normalise, xs: seq<WorkEvent>, k: EventKey)
    ensures Keys(norm, Dedup(norm, xs)) == Keys(norm, xs)
    ensures Best(norm, Dedup(norm, xs), k) == Best(norm, xs, k)
  {
    forall x | x in Keys(norm, xs) ensures Best(norm, xs, x).Some? && KeyOf(norm, Best(norm, xs, x).value) == x {
      KeysHaveBest(norm, xs, x);
    }
    KeysAreDistinct(norm, xs);
    KeysHaveBest(norm, xs, k);
    KeysOfChosen(norm, xs, Keys(norm, xs));
    BestOfChosen(norm, xs, Keys(norm, xs), k);
  }

  /** The result depends on nothing but the keys and the choice for each. */
  lemma SameDedup(norm: Normalise, xs: seq<WorkEvent>, ys: seq<WorkEvent>)
    requires Keys(norm, xs) == Keys(norm, ys)
    requires forall k :: Best(norm, xs, k) == Best(norm, ys, k)
    ensures Dedup(norm, xs) == Dedup(norm, ys)
  {}

  lemma DedupIsIdempotent(norm: Normalise, xs: seq<WorkEvent>)
    ensures Dedup(norm, Dedup(norm, xs)) == Dedup(norm, xs)
  {
    forall k ensures Best(norm, Dedup(norm, xs), k) == Best(norm, xs, k) { DedupKeeps(norm, xs, k); }
    DedupKeeps(norm, xs, EventKey(None, ""));
    SameDedup(norm, Dedup(norm, xs), xs);
  }

  /** Deduplicating batches first and their concatenation after gives what deduplicating everything at
      once gives. */
  lemma DedupOfBatches(norm: Normalise, xs: seq<WorkEvent>, ys: seq<WorkEvent>)
    ensures Dedup(norm, xs + ys) == Dedup(norm, Dedup(norm, xs) + Dedup(norm, ys))
  {
    var dx, dy := Dedup(norm, xs), Dedup(norm, ys);
    KeysOfConcat(norm, xs, ys);
    KeysOfConcat(norm, dx, dy);
    DedupKeeps(norm, xs, EventKey(None, ""));
    DedupKeeps(norm, ys, EventKey(None, ""));
    forall k ensures Best(norm, xs + ys, k) == Best(norm, dx + dy, k) {
      BestOfConcat(norm, xs, ys, k);
      BestOfConcat(norm, dx, dy, k);
      DedupKeeps(norm, xs, k);
      DedupKeeps(norm, ys, k);
    }
    SameDedup(norm, xs + ys, dx + dy);
  }

  // ----- the draft ------------------------------------------------------------------------------------------

  datatype Warning = SourceWarning(text: string) | NeedsConfirmation(eventId: string)

  datatype ReportDraft = ReportDraft(reportDate: string, completed: seq<string>, inProgress: seq<string>,
                                     risks: seq<string>, plans: seq<string>, evidenceIds: seq<string>,
                                     warnings: seq<Warning>)

  function NonEmpty(text: Option<string>): bool {
    text.Some? && text.value != ""
  }

  /** The result of an event, or else its description, without the blanks around it. */
  function DetailOf(strip: string -> string, e: WorkEvent): (detail: string)
    ensures forall r :: e.result == Some(r) && r != "" ==> detail == strip(r)
    ensures forall d :: (e.result.None? || e.result == Some("")) && e.description == Some(d) ==> detail == strip(d)
    ensures (e.result.None? || e.result == Some("")) && e.description.None? ==> detail == strip("")
  {
    strip(if NonEmpty(e.result) then e.result.value
          else if NonEmpty(e.description) then e.description.value else "")
  }

  /** The title; and, unless the title says it already, a mark and the detail, cut after 200 characters. */
  function ReportLine(strip: string -> string, e: WorkEvent): (line: string)
    ensures e.title <= line
    ensures line == e.title <==> DetailOf(strip, e) == "" || Contains(e.title, DetailOf(strip, e))
    ensures line != e.title ==>
              && |line| == |e.title| + 1 + (if |DetailOf(strip, e)| <= 200 then |DetailOf(strip, e)| else 200)
              && line[|e.title|] == '：' && line[|e.title| + 1..] <= DetailOf(strip, e)
    ensures |DetailOf(strip, e)| <= 200 ==> Contains(line, DetailOf(strip, e))
  {
    var detail := DetailOf(strip, e);
    assert e.title[0..][..0] == "";
    if detail == "" || Contains(e.title, detail) then e.title
    else
      var shown := if |detail| > 200 then detail[..200] else detail;
      assert (e.title + "：" + shown)[|e.title| + 1..][..|shown|] == shown;
      e.title + "：" + shown
  }

  function Section(xs: seq<WorkEvent>, status: WorkStatus): seq<WorkEvent> {
    if xs == [] then []
    else (if xs[0].status == status then [xs[0]] else []) + Section(xs[1..], status)
  }

  function Lines(strip: string -> string, xs: seq<WorkEvent>): seq<string> {
    seq(|xs|, i requires 0 <= i < |xs| => ReportLine(strip, xs[i]))
  }

  predicate Doubtful(e: WorkEvent) {
    e.status == Unknown || e.confidence < 0.6
  }

  function Doubts(xs: seq<WorkEvent>): seq<Warning> {
    if xs == [] then []
    else (if Doubtful(xs[0]) then [NeedsConfirmation(xs[0].id)] else []) + Doubts(xs[1..])
  }

  function GenerateDaily(norm: Normalise, strip: string -> string, date: string, events: seq<WorkEvent>,
                         sourceWarnings: seq<string>): ReportDraft
  {
    var xs := Dedup(norm, events);
    ReportDraft(date,
                Lines(strip, Section(xs, Completed)),
                Lines(strip, Section(xs, InProgress)),
                Lines(strip, Section(xs, Blocked)),
                Lines(strip, Section(xs, Planned)),
                seq(|xs|, i requires 0 <= i < |xs| => xs[i].id),
                seq(|sourceWarnings|, i requires 0 <= i < |sourceWarnings| => SourceWarning(sourceWarnings[i]))
                + Doubts(xs))
  }

  /** A section has every event of its status as often as the input has it, and no other event. */
  lemma {:induction false} SectionHasExactly(xs: seq<WorkEvent>, status: WorkStatus, e: WorkEvent)
    ensures multiset(Section(xs, status))[e] == if e.status == status then multiset(xs)[e] else 0
  {
    if xs == [] {
    } else {
      SectionHasExactly(xs[1..], status, e);
      assert multiset(xs) == multiset{xs[0]} + multiset(xs[1..]) by { assert xs == [xs[0]] + xs[1..]; }
    }
  }

  lemma {:induction false} SectionSizesAddUp(xs: seq<WorkEvent>)
    ensures |xs| == |Section(xs, Completed)| + |Section(xs, InProgress)| + |Section(xs, Blocked)|
                    + |Section(xs, Planned)| + |Section(xs, Unknown)|
  {
    if xs == [] {
    } else {
      SectionSizesAddUp(xs[1..]);
    }
  }

  lemma {:induction false} DoubtsNameTheDoubtful(xs: seq<WorkEvent>, w: Warning)
    ensures w in Doubts(xs) <==> exists i :: 0 <= i < |xs| && Doubtful(xs[i]) && w == NeedsConfirmation(xs[i].id)
  {
    if xs == [] {
    } else {
      DoubtsNameTheDoubtful(xs[1..], w);
      if exists i :: 0 <= i < |xs| && Doubtful(xs[i]) && w == NeedsConfirmation(xs[i].id) {
        var i :| 0 <= i < |xs| && Doubtful(xs[i]) && w == NeedsConfirmation(xs[i].id);
        if i > 0 { assert xs[1..][i - 1] == xs[i]; }
      }
    }
  }

  lemma WarningsNameTheDoubtful(norm: Normalise, strip: string -> string, date: string, events: seq<WorkEvent>,
                                sourceWarnings: seq<string>)
    ensures var (draft, xs) := (GenerateDaily(norm, strip, date, events, sourceWarnings), Dedup(norm, events));
            forall id :: NeedsConfirmation(id) in draft.warnings <==>
                         exists e :: e in xs && (e.status == Unknown || e.confidence < 0.6) && id == e.id
  {
    var draft, xs := GenerateDaily(norm, strip, date, events, sourceWarnings), Dedup(norm, events);
    forall id ensures NeedsConfirmation(id) in draft.warnings <==>
                      exists e :: e in xs && (e.status == Unknown || e.confidence < 0.6) && id == e.id
    {
      DoubtsNameTheDoubtful(xs, NeedsConfirmation(id));
      assert NeedsConfirmation(id) in draft.warnings <==> NeedsConfirmation(id) in Doubts(xs);
      if e :| e in xs && (e.status == Unknown || e.confidence < 0.6) && id == e.id {
        var j :| 0 <= j < |xs| && xs[j] == e;
        assert Doubtful(xs[j]);
      }
    }
  }

  lemma {:induction false} SectionMembers(xs: seq<WorkEvent>, status: WorkStatus, e: WorkEvent)
    ensures e in Section(xs, status) <==> e in xs && e.status == status
  {
    SectionHasExactly(xs, status, e);
    assert e in Section(xs, status) <==> e in multiset(Section(xs, status));
    assert e in xs <==> e in multiset(xs);
  }

  /** The section of the draft that events of a status go to. */
  function SectionOf(draft: ReportDraft, status: WorkStatus): seq<string>
    requires !status.Unknown?
  {
    match status
    case Completed => draft.completed
    case InProgress => draft.inProgress
    case Blocked => draft.risks
    case Planned => draft.plans
  }

  lemma SectionLines(strip: string -> string, xs: seq<WorkEvent>, status: WorkStatus, line: string)
    ensures line in Lines(strip, Section(xs, status)) <==>
            exists e :: e in xs && e.status == status && line == ReportLine(strip, e)
  {
    var section := Section(xs, status);
    forall e ensures e in section <==> e in xs && e.status == status { SectionMembers(xs, status, e); }
    if line in Lines(strip, section) {
      var i :| 0 <= i < |section| && Lines(strip, section)[i] == line;
      assert section[i] in xs && section[i].status == status && line == ReportLine(strip, section[i]);
    }
    if e :| e in xs && e.status == status && line == ReportLine(strip, e) {
      var i :| 0 <= i < |section| && section[i] == e;
      assert Lines(strip, section)[i] == line;
    }
  }

  /** A line stands in a section exactly if a kept event of that section's status has that line. */
  lemma LinesHaveEvents(norm: Normalise, strip: string -> string, date: string, events: seq<WorkEvent>,
                        sourceWarnings: seq<string>, status: WorkStatus, line: string)
    requires !status.Unknown?
    ensures line in SectionOf(GenerateDaily(norm, strip, date, events, sourceWarnings), status) <==>
            exists e :: e in Dedup(norm, events) && e.status == status && line == ReportLine(strip, e)
  {
    var xs := Dedup(norm, events);
    var draft := GenerateDaily(norm, strip, date, events, sourceWarnings);
    assert SectionOf(draft, status) == Lines(strip, Section(xs, status));
    SectionLines(strip, xs, status, line);
  }

  /** The events kept are as many as the evidence ids, and each is a line in one section or unknown. */
  lemma DraftCountsEveryKey(norm: Normalise, strip: string -> string, date: string, events: seq<WorkEvent>,
                            sourceWarnings: seq<string>)
    ensures var draft := GenerateDaily(norm, strip, date, events, sourceWarnings);
            |draft.completed| + |draft.inProgress| + |draft.risks| + |draft.plans|
            + |Section(Dedup(norm, events), Unknown)| == |draft.evidenceIds| == |Keys(norm, events)|
  {
    SectionSizesAddUp(Dedup(norm, events));
  }

  /** Every event that came in is represented by exactly one kept event of its own project and normalised
      title, which is at least as certain and whose id is in the evidence. */
  lemma EveryEventIsRepresented(norm: Normalise, strip: string -> string, date: string, events: seq<WorkEvent>,
                                sourceWarnings: seq<string>, n: nat) returns (i: nat)
    requires n < |events|
    ensures var (draft, xs) := (GenerateDaily(norm, strip, date, events, sourceWarnings), Dedup(norm, events));
            && i < |xs| && xs[i] in events && draft.evidenceIds[i] == xs[i].id
            && xs[i].projectId == events[n].projectId && norm(xs[i].title) == norm(events[n].title)
            && xs[i].confidence >= events[n].confidence
            && (forall j :: 0 <= j < |xs| && j != i ==>
                  xs[j].projectId != events[n].projectId || norm(xs[j].title) != norm(events[n].title))
  {
    var xs := Dedup(norm, events);
    i := EveryEventHasKept(norm, events, n);
    var p := KeptIsEarliestMostCertain(norm, events, i);
    DedupRepresents(norm, events);
  }

  /** The positions of the events with a status. */
  function PositionsOf(xs: seq<WorkEvent>, status: WorkStatus, n: nat): (at: seq<nat>)
    requires n <= |xs|
    ensures forall k: nat :: k in at <==> k < n && xs[k].status == status
    ensures forall i, j :: 0 <= i < j < |at| ==> at[i] < at[j]
  {
    if n == 0 then []
    else
      var before := PositionsOf(xs, status, n - 1);
      assert forall i :: 0 <= i < |before| ==> before[i] in before;
      if xs[n - 1].status == status then before + [n - 1] else before
  }

  /** A section has the events at these positions, in their order. */
  lemma {:induction false} SectionSnoc(xs: seq<WorkEvent>, e: WorkEvent, status: WorkStatus)
    ensures Section(xs + [e], status) == Section(xs, status) + if e.status == status then [e] else []
  {
    if xs == [] {
      assert [e][1..] == [];
    } else {
      SectionSnoc(xs[1..], e, status);
      assert (xs + [e])[1..] == xs[1..] + [e];
    }
  }

  lemma {:induction false} SectionInOrder(xs: seq<WorkEvent>, status: WorkStatus, n: nat)
    requires n <= |xs|
    ensures var at := PositionsOf(xs, status, n);
            && |at| == |Section(xs[..n], status)|
            && forall i :: 0 <= i < |at| ==> at[i] in at && Section(xs[..n], status)[i] == xs[at[i]]
  {
    if n == 0 {
    } else {
      SectionInOrder(xs, status, n - 1);
      assert xs[..n] == xs[..n - 1] + [xs[n - 1]];
      SectionSnoc(xs[..n - 1], xs[n - 1], status);
    }
  }

  /** The draft is of the day it was made for; its evidence is the ids of the kept events, in order; its
      warnings are those of the sources, in order, and then only confirmations asked for. */
  lemma DraftSays(norm: Normalise, strip: string -> string, date: string, events: seq<WorkEvent>,
                  sourceWarnings: seq<string>)
    ensures var (draft, xs) := (GenerateDaily(norm, strip, date, events, sourceWarnings), Dedup(norm, events));
            && draft.reportDate == date
            && |draft.evidenceIds| == |xs| && (forall i :: 0 <= i < |xs| ==> draft.evidenceIds[i] == xs[i].id)
            && |sourceWarnings| <= |draft.warnings|
            && (forall i :: 0 <= i < |draft.warnings| ==>
                  if i < |sourceWarnings| then draft.warnings[i] == SourceWarning(sourceWarnings[i])
                  else draft.warnings[i].NeedsConfirmation?)
  {
    var xs := Dedup(norm, events);
    forall i | 0 <= i < |Doubts(xs)| ensures Doubts(xs)[i].NeedsConfirmation? {
      DoubtsNameTheDoubtful(xs, Doubts(xs)[i]);
    }
  }

  /** The lines of each section, one for one and in order: those of the kept events with its status. */
  lemma LinesInOrder(norm: Normalise, strip: string -> string, date: string, events: seq<WorkEvent>,
                     sourceWarnings: seq<string>, status: WorkStatus) returns (at: seq<nat>)
    requires !status.Unknown?
    ensures var (draft, xs) := (GenerateDaily(norm, strip, date, events, sourceWarnings), Dedup(norm, events));
            var lines := if status.Completed? then draft.completed
                         else if status.InProgress? then draft.inProgress
                         else if status.Blocked? then draft.risks
                         else draft.plans;
            && |lines| == |at| && (forall i, j :: 0 <= i < j < |at| ==> at[i] < at[j])
            && (forall k: nat :: k in at <==> k < |xs| && xs[k].status == status)
            && (forall i :: 0 <= i < |at| ==> at[i] in at && lines[i] == ReportLine(strip, xs[at[i]]))
  {
    var xs := Dedup(norm, events);
    at := PositionsOf(xs, status, |xs|);
    SectionInOrder(xs, status, |xs|);
    assert xs[..|xs|] == xs;
  }
}
