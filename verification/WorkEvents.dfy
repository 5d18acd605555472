/**
 Collecting work events from several sources, with every record accounted for.
 */
module WorkEvents {
  import opened Wrappers
  import opened Reports

  /** A raw email record either fails validation or is an activity. */
  datatype EmailRecord = Malformed | Email(messageId: string, subject: string, summary: string, sensitive: bool)

  datatype Minutes = Minutes(meetingId: string, title: string, summary: string, decisions: seq<string>)

  /** The sensitive-data scan: does it find anything in the text? */
  type Findings = string -> bool

  datatype Verdict = Invalid | Withheld | Accepted

  function JudgeEmail(findings: Findings, r: EmailRecord): (v: Verdict)
    ensures v.Invalid? <==> r.Malformed?
    ensures v.Accepted? <==> r.Email? && !r.sensitive && !findings(r.subject + "\n" + r.summary)
  {
    if r.Malformed? then Invalid
    else if r.sensitive || findings(r.subject + "\n" + r.summary) then Withheld
    else Accepted
  }

  function EmailEvent(r: EmailRecord): (e: WorkEvent)
    requires r.Email?
    ensures "email:" <= e.id && e.id[6..] == r.messageId && "邮件协作：" <= e.title && e.title[5..] == r.subject
    ensures e.status.Completed? && e.confidence == 1.0 && e.projectId.None? && e.result.None?
    ensures e.description.GetOr("") == r.summary && e.description != Some("")
  {
    WorkEvent("email:" + r.messageId, "邮件协作：" + r.subject, Completed, None, 1.0,
              if r.summary != "" then Some(r.summary) else None, None)
  }

  function JudgeMinutes(findings: Findings, m: Minutes): (v: Verdict)
    ensures v.Accepted? <==> !findings(m.title + "\n" + m.summary)
    ensures !v.Invalid?
  {
    if findings(m.title + "\n" + m.summary) then Withheld else Accepted
  }

  function Join(parts: seq<string>): (text: string)
    ensures |text| >= |parts| - 1
  {
    if parts == [] then "" else if |parts| == 1 then parts[0] else parts[0] + "；" + Join(parts[1..])
  }

  /** Joining all is joining the joined halves. */
  lemma {:induction false} JoinOfConcat(xs: seq<string>, ys: seq<string>)
    requires xs != [] && ys != []
    ensures Join(xs + ys) == Join(xs) + "；" + Join(ys)
  {
    assert (xs + ys)[1..] == xs[1..] + ys;
    if |xs| > 1 { JoinOfConcat(xs[1..], ys); }
  }

  /** The result is the first three decisions, or the summary if there is none. */
  function MeetingEvent(m: Minutes): (e: WorkEvent)
    ensures "meeting:" <= e.id && e.id[8..] == m.meetingId && "会议协作：" <= e.title && e.title[5..] == m.title
    ensures e.status.Completed? && e.confidence == 1.0 && e.projectId.None?
    ensures e.description.GetOr("") == m.summary && e.description != Some("") && e.result != Some("")
    ensures m.decisions == [] ==> e.result == e.description
    ensures |m.decisions| == 1 && m.decisions[0] != "" ==> e.result == Some(m.decisions[0])
    ensures |m.decisions| == 2 ==> e.result == Some(Join(m.decisions))
    ensures |m.decisions| >= 3 ==> e.result == Some(Join([m.decisions[0], m.decisions[1], m.decisions[2]]))
  {
    assert |m.decisions| > 3 ==> m.decisions[..3] == [m.decisions[0], m.decisions[1], m.decisions[2]];
    assert |m.decisions| == 3 ==> m.decisions == [m.decisions[0], m.decisions[1], m.decisions[2]];
    var decisions := Join(if |m.decisions| > 3 then m.decisions[..3] else m.decisions);
    var result := if decisions != "" then decisions else m.summary;
    WorkEvent("meeting:" + m.meetingId, "会议协作：" + m.title, Completed, None, 1.0,
              if m.summary != "" then Some(m.summary) else None,
              if result != "" then Some(result) else None)
  }

  // ----- accounting ------------------------------------------------------------------------------------

  /** The positions, in order, of the records with a verdict. */
  function Positions<R>(judge: R -> Verdict, records: seq<R>, v: Verdict): seq<nat> {
    if records == [] then []
    else
      var n := |records| - 1;
      Positions(judge, records[..n], v) + if judge(records[n]) == v then [n] else []
  }

  lemma {:induction false} PositionsAreExact<R>(judge: R -> Verdict, records: seq<R>, v: Verdict)
    ensures forall i :: i in Positions(judge, records, v) <==> 0 <= i < |records| && judge(records[i]) == v
    ensures forall a, b :: 0 <= a < b < |Positions(judge, records, v)| ==>
              Positions(judge, records, v)[a] < Positions(judge, records, v)[b]
  {
    if records == [] {
    } else {
      var n := |records| - 1;
      PositionsAreExact(judge, records[..n], v);
      var before := Positions(judge, records[..n], v);
      assert forall a :: 0 <= a < |before| ==> before[a] in before;
    }
  }

  /** Every record gets exactly one verdict. */
  lemma {:induction false} VerdictsAddUp<R>(judge: R -> Verdict, records: seq<R>)
    ensures |Positions(judge, records, Accepted)| + |Positions(judge, records, Invalid)|
            + |Positions(judge, records, Withheld)| == |records|
  {
    if records == [] {
    } else {
      VerdictsAddUp(judge, records[..|records| - 1]);
    }
  }

  datatype Note = IgnoredInvalid(count: nat) | IgnoredSensitive(count: nat) | SourceUnavailable(source: string)

  /** Only what happened is reported, with its number. */
  function Notes(invalid: nat, withheld: nat): (notes: seq<Note>)
    ensures forall x :: x in notes <==>
              || (x == IgnoredInvalid(invalid) && invalid > 0)
              || (x == IgnoredSensitive(withheld) && withheld > 0)
    ensures |notes| <= 2 && (|notes| == 2 ==> notes[0].IgnoredInvalid?)
  {
    (if invalid > 0 then [IgnoredInvalid(invalid)] else []) + if withheld > 0 then [IgnoredSensitive(withheld)] else []
  }

  method CollectEmail(findings: Findings, activity: seq<EmailRecord>)
      returns (events: seq<WorkEvent>, notes: seq<Note>, invalid: nat, withheld: nat)
    ensures var kept := Positions(r => JudgeEmail(findings, r), activity, Accepted);
            |events| == |kept| && forall i :: 0 <= i < |kept| ==>
              kept[i] < |activity| && activity[kept[i]].Email? && events[i] == EmailEvent(activity[kept[i]])
    ensures invalid == |Positions(r => JudgeEmail(findings, r), activity, Invalid)|
    ensures withheld == |Positions(r => JudgeEmail(findings, r), activity, Withheld)|
    ensures |events| + invalid + withheld == |activity|
    ensures notes == Notes(invalid, withheld)
  {
    ghost var judge := r => JudgeEmail(findings, r);
    events, invalid, withheld := [], 0, 0;
    for i := 0 to |activity|
      invariant invalid == |Positions(judge, activity[..i], Invalid)|
      invariant withheld == |Positions(judge, activity[..i], Withheld)|
      invariant |events| == |Positions(judge, activity[..i], Accepted)|
      invariant forall k :: 0 <= k < |events| ==>
                  var p := Positions(judge, activity[..i], Accepted)[k];
                  p < i && activity[p].Email? && events[k] == EmailEvent(activity[p])
    {
      assert activity[..i + 1][..i] == activity[..i];
      var item := activity[i];
      if item.Malformed? {
        invalid := invalid + 1;
        continue;
      }
      if item.sensitive || findings(item.subject + "\n" + item.summary) {
        withheld := withheld + 1;
        continue;
      }
      events := events + [EmailEvent(item)];
    }
    assert activity[..|activity|] == activity;
    VerdictsAddUp(judge, activity);
    notes := [];
    if invalid > 0 {
      notes := notes + [IgnoredInvalid(invalid)];
    }
    if withheld > 0 {
      notes := notes + [IgnoredSensitive(withheld)];
    }
  }

  method CollectMeetings(findings: Findings, minutes: seq<Minutes>)
      returns (events: seq<WorkEvent>, notes: seq<Note>, withheld: nat)
    ensures var kept := Positions(m => JudgeMinutes(findings, m), minutes, Accepted);
            |events| == |kept| && forall i :: 0 <= i < |kept| ==>
              kept[i] < |minutes| && events[i] == MeetingEvent(minutes[kept[i]])
    ensures withheld == |Positions(m => JudgeMinutes(findings, m), minutes, Withheld)|
    ensures |events| + withheld == |minutes|
    ensures notes == Notes(0, withheld)
  {
    ghost var judge := m => JudgeMinutes(findings, m);
    events, withheld := [], 0;
    for i := 0 to |minutes|
      invariant withheld == |Positions(judge, minutes[..i], Withheld)|
      invariant |events| + withheld == i
      invariant |events| == |Positions(judge, minutes[..i], Accepted)|
      invariant forall k :: 0 <= k < |events| ==>
                  var p := Positions(judge, minutes[..i], Accepted)[k];
                  p < i && events[k] == MeetingEvent(minutes[p])
    {
      assert minutes[..i + 1][..i] == minutes[..i];
      if findings(minutes[i].title + "\n" + minutes[i].summary) {
        withheld := withheld + 1;
        continue;
      }
      events := events + [MeetingEvent(minutes[i])];
    }
    assert minutes[..|minutes|] == minutes;
    notes := if withheld > 0 then [IgnoredSensitive(withheld)] else [];
  }

  // ----- all sources ---------------------------------------------------------------------------------------

  const SOURCES: seq<string> := ["gitlab", "task", "email", "meeting"]

  /** A source answers, or raises one of the errors the collector survives. */
  datatype Answer = Failed | Answered(events: seq<WorkEvent>, notes: seq<Note>)

  /** A failing source becomes an empty one with a warning. */
  function Safe(source: string, a: Answer): (r: (seq<WorkEvent>, seq<Note>))
    ensures a.Answered? ==> r == (a.events, a.notes)
    ensures a.Failed? ==> r.0 == [] && r.1 == [SourceUnavailable(source)]
  {
    if a.Failed? then ([], [SourceUnavailable(source)]) else (a.events, a.notes)
  }

  function EventsOf(answers: seq<Answer>): seq<WorkEvent>
    requires |answers| <= |SOURCES|
  {
    if answers == [] then []
    else EventsOf(answers[..|answers| - 1]) + Safe(SOURCES[|answers| - 1], answers[|answers| - 1]).0
  }

  /** The warnings of the sources, one after the other. */
  function NotesOf(answers: seq<Answer>): seq<Note>
    requires |answers| <= |SOURCES|
  {
    if answers == [] then []
    else NotesOf(answers[..|answers| - 1]) + Safe(SOURCES[|answers| - 1], answers[|answers| - 1]).1
  }

  lemma OneMoreSource(answers: seq<Answer>, n: nat)
    requires n < |answers| <= |SOURCES|
    ensures EventsOf(answers[..n + 1]) == EventsOf(answers[..n]) + Safe(SOURCES[n], answers[n]).0
    ensures NotesOf(answers[..n + 1]) == NotesOf(answers[..n]) + Safe(SOURCES[n], answers[n]).1
  {
    assert answers[..n + 1][..n] == answers[..n];
  }

  /** Source by source. */
  lemma FourSources(answers: seq<Answer>)
    requires |answers| == 4
    ensures EventsOf(answers) ==
            Safe(SOURCES[0], answers[0]).0 + Safe(SOURCES[1], answers[1]).0
            + Safe(SOURCES[2], answers[2]).0 + Safe(SOURCES[3], answers[3]).0
    ensures NotesOf(answers) ==
            Safe(SOURCES[0], answers[0]).1 + Safe(SOURCES[1], answers[1]).1
            + Safe(SOURCES[2], answers[2]).1 + Safe(SOURCES[3], answers[3]).1
  {
    assert answers[..4] == answers && answers[..0] == [];
    forall n | 0 <= n < 4
      ensures EventsOf(answers[..n + 1]) == EventsOf(answers[..n]) + Safe(SOURCES[n], answers[n]).0
      ensures NotesOf(answers[..n + 1]) == NotesOf(answers[..n]) + Safe(SOURCES[n], answers[n]).1
    {
      OneMoreSource(answers, n);
    }
    assert EventsOf(answers[..1]) == Safe(SOURCES[0], answers[0]).0;
    assert NotesOf(answers[..1]) == Safe(SOURCES[0], answers[0]).1;
  }

  /** Total of the counts reported for the first `n` sources. */
  function CountOf(counts: map<string, nat>, n: nat): nat
    requires n <= |SOURCES| && forall i :: 0 <= i < n ==> SOURCES[i] in counts
  {
    if n == 0 then 0 else CountOf(counts, n - 1) + counts[SOURCES[n - 1]]
  }

  lemma {:induction false} CountOfOthers(counts: map<string, nat>, name: string, value: nat, n: nat)
    requires n <= |SOURCES| && forall i :: 0 <= i < n ==> SOURCES[i] in counts && SOURCES[i] != name
    ensures CountOf(counts[name := value], n) == CountOf(counts, n)
  {
    if n == 0 {
    } else {
      CountOfOthers(counts, name, value, n - 1);
    }
  }

  /** The counts are those of the sources, a failed one counts nothing and is named, and they add up to
      the events handed on. */
  method Collect(answers: seq<Answer>) returns (events: seq<WorkEvent>, notes: seq<Note>, counts: map<string, nat>)
    requires |answers| == |SOURCES|
    ensures events == EventsOf(answers) && notes == NotesOf(answers)
    ensures forall i :: 0 <= i < |SOURCES| ==>
              SOURCES[i] in counts && counts[SOURCES[i]] == if answers[i].Failed? then 0 else |answers[i].events|
    ensures CountOf(counts, |SOURCES|) == |events|
    ensures forall i :: 0 <= i < |SOURCES| && answers[i].Failed? ==> SourceUnavailable(SOURCES[i]) in notes
  {
    events, notes, counts := [], [], map[];
    for i := 0 to |answers|
      invariant events == EventsOf(answers[..i]) && notes == NotesOf(answers[..i])
      invariant forall k :: 0 <= k < i ==>
                  SOURCES[k] in counts && counts[SOURCES[k]] == if answers[k].Failed? then 0 else |answers[k].events|
      invariant CountOf(counts, i) == |events|
      invariant forall k :: 0 <= k < i && answers[k].Failed? ==> SourceUnavailable(SOURCES[k]) in notes
    {
      assert answers[..i + 1][..i] == answers[..i];
      assert forall k :: 0 <= k < i ==> SOURCES[k] != SOURCES[i];
      var (sourceEvents, sourceNotes) := Safe(SOURCES[i], answers[i]);
      CountOfOthers(counts, SOURCES[i], |sourceEvents|, i);
      events := events + sourceEvents;
      notes := notes + sourceNotes;
      counts := counts[SOURCES[i] := |sourceEvents|];
    }
    assert answers[..|answers|] == answers;
  }

  /** The total of the counts, source by source. */
  lemma CountOfFour(counts: map<string, nat>)
    requires forall i :: 0 <= i < |SOURCES| ==> SOURCES[i] in counts
    ensures "gitlab" in counts && "task" in counts && "email" in counts && "meeting" in counts
    ensures CountOf(counts, 4) == counts["gitlab"] + counts["task"] + counts["email"] + counts["meeting"]
  {
    assert SOURCES[0] == "gitlab" && SOURCES[1] == "task" && SOURCES[2] == "email" && SOURCES[3] == "meeting";
    assert CountOf(counts, 1) == counts["gitlab"];
    assert CountOf(counts, 2) == CountOf(counts, 1) + counts["task"];
    assert CountOf(counts, 3) == CountOf(counts, 2) + counts["email"];
  }
}
