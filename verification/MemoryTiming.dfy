/**
 The same cache when calls overlap and deletes may be lost. How old can an answer be?
 */
module MemoryTiming {
  import opened Memory

  type Reader = nat

  type Lists = map<User, seq<Item>>

  function ListIn(lists: Lists, user: User): seq<Item> {
    if user in lists then lists[user] else []
  }

  /** `ttl` is the configured lifetime in clock units, never less than `unit` (one second) in effect;
      `delay` bounds the time between reading the repository and setting the cache. */
  datatype Config = Config(ttl: int, unit: nat, delay: nat)

  function Lifetime(cfg: Config): int {
    if cfg.ttl > cfg.unit then cfg.ttl else cfg.unit
  }

  /** The repository's contents at one moment. */
  datatype Moment = Moment(time: int, lists: Lists)

  /** `source` is history: the moment the value was read from the repository. */
  datatype Entry = Entry(value: seq<Item>, expires: int, source: nat)

  datatype Phase = Idle | Missed(user: User) | Fetched(user: User, value: seq<Item>, readAt: int, source: nat)

  datatype Reply = Reply(user: User, value: seq<Item>, time: int, source: nat)

  /** `moments` records the repository after every step, so its last element is the present. */
  datatype State = State(clock: int, lists: Lists, cache: map<User, Entry>, readers: map<Reader, Phase>,
                         moments: seq<Moment>, replies: seq<Reply>)

  datatype Step =
    | Tick(elapsed: nat)
    | Write(user: User, newList: seq<Item>)
    | Invalidate(user: User)
    | Hit(r: Reader, user: User)
    | Miss(r: Reader, user: User)
    | Fetch(r: Reader)
    | Store(r: Reader, up: bool)
    | Crash(r: Reader)

  const INIT := State(0, map[], map[], map[], [Moment(0, map[])], [])

  function PhaseOf(s: State, r: Reader): Phase {
    if r in s.readers then s.readers[r] else Idle
  }

  /** `Miss` is always possible: the cache is down, the entry has gone, or it is not a list. `Invalidate`
      is the delete after a write, an eviction, or the delete of a broken entry; leaving it out is a
      lost delete. */
  predicate Enabled(cfg: Config, s: State, step: Step) {
    match step
    case Tick(_) => true
    case Write(_, _) => true
    case Invalidate(_) => true
    case Hit(r, u) => PhaseOf(s, r).Idle? && u in s.cache && s.clock < s.cache[u].expires
    case Miss(r, _) => PhaseOf(s, r).Idle?
    case Fetch(r) => PhaseOf(s, r).Missed? && s.moments != []
    case Store(r, _) => PhaseOf(s, r).Fetched? && s.clock - PhaseOf(s, r).readAt <= cfg.delay
    case Crash(_) => true
  }

  function Act(cfg: Config, s: State, step: Step): State
    requires Enabled(cfg, s, step)
  {
    match step
    case Tick(d) => s.(clock := s.clock + d)
    case Write(u, xs) => s.(lists := s.lists[u := xs])
    case Invalidate(u) => s.(cache := s.cache - {u})
    case Hit(r, u) => s.(replies := s.replies + [Reply(u, s.cache[u].value, s.clock, s.cache[u].source)])
    case Miss(r, u) => s.(readers := s.readers[r := Missed(u)])
    case Fetch(r) =>
      var u := PhaseOf(s, r).user;
      s.(readers := s.readers[r := Fetched(u, ListIn(s.lists, u), s.clock, |s.moments| - 1)])
    case Store(r, up) =>
      var p := PhaseOf(s, r);
      s.(cache := if up then s.cache[p.user := Entry(p.value, s.clock + Lifetime(cfg), p.source)] else s.cache,
         readers := s.readers[r := Idle],
         replies := s.replies + [Reply(p.user, p.value, s.clock, p.source)])
    case Crash(r) => s.(readers := s.readers[r := Idle])
  }

  function Next(cfg: Config, s: State, step: Step): State
    requires Enabled(cfg, s, step)
  {
    var s' := Act(cfg, s, step);
    s'.(moments := s'.moments + [Moment(s'.clock, s'.lists)])
  }

  ghost predicate Run(cfg: Config, s: State, steps: seq<Step>, s': State)
    decreases |steps|
  {
    if steps == [] then s == s'
    else Enabled(cfg, s, steps[0]) && Run(cfg, Next(cfg, s, steps[0]), steps[1..], s')
  }

  // ----- the invariant -----------------------------------------------------------------------------

  /** The value is what the repository listed at the moment it was read. */
  predicate ReadAt(moments: seq<Moment>, user: User, value: seq<Item>, source: nat) {
    source < |moments| && value == ListIn(moments[source].lists, user)
  }

  predicate EntryOk(cfg: Config, s: State, u: User, e: Entry) {
    && ReadAt(s.moments, u, e.value, e.source)
    && e.expires <= s.moments[e.source].time + cfg.delay + Lifetime(cfg)
  }

  predicate PhaseOk(s: State, p: Phase) {
    p.Fetched? ==> ReadAt(s.moments, p.user, p.value, p.source) && s.moments[p.source].time == p.readAt
  }

  /** The reply repeats the repository's list at a moment not longer ago than the lifetime and the
      delay together. */
  predicate ReplyOk(cfg: Config, moments: seq<Moment>, x: Reply) {
    && ReadAt(moments, x.user, x.value, x.source)
    && moments[x.source].time <= x.time <= moments[x.source].time + cfg.delay + Lifetime(cfg)
  }

  predicate Inv(cfg: Config, s: State) {
    && s.moments != []
    && s.moments[|s.moments| - 1] == Moment(s.clock, s.lists)
    && (forall i :: 0 <= i < |s.moments| ==> s.moments[i].time <= s.clock)
    && (forall u :: u in s.cache ==> EntryOk(cfg, s, u, s.cache[u]))
    && (forall r :: r in s.readers ==> PhaseOk(s, s.readers[r]))
    && (forall i :: 0 <= i < |s.replies| ==> ReplyOk(cfg, s.moments, s.replies[i]))
  }

  lemma StepKeepsInv(cfg: Config, s: State, step: Step)
    requires Inv(cfg, s) && Enabled(cfg, s, step)
    ensures Inv(cfg, Next(cfg, s, step))
  {
    var s' := Next(cfg, s, step);
    assert s.moments <= s'.moments;
    match step
    case Store(r, up) => assert PhaseOk(s, PhaseOf(s, r));
    case Hit(r, u) => assert EntryOk(cfg, s, u, s.cache[u]);
    case _ =>
  }

  lemma {:induction false} RunKeepsInv(cfg: Config, s: State, steps: seq<Step>, s': State)
    requires Inv(cfg, s) && Run(cfg, s, steps, s')
    ensures Inv(cfg, s')
    decreases |steps|
  {
    if steps == [] {
    } else {
      StepKeepsInv(cfg, s, steps[0]);
      RunKeepsInv(cfg, Next(cfg, s, steps[0]), steps[1..], s');
    }
  }

  /** However calls overlap and whatever the cache loses, every answer ever given is the repository's
      list for that user at some moment at most `max(1 s, ttl)` plus the read-to-set delay before. */
  lemma AnswersAreBoundedlyStale(cfg: Config, steps: seq<Step>, s: State, i: nat)
    requires Run(cfg, INIT, steps, s) && i < |s.replies|
    ensures exists m :: 0 <= m < |s.moments|
              && s.replies[i].value == ListIn(s.moments[m].lists, s.replies[i].user)
              && s.moments[m].time <= s.replies[i].time
              && s.replies[i].time <= s.moments[m].time + cfg.delay + (if cfg.ttl < cfg.unit then cfg.unit else cfg.ttl)
  {
    RunKeepsInv(cfg, INIT, steps, s);
    assert ReplyOk(cfg, s.moments, s.replies[i]);
  }

  // ----- when an update takes effect at once -----------------------------------------------------------

  predicate NoWrites(steps: seq<Step>, u: User) {
    forall i :: 0 <= i < |steps| && steps[i].Write? ==> steps[i].user != u
  }

  /** Some reader can still be served a list from the cache that is not the user's list, although nobody
      changes that list any more. */
  ghost predicate CanServeOld(cfg: Config, s: State, u: User) {
    exists steps, s', r ::
      && NoWrites(steps, u) && Run(cfg, s, steps, s')
      && Enabled(cfg, s', Hit(r, u)) && s'.cache[u].value != ListIn(s'.lists, u)
  }

  /** The cache holds an old list that has not expired. */
  predicate OldEntry(s: State, u: User) {
    u in s.cache && s.clock < s.cache[u].expires && s.cache[u].value != ListIn(s.lists, u)
  }

  /** A reader has read another list than this one, and still has time to cache it. */
  predicate HoldsOther(cfg: Config, s: State, r: Reader, u: User, list: seq<Item>) {
    var p := PhaseOf(s, r);
    p.Fetched? && p.user == u && p.value != list && s.clock - p.readAt <= cfg.delay
  }

  predicate HoldsOld(cfg: Config, s: State, r: Reader, u: User) {
    HoldsOther(cfg, s, r, u, ListIn(s.lists, u))
  }

  ghost predicate OldInSight(cfg: Config, s: State, u: User) {
    OldEntry(s, u) || exists r :: HoldsOld(cfg, s, r, u)
  }

  /** Without a write nothing old comes into sight. */
  lemma OldStaysOutOfSight(cfg: Config, s: State, step: Step, u: User)
    requires Enabled(cfg, s, step) && (step.Write? ==> step.user != u) && !OldInSight(cfg, s, u)
    ensures !OldInSight(cfg, Next(cfg, s, step), u)
  {
    var s' := Next(cfg, s, step);
    forall r ensures !HoldsOld(cfg, s', r, u) {
      assert !HoldsOld(cfg, s, r, u);
    }
    if step.Store? { assert !HoldsOld(cfg, s, step.r, u); }
  }

  lemma {:induction false} OldStaysOutOfSightFor(cfg: Config, s: State, steps: seq<Step>, s': State, u: User)
    requires Run(cfg, s, steps, s') && NoWrites(steps, u) && !OldInSight(cfg, s, u)
    ensures !OldInSight(cfg, s', u)
    decreases |steps|
  {
    if steps == [] {
    } else {
      assert NoWrites(steps[1..], u);
      OldStaysOutOfSight(cfg, s, steps[0], u);
      OldStaysOutOfSightFor(cfg, Next(cfg, s, steps[0]), steps[1..], s', u);
    }
  }

  lemma OneStepRun(cfg: Config, s: State, step: Step)
    requires Enabled(cfg, s, step)
    ensures Run(cfg, s, [step], Next(cfg, s, step))
  {
    assert [step][1..] == [];
    assert Run(cfg, Next(cfg, s, step), [], Next(cfg, s, step));
  }

  /** In any state, an old list can still be served exactly if the cache holds one that has not expired,
      or a reader holds one that it has time to cache. */
  lemma OldIsServedIff(cfg: Config, s: State, u: User)
    requires 1 <= cfg.unit
    ensures CanServeOld(cfg, s, u) <==> OldInSight(cfg, s, u)
  {
    if steps, s', r :| && NoWrites(steps, u) && Run(cfg, s, steps, s')
                       && Enabled(cfg, s', Hit(r, u)) && s'.cache[u].value != ListIn(s'.lists, u) {
      assert OldEntry(s', u);
      if !OldInSight(cfg, s, u) { OldStaysOutOfSightFor(cfg, s, steps, s', u); }
    }
    if OldEntry(s, u) {
      OneStepRun(cfg, s, Crash(0));
      assert NoWrites([Crash(0)], u) && Enabled(cfg, Next(cfg, s, Crash(0)), Hit(0, u));
    }
    if r :| HoldsOld(cfg, s, r, u) {
      OneStepRun(cfg, s, Store(r, true));
      assert NoWrites([Store(r, true)], u) && Enabled(cfg, Next(cfg, s, Store(r, true)), Hit(r, u));
    }
  }

  /** An update followed by its delete takes effect at once exactly if no reader that started before
      still holds another list in time to cache it. If the delete is lost, what is cached must have
      expired, or be the new list, as well. */
  lemma UpdateTakesEffectIff(cfg: Config, s: State, u: User, newList: seq<Item>)
    requires 1 <= cfg.unit
    ensures var written := Next(cfg, s, Write(u, newList));
            var held := exists r :: HoldsOther(cfg, s, r, u, newList);
            && (CanServeOld(cfg, Next(cfg, written, Invalidate(u)), u) <==> held)
            && (CanServeOld(cfg, written, u) <==>
                held || (u in s.cache && s.clock < s.cache[u].expires && s.cache[u].value != newList))
  {
    var written := Next(cfg, s, Write(u, newList));
    var deleted := Next(cfg, written, Invalidate(u));
    OldIsServedIff(cfg, written, u);
    OldIsServedIff(cfg, deleted, u);
    forall r
      ensures HoldsOld(cfg, written, r, u) == HoldsOld(cfg, deleted, r, u) == HoldsOther(cfg, s, r, u, newList)
    {}
  }

  /** A stored list is served for the configured lifetime, but at least one second, and not longer. */
  lemma EntryLivesFor(cfg: Config, s: State, r: Reader, reader: Reader, elapsed: nat)
    requires Enabled(cfg, s, Store(r, true)) && PhaseOf(s, reader).Idle?
    ensures var u := PhaseOf(s, r).user;
            var later := Next(cfg, Next(cfg, s, Store(r, true)), Tick(elapsed));
            && (Enabled(cfg, later, Hit(reader, u)) <==> elapsed < cfg.ttl || elapsed < cfg.unit)
            && u in later.cache && later.cache[u].value == PhaseOf(s, r).value
  {}

  /** A read can always miss, an update can always be saved, its delete takes this user's entry and no
      other, and a reader can always crash. */
  lemma CacheIsFree(cfg: Config, s: State, r: Reader, u: User, newList: seq<Item>)
    ensures PhaseOf(s, r).Idle? ==>
              Enabled(cfg, s, Miss(r, u)) && PhaseOf(Next(cfg, s, Miss(r, u)), r) == Missed(u)
    ensures Enabled(cfg, s, Write(u, newList)) && Next(cfg, s, Write(u, newList)).cache == s.cache
    ensures Enabled(cfg, s, Invalidate(u)) && Next(cfg, s, Invalidate(u)).cache == s.cache - {u}
    ensures Enabled(cfg, s, Crash(r)) && PhaseOf(Next(cfg, s, Crash(r)), r).Idle?
  {}

  /** A hit answers with what is cached, and a store with what was read; nothing else answers. */
  lemma AnswersAre(cfg: Config, s: State, step: Step)
    requires Enabled(cfg, s, step)
    ensures var s' := Next(cfg, s, step);
            if step.Hit? then
              |s'.replies| == |s.replies| + 1 && s.replies <= s'.replies
              && s'.replies[|s.replies|].value == s.cache[step.user].value && s'.replies[|s.replies|].user == step.user
            else if step.Store? then
              |s'.replies| == |s.replies| + 1 && s.replies <= s'.replies
              && s'.replies[|s.replies|].value == PhaseOf(s, step.r).value
              && s'.replies[|s.replies|].user == PhaseOf(s, step.r).user && PhaseOf(s', step.r).Idle?
            else s'.replies == s.replies
  {}

  lemma {:induction false} RunSnoc(cfg: Config, s: State, steps: seq<Step>, s': State, last: Step)
      returns (all: seq<Step>, s'': State)
    requires Run(cfg, s, steps, s') && Enabled(cfg, s', last)
    ensures all == steps + [last] && s'' == Next(cfg, s', last) && Run(cfg, s, all, s'')
    decreases |steps|
  {
    all, s'' := steps + [last], Next(cfg, s', last);
    if steps == [] {
      assert all[1..] == [];
    } else {
      var _, _ := RunSnoc(cfg, Next(cfg, s, steps[0]), steps[1..], s', last);
      assert all[1..] == steps[1..] + [last];
    }
  }

  /** A reader has fetched the empty list; a write is saved and its delete done before it stores. */
  lemma WriteBetweenFetchAndStore(cfg: Config, user: User, item: Item) returns (steps: seq<Step>, s: State)
    ensures Run(cfg, INIT, steps, s)
    ensures |steps| == 4 && steps[2] == Write(user, [item]) && steps[3] == Invalidate(user)
    ensures PhaseOf(s, 0) == Fetched(user, [], 0, 1) && PhaseOf(s, 1).Idle?
    ensures s.clock == 0 && s.replies == [] && ListIn(s.lists, user) == [item]
  {
    steps, s := RunSnoc(cfg, INIT, [], INIT, Miss(0, user));
    steps, s := RunSnoc(cfg, INIT, steps, s, Fetch(0));
    steps, s := RunSnoc(cfg, INIT, steps, s, Write(user, [item]));
    steps, s := RunSnoc(cfg, INIT, steps, s, Invalidate(user));
  }

  /** Even with every delete effective, overlap can leave an old list behind after a write has been
      saved and its delete done. */
  lemma OverlapCanLeaveOldList(cfg: Config, user: User, item: Item) returns (steps: seq<Step>, s: State)
    requires 1 <= cfg.unit
    ensures Run(cfg, INIT, steps, s)
    ensures |steps| == 6 && steps[2] == Write(user, [item]) && steps[3] == Invalidate(user)
    ensures steps[4] == Store(0, true) && steps[5] == Hit(1, user)
    ensures |s.replies| == 2 && s.replies[1].user == user && s.replies[1].time == s.clock
    ensures s.replies[1].value == [] && ListIn(s.lists, user) == [item]
  {
    steps, s := WriteBetweenFetchAndStore(cfg, user, item);
    steps, s := RunSnoc(cfg, INIT, steps, s, Store(0, true));
    steps, s := RunSnoc(cfg, INIT, steps, s, Hit(1, user));
  }
}
