/**
 The watchdog event queue and the application of a drained batch. The store is an abstract map
 from paths to parsed contents; reading a file at processing time is a lookup in `now`.
 */
module WatchdogQueue {
  import opened Sequences
  import opened Wrappers

  datatype EventType = Created | Modified | Deleted | Moved

  datatype FileKind = RagDocument | StructuredTable | Unsupported

  datatype Remark = NoRemark | TemporaryFileSkip | CrossScopeRename | AmbiguousEventSequence

  datatype Event = Event(eventType: EventType, path: string, kind: FileKind, source: Option<string>, remark: Remark)

  const REBUILD_EVENT := Event(Modified, "", Unsupported, None, AmbiguousEventSequence)

  /** The event that stands for two successive events of one path, if there is one. */
  function MergeEvents(existing: Event, incoming: Event): Option<Event> {
    if existing.eventType.Created? && incoming.eventType.Modified? then Some(existing)
    else if incoming.eventType.Deleted? then Some(incoming)
    else if existing.eventType == incoming.eventType then Some(incoming)
    else None
  }

  /** A queue as a value: the pending paths in first-seen order and the event held for each. */
  datatype Queue = Queue(order: seq<string>, items: map<string, Event>, ambiguous: bool)

  const EMPTY_QUEUE := Queue([], map[], false)

  function Enqueued(q: Queue, e: Event): Queue {
    if e.path !in q.items then q.(order := q.order + [e.path], items := q.items[e.path := e])
    else
      match MergeEvents(q.items[e.path], e)
      case Some(merged) => q.(items := q.items[e.path := merged])
      case None => q.(items := q.items[e.path := e], ambiguous := true)
  }

  function Batch(q: Queue): seq<Event>
    requires ToSet(q.order) <= q.items.Keys
  {
    if q.ambiguous then [REBUILD_EVENT]
    else
      assert forall i | 0 <= i < |q.order| :: q.order[i] in ToSet(q.order);
      seq(|q.order|, i requires 0 <= i < |q.order| => q.items[q.order[i]])
  }

  function AfterDrain(q: Queue): Queue {
    if q.ambiguous then q else EMPTY_QUEUE
  }

  ghost predicate WellKept(q: Queue) {
    && Distinct(q.order)
    && ToSet(q.order) == q.items.Keys
    && forall p | p in q.items :: q.items[p].path == p
  }

  lemma EnqueueKeeps(q: Queue, e: Event)
    requires WellKept(q)
    ensures WellKept(Enqueued(q, e))
  {
    if e.path !in q.items {
      DistinctAppend(q.order, [e.path]);
    }
  }

  class WatchdogEventQueue {
    var order: seq<string>
    var items: map<string, Event>
    var ambiguous: bool

    ghost function Value(): Queue
      reads this
    {
      Queue(order, items, ambiguous)
    }

    ghost predicate Valid()
      reads this
    {
      WellKept(Value())
    }

    constructor ()
      ensures Valid() && Value() == EMPTY_QUEUE
    {
      order, items, ambiguous := [], map[], false;
    }

    method Enqueue(e: Event)
      requires Valid()
      modifies this
      ensures Valid() && Value() == Enqueued(old(Value()), e)
    {
      EnqueueKeeps(Value(), e);
      if e.path !in items {
        order := order + [e.path];
        items := items[e.path := e];
        return;
      }
      var merged := MergeEvents(items[e.path], e);
      if merged.None? {
        ambiguous := true;
        items := items[e.path := e];
      } else {
        items := items[e.path := merged.value];
      }
    }

    method Drain() returns (batch: seq<Event>)
      requires Valid()
      modifies this
      ensures Valid() && Value() == AfterDrain(old(Value()))
      ensures batch == Batch(old(Value()))
    {
      if ambiguous {
        return [REBUILD_EVENT];
      }
      batch := [];
      for i := 0 to |order|
        invariant batch == Batch(Value())[..i]
      {
        assert order[i] in ToSet(order);
        batch := batch + [items[order[i]]];
      }
      order, items := [], map[];
    }
  }

  /*** Applying events ***/

  /** The store: what each path was last refreshed to. */
  type Store = map<string, string>

  /** How the content of a path is parsed, and tables are checked, while events are applied. */
  datatype Reader = Reader(parse: (string, string) -> Option<string>, relationValid: string -> bool)

  /** The parsed content, if the file is there and can be parsed. */
  function Parsed(path: string, content: Option<string>, reader: Reader): Option<string> {
    if content.None? then None else reader.parse(path, content.value)
  }

  predicate Ignored(e: Event) {
    !e.remark.NoRemark? || e.kind.Unsupported?
  }

  function ApplyEvent(store: Store, e: Event, content: Option<string>, reader: Reader): Store {
    if Ignored(e) || (e.eventType.Moved? && e.source.Some?) then store
    else if e.eventType.Deleted? then store - {e.path}
    else
      match Parsed(e.path, content, reader)
      case None => store
      case Some(parsed) => store[e.path := parsed]
  }

  datatype ReportStatus = Ok | Skipped | ValidationFailed | FullRebuildRequired

  datatype Report = Report(
    status: ReportStatus, processed: nat, skipped: nat, refreshed: nat, deleted: nat, fullRebuild: bool, problems: nat)

  const FRESH_REPORT := Report(Ok, 0, 0, 0, 0, false, 0)

  function ReportOf(e: Event, content: Option<string>, reader: Reader): Report {
    if e.remark.AmbiguousEventSequence? || e.remark.CrossScopeRename? then Report(FullRebuildRequired, 0, 0, 0, 0, true, 1)
    else if e.remark.TemporaryFileSkip? || e.kind.Unsupported? then Report(Skipped, 0, 1, 0, 0, false, 1)
    else if e.eventType.Moved? && e.source.Some? then Report(Ok, 1, 0, 0, 0, false, 0)
    else if e.eventType.Deleted? then Report(Ok, 1, 0, 0, 1, false, 0)
    else if Parsed(e.path, content, reader).None? then Report(ValidationFailed, 1, 0, 0, 0, false, 1)
    else if e.kind.StructuredTable? && !reader.relationValid(e.path) then Report(FullRebuildRequired, 1, 0, 0, 0, true, 1)
    else Report(Ok, 1, 0, 1, 0, false, 0)
  }

  /** Adds one event's report to the batch report. */
  function MergeReport(target: Report, source: Report): Report {
    Report(
      if source.fullRebuild then FullRebuildRequired
      else if !source.status.Ok? && !source.status.Skipped? && target.status.Ok? then source.status
      else target.status,
      target.processed + source.processed,
      target.skipped + source.skipped,
      target.refreshed + source.refreshed,
      target.deleted + source.deleted,
      target.fullRebuild || source.fullRebuild,
      target.problems + source.problems)
  }

  function Lookup<V>(m: map<string, V>, p: string): Option<V> {
    if p in m then Some(m[p]) else None
  }

  function StoreAfter(store: Store, batch: seq<Event>, now: map<string, string>, reader: Reader): Store {
    if batch == [] then store
    else
      var last := batch[|batch| - 1];
      ApplyEvent(StoreAfter(store, batch[..|batch| - 1], now, reader), last, Lookup(now, last.path), reader)
  }

  function ReportAfter(batch: seq<Event>, now: map<string, string>, reader: Reader): Report {
    if batch == [] then FRESH_REPORT
    else
      var last := batch[|batch| - 1];
      MergeReport(ReportAfter(batch[..|batch| - 1], now, reader), ReportOf(last, Lookup(now, last.path), reader))
  }

  method ApplyEventBatch(store: Store, batch: seq<Event>, now: map<string, string>, reader: Reader)
    returns (result: Store, report: Report)
    ensures result == StoreAfter(store, batch, now, reader)
    ensures report == ReportAfter(batch, now, reader)
  {
    result, report := store, FRESH_REPORT;
    for i := 0 to |batch|
      invariant result == StoreAfter(store, batch[..i], now, reader)
      invariant report == ReportAfter(batch[..i], now, reader)
    {
      assert batch[..i + 1][..i] == batch[..i];
      var content := Lookup(now, batch[i].path);
      result := ApplyEvent(result, batch[i], content, reader);
      report := MergeReport(report, ReportOf(batch[i], content, reader));
    }
    assert batch[..|batch|] == batch;
  }

  /*** Replaying a log ***/

  /** An event and the content its file had right after it. */
  datatype Entry = Entry(event: Event, content: Option<string>)

  function Replay(store: Store, log: seq<Entry>, reader: Reader): Store {
    if log == [] then store
    else
      var last := log[|log| - 1];
      ApplyEvent(Replay(store, log[..|log| - 1], reader), last.event, last.content, reader)
  }

  function Coalesce(log: seq<Entry>): Queue {
    if log == [] then EMPTY_QUEUE else Enqueued(Coalesce(log[..|log| - 1]), log[|log| - 1].event)
  }

  /** The last entry for a path. */
  function LastFor(log: seq<Entry>, p: string): Option<Entry> {
    if log == [] then None
    else if log[|log| - 1].event.path == p then Some(log[|log| - 1])
    else LastFor(log[..|log| - 1], p)
  }

  /** What the last entry for a path whose content can be parsed was parsed to. */
  function LastParsed(log: seq<Entry>, p: string, reader: Reader): Option<string> {
    if log == [] then None
    else
      var last := log[|log| - 1];
      if last.event.path == p && Parsed(p, last.content, reader).Some? then Parsed(p, last.content, reader)
      else LastParsed(log[..|log| - 1], p, reader)
  }

  /** Marked as a skip, a cross-scope rename or a broken sequence, or of a kind the system does not read. */
  predicate PassedOver(e: Event) {
    || e.remark == TemporaryFileSkip || e.remark == CrossScopeRename || e.remark == AmbiguousEventSequence
    || e.kind == Unsupported
  }

  /** Created, modified and deleted events; whether a path is passed over depends on the path alone. */
  ghost predicate MoveFree(log: seq<Entry>, ignored: set<string>) {
    forall i | 0 <= i < |log| ::
      && !log[i].event.eventType.Moved?
      && (PassedOver(log[i].event) <==> log[i].event.path in ignored)
  }

  /** Every content change is logged: each path still has the content of its last entry. */
  ghost predicate UpToDate(log: seq<Entry>, now: map<string, string>) {
    forall i | 0 <= i < |log| ::
      var p := log[i].event.path; LastFor(log, p).Some? && Lookup(now, p) == LastFor(log, p).value.content
  }

  /*** Coalescing refines replay ***/

  predicate NoDeletion(log: seq<Entry>, p: string) {
    forall i | 0 <= i < |log| :: log[i].event.path == p ==> !log[i].event.eventType.Deleted?
  }

  /** The event held for p stands for all the entries of p. */
  ghost predicate HeldFor(q: Queue, log: seq<Entry>, ignored: set<string>, p: string) {
    && (p in q.items <==> LastFor(log, p).Some?)
    && (p in q.items ==>
          && q.items[p].path == p
          && !q.items[p].eventType.Moved?
          && (PassedOver(q.items[p]) <==> p in ignored)
          && (q.items[p].eventType.Deleted? <==> LastFor(log, p).value.event.eventType.Deleted?)
          && (!q.items[p].eventType.Deleted? ==> NoDeletion(log, p)))
  }

  lemma {:induction false} LastForIsNone(log: seq<Entry>, p: string)
    ensures LastFor(log, p).None? <==> forall i | 0 <= i < |log| :: log[i].event.path != p
  {
    if log != [] && log[|log| - 1].event.path != p {
      LastForIsNone(log[..|log| - 1], p);
      assert forall i | 0 <= i < |log| - 1 :: log[i] == log[..|log| - 1][i];
    }
  }

  lemma {:induction false} QueueHolds(log: seq<Entry>, ignored: set<string>)
    requires MoveFree(log, ignored) && !Coalesce(log).ambiguous
    ensures WellKept(Coalesce(log))
    ensures forall p :: HeldFor(Coalesce(log), log, ignored, p)
  {
    if log != [] {
      var front, e := log[..|log| - 1], log[|log| - 1].event;
      assert log == front + [log[|log| - 1]];
      QueueHolds(front, ignored);
      EnqueueKeeps(Coalesce(front), e);
      forall p
        ensures HeldFor(Coalesce(log), log, ignored, p)
      {
        assert HeldFor(Coalesce(front), front, ignored, p);
        LastForIsNone(front, p);
        assert NoDeletion(log, p) <==> NoDeletion(front, p) && (e.path == p ==> !e.eventType.Deleted?) by {
          assert forall i | 0 <= i < |front| :: log[i] == front[i];
        }
      }
    }
  }

  /** What replaying the log leaves at one path. */
  lemma {:induction false} ReplayAt(store: Store, log: seq<Entry>, reader: Reader, ignored: set<string>, p: string)
    requires MoveFree(log, ignored)
    ensures var there := Lookup(Replay(store, log, reader), p);
      && (p in ignored || LastFor(log, p).None? ==> there == Lookup(store, p))
      && (p !in ignored && LastFor(log, p).Some? && LastFor(log, p).value.event.eventType.Deleted? ==> there == None)
      && (p !in ignored && NoDeletion(log, p) ==>
            there == if LastParsed(log, p, reader).Some? then LastParsed(log, p, reader) else Lookup(store, p))
  {
    if log != [] {
      var front := log[..|log| - 1];
      ReplayAt(store, front, reader, ignored, p);
      assert NoDeletion(log, p) ==> NoDeletion(front, p) by {
        assert forall i | 0 <= i < |front| :: log[i] == front[i];
      }
    }
  }

  lemma {:induction false} BatchElsewhere(store: Store, batch: seq<Event>, now: map<string, string>, reader: Reader, p: string)
    requires forall i | 0 <= i < |batch| :: batch[i].path != p
    ensures Lookup(StoreAfter(store, batch, now, reader), p) == Lookup(store, p)
  {
    if batch != [] {
      BatchElsewhere(store, batch[..|batch| - 1], now, reader, p);
    }
  }

  lemma ApplyIsLocal(one: Store, other: Store, e: Event, content: Option<string>, reader: Reader)
    requires Lookup(one, e.path) == Lookup(other, e.path)
    ensures Lookup(ApplyEvent(one, e, content, reader), e.path) == Lookup(ApplyEvent(other, e, content, reader), e.path)
  {
  }

  /** A batch with one event per path leaves at its path what that event leaves there. */
  lemma {:induction false} BatchAt(store: Store, batch: seq<Event>, now: map<string, string>, reader: Reader, i: nat)
    requires i < |batch| && forall a, b | 0 <= a < b < |batch| :: batch[a].path != batch[b].path
    ensures var e := batch[i];
      Lookup(StoreAfter(store, batch, now, reader), e.path)
        == Lookup(ApplyEvent(store, e, Lookup(now, e.path), reader), e.path)
  {
    var n := |batch| - 1;
    if i == n {
      BatchElsewhere(store, batch[..n], now, reader, batch[i].path);
      ApplyIsLocal(StoreAfter(store, batch[..n], now, reader), store, batch[i], Lookup(now, batch[i].path), reader);
    } else {
      BatchAt(store, batch[..n], now, reader, i);
    }
  }

  /** Coalescing may drop the last content of p that could be parsed; here it does no harm. */
  ghost predicate Harmless(store: Store, log: seq<Entry>, reader: Reader, p: string) {
    var last := LastFor(log, p);
    last.Some? && !last.value.event.eventType.Deleted? && Parsed(p, last.value.content, reader).None? ==>
      LastParsed(log, p, reader).None? || LastParsed(log, p, reader) == Lookup(store, p)
  }

  lemma {:induction false} LastParsedIsLast(log: seq<Entry>, p: string, reader: Reader)
    requires LastFor(log, p).Some? && Parsed(p, LastFor(log, p).value.content, reader).Some?
    ensures LastParsed(log, p, reader) == Parsed(p, LastFor(log, p).value.content, reader)
  {
    if log[|log| - 1].event.path != p {
      LastParsedIsLast(log[..|log| - 1], p, reader);
    }
  }

  lemma CoalescedAt(store: Store, log: seq<Entry>, now: map<string, string>, reader: Reader, ignored: set<string>, p: string)
    requires MoveFree(log, ignored) && UpToDate(log, now) && !Coalesce(log).ambiguous
    requires WellKept(Coalesce(log)) && HeldFor(Coalesce(log), log, ignored, p)
    ensures Lookup(StoreAfter(store, Batch(Coalesce(log)), now, reader), p) == Lookup(Replay(store, log, reader), p)
      <==> p in ignored || Harmless(store, log, reader, p)
  {
    var q := Coalesce(log);
    var batch := Batch(q);
    forall i | 0 <= i < |batch|
      ensures batch[i].path == q.order[i]
    {
      assert q.order[i] in ToSet(q.order);
    }
    ReplayAt(store, log, reader, ignored, p);
    LastForIsNone(log, p);
    if p in q.items {
      assert p in ToSet(q.order);
      var i :| 0 <= i < |q.order| && q.order[i] == p;
      assert batch[i] == q.items[p];
      BatchAt(store, batch, now, reader, i);
      if Parsed(p, LastFor(log, p).value.content, reader).Some? {
        LastParsedIsLast(log, p, reader);
      }
    } else {
      BatchElsewhere(store, batch, now, reader, p);
    }
  }

  /**
   Applying the coalesced batch to files as they are now equals replaying the whole log event by
   event, if and only if every path whose last content cannot be parsed had nothing newer to
   lose: no logged content of it was parsed, or the store already held what was.
   */
  lemma CoalescingRefinesReplay(store: Store, log: seq<Entry>, now: map<string, string>, reader: Reader, ignored: set<string>)
    requires MoveFree(log, ignored) && UpToDate(log, now) && !Coalesce(log).ambiguous
    ensures WellKept(Coalesce(log))
    ensures StoreAfter(store, Batch(Coalesce(log)), now, reader) == Replay(store, log, reader)
      <==> forall p :: p in ignored || Harmless(store, log, reader, p)
  {
    QueueHolds(log, ignored);
    var one, other := StoreAfter(store, Batch(Coalesce(log)), now, reader), Replay(store, log, reader);
    forall p
      ensures Lookup(one, p) == Lookup(other, p) <==> p in ignored || Harmless(store, log, reader, p)
    {
      CoalescedAt(store, log, now, reader, ignored, p);
    }
    if forall p :: p in ignored || Harmless(store, log, reader, p) {
      forall p
        ensures Lookup(one, p) == Lookup(other, p)
      {
        assert p in ignored || Harmless(store, log, reader, p);
      }
      SameLookups(one, other);
    }
  }

  lemma SameLookups(one: Store, other: Store)
    requires forall p :: Lookup(one, p) == Lookup(other, p)
    ensures one == other
  {
    forall p
      ensures p in one <==> p in other
      ensures p in one && p in other ==> one[p] == other[p]
    {
      assert Lookup(one, p) == Lookup(other, p);
    }
  }

  /** When every logged content can be parsed the two always agree. */
  lemma ParsableLogsRefineReplay(store: Store, log: seq<Entry>, now: map<string, string>, reader: Reader, ignored: set<string>)
    requires MoveFree(log, ignored) && UpToDate(log, now) && !Coalesce(log).ambiguous
    requires forall i | 0 <= i < |log| && !log[i].event.eventType.Deleted? :: Parsed(log[i].event.path, log[i].content, reader).Some?
    ensures WellKept(Coalesce(log))
    ensures StoreAfter(store, Batch(Coalesce(log)), now, reader) == Replay(store, log, reader)
  {
    CoalescingRefinesReplay(store, log, now, reader, ignored);
    forall p
      ensures Harmless(store, log, reader, p)
    {
      LastIsLogged(log, p);
    }
  }

  lemma {:induction false} LastIsLogged(log: seq<Entry>, p: string)
    ensures LastFor(log, p).Some? ==> exists i :: 0 <= i < |log| && log[i] == LastFor(log, p).value && log[i].event.path == p
  {
    if log != [] {
      if log[|log| - 1].event.path == p {
        assert log[|log| - 1] == LastFor(log, p).value;
      } else if LastFor(log, p).Some? {
        LastIsLogged(log[..|log| - 1], p);
        var i :| 0 <= i < |log| - 1 && log[..|log| - 1][i] == LastFor(log, p).value;
        assert log[i] == LastFor(log, p).value;
      }
    }
  }

  /** A file created with readable content and then overwritten with unreadable content. */
  lemma LostContentExample(p: string, reader: Reader, good: string, bad: string)
    requires reader.parse(p, good).Some? && reader.parse(p, bad).None?
    ensures var e := Event(Created, p, RagDocument, None, NoRemark);
      var log := [Entry(e, Some(good)), Entry(e.(eventType := Modified), Some(bad))];
      && !Coalesce(log).ambiguous && WellKept(Coalesce(log)) && UpToDate(log, map[p := bad])
      && StoreAfter(map[], Batch(Coalesce(log)), map[p := bad], reader) != Replay(map[], log, reader)
  {
    var e := Event(Created, p, RagDocument, None, NoRemark);
    var log := [Entry(e, Some(good)), Entry(e.(eventType := Modified), Some(bad))];
    assert log[..1] == [log[0]] && log[..1][..0] == [];
    assert Coalesce(log[..1]) == Queue([p], map[p := e], false);
    assert Coalesce(log) == Queue([p], map[p := e], false);
    assert Batch(Coalesce(log)) == [e];
    assert [e][..0] == [];
    assert Replay(map[], log[..1], reader) == map[p := reader.parse(p, good).value];
  }

  /*** Which event is held ***/

  /** Event i of the log is about p, and no later one about p is of its type. */
  ghost predicate LatestOfItsType(log: seq<Entry>, i: nat, p: string) {
    && i < |log| && log[i].event.path == p
    && forall j: nat | i < j < |log| && log[j].event.path == p :: log[j].event.eventType != log[i].event.eventType
  }

  /** The event is the latest of its type, which is a deletion if the path was last deleted, else the first type. */
  ghost predicate HeldRightly(held: Event, log: seq<Entry>, p: string) {
    && (exists i: nat :: LatestOfItsType(log, i, p) && log[i].event == held)
    && LastFor(log, p).Some?
    && if LastFor(log, p).value.event.eventType.Deleted? then held.eventType.Deleted?
       else FirstType(log, p) == Some(held.eventType)
  }

  lemma EarlierHeld(log: seq<Entry>, p: string, held: Event)
    requires log != [] && HeldRightly(held, log[..|log| - 1], p)
    requires log[|log| - 1].event.path == p ==> log[|log| - 1].event.eventType != held.eventType
    ensures exists i: nat :: LatestOfItsType(log, i, p) && log[i].event == held
  {
    var front := log[..|log| - 1];
    var i: nat :| LatestOfItsType(front, i, p) && front[i].event == held;
    assert log[i] == front[i];
    assert forall j | 0 <= j < |front| :: log[j] == front[j];
    assert LatestOfItsType(log, i, p);
  }

  /** A queue that has not given up holds for each path the right one of its events, as it came. */
  lemma {:induction false} HeldEventIsExact(log: seq<Entry>, p: string)
    requires !Coalesce(log).ambiguous && p in Coalesce(log).items
    ensures HeldRightly(Coalesce(log).items[p], log, p)
  {
    var n := |log| - 1;
    var front, e := log[..n], log[n].event;
    FirstTypeIsFirst(front, p);
    if p in Coalesce(front).items {
      HeldEventIsExact(front, p);
    }
    if Coalesce(log).items[p] == e && e.path == p {
      assert LatestOfItsType(log, n, p);
      if p !in Coalesce(front).items {
        NeverSeen(front, p);
      }
    } else {
      EarlierHeld(log, p, Coalesce(log).items[p]);
    }
  }

  /** No earlier entry is for the same path. */
  ghost predicate FirstOfPath(log: seq<Entry>, i: nat) {
    i < |log| && forall j | 0 <= j < i :: log[j].event.path != log[i].event.path
  }

  /** The queue keeps the paths in the order in which they were first seen, each once. */
  lemma {:induction false} OrderIsFirstSeen(log: seq<Entry>) returns (at: seq<nat>)
    ensures WellKept(Coalesce(log))
    ensures |at| == |Coalesce(log).order|
    ensures forall k | 0 <= k < |at| :: at[k] < |log| && Coalesce(log).order[k] == log[at[k]].event.path
    ensures forall j, k | 0 <= j < k < |at| :: at[j] < at[k]
    ensures forall i: nat :: i in at <==> FirstOfPath(log, i)
  {
    at := [];
    if log != [] {
      var n := |log| - 1;
      var front, p := log[..n], log[n].event.path;
      at := OrderIsFirstSeen(front);
      EnqueueKeeps(Coalesce(front), log[n].event);
      NeverSeen(front, p);
      FirstTypeIsFirst(front, p);
      assert forall i: nat | i < n :: FirstOfPath(front, i) <==> FirstOfPath(log, i);
      if p !in Coalesce(front).items {
        at := at + [n];
        assert FirstOfPath(log, n);
      }
    }
  }

  /** Unless the queue has given up, the batch has one event for each path, in that order. */
  lemma BatchIsFirstSeen(log: seq<Entry>) returns (at: seq<nat>)
    requires !Coalesce(log).ambiguous
    ensures WellKept(Coalesce(log)) && |Batch(Coalesce(log))| == |at|
    ensures forall k | 0 <= k < |at| :: at[k] < |log| && Batch(Coalesce(log))[k].path == log[at[k]].event.path
    ensures forall j, k | 0 <= j < k < |at| :: at[j] < at[k]
    ensures forall i: nat :: i in at <==> FirstOfPath(log, i)
  {
    at := OrderIsFirstSeen(log);
    var q := Coalesce(log);
    forall k | 0 <= k < |at|
      ensures Batch(q)[k].path == log[at[k]].event.path
    {
      assert q.order[k] in ToSet(q.order);
    }
  }

  lemma {:induction false} NeverSeen(log: seq<Entry>, p: string)
    ensures p in Coalesce(log).items <==> FirstType(log, p).Some?
  {
    if log != [] {
      NeverSeen(log[..|log| - 1], p);
    }
  }

  /*** When the queue gives up ***/

  /** No earlier entry has the path of entry i. */
  ghost predicate IsFirst(log: seq<Entry>, i: nat)
    requires i < |log|
  {
    forall h: nat | h < i :: log[h].event.path != log[i].event.path
  }

  /** Entry j cannot follow entry i of the same path: life after a deletion, or creation after modification. */
  ghost predicate Clash(log: seq<Entry>, i: nat, j: nat) {
    && i < j < |log|
    && log[i].event.path == log[j].event.path
    && (|| (log[i].event.eventType.Deleted? && !log[j].event.eventType.Deleted?)
        || (IsFirst(log, i) && log[i].event.eventType.Modified? && log[j].event.eventType.Created?))
  }

  /** Entry j clashes with an earlier one. */
  ghost predicate Clashes(log: seq<Entry>, j: nat) {
    exists i: nat :: Clash(log, i, j)
  }

  /** The type of the first entry for a path. */
  function FirstType(log: seq<Entry>, p: string): Option<EventType> {
    if log == [] then None
    else
      var before := FirstType(log[..|log| - 1], p);
      if before.Some? then before
      else if log[|log| - 1].event.path == p then Some(log[|log| - 1].event.eventType)
      else None
  }

  lemma {:induction false} FirstTypeIsFirst(log: seq<Entry>, p: string)
    ensures FirstType(log, p).None? <==> forall i | 0 <= i < |log| :: log[i].event.path != p
    ensures forall i: nat | i < |log| && log[i].event.path == p && IsFirst(log, i) :: FirstType(log, p) == Some(log[i].event.eventType)
    ensures FirstType(log, p).Some? ==> exists i: nat :: i < |log| && log[i].event.path == p && IsFirst(log, i)
  {
    if log != [] {
      var n := |log| - 1;
      var front := log[..n];
      FirstTypeIsFirst(front, p);
      assert forall i | 0 <= i < n :: log[i] == front[i];
      assert forall i: nat | i < n :: IsFirst(log, i) <==> IsFirst(front, i);
      if FirstType(front, p).Some? {
        var i: nat :| i < n && front[i].event.path == p && IsFirst(front, i);
        assert log[i].event.path == p && IsFirst(log, i);
      } else if log[n].event.path == p {
        assert IsFirst(log, n);
      }
    }
  }

  /** The held type: deleted if the last entry is, otherwise that of the first entry. */
  ghost predicate TypeHeld(q: Queue, log: seq<Entry>, p: string) {
    p in q.items ==>
      && FirstType(log, p).Some?
      && (q.items[p].eventType.Deleted? <==> !NoDeletion(log, p))
      && (!q.items[p].eventType.Deleted? ==> FirstType(log, p) == Some(q.items[p].eventType))
  }

  lemma {:induction false} TypesHeld(log: seq<Entry>, ignored: set<string>)
    requires MoveFree(log, ignored) && !Coalesce(log).ambiguous
    ensures forall p :: TypeHeld(Coalesce(log), log, p)
    ensures forall p :: p in Coalesce(log).items <==> FirstType(log, p).Some?
  {
    if log != [] {
      var front, e := log[..|log| - 1], log[|log| - 1].event;
      TypesHeld(front, ignored);
      forall p
        ensures TypeHeld(Coalesce(log), log, p)
        ensures p in Coalesce(log).items <==> FirstType(log, p).Some?
      {
        assert TypeHeld(Coalesce(front), front, p);
        FirstTypeIsFirst(front, p);
        assert NoDeletion(log, p) <==> NoDeletion(front, p) && (e.path == p ==> !e.eventType.Deleted?) by {
          assert forall i | 0 <= i < |front| :: log[i] == front[i];
        }
      }
    }
  }

  lemma ClashAtEnd(log: seq<Entry>, ignored: set<string>)
    requires log != [] && MoveFree(log, ignored) && !Coalesce(log[..|log| - 1]).ambiguous
    ensures Coalesce(log).ambiguous <==> Clashes(log, |log| - 1)
  {
    var n := |log| - 1;
    var front, e := log[..n], log[n].event;
    var q := Coalesce(front);
    TypesHeld(front, ignored);
    FirstTypeIsFirst(front, e.path);
    assert TypeHeld(q, front, e.path);
    assert forall i | 0 <= i < n :: log[i] == front[i];
    assert forall i: nat | i < n :: IsFirst(log, i) <==> IsFirst(front, i);
    if Coalesce(log).ambiguous {
      if q.items[e.path].eventType.Deleted? {
        var i: nat :| i < n && front[i].event.path == e.path && front[i].event.eventType.Deleted?;
        assert Clash(log, i, n);
      } else {
        var i: nat :| i < n && front[i].event.path == e.path && IsFirst(front, i);
        assert Clash(log, i, n);
      }
    }
  }

  /** The queue gives up exactly on logs with two clashing entries. */
  lemma {:induction false} AmbiguousExactly(log: seq<Entry>, ignored: set<string>)
    requires MoveFree(log, ignored)
    ensures Coalesce(log).ambiguous <==> exists j: nat :: Clashes(log, j)
  {
    if log != [] {
      var n := |log| - 1;
      var front := log[..n];
      AmbiguousExactly(front, ignored);
      assert forall i | 0 <= i < n :: log[i] == front[i];
      forall j: nat | j < n
        ensures Clashes(log, j) <==> Clashes(front, j)
      {
        forall i: nat
          ensures Clash(log, i, j) <==> Clash(front, i, j)
        {
          if i < j {
            assert IsFirst(log, i) <==> IsFirst(front, i);
          }
        }
      }
      if Coalesce(front).ambiguous {
        var j: nat :| Clashes(front, j);
        assert Clashes(log, j);
      } else {
        ClashAtEnd(log, ignored);
      }
    }
  }

  /** A use of the queue: put an event in, or drain it. */
  datatype Use = Put(event: Event) | Take

  function Used(q: Queue, uses: seq<Use>): Queue
    decreases |uses|
  {
    if uses == [] then q
    else Used(if uses[0].Put? then Enqueued(q, uses[0].event) else AfterDrain(q), uses[1..])
  }

  /** Once the queue has given up, every later drain returns the full-rebuild event and nothing else. */
  lemma {:induction false} GivingUpIsFinal(q: Queue, uses: seq<Use>)
    requires q.ambiguous && WellKept(q)
    ensures Used(q, uses).ambiguous && WellKept(Used(q, uses))
    ensures Batch(Used(q, uses)) == [Event(Modified, "", Unsupported, None, AmbiguousEventSequence)]
    decreases |uses|
  {
    if uses != [] {
      if uses[0].Put? {
        EnqueueKeeps(q, uses[0].event);
        GivingUpIsFinal(Enqueued(q, uses[0].event), uses[1..]);
      } else {
        GivingUpIsFinal(q, uses[1..]);
      }
    }
  }

  /** The rebuild event changes nothing in the store and asks for a full rebuild. */
  lemma RebuildEventIsSafe(store: Store, now: map<string, string>, reader: Reader)
    ensures StoreAfter(store, [REBUILD_EVENT], now, reader) == store
    ensures ReportAfter([REBUILD_EVENT], now, reader).fullRebuild
  {
    assert [REBUILD_EVENT][..0] == [];
  }

  /*** The report of one event ***/

  /** A file event that is to be read: neither passed over, nor a rename with a source, nor a deletion. */
  predicate IsRead(e: Event) {
    !PassedOver(e) && !(e.eventType == Moved && e.source.Some?) && e.eventType != Deleted
  }

  predicate Readable(e: Event, content: Option<string>, reader: Reader) {
    content.Some? && reader.parse(e.path, content.value).Some?
  }

  /** What becomes of one event, by its marks, its type and what is read. */
  lemma EventReportIsExact(e: Event, content: Option<string>, reader: Reader)
    ensures var r := ReportOf(e, content, reader);
      && (r.fullRebuild <==>
            || e.remark == AmbiguousEventSequence || e.remark == CrossScopeRename
            || (IsRead(e) && Readable(e, content, reader) && e.kind == StructuredTable && !reader.relationValid(e.path)))
      && (r.status == ValidationFailed <==> IsRead(e) && !Readable(e, content, reader))
      && (r.status == FullRebuildRequired <==> r.fullRebuild)
      && (r.status == Skipped <==>
            e.remark == TemporaryFileSkip || (e.kind == Unsupported && e.remark == NoRemark))
      && r.processed == (if PassedOver(e) then 0 else 1) && r.skipped == (if r.status == Skipped then 1 else 0)
      && r.deleted == (if !PassedOver(e) && e.eventType == Deleted then 1 else 0)
      && r.refreshed == (if IsRead(e) && Readable(e, content, reader) && !r.fullRebuild then 1 else 0)
      && r.problems == (if r.status == Ok then 0 else 1)
  {
  }

  /** What becomes of the store. */
  lemma EventEffectIsExact(store: Store, e: Event, content: Option<string>, reader: Reader)
    ensures ApplyEvent(store, e, content, reader) ==
      if !PassedOver(e) && e.eventType == Deleted then map q | q in store && q != e.path :: store[q]
      else if IsRead(e) && Readable(e, content, reader) then store[e.path := reader.parse(e.path, content.value).value]
      else store
  {
  }

  /*** The batch report ***/

  function Total(reports: seq<Report>, count: Report -> nat): nat {
    if reports == [] then 0 else Total(reports[..|reports| - 1], count) + count(reports[|reports| - 1])
  }

  /** The counters of a batch are the totals of its events' counters. */
  lemma {:induction false} BatchCountersAddUp(batch: seq<Event>, now: map<string, string>, reader: Reader)
    ensures var report, each := ReportAfter(batch, now, reader), Reports(batch, now, reader);
      && report.processed == Total(each, (r: Report) => r.processed)
      && report.skipped == Total(each, (r: Report) => r.skipped)
      && report.refreshed == Total(each, (r: Report) => r.refreshed)
      && report.deleted == Total(each, (r: Report) => r.deleted)
      && report.problems == Total(each, (r: Report) => r.problems)
  {
    if batch != [] {
      var n := |batch| - 1;
      BatchCountersAddUp(batch[..n], now, reader);
      assert Reports(batch, now, reader)[..n] == Reports(batch[..n], now, reader);
    }
  }

  function Reports(batch: seq<Event>, now: map<string, string>, reader: Reader): seq<Report> {
    seq(|batch|, i requires 0 <= i < |batch| => ReportOf(batch[i], Lookup(now, batch[i].path), reader))
  }

  predicate AnyRebuild(reports: seq<Report>) {
    exists i | 0 <= i < |reports| :: reports[i].fullRebuild
  }

  predicate AnyInvalid(reports: seq<Report>) {
    exists i | 0 <= i < |reports| :: reports[i].status.ValidationFailed?
  }

  lemma MergedStatus(target: Report, source: Report)
    requires target.status == (if target.fullRebuild then FullRebuildRequired else if target.status.ValidationFailed? then ValidationFailed else Ok)
    requires source.fullRebuild == source.status.FullRebuildRequired?
    ensures var merged := MergeReport(target, source);
      && merged.fullRebuild == (target.fullRebuild || source.fullRebuild)
      && merged.status ==
          (if merged.fullRebuild then FullRebuildRequired
           else if target.status.ValidationFailed? || source.status.ValidationFailed? then ValidationFailed
           else Ok)
  {
  }

  lemma ReportsAreConsistent(e: Event, content: Option<string>, reader: Reader)
    ensures var r := ReportOf(e, content, reader);
      r.fullRebuild == r.status.FullRebuildRequired? && r.processed + r.skipped <= 1
  {
  }

  /** A batch asks for a full rebuild if any event does, whatever the order; otherwise a failure shows. */
  lemma {:induction false} BatchStatusIsExact(batch: seq<Event>, now: map<string, string>, reader: Reader)
    ensures var report, each := ReportAfter(batch, now, reader), Reports(batch, now, reader);
      && report.fullRebuild == AnyRebuild(each)
      && report.status ==
          (if AnyRebuild(each) then FullRebuildRequired else if AnyInvalid(each) then ValidationFailed else Ok)
      && report.processed + report.skipped <= |batch|
  {
    if batch != [] {
      var n := |batch| - 1;
      BatchStatusIsExact(batch[..n], now, reader);
      var front := Reports(batch[..n], now, reader);
      var content := Lookup(now, batch[n].path);
      var last := ReportOf(batch[n], content, reader);
      ReportsAreConsistent(batch[n], content, reader);
      MergedStatus(ReportAfter(batch[..n], now, reader), last);
      assert Reports(batch, now, reader) == front + [last];
      AnySplits(front, last);
    }
  }

  lemma AnySplits(front: seq<Report>, last: Report)
    ensures AnyRebuild(front + [last]) <==> AnyRebuild(front) || last.fullRebuild
    ensures AnyInvalid(front + [last]) <==> AnyInvalid(front) || last.status.ValidationFailed?
  {
    var each := front + [last];
    assert each[|front|] == last;
    assert forall i | 0 <= i < |front| :: each[i] == front[i];
  }
}
