/**
 * The topic log store of backend/agents/base.py: one table of documents
 * `{name, log}`, one document per topic, where `log` is a list of entries
 * `{agent, content, timestamp}`.
 *
 * The table's behaviour is first given on values (`Lookup`, `AfterLog`,
 * `Replay`) and proved about; the class `Table` then holds the table as a
 * field and updates it in place the way the source does.
 */
module TopicStore {
  import opened Text

  /** One log entry; `timestamp` is the ISO-8601 text of the clock reading. */
  datatype Entry = Entry(agent: string, content: string, timestamp: string)

  /** One document of the table. */
  datatype TopicRecord = TopicRecord(name: string, log: seq<Entry>)

  /** Some document is named `topic` (TinyDB's `contains` with a query on the name). */
  predicate Has(records: seq<TopicRecord>, topic: string) {
    exists i :: 0 <= i < |records| && records[i].name == topic
  }

  /** `i` is the position of the first document named `topic`. */
  predicate IsFirstMatch(records: seq<TopicRecord>, topic: string, i: int) {
    && 0 <= i < |records|
    && records[i].name == topic
    && forall j :: 0 <= j < i ==> records[j].name != topic
  }

  /** At most one document carries any given name. */
  predicate UniqueNames(records: seq<TopicRecord>) {
    forall i, j :: 0 <= i < j < |records| ==> records[i].name != records[j].name
  }

  /**
   * `get_topic_log(topic)`: the log of the first document named `topic`,
   * or the empty list when there is none.
   */
  function Lookup(records: seq<TopicRecord>, topic: string): (log: seq<Entry>)
    ensures !Has(records, topic) ==> log == []
    ensures forall i :: IsFirstMatch(records, topic, i) ==> log == records[i].log
  {
    if records == [] then []
    else if records[0].name == topic then records[0].log
    else
      LookupTail(records, topic);
      Lookup(records[1..], topic)
  }

  lemma LookupTail(records: seq<TopicRecord>, topic: string)
    requires records != [] && records[0].name != topic
    ensures Has(records, topic) == Has(records[1..], topic)
    ensures forall i :: IsFirstMatch(records, topic, i) ==> IsFirstMatch(records[1..], topic, i - 1)
  {
  }

  /** When some document is named `topic`, a first one exists, so `Lookup` returns its log. */
  lemma {:induction false} LookupFindsFirst(records: seq<TopicRecord>, topic: string)
    requires Has(records, topic)
    ensures exists i :: IsFirstMatch(records, topic, i) && Lookup(records, topic) == records[i].log
  {
    if records[0].name == topic {
      assert IsFirstMatch(records, topic, 0);
    } else {
      LookupTail(records, topic);
      LookupFindsFirst(records[1..], topic);
      var i :| IsFirstMatch(records[1..], topic, i) && Lookup(records[1..], topic) == records[1..][i].log;
      assert IsFirstMatch(records, topic, i + 1);
    }
  }

  /** The change `db.update` makes to one document: a document named `topic` gets `e` at the end of its log. */
  function AppendIfNamed(r: TopicRecord, topic: string, e: Entry): TopicRecord {
    if r.name == topic then r.(log := r.log + [e]) else r
  }

  /**
   * TinyDB's `update` with a query on the name: every document named `topic`
   * gets `e` appended to its log, in place, and no other document changes.
   */
  function UpdateNamed(records: seq<TopicRecord>, topic: string, e: Entry): (r: seq<TopicRecord>)
    ensures |r| == |records|
    ensures forall i :: 0 <= i < |records| ==> r[i].name == records[i].name
    ensures forall i :: 0 <= i < |records| && records[i].name != topic ==> r[i] == records[i]
    ensures forall i :: 0 <= i < |records| && records[i].name == topic ==> r[i].log == records[i].log + [e]
  {
    seq(|records|, i requires 0 <= i < |records| => AppendIfNamed(records[i], topic, e))
  }

  /**
   * The table after `log_agent_response` has recorded `e` under `topic`: a
   * new document `{topic, [e]}` is added at the end exactly when none was
   * named `topic`, otherwise the table keeps its size; every existing
   * document keeps its name, those named otherwise are untouched, and those
   * named `topic` get `e` at the end of their log.
   */
  function AfterLog(records: seq<TopicRecord>, topic: string, e: Entry): (r: seq<TopicRecord>)
    ensures |r| == if Has(records, topic) then |records| else |records| + 1
    ensures !Has(records, topic) ==> r[|records|] == TopicRecord(topic, [e])
    ensures forall i :: 0 <= i < |records| ==> r[i].name == records[i].name
    ensures forall i :: 0 <= i < |records| && records[i].name != topic ==> r[i] == records[i]
    ensures forall i :: 0 <= i < |records| && records[i].name == topic ==> r[i].log == records[i].log + [e]
  {
    if Has(records, topic) then UpdateNamed(records, topic, e)
    else records + [TopicRecord(topic, [e])]
  }

  lemma {:induction false} LookupUpdateNamed(records: seq<TopicRecord>, topic: string, e: Entry, other: string)
    ensures Lookup(UpdateNamed(records, topic, e), other)
         == if other == topic && Has(records, topic) then Lookup(records, other) + [e] else Lookup(records, other)
    decreases |records|
  {
    var updated := UpdateNamed(records, topic, e);
    if records != [] {
      assert updated[0] == AppendIfNamed(records[0], topic, e);
      if records[0].name != other {
        assert updated[1..] == UpdateNamed(records[1..], topic, e);
        LookupUpdateNamed(records[1..], topic, e, other);
        if other == topic {
          LookupTail(records, topic);
        }
      }
    }
  }

  lemma {:induction false} LookupAddedRecord(records: seq<TopicRecord>, r: TopicRecord, other: string)
    requires !Has(records, r.name)
    ensures Lookup(records + [r], other) == if other == r.name then r.log else Lookup(records, other)
    decreases |records|
  {
    if records == [] {
      assert records + [r] == [r];
    } else {
      assert (records + [r])[1..] == records[1..] + [r];
      if records[0].name != other {
        LookupAddedRecord(records[1..], r, other);
      }
    }
  }

  /**
   * Reading after an append: the named topic's log is the old log followed by
   * the new entry, and every other topic reads exactly as before.
   */
  lemma LookupAfterLog(records: seq<TopicRecord>, topic: string, e: Entry, other: string)
    ensures Lookup(AfterLog(records, topic, e), other)
         == if other == topic then Lookup(records, other) + [e] else Lookup(records, other)
  {
    if Has(records, topic) {
      LookupUpdateNamed(records, topic, e, other);
    } else {
      LookupAddedRecord(records, TopicRecord(topic, [e]), other);
    }
  }

  /** Appending keeps "at most one document per name". */
  lemma LogKeepsNamesUnique(records: seq<TopicRecord>, topic: string, e: Entry)
    requires UniqueNames(records)
    ensures UniqueNames(AfterLog(records, topic, e))
  {
  }

  // ----- Ordering by timestamp -----

  /** Timestamps never decrease along the log (Python string order). */
  predicate LogSorted(log: seq<Entry>) {
    forall i, j :: 0 <= i < j < |log| ==> TextLe(log[i].timestamp, log[j].timestamp)
  }

  predicate AllLogsSorted(records: seq<TopicRecord>) {
    forall i :: 0 <= i < |records| ==> LogSorted(records[i].log)
  }

  /** Every timestamp in the table is at or before `now`. */
  predicate StampedBy(records: seq<TopicRecord>, now: string) {
    forall i, k :: 0 <= i < |records| && 0 <= k < |records[i].log| ==> TextLe(records[i].log[k].timestamp, now)
  }

  /** An entry stamped no earlier than everything already stored keeps every log sorted. */
  lemma LogKeepsSorted(records: seq<TopicRecord>, topic: string, e: Entry)
    requires AllLogsSorted(records) && StampedBy(records, e.timestamp)
    ensures AllLogsSorted(AfterLog(records, topic, e))
    ensures StampedBy(AfterLog(records, topic, e), e.timestamp)
  {
  }

  /** Stamps at or before `now` are also at or before any later reading `later`. */
  lemma StampedByLater(records: seq<TopicRecord>, now: string, later: string)
    requires StampedBy(records, now) && TextLe(now, later)
    ensures StampedBy(records, later)
  {
    forall i, k | 0 <= i < |records| && 0 <= k < |records[i].log|
      ensures TextLe(records[i].log[k].timestamp, later)
    {
      TextLeTransitive(records[i].log[k].timestamp, now, later);
    }
  }

  // ----- Sequences of calls -----

  /** One call `log_agent_response(topic, agent, content)` made while the clock read `timestamp`. */
  datatype Call = Call(topic: string, agent: string, content: string, timestamp: string)

  function EntryOf(c: Call): Entry {
    Entry(c.agent, c.content, c.timestamp)
  }

  /**
   * The table after the calls, made one after another. Documents are only
   * ever added at the end: none is removed, moved or renamed.
   */
  function Replay(records: seq<TopicRecord>, calls: seq<Call>): (r: seq<TopicRecord>)
    ensures |records| <= |r|
    ensures forall i :: 0 <= i < |records| ==> r[i].name == records[i].name
    decreases |calls|
  {
    if calls == [] then records
    else Replay(AfterLog(records, calls[0].topic, EntryOf(calls[0])), calls[1..])
  }

  /** The entries the calls for `topic` create, in call order. */
  function EntriesFor(calls: seq<Call>, topic: string): seq<Entry> {
    if calls == [] then []
    else (if calls[0].topic == topic then [EntryOf(calls[0])] else []) + EntriesFor(calls[1..], topic)
  }

  /**
   * After any sequence of calls, each topic's log is its old log followed by
   * the entries of the calls naming that topic, in call order: nothing is
   * lost, reordered or attributed to another topic.
   */
  lemma {:induction false} ReplayLookup(records: seq<TopicRecord>, calls: seq<Call>, topic: string)
    ensures Lookup(Replay(records, calls), topic) == Lookup(records, topic) + EntriesFor(calls, topic)
    decreases |calls|
  {
    if calls != [] {
      var next := AfterLog(records, calls[0].topic, EntryOf(calls[0]));
      LookupAfterLog(records, calls[0].topic, EntryOf(calls[0]), topic);
      ReplayLookup(next, calls[1..], topic);
    }
  }

  /** N calls on one topic lengthen its log by exactly N, with the entries in call order. */
  lemma ReplaySameTopic(records: seq<TopicRecord>, calls: seq<Call>, topic: string)
    requires forall c :: c in calls ==> c.topic == topic
    ensures Lookup(Replay(records, calls), topic) == Lookup(records, topic) + seq(|calls|, i requires 0 <= i < |calls| => EntryOf(calls[i]))
    ensures |Lookup(Replay(records, calls), topic)| == |Lookup(records, topic)| + |calls|
  {
    ReplayLookup(records, calls, topic);
    EntriesForAll(calls, topic);
  }

  lemma {:induction false} EntriesForAll(calls: seq<Call>, topic: string)
    requires forall c :: c in calls ==> c.topic == topic
    ensures EntriesFor(calls, topic) == seq(|calls|, i requires 0 <= i < |calls| => EntryOf(calls[i]))
    decreases |calls|
  {
    if calls != [] {
      EntriesForAll(calls[1..], topic);
    }
  }

  /** The calls' clock readings never decrease. */
  predicate ClockMonotone(calls: seq<Call>) {
    forall i, j :: 0 <= i < j < |calls| ==> TextLe(calls[i].timestamp, calls[j].timestamp)
  }

  /**
   * If the clock never runs backwards, every topic's log stays sorted by
   * timestamp, and every stored stamp stays at or before the latest reading.
   */
  lemma {:induction false} ReplayKeepsSorted(records: seq<TopicRecord>, calls: seq<Call>)
    requires calls != [] && ClockMonotone(calls)
    requires AllLogsSorted(records) && StampedBy(records, calls[0].timestamp)
    ensures AllLogsSorted(Replay(records, calls))
    ensures StampedBy(Replay(records, calls), calls[|calls| - 1].timestamp)
    decreases |calls|
  {
    var next := AfterLog(records, calls[0].topic, EntryOf(calls[0]));
    LogKeepsSorted(records, calls[0].topic, EntryOf(calls[0]));
    if |calls| > 1 {
      StampedByLater(next, calls[0].timestamp, calls[1].timestamp);
      ReplayKeepsSorted(next, calls[1..]);
    }
  }

  /** Any sequence of calls keeps "at most one document per name". */
  lemma {:induction false} ReplayKeepsNamesUnique(records: seq<TopicRecord>, calls: seq<Call>)
    requires UniqueNames(records)
    ensures UniqueNames(Replay(records, calls))
    decreases |calls|
  {
    if calls != [] {
      LogKeepsNamesUnique(records, calls[0].topic, EntryOf(calls[0]));
      ReplayKeepsNamesUnique(AfterLog(records, calls[0].topic, EntryOf(calls[0])), calls[1..]);
    }
  }

  /** The table `db`, whose documents `log_agent_response` changes in place. */
  class Table {
    var records: seq<TopicRecord>

    /** A table with no documents yet. */
    constructor ()
      ensures records == []
    {
      records := [];
    }

    /**
     * `log_agent_response(topic, agent, content)` with the clock reading
     * `now`: appends `{agent, content, now}` to the log of every document
     * named `topic`, or inserts `{topic, [entry]}` when there is none.
     */
    method LogAgentResponse(topic: string, agent: string, content: string, now: string)
      modifies this
      ensures records == AfterLog(old(records), topic, Entry(agent, content, now))
      ensures Lookup(records, topic) == Lookup(old(records), topic) + [Entry(agent, content, now)]
      ensures forall other :: other != topic ==> Lookup(records, other) == Lookup(old(records), other)
      ensures UniqueNames(old(records)) ==> UniqueNames(records)
    {
      var entry := Entry(agent, content, now);
      if Has(records, topic) {
        var i := 0;
        while i < |records|
          invariant 0 <= i <= |records| == |old(records)|
          invariant forall j :: 0 <= j < i ==> records[j] == AppendIfNamed(old(records)[j], topic, entry)
          invariant forall j :: i <= j < |records| ==> records[j] == old(records)[j]
        {
          if records[i].name == topic {
            records := records[i := records[i].(log := records[i].log + [entry])];
          }
          i := i + 1;
        }
        assert records == UpdateNamed(old(records), topic, entry);
      } else {
        records := records + [TopicRecord(topic, [entry])];
      }
      assert records == AfterLog(old(records), topic, entry);
      LookupAfterLog(old(records), topic, entry, topic);
      forall other | other != topic
        ensures Lookup(records, other) == Lookup(old(records), other)
      {
        LookupAfterLog(old(records), topic, entry, other);
      }
      if UniqueNames(old(records)) {
        LogKeepsNamesUnique(old(records), topic, entry);
      }
    }
  }
}
