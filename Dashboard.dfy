/**
 * The data shaping of the Streamlit dashboard in frontend/app.py, without
 * its widgets: the per-agent visuals, the list of agents offered, the body
 * posted to `/run/{agent}`, the grouping and sorting of a topic's logs for
 * the timeline, and the HTML text of the exported report.
 *
 * Logs are the entries `GET /logs/{topic}` returns. Rendering a timestamp
 * (`fromisoformat` then `strftime`) is the parameter `formatTime`.
 */
module Dashboard {
  import opened Wrappers
  import opened Text
  import opened TopicStore
  import Api

  // ----- Agent visuals and the agent picker -----

  datatype Visual = Visual(icon: string, color: string)

  const DefaultVisual := Visual("\U{1F916}", "#9E9E9E")

  /** `AGENT_VISUALS`, keys in insertion order. */
  const AgentVisuals: seq<(string, Visual)> := [
    ("Research", Visual("\U{1F52C}", "#4CAF50")),
    ("Summarizer", Visual("\U{1F4DD}", "#2196F3")),
    ("Insight", Visual("\U{1F4A1}", "#FFC107")),
    ("Devil", Visual("\U{1F608}", "#F44336")),
    ("default", DefaultVisual)
  ]

  /** `d.get(key)` on a dictionary given by its items. */
  function Find(items: seq<(string, Visual)>, key: string): Option<Visual> {
    if items == [] then None
    else if items[0].0 == key then Some(items[0].1)
    else Find(items[1..], key)
  }

  /** The visuals of `name` in `AGENT_VISUALS`, or the `"default"` entry's when it has none. */
  function VisualsFor(name: string): (v: Visual)
    ensures name == "Research" ==> v == Visual("\U{1F52C}", "#4CAF50")
    ensures name == "Summarizer" ==> v == Visual("\U{1F4DD}", "#2196F3")
    ensures name == "Insight" ==> v == Visual("\U{1F4A1}", "#FFC107")
    ensures name == "Devil" ==> v == Visual("\U{1F608}", "#F44336")
    ensures !Api.IsKnownAgent(name) ==> v == DefaultVisual
  {
    FindInAgentVisuals(name);
    Find(AgentVisuals, name).GetOr(DefaultVisual)
  }

  lemma FindInAgentVisuals(name: string)
    ensures Find(AgentVisuals, name)
         == if name == "Research" then Some(Visual("\U{1F52C}", "#4CAF50"))
            else if name == "Summarizer" then Some(Visual("\U{1F4DD}", "#2196F3"))
            else if name == "Insight" then Some(Visual("\U{1F4A1}", "#FFC107"))
            else if name == "Devil" then Some(Visual("\U{1F608}", "#F44336"))
            else if name == "default" then Some(DefaultVisual)
            else None
  {
    var t := AgentVisuals;
    assert Find(t[4..], name) == if name == "default" then Some(DefaultVisual) else None;
    assert Find(t[3..], name) == if name == "Devil" then Some(t[3].1) else Find(t[4..], name);
    assert Find(t[2..], name) == if name == "Insight" then Some(t[2].1) else Find(t[3..], name);
    assert Find(t[1..], name) == if name == "Summarizer" then Some(t[1].1) else Find(t[2..], name);
  }

  /** The agent a log without an `agent` key is shown as gets the default visuals. */
  lemma UnknownAgentVisual()
    ensures VisualsFor("Unknown") == DefaultVisual
  {
  }

  /** The keys of `AGENT_VISUALS` the picker offers: every key but the last, `"default"`. */
  function SelectableAgents(): (agents: seq<string>)
    ensures agents == ["Research", "Summarizer", "Insight", "Devil"]
  {
    var keys := seq(|AgentVisuals|, i requires 0 <= i < |AgentVisuals| => AgentVisuals[i].0);
    keys[..|keys| - 1]
  }

  /**
   * The path segment posted to: the choice with every space replaced by an
   * underscore, so it holds no space, and a name without spaces is kept.
   */
  function PathName(choice: string): (name: string)
    ensures ' ' !in name
    ensures ' ' !in choice ==> name == choice
  {
    if ' ' !in choice then ReplaceAbsentChar(choice, ' ', '_'); ReplaceChar(choice, ' ', '_')
    else ReplaceChar(choice, ' ', '_')
  }

  /**
   * The JSON body posted for `choice`: always the topic, and the query text
   * exactly when the chosen agent is Research (`None` stands for an absent
   * key, which the backend reads as a missing query).
   */
  function BuildPayload(choice: string, topic: string, query: string): (p: Api.RunRequest)
    ensures p.topic == topic
    ensures p.query.Some? <==> choice == "Research"
    ensures p.query.Some? ==> p.query.value == query
  {
    if choice == "Research" then Api.RunRequest(topic, Some(query)) else Api.RunRequest(topic, None)
  }

  /**
   * Every agent the picker offers is posted under its own name, which
   * `run_agent` knows; the request then fails only for Research with an
   * empty query box, and then with 400.
   */
  lemma SelectableAgentsAreAccepted(choice: string, topic: string, query: string, agents: Api.Agents)
    requires choice in SelectableAgents()
    ensures PathName(choice) == choice && Api.IsKnownAgent(PathName(choice))
    ensures Api.RunAgent(PathName(choice), BuildPayload(choice, topic, query), agents).Err?
        <==> choice == "Research" && query == ""
    ensures Api.RunAgent(PathName(choice), BuildPayload(choice, topic, query), agents).Err? ==>
              Api.RunAgent(PathName(choice), BuildPayload(choice, topic, query), agents).error.status == 400
  {
    SelectableNamesHaveNoSpace(choice);
  }

  lemma SelectableNamesHaveNoSpace(choice: string)
    requires choice in SelectableAgents()
    ensures PathName(choice) == choice
  {
    assert ' ' !in choice;
  }

  // ----- Grouping by agent -----

  function Last(logs: seq<Entry>): Entry
    requires logs != []
  {
    logs[|logs| - 1]
  }

  /** The entries of `logs` whose agent is `agent`, in input order. */
  function OfAgent(logs: seq<Entry>, agent: string): seq<Entry>
    decreases |logs|
  {
    if logs == [] then []
    else OfAgent(logs[..|logs| - 1], agent) + (if Last(logs).agent == agent then [Last(logs)] else [])
  }

  /** The distinct agents of `logs` in order of first appearance: the key order of the grouping dictionary. */
  function AgentOrder(logs: seq<Entry>): seq<string>
    decreases |logs|
  {
    if logs == [] then []
    else
      var prior := AgentOrder(logs[..|logs| - 1]);
      if Last(logs).agent in prior then prior else prior + [Last(logs).agent]
  }

  predicate Distinct(names: seq<string>) {
    forall i, j :: 0 <= i < j < |names| ==> names[i] != names[j]
  }

  /** The agents named by `logs`. */
  function AgentsOf(logs: seq<Entry>): set<string> {
    set e | e in logs :: e.agent
  }

  /** The group order lists every agent that occurs, once each, and nothing else. */
  lemma {:induction false} AgentOrderListsAgents(logs: seq<Entry>)
    ensures Distinct(AgentOrder(logs))
    ensures forall a :: a in AgentOrder(logs) <==> a in AgentsOf(logs)
    decreases |logs|
  {
    if logs != [] {
      var prefix := logs[..|logs| - 1];
      AgentOrderListsAgents(prefix);
      assert logs == prefix + [Last(logs)];
      assert AgentsOf(logs) == AgentsOf(prefix) + {Last(logs).agent};
    }
  }

  /** A log lands in a group exactly when it is one of the input logs and carries that group's agent. */
  lemma {:induction false} OfAgentMembers(logs: seq<Entry>, agent: string, x: Entry)
    ensures x in OfAgent(logs, agent) <==> x in logs && x.agent == agent
    decreases |logs|
  {
    if logs != [] {
      var prefix := logs[..|logs| - 1];
      OfAgentMembers(prefix, agent, x);
      assert logs == prefix + [Last(logs)];
    }
  }

  /** An agent that does not occur has an empty group. */
  lemma OfAgentAbsent(logs: seq<Entry>, agent: string)
    requires agent !in AgentOrder(logs)
    ensures OfAgent(logs, agent) == []
  {
    AgentOrderListsAgents(logs);
    if OfAgent(logs, agent) != [] {
      OfAgentMembers(logs, agent, OfAgent(logs, agent)[0]);
    }
  }

  /** Grouping distributes over concatenation, so each group keeps the input order. */
  lemma {:induction false} OfAgentConcat(s: seq<Entry>, t: seq<Entry>, agent: string)
    ensures OfAgent(s + t, agent) == OfAgent(s, agent) + OfAgent(t, agent)
    decreases |t|
  {
    if t == [] {
      assert s + t == s;
    } else {
      var t' := t[..|t| - 1];
      assert (s + t)[..|s + t| - 1] == s + t';
      assert Last(s + t) == Last(t);
      OfAgentConcat(s, t', agent);
    }
  }

  /** Total size of the groups named by `agents`. */
  function GroupSizes(logs: seq<Entry>, agents: seq<string>): nat {
    if agents == [] then 0 else |OfAgent(logs, agents[0])| + GroupSizes(logs, agents[1..])
  }

  lemma {:induction false} GroupSizesStep(prefix: seq<Entry>, x: Entry, agents: seq<string>)
    requires Distinct(agents)
    ensures GroupSizes(prefix + [x], agents) == GroupSizes(prefix, agents) + if x.agent in agents then 1 else 0
    decreases |agents|
  {
    assert (prefix + [x])[..|prefix + [x]| - 1] == prefix;
    if agents != [] {
      GroupSizesStep(prefix, x, agents[1..]);
      assert x.agent in agents <==> x.agent == agents[0] || x.agent in agents[1..];
    }
  }

  lemma {:induction false} GroupSizesAppend(logs: seq<Entry>, agents: seq<string>, a: string)
    ensures GroupSizes(logs, agents + [a]) == GroupSizes(logs, agents) + |OfAgent(logs, a)|
    decreases |agents|
  {
    if agents == [] {
      assert agents + [a] == [a];
    } else {
      assert (agents + [a])[1..] == agents[1..] + [a];
      GroupSizesAppend(logs, agents[1..], a);
    }
  }

  /** The groups' sizes add up to the number of logs: every log is in exactly one group. */
  lemma {:induction false} GroupSizesCoverAll(logs: seq<Entry>)
    ensures GroupSizes(logs, AgentOrder(logs)) == |logs|
    decreases |logs|
  {
    if logs != [] {
      var prefix := logs[..|logs| - 1];
      var x := Last(logs);
      assert logs == prefix + [x];
      var prior := AgentOrder(prefix);
      GroupSizesCoverAll(prefix);
      AgentOrderListsAgents(prefix);
      if x.agent in prior {
        GroupSizesStep(prefix, x, prior);
      } else {
        GroupSizesStep(prefix, x, prior);
        GroupSizesAppend(logs, prior, x.agent);
        OfAgentAbsent(prefix, x.agent);
      }
    }
  }

  /**
   * The grouping loop over a `defaultdict` of lists: each log is appended to
   * the list of its agent; `order` is the dictionary's key order.
   */
  method GroupByAgent(logs: seq<Entry>) returns (order: seq<string>, groups: map<string, seq<Entry>>)
    ensures order == AgentOrder(logs)
    ensures forall a :: a in groups <==> a in order
    ensures forall a :: a in groups ==> groups[a] == OfAgent(logs, a)
  {
    order, groups := [], map[];
    for i := 0 to |logs|
      invariant order == AgentOrder(logs[..i])
      invariant forall a :: a in groups <==> a in order
      invariant forall a :: a in groups ==> groups[a] == OfAgent(logs[..i], a)
    {
      var log := logs[i];
      assert logs[..i + 1][..i] == logs[..i];
      assert Last(logs[..i + 1]) == log;
      var group := [];
      if log.agent in groups {
        group := groups[log.agent];
      } else {
        OfAgentAbsent(logs[..i], log.agent);
        order := order + [log.agent];
      }
      groups := groups[log.agent := group + [log]];
    }
    assert logs[..|logs|] == logs;
  }

  // ----- Sorting a group by timestamp -----

  function InsertByTimestamp(e: Entry, sorted: seq<Entry>): seq<Entry> {
    if sorted == [] then [e]
    else if TextLe(e.timestamp, sorted[0].timestamp) then [e] + sorted
    else [sorted[0]] + InsertByTimestamp(e, sorted[1..])
  }

  /**
   * Python's `sorted` keyed on the timestamp: the result is in non-decreasing
   * timestamp order and holds exactly the input logs.
   */
  function SortByTimestamp(logs: seq<Entry>): (sorted: seq<Entry>)
    ensures LogSorted(sorted)
    ensures multiset(sorted) == multiset(logs)
    decreases |logs|
  {
    if logs == [] then []
    else
      var rest := SortByTimestamp(logs[1..]);
      InsertStep(logs, rest);
      InsertByTimestamp(logs[0], rest)
  }

  /** Inserting the first log into the sorted rest gives a sorted arrangement of all the logs. */
  lemma InsertStep(logs: seq<Entry>, rest: seq<Entry>)
    requires logs != [] && LogSorted(rest) && multiset(rest) == multiset(logs[1..])
    ensures LogSorted(InsertByTimestamp(logs[0], rest))
    ensures multiset(InsertByTimestamp(logs[0], rest)) == multiset(logs)
  {
    InsertKeepsSorted(logs[0], rest);
    InsertPermutes(logs[0], rest);
    assert logs == [logs[0]] + logs[1..];
  }

  lemma {:induction false} InsertPermutes(e: Entry, sorted: seq<Entry>)
    ensures multiset(InsertByTimestamp(e, sorted)) == multiset(sorted) + multiset{e}
    decreases |sorted|
  {
    if sorted != [] && !TextLe(e.timestamp, sorted[0].timestamp) {
      InsertPermutes(e, sorted[1..]);
      assert sorted == [sorted[0]] + sorted[1..];
    }
  }

  lemma {:induction false} InsertKeepsSorted(e: Entry, sorted: seq<Entry>)
    requires LogSorted(sorted)
    ensures LogSorted(InsertByTimestamp(e, sorted))
    decreases |sorted|
  {
    if sorted != [] {
      var r := InsertByTimestamp(e, sorted);
      if TextLe(e.timestamp, sorted[0].timestamp) {
        forall j | 0 < j < |r| ensures TextLe(r[0].timestamp, r[j].timestamp) {
          if j > 1 {
            TextLeTransitive(e.timestamp, sorted[0].timestamp, sorted[j - 1].timestamp);
          }
        }
      } else {
        var head, tail := sorted[0], sorted[1..];
        var rest := InsertByTimestamp(e, tail);
        InsertKeepsSorted(e, tail);
        InsertPermutes(e, tail);
        TextLeTotal(e.timestamp, head.timestamp);
        forall j | 0 <= j < |rest| ensures TextLe(head.timestamp, rest[j].timestamp) {
          assert rest[j] in multiset(rest);
          if rest[j] != e {
            assert rest[j] in multiset(tail);
            var k :| 0 <= k < |tail| && tail[k] == rest[j];
            assert sorted[k + 1] == rest[j];
          }
        }
        assert r == [head] + rest;
      }
    }
  }

  /** The logs stamped exactly `stamp`, in order. */
  function StampedAt(logs: seq<Entry>, stamp: string): seq<Entry> {
    if logs == [] then []
    else (if logs[0].timestamp == stamp then [logs[0]] else []) + StampedAt(logs[1..], stamp)
  }

  lemma {:induction false} InsertIsStable(e: Entry, sorted: seq<Entry>, stamp: string)
    ensures StampedAt(InsertByTimestamp(e, sorted), stamp)
         == (if e.timestamp == stamp then [e] else []) + StampedAt(sorted, stamp)
    decreases |sorted|
  {
    if sorted != [] && !TextLe(e.timestamp, sorted[0].timestamp) {
      var r := InsertByTimestamp(e, sorted);
      assert r[1..] == InsertByTimestamp(e, sorted[1..]);
      InsertIsStable(e, sorted[1..], stamp);
      TextLeReflexive(e.timestamp);
    }
  }

  /** The sort is stable: logs with equal timestamps keep their input order. */
  lemma {:induction false} SortByTimestampIsStable(logs: seq<Entry>, stamp: string)
    ensures StampedAt(SortByTimestamp(logs), stamp) == StampedAt(logs, stamp)
    decreases |logs|
  {
    if logs != [] {
      SortByTimestampIsStable(logs[1..], stamp);
      InsertIsStable(logs[0], SortByTimestamp(logs[1..]), stamp);
    }
  }

  /** A log is among those stamped `stamp` exactly when it is one of the logs and carries that stamp. */
  lemma {:induction false} StampedAtMembers(logs: seq<Entry>, stamp: string, x: Entry)
    ensures x in StampedAt(logs, stamp) <==> x in logs && x.timestamp == stamp
    decreases |logs|
  {
    if logs != [] {
      StampedAtMembers(logs[1..], stamp, x);
      assert logs == [logs[0]] + logs[1..];
    }
  }

  /**
   * Two sorted sequences that list the same logs, in the same order, for
   * every timestamp start with the same log.
   */
  lemma SortedHeadsAgree(r: seq<Entry>, s: seq<Entry>)
    requires r != [] && s != [] && LogSorted(r) && LogSorted(s)
    requires forall stamp :: StampedAt(r, stamp) == StampedAt(s, stamp)
    ensures r[0] == s[0]
  {
    var t, u := r[0].timestamp, s[0].timestamp;
    assert StampedAt(r, t) == StampedAt(s, t);
    assert StampedAt(r, u) == StampedAt(s, u);
    StampedAtMembers(r, t, r[0]);
    StampedAtMembers(s, t, r[0]);
    StampedAtMembers(s, u, s[0]);
    StampedAtMembers(r, u, s[0]);
    var k :| 0 <= k < |s| && s[k] == r[0];
    var m :| 0 <= m < |r| && r[m] == s[0];
    TextLeReflexive(t);
    assert TextLe(u, t) by {
      if k > 0 {
        assert TextLe(s[0].timestamp, s[k].timestamp);
      }
    }
    assert TextLe(t, u) by {
      if m > 0 {
        assert TextLe(r[0].timestamp, r[m].timestamp);
      }
    }
    TextLeAntisymmetric(t, u);
    assert StampedAt(r, t)[0] == r[0];
    assert StampedAt(s, t)[0] == s[0];
  }

  /** Two sorted sequences that list the same logs, in the same order, for every timestamp are equal. */
  lemma {:induction false} SortedByStampsEqual(r: seq<Entry>, s: seq<Entry>)
    requires LogSorted(r) && LogSorted(s)
    requires forall stamp :: StampedAt(r, stamp) == StampedAt(s, stamp)
    ensures r == s
    decreases |r| + |s|
  {
    if r == [] && s != [] {
      StampedAtMembers(s, s[0].timestamp, s[0]);
      assert false;
    } else if r != [] && s == [] {
      StampedAtMembers(r, r[0].timestamp, r[0]);
      assert false;
    } else if r != [] {
      SortedHeadsAgree(r, s);
      forall stamp | true
        ensures StampedAt(r[1..], stamp) == StampedAt(s[1..], stamp)
      {
        var head := if r[0].timestamp == stamp then [r[0]] else [];
        assert StampedAt(r, stamp) == head + StampedAt(r[1..], stamp) == StampedAt(s, stamp) == head + StampedAt(s[1..], stamp);
        assert StampedAt(r[1..], stamp) == (head + StampedAt(r[1..], stamp))[|head|..];
        assert StampedAt(s[1..], stamp) == (head + StampedAt(s[1..], stamp))[|head|..];
      }
      SortedByStampsEqual(r[1..], s[1..]);
      assert r == [r[0]] + r[1..] && s == [s[0]] + s[1..];
    }
  }

  /**
   * Sorted order and stability pin the sort down: any arrangement of the
   * logs that is sorted by timestamp and keeps the input order among equal
   * timestamps is the sorted result.
   */
  lemma SortIsUnique(logs: seq<Entry>, arranged: seq<Entry>)
    requires LogSorted(arranged)
    requires forall stamp :: StampedAt(arranged, stamp) == StampedAt(logs, stamp)
    ensures arranged == SortByTimestamp(logs)
  {
    forall stamp | true
      ensures StampedAt(arranged, stamp) == StampedAt(SortByTimestamp(logs), stamp)
    {
      SortByTimestampIsStable(logs, stamp);
    }
    SortedByStampsEqual(arranged, SortByTimestamp(logs));
  }

  // ----- The timeline -----

  /** One agent's part of the timeline: its heading's visuals and its logs in display order. */
  datatype Section = Section(agent: string, visual: Visual, entries: seq<Entry>)

  /**
   * The section the dashboard shows for `agent`: its heading's visuals, then
   * exactly that agent's logs in non-decreasing timestamp order.
   */
  function SectionFor(logs: seq<Entry>, agent: string): (section: Section)
    ensures LogSorted(section.entries)
    ensures multiset(section.entries) == multiset(OfAgent(logs, agent))
  {
    Section(agent, VisualsFor(agent), SortByTimestamp(OfAgent(logs, agent)))
  }

  /**
   * The timeline of a topic: one section per agent in order of first
   * appearance, each listing that agent's logs sorted by timestamp.
   */
  method BuildTimeline(logs: seq<Entry>) returns (sections: seq<Section>)
    ensures |sections| == |AgentOrder(logs)|
    ensures forall i :: 0 <= i < |sections| ==> sections[i] == SectionFor(logs, AgentOrder(logs)[i])
  {
    var order, groups := GroupByAgent(logs);
    sections := [];
    for i := 0 to |order|
      invariant |sections| == i
      invariant forall k :: 0 <= k < i ==> sections[k] == SectionFor(logs, order[k])
    {
      var agent := order[i];
      var section := Section(agent, VisualsFor(agent), SortByTimestamp(groups[agent]));
      TimelineStep(logs, order, sections, section);
      sections := sections + [section];
    }
  }

  /** Appending the next agent's section keeps the timeline built so far correct. */
  lemma TimelineStep(logs: seq<Entry>, order: seq<string>, sections: seq<Section>, section: Section)
    requires |sections| < |order| && section == SectionFor(logs, order[|sections|])
    requires forall k :: 0 <= k < |sections| ==> sections[k] == SectionFor(logs, order[k])
    ensures forall k :: 0 <= k <= |sections| ==> (sections + [section])[k] == SectionFor(logs, order[k])
  {
  }

  // ----- The HTML report -----

  const ReportTitlePrefix := "<html><head><title>Agent Collaboration Report: "

  const ReportStyle :=
    "\n    <style>\n"
    + "        body { font-family: sans-serif; }\n"
    + "        .log-container { border-left: 4px solid; padding: 10px; margin-bottom: 10px; background-color: #f9f9f9; }\n"
    + "        .agent { font-weight: bold; font-size: 1.2em; }\n"
    + "        .timestamp { color: #555; font-size: 0.8em; }\n"
    + "        .content { margin-top: 5px; }\n"
    + "        h1, h2 { color: #333; }\n"
    + "    </style>\n"
    + "    </head><body>"

  const ReportFooter := "</body></html>"

  /** The text after the title's topic: the style sheet and the two headings. */
  function HeaderRest(topic: string): string {
    "</title>" + ReportStyle + "<h1>\U{1F916} Agent Collaboration Report</h1>" + "<h2>Topic: " + topic + "</h2><hr>"
  }

  function ReportHeader(topic: string): string {
    ReportTitlePrefix + topic + HeaderRest(topic)
  }

  function BlockOpen(color: string): string {
    "<div class=\"log-container\" style=\"border-left-color: " + color + ";\">"
  }

  function TimeLine(formatted: string): string {
    "<div class=\"timestamp\">\U{1F552} " + formatted + "</div>"
  }

  /** The `log-container` block of one log, which shows its agent's name and its content verbatim. */
  function LogBlock(log: Entry, formatTime: string -> string): (block: string)
    ensures IsSubstring(log.agent, block)
    ensures IsSubstring(log.content, block)
  {
    var visual := VisualsFor(log.agent);
    var beforeAgent := BlockOpen(visual.color) + "<div class=\"agent\">" + visual.icon + " ";
    var between := "</div>" + TimeLine(formatTime(log.timestamp)) + "<div class=\"content\"><p>";
    var afterContent := "</p></div>" + "</div>";
    SubstringsOfFive(beforeAgent, log.agent, between, log.content, afterContent);
    beforeAgent + log.agent + between + log.content + afterContent
  }

  /** The texts `render` gives the logs, one after another in input order. */
  function Joined(logs: seq<Entry>, render: Entry -> string): string
    decreases |logs|
  {
    if logs == [] then "" else Joined(logs[..|logs| - 1], render) + render(Last(logs))
  }

  /** The blocks of all logs, in input order. */
  function LogBlocks(logs: seq<Entry>, formatTime: string -> string): string {
    Joined(logs, log => LogBlock(log, formatTime))
  }

  /**
   * The whole report text for `logs` on `topic`: it opens with its title
   * line and closes with the closing tags.
   */
  function ReportText(logs: seq<Entry>, topic: string, formatTime: string -> string): (r: string)
    ensures |r| >= |ReportTitlePrefix + topic| && r[..|ReportTitlePrefix + topic|] == ReportTitlePrefix + topic
    ensures |r| >= |ReportFooter| && r[|r| - |ReportFooter|..] == ReportFooter
  {
    var opening, headerRest, blocks := ReportTitlePrefix + topic, HeaderRest(topic), LogBlocks(logs, formatTime);
    ConcatAssociates(opening, headerRest, blocks);
    ConcatAssociates(opening, headerRest + blocks, ReportFooter);
    ConcatParts(opening, headerRest + blocks + ReportFooter);
    ConcatParts(ReportHeader(topic) + blocks, ReportFooter);
    ReportHeader(topic) + blocks + ReportFooter
  }

  /** `generate_html_report(logs_data, topic)`. */
  method GenerateHtmlReport(logs: seq<Entry>, topic: string, formatTime: string -> string) returns (html: string)
    ensures html == ReportText(logs, topic, formatTime)
    ensures |html| >= |ReportTitlePrefix + topic| && html[..|ReportTitlePrefix + topic|] == ReportTitlePrefix + topic
    ensures |html| >= |ReportFooter| && html[|html| - |ReportFooter|..] == ReportFooter
  {
    var header := ReportHeader(topic);
    html := header;
    assert LogBlocks(logs[..0], formatTime) == "";
    ConcatAssociates(header, "", "");
    for i := 0 to |logs|
      invariant html == header + LogBlocks(logs[..i], formatTime)
    {
      LogBlocksStep(logs, i, formatTime);
      ConcatAssociates(header, LogBlocks(logs[..i], formatTime), LogBlock(logs[i], formatTime));
      html := html + LogBlock(logs[i], formatTime);
    }
    assert logs[..|logs|] == logs;
    html := html + ReportFooter;
  }

  lemma JoinedStep(logs: seq<Entry>, i: nat, render: Entry -> string)
    requires i < |logs|
    ensures Joined(logs[..i + 1], render) == Joined(logs[..i], render) + render(logs[i])
  {
    assert logs[..i + 1][..i] == logs[..i];
    assert Last(logs[..i + 1]) == logs[i];
  }

  lemma LogBlocksStep(logs: seq<Entry>, i: nat, formatTime: string -> string)
    requires i < |logs|
    ensures LogBlocks(logs[..i + 1], formatTime) == LogBlocks(logs[..i], formatTime) + LogBlock(logs[i], formatTime)
  {
    JoinedStep(logs, i, log => LogBlock(log, formatTime));
  }

  /** With no logs the report is the header followed by the closing tags. */
  lemma EmptyReport(topic: string, formatTime: string -> string)
    ensures ReportText([], topic, formatTime) == ReportHeader(topic) + "</body></html>"
  {
  }

  lemma {:induction false} JoinedConcat(s: seq<Entry>, t: seq<Entry>, render: Entry -> string)
    ensures Joined(s + t, render) == Joined(s, render) + Joined(t, render)
    decreases |t|
  {
    if t == [] {
      assert s + t == s;
    } else {
      var t' := t[..|t| - 1];
      assert (s + t)[..|s + t| - 1] == s + t';
      assert Last(s + t) == Last(t);
      JoinedConcat(s, t', render);
    }
  }

  /**
   * The report holds one block per log, in input order: the blocks of the
   * logs before `logs[i]`, then its own block, then the blocks of the logs
   * after it.
   */
  lemma ReportSplitsAt(logs: seq<Entry>, topic: string, formatTime: string -> string, i: nat)
    requires i < |logs|
    ensures ReportText(logs, topic, formatTime)
         == (ReportHeader(topic) + LogBlocks(logs[..i], formatTime)) + LogBlock(logs[i], formatTime)
            + (LogBlocks(logs[i + 1..], formatTime) + ReportFooter)
  {
    var header, blocksBefore, block, blocksAfter :=
      ReportHeader(topic), LogBlocks(logs[..i], formatTime), LogBlock(logs[i], formatTime), LogBlocks(logs[i + 1..], formatTime);
    assert logs == logs[..i + 1] + logs[i + 1..];
    JoinedConcat(logs[..i + 1], logs[i + 1..], l => LogBlock(l, formatTime));
    LogBlocksStep(logs, i, formatTime);
    assert LogBlocks(logs, formatTime) == (blocksBefore + block) + blocksAfter;
    ConcatAssociates(header, blocksBefore + block, blocksAfter);
    ConcatAssociates(header, blocksBefore, block);
    ConcatAssociates(header + blocksBefore + block, blocksAfter, ReportFooter);
  }

  /** The report shows every log's agent name and content verbatim. */
  lemma ReportShowsEachLog(logs: seq<Entry>, topic: string, formatTime: string -> string, i: nat)
    requires i < |logs|
    ensures IsSubstring(logs[i].agent, ReportText(logs, topic, formatTime))
    ensures IsSubstring(logs[i].content, ReportText(logs, topic, formatTime))
  {
    var before := ReportHeader(topic) + LogBlocks(logs[..i], formatTime);
    var after := LogBlocks(logs[i + 1..], formatTime) + ReportFooter;
    ReportSplitsAt(logs, topic, formatTime, i);
    SubstringWithin(logs[i].agent, LogBlock(logs[i], formatTime), before, after);
    SubstringWithin(logs[i].content, LogBlock(logs[i], formatTime), before, after);
  }
}
