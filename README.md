# Agent collaboration timeline: a Dafny model

This project models the core of a small agent-collaboration service. A user runs one of four named agents (Devil, Insight, Research, Summarizer) on a topic. Agent responses are kept in an append-only log per topic. A dashboard then shows that log as a timeline grouped by agent and exports it as an HTML report.

The model has three parts. Each follows one source file.

- `TopicStore` (backend/agents/base.py) covers the TinyDB table of `{name, log}` documents.
  - `log_agent_response` appends an entry `{agent, content, timestamp}` to the log of the document named by the topic, or inserts a new document for that topic.
  - `get_topic_log` reads the log back.
  - The table's behaviour is first given on values: `Lookup` is `get_topic_log`, `AfterLog` is the table after one call, and `Replay` is the table after a sequence of calls. Those functions carry the proofs.
  - The class `Table` holds the documents in a `records` field. Its method `LogAgentResponse` updates that field in place, one document at a time, as TinyDB's `update` does.
  - The clock is the parameter `now`.
- `Api` (backend/main.py) covers the two HTTP handlers as functions that return a `Result`.
  - `run_agent` dispatches on the exact agent name. It answers 404 for an unknown name and 400 for Research without a truthy `query`.
  - `get_logs` answers 404 for an empty log.
  - The four agents' `run` functions are the fields of the `Agents` value.
- `Dashboard` (frontend/app.py) covers the client-side data shaping.
  - The `AGENT_VISUALS` lookup with its default, and the list of agents the picker offers.
  - The request path and payload.
  - The grouping of logs by agent (a loop over a `defaultdict`) and the stable sort of each group by timestamp.
  - The `generate_html_report` string builder (a loop that appends to a string).
  - Turning an ISO timestamp into display text is the parameter `formatTime`.
- `Text` holds the string operations the Python code relies on: `<=` on `str` (the sort key comparison) and `str.replace`. It also defines `IsSubstring`, the meaning of "the report contains" in the properties proved about the HTML report.
- `Wrappers` holds `Option`.

Timestamps are the ISO-8601 text of the clock reading, and they are ordered by Python's string comparison (`Text.TextLe`). This is the order the dashboard's `sorted(..., key=timestamp)` uses.

`run_agent` (backend/main.py:28-41) never calls `log_agent_response`. Any logging happens inside the agent modules, which are not part of this model. So `Api.RunAgent` makes no claim about the store.

## Model

| member | source | states |
|---|---|---|
| `TopicStore.Lookup` | backend/agents/base.py:27-29 | Returns `[]` when no document has the name. Otherwise it returns the log of the first document with that name. |
| `TopicStore.LookupFindsFirst` | backend/agents/base.py:27-29 | When some document has the name, a first such document exists and its log is what is read. |
| `TopicStore.LookupAfterLog` | backend/agents/base.py:16-25 | After an append, the named topic reads as its old log followed by the new entry. Every other topic reads exactly as before. A never-logged topic therefore reads `[entry]`. |
| `TopicStore.UpdateNamed` | backend/agents/base.py:22-23 | TinyDB's `update` keeps the table's size and every document's name. Every document with the topic's name gets the entry at the end of its log. Every other document is unchanged. |
| `TopicStore.AfterLog` | backend/agents/base.py:22-25 | Exactly one document `{topic, [entry]}` is added at the end when none had the name; otherwise the table keeps its size. Every document keeps its name. Documents with other names are untouched, and the matching one gets `log + [entry]`. |
| `TopicStore.LogKeepsNamesUnique` | backend/agents/base.py:22-25 | Because insertion happens only when `contains` is false, an append keeps "at most one document per name". |
| `TopicStore.LogKeepsSorted` | backend/agents/base.py:17-25 | If the new entry's timestamp is no earlier than every stored one, every log stays sorted by timestamp. |
| `TopicStore.Replay` | backend/agents/base.py:16-25 | Any sequence of calls only adds documents at the end. No document is removed, moved or renamed. |
| `TopicStore.ReplayLookup` | backend/agents/base.py:16-25 | After any sequence of calls, each topic's log is its old log followed by the entries of the calls naming that topic, in call order. |
| `TopicStore.ReplaySameTopic` | backend/agents/base.py:22-25 | N calls on one topic lengthen its log by exactly N, with the N entries in call order. |
| `TopicStore.ReplayKeepsSorted` | backend/agents/base.py:20-25 | When the clock readings never decrease, every topic's log stays sorted by timestamp through any sequence of calls. |
| `TopicStore.ReplayKeepsNamesUnique` | backend/agents/base.py:22-25 | Any sequence of calls keeps "at most one document per name". |
| `TopicStore.Table.constructor` | backend/agents/base.py:5 | A fresh table has no documents. |
| `TopicStore.Table.LogAgentResponse` | backend/agents/base.py:16-25 | The new table is `AfterLog` of the old one with the entry `{agent, content, now}`, whose agent and content are the arguments verbatim. The topic's log gains exactly that entry at the end, all other topics read as before, and unique names stay unique. |
| `Api.RunAgent` | backend/main.py:21-41 | An unknown name (case-sensitive exact match) gives 404 `Unknown agent: <name>`. Research without a truthy query gives 400. Otherwise the result is `{agent_name, topic, output}`: Research runs with `(topic, query)`, and the other three run with `topic` alone. |
| `Api.RejectionsAreDistinct` | backend/main.py:32-39 | A 404 happens exactly for unknown names. A 400 happens exactly for Research. |
| `Api.RejectionIgnoresAgents` | backend/main.py:28-39 | A rejected request does not depend on any agent, so no agent is run. |
| `Api.TopicOnlyAgentsIgnoreQuery` | backend/main.py:28-37 | Devil, Insight and Summarizer always succeed, and their result does not depend on `query`. |
| `Api.GetLogs` | backend/main.py:44-52 | Gives 404 exactly when the stored log is empty. Otherwise it returns `{topic, logs}` with the stored log unchanged. |
| `Api.GetLogsOfUnknownTopic` | backend/main.py:49-52 | A topic with no document reads as 404 "No logs found for this topic". |
| `Dashboard.VisualsFor` | frontend/app.py:28-34 | The four agents get their own icon and colour. Every other name gets the `"default"` visuals. |
| `Dashboard.UnknownAgentVisual` | frontend/app.py:68-69 | The `'Unknown'` fallback name gets the default visuals. |
| `Dashboard.SelectableAgents` | frontend/app.py:91-94 | The picker offers exactly Research, Summarizer, Insight, Devil, in that order. The last key, `"default"`, is dropped. |
| `Dashboard.BuildPayload` | frontend/app.py:98-100 | The payload always carries the topic. It carries `query`, verbatim, if and only if the choice is Research. |
| `Dashboard.PathName` | frontend/app.py:103 | The posted path segment holds no space. A name without spaces is posted unchanged. |
| `Dashboard.SelectableNamesHaveNoSpace` | frontend/app.py:103 | For every offered agent, `replace(' ', '_')` leaves the name unchanged. |
| `Dashboard.SelectableAgentsAreAccepted` | frontend/app.py:96-103 | For every offered agent, replacing spaces with underscores leaves the path name unchanged, and `run_agent` knows that name. The posted request fails only for Research with an empty query box, and then with 400. |
| `Dashboard.AgentOrderListsAgents` | frontend/app.py:126-131 | The group order lists every agent that occurs, once each, and no other. |
| `Dashboard.OfAgentMembers` | frontend/app.py:126-128 | A log is in an agent's group if and only if it is an input log carrying that agent. |
| `Dashboard.OfAgentConcat` | frontend/app.py:126-128 | Grouping distributes over concatenation, so each group keeps the input order. |
| `Dashboard.GroupSizesCoverAll` | frontend/app.py:126-128 | The group sizes add up to the number of logs. |
| `Dashboard.GroupByAgent` | frontend/app.py:126-128 | The dictionary's keys, in insertion order, are the agents in order of first appearance. Each key maps to that agent's logs in input order. |
| `Dashboard.SortByTimestamp` | frontend/app.py:138 | The sorted group is in non-decreasing timestamp order (Python string order) and is a permutation of the group. |
| `Dashboard.SortByTimestampIsStable` | frontend/app.py:138 | The sort is stable: logs with the same timestamp keep their input order. |
| `Dashboard.SortIsUnique` | frontend/app.py:138 | Sortedness and stability determine the result: any arrangement of the group that is sorted by timestamp and keeps the input order among equal timestamps is exactly `SortByTimestamp`'s result. |
| `Dashboard.BuildTimeline` | frontend/app.py:124-138 | There is one section per agent, in order of first appearance. Section i is `SectionFor` the i-th agent: its visuals, then its group sorted by timestamp. |
| `Dashboard.SectionFor` | frontend/app.py:131-138 | The logs a section shows are in non-decreasing timestamp order and are exactly the agent's group, as a permutation. |
| `Dashboard.GenerateHtmlReport` | frontend/app.py:51-83 | The report is the header, then one block per log in input order, then the closing tags. It starts with `<html><head><title>Agent Collaboration Report: ` followed by the topic, and it ends with `</body></html>`. |
| `Dashboard.ReportText` | frontend/app.py:53-83 | Every report text starts with the title prefix and the topic, and ends with `</body></html>`. |
| `Dashboard.EmptyReport` | frontend/app.py:53-82 | With no logs, the report is only the header followed by `</body></html>`. |
| `Dashboard.LogBlock` | frontend/app.py:68-80 | A log's `log-container` block contains the agent name and the content verbatim. |
| `Dashboard.ReportSplitsAt` | frontend/app.py:67-82 | For every log, the report is the header and the blocks of the earlier logs, then that log's block, then the blocks of the later logs and the closing tags. So there is one block per log, in input order. |
| `Dashboard.ReportShowsEachLog` | frontend/app.py:67-82 | The report contains every log's agent name and content verbatim. |
| `Text.TextLe` | frontend/app.py:138 | Python's `<=` on `str`, compared character by character by code point. A prefix of a string sorts no later than the string. |
| `Text.TextLeTotal` | frontend/app.py:138 | Any two timestamps are comparable, so sorting by them is well defined. |
| `Text.TextLeTransitive` | frontend/app.py:138 | The string order is transitive. |
| `Text.TextLeAntisymmetric` | frontend/app.py:138 | Two strings that sort no later than each other are equal. |
| `Text.ReplaceChar` | frontend/app.py:103 | `str.replace` with one-character arguments keeps the length. Every occurrence of the old character becomes the new one, and every other character stays in place. |

## Left out

- `call_llm` (backend/agents/base.py:9-14) is an HTTP call to a local text-generation server. It is not modelled.
- The agent modules `devil_agent`, `insight_agent`, `research_agent` and `summarizer_agent` are not part of this model.
  - Their `run` functions are opaque function values in `Api.Agents`, which treats them as deterministic.
  - Whether or when they log to the store, and their failures, are not modelled.
- TinyDB file persistence and JSON serialisation are not modelled. The table lives in memory, and a `Table` starts empty rather than with the contents of an existing file.
- The real clock (`datetime.utcnow().isoformat()`) is not modelled. The clock reading is the parameter `now`. Sortedness is proved under the hypothesis that the readings never decrease, which the real clock does not promise.
- `datetime.fromisoformat` and `strftime` are not modelled; they are the parameter `formatTime`. The `ValueError` path that skips a log with an unparsable timestamp (frontend/app.py:146-147) depends on that parsing and is left out, as is the exception such a timestamp would raise in the report.
- Logs missing a key are not modelled. Dashboard logs are the store's entries, which always carry `agent`, `content` and `timestamp`. The `KeyError` paths and the `'Unknown'` fallback for a missing `agent` therefore cannot arise. Only the visuals of the name `'Unknown'` are stated.
- FastAPI routing, the pydantic request model and the root route (backend/main.py:7-18) are framework plumbing. They are not modelled.
- The Streamlit page is left out. The timeline is modelled up to the data each section shows. Specifically, these parts are not modelled:
  - page setup and the server URLs (frontend/app.py:8-12);
  - wkhtmltopdf discovery (frontend/app.py:14-25) and the PDF export with its download button (frontend/app.py:150-164);
  - `fetch_logs`, with its `requests` call, its error paths and its cache (frontend/app.py:37-49), and the page's branches on its result (frontend/app.py:118-123);
  - the sidebar's title, text inputs and selectbox widget (frontend/app.py:87-89); only the list of agents it offers is modelled;
  - the run button's spinner, HTTP POST, messages and cache clearing (frontend/app.py:96-97, 102-108); only the payload and the path name are modelled;
  - the Refresh Logs button (frontend/app.py:110-112), the titles (frontend/app.py:115-116), and the section headings and expanders drawn with `st.markdown` and `st.expander` (frontend/app.py:133-136, 143-144).
- Concurrent appends are not modelled. Every call is sequential, and the source has no locking to model.
