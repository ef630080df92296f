/**
 * The HTTP handlers of backend/main.py: `run_agent` dispatches an agent name
 * to one of four agents and validates the Research query; `get_logs` reads a
 * topic's log and turns an empty one into "not found". The handlers' raised
 * `HTTPException`s are the `Err` values of `Result`.
 */
module Api {
  import opened Wrappers
  import TopicStore

  /** The body of `POST /run/{agent_name}`; `query` is `None` when the key is absent. */
  datatype RunRequest = RunRequest(topic: string, query: Option<string>)

  /** The JSON object `run_agent` returns. */
  datatype RunReply = RunReply(agent: string, topic: string, output: string)

  /** The JSON object `get_logs` returns. */
  datatype LogsReply = LogsReply(topic: string, logs: seq<TopicStore.Entry>)

  /** An `HTTPException(status_code, detail)`. */
  datatype HttpError = HttpError(status: int, detail: string)

  datatype Result<+T> = Ok(value: T) | Err(error: HttpError)

  /**
   * The `run` entry points of the four agent modules, whose code is not part
   * of this model: each maps its inputs to the generated text.
   */
  datatype Agents = Agents(
    devil: string -> string,
    insight: string -> string,
    research: (string, string) -> string,
    summarizer: string -> string)

  /** The names `run_agent` dispatches on (exact, case-sensitive). */
  predicate IsKnownAgent(name: string) {
    name == "Devil" || name == "Insight" || name == "Research" || name == "Summarizer"
  }

  /** Python truthiness of an optional string: neither `None` nor `""`. */
  predicate IsTruthy(query: Option<string>) {
    query.Some? && query.value != ""
  }

  const UnknownAgentStatus := 404
  const MissingQueryStatus := 400
  const NoLogsStatus := 404

  /** `run_agent(agent_name, request)`. */
  function RunAgent(agentName: string, request: RunRequest, agents: Agents): (r: Result<RunReply>)
    ensures !IsKnownAgent(agentName) ==> r == Err(HttpError(UnknownAgentStatus, "Unknown agent: " + agentName))
    ensures agentName == "Research" && !IsTruthy(request.query) ==>
              r == Err(HttpError(MissingQueryStatus, "Research agent requires a query"))
    ensures r.Ok? <==> IsKnownAgent(agentName) && (agentName == "Research" ==> IsTruthy(request.query))
    ensures r.Ok? ==> r.value.agent == agentName && r.value.topic == request.topic
    ensures r.Ok? && agentName == "Research" ==> r.value.output == agents.research(request.topic, request.query.value)
    ensures r.Ok? && agentName == "Devil" ==> r.value.output == agents.devil(request.topic)
    ensures r.Ok? && agentName == "Insight" ==> r.value.output == agents.insight(request.topic)
    ensures r.Ok? && agentName == "Summarizer" ==> r.value.output == agents.summarizer(request.topic)
  {
    var topic := request.topic;
    if agentName == "Devil" then
      Ok(RunReply(agentName, topic, agents.devil(topic)))
    else if agentName == "Insight" then
      Ok(RunReply(agentName, topic, agents.insight(topic)))
    else if agentName == "Research" then
      if !IsTruthy(request.query) then
        Err(HttpError(MissingQueryStatus, "Research agent requires a query"))
      else
        Ok(RunReply(agentName, topic, agents.research(topic, request.query.value)))
    else if agentName == "Summarizer" then
      Ok(RunReply(agentName, topic, agents.summarizer(topic)))
    else
      Err(HttpError(UnknownAgentStatus, "Unknown agent: " + agentName))
  }

  /**
   * The two rejections are told apart: an unknown name is never a 400, a
   * Research request is never a 404, and a 400 happens only for Research.
   */
  lemma RejectionsAreDistinct(agentName: string, request: RunRequest, agents: Agents)
    ensures RunAgent(agentName, request, agents).Err? ==>
              (RunAgent(agentName, request, agents).error.status == UnknownAgentStatus <==> !IsKnownAgent(agentName))
    ensures RunAgent(agentName, request, agents).Err? ==>
              (RunAgent(agentName, request, agents).error.status == MissingQueryStatus <==> agentName == "Research")
  {
  }

  /**
   * A rejected request invokes no agent: its outcome is the same whatever
   * the agents would have produced.
   */
  lemma RejectionIgnoresAgents(agentName: string, request: RunRequest, agents: Agents, others: Agents)
    requires RunAgent(agentName, request, agents).Err?
    ensures RunAgent(agentName, request, others) == RunAgent(agentName, request, agents)
  {
  }

  /**
   * Devil, Insight and Summarizer ignore `query`, and none of the agents
   * but the one named is consulted.
   */
  lemma TopicOnlyAgentsIgnoreQuery(agentName: string, topic: string, q1: Option<string>, q2: Option<string>, agents: Agents)
    requires agentName == "Devil" || agentName == "Insight" || agentName == "Summarizer"
    ensures RunAgent(agentName, RunRequest(topic, q1), agents) == RunAgent(agentName, RunRequest(topic, q2), agents)
    ensures RunAgent(agentName, RunRequest(topic, q1), agents).Ok?
  {
  }

  /** `get_logs(topic)` on the store's table. */
  function GetLogs(store: TopicStore.Table, topic: string): (r: Result<LogsReply>)
    reads store
    ensures r.Err? <==> TopicStore.Lookup(store.records, topic) == []
    ensures r.Err? ==> r.error == HttpError(NoLogsStatus, "No logs found for this topic")
    ensures r.Ok? ==> r.value.topic == topic && r.value.logs == TopicStore.Lookup(store.records, topic)
  {
    var logs := TopicStore.Lookup(store.records, topic);
    if logs == [] then Err(HttpError(NoLogsStatus, "No logs found for this topic"))
    else Ok(LogsReply(topic, logs))
  }

  /** A topic that has never been logged to reads as "not found". */
  lemma GetLogsOfUnknownTopic(store: TopicStore.Table, topic: string)
    requires !TopicStore.Has(store.records, topic)
    ensures GetLogs(store, topic) == Err(HttpError(NoLogsStatus, "No logs found for this topic"))
  {
  }
}
