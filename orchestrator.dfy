/**
  The orchestrator sample of agent_factory.py: the orchestrator agent takes a
  `FactoryDeps` holding an `AgentFactory` (modelled in `AgentRegistry`) preloaded with two
  agents, and is run once on a fixed prompt. The deps are built with a keyword argument
  the dataclass does not declare.
 */
module Orchestrator {
  import opened Results
  import opened AgentRegistry

  /** `FactoryDeps`: the dependencies the orchestrator's tools receive, the factory's
      agents. */
  datatype FactoryDeps = FactoryDeps(agents: seq<(string, AgentSpec)>)

  /** The fields `FactoryDeps` declares: the only keyword arguments its generated
      `__init__` accepts. */
  const FactoryDepsFields: seq<string> := ["factory"]

  /** `keywords[k]` is the first keyword argument that names no field. */
  predicate FirstUndeclared(fields: seq<string>, keywords: seq<string>, k: int) {
    0 <= k < |keywords| && keywords[k] !in fields && forall i :: 0 <= i < k ==> keywords[i] in fields
  }

  /** The first keyword argument, in call order, that names no declared field. */
  function UnexpectedKeyword(fields: seq<string>, keywords: seq<string>): (r: Option<string>)
    ensures r.None? <==> forall i :: 0 <= i < |keywords| ==> keywords[i] in fields
    ensures r.Some? ==> exists k :: FirstUndeclared(fields, keywords, k) && keywords[k] == r.value
  {
    if keywords == [] then None
    else if keywords[0] !in fields then Some(keywords[0])
    else
      var r := UnexpectedKeyword(fields, keywords[1..]);
      assert forall i :: 1 <= i < |keywords| ==> keywords[i] == keywords[1..][i - 1];
      if r.Some? then
        var k :| FirstUndeclared(fields, keywords[1..], k) && keywords[1..][k] == r.value;
        assert FirstUndeclared(fields, keywords, k + 1);
        r
      else r
  }

  /** The text of the `TypeError` a generated `__init__` raises for such an argument. */
  function UnexpectedKeywordText(className: string, keyword: string): string {
    className + ".__init__() got an unexpected keyword argument '" + keyword + "'"
  }

  /** `FactoryDeps(<keywords>=..., factory=AgentFactory(agents=factory))`: the deps, or
      the `TypeError` of the first keyword the dataclass does not declare. */
  function NewFactoryDeps(keywords: seq<string>, factory: seq<(string, AgentSpec)>): (r: Result<FactoryDeps, string>)
    ensures r.Success? <==> forall i :: 0 <= i < |keywords| ==> keywords[i] == "factory"
    ensures r.Success? ==> r.value.agents == factory
  {
    match UnexpectedKeyword(FactoryDepsFields, keywords)
    case Some(keyword) => Failure(UnexpectedKeywordText("FactoryDeps", keyword))
    case None => Success(FactoryDeps(factory))
  }

  /** `orchestrator.run_sync(prompt, deps=deps)`, an external call. */
  type Orchestrate = (string, FactoryDeps) -> Result<string, string>

  const SamplePrompt := "Respond today's date and weather."
  const SampleModel := "openai:gpt-4o-mini"

  /** `default_agents`: two unnamed agents without a system prompt, each with one tool. */
  const DefaultAgents: seq<(string, AgentSpec)> := [
    ("get_today", AgentSpec(SampleModel, None, "", ["get_today"])),
    ("get_weather", AgentSpec(SampleModel, None, "", ["get_weather"]))
  ]

  /** `run_orchestrator_sample` as written: the deps are built with `tools=[]` before
      `factory=...`, so building them raises and the orchestrator is never run, whatever
      it would do. */
  function RunOrchestratorSampleAsWritten(orchestrate: Orchestrate): (r: Result<string, string>)
    ensures r == Failure(UnexpectedKeywordText("FactoryDeps", "tools"))
  {
    assert UnexpectedKeyword(FactoryDepsFields, ["tools", "factory"]) == Some("tools");
    match NewFactoryDeps(["tools", "factory"], DefaultAgents)
    case Failure(e) => Failure(e)
    case Success(deps) => orchestrate(SamplePrompt, deps)
  }

  /** `run_orchestrator_sample` as evidently intended: the deps carry just the factory, and
      the orchestrator runs once, on the sample prompt, over the two default agents. */
  function RunOrchestratorSample(orchestrate: Orchestrate): (r: Result<string, string>)
    ensures r == orchestrate(SamplePrompt, FactoryDeps(DefaultAgents))
  {
    assert NewFactoryDeps(["factory"], DefaultAgents).Success?;
    match NewFactoryDeps(["factory"], DefaultAgents)
    case Failure(e) => Failure(e)
    case Success(deps) => orchestrate(SamplePrompt, deps)
  }
}
