/**
  The agent registry: `AgentFactory` keeps agents by name in a Python dict, which
  remembers the order its keys were first inserted. It lists the names, creates (or
  replaces) an agent under a name, and runs a named agent on an instruction.
 */
module AgentRegistry {
  import opened Results

  /** What an `Agent(...)` is built from: the model name, the agent's own name, its system
      prompt and the names of its tools. */
  datatype AgentSpec = AgentSpec(model: string, name: Option<string>, systemPrompt: string, tools: seq<string>)

  /** `agent.run(instruction)` followed by `.data`, an external call; a failure carries
      the text of the exception it raised. */
  type Runner = (AgentSpec, string) -> Result<string, string>

  const CreatedModel := "gemini-1.5-pro"
  const NotFound := "Agent not found"
  const Created := "Success"

  // ---------------------------------------------------------------- ordered dictionary

  /** The keys in insertion order. */
  function Keys(d: seq<(string, AgentSpec)>): (keys: seq<string>)
    ensures |keys| == |d|
    ensures forall i :: 0 <= i < |d| ==> keys[i] == d[i].0
  {
    if d == [] then [] else [d[0].0] + Keys(d[1..])
  }

  predicate Distinct(names: seq<string>) {
    forall i, j :: 0 <= i < j < |names| ==> names[i] != names[j]
  }

  /** `d.get(key)`. */
  function Lookup(d: seq<(string, AgentSpec)>, key: string): (r: Option<AgentSpec>)
    ensures r.None? <==> key !in Keys(d)
    ensures r.Some? ==> exists i :: 0 <= i < |d| && d[i] == (key, r.value)
  {
    if d == [] then None
    else if d[0].0 == key then Some(d[0].1)
    else
      var r := Lookup(d[1..], key);
      assert Keys(d) == [d[0].0] + Keys(d[1..]);
      if r.Some? then
        var i :| 0 <= i < |d[1..]| && d[1..][i] == (key, r.value);
        assert d[i + 1] == (key, r.value);
        r
      else r
  }

  /** `d[key] = value`: an existing key keeps its place and takes the new value; a new
      key goes last. */
  function Assign(d: seq<(string, AgentSpec)>, key: string, value: AgentSpec): seq<(string, AgentSpec)> {
    if d == [] then [(key, value)]
    else if d[0].0 == key then [(key, value)] + d[1..]
    else [d[0]] + Assign(d[1..], key, value)
  }

  /** After `d[key] = value`, `key` gives `value` and every other key what it gave before. */
  lemma {:induction false} AssignLookup(d: seq<(string, AgentSpec)>, key: string, value: AgentSpec, other: string)
    ensures Lookup(Assign(d, key, value), key) == Some(value)
    ensures other != key ==> Lookup(Assign(d, key, value), other) == Lookup(d, other)
  {
    if d != [] && d[0].0 != key {
      AssignLookup(d[1..], key, value, other);
      assert Assign(d, key, value)[1..] == Assign(d[1..], key, value);
    }
  }

  /** Assigning to a present key leaves the key list as it was; a new key is appended. */
  lemma {:induction false} AssignKeys(d: seq<(string, AgentSpec)>, key: string, value: AgentSpec)
    ensures key in Keys(d) ==> Keys(Assign(d, key, value)) == Keys(d)
    ensures key !in Keys(d) ==> Keys(Assign(d, key, value)) == Keys(d) + [key]
  {
    if d != [] {
      assert Keys(d) == [d[0].0] + Keys(d[1..]);
      if d[0].0 != key {
        AssignKeys(d[1..], key, value);
        assert Keys(Assign(d, key, value)) == [d[0].0] + Keys(Assign(d[1..], key, value));
      } else {
        assert Keys(Assign(d, key, value)) == [key] + Keys(d[1..]);
      }
    }
  }

  /** Keys stay distinct under assignment. */
  lemma AssignDistinct(d: seq<(string, AgentSpec)>, key: string, value: AgentSpec)
    requires Distinct(Keys(d))
    ensures Distinct(Keys(Assign(d, key, value)))
  {
    AssignKeys(d, key, value);
  }

  // ---------------------------------------------------------------- the factory

  /** `AgentFactory`: the agents by name, in the order their names were first created. */
  class AgentFactory {
    var agents: seq<(string, AgentSpec)>

    ghost predicate Valid()
      reads this
    {
      Distinct(Keys(agents))
    }

    /** `AgentFactory()`: no agents. */
    constructor ()
      ensures Valid() && agents == []
    {
      agents := [];
    }

    /** `AgentFactory(agents=...)`, from a dict literal, whose keys are distinct. */
    constructor FromAgents(agents: seq<(string, AgentSpec)>)
      requires Distinct(Keys(agents))
      ensures Valid() && this.agents == agents
    {
      this.agents := agents;
    }

    /** `get_agent_names`: every registered name exactly once, in insertion order. */
    method GetAgentNames() returns (names: seq<string>)
      requires Valid()
      ensures Distinct(names)
      ensures |names| == |agents| && forall i :: 0 <= i < |agents| ==> names[i] == agents[i].0
      ensures forall name :: name in names <==> Lookup(agents, name).Some?
    {
      names := Keys(agents);
    }

    /** `run_agent`: the named agent's answer to the instruction, or `"Agent not found"`
        without running anything. A failing run raises. */
    method RunAgent(run: Runner, name: string, instruction: string) returns (r: Result<string, string>)
      requires Valid()
      ensures name !in Keys(agents) ==> r == Success(NotFound)
      ensures forall i :: 0 <= i < |agents| && agents[i].0 == name ==> r == run(agents[i].1, instruction)
    {
      var agent := Lookup(agents, name);
      if agent.None? {
        return Success(NotFound);
      }
      r := run(agent.value, instruction);
      forall i | 0 <= i < |agents| && agents[i].0 == name
        ensures r == run(agents[i].1, instruction)
      {
        var j :| 0 <= j < |agents| && agents[j] == (name, agent.value);
        assert Keys(agents)[i] == Keys(agents)[j];
      }
    }

    /** `create_agent`: a new agent on the fixed model with that name and prompt is
        registered under the name, replacing any agent already there. */
    method CreateAgent(name: string, systemPrompt: string) returns (r: string)
      requires Valid()
      modifies this
      ensures Valid()
      ensures agents == Assign(old(agents), name, AgentSpec(CreatedModel, Some(name), systemPrompt, []))
      ensures r == Created
    {
      var agent := AgentSpec(CreatedModel, Some(name), systemPrompt, []);
      AssignDistinct(agents, name, agent);
      agents := Assign(agents, name, agent);
      r := Created;
    }

    /** `save_agent`: does nothing. */
    method SaveAgent()
      ensures agents == old(agents)
    {
    }
  }

  /** Creating an agent and then running it by name runs the new agent, whatever was
      registered under that name before; the list of names grows only for a new name. */
  method CreateThenRun(factory: AgentFactory, run: Runner, name: string, systemPrompt: string, instruction: string)
    returns (names: seq<string>, r: Result<string, string>)
    requires factory.Valid()
    modifies factory
    ensures names == if name in Keys(old(factory.agents)) then Keys(old(factory.agents)) else Keys(old(factory.agents)) + [name]
    ensures r == run(AgentSpec(CreatedModel, Some(name), systemPrompt, []), instruction)
  {
    var created := factory.CreateAgent(name, systemPrompt);
    AssignKeys(old(factory.agents), name, AgentSpec(CreatedModel, Some(name), systemPrompt, []));
    AssignLookup(old(factory.agents), name, AgentSpec(CreatedModel, Some(name), systemPrompt, []), name);
    names := factory.GetAgentNames();
    r := factory.RunAgent(run, name, instruction);
    var i :| 0 <= i < |factory.agents| && factory.agents[i] == (name, AgentSpec(CreatedModel, Some(name), systemPrompt, []));
  }
}
