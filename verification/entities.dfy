/**
 * The slice of the Brooklyn entity tree the host group looks at: Ambari
 * agents (leaves that may know their fully-qualified domain name) and other
 * entities (same-server wrappers, siblings) that hold children.
 */
module Entities {
  import opened Wrappers

  datatype Agent = Agent(id: string, fqdn: Option<string>)

  datatype Entity =
    | AgentEntity(agent: Agent)
    | Container(id: string, children: seq<Entity>)

  /** The agents at or below `e`, left to right. */
  function AgentsIn(e: Entity): seq<Agent>
    decreases e, 1
  {
    match e
    case AgentEntity(a) => [a]
    case Container(_, children) => AgentsInAll(children)
  }

  /** The agents at or below each entity of `es`, in the order of `es`. */
  function AgentsInAll(es: seq<Entity>): seq<Agent>
    decreases es, 0
  {
    if |es| == 0 then [] else AgentsIn(es[0]) + AgentsInAll(es[1..])
  }

  /** Collecting agents commutes with concatenating entity lists, so the order of entities is kept. */
  lemma {:induction false} AgentsInAllConcat(xs: seq<Entity>, ys: seq<Entity>)
    ensures AgentsInAll(xs + ys) == AgentsInAll(xs) + AgentsInAll(ys)
    decreases |xs|
  {
    if |xs| == 0 {
      assert xs + ys == ys;
    } else {
      assert (xs + ys)[0] == xs[0];
      assert (xs + ys)[1..] == xs[1..] + ys;
      AgentsInAllConcat(xs[1..], ys);
    }
  }

  /**
   * `AmbariHostGroupImpl.getAmbariAgents`: an entity that is an agent
   * contributes itself, any other entity contributes its agent descendants,
   * entity by entity.
   */
  method GetAmbariAgents(entities: seq<Entity>) returns (agents: seq<Agent>)
    ensures agents == AgentsInAll(entities)
    ensures forall i | 0 <= i < |entities| && entities[i].AgentEntity? :: entities[i].agent in agents
  {
    agents := [];
    for i := 0 to |entities|
      invariant agents == AgentsInAll(entities[..i])
    {
      var e := entities[i];
      match e {
        case AgentEntity(a) => agents := agents + [a];
        case Container(_, children) => agents := agents + AgentsInAll(children);
      }
      assert AgentsInAll([e]) == AgentsIn(e);
      AgentsInAllConcat(entities[..i], [e]);
      assert entities[..i + 1] == entities[..i] + [e];
    }
    assert entities[..|entities|] == entities;
    forall i | 0 <= i < |entities| && entities[i].AgentEntity?
      ensures entities[i].agent in agents
    {
      AgentsInAllConcat(entities[..i], entities[i..]);
      assert entities == entities[..i] + entities[i..];
      assert AgentsInAll(entities[i..]) == [entities[i].agent] + AgentsInAll(entities[i + 1..]);
    }
  }

  /** The FQDNs the agents know, in agent order, skipping agents whose FQDN is null. */
  function KnownFqdns(agents: seq<Agent>): seq<string> {
    if |agents| == 0 then []
    else
      var rest := KnownFqdns(agents[1..]);
      match agents[0].fqdn
      case Some(f) => [f] + rest
      case None => rest
  }

  /** Every FQDN comes from an agent, every known FQDN is kept, and there are at most as many as agents. */
  lemma {:induction false} KnownFqdnsExact(agents: seq<Agent>)
    ensures |KnownFqdns(agents)| <= |agents|
    ensures forall f :: f in KnownFqdns(agents) <==> Some(f) in AgentFqdns(agents)
  {
    if |agents| > 0 {
      KnownFqdnsExact(agents[1..]);
      assert AgentFqdns(agents) == [agents[0].fqdn] + AgentFqdns(agents[1..]);
    }
  }

  /** The `fqdn` sensor of each agent, null or not. */
  function AgentFqdns(agents: seq<Agent>): (r: seq<Option<string>>)
    ensures |r| == |agents|
    ensures forall i | 0 <= i < |agents| :: r[i] == agents[i].fqdn
  {
    seq(|agents|, i requires 0 <= i < |agents| => agents[i].fqdn)
  }

  /** Collecting FQDNs commutes with concatenation, so descendant order is kept. */
  lemma {:induction false} KnownFqdnsConcat(xs: seq<Agent>, ys: seq<Agent>)
    ensures KnownFqdns(xs + ys) == KnownFqdns(xs) + KnownFqdns(ys)
    decreases |xs|
  {
    if |xs| == 0 {
      assert xs + ys == ys;
    } else {
      assert (xs + ys)[0] == xs[0];
      assert (xs + ys)[1..] == xs[1..] + ys;
      KnownFqdnsConcat(xs[1..], ys);
    }
  }

  /**
   * `AmbariHostGroupImpl.getHostFQDNs`: walks the agent descendants of the
   * group's children and keeps each non-null FQDN.
   */
  method GetHostFQDNs(children: seq<Entity>) returns (fqdns: seq<string>)
    ensures fqdns == KnownFqdns(AgentsInAll(children))
    ensures |fqdns| <= |AgentsInAll(children)|
  {
    var agents := AgentsInAll(children);
    fqdns := [];
    for i := 0 to |agents|
      invariant fqdns == KnownFqdns(agents[..i])
    {
      var fqdn := agents[i].fqdn;
      if fqdn.Some? {
        fqdns := fqdns + [fqdn.value];
      }
      KnownFqdnsConcat(agents[..i], [agents[i]]);
      assert agents[..i + 1] == agents[..i] + [agents[i]];
      assert [agents[i]][1..] == [];
    }
    assert agents[..|agents|] == agents;
    KnownFqdnsExact(agents);
  }
}
