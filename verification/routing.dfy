/** The route stage (server.ts, routeToAgent): the classification call is offered
    one function per agent, and the name of the function it calls picks the agent. */
module Routing {
  import opened Wrappers
  import opened Agents

  const SELECT_BILLING: string := "selectBillingAgent"
  const SELECT_SAFETY: string := "selectSafetyAgent"
  const SELECT_LOST_AND_FOUND: string := "selectLostAndFoundAgent"
  const SELECT_GENERAL_INQUIRY: string := "selectGeneralInquiryAgent"

  /** The function declared for each agent in the tool list of the classification call. */
  function ToolName(a: Agent): string
  {
    match a
    case Billing => SELECT_BILLING
    case Safety => SELECT_SAFETY
    case LostFound => SELECT_LOST_AND_FOUND
    case General => SELECT_GENERAL_INQUIRY
  }

  const ROUTING_PREFIX: string := "Based on the following query, which agent should be selected? Query: \""

  /** The prompt of the classification call. */
  function RoutingPrompt(query: string): string
  {
    ROUTING_PREFIX + query + "\""
  }

  /** The classification call sees the whole query, quoted: distinct queries give
      distinct prompts. */
  lemma RoutingPromptQuotesQuery(query: string, query': string)
    ensures RoutingPrompt(query)[|ROUTING_PREFIX|..|RoutingPrompt(query)| - 1] == query
    ensures RoutingPrompt(query) == RoutingPrompt(query') <==> query == query'
  {
  }

  /** The switch on the name of the first function call, if there is one. */
  function AgentFor(functionCall: Option<string>): Agent
  {
    match functionCall
    case None => General
    case Some(name) =>
      if name == SELECT_BILLING then Billing
      else if name == SELECT_SAFETY then Safety
      else if name == SELECT_LOST_AND_FOUND then LostFound
      else General
  }

  /** Calling the function declared for an agent routes to that agent. */
  lemma {:induction false} AgentForToolName(a: Agent)
    ensures AgentFor(Some(ToolName(a))) == a
  {
    match a
    case Billing =>
    case Safety =>
      assert SELECT_SAFETY[6] != SELECT_BILLING[6];
    case LostFound =>
      assert SELECT_LOST_AND_FOUND[6] != SELECT_BILLING[6];
      assert SELECT_LOST_AND_FOUND[6] != SELECT_SAFETY[6];
    case General =>
      assert SELECT_GENERAL_INQUIRY[6] != SELECT_BILLING[6];
      assert SELECT_GENERAL_INQUIRY[6] != SELECT_SAFETY[6];
      assert SELECT_GENERAL_INQUIRY[6] != SELECT_LOST_AND_FOUND[6];
  }

  /** Each specialised agent is chosen exactly by its own function name; every other
      name, and no function call at all, falls back to the general agent. */
  lemma AgentForSpec(functionCall: Option<string>)
    ensures AgentFor(functionCall) == Billing <==> functionCall == Some(SELECT_BILLING)
    ensures AgentFor(functionCall) == Safety <==> functionCall == Some(SELECT_SAFETY)
    ensures AgentFor(functionCall) == LostFound <==> functionCall == Some(SELECT_LOST_AND_FOUND)
    ensures AgentFor(functionCall) == General <==>
      (functionCall.None? ||
       functionCall.value !in {SELECT_BILLING, SELECT_SAFETY, SELECT_LOST_AND_FOUND})
  {
  }
}
