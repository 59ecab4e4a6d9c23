/** The four support agents, the static knowledge base and the persona
    instruction of each agent (server.ts, the constant tables). */
module Agents {

  /** `type Agent = 'BILLING' | 'SAFETY' | 'LOST_FOUND' | 'GENERAL'`. */
  datatype Agent = Billing | Safety | LostFound | General

  /** The agents in the key order of the knowledge-base record literal. */
  const AGENT_ORDER: seq<Agent> := [Billing, Safety, LostFound, General]

  /** The key order lists every agent. */
  lemma AgentOrderComplete()
    ensures forall a: Agent :: a in AGENT_ORDER
  {
    forall a: Agent
      ensures a in AGENT_ORDER
    {
      match a
      case Billing => assert AGENT_ORDER[0] == a;
      case Safety => assert AGENT_ORDER[1] == a;
      case LostFound => assert AGENT_ORDER[2] == a;
      case General => assert AGENT_ORDER[3] == a;
    }
  }

  /** A record from agent to its ordered list of policy snippets. */
  datatype KnowledgeBase = KnowledgeBase(
    billing: seq<string>, safety: seq<string>, lostFound: seq<string>, general: seq<string>)
  {
    /** `knowledgeBase[agent]`. */
    function Docs(a: Agent): seq<string>
    {
      match a
      case Billing => billing
      case Safety => safety
      case LostFound => lostFound
      case General => general
    }

    /** `Object.values(knowledgeBase).flat()`: every snippet, agent by agent in key order. */
    function AllTexts(): seq<string>
    {
      billing + safety + lostFound + general
    }
  }

  /** The compiled-in knowledge base. */
  const KNOWLEDGE_BASE: KnowledgeBase := KnowledgeBase(
    [
      "Refunds for rides with significant detours are processed within 5-7 business days.",
      "Cancellation fees are applied if a user cancels 2 minutes after a driver has been assigned.",
      "Users can update their payment methods at any time in the 'Wallet' section of the app.",
      "Promotional codes must be applied before the ride is requested to be valid.",
      "A cleaning fee of up to $150 may be charged if a rider damages or soils a driver's vehicle.",
      "Trip fares are calculated based on a base fare, plus per-minute and per-mile rates that vary by city.",
      "If a payment method fails, the user's account will be placed on hold until the outstanding balance is paid.",
      "Tolls, surcharges, and airport fees are automatically added to the final fare.",
      "Users can request a fare review if they believe the route taken was inefficient."
    ],
    [
      "All safety incidents must be reported via the in-app Safety Center for official documentation.",
      "All drivers undergo a mandatory annual background check.",
      "In case of an emergency, users should always contact local authorities first by dialing 911.",
      "Our 'Share My Ride' feature allows users to share their live location with trusted contacts.",
      "If the driver shown in the app does not match the driver who arrives, the user should not get in the car and report the issue immediately.",
      "We have a zero-tolerance policy for drugs and alcohol for all drivers.",
      "Service animals are legally permitted in all vehicles, but pets are allowed at the driver's discretion."
    ],
    [
      "Users can contact their driver directly through the app for up to 24 hours after the ride ends to inquire about a lost item.",
      "If the driver is unresponsive after 24 hours, the user should file a lost item report with support.",
      "A $15 returned item fee is charged to the user to compensate the driver for their time.",
      "We are not liable for items lost in vehicles, but we will do our best to facilitate a return.",
      "Unclaimed items reported to our support center will be held for 30 days before being donated or disposed of."
    ],
    [
      "Users can rate their driver and provide feedback at the end of each trip.",
      "The app's 'Scheduled Rides' feature allows booking a trip up to 30 days in advance.",
      "Our premium service offers newer vehicles and top-rated drivers.",
      "Ride receipts are automatically sent to the user's registered email address after each trip.",
      "The primary account holder must be 18 or older. Minors are not permitted to travel unaccompanied.",
      "Our loyalty program offers points for every dollar spent, which can be redeemed for ride credits."
    ])

  /** Every agent has snippets in the compiled-in knowledge base: nine for billing,
      seven for safety, five for lost & found and six for general inquiries. */
  lemma KnowledgeBaseSnippets()
    ensures forall a: Agent :: |KNOWLEDGE_BASE.Docs(a)| > 0
    ensures |KNOWLEDGE_BASE.billing| == 9 && |KNOWLEDGE_BASE.safety| == 7
    ensures |KNOWLEDGE_BASE.lostFound| == 5 && |KNOWLEDGE_BASE.general| == 6
  {
  }

  /** The persona (system instruction) the generation call is configured with, per agent. */
  function SystemInstruction(a: Agent): string
  {
    match a
    case Billing =>
      "You are an expert customer care agent for a ride-hailing app, specializing in billing. You must use the provided context from the knowledge base to answer the user's query. If the context is relevant, base your answer on it. Provide clear, empathetic, and concise answers for issues like incorrect charges, refund requests, and promotion problems. Always state the ride ID if provided. Suggest concrete next steps."
    case Safety =>
      "You are a highly sensitive and trained customer care agent for a ride-hailing app, specializing in safety. You must use the provided context from the knowledge base to answer the user's query. If the context is relevant, base your answer on it. Handle reports of accidents, driver conduct, or harassment with utmost seriousness and empathy. Provide clear instructions and resources for reporting the incident formally. Prioritize user safety."
    case LostFound =>
      "You are a helpful customer care agent for a ride-hailing app, specializing in lost & found items. You must use the provided context from the knowledge base to answer the user's query. If the context is relevant, base your answer on it. Guide users on how to contact their driver to retrieve a lost item. Explain the process clearly and manage expectations."
    case General =>
      "You are a friendly and knowledgeable general customer care agent for a ride-hailing app. You must use the provided context from the knowledge base to answer the user's query. If the context is relevant, base your answer on it. Handle general inquiries about app features, feedback, or any issue that doesn't fall into billing, safety, or lost & found categories."
  }

}
