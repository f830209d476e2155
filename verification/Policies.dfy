/** The five default participant policies. */
module Policies {
  import opened Wrappers
  import opened Numbers
  import opened Market

  datatype ShockType = InterestRate | Regulation | SupplyShock | DemandShock | External

  datatype Shock = Shock(shockType: ShockType, description: string, magnitude: real, targets: seq<string>)

  /** Dates are day numbers. */
  datatype Scenario = Scenario(name: string, targetGus: seq<string>, periodStart: int, periodEnd: int, shocks: seq<Shock>)

  datatype DecisionContext = DecisionContext(
    roundNo: int, segment: Segment, scenario: Scenario, lastOutcome: Option<RoundOutcome>)

  function Proposal(p: Participant, context: DecisionContext, actionType: ActionType, confidence: real): Action {
    Action(p.id, context.roundNo, actionType, context.segment.guCode, Clamp(confidence, 0.0, 1.0))
  }

  function BuyerDecides(p: Participant, context: DecisionContext): Action {
    var s := context.segment;
    if s.sentiment > 0.5 && s.trend != Down && p.capital > 0 then
      Proposal(p, context, Buy, p.risk * s.sentiment)
    else
      Proposal(p, context, Hold, 0.0)
  }

  function InvestorDecides(p: Participant, context: DecisionContext): Action {
    var s := context.segment;
    if s.trend == Up && s.sentiment > 0.6 then
      Proposal(p, context, Buy, p.risk * s.sentiment)
    else if s.trend == Down && p.holdings > 0 then
      Proposal(p, context, Sell, p.risk * (1.0 - s.sentiment))
    else
      Proposal(p, context, Hold, 0.0)
  }

  function LandlordDecides(p: Participant, context: DecisionContext): Action {
    var s := context.segment;
    if s.sentiment < 0.3 && p.holdings > 0 then
      Proposal(p, context, Sell, (1.0 - s.sentiment) * p.risk)
    else
      Proposal(p, context, Hold, 0.0)
  }

  /** Tenants and brokers do not trade in version 0.1. */
  function BystanderDecides(p: Participant, context: DecisionContext): Action {
    Proposal(p, context, Hold, 0.0)
  }

  /** The default policy of the participant's role, applied. */
  function Decide(p: Participant, context: DecisionContext): Action {
    match p.role
    case Buyer => BuyerDecides(p, context)
    case Investor => InvestorDecides(p, context)
    case Landlord => LandlordDecides(p, context)
    case Tenant => BystanderDecides(p, context)
    case Broker => BystanderDecides(p, context)
  }

  /** Buying and selling need segment states that exclude each other. */
  lemma NoMixedSignals(p: Participant, q: Participant, context: DecisionContext)
    ensures !(Decide(p, context).actionType == Buy && Decide(q, context).actionType == Sell)
    ensures Decide(p, context).actionType == Buy ==> context.segment.sentiment > 0.5 && context.segment.trend != Down
    ensures Decide(p, context).actionType == Sell ==> context.segment.sentiment < 0.3 || context.segment.trend == Down
  {}

  /** Who buys and who sells on a segment. */
  lemma DecisionExact(p: Participant, context: DecisionContext)
    ensures var a, s := Decide(p, context), context.segment;
            && (a.actionType == Buy <==>
                  || (p.role == Buyer && s.sentiment > 0.5 && s.trend != Down && p.capital > 0)
                  || (p.role == Investor && s.sentiment > 0.6 && s.trend == Up))
            && (a.actionType == Sell <==>
                  p.holdings > 0 && ((p.role == Investor && s.trend == Down) || (p.role == Landlord && s.sentiment < 0.3)))
  {}

  /** With a risk tolerance and a sentiment in [0, 1] the clamp on confidence never binds. */
  lemma ConfidenceExact(p: Participant, context: DecisionContext)
    requires 0.0 <= p.risk <= 1.0 && 0.0 <= context.segment.sentiment <= 1.0
    ensures var a, s := Decide(p, context), context.segment;
            && (a.actionType == Buy ==> a.confidence == p.risk * s.sentiment)
            && (a.actionType == Sell ==> a.confidence == p.risk * (1.0 - s.sentiment))
            && (a.actionType == Hold ==> a.confidence == 0.0)
  {
    var risk, mood := p.risk, context.segment.sentiment;
    Fraction(risk, mood);
    Fraction(risk, 1.0 - mood);
    assert Clamp(risk * mood, 0.0, 1.0) == risk * mood;
    assert Clamp(risk * (1.0 - mood), 0.0, 1.0) == risk * (1.0 - mood);
    assert Clamp((1.0 - mood) * risk, 0.0, 1.0) == risk * (1.0 - mood);
  }

  lemma Fraction(x: real, y: real)
    requires 0.0 <= x <= 1.0 && 0.0 <= y <= 1.0
    ensures 0.0 <= x * y <= 1.0 && x * y == y * x
  {
    MulNonNeg(x, y);
    MulNonNeg(1.0 - x, y);
    assert y - x * y == (1.0 - x) * y;
  }

  /** The outcome of the previous round does not influence a default policy. */
  lemma LastOutcomeUnread(p: Participant, context: DecisionContext, other: Option<RoundOutcome>)
    ensures Decide(p, context) == Decide(p, context.(lastOutcome := other))
  {}

  /** Every proposal is a supported action on the context's segment, signed by the participant. */
  lemma ProposalSound(p: Participant, context: DecisionContext)
    ensures var a := Decide(p, context);
            && Supported(a.actionType) && a.agentId == p.id && a.target == context.segment.guCode
            && a.roundNo == context.roundNo && 0.0 <= a.confidence <= 1.0
  {}
}
