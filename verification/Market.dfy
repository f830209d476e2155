/** The records of the simulated market, and the validators pydantic runs on them. */
module Market {

  datatype Trend = Up | Down | Flat
  datatype Mood = Bullish | Bearish | Neutral
  datatype Role = Buyer | Investor | Tenant | Landlord | Broker
  datatype ActionType = Buy | Sell | Hold | RentOut | Regulate | AdjustRate

  datatype Segment = Segment(
    guCode: string, guName: string, medianPrice: int, volume: int,
    trend: Trend, sentiment: real, supplyPressure: real)

  datatype Participant = Participant(
    id: string, role: Role, capital: int, holdings: int, mood: Mood, risk: real)

  datatype Action = Action(
    agentId: string, roundNo: int, actionType: ActionType, target: string, confidence: real)

  type World = map<string, Segment>
  type People = map<string, Participant>

  datatype SegmentDelta = SegmentDelta(
    guCode: string, pricePct: real, volumeChange: int, newMedianPrice: int, newVolume: int)
  {
    predicate Valid() {
      -0.05 <= pricePct <= 0.05 && newMedianPrice >= 0 && newVolume >= 0
    }
  }

  datatype ParticipantDelta = ParticipantDelta(
    id: string, capitalChange: int, holdingsChange: int, newCapital: int, newHoldings: int)
  {
    predicate Valid() { newHoldings >= 0 }
  }

  datatype RoundPayload = RoundPayload(
    roundNo: int, segmentDeltas: map<string, SegmentDelta>,
    participantDeltas: map<string, ParticipantDelta>, transactions: int)
  {
    predicate Valid() {
      && roundNo >= 0 && transactions >= 0
      && (forall gu :: gu in segmentDeltas ==> segmentDeltas[gu].Valid())
      && (forall p :: p in participantDeltas ==> participantDeltas[p].Valid())
    }
  }

  datatype RoundOutcome = RoundOutcome(
    roundNo: int, clearedVolume: map<string, int>, priceChanges: map<string, real>, resolved: int)

  /** The action types version 0.1 accepts. */
  predicate Supported(t: ActionType) { t in {Buy, Sell, Hold} }

  /** Validated sentiment plus the starting values every world initializer produces. */
  predicate SoundSegment(s: Segment) {
    s.medianPrice >= 1 && s.volume >= 0 && 0.0 <= s.sentiment <= 1.0
  }

  predicate SoundParticipant(p: Participant) {
    p.capital >= 0 && p.holdings >= 0 && 0.0 <= p.risk <= 1.0
  }

  ghost predicate SoundWorld(world: World) {
    forall gu :: gu in world ==> SoundSegment(world[gu])
  }

  ghost predicate SoundPeople(people: People) {
    forall p :: p in people ==> SoundParticipant(people[p])
  }

  /** Every validator of an action proposal. */
  ghost predicate ValidActions(acts: map<string, Action>) {
    forall p :: p in acts ==> 0.0 <= acts[p].confidence <= 1.0
  }
}
