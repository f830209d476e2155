# Younggeul: the simulated market and the run around it

A Dafny model of the agent-based apartment market of younggeul, of the code that runs it round by round, and of the
parts that have to agree with something simpler: replay, the shadow runner, the evidence chain behind a report, the
monthly gold metrics, the run store, snapshot ids, the participant roster and the migration pivot.

| file | what it models |
|---|---|
| `Market.dfy`, `Policies.dfy` | records with their validators, and the five default policies |
| `Matching.dfy` | the greedy matching loop of one district, and the auction it carries out |
| `Resolver.dfy`, `ResolverLoop.dfy` | one round in closed form, and `pure_resolve_round` proved equal to it |
| `MarketLaws.dfy` | laws of a round: who trades, conservation, faithful deltas, order independence, bounds |
| `RoundExact.dfy`, `RunExact.dfy` | a round and a run in numbers: districts, participants, decisions, ends |
| `RunLoop.dfy` | runs of any length under the routing functions and the default policies |
| `EventLog.dfy`, `Replay.dfy`, `Graph.dfy` | the event store, the replay engine, and the graph's nodes and loop |
| `ReplayExact.dfy` | what a replay makes of any log, and the events of a run one by one |
| `Shadow.dfy` | the shadow runner's closures and projections, in lockstep with the graph |
| `Evidence.dfy`, `EvidenceBuilder.dfy`, `ReportWriter.dfy`, `CitationGate.dfy` | the evidence chain behind a report |
| `ReportExact.dfy` | its records, claims and verdicts one by one |
| `WorldInitializer.dfy` | the node that builds the starting world and its participants from a snapshot |
| `StartExact.dfy` | the starting districts in numbers |
| `Pipeline.dfy` | whole runs: from an initial state, a snapshot or registered deals to the checked report |
| `Roster.dfy`, `Decimals.dfy` | sanitizing of requested buckets, generation of sound participants, padded decimals |
| `RosterExact.dfy` | sanitized buckets and generated participants in numbers |
| `Periods.dfy`, `GoldDistrict.dfy`, `GoldTrends.dfy` | period strings, monthly aggregation, trends |
| `Forecasting.dfy` | the latest row of a district, picked in two ways, and the baseline forecast |
| `GoldExact.dfy`, `ForecastExact.dfy` | rows, trends and forecasts in numbers |
| `RunStore.dfy`, `SnapshotId.dfy` | the web run store, the snapshot id |
| `KostatPivot.dfy`, `PivotOrder.dfy` | the migration pivot, and how it depends on the order of the matrix rows |
| `PivotExact.dfy` | the pivot cell by cell |
| `Ordering.dfy`, `Numbers.dfy`, `Statistics.dfy`, `Wrappers.dfy` | sorting and string order, Python arithmetic, sums and medians, `Option` and `Result` |

How the model reads the code:

- Floats are exact `real` numbers and `int(x)` truncates toward zero. Python integers are unbounded.
- A dictionary is a `map`; where its insertion order matters the order is a sequence beside it. Sorting is Python's
  stable sort over lexicographic string order.
- Pydantic validators are preconditions on inputs and error results on outputs. A started run additionally has
  prices of at least 1 and no negative volume, capital or holdings (`Ready` in `RunLoop.dfy`), which every round keeps;
  which snapshots give such a start is stated exactly (`WorldInitializer.ReadyExactly`).
- Ids from `uuid4` and times are parameters: fresh ids as distinct sequences, the time as a clock that never goes back
  where an agreement depends on it. SHA-256 is an arbitrary function.
- A loop of the code is a method with a loop, proved against a function; laws are lemmas about the function. Classes
  stand for the event store, the evidence store and the run store.
- The modules whose names end in Exact say what the functions of the model compute without using them: from the source's
  inputs, with the source's constants.

The code agrees with what it promises, with these limits:

- A report claim about a district whose code starts with "role:" is rejected by the gate, and so is one about a district
  coded "simulation", unless the store already held a segment fact posing as one about a run of that name. The exact
  verdict on every claim is in `CitationGate.ReportPasses`, and a rejected claim in `CitationGate.RejectionWitness`.
- The hashed text of a snapshot determines its tables among snapshots whose table names have no colon
  (`SnapshotId.PreimageInjective`). Table names are not restricted, and among all snapshots exactly those of at most
  one table, under a name that does not read as a table, its hash and a later name, have a text of their own
  (`SnapshotId.SoleTextExactly`; `SnapshotId.ColonCollides` shows two snapshots with one text).
- A period of a four-digit year has no previous month exactly in January of year 0, no previous year exactly in year 0,
  and no next period exactly in December of 9999 (`Periods.PrevMonthSteps`, `Periods.PrevYearSteps`,
  `Periods.NextPeriodSteps`; `Periods.StepsOutside` shows one of each), and a row in the latter makes the forecaster
  raise (`Forecasting.ForecastBaseline`).
- The anchor period of a scenario prints its year unpadded, so it is a period of the snapshot exactly from year 1000 on
  (`WorldInitializer.AnchorIsLastPeriod`).
- Forecaster and reader pick the same latest row of a district exactly when the first and the last of its rows of its
  greatest period are the same (`Forecasting.LatestAgreeExactly`; `Forecasting.DuplicatesDisagree` shows two rows that
  are not).
- The pivot promises to raise when a count is filled twice. It always does for two rows with values
  (`PivotOrder.ClashBetween`), but a null is not noticed by the row after it: whether a value and a null for one count
  raise depends on their order (`PivotOrder.OrderWitness`). All orders of the rows agree exactly when two values share a
  count or no value shares one with another row (`PivotOrder.RaisingOrderIrrelevant`), and read as two rows for one count
  the promise is kept in every order exactly when such rows come with two values for one count
  (`PivotOrder.PromiseInEveryOrder`).

## Model

| member | source | states |
|---|---|---|
| `ResolverLoop.PureResolveRound` | apps/kr-seoul-apartment/src/younggeul_app_kr_seoul_apartment/simulation/nodes/_resolver_math.py:69-283 | The loop nest returns exactly the closed-form resolution of the round (or the rejection by a delta or payload validator), and one warning per ignored action, in action order; the resolution in numbers is `RoundExact.DistrictAfter` and `RoundExact.ParticipantAfter`. |
| `ResolverLoop.BucketActions` | apps/kr-seoul-apartment/src/younggeul_app_kr_seoul_apartment/simulation/nodes/_resolver_math.py:106-145 | Bucketing leaves, per targeted district, the exact counts, intensities, buyers and sellers of its accepted actions; every ignored action has its warning. |
| `ResolverLoop.SettleSegment` | apps/kr-seoul-apartment/src/younggeul_app_kr_seoul_apartment/simulation/nodes/_resolver_math.py:158-247 | One pass over a district: its new state, delta and price change, and the auction among its buyers and sellers applied to the books. |
| `ResolverLoop.SettleSegments` | apps/kr-seoul-apartment/src/younggeul_app_kr_seoul_apartment/simulation/nodes/_resolver_math.py:147-247 | The loop over sorted districts ends in the ledger that depends only on the set of districts settled. |
| `Matching.MatchBuyers` | apps/kr-seoul-apartment/src/younggeul_app_kr_seoul_apartment/simulation/nodes/_resolver_math.py:203-245 | The loop with its seller pointer makes the greedy decisions, one buyer at a time. |
| `Matching.GreedyIsAuction` | apps/kr-seoul-apartment/src/younggeul_app_kr_seoul_apartment/simulation/nodes/_resolver_math.py:203-247 | The greedy loop is the auction: cleared volume is min(limit, affordable buyers, stocked sellers if anyone sells), and the books are those of that many one-unit trades. |
| `Matching.AuctionAt` | apps/kr-seoul-apartment/src/younggeul_app_kr_seoul_apartment/simulation/nodes/_resolver_math.py:222-242 | In an auction a winning buyer pays the new price for one unit, a winning seller receives it for one, both in the records and in the two change books, and everyone else is untouched. |
| `MarketLaws.WhoTrades` | apps/kr-seoul-apartment/src/younggeul_app_kr_seoul_apartment/simulation/nodes/_resolver_math.py:171-174 | Who trades in a district: exactly the first cleared-volume many affordable buyers and stocked sellers by rank in id order. |
| `MarketLaws.RoundMoves` | apps/kr-seoul-apartment/src/younggeul_app_kr_seoul_apartment/simulation/nodes/_resolver_math.py:203-247 | A round leaves each participant with one unit bought at their district's new price, one sold, or exactly as before. |
| `MarketLaws.OneSide` | apps/kr-seoul-apartment/src/younggeul_app_kr_seoul_apartment/simulation/nodes/_resolver_math.py:203-247 | Nobody both buys and sells in a round. |
| `Resolver.SettleAllClosed` | apps/kr-seoul-apartment/src/younggeul_app_kr_seoul_apartment/simulation/nodes/_resolver_math.py:147-247 | The ledger after the segment loop is a function of the set of segments processed, with every entry in closed form. |
| `Resolver.SegmentOrderIrrelevant` | apps/kr-seoul-apartment/src/younggeul_app_kr_seoul_apartment/simulation/nodes/_resolver_math.py:158-247 | Processing the segments in any other order gives the same ledger. |
| `MarketLaws.AnySegmentOrderResolves` | apps/kr-seoul-apartment/src/younggeul_app_kr_seoul_apartment/simulation/nodes/_resolver_math.py:158-275 | Settling the targeted segments in any order gives the round's new world, participants, outcome and payload. |
| `MarketLaws.ActionOrderIrrelevant` | apps/kr-seoul-apartment/src/younggeul_app_kr_seoul_apartment/simulation/nodes/_resolver_math.py:106-283 | Permuting the action dictionary changes nothing but the order of the warnings. |
| `MarketLaws.RoundConserves` | apps/kr-seoul-apartment/src/younggeul_app_kr_seoul_apartment/simulation/nodes/_resolver_math.py:205-247 | Total holdings grow by exactly the cleared volume of segments without a seller; total capital falls by exactly what those units cost. |
| `MarketLaws.SellersBalance` | apps/kr-seoul-apartment/src/younggeul_app_kr_seoul_apartment/simulation/nodes/_resolver_math.py:205-247 | If every segment that trades has a seller, both totals stay unchanged. |
| `MarketLaws.TotalsOneWay` | apps/kr-seoul-apartment/src/younggeul_app_kr_seoul_apartment/simulation/nodes/_resolver_math.py:205-247 | No round lowers total holdings or raises total capital. |
| `MarketLaws.SegmentPatch` | apps/kr-seoul-apartment/src/younggeul_app_kr_seoul_apartment/simulation/nodes/_resolver_math.py:187-200 | Exactly the targeted segments have a delta; patching price and volume gives the new segment up to trend and sentiment; the others are unchanged. |
| `MarketLaws.ParticipantPatch` | apps/kr-seoul-apartment/src/younggeul_app_kr_seoul_apartment/simulation/nodes/_resolver_math.py:249-259 | A participant has a delta exactly when they traded; its changes and new values are those of the new record. |
| `MarketLaws.PayloadIsPatch` | apps/kr-seoul-apartment/src/younggeul_app_kr_seoul_apartment/simulation/nodes/_resolver_math.py:249-275 | Applying the participant deltas to the old participants gives the new ones; the transaction count is the sum of cleared volumes and the number of one-unit gains. |
| `MarketLaws.OutcomeTables` | apps/kr-seoul-apartment/src/younggeul_app_kr_seoul_apartment/simulation/nodes/_resolver_math.py:171-201 | For a targeted district, outcome and payload agree on round and price change; its cleared volume is the number of its buyers who bought; its volume change is the distance to the trade limit. |
| `MarketLaws.RejectedExactly` | apps/kr-seoul-apartment/src/younggeul_app_kr_seoul_apartment/simulation/schemas/round.py:45-103 | A validator rejects the result exactly when the round number is negative or a winning buyer starts below -1 holdings. |
| `MarketLaws.RoundStaysSound` | apps/kr-seoul-apartment/src/younggeul_app_kr_seoul_apartment/simulation/nodes/_resolver_math.py:69-283 | A sound market stays sound (price >= 1, volume, capital and holdings >= 0, sentiment in [0,1], same keys) and no validator rejects the round. |
| `MarketLaws.PriceBounds` | apps/kr-seoul-apartment/src/younggeul_app_kr_seoul_apartment/simulation/nodes/_resolver_math.py:167-169 | A price moves by at most 5 percent upward, never below 1, and does not fall without net selling pressure. |
| `MarketLaws.PriceTruncates` | apps/kr-seoul-apartment/src/younggeul_app_kr_seoul_apartment/simulation/nodes/_resolver_math.py:168-169 | The new price is the integer part of the moved price, or 1. |
| `MarketLaws.PriceFollowsPressure` | apps/kr-seoul-apartment/src/younggeul_app_kr_seoul_apartment/simulation/nodes/_resolver_math.py:167-185 | For valid actions the 5 percent clamp never binds, and the trend turns at 2 percent net pressure. |
| `MarketLaws.VolumeBounds` | apps/kr-seoul-apartment/src/younggeul_app_kr_seoul_apartment/simulation/nodes/_resolver_math.py:171-176 | The new volume lies between the old volume and the trade limit. |
| `MarketLaws.VolumeClosesATenth` | apps/kr-seoul-apartment/src/younggeul_app_kr_seoul_apartment/simulation/nodes/_resolver_math.py:171-176 | In integers: the limit is min(buyers, sellers + volume div 10), and the volume closes a tenth of its distance to it. |
| `MarketLaws.NoBuyersNoTrade` | apps/kr-seoul-apartment/src/younggeul_app_kr_seoul_apartment/simulation/nodes/_resolver_math.py:203-247 | Without a buyer nothing clears and nobody changes. |
| `RoundExact.SidesExactly` | apps/kr-seoul-apartment/src/younggeul_app_kr_seoul_apartment/simulation/nodes/_resolver_math.py:106-145 | Who acts, buys and sells in a district, and which districts a round touches: known participants with a supported action on a known district. |
| `RoundExact.IgnoredExactly` | apps/kr-seoul-apartment/src/younggeul_app_kr_seoul_apartment/simulation/nodes/_resolver_math.py:111-124 | An action is ignored for an unknown participant, else an unsupported type, else an unknown district, each with its own warning; every other action leaves none. |
| `RoundExact.DistrictAfter` | apps/kr-seoul-apartment/src/younggeul_app_kr_seoul_apartment/simulation/nodes/_resolver_math.py:147-201 | A touched district: the price change times the number of its actors is 5 percent of the confidence bought less that sold, cut at 5 percent either way; the price is the integer part of the old one moved by it, at least 1; the volume closes a tenth of its distance to the limit; trend and sentiment follow the balance; the payload says the same and nothing else changes. |
| `RoundExact.ValidDistrictAfter` | apps/kr-seoul-apartment/src/younggeul_app_kr_seoul_apartment/simulation/nodes/_resolver_math.py:147-186 | With validated confidences nothing is cut off, and sentiment moves by twice the price change inside [0,1]. |
| `RoundExact.QuietDistrict` | apps/kr-seoul-apartment/src/younggeul_app_kr_seoul_apartment/simulation/nodes/_resolver_math.py:147-156 | A district nobody acts in stays exactly as it is and has no entry in the tables. |
| `RoundExact.DistrictClears` | apps/kr-seoul-apartment/src/younggeul_app_kr_seoul_apartment/simulation/nodes/_resolver_math.py:171-247 | Trades cleared: within the limit and the buyers who can pay the new price, and if anyone sells within the sellers who have a unit; one of these bounds is met. |
| `RoundExact.ParticipantAfter` | apps/kr-seoul-apartment/src/younggeul_app_kr_seoul_apartment/simulation/nodes/_resolver_math.py:203-247 | Who acts buys one unit at the new price if among the first by id who can pay, sells one if among the first who have one, and otherwise stays as they are. |
| `RoundExact.BystanderAfter` | apps/kr-seoul-apartment/src/younggeul_app_kr_seoul_apartment/simulation/nodes/_resolver_math.py:106-124 | Who does not act keeps everything. |
| `Policies.DecisionExact` | apps/kr-seoul-apartment/src/younggeul_app_kr_seoul_apartment/simulation/policies/heuristic.py:54-175 | Who proposes to buy and who to sell, over all five roles. |
| `Policies.ConfidenceExact` | apps/kr-seoul-apartment/src/younggeul_app_kr_seoul_apartment/simulation/policies/heuristic.py:15-38 | With validated risk and sentiment the confidence is risk times sentiment for a purchase, risk times its complement for a sale, and the clamp never binds. |
| `Policies.NoMixedSignals` | apps/kr-seoul-apartment/src/younggeul_app_kr_seoul_apartment/simulation/policies/heuristic.py:54-175 | Buying and selling need segment states that exclude each other. |
| `Policies.LastOutcomeUnread` | apps/kr-seoul-apartment/src/younggeul_app_kr_seoul_apartment/simulation/policies/heuristic.py:41-196 | No default policy reads the last outcome. |
| `Policies.ProposalSound` | apps/kr-seoul-apartment/src/younggeul_app_kr_seoul_apartment/simulation/policies/heuristic.py:19-38 | Every proposal is a supported action on the context's segment, signed by the participant, with confidence in [0,1]. |
| `RunLoop.TargetExists` | apps/kr-seoul-apartment/src/younggeul_app_kr_seoul_apartment/simulation/nodes/participant_decider.py:43-51 | With a non-empty world the target segment exists. |
| `RunLoop.ActionOf` | apps/kr-seoul-apartment/src/younggeul_app_kr_seoul_apartment/simulation/nodes/participant_decider.py:112-125 | Each participant has exactly the action their policy proposes. |
| `RunLoop.NeverBothSides` | apps/kr-seoul-apartment/src/younggeul_app_kr_seoul_apartment/simulation/policies/heuristic.py:54-175 | Buy and sell proposals never share a round. |
| `RunLoop.TargetAfter` | apps/kr-seoul-apartment/src/younggeul_app_kr_seoul_apartment/simulation/nodes/participant_decider.py:113-125 | A round changes only the target segment; without sellers its price and sentiment do not fall. |
| `RunLoop.NoSaleAfterTrade` | apps/kr-seoul-apartment/src/younggeul_app_kr_seoul_apartment/simulation/policies/heuristic.py:92-161 | If a round clears something nobody proposes to sell in the next one. |
| `RunLoop.OneWayPositions` | apps/kr-seoul-apartment/src/younggeul_app_kr_seoul_apartment/simulation/nodes/_resolver_math.py:203-247 | Under the default policies no holdings shrink and no capital grows in a round. |
| `RunLoop.EveryTradeIsNatural` | apps/kr-seoul-apartment/src/younggeul_app_kr_seoul_apartment/simulation/nodes/_resolver_math.py:205-247 | Under the default policies total holdings grow by exactly the trades cleared. |
| `RunLoop.RunKeeps` | apps/kr-seoul-apartment/src/younggeul_app_kr_seoul_apartment/simulation/graph.py:146-153 | Every state of every run is sound and well keyed, keeps its key sets and limits, and counts its rounds. |
| `RunLoop.RoundsLimited` | apps/kr-seoul-apartment/src/younggeul_app_kr_seoul_apartment/simulation/nodes/continue_gate.py:19-29 | A run has at most max(0, max_rounds) rounds, and every round but the last cleared a trade. |
| `RunLoop.ReasonIsTrue` | apps/kr-seoul-apartment/src/younggeul_app_kr_seoul_apartment/simulation/nodes/evidence_builder.py:53-57 | A completed run reported as "max_rounds" has used up its rounds; one reported as frozen cleared nothing last. |
| `RunLoop.PricesBounded` | apps/kr-seoul-apartment/src/younggeul_app_kr_seoul_apartment/simulation/nodes/_resolver_math.py:168-169 | After n rounds every price is at least 1 and at most its start times 1.05 to the n; with the powers as a sequence that compounds it is `RunExact.PricesCompounded`. |
| `RunLoop.SalesOnlyInRoundOne` | apps/kr-seoul-apartment/src/younggeul_app_kr_seoul_apartment/simulation/nodes/continue_gate.py:19-29 | In any run a sale is proposed only in round 1, which then clears nothing, moves nobody and ends the run. |
| `RunLoop.TargetNeverFalls` | apps/kr-seoul-apartment/src/younggeul_app_kr_seoul_apartment/simulation/policies/heuristic.py:54-175 | From round 2 on the target segment's price and sentiment never fall and its trend is not down. |
| `RunLoop.PositionsOneWay` | apps/kr-seoul-apartment/src/younggeul_app_kr_seoul_apartment/simulation/nodes/_resolver_math.py:203-247 | Between any two states of a run nobody's holdings shrink and nobody's capital grows. |
| `RunLoop.TradesArePaid` | apps/kr-seoul-apartment/src/younggeul_app_kr_seoul_apartment/simulation/nodes/_resolver_math.py:222-242 | Under the default policies a round lowers total capital by exactly its trades at the new price of the target segment. |
| `RunLoop.RunConserves` | apps/kr-seoul-apartment/src/younggeul_app_kr_seoul_apartment/simulation/nodes/_resolver_math.py:205-247 | Over a run total holdings grow by exactly the number of trades, and total capital falls by exactly what they cost, each at its round's new price of the target segment. |
| `RunExact.LooksSomewhere` | apps/kr-seoul-apartment/src/younggeul_app_kr_seoul_apartment/simulation/nodes/participant_decider.py:43-51 | The segment found is that of the first target district if the world has it, else of the first district of the world. |
| `RunExact.DecisionIs` | apps/kr-seoul-apartment/src/younggeul_app_kr_seoul_apartment/simulation/nodes/participant_decider.py:112-125 | The i-th participant proposes, under their own id, for the next round and on that one district, the purchase, sale or hold their role makes of its trend and sentiment, with the exact confidence. |
| `RunExact.ActsAre` | apps/kr-seoul-apartment/src/younggeul_app_kr_seoul_apartment/simulation/nodes/participant_decider.py:57-90 | What the round resolves and what the log keeps of it: per participant the type proposed and that district. |
| `RunExact.RoundInNumbers` | apps/kr-seoul-apartment/src/younggeul_app_kr_seoul_apartment/simulation/nodes/_resolver_math.py:147-201 | One round of the default policies in closed form: price change times participants is 5 percent of the buyers' risk tolerance times the sentiment less the sellers' times its complement; price, sentiment, trend and volume follow, and no other district moves. |
| `RunExact.TradesInNumbers` | apps/kr-seoul-apartment/src/younggeul_app_kr_seoul_apartment/simulation/nodes/_resolver_math.py:171-247 | The trades of a round of the default policies: as many as the limit and those who want to buy and can pay allow; the first of them by id pay the new price for one unit each, and nobody else changes. |
| `RunExact.SameDistrict` | apps/kr-seoul-apartment/src/younggeul_app_kr_seoul_apartment/simulation/nodes/participant_decider.py:43-51 | Participants look at the same district in every round of a run. |
| `RunExact.EndsExactly` | apps/kr-seoul-apartment/src/younggeul_app_kr_seoul_apartment/simulation/nodes/continue_gate.py:19-29 | A run is over exactly when its rounds are used up or its last round cleared nothing. |
| `Graph.TargetResolves` | apps/kr-seoul-apartment/src/younggeul_app_kr_seoul_apartment/simulation/nodes/participant_decider.py:43-51 | An empty world is an error; otherwise the segment found is the target. |
| `Graph.DecideAll` | apps/kr-seoul-apartment/src/younggeul_app_kr_seoul_apartment/simulation/nodes/participant_decider.py:112-125 | The loop over participants builds the decisions of the round in participant order. |
| `Graph.ParticipantDecider` | apps/kr-seoul-apartment/src/younggeul_app_kr_seoul_apartment/simulation/nodes/participant_decider.py:92-153 | The node raises exactly when there are participants but no district, logging nothing; otherwise it advances the round, sets the decisions and logs them; the decisions one by one are `RunExact.DecisionIs`. |
| `Graph.RoundResolver` | apps/kr-seoul-apartment/src/younggeul_app_kr_seoul_apartment/simulation/nodes/round_resolver.py:29-67 | The node replaces world, participants and outcome by the resolution and logs its payload, or raises and logs nothing. |
| `Graph.RunRounds` | apps/kr-seoul-apartment/src/younggeul_app_kr_seoul_apartment/simulation/graph.py:119-153 | The loop ends after at most max_rounds - round_no rounds with a complete run, whose decision and resolution events are appended to the log; other runs' logs are untouched. |
| `Graph.Simulate` | apps/kr-seoul-apartment/src/younggeul_app_kr_seoul_apartment/simulation/graph.py:116-141 | From its planning events on, a whole run logs exactly its round, completion and report events in order, each stamped with its run, its time and the round the run was in. |
| `Graph.SimulateAndReplay` | apps/kr-seoul-apartment/src/younggeul_app_kr_seoul_apartment/simulation/replay/engine.py:225-309 | Best-effort replay after any run, with a clock that never goes back, reconstructs the live scenario, limit, round number, action summary, outcome numbers and participant count, the request with its query and roster, the summary of the starting world and the anchor period, and is complete. |
| `EventLog.EventStore.Append` | apps/kr-seoul-apartment/src/younggeul_app_kr_seoul_apartment/simulation/event_store.py:20-27 | Appends to the log of the event's run and to no other. |
| `EventLog.EventStore.GetEvents` | apps/kr-seoul-apartment/src/younggeul_app_kr_seoul_apartment/simulation/event_store.py:29-40 | The events of the run in order of time, those of one moment in the order they were appended; the log itself if its times never go back. |
| `EventLog.EventStore.Clear` | apps/kr-seoul-apartment/src/younggeul_app_kr_seoul_apartment/simulation/event_store.py:66-73 | Empties the log of one run only. |
| `Replay.ReplayRun` | apps/kr-seoul-apartment/src/younggeul_app_kr_seoul_apartment/simulation/replay/engine.py:225-309 | The replay loop is the fold of the handlers over the sorted events, with the special result for no events; what it restores and when it is full is `ReplayExact.ReplayRestores` and `ReplayExact.FullExactly`. |
| `Replay.ReplayRounds` | apps/kr-seoul-apartment/src/younggeul_app_kr_seoul_apartment/simulation/replay/engine.py:87-193 | Replaying the planning events and any number of rounds, strict or not, reconstructs the state of the last of them. |
| `Replay.ReplayLog` | apps/kr-seoul-apartment/src/younggeul_app_kr_seoul_apartment/simulation/replay/engine.py:196-270 | A completed run's log replays with its four report events skipped, and strict replay rejects the first of them. |
| `Replay.ReplayAgrees` | apps/kr-seoul-apartment/src/younggeul_app_kr_seoul_apartment/simulation/replay/engine.py:87-309 | For every run of any length, best-effort replay of its events agrees with the live end state, also in the number of participants and the districts of the summary; strict replay fails at REPORT_WRITTEN. |
| `Replay.LogShape` | apps/kr-seoul-apartment/src/younggeul_app_kr_seoul_apartment/simulation/graph.py:116-141 | A run of R rounds logs 8 + 2R events, the rounds as consecutive pairs numbered 1 to R. |
| `ReplayExact.FailsExactly` | apps/kr-seoul-apartment/src/younggeul_app_kr_seoul_apartment/simulation/replay/engine.py:87-270 | A replay fails exactly if some event stops it (a broken intake or scenario, in strict mode an event without a handler), with the error of the first that does. |
| `ReplayExact.ReplayRestores` | apps/kr-seoul-apartment/src/younggeul_app_kr_seoul_apartment/simulation/replay/engine.py:87-288 | After any successful replay every key holds what the last event that gives it says, and all warnings are kept in order. |
| `ReplayExact.FullExactly` | apps/kr-seoul-apartment/src/younggeul_app_kr_seoul_apartment/simulation/replay/engine.py:289-309 | A successful replay is full exactly when an intake event, a scenario event, and world events giving the summary, the count and the anchor all occur in the log. |
| `ReplayExact.PartialBeforeWorld` | apps/kr-seoul-apartment/src/younggeul_app_kr_seoul_apartment/simulation/replay/engine.py:289-309 | A log that stopped before the world was initialized replays in part. |
| `ReplayExact.RequestReplays` | apps/kr-seoul-apartment/src/younggeul_app_kr_seoul_apartment/simulation/replay/engine.py:87-309 | The log of a run without target districts replays to its request, in part, strict or not. |
| `ReplayExact.LogExactly` | apps/kr-seoul-apartment/src/younggeul_app_kr_seoul_apartment/simulation/graph.py:116-141 | First and last events of a run: intake, scenario and world with all their fields, then completion and the four report events. |
| `ReplayExact.RoundLogged` | apps/kr-seoul-apartment/src/younggeul_app_kr_seoul_apartment/simulation/graph.py:116-141 | The two events of a round carry the decisions made in it and the payload of its resolution. |
| `Shadow.ProjectionReadsBack` | apps/kr-seoul-apartment/src/younggeul_app_kr_seoul_apartment/simulation/shadow_runner.py:106-113 | The closures read back from a projected state exactly its world and participants, in order. |
| `Shadow.ProjectionFaithful` | apps/kr-seoul-apartment/src/younggeul_app_kr_seoul_apartment/simulation/shadow_runner.py:106-113 | States with the same orders and the same projection have the same world, participants and round number. |
| `Shadow.SameDecision` | apps/kr-seoul-apartment/src/younggeul_app_kr_seoul_apartment/simulation/shadow_runner.py:132-153 | A shadow agent proposes what the decider records, although it is given no last outcome. |
| `Shadow.ShadowStepIsRound` | apps/kr-seoul-apartment/src/younggeul_app_kr_seoul_apartment/simulation/shadow_runner.py:132-187 | One shadow step from a projected state is the projection of one decider and resolver round. |
| `Shadow.Lockstep` | apps/kr-seoul-apartment/src/younggeul_app_kr_seoul_apartment/simulation/shadow_runner.py:132-187 | k shadow steps reach the projection of what k graph rounds reach. |
| `Shadow.ShadowFollowsRun` | apps/kr-seoul-apartment/src/younggeul_app_kr_seoul_apartment/simulation/shadow_runner.py:260-295 | As long as a run lasts, the shadow runner is at its world, participants and round. |
| `Shadow.ShadowDecidesExactly` | apps/kr-seoul-apartment/src/younggeul_app_kr_seoul_apartment/simulation/shadow_runner.py:97-153 | What a shadow agent does on any state, also one the graph never reaches: raise for an unknown participant, then for a world without a captured district, else decide about the first target if there, or the first captured district there. |
| `Shadow.ProposalsExactly` | apps/kr-seoul-apartment/src/younggeul_app_kr_seoul_apartment/simulation/shadow_runner.py:132-173 | The proposals of a step are those of every agent in order, or the error of the first that raises. |
| `Evidence.EvidenceStore.Add` | apps/kr-seoul-apartment/src/younggeul_app_kr_seoul_apartment/simulation/evidence/store.py:57-68 | Adds a record under a new id and refuses a duplicate, changing nothing. |
| `Evidence.EvidenceStore.Select` | apps/kr-seoul-apartment/src/younggeul_app_kr_seoul_apartment/simulation/evidence/store.py:81-114 | The ids of exactly the records a query asks for, in insertion order. |
| `Evidence.RoleData` | apps/kr-seoul-apartment/src/younggeul_app_kr_seoul_apartment/simulation/nodes/evidence_builder.py:88-95 | The loop totals, per role present, the number of participants, their capital and their holdings. |
| `EvidenceBuilder.FileSegments` | apps/kr-seoul-apartment/src/younggeul_app_kr_seoul_apartment/simulation/nodes/evidence_builder.py:65-86 | One segment fact per district, in sorted order, under the next fresh ids. |
| `EvidenceBuilder.FileRoles` | apps/kr-seoul-apartment/src/younggeul_app_kr_seoul_apartment/simulation/nodes/evidence_builder.py:97-114 | One fact per role present, in sorted order, with its totals. |
| `EvidenceBuilder.BuildEvidence` | apps/kr-seoul-apartment/src/younggeul_app_kr_seoul_apartment/simulation/nodes/evidence_builder.py:26-137 | The store holds its prior records and exactly the run, segment, role and round facts, under fresh ids, which are returned in order; the facts field by field are `ReportExact.BuildExactly`. |
| `ReportWriter.MergeIds` | apps/kr-seoul-apartment/src/younggeul_app_kr_seoul_apartment/simulation/nodes/report_writer.py:31-33 | The union of two lists of ids, strictly sorted. |
| `ReportWriter.CiteSubject` | apps/kr-seoul-apartment/src/younggeul_app_kr_seoul_apartment/simulation/nodes/report_writer.py:86-88 | A district or role cites exactly the records about it by subject or by kind. |
| `ReportWriter.CiteRisks` | apps/kr-seoul-apartment/src/younggeul_app_kr_seoul_apartment/simulation/nodes/report_writer.py:194 | The risk claim cites exactly the run and round facts. |
| `ReportWriter.CiteRun` | apps/kr-seoul-apartment/src/younggeul_app_kr_seoul_apartment/simulation/nodes/report_writer.py:211-214 | The overview cites exactly the run facts and the records about this run. |
| `ReportWriter.WriteSegments` | apps/kr-seoul-apartment/src/younggeul_app_kr_seoul_apartment/simulation/nodes/report_writer.py:85-137 | Two claims per district, in sorted order, with its price, volume and citations. |
| `ReportWriter.WriteRoles` | apps/kr-seoul-apartment/src/younggeul_app_kr_seoul_apartment/simulation/nodes/report_writer.py:139-177 | One claim per role present, with its totals and citations. |
| `ReportWriter.WriteReport` | apps/kr-seoul-apartment/src/younggeul_app_kr_seoul_apartment/simulation/nodes/report_writer.py:68-238 | The claims of a report in order: districts, roles, risks, overview. |
| `CitationGate.ResolveIds` | apps/kr-seoul-apartment/src/younggeul_app_kr_seoul_apartment/simulation/nodes/citation_gate_node.py:73-80 | Looking the ids up one by one stops at the first that is unknown; otherwise every id yields its record, in order. |
| `CitationGate.CheckClaim` | apps/kr-seoul-apartment/src/younggeul_app_kr_seoul_apartment/simulation/nodes/citation_gate_node.py:66-95 | The checks on one claim, in the gate's order, give the verdict of the first that fails. |
| `CitationGate.PassesExactly` | apps/kr-seoul-apartment/src/younggeul_app_kr_seoul_apartment/simulation/nodes/citation_gate_node.py:66-97 | A claim passes exactly when it cites only known records, among them one that supports its subject (if it has one) and one of the round. |
| `CitationGate.RunGate` | apps/kr-seoul-apartment/src/younggeul_app_kr_seoul_apartment/simulation/nodes/citation_gate_node.py:61-130 | Passed and failed claims add up to the total; each failed claim has one warning with its reason, in order. |
| `CitationGate.BuildBacks` | apps/kr-seoul-apartment/src/younggeul_app_kr_seoul_apartment/simulation/nodes/evidence_builder.py:26-137 | After the build the store holds every record the report needs, whatever it held before. |
| `CitationGate.BuildCoherent` | apps/kr-seoul-apartment/src/younggeul_app_kr_seoul_apartment/simulation/nodes/evidence_builder.py:26-137 | Building keeps segment facts about segments, and a coherent store holds no segment fact that poses as one about the run. |
| `CitationGate.BuildAddsNoImpostor` | apps/kr-seoul-apartment/src/younggeul_app_kr_seoul_apartment/simulation/nodes/evidence_builder.py:26-137 | After a build the store holds a segment fact that poses as one about the run exactly if it did before. |
| `CitationGate.ReportPasses` | apps/kr-seoul-apartment/src/younggeul_app_kr_seoul_apartment/simulation/nodes/citation_gate_node.py:19-97 | For any prior store contents, the exact verdict on each claim: it passes, except that a claim on a district whose code starts with "role:", or is "simulation" unless the store held a segment fact posing as one about a run of that name, fails for its subject. |
| `CitationGate.RoleDistrictRejected` | apps/kr-seoul-apartment/src/younggeul_app_kr_seoul_apartment/simulation/nodes/citation_gate_node.py:28-32 | On every store the direction claim of a district whose code starts with "role:" is written and rejected. |
| `CitationGate.RejectionWitness` | apps/kr-seoul-apartment/src/younggeul_app_kr_seoul_apartment/simulation/nodes/citation_gate_node.py:26-35 | There is a sound initial state whose report the gate rejects in part. |
| `CitationGate.NothingFails` | apps/kr-seoul-apartment/src/younggeul_app_kr_seoul_apartment/simulation/nodes/citation_gate_node.py:61-130 | The gate has no warning exactly when no district code is reserved, apart from "simulation" while the prior store held a segment fact posing as one about a run of that name. |
| `CitationGate.ClaimsCiteTheirSource` | apps/kr-seoul-apartment/src/younggeul_app_kr_seoul_apartment/simulation/nodes/report_writer.py:85-238 | Every claim cites a record of the final round that states the numbers the claim reports. |
| `CitationGate.ReportChain` | apps/kr-seoul-apartment/src/younggeul_app_kr_seoul_apartment/simulation/graph.py:136-141 | Builder, writer and gate in a row: the store keeps its prior records and holds the run's facts, the claims are those of the report, each cites a record with its own numbers and has its exact verdict, and the warnings are those of the failing claims. |
| `CitationGate.AllPassUnreserved` | apps/kr-seoul-apartment/src/younggeul_app_kr_seoul_apartment/simulation/nodes/citation_gate_node.py:61-130 | A report on districts without reserved codes passes in full. |
| `ReportExact.BuildExactly` | apps/kr-seoul-apartment/src/younggeul_app_kr_seoul_apartment/simulation/nodes/evidence_builder.py:26-137 | After a build the store holds what it held and, under the fresh ids in order, the run, each district with name, price, volume, trend and sentiment, each role present with count, capital and holdings, and the last round with its number, trades, cleared volumes and price changes. |
| `ReportExact.ClaimsExactly` | apps/kr-seoul-apartment/src/younggeul_app_kr_seoul_apartment/simulation/nodes/report_writer.py:68-238 | Every claim by position: direction and volume of each district, one summary per role, risks and overview, with their numbers, and citing exactly the records a stated condition picks, in order. |
| `ReportExact.VerdictExactly` | apps/kr-seoul-apartment/src/younggeul_app_kr_seoul_apartment/simulation/nodes/citation_gate_node.py:19-97 | Which check fails on a claim and when: no ids, the first unknown id, no cited record that speaks for the subject, none of the round. |
| `ReportExact.WarningsExactly` | apps/kr-seoul-apartment/src/younggeul_app_kr_seoul_apartment/simulation/nodes/citation_gate_node.py:61-130 | The warnings are the verdicts on exactly the failing claims, in their order. |
| `WorldInitializer.SegmentValid` | apps/kr-seoul-apartment/src/younggeul_app_kr_seoul_apartment/simulation/nodes/world_initializer.py:54-94 | Whatever the metrics and the forecast, sentiment and supply pressure meet their validators; the district is sound exactly when its price is positive and its count not negative. |
| `WorldInitializer.SentimentStarts` | apps/kr-seoul-apartment/src/younggeul_app_kr_seoul_apartment/simulation/nodes/world_initializer.py:55-68 | With a validated confidence the sentiment starts between 0.25 and 0.75 and its clamp never binds. |
| `WorldInitializer.BuildWorld` | apps/kr-seoul-apartment/src/younggeul_app_kr_seoul_apartment/simulation/nodes/world_initializer.py:203-212 | One segment per target district, in the order of the targets, from the last metrics and forecast on record for it or from the fallback values, with one warning per target without metrics; the segment in numbers is `StartExact.StartExactly`. |
| `WorldInitializer.LatestMetricIs` | apps/kr-seoul-apartment/src/younggeul_app_kr_seoul_apartment/simulation/nodes/world_initializer.py:197-206 | The metrics found for a target district are those of its latest row in the snapshot, if it has any. |
| `WorldInitializer.WorldSoundExactly` | apps/kr-seoul-apartment/src/younggeul_app_kr_seoul_apartment/simulation/nodes/world_initializer.py:54-82 | The starting world is sound exactly when every latest row it starts from has a positive price and no negative count. |
| `WorldInitializer.ReadyExactly` | apps/kr-seoul-apartment/src/younggeul_app_kr_seoul_apartment/simulation/nodes/world_initializer.py:179-250 | A run may start from an initialized state exactly when the latest rows of its targets are sound. |
| `WorldInitializer.InitializeWorld` | apps/kr-seoul-apartment/src/younggeul_app_kr_seoul_apartment/simulation/nodes/world_initializer.py:179-250 | The node builds world and participants from the snapshot and the roster and logs their summary, count, anchor period and warnings; without a target district it raises and logs nothing. |
| `WorldInitializer.AnchorIsLastPeriod` | apps/kr-seoul-apartment/src/younggeul_app_kr_seoul_apartment/simulation/nodes/world_initializer.py:29-32 | The anchor of a scenario that starts right after the snapshot is the last period of the snapshot exactly when its year is 1000 or later. |
| `StartExact.StartExactly` | apps/kr-seoul-apartment/src/younggeul_app_kr_seoul_apartment/simulation/nodes/world_initializer.py:35-94 | Every target district of an initialized state: name, price and volume of the first of its latest rows; trend of its last forecast, else of the sign of its price change; sentiment 0.5 plus or minus 0.15 times the confidence by direction and 0.1 by the sign of net migration; supply pressure its volume change cut to [-1,1]; fallback values without a row. |
| `StartExact.TargetsInOrder` | apps/kr-seoul-apartment/src/younggeul_app_kr_seoul_apartment/simulation/nodes/world_initializer.py:200-212 | Districts come in the order in which they are first targeted. |
| `StartExact.RunLooksAt` | apps/kr-seoul-apartment/src/younggeul_app_kr_seoul_apartment/simulation/nodes/participant_decider.py:43-51 | In every round of a run from an initialized state the participants look at the first district the request targets. |
| `StartExact.AnchorExactly` | apps/kr-seoul-apartment/src/younggeul_app_kr_seoul_apartment/simulation/nodes/world_initializer.py:29-32 | The anchor is the last period of the snapshot without the zeros before its year. |
| `StartExact.FallbacksExactly` | apps/kr-seoul-apartment/src/younggeul_app_kr_seoul_apartment/simulation/nodes/world_initializer.py:203-210 | One warning per target without a row, in order, naming the district. |
| `Pipeline.RunToReport` | apps/kr-seoul-apartment/src/younggeul_app_kr_seoul_apartment/simulation/graph.py:116-141 | Every run, for any world and prior evidence, ends with the report of its final state, and the evidence store holds its prior records and exactly the facts of the run. |
| `Pipeline.ReasonRecorded` | apps/kr-seoul-apartment/src/younggeul_app_kr_seoul_apartment/simulation/nodes/evidence_builder.py:42-62 | The recorded run fact counts the rounds, districts and participants of the run and gives the true reason it ended. |
| `Pipeline.SnapshotToReport` | apps/kr-seoul-apartment/src/younggeul_app_kr_seoul_apartment/simulation/graph.py:105-141 | From a snapshot with sound rows a run is initialized, simulated, logged in full and reported; without a target district it raises after the two planning events. |
| `Pipeline.DealsSound` | apps/kr-seoul-apartment/src/younggeul_app_kr_seoul_apartment/pipeline.py:69-74 | A market built from deals that have a price starts sound, whatever districts it targets. |
| `Pipeline.DealsToReport` | apps/kr-seoul-apartment/src/younggeul_app_kr_seoul_apartment/pipeline.py:46-76 | All stages in a row, from registered deals over gold rows and forecasts to the report of a run; it stops short exactly when a row lies in December 9999 or no district is targeted. |
| `Roster.SanitizeRosterBuckets` | apps/kr-seoul-apartment/src/younggeul_app_kr_seoul_apartment/simulation/nodes/scenario_builder.py:99-162 | The sanitized buckets of the requests that name a role, in order, or the default bucket; all inside the schema bounds with ordered ranges. |
| `Roster.SanitizingKeepsTheSane` | apps/kr-seoul-apartment/src/younggeul_app_kr_seoul_apartment/simulation/nodes/scenario_builder.py:105-145 | Sanitizing leaves a spelled-out bucket as it is exactly when it is inside the bounds with ordered ranges. |
| `Roster.RangesUnordered` | apps/kr-seoul-apartment/src/younggeul_app_kr_seoul_apartment/simulation/nodes/scenario_builder.py:109-122 | A request with its ranges swapped is sanitized to the same bucket. |
| `Roster.ParticipantIdInjective` | apps/kr-seoul-apartment/src/younggeul_app_kr_seoul_apartment/simulation/nodes/world_initializer.py:134 | Equal participant ids come from the same role and number, also past four digits. |
| `Roster.GeneratedFits` | apps/kr-seoul-apartment/src/younggeul_app_kr_seoul_apartment/simulation/nodes/world_initializer.py:136-155 | Each generated holding, capital and risk lies inside its bucket's bounds. |
| `Roster.BuildParticipants` | apps/kr-seoul-apartment/src/younggeul_app_kr_seoul_apartment/simulation/nodes/world_initializer.py:117-159 | Exactly as many participants as the buckets' counts add up to; the ids are those of each role numbered from 1 to its total, also across buckets that repeat a role; the participant at position j is the one generated from draws 3j to 3j+2 and lies inside the bounds of its bucket. |
| `Roster.RosterSound` | apps/kr-seoul-apartment/src/younggeul_app_kr_seoul_apartment/simulation/nodes/world_initializer.py:117-159 | Everyone a sanitized roster yields has no negative capital or holdings, a risk in [0,1], and is filed under their own id. |
| `Roster.ReferenceWithin` | apps/kr-seoul-apartment/src/younggeul_app_kr_seoul_apartment/simulation/nodes/world_initializer.py:123 | The reference price lies between the smallest and the largest price of the world. |
| `RosterExact.SanitizedExactly` | apps/kr-seoul-apartment/src/younggeul_app_kr_seoul_apartment/simulation/nodes/scenario_builder.py:99-145 | Every field of a sanitized bucket: the requested number cut to its bounds, or the fallback where there is none or it is no number, with ranges the right way round. |
| `RosterExact.KeptExactly` | apps/kr-seoul-apartment/src/younggeul_app_kr_seoul_apartment/simulation/nodes/scenario_builder.py:147-162 | Exactly the requests that name a role are kept, in order. |
| `RosterExact.RosterExactly` | apps/kr-seoul-apartment/src/younggeul_app_kr_seoul_apartment/simulation/nodes/world_initializer.py:117-159 | The participant at position j: capital part of the way, by draw 3j, between the whole parts of the reference price times the bucket's bounds; holdings by draw 3j + 1 and risk by draw 3j + 2 between the bucket's own. |
| `RosterExact.ReferenceExactly` | apps/kr-seoul-apartment/src/younggeul_app_kr_seoul_apartment/simulation/nodes/world_initializer.py:123 | The reference price is the whole part of the median price of the districts. |
| `Periods.PeriodsCompare` | core/src/younggeul_core/state/gold.py:36 | Comparing two valid period strings compares their months. |
| `Periods.PrevMonthSteps` | apps/kr-seoul-apartment/src/younggeul_app_kr_seoul_apartment/transforms/gold_enrichment.py:8-15 | The previous month is one earlier, and is a valid period exactly unless the period is the first month of year 0. |
| `Periods.PrevYearSteps` | apps/kr-seoul-apartment/src/younggeul_app_kr_seoul_apartment/transforms/gold_enrichment.py:18-21 | The year before is twelve months earlier, and valid exactly from year 1 on. |
| `Periods.NextPeriodSteps` | apps/kr-seoul-apartment/src/younggeul_app_kr_seoul_apartment/forecaster.py:15-22 | The next period is one month later, and valid exactly unless the period is December 9999. |
| `Periods.StepsOutside` | apps/kr-seoul-apartment/src/younggeul_app_kr_seoul_apartment/transforms/gold_enrichment.py:8-21 | January of year 0 has no previous month, December of year 0 no previous year and December 9999 no next period. |
| `Periods.StepsUndo` | apps/kr-seoul-apartment/src/younggeul_app_kr_seoul_apartment/forecaster.py:15-22 | Next period and previous month undo each other. |
| `Periods.TwelveMonthsIsAYear` | apps/kr-seoul-apartment/src/younggeul_app_kr_seoul_apartment/transforms/gold_enrichment.py:8-21 | Twelve previous months are one previous year. |
| `GoldDistrict.GroupTransactions` | apps/kr-seoul-apartment/src/younggeul_app_kr_seoul_apartment/transforms/gold_district.py:15-24 | Groups exactly the transactions that were not cancelled by district and month, in order. |
| `GoldDistrict.AggregateDistrictMonthly` | apps/kr-seoul-apartment/src/younggeul_app_kr_seoul_apartment/transforms/gold_district.py:56-109 | The rows of the grouped transactions in key order, joined with rates and migrations. |
| `GoldDistrict.RowsExact` | apps/kr-seoul-apartment/src/younggeul_app_kr_seoul_apartment/transforms/gold_district.py:76-109 | Rows are strictly sorted, one exactly for each district and month with a transaction that was not cancelled. |
| `GoldDistrict.RowBounds` | apps/kr-seoul-apartment/src/younggeul_app_kr_seoul_apartment/transforms/gold_district.py:77-106 | Each row counts its own transactions; its extremes are attained, and average and median lie between them. |
| `GoldDistrict.RowUnitPrice` | apps/kr-seoul-apartment/src/younggeul_app_kr_seoul_apartment/transforms/gold_district.py:78-91 | A row is named after the first of its transactions, and its price per pyeong lies between any bounds on theirs. |
| `GoldDistrict.RowArea` | apps/kr-seoul-apartment/src/younggeul_app_kr_seoul_apartment/transforms/gold_district.py:85 | The average area of a row lies between any bounds on the areas of its transactions. |
| `GoldDistrict.RowJoins` | apps/kr-seoul-apartment/src/younggeul_app_kr_seoul_apartment/transforms/gold_district.py:103-104 | Each row carries the interest rate and the net migration found for its month and district. |
| `GoldDistrict.InterestRateExact` | apps/kr-seoul-apartment/src/younggeul_app_kr_seoul_apartment/transforms/gold_district.py:27-36 | A rate is found exactly if one was observed in the month, and is the last of the month, the first of those of one day. |
| `GoldDistrict.NetMigrationExact` | apps/kr-seoul-apartment/src/younggeul_app_kr_seoul_apartment/transforms/gold_district.py:39-53 | Net migration is found exactly if a row of the month has the district's city code, and is that of the first such row. |
| `GoldDistrict.SalesExact` | apps/kr-seoul-apartment/src/younggeul_app_kr_seoul_apartment/transforms/gold_district.py:92 | The sale counts add up to the number of transactions that were not cancelled. |
| `GoldExact.RowExactly` | apps/kr-seoul-apartment/src/younggeul_app_kr_seoul_apartment/transforms/gold_district.py:56-109 | The numbers of a row over its own deals by position: count, name of the first, average rounded down, whole part of the median, whole price per pyeong of 3.3058 square metres, average area. |
| `GoldExact.RowsStand` | apps/kr-seoul-apartment/src/younggeul_app_kr_seoul_apartment/transforms/gold_district.py:56-76 | There is a row for a district and period exactly if a deal stood there. |
| `GoldExact.MedianExactly` | apps/kr-seoul-apartment/src/younggeul_app_kr_seoul_apartment/transforms/gold_district.py:94 | The median is the middle, or the mean of the two in the middle, of the numbers in ascending order. |
| `GoldExact.RateExactly` | apps/kr-seoul-apartment/src/younggeul_app_kr_seoul_apartment/transforms/gold_district.py:27-36 | The rate joined is that of the first observation on the last day of observation of the month. |
| `GoldExact.MigrationExactly` | apps/kr-seoul-apartment/src/younggeul_app_kr_seoul_apartment/transforms/gold_district.py:39-53 | The net migration joined is that of the first row of the month for the city named by the first two characters of the district code. |
| `GoldTrends.LookupIsScan` | apps/kr-seoul-apartment/src/younggeul_app_kr_seoul_apartment/transforms/gold_enrichment.py:45 | Looking a key up in the dictionary of rows finds the last row of the key. |
| `GoldTrends.SortKeepsScan` | apps/kr-seoul-apartment/src/younggeul_app_kr_seoul_apartment/transforms/gold_enrichment.py:44 | The stable sort does not change which row of a key is found. |
| `GoldTrends.EnrichDistrictMonthlyTrends` | apps/kr-seoul-apartment/src/younggeul_app_kr_seoul_apartment/transforms/gold_enrichment.py:30-71 | Every row, in key order, with the trends a naive scan of the input gives. |
| `GoldTrends.TrendsExact` | apps/kr-seoul-apartment/src/younggeul_app_kr_seoul_apartment/transforms/gold_enrichment.py:48-69 | With unique keys each trend is the change against the row one (twelve) calendar months earlier, absent only when its base is zero. |
| `GoldTrends.NoNeighbourNoTrend` | apps/kr-seoul-apartment/src/younggeul_app_kr_seoul_apartment/transforms/gold_enrichment.py:52-58 | Without a row of that month there is no trend. |
| `GoldTrends.VolumeTrendsExact` | apps/kr-seoul-apartment/src/younggeul_app_kr_seoul_apartment/transforms/gold_enrichment.py:30-71 | Aggregation then enrichment: a volume trend is reported exactly when a sale stood in that district in the month (year) before. |
| `GoldExact.ChangeExactly` | apps/kr-seoul-apartment/src/younggeul_app_kr_seoul_apartment/transforms/gold_enrichment.py:24-27 | A change is the percentage of its base, and absent exactly against zero. |
| `GoldExact.SortedByKey` | apps/kr-seoul-apartment/src/younggeul_app_kr_seoul_apartment/transforms/gold_enrichment.py:44 | Enrichment lists all rows by district and period, those of one key in their order. |
| `GoldExact.TrendsExactly` | apps/kr-seoul-apartment/src/younggeul_app_kr_seoul_apartment/transforms/gold_enrichment.py:48-71 | For any valid rows, also with repeated keys: the trends are the changes against the last row of one and of twelve months before, and nothing else of a row changes. |
| `Forecasting.ForecastBaseline` | apps/kr-seoul-apartment/src/younggeul_app_kr_seoul_apartment/forecaster.py:25-107 | One forecast per district in order, with target month, direction, confidence, predictions and features from the rows sorted by period; raises exactly when some row lies in December 9999, naming the first such district. |
| `Forecasting.GetLatestMetrics` | apps/kr-seoul-apartment/src/younggeul_app_kr_seoul_apartment/simulation/adapters/filesystem_snapshot_reader.py:70-98 | The one-pass maximum of every requested district that has a row, in order of district. |
| `Forecasting.LatestAgreeExactly` | apps/kr-seoul-apartment/src/younggeul_app_kr_seoul_apartment/forecaster.py:42-44 | Sort-and-take-last and the one-pass maximum pick the same row exactly when the first and the last of the district's rows of its greatest period are the same. |
| `Forecasting.LatestAgree` | apps/kr-seoul-apartment/src/younggeul_app_kr_seoul_apartment/forecaster.py:42-44 | In particular they agree when (district, period) is unique. |
| `Forecasting.LatestMonth` | apps/kr-seoul-apartment/src/younggeul_app_kr_seoul_apartment/simulation/adapters/filesystem_snapshot_reader.py:94-96 | The row either way picks has the greatest month of the calendar. |
| `Forecasting.ForecastFromLatest` | apps/kr-seoul-apartment/src/younggeul_app_kr_seoul_apartment/simulation/adapters/filesystem_snapshot_reader.py:90-98 | Where the two ways agree, a forecast starts from the row the reader reports as latest. |
| `Forecasting.ForecastRepeatsChange` | apps/kr-seoul-apartment/src/younggeul_app_kr_seoul_apartment/forecaster.py:72-81 | The forecast of an enriched row repeats its change in whole units: volume by its own ratio, median price by that of the averages, nothing cut off at zero. |
| `Forecasting.DirectionFollows` | apps/kr-seoul-apartment/src/younggeul_app_kr_seoul_apartment/forecaster.py:46-60 | A direction never contradicts average prices and trends that all point one way, and a change of more than 5/3 percent that way is enough for it. |
| `Forecasting.ForecastSteady` | apps/kr-seoul-apartment/src/younggeul_app_kr_seoul_apartment/forecaster.py:46-81 | A district with a single row and no trends is forecast to stay as it is, with the lowest confidence. |
| `Forecasting.ForecastValid` | apps/kr-seoul-apartment/src/younggeul_app_kr_seoul_apartment/forecaster.py:62-70 | The confidence meets its validator and no predicted volume is negative. |
| `ForecastExact.FirstLatestRead` | apps/kr-seoul-apartment/src/younggeul_app_kr_seoul_apartment/simulation/adapters/filesystem_snapshot_reader.py:90-98 | The reader reports the first row, by position, of the district's latest period. |
| `ForecastExact.LastLatestForecast` | apps/kr-seoul-apartment/src/younggeul_app_kr_seoul_apartment/forecaster.py:42-44 | The forecaster starts from the last row, by position, of the district's latest period. |
| `ForecastExact.ForecastExactly` | apps/kr-seoul-apartment/src/younggeul_app_kr_seoul_apartment/forecaster.py:25-107 | A forecast in full: score 0.6 price change + 0.3 distance from the mean of the last three in percent + 0.1 volume change, turning at plus and minus 1; confidence by 3, 6 and 12 rows; whole parts of price and volume moved by their changes, volume at least 0; the features with a value, in order. |
| `RunStore.RunStore.InFlightRunCount` | apps/kr-seoul-apartment/src/younggeul_app_kr_seoul_apartment/web/run_store.py:145-146 | The number of pending and running runs. |
| `RunStore.RunStore.CreateRun` | apps/kr-seoul-apartment/src/younggeul_app_kr_seoul_apartment/web/run_store.py:39-55 | Refused at the cap or on an existing directory; otherwise adds a pending run. |
| `RunStore.RunStore.UpdateStatus` | apps/kr-seoul-apartment/src/younggeul_app_kr_seoul_apartment/web/run_store.py:57-81 | Refused for an unknown run or an illegal transition; otherwise sets status, error, completion time and report. |
| `RunStore.RunStore.ReconcileStaleRuns` | apps/kr-seoul-apartment/src/younggeul_app_kr_seoul_apartment/web/run_store.py:83-105 | Fails exactly the runs in flight and returns how many there were. |
| `RunStore.StepLegal` | apps/kr-seoul-apartment/src/younggeul_app_kr_seoul_apartment/web/run_store.py:65-81 | No step removes a run or changes one except along an allowed transition. |
| `RunStore.NeverOverCap` | apps/kr-seoul-apartment/src/younggeul_app_kr_seoul_apartment/web/run_store.py:39-55 | In every interleaving of locked steps the runs in flight never exceed the largest cap the creators use. |
| `RunStore.AlwaysStamped` | apps/kr-seoul-apartment/src/younggeul_app_kr_seoul_apartment/web/run_store.py:73-77 | In every interleaving completed_at is set exactly in terminal states. |
| `RunStore.TerminalForever` | apps/kr-seoul-apartment/src/younggeul_app_kr_seoul_apartment/web/run_store.py:15-18 | A completed or failed run never changes again. |
| `RunStore.ReconcileLegal` | apps/kr-seoul-apartment/src/younggeul_app_kr_seoul_apartment/web/run_store.py:83-105 | Reconciliation makes only legal transitions, leaves nothing in flight and stamps what it fails. |
| `RunStore.CapAfterStartup` | apps/kr-seoul-apartment/src/younggeul_app_kr_seoul_apartment/web/run_store.py:39-105 | After startup reconciliation the cap holds in every interleaving, whatever was on disk. |
| `RunStore.CreationExactly` | apps/kr-seoul-apartment/src/younggeul_app_kr_seoul_apartment/web/run_store.py:39-55 | A creation succeeds exactly below its cap and on a new id; it adds the run, pending and open, and changes nothing else. |
| `RunStore.UpdateExactly` | apps/kr-seoul-apartment/src/younggeul_app_kr_seoul_apartment/web/run_store.py:57-81 | An update succeeds exactly on a known run that may take the new status; it stores status and error, the time if the run is over, and the report if there is one, and changes nothing else. |
| `RunStore.RestartExactly` | apps/kr-seoul-apartment/src/younggeul_app_kr_seoul_apartment/web/run_store.py:83-105 | After a restart the busy runs have failed with its message and time, and the others are as they were. |
| `SnapshotId.InsertionOrderIrrelevant` | core/src/younggeul_core/storage/snapshot.py:165-166 | The hashed text does not depend on the insertion order of the table dictionary. |
| `SnapshotId.TextExactly` | core/src/younggeul_core/storage/snapshot.py:165-166 | The hashed text is the name that comes first, a colon, its hash, and the text of the other tables. |
| `SnapshotId.DecodeJoined` | core/src/younggeul_core/storage/snapshot.py:165-166 | With colon-free names and 64-digit hashes the hashed text parses back to its items. |
| `SnapshotId.PreimageInjective` | core/src/younggeul_core/storage/snapshot.py:155-167 | For such tables, equal hashed texts come from equal tables, and only from those. |
| `SnapshotId.SoleTextExactly` | core/src/younggeul_core/storage/snapshot.py:155-167 | Among all valid snapshots, one has a hashed text of its own exactly if it is empty, or has a single table whose name does not read as a table, its hash and a later name. |
| `SnapshotId.SameIdSameTables` | core/src/younggeul_core/storage/snapshot.py:129-137 | Two intact manifests have the same id exactly when they describe the same tables, unless the hash function collides. |
| `SnapshotId.SoleIdSoleTables` | core/src/younggeul_core/storage/snapshot.py:129-137 | The id of an intact manifest with such a text belongs to its tables only, whatever names other manifests use, unless the hash function collides. |
| `SnapshotId.EntryOrderIrrelevant` | core/src/younggeul_core/storage/snapshot.py:98-105 | Listing the same uniquely named tables in another order gives the same tables and hashed text. |
| `KostatPivot.PivotToRegionRows` | apps/kr-seoul-apartment/src/younggeul_app_kr_seoul_apartment/connectors/kostat.py:113-187 | Raises exactly when a row aims at a count an earlier row has filled, naming such a count; otherwise gives one record per opened region and period, strictly sorted. |
| `KostatPivot.ClashIsAimedTwice` | apps/kr-seoul-apartment/src/younggeul_app_kr_seoul_apartment/connectors/kostat.py:161-182 | With every value present it raises exactly when some (region, period, metric) is aimed at twice. |
| `KostatPivot.CountFromItsRow` | apps/kr-seoul-apartment/src/younggeul_app_kr_seoul_apartment/connectors/kostat.py:164-182 | A count of a record is present exactly when a row fills it, and is that row's value; every other row that aims at it comes before and is null, and in a complete matrix there is no other. |
| `PivotExact.HitsExactly` | apps/kr-seoul-apartment/src/younggeul_app_kr_seoul_apartment/connectors/kostat.py:149-182 | Which rows count as what: from the nation into a region item T70 as arrivals and T80 as net moves, from a region to the nation T70 as departures. |
| `PivotExact.OpenedExactly` | apps/kr-seoul-apartment/src/younggeul_app_kr_seoul_apartment/connectors/kostat.py:149-187 | There is a record exactly for each region and period with a row into the region, or a T70 row out of it. |
| `PivotExact.RecordExactly` | apps/kr-seoul-apartment/src/younggeul_app_kr_seoul_apartment/connectors/kostat.py:113-187 | A record in full: region, name from the first row that opens it, year and month cut from the period, and each count from the row that counts as it. |
| `PivotOrder.RowOrderIrrelevant` | apps/kr-seoul-apartment/src/younggeul_app_kr_seoul_apartment/connectors/kostat.py:149-187 | With one name per region, the same rows in another order give the same records. |
| `PivotOrder.RaisesInEveryOrder` | apps/kr-seoul-apartment/src/younggeul_app_kr_seoul_apartment/connectors/kostat.py:164-182 | The pivot raises in every order of the rows exactly when two rows with values aim at one count. |
| `PivotOrder.RaisesInNoOrder` | apps/kr-seoul-apartment/src/younggeul_app_kr_seoul_apartment/connectors/kostat.py:164-182 | It raises in no order exactly when no row with a value shares its count with another row. |
| `PivotOrder.RaisingOrderIrrelevant` | apps/kr-seoul-apartment/src/younggeul_app_kr_seoul_apartment/connectors/kostat.py:164-182 | All orders agree on raising exactly when two rows with values aim at one count, or no row with a value shares its count. |
| `PivotOrder.PromiseInEveryOrder` | apps/kr-seoul-apartment/src/younggeul_app_kr_seoul_apartment/connectors/kostat.py:126-131 | Raising on two rows for one count is kept in every order exactly when such rows come with two values for one count. |
| `PivotOrder.OrderWitness` | apps/kr-seoul-apartment/src/younggeul_app_kr_seoul_apartment/connectors/kostat.py:164-168 | A value and then a null for one count raise; the null and then the value do not. |

## Left out

- Reasoning summaries, proposed values, statement texts and warning texts: prose that nothing computes with. Warnings and failures are datatypes.
- Governance modifiers, active shocks and custom policy registries: no default policy reads the first two, and the run theorems are about the default policies.
- Float rounding: prices, volumes and confidences are computed in exact arithmetic, so bounds are those of exact numbers; decimal areas and rates are exact too. Not-a-number and infinite inputs to sanitizing are not modelled.
- Event ids, round summaries and the payload details of the completion and report events: replay does not look at them.
- The intake planner and the scenario builder, apart from roster sanitizing, language model adapters and snapshot files: their results are parameters.
- Pipeline.SnapshotToReport: runs from a price below 1 or a negative count are not covered, because the run theorems bound growth by 5 percent a round from a positive price; which snapshots start so is exact in `WorldInitializer.ReadyExactly`.
- Recursion limit of the graph runtime, which could stop a very long run early.
- The file-backed event store, file and JSON formats, temporary files and crash points. The run store's disk is a map.
- Order of keys in the delta dictionaries, and the sorting of records before citation ids are merged: the merged ids are sorted again.
- The shadow runner's stopping rule and the internals of abdp: only its decide and resolve closures and the projections are modelled.
- Deal dates before the year 1000, whose printed year some platforms do not pad, and digits outside ASCII in periods.
- Reconciliation concurrent with requests: it runs at startup, before requests are served.
- Blank-trimming of matrix cells and the column filter before the pivot: rows are modelled with cells already read.
- Evidence timestamps and source event ids, and the report renderer, which the gate does not influence.
- Command line, web routes, tracing, metrics and the other connectors: not modelled; no property here depends on them.
