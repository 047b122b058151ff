# mcproxy, verified

A Dafny model of mcproxy, a multicast proxy for IGMPv3 and MLDv2, with proofs about every run of it.

A proxy instance has upstream and downstream interfaces. On each downstream a *querier* listens to
membership reports, keeps a record per group (filter mode, requested and excluded sources, timers) and asks
hosts that may have left. A *routing layer* turns the querier states and the sources it sees into forwarding
entries of the kernel, and into membership reports on the upstreams. A configuration file defines filter
tables that decide which sources may pass.

| file | content |
|---|---|
| `Defs.dfy`, `MembershipDb.dfy` | addresses, versions, views; timers with an identity, sources, group records, querier state |
| `ReportTables.dfy` | the tables of sections 7.4.1 and 7.4.2 of RFC 3810, written from the RFC |
| `QuerierSpec.dfy` | every event of a querier as a function on its state; runs |
| `QuerierInvariant.dfy` | the invariant and its preservation by every event |
| `QuerierViews.dfy` | what the outside sees: widening, narrowing, notifications |
| `SoftState.dfy` | groups are forgotten after MALI |
| `RecordMeaning.dfy`, `TimerMeaning.dfy` | what a record and a timer do to lists, timers and views, exactly; how long a membership lasts |
| `LeaveLatency.dfy` | how long a leave takes, and timers that a query raises |
| `QueryAccounting.dfy` | how many queries are sent |
| `SuppressFlag.dfy` | which queries carry the suppress flag |
| `SourceLists.dfy` | the in-place list operators |
| `Querier.dfy` | the querier as an object; each method proved against `QuerierSpec` |
| `Timing.dfy` | the register of reminders |
| `Aggregation.dfy`, `MutexAggregation.dfy` | the aggregation rules "first" and "mutex" |
| `InterfaceMemberships.dfy` | the report database as an object with its nested loops |
| `RoutingSpec.dfy`, `Routing.dfy` | the routing layer as functions and as objects |
| `ProxyRuns.dfy` | queriers and routing layer together: agreement over all runs |
| `AgreementReturns.dfy` | what brings agreement back after an event that broke it |
| `FilteredProxy.dfy` | forwarding and upstream reports under any filters |
| `SourceLiveness.dfy` | how silent sources are forgotten |
| `RuleTables.dfy`, `TableParser.dfy` | filter tables, their matching, and the parser against its grammar |
| `TablePrinter.dfy`, `FilterBindings.dfy` | tables written and read back; what the filters of an interface let through |
| `Checksum.dfy`, `IntervalCodes.dfy`, `ConfigText.dfy` | checksum, interval codes, comments and line numbers |

## How the system is modelled

- A timer is a value with an identity and a deadline. A stale timer is recognised by identity, as the
  program does by pointer. A run is a sequence of records, timer deliveries and steps of time; time never
  passes a registered deadline.
- The clock stands still within one event, except that a query is sent `lag` after the timers of the event
  were armed. The lag is any natural number and may change with every step of time.
- The callback of a querier is a notice that carries the view at that moment; the routing layer is run with
  that view. Every dequeued message is one atomic step.
- The kernel is a map from group and source to a route, and sending a record upstream overwrites the last
  record of that upstream and group. The packet count of the kernel is a parameter of the events that read
  it; its failure value is one such count.
- Filters are arbitrary functions of interface, direction, input interface, group and source; `BoundBy` says that
  they are those of given rule bindings.
- The querier relies on three facts about its settings, collected in `Config.Ok`: the intervals are positive,
  LLQT is at most MALI, and it is configured at the newest version of its family. `DefaultIntervals` shows
  them for the defaults.
- Older versions only send joins and leaves, so `Receivable` excludes BLOCK and unknown types from them.

## Where the code departs from its intent

Each of these has a member at a concrete input, or a contract that names one, and one that says exactly when it
happens.

- A leave of an older host for an unknown group notifies before the record is dropped
  (`SilentLeaveHappens`, `NoSilentChange`). A source may then be forwarded to where nobody wants it
  (`FalseJoinHappens`) and the first upstream asked for everything (`FalseReportHappens`); `NextAgrees` says
  exactly when.
- The timer of a burst of group queries stays with the record after the last query. A TO_IN record that meets it
  sends no query (`ToInCanBeSwallowed`, `ToInAsksTheGroup`) and does not lower the filter timer. Once a host has
  answered a burst, a later leave that nobody answers takes until the filter timer ends, up to MALI, instead of
  LLQT (`LeaveIsIgnored`, `ExcludeModeEnds`, `ExcludeModeLeaves`).
- RFC 3810 lowers the timer of what is asked for to LLQT. The code sets it to LLQT, also if less was left
  (`SecondBlockRaises`, `ToInRaisesFilter`; exactly when: `LoweredAsMeant`, `RaisedByQuery`,
  `FilterLoweredAsMeant`). A host that repeats BLOCK keeps a source for any length of time
  (`RepeatedBlockKeepsSource`).
- The suppress flag is meant for timers with more than LLQT left. The code sets it if LLQT is left, so the
  first query carries it if no time passes between arming and sending (`FirstQueryCarriesFlag`,
  `FirstGroupQueryCarriesFlag`, `StepFlags`, `StepGroupFlags`).
- A source that moves to an interface whose input filter rejects it keeps its old forwarding entry
  (`RejectedMoveHappens`, `NextAgrees`; when it goes: `EntryInRuns`).
- Filters strike sources from EXCLUDE lists, so an upstream may be asked for what nobody wants
  (`RejectedSourceIsAskedFor`, `AsksOnlyForWanted`).
- The rule "mutex" strikes known sources from the lists and drops memberships whose list is or becomes empty,
  so joins for all sources are lost (`AnySourceIsLost`, `AllButKnownIsLost`, `MutexReportsUnion`).
- The rule "mutex" means a source to stay subscribed on the upstream it arrives on
  (references/parser/config_script_example:100-101). The code subscribes it on the last upstream that is the
  first to pass the filters of some downstream, so its arrival can stop its delivery (`ArrivalIsUnsubscribed`,
  `ArrivalStopsDelivery`, `MutexExclusive`).
- The MLDv2 encoder has no code for 32767 although 0x7FFF decodes to it, and both encoders go wrong above
  their range (`RecodeMldv2`, `MaxrespiToMaxrespcMldv2`, `QqiToQqic`).
- Of two reminders with the same deadline the second one is lost (`SecondReminderIsLost`, `KeptIfFirst`).
- An interface name before an inner table is read and dropped (`NameHasNoEffect`, `NameBeforeTable`).
- A prefix above 128 is not refused but ends the program (`ParseRulePart`).

## Model

| member | source | states |
|---|---|---|
| `QuerierInvariant.RunInv` | mcproxy/src/proxy/querier.cpp:117-681 | The state invariant holds after every event of every run: INCLUDE has no excluded source and no filter timer and is never empty; EXCLUDE has disjoint lists and an armed filter timer; every requested source has an armed timer, every excluded source none; counters stay in -1..LLQC; a source with queries to come has an armed retransmission timer and a source timer that outlasts them; a version below the newest has an armed older-host timer |
| `QuerierInvariant.ReceiveRecordInv` | mcproxy/src/proxy/querier.cpp:117-173 | A record of any type and version, for a known or an unknown group, keeps the invariant |
| `QuerierInvariant.TimerTriggeredInv` | mcproxy/src/proxy/querier.cpp:393-451 | Delivering any registered timer, stale or in use, keeps the invariant |
| `QuerierInvariant.ApplyRowSound` | mcproxy/src/proxy/querier.cpp:175-391 | A row of the report tables keeps a record sound although its timers are set only at the end |
| `QuerierInvariant.UsedBy` | mcproxy/src/proxy/querier.cpp:393-451 | A timer that is still in use is held by the record of its own group and by no other |
| `QuerierViews.RecordWidens` | mcproxy/src/proxy/querier.cpp:117-391 | In every state of the invariant a record removes no source from the admitted set, admits everything its sender asked for, and leaves the other groups alone |
| `QuerierViews.TimerViews` | mcproxy/src/proxy/querier.cpp:393-642 | A timer only narrows the view of its own group and announces every change; only filter, source and older-host timers change it |
| `QuerierViews.DroppedByTimer` | mcproxy/src/proxy/querier.cpp:453-574 | A source that is admitted at the start of a run and not at its end was dropped by the delivery of a filter, source or older-host timer of its group |
| `QuerierViews.NoSilentChange` | mcproxy/src/proxy/querier.cpp:155-162 | After an event every group looks as it did at its last notification if and only if the event is not a leave of an older host for an unknown group |
| `QuerierViews.NoSilentChangeInRuns` | mcproxy/src/proxy/querier.cpp:775-779 | Over every run without such leaves the view of every group equals the view at its last notification |
| `QuerierViews.SilentLeaveHappens` | mcproxy/src/proxy/querier.cpp:137-162 | A concrete IGMPv2 leave for an unknown group is announced as a join of every source although nothing is kept |
| `SoftState.ForgottenAfterMali` | mcproxy/src/proxy/querier.cpp:453-600 | If no record for a group arrives for MALI, the record of the group is gone once all due timers are delivered, whatever the mode, the order of expiries and the retransmissions |
| `SoftState.DeliveryEnds` | mcproxy/src/proxy/timing.cpp:44-81 | From every state of the invariant the due timers can all be delivered: each delivery leaves fewer of them |
| `SoftState.TimePasses` | mcproxy/src/proxy/timing.cpp:44-81 | From every state of the invariant, delivering timers and letting time pass reaches any later time with all due timers delivered |
| `SoftState.EverythingFades` | mcproxy/src/proxy/querier.cpp:453-574 | Left to its timers, a querier has no group left after MALI |
| `RecordMeaning.RecordAdmits` | mcproxy/src/proxy/querier.cpp:117-391 | Exactly who is admitted after a record, in every state of the invariant: whoever was before, whoever its sender asks for, and everybody if the sender is an older host and the group is kept |
| `RecordMeaning.RecordLists` | mcproxy/src/proxy/querier.cpp:117-391 | Exactly when a group is kept, in which mode, which sources are requested and excluded, and whether the record is announced, told by the view before and the record alone |
| `RecordMeaning.RecordSources` | mcproxy/src/proxy/querier.cpp:654-773 | The timer and counter of every requested source after a record: MALI and no query for a source the record refreshes, LLQT and LLQC queries for one it starts to ask for, the timer of before for any other, with one query less if a round was sent |
| `RecordMeaning.RecordFilter` | mcproxy/src/proxy/querier.cpp:644-737 | The filter timer after a record: MALI if the sender excludes sources, LLQT if TO_IN starts a burst, else the one of before |
| `TimerMeaning.TimerLists` | mcproxy/src/proxy/querier.cpp:393-600 | Exactly what a timer takes away: the filter timer in use ends EXCLUDE mode and leaves the requested sources, a source timer takes the sources that wait for it; every other source keeps timer and counter, and the record goes if and only if nobody is left |
| `TimerMeaning.TimerAdmits` | mcproxy/src/proxy/querier.cpp:453-574 | Exactly who is admitted after a timer, told by the state before |
| `TimerMeaning.ReportRefreshes` | mcproxy/src/proxy/querier.cpp:654-681 | Every source that IS_IN, ALLOW or TO_IN lists, known or not, in either mode, has a full MALI to go and no query to come |
| `TimerMeaning.SourceLifetime` | mcproxy/src/proxy/querier.cpp:515-574 | Without a record for the group a source is requested and admitted until its timer is due and, once due timers are delivered, not requested any longer |
| `TimerMeaning.WantedLastsMali` | mcproxy/src/proxy/querier.cpp:117-600 | If no other record for the group follows, whoever the sender of a record wants is admitted until MALI has passed and, once due timers are delivered, not any longer |
| `TimerMeaning.OlderHostLasts` | mcproxy/src/proxy/querier.cpp:613-642 | After a report of an older host everything is admitted until exactly one older host present interval per version step and MALI have passed; compatibility mode ends MALI earlier |
| `QueryAccounting.BurstConservation` | mcproxy/src/proxy/querier.cpp:696-737 | Group queries sent plus group queries still to come grow by LLQC exactly when a burst starts and stay the same at every other event |
| `QueryAccounting.BurstConservationInRuns` | mcproxy/src/proxy/querier.cpp:576-587 | Over a run, the group queries sent and still to come are LLQC for every burst started |
| `QueryAccounting.BurstComplete` | mcproxy/src/proxy/querier.cpp:696-737 | A burst sends exactly LLQC group queries within LLQT under any interleaving of other events, further TO_IN records included, unless another burst starts |
| `QueryAccounting.BurstCanComplete` | mcproxy/src/proxy/querier.cpp:696-737 | Every burst that a record starts can go on to its end with exactly LLQC group queries sent |
| `QueryAccounting.RetransmissionHasFilterTimer` | mcproxy/src/proxy/querier.cpp:453-513 | A pending group retransmission with c queries left and deadline d means EXCLUDE mode and a filter timer that ends no earlier than d + c * LLQI, so the timer that is dereferenced is there |
| `QueryAccounting.ToInAsksTheGroup` | mcproxy/src/proxy/querier.cpp:711-736 | A TO_IN record in EXCLUDE mode sends a group query if and only if the record does not hold the timer of a burst that has run out |
| `QueryAccounting.ToInCanBeSwallowed` | mcproxy/src/proxy/querier.cpp:711-736 | A run from the start with LLQC at 2: after IS_EX({}), the third of three TO_IN({}) a millisecond apart sends no group query; no two timers share a deadline |
| `QueryAccounting.EpisodeStep` | mcproxy/src/proxy/querier.cpp:740-773 | An event either starts the episode a source is in, with LLQC queries to send, or the episode goes on and has spent exactly the queries sent |
| `QueryAccounting.EpisodeComplete` | mcproxy/src/proxy/querier.cpp:589-600 | While a source waits for the timer its episode began with, at most LLQC source queries are sent for it, and exactly LLQC by the time that timer is due |
| `SuppressFlag.StepFlags` | mcproxy/src/proxy/igmp_sender.cpp:84-120 | A source is asked for with the suppress flag if and only if a record starts sources of its group without lag between arming and sending and the source starts now or started at the same instant; no timer event, so no retransmission, ever carries the flag |
| `SuppressFlag.StartedCarryTheFlag` | mcproxy/include/proxy/message_format.hpp:181-183 | Without lag exactly the sources that a record starts carry the flag, provided none of the group was started at the same instant before |
| `SuppressFlag.FirstQueryCarriesFlag` | mcproxy/include/proxy/message_format.hpp:181-183 | A run: after IS_IN({a}), BLOCK({a}) without lag asks for a with the flag although just LLQT is left |
| `SuppressFlag.NeverSuppressed` | mcproxy/src/proxy/igmp_sender.cpp:84-120 | If time always passes between arming and sending, no run asks for a source with the flag |
| `SuppressFlag.StepGroupFlags` | mcproxy/src/proxy/querier.cpp:576-587 | Exactly which events send a group query with the flag: TO_IN in EXCLUDE mode or the timer of the burst, if it starts a burst without lag or continues one with LLQT or more left of the filter timer |
| `SuppressFlag.FirstGroupQueryCarriesFlag` | mcproxy/src/proxy/querier.cpp:731 | A run: TO_IN({}) after IS_EX({}) without lag asks for the group with the flag although just LLQT is left |
| `SuppressFlag.GroupNeverSuppressed` | mcproxy/src/proxy/querier.cpp:711-731 | If time always passes between arming and sending and no burst of the group is answered by IS_EX or TO_EX, no run sends a group query for it with the flag |
| `LeaveLatency.AskedSourceLeaves` | mcproxy/src/proxy/querier.cpp:740-773 | A source that a record asks for is no longer requested once the due timers are delivered LLQT later, unless another record for the group arrives; it is admitted then if and only if an older host makes the group admit everything |
| `LeaveLatency.ExcludeModeEnds` | mcproxy/src/proxy/querier.cpp:696-737 | After TO_IN without an answer, at any time when the due timers are delivered: the group is out of EXCLUDE mode if and only if LLQT has passed or, if a burst timer was held, the filter timer of before has ended |
| `LeaveLatency.ExcludeModeLeaves` | mcproxy/src/proxy/querier.cpp:711-719 | LLQT after TO_IN without an answer the group is out of EXCLUDE mode if and only if no burst timer was held or no more than LLQT was left of the filter timer |
| `LeaveLatency.LeaveIsIgnored` | mcproxy/src/proxy/querier.cpp:711-736 | A run from the start: a host joins, another leaves, the first answers; whenever the first leaves as well, within the burst or long after it, the group is still in EXCLUDE mode LLQT later |
| `LeaveLatency.LoweredAsMeant` | mcproxy/src/proxy/querier.cpp:747-758 | For every row and every source it asks for: the timer becomes the minimum of its value (of the filter timer for a new source) and LLQT if and only if the source is in a retransmission or has LLQT or more left |
| `LeaveLatency.RaisedByQuery` | mcproxy/src/proxy/querier.cpp:747-758 | A record that does not refresh a source gives it more time if and only if it asks for the source while it is in no retransmission and has less than LLQT left |
| `LeaveLatency.FilterLoweredAsMeant` | mcproxy/src/proxy/querier.cpp:711-719 | TO_IN in EXCLUDE mode lowers the filter timer to the minimum of its value and LLQT if and only if it starts a burst with LLQT or more left, or joins one with no more left |
| `LeaveLatency.SecondBlockRaises` | mcproxy/src/proxy/querier.cpp:747-758 | A run with LLQC at 2: IS_IN({a}), BLOCK({a}), the last query, BLOCK({a}) moves the end of the source from 2 * LLQI to 3 * LLQI |
| `LeaveLatency.ToInRaisesFilter` | mcproxy/src/proxy/querier.cpp:711-719 | A run: IS_EX({}) and TO_IN({}) just before the filter timer ends make EXCLUDE mode last longer |
| `LeaveLatency.RepeatedBlockKeepsSource` | mcproxy/src/proxy/querier.cpp:747-758 | For every length of time there is a run in which a source is joined once, only BLOCK records for it follow, and it is still admitted |
| `Queriers.Querier.ReceiveRecord` | mcproxy/src/proxy/querier.cpp:117-173 | The whole new state: compatibility downgrade, the row of the report tables for the record, and the removal of an empty INCLUDE record |
| `Queriers.Querier.ReceiveRecordInIncludeMode` | mcproxy/src/proxy/querier.cpp:175-270 | The in-place updates of the aliased lists give the row of the tables for INCLUDE mode |
| `Queriers.Querier.ReceiveRecordInExcludeMode` | mcproxy/src/proxy/querier.cpp:272-391 | The in-place updates of the aliased lists give the row of the tables for EXCLUDE mode |
| `Queriers.Querier.AllowInInclude` | mcproxy/src/proxy/querier.cpp:191-198 | INCLUDE (A), ALLOW (B): INCLUDE (A+B), (B)=MALI, notification |
| `Queriers.Querier.BlockInInclude` | mcproxy/src/proxy/querier.cpp:202-205 | INCLUDE (A), BLOCK (B): INCLUDE (A), Send Q(MA,A*B) |
| `Queriers.Querier.ToExInInclude` | mcproxy/src/proxy/querier.cpp:212-223 | INCLUDE (A), TO_EX (B): EXCLUDE (A*B,B-A), Send Q(MA,A*B), filter timer MALI, notification |
| `Queriers.Querier.ToInInInclude` | mcproxy/src/proxy/querier.cpp:228-236 | INCLUDE (A), TO_IN (B): INCLUDE (A+B), (B)=MALI, Send Q(MA,A-B), notification |
| `Queriers.Querier.IsExInInclude` | mcproxy/src/proxy/querier.cpp:242-251 | INCLUDE (A), IS_EX (B): EXCLUDE (A*B,B-A), filter timer MALI, notification |
| `Queriers.Querier.IsInInInclude` | mcproxy/src/proxy/querier.cpp:255-262 | INCLUDE (A), IS_IN (B): INCLUDE (A+B), (B)=MALI, notification |
| `Queriers.Querier.AllowInExclude` | mcproxy/src/proxy/querier.cpp:290-298 | EXCLUDE (X,Y), ALLOW (A): EXCLUDE (X+A,Y-A), (A)=MALI, notification |
| `Queriers.Querier.BlockInExclude` | mcproxy/src/proxy/querier.cpp:304-311 | EXCLUDE (X,Y), BLOCK (A): EXCLUDE (X+(A-Y),Y), Send Q(MA,A-Y) |
| `Queriers.Querier.ToExInExclude` | mcproxy/src/proxy/querier.cpp:320-337 | EXCLUDE (X,Y), TO_EX (A): EXCLUDE (A-Y,Y*A), Send Q(MA,A-Y), filter timer MALI, notification |
| `Queriers.Querier.ToInInExclude` | mcproxy/src/proxy/querier.cpp:343-353 | EXCLUDE (X,Y), TO_IN (A): EXCLUDE (X+A,Y-A), (A)=MALI, Send Q(MA,X-A), Send Q(MA), notification |
| `Queriers.Querier.IsExInExclude` | mcproxy/src/proxy/querier.cpp:360-374 | EXCLUDE (X,Y), IS_EX (A): EXCLUDE (A-Y,Y*A), (A-X-Y)=MALI, filter timer MALI, notification |
| `Queriers.Querier.IsInInExclude` | mcproxy/src/proxy/querier.cpp:378-386 | EXCLUDE (X,Y), IS_IN (A): EXCLUDE (X+A,Y-A), (A)=MALI, notification |
| `Queriers.MergeNeedsDisjoint` | mcproxy/src/proxy/querier.cpp:320-374 | The merged list (X*A)+(A-Y) is the A-Y of the table if and only if X and Y share no source of A |
| `Queriers.Querier.TimerTriggered` | mcproxy/src/proxy/querier.cpp:393-451 | A timer leaves the register; it is handled if and only if some record still holds it, by its kind |
| `Queriers.Querier.TimerTriggeredFilterTimer` | mcproxy/src/proxy/querier.cpp:453-513 | The record turns INCLUDE over its requested sources, or is dropped if it has none |
| `Queriers.Querier.TimerTriggeredSourceTimer` | mcproxy/src/proxy/querier.cpp:515-574 | Exactly the sources that wait for this timer leave the requested list: for good in INCLUDE mode, into the exclude list in EXCLUDE mode |
| `Queriers.Querier.TimerTriggeredOlderHostPresentTimer` | mcproxy/src/proxy/querier.cpp:613-642 | The compatibility version goes up one step, with a new timer, until the newest version clears the timer |
| `Queriers.Querier.MaliList` | mcproxy/src/proxy/querier.cpp:654-667 | All sources of the list share one fresh timer of length MALI and leave their retransmission |
| `Queriers.Querier.MaliSources` | mcproxy/src/proxy/querier.cpp:669-681 | Exactly the named sources get one shared fresh timer of length MALI and leave their retransmission |
| `Queriers.Querier.CountDown` | mcproxy/src/proxy/igmp_sender.cpp:84-120 | Every positive counter goes down by one; the asked sources are divided by whether LLQT or more remains; the result says whether counters remain; the branch for a missing timer is unreachable |
| `Queriers.Querier.SendQSources` | mcproxy/src/proxy/querier.cpp:740-773 | The startable sources get a shared timer of LLQT and LLQC queries; the queries of this round are sent and the next round is registered if counters remain |
| `Queriers.Querier.SendQGroup` | mcproxy/src/proxy/querier.cpp:696-737 | A burst starts only without a retransmission timer, sets the filter timer to LLQT and sends one query with the flag by the time left; a burst that has run out is cleared |
| `Queriers.Querier.SuggestToForwardTraffic` | mcproxy/src/proxy/querier.cpp:794-838 | The interface is appended to the outputs of a source if and only if the view of the group admits it and the filter accepts it |
| `Queriers.Querier.GetGroupMembershipInfos` | mcproxy/src/proxy/querier.cpp:840-867 | The view of the group: everything under compatibility effects, else mode and list, and INCLUDE({}) for an unknown group |
| `Defs.NextNewer` | mcproxy/src/proxy/def.cpp:62-69 | The next newer version doubles the number, stays in its family, and two steps reach the newest |
| `SourceLists.TimesInPlace` | mcproxy/include/proxy/def.hpp:76-98 | The two-cursor walk leaves a sorted list with exactly the common addresses, each with the payload of the left list |
| `SourceLists.MinusInPlace` | mcproxy/include/proxy/def.hpp:109-117 | Exactly the addresses of the right list are erased; the other payloads stay |
| `SourceLists.PlusInPlace` | mcproxy/include/proxy/def.hpp:60-65 | The union; an address that is in both keeps the payload of the left list |
| `SourceLists.KeptIsTimes` | mcproxy/include/proxy/def.hpp:76-98 | Keeping the entries whose address is in the right list is set intersection with the payload of the left list |
| `Timings.Timing.Deliver` | mcproxy/src/proxy/timing.cpp:44-81 | Exactly the due reminders are delivered, in the order of their deadlines, and leave the register |
| `Timings.KeptIfFirst` | mcproxy/src/proxy/timing.cpp:83-92 | Of different reminders exactly those are kept that are the first for their deadline |
| `Timings.SecondReminderIsLost` | mcproxy/src/proxy/timing.cpp:90 | Two reminders for one deadline leave the first one in the register |
| `Aggregation.MergeAllAdmits` | mcproxy/src/proxy/simple_mc_proxy_routing.cpp:72-96 | Merging views admits exactly the sources that some view admits |
| `Aggregation.MergeOrderIrrelevant` | mcproxy/src/proxy/simple_mc_proxy_routing.cpp:241-258 | The same views in any order merge to the same view |
| `Aggregation.FirstMatchListed` | mcproxy/src/proxy/simple_mc_proxy_routing.cpp:98-150 | A listed source is reported on upstream k if and only if it gets past the filters of all upstreams before and both filters accept it at k |
| `Aggregation.FirstMatchPartition` | mcproxy/src/proxy/simple_mc_proxy_routing.cpp:98-150 | Every listed source of a downstream is reported on exactly one upstream, dropped by an output filter, or left over |
| `Aggregation.FirstMatchExact` | mcproxy/src/proxy/simple_mc_proxy_routing.cpp:98-150 | With accept-all filters the first upstream gets the union of all memberships and the others INCLUDE({}) |
| `Aggregation.AsksOnlyForWanted` | mcproxy/src/proxy/simple_mc_proxy_routing.cpp:98-150 | With any filters an upstream is asked only for what some downstream admits if and only if every source struck from an EXCLUDE list that gets there is admitted by some downstream |
| `Aggregation.RejectedSourceIsAskedFor` | mcproxy/src/proxy/simple_mc_proxy_routing.cpp:126-130 | EXCLUDE({a}) with a rejected by the upstream makes the upstream ask for a |
| `MutexAggregation.KnownListed` | mcproxy/src/proxy/simple_mc_proxy_routing.cpp:152-239 | For any filters and modes a known source is listed on an upstream if and only if it arrives on an upstream and this is the last one that is the first for some downstream |
| `MutexAggregation.MutexExclusive` | mcproxy/src/proxy/simple_mc_proxy_routing.cpp:152-239 | With INCLUDE memberships the record for an upstream admits a known source if and only if it arrives on an upstream and is subscribed there by that rule, so on at most one; an unknown source if and only if filters let some downstream have it there |
| `MutexAggregation.SubscribedSomewhere` | mcproxy/src/proxy/simple_mc_proxy_routing.cpp:152-239 | A known source is subscribed somewhere if the filters of some upstream let some downstream have it |
| `MutexAggregation.ArrivalIsUnsubscribed` | mcproxy/src/proxy/simple_mc_proxy_routing.cpp:187-212 | With accept-all filters a source that arrives on the second upstream is subscribed on the first one only |
| `MutexAggregation.UnknownEverywhere` | mcproxy/src/proxy/simple_mc_proxy_routing.cpp:152-239 | An unknown source is listed on an upstream if and only if some downstream state lists it and gets it through the filters there, for any number of upstreams |
| `MutexAggregation.MutexReports` | mcproxy/src/proxy/simple_mc_proxy_routing.cpp:152-239 | For any known sources, with accept-all filters: the first upstream gets the memberships without the known sources that arrive on no upstream, the others those without all known sources; lists that become empty are dropped |
| `MutexAggregation.MutexCovers` | mcproxy/src/proxy/simple_mc_proxy_routing.cpp:224-231 | What each upstream is asked for: a struck source if and only if some EXCLUDE membership still lists a source, any other if and only if a membership that still lists a source admits it |
| `MutexAggregation.MutexReportsUnion` | mcproxy/src/proxy/simple_mc_proxy_routing.cpp:152-239 | The report is the union of the memberships if and only if a condition on the lists and the struck sources holds |
| `MutexAggregation.AnySourceIsLost` | mcproxy/src/proxy/simple_mc_proxy_routing.cpp:224-226 | A single join for any source is reported as INCLUDE({}), whatever sources are known |
| `MutexAggregation.AllButKnownIsLost` | mcproxy/src/proxy/simple_mc_proxy_routing.cpp:187-212 | A single join for all sources but one that is known to arrive on no upstream is reported as INCLUDE({}) |
| `Memberships.InterfaceMemberships.constructor` | mcproxy/src/proxy/simple_mc_proxy_routing.cpp:61-70 | One entry per upstream, in order, by the rule "first" or "mutex" |
| `Memberships.InterfaceMemberships.MergeMembershipInfos` | mcproxy/src/proxy/simple_mc_proxy_routing.cpp:72-96 | The list operations of the four pairs of modes admit exactly what one of both admits |
| `Memberships.InterfaceMemberships.ProcessUpstreamInFirst` | mcproxy/src/proxy/simple_mc_proxy_routing.cpp:98-150 | The nested loops that erase while they walk compute the first-match reports |
| `Memberships.InterfaceMemberships.ProcessUpstreamInMutex` | mcproxy/src/proxy/simple_mc_proxy_routing.cpp:152-239 | The nested loops that erase from both lists and clean earlier entries compute the mutex reports |
| `Memberships.InterfaceMemberships.GetGroupMemberships` | mcproxy/src/proxy/simple_mc_proxy_routing.cpp:241-258 | The front entry is merged and removed if it belongs to the upstream; otherwise INCLUDE({}) and no change |
| `Routing.SimpleRoutingData.SetSource` | mcproxy/src/proxy/simple_routing_data.cpp:60-81 | The source and its input interface are set together; a source seen again takes the packet count of the kernel |
| `Routing.SimpleRoutingData.DelSource` | mcproxy/src/proxy/simple_routing_data.cpp:83-95 | The source leaves list and map, and the group goes with its last source |
| `Routing.SimpleRoutingData.RefreshSourceOrDelItIfUnused` | mcproxy/src/proxy/simple_routing_data.cpp:97-125 | The source is refreshed if and only if its packet count moved; otherwise it is forgotten |
| `Routing.SimpleRoutingData.GetAvailableSources` | mcproxy/src/proxy/simple_routing_data.cpp:127-139 | The sources of the group; they have the same addresses as its interface map |
| `Routing.SimpleRoutingData.GetInterfaceMap` | mcproxy/src/proxy/simple_routing_data.cpp:160-171 | The input interfaces of the group, for exactly its known sources |
| `RoutingSpec.SetSourceFacts` | mcproxy/src/proxy/simple_routing_data.cpp:60-81 | Setting a source keeps list and map of every group on the same keys and changes the input interface of that source only |
| `RoutingSpec.DelSourceFacts` | mcproxy/src/proxy/simple_routing_data.cpp:83-125 | Forgetting a source keeps list and map of every group on the same, non-empty keys |
| `RoutingSpec.FirstAccepting` | mcproxy/src/proxy/simple_mc_proxy_routing.cpp:441-456 | Output rule "first": the earliest upstream whose output filter accepts the source, and no other |
| `RoutingSpec.Rerouted` | mcproxy/src/proxy/simple_mc_proxy_routing.cpp:499-555 | Setting routes rewrites the entries of exactly the listed sources: deleted without outputs, set if the input is accepted, otherwise left as they were |
| `RoutingSpec.SentFacts` | mcproxy/src/proxy/simple_mc_proxy_routing.cpp:485-497 | Every upstream has been sent its own aggregate, and the records of other groups stay |
| `Routing.SimpleMcProxyRouting.EventNewSource` | mcproxy/src/proxy/simple_mc_proxy_routing.cpp:300-326 | The whole new state: source with fresh timer, its route, and new records under the rule "mutex" |
| `Routing.SimpleMcProxyRouting.EventQuerierStateChange` | mcproxy/src/proxy/simple_mc_proxy_routing.cpp:328-343 | The whole new state: the routes of all known sources of the group and the records for all upstreams |
| `Routing.SimpleMcProxyRouting.TimerTriggeredMaintainRoutingTable` | mcproxy/src/proxy/simple_mc_proxy_routing.cpp:345-387 | A stale timer changes nothing; a live one refreshes the source or removes source and route and, under "mutex", renews the records |
| `Routing.SimpleMcProxyRouting.UpstreamsFor` | mcproxy/src/proxy/simple_mc_proxy_routing.cpp:441-456 | The upstream outputs by the rules "all" and "first" |
| `Routing.SimpleMcProxyRouting.CollectInterestedInterfaces` | mcproxy/src/proxy/simple_mc_proxy_routing.cpp:418-483 | Every source with a known input interface is listed once with exactly its outputs; the list is complete if all input interfaces are known, which the three events make sure of |
| `Routing.SimpleMcProxyRouting.SetRoutes` | mcproxy/src/proxy/simple_mc_proxy_routing.cpp:499-555 | The entries of the listed sources are set, deleted or left, and no other entry changes |
| `Routing.SimpleMcProxyRouting.ProcessMembershipAggregation` | mcproxy/src/proxy/simple_mc_proxy_routing.cpp:485-497 | Each upstream is sent the aggregate for it; no entry is refused as unexpected |
| `Routing.SimpleMcProxyRouting.CheckInterface` | mcproxy/src/proxy/simple_mc_proxy_routing.cpp:585-633 | The verdict of the filter of an interface of the proxy, and a refusal for any other interface |
| `ProxyRuns.Agreement` | mcproxy/src/proxy/simple_mc_proxy_routing.cpp:300-387 | After every run, for any filters: the kernel holds for every source exactly the entry decided on the current querier states unless a rejected move or a false join happened; every upstream has been sent exactly the current aggregate unless a false report happened |
| `ProxyRuns.NextAgrees` | mcproxy/src/proxy/simple_mc_proxy_routing.cpp:499-555 | From an agreeing state the kernel agrees after an event if and only if the event is neither a move of a forwarded source to an interface whose input filter rejects it nor a wrongly announced leave that a known source could follow; the records agree if and only if the event is not a wrongly announced leave under rule "first" while the first upstream is not asked for everything |
| `ProxyRuns.RejectedMoveHappens` | mcproxy/src/proxy/simple_mc_proxy_routing.cpp:521-543 | A concrete run of two sightings leaves a stale route behind |
| `ProxyRuns.FalseJoinHappens` | mcproxy/src/proxy/querier.cpp:137-162 | A concrete run of a sighting and an IGMPv2 leave leaves a forwarding entry that nobody asked for |
| `ProxyRuns.FalseReportHappens` | mcproxy/src/proxy/querier.cpp:137-162 | A single IGMPv2 leave makes the first upstream ask for every source of the group |
| `ProxyRuns.NoLoops` | mcproxy/src/proxy/simple_mc_proxy_routing.cpp:418-483 | With disjoint upstreams and downstreams no entry sends to its own input and none goes from upstream to upstream |
| `ProxyRuns.KernelIsRfc4605` | mcproxy/src/proxy/simple_mc_proxy_routing.cpp:418-483 | With accept-all filters and output rule "all", agreement is the forwarding rule of section 4.2 of RFC 4605 |
| `ProxyRuns.UpstreamReportsExact` | mcproxy/src/proxy/simple_mc_proxy_routing.cpp:485-497 | With rule "first" and accept-all filters the last record sent on the first upstream admits exactly the union of what the queriers admit, and the others hold INCLUDE({}) |
| `ProxyRuns.UpstreamReportsExclusive` | mcproxy/src/proxy/simple_mc_proxy_routing.cpp:152-239 | Under rule "mutex" with INCLUDE memberships the last records subscribe a known source exactly where the rule says, so on at most one upstream |
| `ProxyRuns.ArrivalStopsDelivery` | mcproxy/src/proxy/simple_mc_proxy_routing.cpp:300-326 | A run: a host joins a source, the source arrives on the second upstream, and the proxy has left it there and joined it on the first |
| `ProxyRuns.Rfc4605InEveryRun` | mcproxy/src/proxy/simple_mc_proxy_routing.cpp:300-387 | After every run of newest-version records, timers and sources on the interfaces of the proxy, forwarding and upstream reports are those of RFC 4605 |
| `AgreementReturns.EntryLaw` | mcproxy/src/proxy/simple_mc_proxy_routing.cpp:499-555 | From any state, for one source: the entry agrees after an event if and only if the event repairs it, or it agreed before and the event does not break it; both by conditions on the state before |
| `AgreementReturns.EntryInRuns` | mcproxy/src/proxy/simple_mc_proxy_routing.cpp:300-387 | From any state over any run: the entry of a source agrees at the end if and only if some event repairs it and no later one breaks it, or it agreed at the start and none breaks it |
| `AgreementReturns.StaleRouteRepaired` | mcproxy/src/proxy/simple_mc_proxy_routing.cpp:345-387 | From any state: a sighting on an accepted input and a check that forgets the source set its entry right |
| `AgreementReturns.RecordLaw` | mcproxy/src/proxy/simple_mc_proxy_routing.cpp:485-497 | From any state, for one group: the records agree after an event if and only if the event renews them, or they agreed before and the event does not misreport |
| `AgreementReturns.RecordsInRuns` | mcproxy/src/proxy/simple_mc_proxy_routing.cpp:328-343 | From any state over any run: the records of a group agree at the end if and only if some event renews them and no later one misreports, or they agreed at the start and none misreports |
| `FilteredProxy.ForwardsByFilters` | mcproxy/src/proxy/simple_mc_proxy_routing.cpp:418-555 | For any filters and rules, whenever the kernel agrees: a source is forwarded to an interface if and only if it is known, the input filter of its interface accepts it, and the interface is an upstream chosen by the output rule or another downstream that wants it and whose output filter accepts it |
| `FilteredProxy.ForwardsInEveryRun` | mcproxy/src/proxy/simple_mc_proxy_routing.cpp:300-387 | So it is after every run without a rejected move and a false join |
| `FilteredProxy.ReportsByFilters` | mcproxy/src/proxy/simple_mc_proxy_routing.cpp:98-150 | Rule "first" for any filters and modes: an upstream has been asked for a source if and only if some downstream membership makes the proxy ask for it there, told by the filters alone |
| `FilteredProxy.MutexByFilters` | mcproxy/src/proxy/simple_mc_proxy_routing.cpp:152-239 | Rule "mutex" for any filters with INCLUDE memberships: where a known and where an unknown source has been asked for, told by the filters alone |
| `SourceLiveness.SeenIsKnown` | mcproxy/src/proxy/simple_routing_data.cpp:60-81 | A sighting moves the source to the interface it was seen on, under a timer of its own, and touches no other source; only a source seen again takes the packet count |
| `SourceLiveness.CheckForgets` | mcproxy/src/proxy/simple_mc_proxy_routing.cpp:345-387 | A check forgets exactly the source that holds its timer and whose packet count has not moved, with its forwarding entry; no other source and entry is touched |
| `SourceLiveness.SilentSourceIsForgotten` | mcproxy/src/proxy/simple_routing_data.cpp:60-125 | The first check after a source was first seen lets it live, its timer is used up, and the second check forgets it if and only if the packet count has not moved |
| `RuleTables.MatchIsFlat` | mcproxy/src/parser/interface.cpp:113-122 | Matching terminates by definition index and structure and equals: some address rule of the flattened table matches |
| `RuleTables.MatchMeans` | mcproxy/src/parser/interface.cpp:42-86 | A table matches a packet if and only if one of the address rules it leads to covers it: interface by name unless empty, group and source each between the ends of its own part, an unspecified end being no bound |
| `RuleTables.OneRuleMatches` | mcproxy/src/parser/interface.cpp:58-86 | A table of one address rule, end by end: both ends of a range are included, an unspecified end lifts its own bound only, a single address matches itself only |
| `FilterBindings.FilterMeans` | mcproxy/src/parser/interface.cpp:301-313 | Without a filter everything passes, a whitelist passes what its rules cover, a blacklist the rest, a binding without a table nothing |
| `FilterBindings.EntriesAreLetIn` | mcproxy/src/proxy/simple_mc_proxy_routing.cpp:521-543 | Whenever the kernel agrees, a source with an entry is let in by the rules bound to its input interface, looked up under the name of that interface |
| `RuleTables.MatchIsStable` | mcproxy/src/parser/interface.cpp:202-210 | Later definitions never change what a table matches |
| `RuleTables.GlobalTableSet.Insert` | mcproxy/src/parser/interface.cpp:163-167 | A table is refused if and only if its name is taken; otherwise it is added and references stay acyclic |
| `RuleTables.GlobalTableSet.GetTable` | mcproxy/src/parser/interface.cpp:169-177 | The table of that name, if there is one |
| `TableParser.Parser.ParseTable` | mcproxy/src/parser/parser.cpp:181-235 | The table found follows the grammar; if the tokens from here are a table in the grammar, exactly that one is found |
| `TablePrinter.ReadBack` | mcproxy/src/parser/parser.cpp:181-343 | The parser reads back every table that is written out: names, rules in order, group before source, lower before upper end, inner tables and references |
| `TableParser.Parser.ParseRule` | mcproxy/src/parser/parser.cpp:237-274 | The rule found follows the grammar; if a rule stands here, exactly that one is found up to its closing bracket |
| `TableParser.Parser.ParseRulePart` | mcproxy/src/parser/parser.cpp:281-343 | The address, prefix or range found follows the grammar; if one stands here, exactly that one is found; the program ends if and only if a prefix above 128 stands here |
| `TableParser.Parser.GetAddr` | mcproxy/src/parser/parser.cpp:345-375 | The address spelled by the longest run of address tokens |
| `TableParser.NameBeforeTable` | mcproxy/src/parser/parser.cpp:240-253 | An interface name before an inner table makes no difference to the rule |
| `TableParser.NameHasNoEffect` | mcproxy/src/parser/parser.cpp:240-253 | A table written for interface eth0 around an inner table is parsed and matches packets of every other interface |
| `TableParser.TableRefs` | mcproxy/src/parser/parser.cpp:189-202 | A table that follows the grammar refers only to tables that are defined already |
| `TableParser.DefinedIsWellFounded` | mcproxy/src/parser/configuration.cpp:152-160 | Tables defined one after the other have unique names and acyclic references |
| `TableParser.RunTableCommands` | mcproxy/src/parser/configuration.cpp:138-161 | The table commands are accepted if and only if they define tables by the grammar with unique names; the result is well-founded |
| `Checksum.CalcChecksum` | mcproxy/src/utils/mroute_socket.cpp:154-178 | The complement of the one's-complement sum of the buffer; for up to 65535 bytes the accumulator stays below 2^31 and two folds suffice |
| `Checksum.ChecksumSound` | mcproxy/src/proxy/igmp_sender.cpp:166-204 | With the checksum stored in its zeroed aligned field the one's-complement sum of the whole buffer is 0xFFFF |
| `Checksum.OnesSumIsRemainder` | mcproxy/src/utils/mroute_socket.cpp:162-175 | The one's-complement sum is the plain sum up to multiples of 0xFFFF and zero only for zero |
| `IntervalCodes.QqiToQqic` | mcproxy/src/proxy/timers_values.cpp:87-107 | Up to 32767 the code decodes to the greatest representable value that is not above; beyond, if and only if the lower 16 bits are 0x7C00..0x7FFF |
| `IntervalCodes.MaxrespiToMaxrespcMldv2` | mcproxy/src/proxy/timers_values.cpp:155-176 | Below 2^23 the code is the best one if and only if the value is not 32767; beyond, if and only if the value is in the last 2^18 below 2^31 |
| `IntervalCodes.MaxrespiToMaxrespcIgmpv3` | mcproxy/src/proxy/timers_values.cpp:122-126 | Below 3276800 ms the code is the best one in tenths of a second and never above the value |
| `IntervalCodes.PackedIsBest` | mcproxy/src/proxy/timers_values.cpp:95-102 | For any mantissa width, exponent and mantissa taken at the highest bit give the greatest representable value that is not above |
| `IntervalCodes.DecodeMonotone` | mcproxy/src/proxy/timers_values.cpp:74-85 | For any mantissa width, greater codes decode to greater values |
| `IntervalCodes.BestMonotone` | mcproxy/src/proxy/timers_values.cpp:87-107 | Best codes grow with the value |
| `IntervalCodes.RecodeQqic` | mcproxy/src/proxy/timers_values.cpp:74-107 | Decoding and encoding gives every QQIC back |
| `IntervalCodes.RecodeMldv2` | mcproxy/src/proxy/timers_values.cpp:142-176 | Decoding and encoding gives every MLDv2 code back, except exactly 0x7FFF |
| `IntervalCodes.DefaultIntervals` | mcproxy/src/proxy/timers_values.cpp:197-237 | The default settings meet what the querier relies on: MALI and the older host present interval are 260 seconds, LLQT is 2 seconds |
| `ConfigText.DeleteComments` | mcproxy/src/parser/configuration.cpp:91-111 | The loop that erases comment by comment computes the stripped text |
| `ConfigText.StrippedLines` | mcproxy/src/parser/configuration.cpp:91-111 | Stripping keeps every newline and leaves no comment character |
| `ConfigText.KeptOutsideComments` | mcproxy/src/parser/configuration.cpp:91-111 | A character survives if and only if no comment that starts at or before it in its line covers it |
| `ConfigText.OriginLine` | mcproxy/src/parser/configuration.cpp:91-111 | A surviving character has as many newlines before it as in the original, and the order is kept |
| `ConfigText.SeparateCommands` | mcproxy/src/parser/configuration.cpp:113-136 | The result is exactly the list of commands between separators, trimmed, in order, each with one plus the newlines before its first character; nothing visible is lost |
| `ConfigText.LoadCommands` | mcproxy/src/parser/configuration.cpp:30-39 | The result is exactly the list of commands outside of comments, in the order of the file, each with one plus the number of newlines before its first character in the file |

## Left out

- General queries and the startup sequence: they change no membership state.
- Sockets, virtual interface numbers, reverse path filter files and other foreign calls.
- Packet receivers and the byte layout of queries; records and new sources are inputs.
- The MLD sender; its test for a leave looks at the filter mode differently from the IGMP sender
  (mcproxy/src/proxy/mld_sender.cpp:58), and the model has one abstract sender.
- Threads, locks and condition variables.
- `filter_time` and the filter timer as a source timer: nothing calls that path.
- Querier election: the program does not implement it.
- Adding and deleting interfaces at run time: routes are not recomputed there.
- The scanner, the parsing of instance definitions and rule bindings, and commands other than tables: they
  would only add easy members.
- Prefix arithmetic and the reading of addresses and numbers from text are parameters of the parser; one
  address family is modelled.
- 32-bit wrap-around of line numbers.
- FilterBindings.EntriesAreLetIn: every interface has a name in the model; the program refuses packets of an
  interface whose name it cannot find.
- Timings.Timing.AddTime: the deadline a timer carries and the one it is registered under are the same in the
  model, although the program reads the clock twice; the querier model assumes that no two registered timers
  share a deadline, because a second reminder for the same deadline is lost.
- IntervalCodes.MaxrespiToMaxrespcMldv2: the test for bit 31 is read as the sign extension of a 32-bit mask.
- ProxyRuns.Agreement: under the input rule "all" nothing is said about records, because the program logs an
  error and sends none.
- MutexAggregation.MutexReportsUnion: stated for filters that accept everything.
- Routing.SimpleMcProxyRouting.SetSourceTimer: source timers have no deadline in the model. The program takes
  the life time from the configuration under the rule "mutex" but registers the reminder with the constant
  of 20 seconds (mcproxy/src/proxy/simple_mc_proxy_routing.cpp:569-583).
- Queriers.Querier.SuggestToForwardTraffic: the routing layer of the model runs the same append for the view
  it is given and does not call the querier object.
- InterfaceMemberships and SimpleMcProxyRouting take the views of the downstreams as a parameter instead of
  reading the querier objects.
