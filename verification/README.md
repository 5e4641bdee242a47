# A verified model of the simulated exchange

The simulator plays two exchanges to one trading client each: Nasdaq (OUCH 4.2 over SoupBinTCP 3.00) and BATS (BOE).
Both sessions keep orders in maps keyed by token, collect requests in queues, and at every timer tick work off the
queues and fill orders at random. An administrator rations what they do through one behaviour manager they share.

This project models that order life cycle in Dafny and proves what it keeps over whole runs.

- `Ouch.dfy`, `Boe.dfy` and `Behavior.dfy` describe the two sessions and the manager as state machines on values:
  one function per handler and per pass of the tick, with the branches of the source.
- `OuchSession.dfy`, `BoeSession.dfy` and the class in `Behavior.dfy` are the objects themselves. Their fields are
  updated in place by the source's loops (swap and erase, keys collected for later erasure), and every method is proved
  equal to the state machine. The theorems about the state machine are therefore theorems about the objects.
- `OuchEffects.dfy` and `BoeEffects.dfy` say in plain terms, by quantities, limits and keys, what each operation does to an
  order and what it sends; `Questions.dfy` says what the manager answers. They fix the state machines independently of
  their own bodies.
- `OuchKeys`, `OuchExecution`, `OuchRenaming`, `OuchLedger`, `OuchDiscipline`, `OuchNarrowing`, `OuchSides`, `OuchMinimum`,
  `OuchEntries`, `OuchTrace`, `OuchLogin`, `OuchProgress`, `BoeTokens`, `BoeCancels` and `BoeTrace` prove what single
  passes and steps keep.
- `Faults.dfy` holds runs in which the client is misled.
- `Bytes.dfy` and `Walks.dfy` hold fixed-width numbers, the walks of a map and what a pass draws from outside.
- `Exchange.dfy`, `Rationing.dfy` and `Asking.dfy` run both sessions, the manager and the administrator together, in any
  order of steps, and state the results about runs.
- `Codec.dfy`, `Framing.dfy` and `Padding.dfy` treat bytes: byte order, the cutting of the receive buffer, padded numbers.

What the program draws from outside is an input of the model, so that each statement holds for all draws: the coin of a
random behaviour, the amount of a fill (1 to 10 hundreds), order ids, the clock, the order in which an `unordered_map`
is walked, and the contents of an order that `operator[]` inserts for a missing key. Within one tick the clock stands
still. The log is the sequence of messages sent, plus a marker where a logout or a lost connection ends a session.
Machine numbers are modelled where they matter: quantities are unbounded integers standing for int64, messages narrow
them to 32 bits, and times in force are narrowed to int32. OUCH events carry the int64 quantity that their message is
made from; what is sent, and what the client's ledger reads, is its low 32 bits. The machine is taken to be little-endian.

## What the code does that one might not expect

Each of these is kept in the model, and the statement named proves it.

- The branch for immediate-or-cancel orders (ouch_session.cpp:262-267) is never reached: `expired` is asked first and
  answers yes, so that those orders are reported as timed out (`Exchange.EveryRunKeepsKeysAndLogin`).
- The missing-order test of the replace pass (ouch_session.cpp:149) is never true, since line 148 inserts the order. A
  replace of an unknown token therefore works on an order with arbitrary contents. Keys survive this
  (`OuchKeys.ReplaceKeepsKeys`); quantities need replaces of live orders (`Exchange.EveryRunKeepsRanges`).
- Neither session clears its queue of modifies, so each request is tried again at every tick. For BOE each still takes
  effect only once, because its original token is gone, if clients never reuse tokens. An OUCH sell order can be
  changed twice at most. An OUCH buy order is changed at every tick (`OuchDiscipline.ModifiesAreRetried`): a cancel of
  some of its shares is undone by the modifies of the same tick, and as soon as it has executed what any request asked
  for it is erased without becoming a finished order, so that its token is accepted again. A client that raises what it
  asked for is misled much later, in a tick without any request (`Faults.RaisedModifyMisleads`). Exactly when this
  happens says `OuchDiscipline.ModifiesOrderlyExact`; it never does if no request raises the quantity of an earlier one.
- The `switch` over the side of an order has no breaks, and thereby accepts exactly those side changes of section 2.4
  of OUCH 4.2 that go down from SELL_SHORT over SELL_SHORT_EXEMPT to SELL (`OuchLedger.FallThroughKeepsDescents`). It
  has no case for buy orders, which accept any new side.
- An OUCH replacement of an order by its own token erases the order, although Replaced is sent
  (`Faults.SelfReplacementMisleads`), and two full cancels of an order in one tick are both reported
  (`Faults.TwoCancelsMislead`). Requests that touch an order closed earlier in the same pass make the client's view
  wrong exactly in the cases named by `CancelStepExact`, `ModifyStepExact` and `ReplaceStepExact`.
- `cancel_all` drops expired orders without a message (`Faults.CancelAllMisleads`); the client's view is right afterwards
  exactly when there are none with shares left (`OuchLedger.CancelAllExact`).
- A BOE modify that leaves no shares marks the order's old token for erasure, which is already gone; the order stays
  until an execution pass finishes it (`BoeTokens.ModifiesTidy`).
- `bm reset` does not reset the one-shot execution quantity, so `bm execute` stays in force
  (`Rationing.ExecuteIsRespected` allows resets). A cancel is charged twice in OUCH and once in BOE
  (`Rationing.CountedCancels`).
- Symbols and firms pass through `strncpy`; text after a NUL is not repeated to the client (`Codec.AnswerRepeatsOrder`).

## Model

| member | source | states |
|---|---|---|
| Exchange.EveryRunKeepsKeysAndLogin | ouch_session.cpp:86-277 | in every run, for any requests at all: each active or finished OUCH order is stored under its own token, no cancel is ever reported as immediate-or-cancel, and orders are accepted only within a login |
| Exchange.RuleKeeperKnowsItsBook | ouch_session.cpp:144-277 | for a client that keeps the rules below, replaying the messages gives the book: open quantity is remaining quantity for every order, and nothing is open under any other token |
| Exchange.RulesMakeOrderly | ouch_session.cpp:144-247 | a client that keeps the rules meets, in every pass of the run, no request that touches a closed order harmfully, retried modifies included |
| Exchange.SentModifiesFall | ouch_session.cpp:101-110 | if the client never raises what it asked for, the queue that is never cleared never does either |
| Exchange.OrderlyRunIsRebuilt | ouch_session.cpp:144-277 | the same conclusion from the weaker condition on the passes themselves that `Orderly` states |
| Exchange.EveryRunKeepsRanges | ouch_session.cpp:144-247 | when replaces name live orders, every reachable session is in range, alive and in agreement with the ledger; with an orderly client the ledger is the book |
| Exchange.LiveRunRanges | ouch_session.cpp:382-402 | executed and remaining are not negative and sum to 1000000 at most, all active orders are live, executed equals the Executed messages along the replacement chain, and the client knows side, price and time in force |
| Exchange.NothingIsLostInMessages | ouch_session.cpp:360-423 | when replaces name live orders, the int64 quantity that any message of the run is made from is in 0..1000000 and is sent as it is |
| Exchange.PartitionInEveryRun | ouch_session.cpp:249-277 | in such a run every order of an execution pass is held back unchanged, or keeps the sum of its quantities, or is finished with nothing left, or is dropped with a report of all that was left |
| Exchange.SellOrderStaysSell | ouch_session.cpp:173-202 | from any state, for any requests: a sell order that stays in the book stays a sell order along its replaces, and meets at most as many non-closing modifications as its side can descend, two at most |
| Exchange.TimeInForceInEveryRun | ouch_order.cpp:32-48 | at any tick of any run: an order with time in force 0 gets no fill and leaves at its first admitted pass, MARKET and SYSTEM orders are never dropped, an order is dropped as TimeOut with all its shares and only after its T seconds |
| Exchange.NoFillExceedsMinimum | ouch_session.cpp:387-389 | in every run, for any requests: no Executed message exceeds the minimum quantity that the Accepted or latest Replaced message of its token told, if that is not 0 |
| Exchange.FinishedTokensAreSpent | ouch_session.cpp:93-98 | from any state, for any requests: the token of a finished order stays finished and is never accepted again |
| Exchange.CancelledStaysCancelled | boe_session.cpp:180-185 | for clients that never reuse a token: once OrderCanceled was sent for a token it is not active, and no OrderExecution for it follows |
| Exchange.SparedRunProgresses | ouch_session.cpp:249-277 | after n admitted passes an order left alone has between max(0, q-1000n) and max(0, q-100n) shares, or is finished with all of them executed |
| Exchange.FilledInTime | ouch_messages.h:10 | such an order is in the book for the first ceil(q/1000) admitted passes and gone after ceil(q/100)+1, 10001 at the latest |
| Exchange.DisciplinedRunIsTidy | boe_session.cpp:77-167 | the invariant of runs in which BOE clients never reuse a token and cancel only active orders |
| Exchange.ModifyTakesEffectOnce | boe_session.cpp:144-167 | each queued BOE modify takes effect at most once in the whole run, and then its original token is gone from the book |
| Exchange.ModifiedIsTruthful | boe_session.cpp:223-239 | every OrderModified sent answers a queued request: with executed the sum of the fills reported before it along the tokens of the order, qty is max(requested, executed) and leaves is max(0, requested - executed) |
| Exchange.LeavesAreRemaining | boe_session.cpp:272-327 | the leaves quantity in the last Ack, Execution or Modified of an active BOE order equals what remains of it, and the fills reported along its tokens add up to what it has executed |
| Rationing.CountIsRespected | behavior_manager.h:60-120 | after `bm set count k n`, at most n actions of kind k succeed until kind k is set again, over both sessions |
| Asking.CountIsUsedUp | behavior_manager.h:60-120 | after `bm set count k n` the counter is max(0, n - questions asked by both sessions), and the next question is answered yes if and only if fewer than n were asked |
| Asking.NewOrdersAreCounted | ouch_session.cpp:86-99 | a valid order with a new token from a logged-in client is accepted if and only if fewer than n orders were asked about since the count was set |
| Asking.OuchStepUses | ouch_session.cpp:8-130 | how many questions of each kind an OUCH step asks, and that each uses up one of its counter |
| Asking.BoeStepUses | boe_session.cpp:65-142 | the same for a BOE step |
| Questions.CountedAnswers | behavior_manager.h:60-104 | after `bm set count k n` exactly the first n questions of kind k are answered yes, whatever else is asked and commanded meanwhile |
| Questions.UncountedAnswers | behavior_manager.cpp:54-202 | after the commands that set it, reset included, a default behaviour answers yes and a random one answers its coin, until the behaviour of the kind is set again |
| Questions.QuantityIsHandedOutOnce | behavior_manager.h:139-144 | after `bm execute n` the first to take the quantity gets n, all others 0; without it everybody gets -1 |
| Rationing.CountedActions | behavior_manager.cpp:97-149 | the same for accepted logins, accepted orders, fills and queued modifies, counted in the logs and queues |
| Rationing.CountedCancels | ouch_session.cpp:226-247 | with an empty OUCH cancel queue at the start, 2 x (OUCH user cancels) + (BOE user cancels) is at most n |
| Rationing.ExecuteIsRespected | behavior_manager.cpp:205-223 | after `bm execute n`, BOE fills at most n shares, in at most one fill, until the quantity is set again; a spent quantity is 0 and never the sentinel |
| Rationing.MessagesAreNumbered | boe_session.cpp:272-284 | BOE acknowledgements and fills are numbered 1, 2, 3 and so on over the whole run, modulo 2^32 |
| OuchKeys.ReplaceKeepsKeys | ouch_session.cpp:144-170 | inside the replace pass all keys not awaiting erasure hold their own token, for unknown, colliding and self replacements too |
| OuchKeys.ModifyKeepsKeys | ouch_session.cpp:173-202 | erasing by the token of the order hits a key that a request named |
| OuchKeys.CancelKeepsKeys | ouch_session.cpp:226-247 | the cancel pass keeps orders under their tokens |
| OuchKeys.ExecuteKeepsKeys | ouch_session.cpp:249-277 | the execution pass keeps orders under their tokens, and reports no immediate-or-cancel |
| OuchKeys.StepKeepsKeys | session.h:96-150 | one step of any kind keeps keys, times and reasons |
| OuchExecution.ExecutionIsPartition | ouch_session.cpp:249-277 | for every walk of the map and every answer of the manager the pass is a one-shot partition of the book: kept, finished or dropped, no other key touched, messages in the order of the walk |
| OuchExecution.EachSettledOnce | ouch_session.cpp:251-274 | each key is settled by its own visit and by no other; orders the manager holds back keep everything |
| OuchExecution.PassAsksOncePerVisit | ouch_session.cpp:254-255 | the pass asks the manager once per order |
| OuchExecution.WalkDoesNotMatter | ouch_session.cpp:251-277 | two walks in which every order meets the same answer and the same amount leave the same books |
| OuchExecution.TimeInForceRespected | ouch_order.cpp:32-64 | in one pass: the only reason is TimeOut with the whole remaining quantity, IOC leaves at the first admitted visit, MARKET and SYSTEM are not dropped, T seconds are dropped when due and not before |
| OuchRenaming.ReplaceLogicRenames | ouch_session.cpp:144-170 | a batch of replaces, chains included, is a renaming of the book: exactly the orders no replace closed remain, each at the end of its chain, different orders at different tokens |
| OuchRenaming.TrailKeepsOrder | ouch_session.cpp:156-165 | along its chain an order keeps id, symbol, side and executed quantity; token, total quantity, price and time in force are those of the last replace; orders not named are unchanged |
| OuchLedger.StepSound | ouch_session.cpp:86-277 | one step keeps ranges and agreement with the ledger; an orderly one keeps the ledger equal to the book |
| OuchLedger.CancelStepExact | ouch_session.cpp:228-243 | one cancel keeps the ledger right if and only if it takes no shares from an order closed in the same pass |
| OuchLedger.ModifyStepExact | ouch_session.cpp:175-199 | one modify keeps the ledger right if and only if it does not reopen an order closed in the same pass |
| OuchLedger.ReplaceStepExact | ouch_session.cpp:146-166 | one replace of a live order keeps the ledger right if and only if it does not close an order twice, and does not go to itself or to a closed token |
| OuchDiscipline.CancelPassExact | ouch_session.cpp:226-247 | the ledger is right after every cancel of a pass if and only if the pass is orderly |
| OuchDiscipline.ModifyPassExact | ouch_session.cpp:173-202 | the ledger is right after every modify of a pass if and only if none reopens an order |
| OuchDiscipline.ReplacePassExact | ouch_session.cpp:144-170 | the ledger is right after every replace of a pass of live replaces if and only if the pass is orderly |
| OuchDiscipline.ModifiesOrderlyExact | ouch_session.cpp:173-202 | a pass reopens an order if and only if the queue holds an admissible request for no more than it has executed and, further back, an admissible one for more |
| OuchDiscipline.ModifiesAreRetried | ouch_session.cpp:175-199 | what the queue does to a buy order at every tick: closed once any request is reached by its executions, and not finished; otherwise set to what the last request leaves, whatever it had |
| OuchDiscipline.FallingIsOrderly | ouch_session.cpp:173-202 | if no request raises the quantity of an earlier one for the same token, no order is reopened, whatever was executed |
| OuchDiscipline.RulesAreOrderly | ouch_session.cpp:132-138 | one step in which the waiting requests keep the rules is orderly in every pass |
| Faults.RaisedModifyMisleads | ouch_session.cpp:173-202 | a run after which the client believes in 200 shares of an erased order: a buy order modified to 500 and then to 800, with 600 executed |
| Faults.SelfReplacementMisleads | ouch_session.cpp:163-165 | a run after which an order replaced by its own token is gone although Replaced was sent |
| Faults.TwoCancelsMislead | ouch_session.cpp:228-246 | a run after which two full cancels of one tick have been reported with all shares each |
| Faults.CancelAllMisleads | ouch_session.cpp:204-215 | a run after which cancel_all has dropped an expired order without a message |
| OuchNarrowing.StepFits | ouch_session.cpp:360-402 | one step makes messages only from quantities in range |
| OuchNarrowing.DecrementIsNarrowed | ouch_session.cpp:233-239 | narrowing before the subtraction, as cancel_logic does, sends the same as narrowing after it |
| OuchSides.StepDescends | ouch_session.cpp:173-202 | in one step of any kind the side of a sell order descends by the number of modifications reported |
| OuchSides.ReplacesFollow | ouch_session.cpp:144-170 | one order through a batch of replaces, whatever the others name: as long as nobody is given its token it is where its chain leads, on the same side |
| OuchLedger.CancelAllExact | ouch_session.cpp:204-215 | after cancel_all the ledger is right if and only if no order with shares left had expired |
| OuchLedger.FallThroughKeepsDescents | ouch_session.cpp:180-190 | a sell order may change side if and only if OUCH 4.2, section 2.4, allows it and the change descends |
| OuchLedger.VisitSound | ouch_session.cpp:382-402 | a visit changes only quantities, keeps their sum, and reports exactly what it changed under the order's token and price |
| OuchLogin.LoginsAreSeparated | ouch_session.cpp:8-22 | between two accepted logins lies a logout or a lost connection |
| OuchLogin.StepRegular | session.h:28 | one step keeps the login discipline of the log; a disconnect leaves both books unchanged |
| OuchTrace.StepPays | ouch_session.cpp:121-130 | every login, order, queued request, cancel and fill of a step was paid for at the manager |
| OuchTrace.CancelsPay | ouch_session.cpp:226-247 | a cancel worked off costs its place in the queue and a second charge |
| OuchProgress.VisitProgress | ouch_session.cpp:382-402 | one admitted visit fills 100 to 1000 shares, or what is left, and finishes an order with nothing left |
| OuchProgress.StepProgress | ouch_session.cpp:132-138 | a step that spares an order advances its progress by one exactly when an execution pass admits it |
| BoeTokens.StepTidy | boe_session.cpp:77-167 | one step of a disciplined client keeps the token invariant |
| BoeTokens.ModifiesTidy | boe_session.cpp:144-167 | in the modify pass no request takes effect twice, and the keys marked for erasure are never in the book |
| BoeTokens.FillsKeepTotals | boe_session.cpp:308-327 | a pass of fills keeps executed plus remaining of every order, never takes executed back, and changes nothing else |
| BoeTrace.StepPays | boe_session.cpp:126-142 | every success and every share filled in a step was paid for, and its messages continue the numbering |
| BoeTrace.ExecutesTally | boe_session.cpp:308-327 | a pass of fills pays for fills and shares, over all orders |
| Behavior.AskPays | behavior_manager.h:60-104 | a successful question costs one of its own counter and nothing of any other |
| Behavior.BehaviorManager.Question | behavior_manager.h:132-138 | the dispatch through the behaviour pointer: answer and new counters |
| Behavior.BehaviorManager.ExecutionQty | behavior_manager.h:139-144 | the one-shot quantity is handed out once, then 0; -1 stays |
| Behavior.BehaviorManager.Command | behavior_manager.cpp:54-223 | which pointer, counter and quantity each administrator command changes, out-of-range arguments included |
| Behavior.BehaviorManager.constructor | behavior_manager.cpp:5-14 | all actions allowed, no quantity set |
| OuchEffects.CancelOfOrder | ouch_session.cpp:233-242 | an admitted cancel: quantity 0 marks the order and reports all its shares; less than it has leaves exactly that quantity and reports the difference; any other changes nothing and sends nothing |
| OuchEffects.CancelRejected | ouch_session.cpp:229-232 | any other cancel is rejected and changes no order |
| OuchEffects.CancelsKeepTheLeast | ouch_session.cpp:226-247 | after the cancel pass an order is gone if and only if an admitted cancel was full; otherwise it has the least of its shares and of what the admitted cancels want to keep |
| OuchEffects.ModifyOfOrder | ouch_session.cpp:191-198 | a modify that passes the switch closes the order or gives it the requested quantity less the executed one, and reports just that |
| OuchEffects.ModifiesDecide | ouch_session.cpp:173-202 | after the modify pass, for any side: gone if and only if some request that reaches the order asks for no more than it has executed; otherwise the last request that reaches it decides |
| OuchEffects.OnlySellsAreChecked | ouch_session.cpp:180-190 | orders that are no sell orders may be changed to any side |
| OuchEffects.ReplaceOfOrder | ouch_session.cpp:151-165 | a replace of a live order is carried out if and only if executed < qty <= 999999, with all fields of the order and of the message; otherwise it is cancelled by the system |
| OuchEffects.TrailByTokens | ouch_session.cpp:146-166 | an order is closed in a batch if and only if some request on its chain of tokens asks for more than 999999 or for no more than was executed |
| OuchEffects.FreshReplacesExact | ouch_session.cpp:144-170 | a fresh batch by tokens and quantities alone: exactly the orders without refused request are in the new book, each at the end of its chain with the last requested quantity |
| OuchEffects.VisitOfOrder | ouch_session.cpp:256-273 | an admitted visit case by case: TimeOut, immediate-or-cancel, finished, filled by min(100 x roll, remaining) unless that exceeds a minimum quantity, or left alone |
| OuchEffects.EnterOfOrder | ouch_session.cpp:86-99 | an order is accepted if and only if it is valid, at most 999999 shares, within a login, admitted and new; its fields, and the answer in every other case |
| OuchEffects.QueueOfRequest | ouch_session.cpp:101-130 | exactly when modifies, replaces and cancels are queued |
| OuchEffects.ReplaceOfNoOrder | ouch_session.cpp:147-150 | a replace of an unknown token does what it would do if the inserted order had been there |
| OuchEffects.CancelAllOfBook | ouch_session.cpp:204-215 | cancel_all empties the book and reports exactly the live orders with shares left whose time is not over, all their shares, as cancelled by the system |
| OuchEffects.LoginOfClient | ouch_session.cpp:8-17 | exactly when a login is accepted, and which rejection is sent otherwise |
| OuchEffects.HeartbeatOfSession | ouch_session.cpp:279-288 | a heartbeat when logged in and a second after the last one |
| OuchEffects.ValidRequests | ouch_session.cpp:453-550 | the validators of the four requests in numbers and letters |
| OuchEffects.TickForOneOrder | ouch_session.cpp:132-138 | an order no replace names goes through the tick: first the cancels, then the modifies decide what the execution pass finds; the queues of cancels and replaces are empty then, the one of modifies is not |
| BoeEffects.CancelledOrdersLeave | boe_session.cpp:169-186 | after the cancel pass exactly the orders with an admitted cancel are gone, the others are as they were, and each request is reported |
| BoeEffects.ReportsNameCancelled | boe_session.cpp:180-181 | OrderCanceled is reported for exactly the orders that leave |
| BoeEffects.ModifyOfOrder | boe_session.cpp:149-163 | a modify of an active order moves it to its new token with its identity and executed shares, and reports the new quantities |
| BoeEffects.ModifyByOwnToken | boe_session.cpp:161-163 | a modify by the order's own token loses the order and reports the inserted one |
| BoeEffects.VisitOfOrder | boe_session.cpp:131-138 | a visit case by case: held back, finished, filled by the one-shot quantity or by 100 x roll, never by more than is left, at the price of the order |
| BoeEffects.EachVisitedOnce | boe_session.cpp:126-142 | each order of a pass is as its own visit left it |
| BoeEffects.OneShotGoesToTheFirst | boe_session.cpp:126-142 | after `bm execute n` the next pass fills the first order of its walk that can be filled, by min(n, remaining), and no other |
| BoeEffects.EnterOfOrder | boe_session.cpp:107-117 | acknowledged if and only if the token is not active and it is admitted; its fields and the message |
| BoeEffects.QueueOfModify | boe_session.cpp:77-90 | exactly when a modify is queued, and which rejection is sent otherwise |
| BoeEffects.QueueOfCancel | boe_session.cpp:92-105 | when a cancel is queued, and what it inserts when its token is not active |
| BoeEffects.LoginOfClient | boe_session.cpp:65-75 | exactly when a login is accepted |
| BoeEffects.CloseOfSession | session.h:28 | a lost connection ends the login and nothing else |
| BoeEffects.CancelAllOfBook | boe_session.cpp:188-199 | cancel_all empties the book and reports exactly the orders with 1 to 1000000 shares left |
| BoeCancels.StepGone | boe_session.cpp:77-199 | one step of a disciplined client: cancelled tokens stay inactive and unexecuted |
| OuchMinimum.StepKeeps | ouch_session.cpp:86-277 | one step keeps the client's knowledge of minimum quantities and every fill within them |
| OuchEntries.StepKeepsFinished | ouch_session.cpp:93-98 | one step keeps finished tokens finished and accepts none of them |
| OuchSession.OuchSession.constructor | ouch_session.cpp:296-323 | a new session is empty and not logged in |
| OuchSession.OuchSession.HandleLoginRequest | ouch_session.cpp:8-17 | refines the login of the state machine |
| OuchSession.OuchSession.Disconnect | session.h:28 | logout and lost connection: only the login state changes |
| OuchSession.OuchSession.HandleEnterOrder | ouch_session.cpp:86-99 | validation, rejection, the manager's answer, duplicate tokens of active and finished orders, acceptance |
| OuchSession.OuchSession.HandleModifyOrder | ouch_session.cpp:101-110 | queues a modify of an active order |
| OuchSession.OuchSession.HandleReplaceOrder | ouch_session.cpp:112-119 | queues a replace, of any order |
| OuchSession.OuchSession.HandleCancelOrder | ouch_session.cpp:121-130 | queues a cancel of an active order |
| OuchSession.OuchSession.CancelLogic | ouch_session.cpp:226-247 | the loop over the queue with deferred erasures refines the fold of cancel steps |
| OuchSession.OuchSession.ModifyLogic | ouch_session.cpp:173-202 | the loop refines the fold of modify steps; the queue stays |
| OuchSession.OuchSession.ReplaceLogic | ouch_session.cpp:144-170 | the loop with insertion, swap and erase refines the fold of replace steps |
| OuchSession.OuchSession.SwapAndErase | ouch_session.cpp:163-165 | swap with a possibly missing entry and erase: one order moves, the other is dropped |
| OuchSession.OuchSession.ExecutionLogic | ouch_session.cpp:249-277 | the loop over the map refines the fold of visits |
| OuchSession.OuchSession.ConstructOrderExecuted | ouch_session.cpp:382-402 | fill, minimum quantity and message |
| OuchSession.OuchSession.HeartbeatLogic | ouch_session.cpp:279-288 | a heartbeat when logged in and a second has passed |
| OuchSession.OuchSession.MarketLogic | ouch_session.cpp:132-138 | the five passes in their order |
| OuchSession.OuchSession.CancelAll | ouch_session.cpp:204-215 | reports the orders still active, empties the book, and counts the reports |
| BoeSession.BoeSession.HandleLoginRequest | boe_session.cpp:65-75 | asks the manager first, then the login state |
| BoeSession.BoeSession.HandleNewOrder | boe_session.cpp:107-117 | rejection of active tokens, acceptance with the next sequence number |
| BoeSession.BoeSession.HandleModifyOrder | boe_session.cpp:77-90 | queues a modify of an active or finished order, or rejects it |
| BoeSession.BoeSession.HandleCancelOrder | boe_session.cpp:92-105 | queues, inserts and rejects as the chain of tests does |
| BoeSession.BoeSession.CancelLogic | boe_session.cpp:169-186 | the loop refines the fold of cancel steps |
| BoeSession.BoeSession.ModifyLogic | boe_session.cpp:144-167 | the loop with swap, erase and reinsertion refines the fold of modify steps |
| BoeSession.BoeSession.ExecutionLogic | boe_session.cpp:126-142 | the loop over the map refines the fold of visits |
| BoeSession.BoeSession.ConstructOrderExecuted | boe_session.cpp:308-327 | fill by one-shot quantity or by amount drawn, none for 0 |
| BoeSession.BoeSession.MarketLogic | boe_session.cpp:119-124 | the four passes in their order |
| BoeSession.BoeSession.CancelAll | boe_session.cpp:188-199 | reports the orders still active, empties the book, and counts the reports |
| Codec.AnswerRepeatsOrder | ouch_session.cpp:325-348 | the bytes of token, side, quantity, price, time in force, display, capacity, sweep, minimum quantity and cross type of OrderAccepted are those of the EnterOrder; symbol and firm are if and only if they are padded with NULs |
| Codec.AnswerIsWhole | ouch_messages.h:425-455 | the answer is a whole packet with big-endian timestamp and reference number |
| Codec.FieldsAreBigEndian | ouch_messages.h:332-337 | after from_network the fields are the big-endian numbers that were sent |
| Codec.TurnInPlace | ouch_messages.h:332-337 | one number is turned in place, every other byte stays |
| Codec.EnterFromNetworkInPlace | ouch_messages.h:332-337 | the four numbers of EnterOrder are turned in place |
| Codec.AcceptedToNetworkInPlace | ouch_messages.h:429-436 | the six numbers of OrderAccepted are turned in place |
| Codec.AnswerInPlace | ouch_order.cpp:40-56 | packet to answer, over the in-place conversions |
| Codec.ValidateEnterOrder | ouch_session.cpp:482-522 | validation works on a copy and accepts exactly well-framed packets with valid fields |
| Codec.EachIsTurned | ouch_messages.h:429-436 | numbers that do not overlap are each turned, independently of the others |
| Codec.TurningIsByteOrder | ouch_messages.h:7-8 | turning the bytes is reading the number in the other byte order |
| Codec.CopyingKeepsPadded | ouch_order.cpp:48 | strncpy keeps a field if and only if it is padded with NULs |
| Framing.Read | tcp_server.cpp:88-94 | the read loop ends for any memory contents and hands over the frames in order |
| Framing.ReadUndoesConcatenation | tcp_server.cpp:123-129 | for whole packets the frames are exactly the packets, in order, in both protocols |
| Framing.FramesTile | tcp_server.cpp:80-99 | whatever arrives, frames are adjacent, at least two bytes long, and only the last may reach past the bytes received |
| Padding.PadNumber | ouch_session.cpp:583-596 | memset and copy in place leave spaces and then the digits |
| Padding.PaddedNumbersAreReadBack | ouch_session.cpp:568-596 | any 32-bit number fits 10 and 20 characters, the field has the form the validator demands, and stripping and reading gives the number back |
| Padding.DecimalLength | ouch_session.cpp:590-591 | a number has at most k digits if and only if it is below the k-th power of ten |

Conditions of the run theorems, in words. The rules for clients of `Exchange.RuleKeeperKnowsItsBook`: of one order, no
modify ever asks for more than an earlier one (`ModifiesFall`, about the requests sent); among the requests waiting at a
tick, no cancel follows a full cancel of the same order, no order is replaced twice, and none is given a token that the
same or an earlier replace replaces; replaces are worked off while their order is in the book; and the administrator
cancels all only when no order with shares left has expired. Whether an order is still in the book at the tick depends on
fills and time, and is the one rule that a client cannot check when it sends. `Orderly`, the weaker condition of
`Exchange.OrderlyRunIsRebuilt`, is about the passes: that each request, retried modifies included, meets an order it does
no harm to, given what was filled and closed before. A disciplined BOE client introduces every token once and cancels
orders that are active.

## Left out

- Sockets, timers, acceptors, reconnects, logging, `main`, configuration and scripts: input and output only.
- Dispatch on packet and message types, and the length checks of messages other than EnterOrder: the sessions take
  decoded requests, and validation is modelled on their fields.
- Byte layouts of messages other than EnterOrder and OrderAccepted; they use the same conversions.
- curr_status and message printing: formatting only.
- The administrator's console: commands arrive parsed, so wrong argument counts and unreadable numbers do not occur.
- The probabilities of random behaviour: a coin that may fall either way each time.
- The values of rand, order ids, match numbers, execution ids and timestamps: inputs, or not part of a message.
- The echo of parameters in BOE login responses, bit fields, reason texts, and fields that the code leaves unset.
- Messages that are declared but never sent or read.
- Packets that arrive in pieces: what the loops do with them is covered only by termination and `Framing.FramesTile`.
- Orders are values in the maps, as in the source, where the maps hold them by value; references into the maps live
  within one round of a loop, and each round is one method.
- The sizes of int64 quantities are not checked for overflow: an order inserted for a missing key is arbitrary.
- Exchange.OrderlyRunIsRebuilt: sufficient and not necessary at the end of a run, because a second fault can hide a
  first one (a reopened order may be closed again); after every single request of a pass it is exact.
- Exchange.SellOrderStaysSell: about orders that stay in the book and whose token no replace gives to another order; an
  order that is overwritten or erased is no longer followed.
- Exchange.FilledInTime: about orders without minimum quantity, since an order whose fills exceed its minimum quantity
  gets none.
