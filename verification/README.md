# A verified model of the game server

The server plays a two-player game on a map of 8 by 8 cells. The players take turns walking, placing bombs and guns, or
resigning. After every accepted move all bombs, guns and bullets are ticked once, in the order of a list which the ticks
themselves change. What happens is appended to a log, and clients follow the log with long polls. This project models

* the turn engine (`Session` and the objects it ticks),
* the log with its index by move number (`EventListWrapper`),
* the move validator,
* the two long-poll notifiers and the game manager that joins them with the sessions,
* the connection pool and the URL parameter parser,

and proves what they promise, over every input, every run and every reachable state.

## How the model is built

Code that updates objects in place is a class here, with the same fields and methods: `Player`, `Bomb`, `Gun`, `Bullet`
and `Session` (`Session.dfy`), `EventListWrapper` (`EventLog.dfy`), `SessionStateNotifier` (`StateNotifier.dfy`),
`QueueNotifier`, `GameManager`, `ConnectionPool`. Each method is proved against a value-level reference, and the properties
are proved of the reference:

* `Ticks.dfy` says what one tick does: which ids it erases, what it appends, who dies, which events it returns.
* `Rounds.dfy` has the simple form of a round: a worklist processed front to back (`Round`, `Traverse`). `Session.AfterMove`
  walks the list with the two iterators `prev` and `it`, which are object identities in the model, and is proved equal to
  `Traverse`.
* `Game.dfy` is a session as a value: `Accept` is one accepted move, `Play` a run of requests from `Init`.
* `GameServer.dfy` follows one session and one watching client through everything the server does.

**The lost iterator.** If a bullet steps on the bullet that `prev` refers to, the tick erases both, and the walk then reads an
erased list node. A move therefore has an explicit outcome `PrevErased`. `WalkCanLosePrev` gives six valid requests from the
start of a game that lead to it, in the code without the timer (see "Left out"). `MoveLostExactly` says exactly which moves
have it: those for which, at some point of the plain worklist, the next object is a bullet that steps, inside the map, on the
last survivor, which is a bullet too.
`TargetsDefineMove` is a test a caller can make before the move, and `OneDirectionDefinesMove` the case of guns and bullets
that all face one way. Otherwise theorems about completed moves need no hypothesis.

**Order of proofs.** `RoundBoard.dfy` and `RoundStory.dfy` prove what one round does to cells, bullets and countdowns;
`GameInvariant.dfy` and `GameRun.dfy` lift this to every reachable state; `GameRequests.dfy` says what a request does for its
sender; `GameStories.dfy`, `GameVerdict.dfy`, `GameFlight.dfy` and `GameHazard.dfy` state the life of bombs and guns, the
verdict, the flight of bullets and the lost iterator over whole runs. `GameReplay.dfy` proves that the log determines the
board, so that a polling client can rebuild the game.

Where the game rules in the repository's documentation and its code differ (radii, the random winner), the model follows the
code. A comment in the header of the session notifier says that closing a session sends `PollClosed` to those who wait for an
answer; the code sends `NotRelevant`, and so does the model. `QueueNotifier::Unsubscribe` with a reason returns false even
when it dismissed a poll, and without a reason it drops a stored responder uncalled; `ConservedExactly` says that responders
are conserved exactly in the runs in which the latter does not happen. `ResponderLost` is a run in which it does. The program
itself makes only one call without a reason, right after having called the responder, so its runs are those of
`ProgramConserves`. A notification that comes while another one is kept is dropped: `NewsConservedExactly` says that
notifications are conserved exactly in the runs in which that does not happen, and `NewsLost` is one in which it does, a player
being matched again without having polled for the first session.

## Model

| member | source | states |
|---|---|---|
| Ticks.VictimExactly | src/game_manager/session.cpp:228-242 | a bomb kills exactly if a player stands on a map cell at most one column and one row away; the victim stands on such a cell, and no player stands on one of a lesser column, or of the same column and a lesser row |
| Ticks.BulletTells | src/game_manager/bullet.cpp:37-55 | the events of a bullet's tick, entry by entry: outside the map its destruction, on an empty cell its flight, else one interaction for each wall, object and player met, in this order, with what happened to it, and its destruction |
| Ticks.DeathTold | src/game_manager/player.cpp:15-22 | the events of a bullet's tick hold the interaction with a player who dies exactly if the bullet steps, inside the map, on that player |
| Ticks.LandReplace | src/game_manager/bullet.cpp:34-55 | what a bullet does on its new cell does not depend on whether the list already shows the bullet there |
| Rounds.StepDecreases | src/game_manager/session.cpp:129-153 | every tick uses up work, 2 for a pending gun and 1 for any other pending object, although it may append to the list |
| Rounds.TickPossible | src/game_manager/gun.cpp:27-43 | a tick erases nothing or at least the ticked object, and appends nothing or one bullet with the next id on the cell of the ticked gun |
| Rounds.TickedIsApply | src/game_manager/session.cpp:129-153 | with unique ids, a step of the worklist is the tick's effect on the whole list |
| Rounds.StepFresh | src/game_manager/session.hpp:57-58 | ids stay unique and below the counter at every step, and which ids are in each half of the list |
| Rounds.RoundLedger | src/game_manager/session.cpp:129-153 | at the end of any round, every id of the starting list or handed out since is pending, ticked or lost before its tick, in exactly one of these ways |
| Rounds.ExactlyOnce | src/game_manager/session.cpp:129-153 | in an undecided round every object, new bullets included, is ticked exactly once or was erased before its tick |
| Rounds.RoundEnds | src/game_manager/session.cpp:136-141 | a round ends with nothing pending or with a decided scoreboard, which only grew |
| RoundBoard.TickLands | src/game_manager/bullet.cpp:17-55 | a bullet that survives its tick stands on an empty cell of the map; anything else stays where it is |
| RoundBoard.RoundApart | src/game_manager/session.cpp:244-261 | throughout a round, objects stay on clear cells and no two share one, except a gun and the bullet it has just fired |
| RoundBoard.TickAdvances | src/game_manager/bullet.cpp:34-55 | a tick advances its object by one step, and erases another object only if a bullet steps on a bullet |
| RoundBoard.RoundAdvances | src/game_manager/session.cpp:138-153 | at the end of a round every survivor has advanced exactly once, bullets among them are inside the map, and only bullets were lost |
| RoundBoard.PrevErasedExactly | src/game_manager/session.cpp:142-151 | the next tick erases the object held by `prev` exactly if a bullet steps, inside the map, on that object and it is a bullet |
| RoundBoard.RoundLostExactly | src/game_manager/session.cpp:141-152 | a round loses `prev` exactly if the worklist comes to an undecided point where a bullet steps on the last survivor |
| RoundBoard.TargetsMakeSafe | src/game_manager/session.cpp:141-152 | if no two shots of a round aim at the same cell, no tick of it erases the object held by `prev` |
| RoundBoard.OneDirectionTargets | src/game_manager/bullet.cpp:17-35 | guns and bullets on different cells that all face one way aim at different cells |
| RoundStory.TickPage | src/game_manager/bomb.cpp:22-30 | a tick of a bomb or gun logs exactly the page of its countdown, and only events of that object |
| RoundStory.OnePageEach | src/game_manager/session.cpp:138-153 | in an undecided round every bomb and gun logs its page exactly once and is then advanced or gone |
| RoundStory.ActorsTicked | src/game_manager/session.cpp:134-143 | every event of a round is of an object that was ticked in it |
| EventLog.FromMoveIsSince | src/game_manager/event_manager.cpp:38-45 | with an agreeing index, `FromMove(k)` is the subsequence of events with move number at least `k`, for every integer `k` |
| EventLog.AddKeepsIndex | src/game_manager/event_manager.cpp:16-31 | an added event keeps the index agreeing exactly if its move number is at most one beyond the last logged one |
| EventLog.AddAllAppends | src/game_manager/event_manager.cpp:32-37 | driven as by `Session`, adding events never throws, appends them stamped, keeps the index, and adds one index entry exactly for a new move |
| EventLog.AddAllConcat | src/game_manager/event_manager.cpp:32-37 | adding two lists of events is adding their concatenation, the throwing case included |
| EventLog.EventListWrapper.constructor | src/game_manager/event_manager.hpp:23-26 | a new log is empty, with move number 0 |
| EventLog.EventListWrapper.Clear | src/game_manager/event_manager.cpp:7-11 | the log is empty again |
| EventLog.EventListWrapper.SetMoveNumber | src/game_manager/event_manager.cpp:46-48 | only the move number changes |
| EventLog.EventListWrapper.AddEvent | src/game_manager/event_manager.cpp:16-31 | appends the stamped event and indexes a new move, or throws and leaves the log as it was |
| EventLog.EventListWrapper.AddEvents | src/game_manager/event_manager.cpp:32-37 | the loop does what adding one event after the other does, the throwing case included |
| EventLog.EventListWrapper.FromMove | src/game_manager/event_manager.cpp:38-45 | returns what the index says for every integer, whenever the index does not point beyond the log; with an agreeing index, exactly the events with move number at least `k` |
| Validation.AcceptedExactly | src/game_manager/session_api_validator.cpp:82-90 | accepted are exactly: resignations; in turn, walks to a free cell next to the player in one of four directions; in turn, placements on a free cell of the eight around the player; and exactly the out-of-turn requests that do not resign are answered `NotYourMove` |
| Validation.AcceptedInTurn | src/game_manager/session_api_validator.cpp:22-24 | only a resignation is accepted out of turn |
| Validation.SpreadMeans | src/game_manager/session_api_validator.cpp:28-46 | the spreads by distances: `Axial` is the row and the column of the player, `AxialDiagonal` those and the diagonals, `Square` every cell |
| GameRequests.RequestAnswered | src/game_manager/session.cpp:79-85 | in every state a request is answered for its sender: `Ok` exactly if it is a resignation or, in turn, a walk to a vacant neighbouring cell or a placement on a vacant cell around; `NotYourMove` exactly if the sender is not in turn and does not resign; a refused request changes nothing |
| GameRequests.RequestActs | src/game_manager/session.cpp:79-121 | an accepted request acts for its sender: the first new log entry is the sender's action with its cell, id and direction, only a walk moves the sender, the other player stays, a resigning sender loses, and the turn passes unless the game is decided |
| GameRequests.StartsFair | src/game_manager/session.cpp:35-54 | the starting state cell by cell: players, walls and ids, the first player in turn, all on a map of 8 by 8 cells that looks the same from both sides |
| GameInvariant.InitInv | src/game_manager/session.cpp:35-54 | the starting state satisfies the invariant |
| GameInvariant.AcceptedActs | src/game_manager/session.cpp:79-121 | an accepted action leaves players and objects on pairwise different free cells, ids unique and countdowns running |
| GameInvariant.TraverseIds | src/game_manager/session.cpp:224-226 | after any round ids are unique, below the counter, old or newly handed out, and so are the actors of its events |
| GameInvariant.RoundCells | src/game_manager/session.cpp:244-261 | after an undecided round all objects are on pairwise different cells without a wall or player |
| GameInvariant.RoundFits | src/game_manager/session.cpp:244-248 | after an undecided round every bullet is inside the map, no countdown has run out, and every object is an old one or a new bullet advanced by one tick |
| GameRun.MoveLogs | src/game_manager/session.cpp:79-104 | an accepted move never makes the log throw; unless `prev` is lost it completes, appending exactly its own events under the next move number |
| GameRun.MoveTurns | src/game_manager/session.cpp:154-156 | an undecided move passes the turn, and its first log entry is the action of the player whose turn it was |
| GameRun.MoveKeepsInv | src/game_manager/session.cpp:79-162 | a completed move keeps the whole invariant: cells pairwise different, ids unique and in use, log index agreeing, countdowns running, turns alternating |
| GameRun.RunKeepsInv | src/game_manager/session.cpp:79-162 | over every run of requests the invariant holds and the log never throws |
| GameRun.CellsNeverShared | src/game_manager/session.cpp:244-261 | in every undecided state of every run walls, players and objects are on pairwise different cells |
| GameRun.IdsNeverShared | src/game_manager/session.hpp:57-58 | in every state of every run players are actors 0 and 1, walls 2 to 9, and objects have pairwise different ids below the counter |
| GameRun.IndexAlwaysAgrees | src/game_manager/event_manager.cpp:38-45 | in every state of every run `FromMove(k)` is the subsequence of events with move number at least `k`, for every integer `k` |
| GameRun.RunAlternates | src/game_manager/session.cpp:154-167 | after `n` accepted moves the move number is `n`, the log covers the moves 1 to `n`, and while undecided the players alternate, in turn and in the first entry of every move |
| GameStories.RunTells | src/game_manager/gun.cpp:27-43 | in every undecided state of every run, every bomb and gun ever placed has logged exactly the story of its age, and is on the board with the countdown of that age or gone |
| GameStories.PlacedObjectsEnd | src/game_manager/bomb.cpp:22-30 | in any undecided state of any run: of a bomb placed in move `m`, once move `m + 2` has been played, the log says exactly that it ticked in `m` and `m + 1` and exploded in `m + 2`; of a gun placed in move `m`, once move `m + 8` has been played, exactly that it fired in `m + 2`, `m + 5` and `m + 8` and was destroyed then; both are gone |
| GameVerdict.RoundPairs | src/game_manager/session.cpp:190-199 | a round extends the scoreboard only by pairs of the two different players |
| GameVerdict.TickVerdict | src/game_manager/player.cpp:15-22 | with players on different cells, a tick puts a verdict on the scoreboard exactly if it kills that player, and never two |
| GameVerdict.DecidingTick | src/game_manager/session.cpp:141-155 | a round that decides the game stops at the tick that killed exactly the loser |
| GameVerdict.ResignTicksOnce | src/game_manager/session.cpp:131-141 | after a resignation the first object of the list, if any, is ticked and no other, and the resigning player has lost whatever that tick does |
| GameVerdict.DecidingMove | src/game_manager/session.cpp:154-155 | the loser of a deciding move is the resigning player, although the first object is still ticked, else the only player killed, by an object the round came to; the log tells that explosion, or that bullet's interaction with the dead player, under the number of the move; the results name winner and loser, and the last event is the victory of the winner |
| GameVerdict.FirstVerdictFinal | src/game_manager/session.cpp:74-78 | for every state whose scoreboard lists pairs of the two players and every request, the scoreboard only grows, by such pairs, and results once set never change |
| GameVerdict.UnthreatenedSurvives | src/game_manager/session.cpp:228-242 | in any accepted move but a resignation, a player dies only if some object on the board after the action threatens that very cell: a bomb about to explode at most one cell away on both axes, or a shot aimed at it |
| GameFlight.BulletStep | src/game_manager/bullet.cpp:17-35 | after a move every bullet is inside the map, one cell ahead of where it was before or of the gun that has just fired it |
| GameFlight.Flight | src/game_manager/bullet.cpp:17-55 | over any stretch of a run a bullet is exactly as many cells further along its fixed direction as there were moves |
| GameFlight.BulletLifetime | src/game_manager/session.cpp:244-248 | no bullet is on the board after more than eight consecutive moves |
| GameFlight.MoveLostExactly | src/game_manager/session.cpp:141-152 | exactly the accepted moves that are not completed: no resignation, and the worklist comes to a bullet that steps on the last survivor |
| GameFlight.TargetsDefineMove | src/game_manager/session.cpp:141-152 | a move is completed if, after its action, no two shots aim at the same cell |
| GameFlight.OneDirectionDefinesMove | src/game_manager/session.cpp:138-153 | in a reachable state whose guns and bullets all face one way every accepted move that does not place a gun facing another way is completed |
| GameHazard.WalkCanLosePrev | src/game_manager/session.cpp:145-146 | six requests from the start of a game, in the code without the timer of lines 157-161, after which the walk reads an erased list node |
| Sessions.Player.Die | src/game_manager/player.cpp:15-18 | the other player's victory is appended to the scoreboard |
| Sessions.Player.InteractWithBullet | src/game_manager/player.cpp:20-22 | a player hit by a bullet dies |
| Sessions.Bomb.constructor | src/game_manager/bomb.cpp:8-9 | a new bomb has the full countdown |
| Sessions.Bomb.UpdateTick | src/game_manager/bomb.cpp:22-30 | the countdown, the explosion and the self-removal have exactly the effect of the value-level tick on object, list, scoreboard and events |
| Sessions.Gun.constructor | src/game_manager/gun.cpp:6-12 | a new gun has full cooldown and shots |
| Sessions.Gun.UpdateTick | src/game_manager/gun.cpp:27-43 | cooldown, shot and self-removal have exactly the effect of the value-level tick on gun, list, id counter and events |
| Sessions.Bullet.Fly | src/game_manager/bullet.cpp:18-35 | the bullet moves one cell in its direction |
| Sessions.Bullet.HitOne | src/game_manager/bullet.cpp:46-49 | walls, bombs and guns do not react to a bullet, a bullet is erased, a player dies |
| Sessions.Bullet.Hit | src/game_manager/bullet.cpp:46-49 | the loop over the collisions erases exactly the bullets met, each still in the list when its turn comes, and kills the players met, logging one interaction each |
| Sessions.Bullet.InteractWithBullet | src/game_manager/bullet.cpp:57-60 | a bullet hit by another one is erased |
| Sessions.Bullet.UpdateTick | src/game_manager/bullet.cpp:17-55 | the whole tick of a bullet has exactly the effect of the value-level tick on position, list, scoreboard and events |
| Sessions.Session.constructor | src/game_manager/session.cpp:35-54 | a new session is in the starting state, with valid fields |
| Sessions.Session.FinishSession | src/game_manager/session.cpp:190-199 | appends winner and loser to the scoreboard |
| Sessions.Session.GetId | src/game_manager/session.hpp:57-58 | returns the counter and increments it |
| Sessions.Session.PlaceBombObject | src/game_manager/session.cpp:201-207 | a fresh bomb with the next id and a full countdown is appended, ids staying unique |
| Sessions.Session.PlaceGunObject | src/game_manager/session.cpp:208-214 | a fresh gun with the next id, full cooldown and shots is appended, ids staying unique |
| Sessions.Session.PlaceBulletObject | src/game_manager/session.cpp:216-222 | a fresh bullet with the next id is appended, ids staying unique |
| Sessions.Session.RemoveObject | src/game_manager/session.cpp:224-226 | erases exactly the object with the given id, which every caller proves to be in the list |
| Sessions.Session.CellContents | src/game_manager/session.cpp:244-261 | what `CollisionsOnCell` returns is walls, then other objects, then players on the cell, no object twice, and nothing exactly if the bullet has left the map; with the bullets a hit erases, the deaths it causes and the interactions it logs |
| Sessions.Session.Explode | src/game_manager/session.cpp:228-242 | the clipped nested loops kill exactly the declared victim, at most one |
| Sessions.Session.UpdateTick | src/game_manager/session.cpp:134-142 | the virtual call has the effect of the value-level tick, whatever the object is |
| Sessions.FirstPlace | src/game_manager/session.cpp:133-136 | the first object is still at the front exactly if it survived its tick |
| Sessions.Session.UpdateFirst | src/game_manager/session.cpp:131-137 | the first loop brings board and log to a point of the worklist, with `prev` its only survivor |
| Sessions.OtherPlace | src/game_manager/session.cpp:145-151 | after a tick of the second loop, whether `prev` and `it` were erased, and what follows them in the list |
| Sessions.Session.TickOther | src/game_manager/session.cpp:141-152 | the iterators keep standing at the last survivor and the first pending object, and `prev` is lost exactly if the tick erased it |
| Sessions.Session.UpdateOthers | src/game_manager/session.cpp:138-153 | the second loop ends where the worklist ends, or loses `prev` exactly if the worklist says so |
| Sessions.Session.TickAll | src/game_manager/session.cpp:131-153 | for every object list, the two loops with their iterators leave list, scoreboard, id counter and log as the worklist does, or lose `prev` exactly if the worklist says so |
| Sessions.Session.AfterMove | src/game_manager/session.cpp:129-162 | the two loops leave list, scoreboard, id counter and log exactly as the worklist does, for every object list; then victory is logged or the turn passes |
| Sessions.Session.ApiWalk | src/game_manager/session.cpp:105-109 | the player stands on the new cell and the walk is logged; nothing else changes |
| Sessions.Session.ApiResign | src/game_manager/session.cpp:110-113 | the resigning player loses and the resignation is logged |
| Sessions.Session.ApiPlaceBomb | src/game_manager/session.cpp:114-117 | a bomb is appended and its placement logged with its cell and id |
| Sessions.Session.ApiPlaceGun | src/game_manager/session.cpp:118-121 | a gun is appended and its placement logged with its cell, id and direction |
| Sessions.Session.IncreaseMoveNumber | src/game_manager/session.cpp:164-167 | session and log move on to the next move together |
| Sessions.Session.ApiMove | src/game_manager/session.cpp:79-104 | for every request and every valid session, the status, the lost-iterator outcome and the whole new state are those of the value-level move, and the log never throws |
| Sessions.Session.GetResults | src/game_manager/session.cpp:74-78 | winner and loser of the first verdict, or nothing |
| StateNotifier.RespondersConserved | src/notification_system/session_state_notifier.cpp:33-105 | in every run every responder was accepted as often as it was called or is stored |
| StateNotifier.NoneCalledTwice | src/notification_system/session_state_notifier.cpp:33-105 | a responder accepted once is called at most once, and not while it is stored |
| StateNotifier.NoLostUpdate | src/notification_system/session_state_notifier.cpp:52-105 | for every subscriber in every run, `poll_waiting` holds the user exactly if a notification came since the subscription or its last `Ok` answer, and then no responder is stored |
| StateNotifier.SubscribedExactly | src/notification_system/session_state_notifier.cpp:24-51 | in every run the session is live exactly if it was subscribed to and not closed since, and the user is a subscriber exactly if, since the last close, the user was subscribed, or polled the open session with no answer kept |
| StateNotifier.PollExactly | src/notification_system/session_state_notifier.cpp:52-84 | in every run, what a poll does: refused if the session is not open; a new subscriber's is stored; that of a subscriber who missed a notification is answered at once with the events; any other is stored, the previous one being told `PollClosed` |
| StateNotifier.NotifyExactly | src/notification_system/session_state_notifier.cpp:85-105 | in every run, what a notification does: a subscriber's stored poll is told the events, one without a poll is waiting, and nobody else is told anything |
| StateNotifier.CloseExactly | src/notification_system/session_state_notifier.cpp:33-51 | in every run, what closing does: nobody is subscribed any more, a stored poll is told `NotRelevant`, and exactly for those who missed a notification the events are kept |
| StateNotifier.AnsweredOnceAfterClose | src/notification_system/session_state_notifier.cpp:33-62 | a user who missed a notification when the session closes gets exactly one answer after it, with the events at the close, whatever happens in between; any further poll, by any responder, is refused, and other users get no answer |
| StateNotifier.SessionStateNotifier.constructor | src/notification_system/session_state_notifier.cpp:4-5 | nobody is subscribed |
| StateNotifier.SessionStateNotifier.Subscribe | src/notification_system/session_state_notifier.cpp:24-32 | every user's view of every session changes as one step of the machine, and the result says whether the user was new |
| StateNotifier.SessionStateNotifier.Unsubscribe | src/notification_system/session_state_notifier.cpp:33-51 | the same for closing a session: waiting users get their answer kept, stored responders are called with `NotRelevant` |
| StateNotifier.SessionStateNotifier.ChangePoll | src/notification_system/session_state_notifier.cpp:52-84 | the same for a poll, which is refused exactly if nothing is kept for the user and the session is unknown |
| StateNotifier.SessionStateNotifier.Notify | src/notification_system/session_state_notifier.cpp:85-105 | the same for a notification, in whatever order the subscribers are visited |
| StateNotifier.SessionStateNotifier.SessionCreated | src/notification_system/session_state_notifier.cpp:106-110 | both players are subscribed |
| QueueNotifiers.OldestNotificationKept | src/notification_system/queue_notifier.cpp:22-48 | in every run no user is in both maps, and `poll_waiting_` holds exactly the oldest unanswered notification |
| QueueNotifiers.SubscribeExactly | src/notification_system/queue_notifier.cpp:22-33 | in every run, a new poll closes the hanging one, telling it so with `PollClosed`, and is then told the oldest unanswered notification at once, or hangs if there is none |
| QueueNotifiers.NotifyExactly | src/notification_system/queue_notifier.cpp:40-48 | in every run, a notification answers the hanging poll, and without one is kept exactly if no other is |
| QueueNotifiers.UnsubscribeExactly | src/notification_system/queue_notifier.cpp:34-38 | in every run, a dismissal ends the hanging poll, telling it the reason unless that is empty, and leaves a kept notification |
| QueueNotifiers.RespondersAccounted | src/notification_system/queue_notifier.cpp:22-48 | every responder accepted was called, is stored, or was dropped by an `Unsubscribe` without a reason |
| QueueNotifiers.ConservedExactly | src/notification_system/queue_notifier.cpp:34-38 | accepted responders are those called and those stored exactly in the runs that never unsubscribe a user with a stored responder without a reason |
| QueueNotifiers.ResponderLost | src/notification_system/queue_notifier.cpp:34-38 | a run in which a responder is accepted, never called, and gone |
| QueueNotifiers.ProgramConserves | src/notification_system/queue_notifier.cpp:22-48 | runs of `Subscribe` and `Notify`, the calls the program makes, conserve responders |
| QueueNotifiers.NewsConservedExactly | src/notification_system/queue_notifier.cpp:40-48 | notifications with code `Ok` that were sent are those told and the one kept, exactly in the runs in which none comes while another one is kept |
| QueueNotifiers.NewsLost | src/notification_system/queue_notifier.cpp:46-47 | a run in which the second of two notifications is never told |
| QueueNotifiers.QueueNotifier.Subscribe | src/notification_system/queue_notifier.cpp:22-33 | every user's view changes as one step of the machine, the call cycle terminates, and the result says whether the poll is left hanging |
| QueueNotifiers.QueueNotifier.Unsubscribe | src/notification_system/queue_notifier.cpp:34-38 | the same for a dismissal, whose result is false when there was a reason |
| QueueNotifiers.QueueNotifier.Notify | src/notification_system/queue_notifier.cpp:40-48 | the same for a notification, whose result says whether a hanging poll was answered; a kept notification is not overwritten |
| GameServer.ClientFollowsLog | src/notification_system/session_state_notifier.cpp:52-105 | over every run of the server, the `FromMove` answers to a client that polls from the move after the last one it has seen make up exactly a prefix of the log, and right after an `Ok` answer until the next move all of it |
| GameServer.ClientGetsFinalLog | src/game_manager/game_manager.cpp:69-91 | once the session is finished the `FromMove` answers to such a client make up exactly the final log, or its next poll brings exactly the missing events |
| GameServer.ToldLogsAgree | src/http_handler/send_manager.cpp:44-46 | in every run of the server, whatever its clients ask for, every log told to a watcher has an agreeing index |
| GameServer.WatchIsNotifierRun | src/game_manager/game_manager.cpp:60-91 | every run of the server is, for each watcher, a run of the notifier, so that everything proved about the notifier holds in it |
| GameServer.NotRelevantNeverSent | src/http_handler/game_handler.cpp:99-118 | as a session is closed right after a notification, and every `Ok` and every late answer carries a log, no responder is ever answered with `NotRelevant`, nor with an `Ok` that the handler turns into it |
| GameServer.CreateStarts | src/game_manager/game_manager.cpp:12-25 | creating a session starts the game of the two logins, the first in turn, with nothing played, and subscribes exactly the two users |
| GameServer.PlayersWatch | src/notification_system/session_state_notifier.cpp:106-110 | in every run of the server, as long as a session is played each of its two users is subscribed to it and has been notified exactly once for each accepted move |
| GameServer.FirstPollAnswered | src/notification_system/session_state_notifier.cpp:66-75 | the first poll of a player after at least one accepted move is answered `Ok` at once, with the whole log if it asks from the first move on |
| GameServer.RefusedMoveSilent | src/game_manager/game_manager.cpp:69-76 | a request its sender may not make, or for a session that is not played, changes neither game nor watch and tells nobody anything |
| GameReplay.TickDraws | src/game_manager/session.cpp:134-143 | the events of a tick tell exactly what it does to the object list |
| GameReplay.LogDeterminesBoard | src/game_manager/session.cpp:79-162 | in every state of every run the log, drawn from the starting picture with the two logins, gives the players' cells and the whole object list: ids, owners, cells, directions and countdowns, in order |
| GameReplay.ClientRebuildsGame | src/http_handler/game_handler.cpp:84-118 | a client whose last answer was `Ok`, no move having come since, gets the board by drawing what it has received from the starting picture with the two logins |
| GameManagers.GameManager.constructor | src/game_manager/game_manager.cpp:7-10 | no sessions, no watchers |
| GameManagers.GameManager.CreateSession | src/game_manager/game_manager.cpp:12-25 | a session in the starting state is added, both players are subscribed to it and told its id through the queue notifier; other sessions keep their state |
| GameManagers.GameManager.ApiMove | src/game_manager/game_manager.cpp:60-67 | for every watcher of every session, a move changes game and watch as one step of the server machine; other sessions keep their state; a move that decides the session adds exactly one line, naming as winner the player whose victory ends the log and as loser the other, and no other move adds any; between requests every finished session has exactly one such line |
| GameManagers.GameManager.CheckStatus | src/game_manager/game_manager.cpp:69-76 | after an accepted move the watchers are notified, and a decided session is finished, with a line naming winner and loser of its first verdict; an undecided one gets no line |
| GameManagers.GameManager.FinishSession | src/game_manager/game_manager.cpp:77-91 | one line with the given results is added, which must name winner and loser of the first verdict, the watchers are dismissed with the final log, and exactly this session is erased |
| GameManagers.GameManager.Poll | src/http_handler/game_handler.cpp:99-118 | a poll for the events of a session changes what the machine says and nothing else, and is refused exactly if the session is unknown and no answer is kept for the user |
| ConnectionPools.ConnectionsConserved | src/psql_connection_pool/postgres_connection_pool.cpp:13-28 | over every interleaving of acquisitions and returns in any order, `used_connections_` counts the connections held, the slots below it are empty and the others full, and held and pooled connections are exactly the initial ones |
| ConnectionPools.NoConnectionShared | src/psql_connection_pool/postgres_connection_pool.cpp:13-28 | a connection is never held twice, nor held and pooled at once |
| ConnectionPools.HeldIsUsed | src/psql_connection_pool/postgres_connection_pool.cpp:24-24 | the assertion in `ReturnConnection` cannot fail |
| ConnectionPools.ConnectionPool.constructor | src/psql_connection_pool/postgres_connection_pool.cpp:6-11 | all 80 slots are full |
| ConnectionPools.ConnectionPool.GetConnection | src/psql_connection_pool/postgres_connection_pool.cpp:13-19 | takes the connection of the first full slot out of the array |
| ConnectionPools.ConnectionPool.ReturnConnection | src/psql_connection_pool/postgres_connection_pool.cpp:21-28 | puts the connection into the last empty slot |
| UrlParams.PairMeans | src/http_handler/api_handler.cpp:54-59 | a pair is split at its first equality sign, and without one is both key and value |
| UrlParams.FirstCounts | src/http_handler/api_handler.cpp:49-51 | a key is found exactly if some piece has it, and the first such piece gives its value |
| UrlParams.ParseUrlParameters | src/http_handler/api_handler.cpp:37-53 | for every target, the loop over `find` and `erase` gives the pairs of the pieces between ampersands, the path where `npos + 1` is 0 included |
| UrlParams.SetUrlParameters | tests/api_functions.cpp:21-32 | prints the pairs joined by ampersands behind a question mark, in the order of the map, and the bare url for the empty map |
| UrlParams.SplitJoined | src/http_handler/api_handler.cpp:44-51 | splitting at ampersands undoes joining |
| UrlParams.RoundTrip | tests/api_functions.cpp:21-32 | parsing what the printer makes of a map gives the map back, for every url without a question mark and every map whose keys hold neither ampersand nor equality sign and whose values hold no ampersand |

## Left out

- Sessions.Session.AfterMove: says nothing about the state once `prev` has been lost, as reading an erased list node is undefined.
- GameManagers.GameManager.CreateSession: takes the session id, assumed new, and the logins of two known users as parameters.
- GameManagers.GameManager.FinishSession: assumes both users are known; the line stored about the played session names them by their logins, and the store is a list.
- GameManagers.GameManager.Poll: starts with the session id and the move number; the handler's checks of the url parameters, and what it sends when the poll is refused, are left out.
- ConnectionPools.ConnectionPool.GetConnection: is called only when a connection is free, instead of waiting on the condition variable.
- The five-second timer: the runs here are those of the code without src/game_manager/session.cpp:157-161. As written, the future returned by `std::async` is destroyed at the end of `AfterMove` and waits there, so `TimerAbort` runs inside each undecided move; nothing is claimed about that, nor about who wins on timeout.
- `SetState`: it resets the id counter and the log under an arbitrary state; runs start from `Init`.
- Bounds for players, bombs and guns: the validator has no map check, so only bullets are proved to be inside the map.
- Threads and mutexes: requests are served one at a time.
- Pointers to a log that the notifiers keep are copies of its value here; a finished session's log no longer changes.
- `interactor_` is a parameter of the methods that use it, as every object of a session has the same one.
- The move number of an event before the log stamps it is 0 here; the program leaves it uninitialised.
- Coordinates and the move number are unbounded integers; the overflow of a distance or of the counter is not modelled. The countdowns wrap around like 32-bit unsigned ones.
- Moves and assignments of `ConnectionWrapper`: only that a wrapper returns its connection once.
- HTTP, JSON, static files, Redis and Postgres, tokens, id generation, logging and the builders of the validators, whose four results are constants here.
- Queries that only look something up (`HasSession`, `HasPlayer`, `GetState`), comparisons of states, and the unused `ValidCell`.
