# ccmsg: a model of its core, with proofs

ccmsg is a daemon that serves one *instance* (one config home): it holds sessions, delivers messages to
them, signs people in, and meshes with other instances. This project models the parts of it that are hard to
get right and proves what they promise, for every input, every run and every interleaving.

The daemon runs on one JavaScript thread, so a stretch of code between two `await`s is one atomic event and the
events of different calls interleave freely. Each protocol is a machine of such events, and its theorems speak of
every state of every run. Where the source is an object that updates its fields, there is a class here whose
methods are shown to perform exactly those events, so the theorems carry over to the objects.

| part | files | what it is |
|---|---|---|
| undelivered messages | `InboxLog`, `InboxStore`, `Delivery`, `DeliveryProofs`, `DeliverySteps`, `DeliveryTheorems`, `DeliveryLimits`, `DeliveryKills`, `InboxObject`, `DeliveryObject` | the in-memory inbox over an append-only log, and the routes that empty it |
| people and tokens | `Records`, `Tokens`, `TokenSteps`, `Revocation`, `AuthObject` | replicated records, refresh-token rotation, failed families |
| the mesh | `Glare`, `Forwarding`, `ForwardingSteps`, `MeshObject`, `Routing` | who keeps which connection, forwarded requests, hop-limited routing |
| binary decoding | `CborTree`, `Cbor`, `CborReader`, `Signature`, `Octets`, `Wrappers` | the CBOR reader and the DER signature conversion, against encoders written as specification |
| two small algorithms | `Readings`, `Presets` | overlapping readings of one directory, the preset cycle check |

Assumptions, all of them parameters or hypotheses of the statements: the clock does not run backwards; values drawn
at random (token values, family keys, forwarded ids) are new; a digest is injective; I/O answers arbitrarily
(a route carries or refuses, a line lands or fails, a read answers or throws, a kill happens between any two events);
the constants `@ccmsg/protocol` exports (the retention window, the cap per session, how long a mark is kept) are
parameters, with the lower bounds the statements name.

`dafny verify dfyconfig.toml` checks everything.

## Where the code and its words differ

The model follows the code. These are results, each with its exact condition or a concrete run:

- The cap per session does not survive a kill, whatever the cap is: lines that landed before their holds went on to
  drop the oldest are all loaded, and nothing trims what is loaded (`DeliveryLimits.KillCanLeaveMoreThanTheCap`). After
  a kill it holds if and only if no more than that many landed add lines of the session survive inside the window
  (`DeliveryLimits.CapAfterKillExactly`), and then for every later state with none of the session's holds in flight or
  failed (`DeliveryLimits.CapSinceKill`). Nor does it survive add lines that cannot be written: such a hold rejects,
  leaves its message in memory and drops nothing (`DeliveryLimits.FailedLinesLeaveMoreThanTheCap`). The bound that
  holds in every state is `DeliveryTheorems.CapUnderConcurrency`.
- `src/messaging/delivery.ts:470-472` says a restart cannot reissue an id a reply still points at. It can, once the
  message has been handed over, for every id (`DeliveryLimits.DeliveredIdIsReissued`). The ids a kill frees are exactly
  those above every id on a surviving line inside the window (`DeliveryLimits.ReissuedExactlyWhenFreed`), and each of
  them really is handed over again in some continuation (`DeliveryLimits.FreedIdIsHandedOver`). Ids of one file stay
  distinct regardless (`DeliveryTheorems.LogIdsDistinct`), which is what the replay relies on.
- `src/auth/records.ts:336` says a mark refuses every later write. The instants are compared before the mark is looked
  at, so a mark older than a concurrent live write, a token family's among them, is not taken where that write is
  already held, and two replicas differ for good (`Records.OlderMarkDiverges`). A set of records converges if and only
  if each key has one dominant record (`Records.ConvergesExactlyWhenSettled`).
- A family's mark has to be kept at least as long as a refresh token lives; with anything shorter there is a run in
  which a copy from the instant of the failure is answered again (`Revocation.ShorterRetentionRevives`).

## Model

| member | source | states |
|---|---|---|
| `InboxLog.StandingIsSurvivors` | src/messaging/inbox.ts:203-215 | what a replay leaves a session is, in order, exactly the add lines with no later removal line of that session for that id |
| `InboxLog.StandingHolds` | src/messaging/inbox.ts:203-215 | a message is in the replay if and only if some add line of it survives |
| `InboxLog.StandingDistinct` | src/messaging/inbox.ts:203-215 | a log whose adds carry distinct ids replays to lists of distinct ids |
| `InboxLog.ReplayStands` | src/messaging/inbox.ts:203-215 | the replay over the whole map, with its deleted empty lists, gives each session the list its own lines alone give |
| `InboxLog.ShiftIsWithout` | src/messaging/inbox.ts:126-132 | dropping the oldest is removing its id, when ids are distinct: the dropped line replays to what `shift` did in memory |
| `InboxLog.FreePicked` | src/messaging/inbox.ts:223 | expiry and the claims leave, position by position and in order, exactly the messages with now - sent_at within the window whose id is not claimed |
| `InboxLog.StandingCompacted` | src/messaging/inbox.ts:253-270 | replaying a compacted file is the identity on what was held, whatever order the sessions are written in |
| `InboxStore.LookedKeeps` | src/messaging/inbox.ts:217-232 | an expiry, for which nothing is logged, keeps log and memory in agreement at every later instant |
| `InboxStore.HoldBeginsKeeps` | src/messaging/inbox.ts:114-120 | pushing a message and asking for its add line keeps the store's invariant |
| `InboxStore.HoldResumesKeeps` | src/messaging/inbox.ts:126-133 | the eviction after the await keeps the invariant, over whatever list is there by then |
| `InboxStore.RemovalKeeps` | src/messaging/inbox.ts:138-151 | taking any ids out of a list with one removal line each keeps the invariant |
| `InboxStore.LineFailsKeeps` | src/messaging/inbox.ts:246-250 | a line that could not be written leaves the rest of the chain consistent |
| `InboxStore.LoadedKeeps` | src/messaging/inbox.ts:73-94 | loading any file with distinct add ids, torn lines included, establishes the whole invariant anew |
| `DeliveryProofs.NextKeeps` | src/messaging/delivery.ts:129-370 | every event of every call, failures and restarts included, keeps the global invariant |
| `DeliveryProofs.OfferCarriedKeeps` | src/messaging/delivery.ts:300-309 | one step of an offer: its claimed set stays the ids of its remaining messages and the handed one is nowhere else |
| `DeliveryProofs.HandOutKeeps` | src/messaging/delivery.ts:351-369 | a snapshot hands out what is held and unclaimed, and nothing it hands out is held, offered or being sent any more |
| `DeliverySteps.ArriveDoes` | src/messaging/delivery.ts:150 | a send mints the next id with its own text, instant and session, and no list moves |
| `DeliverySteps.SendCarriedDoes` | src/messaging/delivery.ts:152-159 | a message the direct route took is handed to its own session, which is then offered what is held |
| `DeliverySteps.SendPublishedDoes` | src/messaging/delivery.ts:167-176 | a published message is handed to its own session and waits nowhere |
| `DeliverySteps.SendWaitsDoes` | src/messaging/inbox.ts:114-120 | a held message joins the end of its session's list less what has run out, its add line the end of the chain |
| `DeliverySteps.HoldEndsDoes` | src/messaging/inbox.ts:126-133 | a list of at most the cap is left alone; from a longer one exactly the oldest goes, with its line |
| `DeliverySteps.FailsDoes` | src/messaging/inbox.ts:246-250 | a line that could not be written leaves every list as it is |
| `DeliverySteps.LandsDoes` | src/messaging/inbox.ts:241-251 | the line asked for first lands at the end of the file |
| `DeliverySteps.LooksDoes` | src/messaging/inbox.ts:99-102 | asking what is held takes out what has run out and nothing else |
| `DeliverySteps.OfferStartsDoes` | src/messaging/delivery.ts:294-299 | an offer takes the whole list inside the window, oldest first, and claims exactly its ids; a second one takes nothing |
| `DeliverySteps.OfferCarriedDoes` | src/messaging/delivery.ts:301-309 | the oldest message of an offer is handed over and leaves the list and the claim; nothing else moves |
| `DeliverySteps.OfferStopsDoes` | src/messaging/delivery.ts:310-313 | the claim and the guard go, and no message does |
| `DeliverySteps.SubscribesHands` | src/messaging/delivery.ts:351-369 | a snapshot hands over, in order, every message inside the window that no offer has claimed, with one line each |
| `DeliverySteps.SubscribesDoes` | src/messaging/delivery.ts:351-369 | after it the session has exactly its claimed messages inside the window, every other one handed over |
| `DeliverySteps.GoneOnlyForCause` | src/messaging/inbox.ts:126-133 | in every run an id is gone because it was handed over or was the oldest of a list longer than the cap |
| `DeliveryTheorems.ReplayRefinesMemory` | src/messaging/inbox.ts:73-151 | in every reachable state, replaying the log and expiring at any later instant gives each session the same ordered list as expiring memory; it is the file's own log while no line failed |
| `DeliveryTheorems.HandedAtMostOnce` | src/messaging/delivery.ts:294-370 | no id is recorded as handed over twice in a process run, across sends, offers and snapshots in any interleaving |
| `DeliveryTheorems.HandedIsNowhereElse` | src/messaging/delivery.ts:294-370 | a handed id is not held, not claimed and not being sent |
| `DeliveryTheorems.KillLeaves` | src/messaging/inbox.ts:80-94 | after a kill and a restart a message is held if and only if its add line landed, no landed removal line follows it, and it is inside the window |
| `DeliveryTheorems.AnsweredIsNeverLost` | src/messaging/inbox.ts:109-134 | a message whose hold was answered is, in every later state through any number of kills, handed over, dropped for a newer one, past the window, or held in memory and on disk |
| `DeliveryTheorems.AnsweredStays` | src/messaging/inbox.ts:109-134 | a message once answered for stays answered for until it is handed over or dropped |
| `DeliveryTheorems.CapUnderConcurrency` | src/messaging/inbox.ts:109-151 | a session's list never exceeds the cap (or what was loaded) plus its holds in flight and failed holds; within the cap when there are none |
| `DeliveryTheorems.LogIdsDistinct` | src/messaging/inbox.ts:165-177 | no two add lines of the current file, landed or pending, carry one id, and the next id to be minted is on none, across any number of restarts |
| `DeliveryLimits.CapAfterKillExactly` | src/messaging/inbox.ts:73-94 | after a kill a session is within its cap if and only if no more than that many of its landed add lines have no removal line after them and are inside the window |
| `DeliveryLimits.QuietKillLosesNothing` | src/messaging/inbox.ts:73-94 | with no line lost and none on its way, a kill at any point of any run leaves each session exactly its list less what has run out |
| `DeliveryLimits.CapSinceKill` | src/messaging/inbox.ts:109-134 | from a kill whose disk was within the cap up to the next kill, a session with no hold in flight or failed is within it |
| `DeliveryLimits.KillCanLeaveMoreThanTheCap` | src/messaging/inbox.ts:118-128 | for every cap, a run that ends one over it, nothing in flight and no line lost |
| `DeliveryLimits.FailedLinesLeaveMoreThanTheCap` | src/messaging/inbox.ts:114-120 | for every cap, a run without a kill that ends one over it, every hold having rejected |
| `DeliveryLimits.ReissuedExactlyWhenFreed` | src/messaging/delivery.ts:115-116 | after a restart the n-th id can be minted before the next kill if and only if no line surviving on the disk it found, inside the window, carries n or more |
| `DeliveryLimits.FreedIdIsHandedOver` | src/messaging/delivery.ts:470-476 | every freed id is minted and handed over in a continuation of the run |
| `DeliveryLimits.DeliveredIdIsReissued` | src/messaging/delivery.ts:470-476 | for every id, a run in which it is handed over, the process restarts, and another message is handed over under it |
| `DeliveryKills.HeldAgainExactly` | src/messaging/inbox.ts:73-94 | at every restart of every run, a message is held again if and only if it is inside the window, its add line landed and no removal line of it did, in whatever order |
| `DeliveryKills.HandedAgainOnlyIfUnlanded` | src/messaging/delivery.ts:301-309 | a message an offer or a snapshot handed over is back after the kill only if its delivered line, which was asked for, had not landed; still on its way where no line ever failed |
| `InboxObject.Inbox.Load` | src/messaging/inbox.ts:73-94 | the loop over the lines, the expiry and the rewrite leave the store the specification's `Loaded` |
| `InboxObject.Inbox.ReplayLine` | src/messaging/inbox.ts:203-215 | one line changes the map as `Replayed` says, empty lists deleted |
| `InboxObject.Inbox.Expire` | src/messaging/inbox.ts:220-232 | one session's list keeps exactly what is inside the window; every other list is untouched |
| `InboxObject.Inbox.ExpireEverySession` | src/messaging/inbox.ts:220-232 | the same over every session |
| `InboxObject.Inbox.Compact` | src/messaging/inbox.ts:253-270 | the file becomes one add line per held message, sessions in some order and each list in its own |
| `InboxObject.Inbox.Append` | src/messaging/inbox.ts:241-251 | a line goes behind the lines asked for before it |
| `InboxObject.Inbox.Settle` | src/messaging/inbox.ts:241-251 | the head of the chain lands at the end of the file, or is lost; the rest of the chain stays as it was |
| `InboxObject.Inbox.Undelivered` | src/messaging/inbox.ts:99-102 | the session's list after expiry, in order |
| `InboxObject.Inbox.HoldBegins` | src/messaging/inbox.ts:109-120 | `hold` up to its await |
| `InboxObject.Inbox.HoldResumes` | src/messaging/inbox.ts:121-134 | `hold` after it: the oldest of the list as it is by then goes, and the answer says so, if and only if the list is longer than the cap |
| `InboxObject.Inbox.Delivered` | src/messaging/inbox.ts:138-151 | the ids leave the list and one line each is asked for, in order; nothing at all for an unknown session or no ids |
| `InboxObject.Inbox.LastCounter` | src/messaging/inbox.ts:167-177 | the largest counter of this instance's held ids: an upper bound of all, and attained unless zero |
| `DeliveryObject.Delivery.constructor` | src/messaging/delivery.ts:115-125 | a process starts with nothing claimed or offered and the counter of the inbox |
| `DeliveryObject.Delivery.SendArrives` | src/messaging/delivery.ts:129-152 | `send` mints the next id and performs `Arrive` |
| `DeliveryObject.Delivery.SendSettles` | src/messaging/delivery.ts:152-186 | which of the three routes the outcome of the direct route and the listeners select, each performing its event |
| `DeliveryObject.Delivery.HoldEnds` | src/messaging/delivery.ts:184-196 | answers whether the oldest was dropped, performing `HoldEnds` |
| `DeliveryObject.Delivery.OfferStarts` | src/messaging/delivery.ts:294-299 | one offer per session at a time, claiming exactly what it is owed |
| `DeliveryObject.Delivery.OfferSettles` | src/messaging/delivery.ts:301-314 | one message handed over and out of the inbox, or the offer stops |
| `DeliveryObject.Delivery.OfferStops` | src/messaging/delivery.ts:310-313 | the claims and the guard go together |
| `DeliveryObject.Delivery.Snapshot` | src/messaging/delivery.ts:343-370 | answers the held and unclaimed messages in order; those are what is recorded as handed over and none of them stays |
| `DeliveryObject.Delivery.LineSettles` | src/messaging/inbox.ts:118-120 | a landed line performs `Lands`; one that could not be written performs `Fails`, rejecting the hold that waited for it |
| `DeliveryObject.Restart` | src/messaging/inbox.ts:67-94 | a new inbox over the file a kill left, loaded, and a new delivery domain on it perform `Restarts` |
| `Records.MergeBatches` | src/auth/records.ts:162-180 | batching makes no difference |
| `Records.SettledMeansNewest` | src/auth/records.ts:110-122 | any order and repetition of a settled set leaves each of its keys the dominant record and nothing else |
| `Records.ConvergesExactlyWhenSettled` | src/auth/records.ts:110-122 | a set of records leaves every replica with the same map, in every order and repetition, if and only if each key has one dominant record |
| `Records.NewestMarksConverge` | src/auth/records.ts:110-122 | with distinct instants per key and every mark its key's newest, all replicas converge on the newest record per key |
| `Records.OlderMarkDiverges` | src/auth/records.ts:117-121 | a mark older than a live write of its key leaves the result to the order of arrival |
| `Records.WriteLands` | src/auth/records.ts:124-154 | a local write displaces what is held, at the clock's instant or one past what is held, unless a mark stands there; no other key moves |
| `Records.ExpireExactly` | src/auth/records.ts:372-384 | a record goes if and only if it is a family past its refresh token or a mark past a stated expiry |
| `Records.EndlessStays` | src/auth/records.ts:365-384 | no write, mark or expiry elsewhere takes a user, a credential, an ownership or an endless mark away |
| `Records.MergeReplacesByLater` | src/auth/records.ts:162-180 | a batch takes no key away and replaces a record only by a later one of its own key, and a mark by nothing |
| `Tokens.NextKeeps` | src/auth/auth.ts:1090-1179 | minting, rotating, retrying, failing, signing out and expiring keep the replay-detection invariant |
| `Tokens.RotatedRemembers` | src/auth/auth.ts:1442-1447 | what a rotated family remembers, exactly: the value it replaced, and what it remembered that has not run out |
| `Tokens.EveryValueIsKnown` | src/auth/auth.ts:1131-1152 | in every state of every run, each unexpired value ever issued for a standing family is its refresh token or is among the retired digests with its own expiry |
| `Tokens.RefreshIsClassified` | src/auth/auth.ts:1090-1179 | the whole answer for an issued unexpired value: the standing one rotates, the previous one in its grace gets the standing pair and nothing moves, either is refused with nothing moved where origin or ownership is not right, any other fails the family, and a failed family answers nothing |
| `Tokens.StrangersMoveNothing` | src/auth/auth.ts:1095-1103 | a value never issued is refused and changes no record |
| `Tokens.AccessLifeBound` | src/auth/auth.ts:1113-1130 | every answered access token has more than the kept half less the grace left; a rotation replaces it only once less than the kept half remains |
| `TokenSteps.MintIsExact` | src/auth/auth.ts:1055-1074 | the minted family, field by field, and no other key moves |
| `TokenSteps.RotationIsExact` | src/auth/auth.ts:1123-1157 | the answer of a rotation and the family it leaves, field by field, at any point of any run: access kept or new, refresh new, the old one in grace and remembered, the user kept, no other key moved |
| `TokenSteps.ReplayIsExact` | src/auth/auth.ts:1167-1179 | a remembered value outside its grace leaves its family a mark kept for the retention, and moves nothing else |
| `TokenSteps.ExpiredMovesNothing` | src/auth/records.ts:298-312 | a value past its own expiry moves nothing: the standing pair inside its grace, refused outside |
| `TokenSteps.SignOutIsExact` | src/auth/records.ts:185-200 | signing out leaves a mark kept for the retention, and moves nothing else |
| `TokenSteps.FamilyIsTheMinters` | src/auth/auth.ts:1131-1132 | in every state of every run a family belongs to the user it was minted for |
| `Revocation.FailedIsNeverRevived` | src/auth/records.ts:331-344 | on an instance that took the mark, kept at least a refresh token's life, with peers' copies from no later than the failure, no later state of any run answers any token of the family, mark standing or dropped |
| `Revocation.NextKeepsDead` | src/auth/records.ts:372-384 | every event keeps the family dead: under its mark, or past every token's expiry |
| `Revocation.MintedNoLater` | src/auth/auth.ts:1055-1074 | a family minted by the failure expires within a token life of it |
| `Revocation.RotatedNoLater` | src/auth/auth.ts:1123-1152 | and so does every generation rotated by then |
| `Revocation.ShorterRetentionRevives` | src/auth/records.ts:365-384 | with any shorter retention there is a run, the mark run out and a copy from the instant of the failure arriving, that ends with the family answered for |
| `AuthObject.AuthRecords.Accept` | src/auth/records.ts:110-122 | takes a record exactly when the specification does, and answers whether the set moved |
| `AuthObject.AuthRecords.Write` | src/auth/records.ts:132-154 | answers whether it landed, which is exactly when no mark stands there; nothing for a body outside the schema |
| `AuthObject.AuthRecords.Merge` | src/auth/records.ts:162-180 | the loop leaves the merge of the whole batch, answers how many records were taken, and names who the marks among them removed something from |
| `AuthObject.TakenCounts` | src/auth/records.ts:166-170 | the count is the number of records of the batch that moved the set |
| `AuthObject.RevokedExactly` | src/auth/records.ts:171-176 | one name per mark that took a live record away, in the order of the batch, and it is that record's user |
| `AuthObject.AuthRecords.Erase` | src/auth/records.ts:185-200 | a mark with a later instant over what is held, answered; nothing for an unknown key |
| `AuthObject.AuthRecords.Fail` | src/auth/records.ts:340-344 | only a family is failed |
| `AuthObject.AuthRecords.Expire` | src/auth/records.ts:372-384 | exactly what has run out goes, kind by kind, and is listed as dropped |
| `AuthObject.AuthRecords.ByRefresh` | src/auth/records.ts:298-312 | answers nothing exactly when no family answers the value, else a family that does and which generation it was |
| `AuthObject.Auth.Mint` | src/auth/auth.ts:1055-1074 | performs `Mint` and keeps the invariant |
| `AuthObject.Auth.RefreshToken` | src/auth/auth.ts:1090-1158 | performs `Refresh` with the answer it gives and keeps the invariant |
| `AuthObject.Auth.FailReplayed` | src/auth/auth.ts:1167-1179 | every family that retired the value is marked, and no other |
| `Glare.LessIsTotal` | src/mesh/mesh.ts:244-246 | the order both ends compare by is strict and total, so exactly one of two distinct endpoints is smaller |
| `Glare.LessIsByCodeUnit` | src/mesh/mesh.ts:244-246 | at the first place two endpoints differ the smaller unit decides, and a proper prefix is smaller |
| `Glare.StepKeeps` | src/mesh/mesh.ts:974-1062 | every proof, acknowledgement, dial and close notice keeps the two ends' invariant |
| `Glare.SmallerDialIsKept` | src/mesh/mesh.ts:974-1062 | in every interleaving the smaller end's connection is never closed for glare, and from its acknowledgement on both ends hold exactly it |
| `Glare.QuietMeansAgreed` | src/mesh/mesh.ts:855-937 | when nothing is left to happen both ends hold the same open connection |
| `Glare.RunsAreShort` | src/mesh/mesh.ts:625-689 | every run comes to that within ten events |
| `Forwarding.NextKeeps` | src/mesh/mesh.ts:454-495 | every event keeps: outstanding requests name linked peers, nothing outstanding is answered, everything else is answered once |
| `Forwarding.SettledExactlyOnce` | src/mesh/mesh.ts:454-495 | every forwarded call is outstanding to a linked peer with no answer, or answered exactly once under its caller's own id |
| `Forwarding.AnswerIsFinal` | src/mesh/mesh.ts:746-766 | an answer is never added to or taken back |
| `Forwarding.NothingWaitsOnTheLost` | src/mesh/mesh.ts:1047-1133 | nothing waits on a peer after its drop or its being forgotten, and nothing waits at all after a stop |
| `ForwardingSteps.ForwardDoes` | src/mesh/mesh.ts:459-485 | with a link the call is outstanding to that peer under its carried id; without one it is answered at once as unreachable |
| `ForwardingSteps.ReplyIsCarried` | src/mesh/mesh.ts:755-761 | over runs, a reply on a link to an outstanding id answers that call with the peer's own words under the caller's id, and no other call |
| `ForwardingSteps.LossAnswers` | src/mesh/mesh.ts:1064-1074 | a deadline, a drop, a forget and a stop answer every call that waited as unreachable |
| `ForwardingSteps.AnswerHasItsCause` | src/mesh/mesh.ts:454-495 | over runs, every answer is traced to a peer's reply on a link, or to a missing link, the call's own deadline, or the loss of the peer it waited on |
| `ForwardingSteps.HoldDoes` | src/mesh/mesh.ts:974-1001 | the new connection is kept exactly when there was none or the rule says so, and no other peer's link moves |
| `ForwardingSteps.DropDoes` | src/mesh/mesh.ts:1047-1052 | a closing connection that is not the peer's link moves nothing |
| `MeshObject.Mesh.Forward` | src/mesh/mesh.ts:454-495 | answers at once without a link, else leaves one outstanding entry; performs `Forward` |
| `MeshObject.Mesh.PeerFrame` | src/mesh/mesh.ts:746-766 | a reply counts only on a link and only for an outstanding id, and then that call's answer is what the peer said |
| `MeshObject.Mesh.DeadlineFires` | src/mesh/mesh.ts:473-479 | the deadline settles its own request as unreachable |
| `MeshObject.Mesh.Hold` | src/mesh/mesh.ts:974-1015 | which connection is closed, and the links left, by the glare rule; the link kept is never the one closed |
| `MeshObject.Mesh.Abandon` | src/mesh/mesh.ts:1065-1074 | everything waiting on the peer is answered once, and nothing else is touched |
| `MeshObject.Mesh.Drop` | src/mesh/mesh.ts:1047-1062 | a link goes only with its own connection, and what waited on it is answered |
| `MeshObject.Mesh.Forget` | src/mesh/mesh.ts:357-369 | answers whether anything was cut |
| `MeshObject.Mesh.Stop` | src/mesh/mesh.ts:1092-1133 | every linked peer is abandoned before the links are cleared |
| `Routing.HopsGrow` | src/mesh/mesh.ts:469-493 | the hops a request gathers are distinct instances that were not on its list |
| `Routing.RoutingTerminates` | src/dispatch/dispatch.ts:107-117 | over arbitrary, changing, cyclic tables a request is forwarded at most once per instance and its hop list stays free of repetitions |
| `Routing.EveryRequestEnds` | src/messaging/delivery.ts:231-257 | whatever each instance decides, the request ends in an answer or a refusal |
| `Routing.StepEndsExactly` | src/dispatch/dispatch.ts:107-117 | which verdict ends a request how, and which carries it on, each as an if and only if |
| `Cbor.RoundTrip` | src/auth/cbor.ts:58-145 | every supported value, followed by any bytes at all, reads back as itself with exactly those bytes left |
| `Cbor.RangeIsSupported` | src/auth/cbor.ts:58-145 | a value is what some input reads as if and only if it is supported: arguments below 2^32, distinct keys, nesting at most eight |
| `Cbor.EncodingIsPrefixFree` | src/auth/cbor.ts:41-49 | no encoding begins another's, so what follows cannot change which value is read |
| `Cbor.DecodeEncoded` | src/auth/cbor.ts:46-56 | the remainder answered is what follows, and the whole-input form answers exactly when nothing does |
| `Cbor.EncodingNests` | src/auth/cbor.ts:84-109 | the reference encoder is the recursive one: a count, then the encodings of the parts |
| `Cbor.RepeatedKeysRead` | src/auth/cbor.ts:95-109 | a map written with any pairs, keys repeated or not, reads as what the pairs collect to |
| `Cbor.TooDeepIsRefused` | src/auth/cbor.ts:59 | nine arrays one inside the other are refused whatever follows |
| `Cbor.ArgumentExactly` | src/auth/cbor.ts:123-139 | every argument byte by byte, shortest or not, and what is refused |
| `Cbor.RefusedExactly` | src/auth/cbor.ts:58-120 | what is refused where a value should start, as an if and only if |
| `Cbor.HeadReads` | src/auth/cbor.ts:122-139 | every head of one, two, three or five bytes reads back as its major type and argument |
| `CborTree.ValueReads` | src/auth/cbor.ts:84-109 | a supported value reads back from any reader that answers its heads in order |
| `CborTree.ReadFits` | src/auth/cbor.ts:58-120 | whatever is read is supported at its depth, takes at least one byte and ends within the input |
| `CborTree.CollectKeeps` | src/auth/cbor.ts:97-107 | a map read with repeated keys holds each once |
| `CborTree.LastPairIsHeld` | src/auth/cbor.ts:99-107 | of the pairs with one key the last is held, and nothing else |
| `CborTree.PutKeys` | src/auth/cbor.ts:105 | setting a key keeps the order in which keys were first set |
| `CborReader.ReadArgument` | src/auth/cbor.ts:123-139 | the shifted and multiplied bytes are the big-endian number, and no byte past the end is read |
| `CborReader.ReadValue` | src/auth/cbor.ts:58-120 | the recursive reader computes the specification, beginning no more values than bytes it consumed (one more where it fails) |
| `CborReader.ReadItems` | src/auth/cbor.ts:84-94 | the array loop, with the same bound |
| `CborReader.ReadEntries` | src/auth/cbor.ts:95-109 | the map loop, refusing a key that is neither an integer nor text, with the same bound |
| `CborReader.ReadEntry` | src/auth/cbor.ts:100-106 | one turn of it, with the same bound |
| `CborReader.DecodeCbor` | src/auth/cbor.ts:46-49 | on any input at all the values begun are at most its bytes and one |
| `CborReader.DecodeCborWhole` | src/auth/cbor.ts:52-56 | refuses when bytes follow |
| `Signature.RawSignature` | src/auth/webauthn.ts:369-391 | answers if and only if the structure reads and both integers are below 2^256; each 32-byte half denotes its integer |
| `Signature.Trimmed` | src/auth/webauthn.ts:380-383 | dropping leading zeros keeps the number, and fits 32 bytes if and only if the number is below 2^256 |
| `Signature.NextPart` | src/auth/webauthn.ts:373-386 | one turn of the loop answers if and only if an INTEGER reads there and is below 2^256, with the same number and the place it ends |
| `Signature.Joined` | src/auth/webauthn.ts:387-390 | each part right-aligned in its half of the buffer denotes the same number |
| `Signature.EncodedIsRead` | src/auth/webauthn.ts:369-386 | the DER encoding of every r and s below 2^256 reads back as r and s |
| `Signature.ContentsExactly` | src/auth/webauthn.ts:370-379 | the structures that read, exactly: a sequence tag, any length byte, two INTEGERs of any one-byte length, and anything after |
| `Signature.SameValue` | src/auth/webauthn.ts:387-390 | a half is determined by the number it denotes, so the answer is the only one |
| `Readings.SettledOnlyForward` | src/sessions/harness.ts:92-99 | settled generations strictly increase in every overlap, failing readings included |
| `Readings.NeverStale` | src/sessions/harness.ts:85-99 | when a caller's reading resolves, what stands was read no earlier than its call began |
| `Readings.NobodyWaitsForever` | src/sessions/harness.ts:92-99 | once no read is under way, every overtaken caller is behind one that can be woken |
| `Readings.StepDoes` | src/sessions/harness.ts:92-99 | the newest reading that lands settles and resolves, an overtaken one waits, a failed one rejects, and no other moves |
| `Readings.Readings.Begin` | src/sessions/harness.ts:85-90 | `again()` performs `Again` and is the latest |
| `Readings.Readings.Take` | src/sessions/harness.ts:92-99 | a reading that lands settles if and only if none began after it |
| `Presets.CheckDecidesAcyclicity` | src/instance/config.ts:797-821 | the check passes if and only if every plain or negated reference is configured and the reference graph has no cycle |
| `Presets.RefersExactly` | src/instance/config.ts:809-812 | a preset refers to a name if and only if it lists `@name` or `-@name` |
| `Presets.FineWalksOn` | src/instance/config.ts:797-821 | a walk from a preset that resolved meets nothing of the path behind it and nothing twice |
| `Presets.RefusalIsGenuine` | src/instance/config.ts:803-818 | a refusal names a walk that closes on itself, or a reference nobody configured |
| `Presets.CheckAll` | src/instance/config.ts:742-751 | the loop over all presets decides both, and refuses with what the first preset that does not resolve names, which is there |

## Left out

- The command line, help text, service registration, plugins, the launcher, HTTP, cookies and file operations: plumbing around libraries and the operating system.
- Cryptography: HMAC, Ed25519, WebCrypto and SHA-256; the mesh handshake is its steps (dialled, proven, acknowledged) without the proofs themselves.
- The schemas of `@ccmsg/protocol`: a record or line they refuse is `Malformed` or `Refused`.
- Origin and ownership checks of a refresh are one boolean, `admitted`, which may be anything.
- `InboxObject.Inbox.LastCounter`: an id is `Own(counter)` or `Foreign`, so other spellings of a number behind this instance's prefix and the limit of safe integers are not modelled.
- `InboxStore.LineFailsKeeps`: as `Settle` below, a failed append is taken to leave nothing in the file.
- `InboxObject.Inbox.Settle`: a failed append writes nothing; a line torn in the middle of the file by a failed write is not modelled (a torn last line after a kill is).
- `DeliveryObject.Delivery.OfferSettles`: the wait for the delivered line before the next message of an offer is not used as a guard, so more interleavings are covered than the source has.
- Removal notices, watcher frames, reasons, labels, reply addresses and candidates: what is told about a message rather than what becomes of it. A notice can be repeated for one message, so no theorem counts them.
- `DeliveryTheorems.HandedAtMostOnce`: at most one handing-over is per process run; across kills it is `DeliveryKills.HandedAgainOnlyIfUnlanded`, and a message that went out directly never had a line.
- `DeliveryObject.Delivery.SendArrives`: the refusals before anything is minted, of a session nobody knows or one that two processes run, are not modelled; a session held elsewhere is `Routing`'s.
- `DeliveryObject.Delivery.SendSettles`: the reason the sender is told beside the outcome is not modelled.
- Global order: a send or a snapshot may pass a newer message ahead of an offer's older ones, so no order across routes is stated.
- `AuthObject.AuthRecords.Write`: the commit to the file store and the publication to peers are not modelled, and neither is the list of dropped keys pending for that commit beyond `Expire`.
- `AuthObject.AuthRecords.Erase`: the publication of the mark it answers is not modelled.
- `AuthObject.Auth.RefreshToken`: the clock is read once for the lookups and once, no earlier, for what is written; finer readings within either are one.
- `Tokens.EveryValueIsKnown`: the family is rotated in one place; two instances rotating at once lose a generation by design.
- `Tokens.RefreshIsClassified`: a value past its own expiry is outside it, where the grace of its successor can still answer it.
- Challenges, passkeys, the rate window and what connections are cut with a family.
- `Forwarding.NothingWaitsOnTheLost`: a link may be made after a stop by an acknowledgement already on its way, since the source does not look at its stopping flag there; the statement is about the state the stop leaves.
- `MeshObject.Mesh.PeerFrame`: a reply settles an outstanding id whichever link it arrives on, as in the source; topic frames and subscriptions are left out.
- `ForwardingSteps.ForwardDoes`: the frame put on the link is not modelled beyond its carried id; its hop list is `Routing`'s.
- Heartbeats, retries, backoff and the key exchange of the handshake: loss of a link is an event that may happen at any time.
- `Glare.SmallerDialIsKept`: each end dials once and no connection is lost otherwise.
- `src/mesh/relay.ts`, `src/kv`, `src/instance/lock.ts` and `src/daemon`: simpler than what is here, resting on code that is not part of the repository, or processes and timers.
- `CborReader.ReadValue`: text is its bytes; the replacement of invalid sequences and the dropping of a byte-order mark by the platform's text decoder are not modelled.
- `parseAuthenticatorData` and the other WebAuthn checks: straight-line reads.
- Evaluation of presets and the parsers of the configuration file.
