# Verification of sparstrowgen

A Dafny model of the parts of sparstrowgen that keep state while other things
happen at the same time, fail, or arrive out of order, and proofs of what they
promise over whole runs. `dafny verify dfyconfig.toml` checks everything.

| file | what it models |
|---|---|
| `Pieces.dfy`, `Attachments.dfy`, `Effects.dfy`, `Fed.dfy` | the server reading what claude fed its model: a tombstoned list with a key index, as an insertion-ordered dictionary, and what each attachment leaves of it |
| `Pruning.dfy` | the daemon's choice of which prompt snapshots to hand on |
| `Wire.dfy` | the hand-written protobuf reader, bit by bit |
| `Machines.dfy` | pairing and machine rows, and the transactions over them |
| `Credentials.dfy` | server and computer together: the two credential files through claim, approve, decline, expire and revoke |
| `SignIn.dfy` | sign-in, password change and reset as interleaved transactions under row locks |
| `Throttle.dfy`, `ThrottleRuns.dfy` | the guess throttle and what holds of every run of it |
| `RunningTurns.dfy`, `Handover.dfy`, `TurnLifecycle.dfy`, `TurnEndings.dfy` | the register of running turns, the updater waiting for it to be empty, one turn from start to its last message, and the server finishing turns |
| `UpdateSwap.dfy` | the updater process replacing the executable |
| `Splitter.dfy`, `ExchangeRecord.dfy`, `RawView.dfy` | a turn's record: bytes, lines, numbered batches, the store, the browser's cache |
| `HubRegistry.dfy`, `HubAsk.dfy` | which socket is current and which computer is primary; which ask a reply belongs to |
| `FreeName.dfy` | a free name for a new file |

Code that updates fields is a class whose methods are proved against functions
on values; the results are then proved of those functions. What several
goroutines, processes or transactions do together is a state machine, one step
for each access to what they share, and its results are about every run: a
sequence of any steps in any order. A `main result` comment marks the theorems.

Where the code does not do what its comments promise, the model follows the
code, and the exact condition is proved:

- Dropping prompt snapshots preserves what is shown exactly when the snapshot
  that really brought the tools is kept, and the last one that can be decoded is
  kept too or brings what the one read instead brings. A `tools` value of `null`,
  or an empty list with a space in it, is longer than two characters and is taken
  for tools (`sessionstore.go:191`), so a snapshot that has them can be dropped for
  one that has not.
- Sweeping the throttle is visible to a later call exactly when an expired entry's
  next call is `Failed`: it revives the count (`throttle.go:131`).
- `promotePending` compares the pending file and renames it in two steps, and
  `forgetCredential` removes it likewise. Over a whole run the main file never
  holds an unapproved credential exactly when each claim saved between a comparison
  and its rename was approved by then. A computer that can connect and has no claim
  under way is safe, since its claims are never answered with a new credential;
  three links opened at once on an unpaired computer are enough to go wrong.
- A connected file left from an earlier attempt that could not be removed is taken
  for proof that the new version works (`update.go:517`), and the backup is then
  removed: only so does the old version go without the new one having connected.
- A refused turn learns why in a second call, so it can be reported as stopped
  although nobody stopped it, when an update failed to start in between.
- `pbFields` adds a 63-bit length to a position before comparing; past the largest
  int the sum is negative, the test passes and the slice panics.
- Record line numbers are 32-bit, and request ids 64-bit: each result says up to
  which count it holds.
- A batch stored behind an open view's last line, which an old connection's handler
  can still do, leaves the view with a hole the store does not have.
- The server stores NUL as U+FFFD but sends browsers the raw text, so a view is
  the stored one to the byte exactly when no line it shows holds a NUL.

## Model

| member | source | states |
|---|---|---|
| Pieces.KeyTextInjective | server/internal/agent/fed.go:79-84 | two pieces share the joined key text exactly when kind and file, or kind and name, agree, so the text can be read as a pair |
| Pieces.PutReplaces | server/internal/agent/fed.go:86-92 | putting a piece whose key is there replaces it and keeps its place |
| Pieces.PutAppends | server/internal/agent/fed.go:93-95 | putting a new key adds the piece at the end |
| Pieces.PutKeepsDistinct | server/internal/agent/fed.go:86-95 | after a put there is still one piece per key, and the key is there |
| Pieces.RemoveKeepsDistinct | server/internal/agent/fed.go:97-109 | after a removal there is still one piece per key, and the key is gone |
| Pieces.ReAddedGoesLast | server/internal/agent/fed.go:86-109 | a piece removed and put again is the newest of all |
| Pieces.SortedIsPermutation | server/internal/agent/fed.go:135-145 | the sorted pieces are the live pieces, each exactly once |
| Pieces.SortedIsByRank | server/internal/agent/fed.go:37-37 | they come in the fixed order of kinds |
| Pieces.SortedKeepsEachKind | server/internal/agent/fed.go:135-145 | within a kind they come in the order they were added |
| Pieces.SortedEqualIff | server/internal/agent/fed.go:135-145 | two states are shown alike exactly when they agree kind by kind |
| FedContext.Fed.Put | server/internal/agent/fed.go:86-95 | list, index and tombstones go on standing for the dictionary with the piece put |
| FedContext.Fed.Drop | server/internal/agent/fed.go:101-109 | dropping tombstones at most the one indexed entry, and the dictionary loses exactly that key |
| FedContext.Fed.Remove | server/internal/agent/fed.go:97-99 | removing by name removes that key from the dictionary |
| FedContext.Fed.Clear | server/internal/agent/fed.go:112-118 | clearing a kind leaves exactly the pieces of other kinds, in order |
| FedContext.Fed.Count | server/internal/agent/fed.go:120-128 | the number of live pieces of a kind |
| FedContext.Fed.HasName | server/internal/agent/fed.go:130-133 | whether the dictionary has that kind and name |
| FedContext.Fed.Sorted | server/internal/agent/fed.go:135-145 | the dictionary's pieces by kind, tombstones left out |
| FedContext.Fed.Snapshot | server/internal/agent/fed.go:220-244 | a prompt snapshot replaces the instructions, and the tools only when it has any; a repeated title gets its section number |
| FedContext.Fed.Claude | server/internal/agent/fed.go:180-317 | what each kind of attachment does to the dictionary; what that leaves is said by the lemmas of Effects |
| FedContext.Read | server/internal/agent/fed.go:40-69 | reading a claude turn's records gives the sorted pieces of the replayed dictionary: under each key what the last attachment that touched it left; and notes what is missing exactly when a skill is shown |
| Effects.ServerDeltaLeaves | server/internal/agent/fed.go:272-280 | after a server delta a removed server is gone, one added with a block shows the last block given it, and every other piece is as it was |
| Effects.DeferredDeltaLeaves | server/internal/agent/fed.go:281-291 | after a deferred delta a removed tool is gone, an added one shows its line, or its name when the line is missing or empty, and every other piece is as it was |
| Effects.AgentDeltaLeaves | server/internal/agent/fed.go:292-302 | the same of agents, whose line counts even when it is empty |
| Effects.InstructionFilesLeave | server/internal/agent/fed.go:246-249 | each file shows the last content read for its path, under its name and what it belongs to, and every other piece is as it was |
| Effects.NestedMemoryLeaves | server/internal/agent/fed.go:250-256 | the file is shown if it was read and has any content, and otherwise what was shown of the path |
| Effects.SkillListingLeaves | server/internal/agent/fed.go:258-268 | the listed skills are live, each with its last line; the earlier ones stay unless the listing is the initial one |
| Effects.InvokedSkillsLeave | server/internal/agent/fed.go:269-270 | the skills loaded in full are one piece, the last shown |
| Effects.EnvironmentNoteLeaves | server/internal/agent/fed.go:304-305 | a note on the environment replaces the last of its name alone |
| Effects.HookContextLeaves | server/internal/agent/fed.go:306-307 | what a hook added is one piece, the last shown |
| Effects.UnrecognisedLeaves | server/internal/agent/fed.go:308-310 | an attachment of an unknown type is shown under its type, not dropped |
| Effects.SnapshotLeaves | server/internal/agent/fed.go:220-244 | after a snapshot the instructions are its opening line and sections and nothing else, the tools are its own if it has any, and every other piece is as it was |
| Effects.OwnTitlesAreKept | server/internal/agent/fed.go:227-234 | sections whose titles differ from each other and from the opening line go by their titles |
| Effects.FileNameIs | server/internal/agent/fed.go:333-338 | the name of a file is what follows the last slash of either kind |
| Effects.OrderAfter | server/internal/agent/fed.go:86-118 | after any attachment the pieces of a kind that stay keep their order, and the new ones follow in the order they are named in |
| Effects.LastTouchDecides | server/internal/agent/fed.go:180-317 | after any session each piece is what the last readable attachment that touches it leaves, and is not there when none does |
| Effects.ReplayIsDistinct | server/internal/agent/fed.go:71-95 | after any session there is one live piece per key |
| Effects.MissingIff | server/internal/agent/fed.go:55-58 | that claude records no files of skills is noted exactly when a skill is shown |
| SessionStore.Select | server/internal/sessionstore/sessionstore.go:197-215 | a snapshot is kept exactly when none comes after it, or its raw tools are longer than two characters and those of none after it are; every other record is kept, in order |
| SessionStore.OfSnapshot | server/internal/agent/fed.go:220-244 | a snapshot decides instructions and, with tools, tools, whatever came before; it touches no other kind |
| SessionStore.OfOther | server/internal/agent/fed.go:246-316 | every other attachment touches one other kind, and what becomes of it depends on that kind alone |
| SessionStore.PruningPreservesMeaningIff | server/internal/sessionstore/sessionstore.go:186-215 | for every sequence of records, decodable or not, the pruned ones show the same pieces in the same order exactly when the last snapshot that carries tools, if any, is kept, and the last that decodes is kept or brings the instructions of the one then read, if any |
| SessionStore.InstructionsAgreeIff | server/internal/agent/fed.go:187-244 | the instructions are the same exactly when the last snapshot that decodes is one of the two kept or brings what the one that is then read brings |
| SessionStore.ToolsAgreeIff | server/internal/agent/fed.go:235-244 | the tools are the same exactly when the last snapshot that carries any is one of the two kept |
| SessionStore.ReadableLosesOnlyToolsIff | server/internal/sessionstore/sessionstore.go:197-215 | when every snapshot decodes, exactly the tools decide |
| SessionStore.PruningPreservesMeaning | server/internal/sessionstore/sessionstore.go:197-215 | when every snapshot decodes, and those without tools have at most two characters of them, nothing changes |
| SessionStore.NullToolsLoseTheTools | server/internal/sessionstore/sessionstore.go:190-191 | a concrete session whose tools are lost because a null list was flagged |
| SessionStore.UndecodableLastSnapshotLosesInstructions | server/internal/agent/fed.go:187-189 | the family of two snapshots of which the last does not decode: nothing is lost exactly when the first brings no instructions |
| Wire.VarintAt | server/internal/agent/fed.go:609-623 | the loop reads the varint of the specification, or fails |
| Wire.VarintRoundTrip | server/internal/agent/fed.go:609-623 | decoding inverts base-128 encoding for every 64-bit value, wherever it stands, and stops right after it (sections "Base 128 Varints" and "Message Structure" of the Protocol Buffers Encoding guide) |
| Wire.VarintEnds | server/internal/agent/fed.go:609-623 | a varint is read exactly when one of the next ten bytes ends it, and it ends there |
| Wire.ShiftedIsShift | server/internal/agent/fed.go:617-617 | seven bits at a time comes to the shift by seven times the count, bits past 64 falling away |
| Wire.PbFields | server/internal/agent/fed.go:625-662 | the loop gives the fields, the error, or the index out of range of the specification |
| Wire.FieldAdvances | server/internal/agent/fed.go:627-659 | reading a field moves forward and stays within the buffer |
| Wire.FieldIsReadIff | server/internal/agent/fed.go:627-659 | a field is read exactly when its tag is a varint, its type one of the four known ones, and its value stands whole in the buffer |
| Wire.ReadToTheEnd | server/internal/agent/fed.go:627-661 | fields are returned only when the whole input was consumed |
| Wire.OutOfRangeIffOverflow | server/internal/agent/fed.go:649-654 | slicing goes out of range exactly when position plus length passes the largest int |
| Wire.HugeLengthOverflows | server/internal/agent/fed.go:649-654 | a concrete input on which it does |
| Wire.MessageRoundTrip | server/internal/agent/fed.go:625-662 | every encoded list of varint, length-delimited and fixed-width fields is read back whole and in order |
| Wire.PbAll | server/internal/agent/fed.go:664-676 | the payloads under a number, in order; none when the input is not protobuf |
| Wire.PayloadsRoundTrip | server/internal/agent/fed.go:664-676 | they are the payloads the writer put under that number |
| Wire.PbVarint | server/internal/agent/fed.go:691-703 | the first varint field with a number, and an error only when there is none |
| Machines.Store.ClaimPairing | server/internal/store/machines.go:133-195 | a claim spends the one pending, unexpired request of its token, resolves to a live computer of the same account, refuses one of another account, and otherwise binds a new machine |
| Machines.Store.CreatePairing | server/internal/store/machines.go:76-86 | a new request is pending, under an id and token of its own |
| Machines.Store.ApprovePairing | server/internal/store/machines.go:197-227 | approves exactly a claimed, unexpired pairing of that account whose machine is not revoked, and otherwise changes nothing |
| Machines.Store.DeclinePairing | server/internal/store/machines.go:232-260 | rejects a pending or claimed pairing and revokes its machine only if it was never approved |
| Machines.Store.RevokeMachine | server/internal/store/machines.go:297-314 | an account revokes its own machine and no other |
| Machines.Store.MachineForCredential | server/internal/store/machines.go:317-327 | finds a machine exactly when the credential is approved and not revoked |
| Machines.Store.CredentialRefused | server/internal/db/machines.sql.go:189-196 | answers exactly the refused predicate; an unknown credential is not refused |
| Machines.RunKeepsValid | server/internal/db/machines.sql.go:44-49 | in every run credentials and tokens stay unique and a pairing names only a computer of its own account |
| Machines.RefusedForever | server/internal/db/machines.sql.go:189-196 | once a known credential is refused, no later run of pairing steps with time not going back gets it accepted |
| Machines.RefusedIffNeverAccepted | server/internal/store/machines.go:329-341 | among known credentials the refused ones are exactly those no later run can ever get accepted |
| Machines.LiveUntilItsAccountRevokesIt | server/internal/store/machines.go:133-260 | a computer that may connect keeps its account and credential, and may connect, exactly until its own account revokes it |
| Machines.DecidedForGood | server/internal/db/machines.sql.go:101-106 | approved and rejected pairings never change again |
| Machines.ClaimedWaitsUntilItExpires | server/internal/store/machines.go:182-195 | a credential handed out by a claim is not accepted, and is refused exactly from the time its pairing expires |
| Machines.ClaimTakesEffectIff | server/internal/store/machines.go:133-195 | a claim changes the tables exactly when its request is pending and not yet expired and is not another account's connected computer's; and how |
| Machines.ClaimedCredentialWaits | server/internal/store/machines.go:182-195 | no claim hands out a credential that is refused already |
| Machines.ClaimByAConnectedComputer | server/internal/store/machines.go:149-181 | a claim by a computer already connected to that account makes no machine and no credential; by one of another account it changes nothing |
| Machines.ApprovalAdmits | server/internal/store/machines.go:197-227 | approving makes the claimed credential accepted |
| Machines.DeclineRefusesWhoClaimed | server/internal/store/machines.go:229-260 | declining refuses the computer that claimed, for good, touches no other and never one that may connect |
| Machines.RevocationRefuses | server/internal/store/machines.go:297-314 | revoking makes the credential refused at any time after |
| Credentials.Files.PromotePending | server/cmd/daemon/endpoints.go:124-137 | undisturbed it is the comparison followed by the rename |
| Credentials.Files.ForgetCredential | server/cmd/daemon/endpoints.go:142-154 | undisturbed it is the comparison followed by the removal |
| Credentials.Files.MachineToken | server/cmd/daemon/endpoints.go:159-172 | a pairing waiting for approval is dialled with first, then the approved credential, and without either nothing is |
| Credentials.RunKeepsInv | server/cmd/daemon/main.go:177-219 | in every run of both ends the tables stay valid, and what the daemon was told, accepted or refused, stays true while it acts on it |
| Credentials.MainChangesOnlyForGoodReason | server/cmd/daemon/endpoints.go:121-154 | at any point of any run the main file changes only by a rename, to a credential the server approved or to a claim saved since the comparison; and an approved credential is removed only once it is revoked |
| Credentials.WorkingComputerStaysConnectable | server/cmd/daemon/endpoints.go:74-77 | from a computer that can connect and has no claim under way, as long as no credential it holds or presents is revoked, no run of anyone's claims, approvals, declines, expiries, reconnects, losses and stale refusals leaves the main file without a credential the server accepts |
| Credentials.ConnectedClaimIssuesNothing | server/cmd/daemon/pair.go:58-60 | a claim sent with a credential the server accepts is never answered with a new one |
| Credentials.NextDialSettlesThePairing | server/cmd/daemon/main.go:177-219 | undisturbed, the next dial makes an approved pairing the computer's credential, forgets a refused one without touching the earlier one, and leaves one that waits |
| Credentials.NextDialUsesTheMainCredential | server/cmd/daemon/endpoints.go:156-172 | with nothing pending, or nothing readable, the main credential is dialled with, granted exactly when it is accepted, and removed exactly when it is refused |
| Credentials.StaleAnswerChangesNothing | server/cmd/daemon/endpoints.go:124-154 | an answer about a credential no longer in its file changes no file |
| Credentials.AnsweredWithNewIff | server/internal/store/machines.go:133-195 | a claim is answered with a new credential exactly when its request is open and it does not come from a computer that can connect; that credential then waits |
| Credentials.ClaimIsSavedAsPendingIff | server/cmd/daemon/pair.go:56-99 | from sending to saving a claim changes the pending file alone, and that exactly when it is answered with a new credential |
| Credentials.MainIsGoodIff | server/cmd/daemon/endpoints.go:121-137 | over any run, the main file holds an approved credential or none at every point exactly when each claim saved between a comparison and its rename was approved by the rename |
| Credentials.RenameIsGoodIff | server/cmd/daemon/endpoints.go:124-137 | one step of that: a step keeps the main file good exactly when it renames no unapproved claim that overtook the comparison |
| Credentials.PendingIsKeptIff | server/cmd/daemon/endpoints.go:139-154 | a pending credential that no newer claim replaces leaves its file only by being promoted or refused, exactly when no claim saved since a comparison is removed in place of the one compared |
| Credentials.ClaimSavedBeforeTheRenameUnpairs | server/cmd/daemon/pair.go:56-99 | a run from empty tables and empty files, with nobody revoking anything, in which a computer that works ends with only a credential that is refused for good |
| SignIn.RunKeepsInv | server/internal/db/users.sql.go:207-262 | in every interleaving a lock holder excludes the others it must, sees the current password, and each deletion has every session it must end |
| SignIn.RevokedPasswordLeavesNoSession | server/internal/store/users.go:94-198 | every live session made by signing in was made with the account's present password, under its present hash; so were those of resets and registrations |
| SignIn.ChangesAreSerialised | server/internal/store/users.go:167-198 | each committed change was checked against the very password it replaced, so none is lost |
| SignIn.RightPasswordSignsInIff | server/internal/store/users.go:94-133 | with the lock free, a sign-in makes its session exactly with the right password |
| SignIn.ChangeTakesEffectIff | server/internal/store/users.go:154-198 | with the lock free, a change with the right password replaces it and ends every session; with a wrong one it changes nothing |
| SignIn.ResetTakesEffectIff | server/internal/store/accounts.go:177-221 | with the lock free, a reset sets the password, ends every session and starts its own; without an account it changes nothing; it is over either way |
| SignIn.RegistrationTakesEffectIff | server/internal/store/accounts.go:127-169 | a registration makes the account and its first session exactly when there is no account yet |
| SignIn.StartingTakesEffect | server/internal/store/sessions.go:33-48 | a session started by itself is made under the present hash whatever locks are held |
| SignIn.RollbackChangesNothing | server/internal/store/accounts.go:186-197 | a transaction rolled back at any point leaves account, sessions and the other transactions as they were, and holds no lock |
| SignIn.SessionsAreNeverReplaced | server/internal/store/accounts.go:242-256 | in every run a session is only made or ended, never replaced by another under its id |
| SignIn.OverForGood | server/internal/store/accounts.go:186-219 | what has committed or rolled back never moves again |
| SignIn.WhoMayLock | server/internal/db/users.sql.go:207-262 | sign-ins share the row lock; a change or reset waits for every holder, and a sign-in for those two |
| SignIn.PasswordCommit | server/internal/store/accounts.go:177-221 | the commit of a change or reset leaves no session from before it but unchecked ones |
| Throttle.Throttle.Begin | server/internal/auth/throttle.go:73-82 | admits exactly when there is nothing to wait for, and counts the attempt as it does |
| Throttle.Throttle.Sweep | server/internal/auth/throttle.go:160-169 | above the threshold exactly the expired entries go |
| ThrottleRuns.AtMostFourteen | server/internal/auth/throttle.go:73-149 | whatever everybody calls and from whatever entries, a client that has not got in is admitted at most 14 times in any 15 minutes |
| ThrottleRuns.FourteenIsReached | server/internal/auth/throttle.go:26-42 | a client that waits as long as it is told is admitted 14 times: the bound is exact |
| ThrottleRuns.Delays | server/internal/auth/throttle.go:104-122 | the waits are 2, 4, 8 up to 256 seconds and then 300 |
| ThrottleRuns.TimeToWaitIs | server/internal/auth/throttle.go:91-125 | how long a client waits: nothing before five failures or after fifteen minutes, and otherwise what is left of the doubling delay |
| ThrottleRuns.BeginLeavesItsOwn | server/internal/auth/throttle.go:73-82 | an admitted attempt counts one more, or the first after fifteen minutes; one that is not admitted counts for nothing |
| ThrottleRuns.BeginLeavesOthers | server/internal/auth/throttle.go:135-169 | nobody else's entry is touched, unless there are 1024 and it is fifteen minutes old |
| ThrottleRuns.OthersLeave | server/internal/auth/throttle.go:84-158 | what asking, a wrong password and the right one do to the entries |
| ThrottleRuns.StartsAnew | server/internal/auth/throttle.go:91-149 | who stops guessing for fifteen minutes, or has no entry, is admitted five times at once |
| ThrottleRuns.OnlyOwnCallsCount | server/internal/auth/throttle.go:91-125 | what a client is told depends on its own calls alone, unless it reports a wrong password after its entry expired |
| ThrottleRuns.SweepSeenIff | server/internal/auth/throttle.go:127-169 | sweeping an expired entry is seen by some later call exactly when the client's next call reports a wrong password |
| RunningTurns.RunningTurns.Begin | server/cmd/daemon/turns.go:67-84 | registers unless closed or already asked to stop; a refusal forgets the stop |
| RunningTurns.RunningTurns.TryClose | server/cmd/daemon/turns.go:34-42 | closes exactly when no turn is registered |
| RunningTurns.RunningTurns.Stop | server/cmd/daemon/turns.go:88-99 | remembers the stop whether or not the turn runs, and gives its cancel function if it does |
| RunningTurns.RunningTurns.CancelAll | server/cmd/daemon/turns.go:125-137 | gives the cancel function of every running turn, once each, and marks none as stopped |
| RunningTurns.EndReportsStopIff | server/cmd/daemon/turns.go:101-112 | a turn that did start stays registered until its end, which reports a stop exactly when one was applied meanwhile |
| RunningTurns.StopOvertakesStart | server/cmd/daemon/turns.go:67-84 | a stop that arrives first refuses exactly that start, once, and is then forgotten |
| Handover.StartsOnlyWhenIdle | server/cmd/daemon/update.go:284-323 | whenever the updater's start is called no turn is registered and none can register |
| Handover.ClosedOnlyDuringAnActivation | server/cmd/daemon/update.go:264-323 | at most one activation is in progress, and the register is closed exactly while one holds it closed |
| Handover.NothingRunsUntilReopened | server/cmd/daemon/update.go:304-318 | from the close until that activation reopens the register nothing runs, whatever else is checked, applied or started |
| Handover.HandedOverForGood | server/cmd/daemon/update.go:319-322 | after a successful hand-over nothing ever runs in this copy again |
| Handover.OffMeansItNeverCloses | server/cmd/daemon/update.go:287-297 | an automatic activation that waits gives up once the setting is off: while it stays off it never closes the register |
| Handover.LooksAgainUntilIdle | server/cmd/daemon/update.go:284-303 | an automatic activation that is turned off gives up and makes way for another; one that finds a turn running looks again |
| Handover.StartsWhenIdle | server/cmd/daemon/update.go:284-311 | one that finds none running closes the register and calls start, whatever the setting if it was deliberate |
| Handover.TurnInBetweenIsLetRun | server/cmd/daemon/update.go:307-310 | a turn that begins between the count and the close is let run |
| Handover.HandsOverWhenStartSucceeds | server/cmd/daemon/update.go:312-322 | when start succeeds the copy has handed over and does nothing more |
| Handover.ReopensWhenStartFails | server/cmd/daemon/update.go:312-318 | when start fails the register is open again and another activation may begin |
| Handover.BeginsUnlessOneIsUnderWay | server/cmd/daemon/update.go:264-282 | an activation begins exactly when none is under way |
| UpdateSwap.Updater.Run | server/cmd/daemon/update.go:486-560 | for every script of outcomes the two files go through exactly the states the model lists; it succeeds exactly when the connected file is seen to name the new version in time; on failure the reason is recorded and what is at the target is started |
| UpdateSwap.OldIsKeptUntilSuccess | server/cmd/daemon/update.go:505-560 | the old executable is at the target or the backup in every one of those states but the last of an update that succeeded and removed the backup |
| UpdateSwap.EndsWithAWorkingCopyIff | server/cmd/daemon/update.go:505-560 | a success ends with the new executable in place; a failure with the old one there exactly when the swap never began or a put-back worked, and otherwise at the backup |
| UpdateSwap.LostUnconnectedIff | server/cmd/daemon/update.go:517-531 | the old executable goes without the new one having connected exactly when an old connected file naming it could not be removed and the backup was; a success without such a file means a connection in time |
| UpdateSwap.Updater.AwaitConnection | server/cmd/daemon/update.go:525-545 | the wait ends, and finds a connection exactly when the file names the new version at a poll before the deadline and before the new copy exits |
| UpdateSwap.Updater.PutBackAtLast | server/cmd/daemon/update.go:547-560 | the retries go through the states of at most twenty tries, and report exactly whether one of them worked |
| UpdateSwap.TriesKeepOld | server/cmd/daemon/update.go:506-509 | the tries leave the old executable at the target when one works and at the backup when none does, and never lose it |
| UpdateSwap.SucceedsIff | server/cmd/daemon/update.go:517-531 | an update succeeds exactly when the new copy connected in time, or an old connected file naming it could not be removed |
| UpdateSwap.PassesThrough | server/cmd/daemon/update.go:505-516 | the states the files pass through on the way in, and what a failed copy leaves |
| UpdateSwap.ReachedIff | server/cmd/daemon/update.go:525-538 | the first look comes at once and each other a second or more later, unless the new copy has exited or the time is up |
| UpdateSwap.PollsAreBounded | server/cmd/daemon/update.go:525-538 | the file is looked at no more often than once for each second of the wait, and once more |
| TurnLifecycle.Turn.Run | server/cmd/daemon/main.go:501-706 | every run ends with exactly one message, and which one follows from the script and the register: done exactly when it began, was not stopped, launched, stayed alive and did not fail; stopped exactly when a stop fell in between, or its begin was refused and the register is open at the second look; failed otherwise. It says everything else in order before, and its batches carry all that the record keeps. It also says what becomes of the register |
| TurnLifecycle.Turn.Finish | server/cmd/daemon/main.go:662-706 | asked to stop wins over silence and over the agent's own error; done is what is left |
| TurnLifecycle.Turn.Handle | server/cmd/daemon/main.go:605-638 | a line is recorded, and a batch goes with it only when it is big enough; the tick flushes; reports are passed on in order |
| TurnLifecycle.NothingGoesUnsaid | server/cmd/daemon/main.go:605-638 | every line the agent prints goes to the record and every report to the server, in the order of the events, and nothing else does |
| TurnLifecycle.NothingIsLeftBehind | server/cmd/daemon/turns.go:105-112 | a turn that ran is gone from the register and leaves no stop behind |
| TurnLifecycle.RefusedButToldStoppedIff | server/cmd/daemon/main.go:546-564 | a turn refused for an update is told so exactly when the register is still closed at the second look; otherwise it was reopened in between |
| TurnLifecycle.ToldStoppedThoughNobodyAsked | server/cmd/daemon/main.go:546-564 | a concrete script in which a turn nobody stopped is reported as stopped |
| TurnEndings.EndsAtMostOnce | server/internal/api/api.go:884-926 | however messages, failed sends and abandoned turns race, a turn is finished at most once and its usage added at most once, and only if it was finished |
| TurnEndings.OnlyItsOwnAccountEndsIt | server/internal/api/api.go:700-705 | only a computer of the turn's own account gets past the look-up |
| TurnEndings.FirstTakerFinishes | server/internal/api/api.go:884-926 | the call that takes the turn finishes it and adds its usage; one that takes it later finds nothing and changes nothing |
| TurnEndings.OnlyItsOwnAccountFindsIt | server/internal/api/api.go:700-705 | a new turn is found by a computer of its own account and by no other |
| TurnEndings.TakerEndsIt | server/internal/api/api.go:884-926 | the call that takes it writes it once, or not at all if the store refuses, and the turn is gone from the map either way |
| Splitter.Splitter.Write | server/internal/agent/record.go:47-70 | after each write the state is that of the whole stream so far |
| Splitter.Splitter.End | server/internal/agent/record.go:82-86 | the lines are all those of the stream; a last one without a newline counts unless it is empty |
| Splitter.Split | server/internal/agent/record.go:47-86 | for every stream and every way of cutting it into writes, the lines are those of the stream read at once |
| Splitter.LineKeeps | server/internal/agent/record.go:54-79 | a line keeps its first 16 MiB, less a return at the end of them, and counts exactly the rest |
| Splitter.RawsTellTheStream | server/internal/agent/record.go:47-86 | the stretches between newlines make up the stream |
| Splitter.NoNewlineInside | server/internal/agent/record.go:47-86 | and no stretch has a newline inside |
| Splitter.RejoinsIffNothingLost | server/internal/agent/record.go:47-86 | the lines rejoin to the stream exactly when no line was cut and none had a return trimmed |
| ExchangeRecord.ExchangeRecord.Add | server/cmd/daemon/exchange.go:66-83 | a line is kept and numbered, or counted with what was cut from it, and the caller is told when the batch is big enough |
| ExchangeRecord.ExchangeRecord.Flush | server/cmd/daemon/exchange.go:85-98 | a flush sends what is pending and the count if it moved, as one batch or none if there is neither; after it the batches sent are all the kept lines and the server knows the count |
| ExchangeRecord.ExchangeRecord.Take | server/cmd/daemon/main.go:614-618 | with the loop's flushes no batch has more than 200 lines, or 256 KiB before its last, and none goes before it has either |
| ExchangeRecord.NothingIsLostUncounted | server/cmd/daemon/exchange.go:66-83 | kept and dropped lines are all the lines, kept and dropped bytes all the bytes with those cut, and what is kept is within the budget |
| ExchangeRecord.NoHoleIff | server/cmd/daemon/exchange.go:43-43 | the kept lines are numbered 1, 2, 3 and on without a hole exactly up to the largest 32-bit number |
| ExchangeRecord.KeepsWhatFits | server/cmd/daemon/exchange.go:72-82 | the recorded texts are those of the lines that fitted when they came, in order |
| RawView.ExchangeTable.AppendLines | server/internal/db/exchanges.sql.go:46-62 | a number already stored keeps its line, and the totals count exactly the lines stored |
| RawView.StoringAgainChangesNothing | server/internal/db/exchanges.sql.go:46-62 | storing a batch again changes nothing |
| RawView.StorableIsSameIff | server/internal/store/exchanges.go:20-26 | the stored text holds no NUL, and is the printed text exactly when that held none |
| RawView.Cache.PatchExchange | apps/web/lib/queries.ts:611-630 | only lines past the last are added; a gap changes nothing and is reported |
| RawView.PatchedIff | apps/web/lib/queries.ts:620-628 | a batch the view has changes nothing, one that follows on adds just what the view lacks, and there is a gap exactly when it starts past the next line |
| RawView.ViewAgreesWithStoreIff | server/internal/api/api.go:798-840 | in every run, with batches, events and answers lost, late or repeated, an open view shows every stored line up to its last one and no other exactly when no line was stored behind it since the read it was made from |
| RawView.ViewAgreesWithStore | server/internal/db/exchanges.sql.go:46-62 | so it does whenever the batches that arrive bring their new lines in order, whatever is lost or repeated |
| RawView.ToldBatchExtendsTheView | apps/web/lib/queries.ts:611-630 | a batch that reaches an open view extends it by just the lines it lacks; one that starts past the next line changes nothing |
| RawView.LostEventIsNotShown | server/internal/api/api.go:798-840 | a batch whose event is lost is stored and leaves every view as it was |
| RawView.ReadingAgainShowsTheStore | apps/web/lib/queries.ts:611-630 | reading again shows every line stored by then |
| RawView.LateBatchLeavesAHole | apps/web/lib/queries.ts:620-626 | a concrete run in which a late batch leaves a view without a line the store has |
| RawView.ViewIsExactIff | server/internal/store/exchanges.go:20-26 | it shows them to the byte exactly when none of its lines holds a NUL |
| RawView.BatchesFollowOneAnother | server/cmd/daemon/exchange.go:85-98 | the batches a record sends are stretches of the turn's lines, each beginning right after the one before |
| HubRegistry.Hub.ClearPairedDaemon | server/internal/hub/hub.go:270-294 | only the current socket's teardown removes the computer, and the primary passes to one still online, if any |
| HubRegistry.Hub.Target | server/internal/hub/machines_in_workspace.go:41-66 | without the account-wide route a computer is found exactly when an allowed one of the account is online: the primary if allowed, and otherwise the first |
| HubRegistry.PrimaryIsOnline | server/internal/hub/hub.go:258-294 | in every run in which each computer connects for one account, an account has a primary exactly when a paired computer of its is online, and the primary is one of them |
| HubRegistry.PairingKeepsValidIff | server/internal/hub/hub.go:258-269 | a connection keeps that exactly when it does not take another account's primary computer |
| HubRegistry.LatestSocketStays | server/internal/hub/hub.go:258-294 | the socket a computer connected with last stays current until it is itself cleared |
| HubRegistry.NewestIsPrimary | server/internal/hub/hub.go:258-294 | the computer an account connected last is its primary until another connects or its own current socket is torn down |
| HubRegistry.ClearedIsOffline | server/internal/hub/hub.go:270-294 | the teardown of its current socket takes that computer offline and changes nothing of any other computer or account |
| HubRegistry.LatestRouteStays | server/internal/hub/hub.go:201-240 | the account-wide route is the last one set until that very one is cleared, which removes it |
| HubRegistry.SupersededTeardownChangesNothing | server/internal/hub/hub.go:270-294 | the teardown of a replaced socket changes nothing in the registry |
| HubAsk.ReplyIsItsOwn | server/internal/hub/updates.go:128-155 | what an ask returns names that ask and, among fewer than 2^64 asks, no other |
| HubAsk.ReplyComesFromTheAccount | server/internal/hub/hub.go:439-459 | what an ask returns was sent by a computer of its own account while this very ask was waiting |
| HubAsk.ReturnsOnce | server/internal/hub/updates.go:149-154 | an ask returns once; late and repeated replies never change what it got |
| HubAsk.ReplyReachesItsAsk | server/internal/hub/hub.go:439-459 | a reply in time from the account's computer is what the ask returns; one from another account changes nothing |
| HubAsk.AnsweredReturnsTheReply | server/internal/hub/updates.go:128-155 | from asking to returning: the first reply of the account's computer is returned, a second on its way is dropped, and the waiter is gone |
| HubAsk.UnansweredReturnsNothing | server/internal/hub/updates.go:139-154 | an ask that cannot be sent or is given up returns nothing, its waiter is gone, and a later reply finds nobody |
| HubAsk.AskWaits | server/internal/hub/updates.go:128-137 | a new ask waits under an id no other waiter has |
| HubAsk.MovesOneByOne | server/internal/hub/updates.go:128-155 | an ask takes its places in order and never goes back |
| HubAsk.NoWaiterOutlivesItsAsk | server/internal/hub/updates.go:139-143 | every waiter belongs to an ask that has not returned, under its own id |
| HubAsk.SameIdIff | server/internal/hub/updates.go:129-129 | two asks share an id exactly when their numbers differ by a multiple of 2^64 |
| FreeName.Free | server/internal/store/files.go:93-109 | ends for every list of taken names; the name is free without regard to case, the given one if that is free and otherwise the least numbered one that is, at most two past the number taken |
| FreeName.NumberedDiffer | server/internal/store/files.go:104-105 | differently numbered names differ in more than case |
| FreeName.NumberGoesBeforeExt | server/internal/store/files.go:101-104 | the number goes in brackets between the name and its extension |
| FreeName.NumberedKeepsExt | server/internal/store/files.go:101-104 | a numbered name has the extension of the name it was made from |

## Left out

- JSON decoding, headings and regular expressions of the session reader: attachments are typed values, and a section's title, a skill line and a rendered text are given.
- FedContext.Read: reads claude's records; codex and agy documents, unknown kinds and the other providers' notes of what is missing are not modelled.
- Codex and agy records, and the collector's removal of repeated bodies, which does not preserve meaning for changes that add, remove and add again.
- Wire.PbFields: takes buffers at least eight bytes shorter than the largest int, as every Go slice is.
- Transactions other than those of the sign-in model are one step with one reading of the clock. Deleting an account with its rows is not modelled.
- Credentials.WorkingComputerStaysConnectable: is about one running copy of the daemon, starts between two dials with no claim under way, and takes the main file to be readable when a claim is sent. The back-off between dials is not modelled.
- Credentials.Files.MachineToken: does not model the shared token a development build falls back to.
- SignIn.RevokedPasswordLeavesNoSession: says nothing of sessions started by the separate call after a password change, which holds no lock and proves no password.
- Throttle.Throttle.Begin: reads the clock once, where the code reads it twice under one lock.
- ThrottleRuns.OnlyOwnCallsCount: excludes a wrong password reported after the client's entry expired; that case is the lemma beside it.
- RunningTurns.EndReportsStopIff: a turn id is taken to be started once, as ids of new entries are.
- The updater's status text, the version check and the download; a finishing activation may overwrite a newer status.
- UpdateSwap.Updater.Run: the files' contents are which version they hold, and each outside call's outcome is given; ending the new copy before the put-back is not modelled, only that a put-back may fail.
- TurnLifecycle.Turn.Run: what the agent prints and whether it launches are given; files made by a turn and the text of messages are left out. Others' use of the register while the turn drains its output is one sequence, since the turn does not look at the register then.
- TurnEndings.EndsAtMostOnce: a computer going away ends all its account's turns, and the model likewise does not tell an account's computers apart.
- A message counts as sent whether or not the socket takes it, as the code does not look.
- Times of lines, the dropped count and the report in the browser's cache, and the summaries. Counts wider than 64 bits are not wrapped.
- Text that is not UTF-8, which JSON changes on the way.
- Browser sockets, providers, headroom and events of the hub; sending to a socket is only whether it fails.
- FreeName.Free: lowercasing is any function on characters that leaves digits alone; making a name safe and guessing a media type are not modelled.
