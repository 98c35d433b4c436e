# Verification of remote-ssh-mcp

A Dafny model of the parts of remote-ssh-mcp whose correctness is hardest to see by reading them, with
machine-checked proofs. `dafny verify dfyconfig.toml` checks everything.

The four parts:

1. **The verified atomic write.** A client base64-encodes a file, pastes it through a terminal in pieces and ends it
   with a delimiter; a receiver program on the host finds the delimiter across arbitrary read boundaries, decodes block
   by block, compares length and digest, and puts the file in place with a link or a rename.
   `Base64` is the encoding. `Transfer` holds the two streaming loops and what they refine. `FileTree` is a file system
   of names, inodes and symbolic links. `Commit` is the receiver's commit as a transition system in which others change
   the file system between any two calls; `Comparison` is about what it compares before it publishes and before it
   reports success, and about what it reports; `QuietCommit` is the same without interference. `Host` and `WriteReceiver`
   are the receiver as the class it is, every call of which may fail, tied to the transition system by a ghost run.
   `WriteProtocol` puts client, terminal, receiver and interference together; `WriteGuarantees`, `CleanTerminal` and
   `WriteSuccess` draw the conclusions.
2. **The connection lifecycle.** `Session` has any number of tasks, one lock, the published state, and the truth about
   the pane; `SessionGuarantees` holds over all its runs; `Connection` is the class whose fields the tasks update.
   `Windows` and `SessionManager` do the same for the tmux windows that connects and disconnects create and kill.
3. **Pane framing.** `Shell` quotes, `Framing` builds the wrapper and says what running it prints, `Screen` parses
   screens, `FramingGuarantees` shows that parsing undoes printing, and `Runner` is the polling loop.
4. **Exact transformations.** `Utf8` and `Truncate`, `ReadFile` and `Edit`, `Walk`, `WalkPaths` and `GlobTool`. `Common` and
   `Text` hold what they share of Python's string operations.

Asynchronous code is modelled at its `await` points: between two of them a task runs alone. Where an object is updated
in place the model is a class. `Receiver` carries a ghost history of its commit, `Connection` and `SessionManager` one
of all they do, each a run of the corresponding transition system, so that the theorems about all runs of `Commit`,
`Session` and `Windows` are ones about the objects.

Deadlines, failures of calls and cancellations are nondeterministic outcomes. SHA-256 is an arbitrary function that
tells the content from every other byte string of its length.

## What turned out not to hold as promised

The code was kept as it is in the model. Each of these has a concrete witness and the condition under which the
promise does hold.

- A connection at rest and `ready` can have a busy pane, for three reasons: `connect` timed out on its last command and
  registered the connection all the same (`session.py` lines 160-183; `SessionGuarantees.ReadyButBusyFromTheStart`); a
  write failed, the pane was recovered, the probe of the destination then hung, and the error still said that the pane
  was recovered (`files.py` lines 435-459), which `operation` trusts (`SessionGuarantees.ReadyButBusy`); an operation
  left with an error that is neither a `RuntimeError` nor a `ValueError`, or with a cancellation that arrived while it
  awaited a recovery, over something unfinished that nobody then recovers from
  (`SessionGuarantees.ReadyButBusyAfterAnEscape`). `SessionGuarantees.ReadyMeansUsableIff` says that it happens if and
  only if nobody has had the lock since one of the three. A `cd` that times out is not a fourth: the shell works off its
  lines in order, so the pane is idle if the `pwd` after it completes.
- A disconnect whose kill fails after it has been cancelled, or with an error that it does not catch, leaves a
  registered connection that says `closing` (`SessionGuarantees.ClosingForever`); `SessionGuarantees.ClosingAtRestIff`
  is the exact condition, and only another disconnect ends it (`SessionGuarantees.ClosingUntilDisconnected`).
- A disconnect that is cancelled twice, or whose kill times out after its effect, leaves a connection registered over a
  window that the manager has killed (`Windows.SecondCancellationLeavesItRegistered`); this is so if and only if such a
  step was taken for that connection (`Windows.RegisteredOverKilledIff`).
- A second cancellation while a connect undoes a new session leaves the bootstrap window alive and unowned
  (`Windows.SecondCancellationLeaksTheBootstrap`). So do a window whose name the connect never hears, and cleanups that
  fail (`Windows.LeaksExactlyWhen`).
- The block-wise decoder accepts texts that one strict decoding of the whole refuses. It does so if and only if the text
  consists of whole quads, every block of 65,536 characters decodes by itself, and there is padding before the last quad
  (`Transfer.LaxerIff`; `Transfer.DecodePartsIff` for any other way of cutting). Two encodings of which the first fills
  a block are such a text (`Transfer.BlockwiseDecodingIsLaxer`). The digest still protects the content.
- A receiver that is interrupted, killed, or made to give up by stray keys while it listens can leave payload for the
  shell to read (`CleanTerminal.InterruptedReceiverLeaksPayload`, `CleanTerminal.KilledReceiverLeaksPayload`,
  `CleanTerminal.NoiseLeaksPayload`); without these none gets there (`CleanTerminal.NoPayloadReachesTheShell`).
- A truncation limit smaller than the marker is exceeded (`Truncate.RespectsTheLimitIff`).
- The uniqueness check of an edit counts occurrences that do not overlap, so an `old` that can overlap itself may be
  accepted although it occurs twice (`Edit.UniquenessMeansOnceIff`, `Edit.OverlapIsAccepted`).
- A glob whose root is a regular file with a name of white space drops its only match (`GlobTool.GlobAnswers`).

## Model

| member | source | states |
|---|---|---|
| `Base64.RoundTrip` | src/remote_ssh_mcp/files.py:384 | base64 decoding undoes encoding, for every content |
| `Base64.EncodeConcat` | src/remote_ssh_mcp/files.py:383-385 | pieces of a length divisible by three encode to pieces of the encoding of the whole, without padding between them |
| `Base64.EncodeAlphabet` | src/remote_ssh_mcp/files.py:342 | an encoding uses only the base64 alphabet and `=`, never the `.` that the delimiter begins with |
| `Base64.DecodeConcat` | src/remote_ssh_mcp/_write_receiver.py:154-161 | a text cut at a multiple of four decodes exactly when the piece before the cut is free of padding and the rest decodes, and then piecewise |
| `Base64.DecodableIff` | src/remote_ssh_mcp/_write_receiver.py:154-155 | a text decodes if and only if it consists of whole quads of symbols, with padding in the last two places at most |
| `Base64.TableIs` | src/remote_ssh_mcp/files.py:384 | the 64 symbols, letter by letter, each at its value |
| `Base64.SymbolIff` | src/remote_ssh_mcp/_write_receiver.py:154-155 | a character is a symbol if and only if it is one of these, and its value is its place among them |
| `Base64.EncodesTheNumber` | src/remote_ssh_mcp/files.py:384 | one to three bytes and the symbols they become show the same number, the most significant part first, zero bits filling up the last symbol and `=` the quad |
| `Base64.DecodesTheNumber` | src/remote_ssh_mcp/_write_receiver.py:154-155 | the other way round, for a quad with or without padding; the bits that fill up the last symbol are dropped, whatever they are |
| `Transfer.SendPayload` | src/remote_ssh_mcp/files.py:383-386 | the pieces the send loop pastes are, one after the other, the encoding of the content and then the delimiter; every full piece has 65,536 characters |
| `Transfer.PendingSearch` | src/remote_ssh_mcp/_write_receiver.py:101-117 | searching what is pending, the last characters before a read and the read itself, finds the delimiter exactly where a search of everything consumed would first find it |
| `Transfer.AcceptedIff` | src/remote_ssh_mcp/_write_receiver.py:91-138 | for any stream and any chunking: a payload is accepted if and only if the first delimiter of the whole stream starts at the announced length and some read ends with it; what is written is what comes before it |
| `Transfer.RefusedBecause` | src/remote_ssh_mcp/_write_receiver.py:97-135 | for any stream and any chunking: the reason of a refusal is true of what had been consumed: the end of the input, something after the first delimiter, a delimiter at another place than announced, or more than the announced length and 65,536 characters without one |
| `Transfer.DecodePartsIff` | src/remote_ssh_mcp/_write_receiver.py:146-163 | for every way the reads cut a text: the loop with its carry accepts it if and only if it consists of whole quads and every piece between the cuts decodes by itself; what one decoding of the whole yields the loop yields too; and it accepts what one decoding refuses if and only if, besides, there is padding before the last quad |
| `Transfer.LaxerIff` | src/remote_ssh_mcp/_write_receiver.py:146-163 | the same on the text alone, for the reads of 65,536 characters that the received file is cut into: what the loop accepts, what it makes of it, and exactly when one strict decoding refuses what it accepts |
| `Transfer.BlockwiseDecodingIsLaxer` | src/remote_ssh_mcp/_write_receiver.py:147-161 | for all contents of which the first is padded and fills a block: their encodings, one after the other, decode block by block to both contents, and one strict decoding refuses them |
| `Transfer.EndToEnd` | src/remote_ssh_mcp/_write_receiver.py:97-163 | for every content, token, split of the stream into reads and split of the file into reads: the stream is accepted, at exactly 4*((n+2)/3) characters, and decodes to the content |
| `FileTree.NewFileModeHonoursUmask` | src/remote_ssh_mcp/_write_receiver.py:19-22 | the mode of a new file is octal 666 without the bits of the umask |
| `FileTree.PermissionsKept` | src/remote_ssh_mcp/_write_receiver.py:224-225 | the lowest twelve bits of the mode of a file or directory survive, and no others |
| `FileTree.MakeDirsMakes` | src/remote_ssh_mcp/_write_receiver.py:223 | after `makedirs` the directory is there, and so is every one above it up to the first that was there before |
| `FileTree.LoopsForever` | src/remote_ssh_mcp/_write_receiver.py:187-194 | when resolution ends at a link the path runs into a loop of links and never resolves |
| `Commit.RunInv` | src/remote_ssh_mcp/_write_receiver.py:219-257 | the invariant of the commit in every state of every run, with others acting between any two calls and any call failing |
| `Commit.Atomicity` | src/remote_ssh_mcp/_write_receiver.py:229-257 | in every reachable state every name that leads to the receiver's file, other than its private one, leads to the complete payload with its final mode, unless somebody else has rewritten that very file |
| `Commit.OwnStepFrame` | src/remote_ssh_mcp/_write_receiver.py:241-257 | a step of the receiver disturbs at most one name, the destination, and that only by replacing one that existed at the snapshot |
| `Commit.NewcomersSurvive` | src/remote_ssh_mcp/_write_receiver.py:244-250 | if the destination was missing at the snapshot, no step of the receiver removes or overwrites what others put anywhere, even between the check and the link |
| `Commit.MismatchLeavesDestination` | src/remote_ssh_mcp/_write_receiver.py:201-217 | after a snapshot of any kind that no longer matches at the check, the receiver leaves the destination alone for the rest of the run |
| `Commit.StoppedRunTouchesNothing` | src/remote_ssh_mcp/_write_receiver.py:219-257 | when the receiver has stopped without publishing, no step it took in the whole run touched a name or a file that was not its own |
| `Commit.UnchangedIsSound` | src/remote_ssh_mcp/_write_receiver.py:273-279 | `unchanged` is reported only if no link or replace has taken effect and none ever will; for a destination that was missing it is reported in exactly those cases |
| `Commit.PublishedOnce` | src/remote_ssh_mcp/_write_receiver.py:244-252 | a published payload was complete at the destination, with its mode, at the moment it appeared |
| `Commit.DoneMeansHeld` | src/remote_ssh_mcp/_write_receiver.py:251-257 | a commit that succeeded held the complete payload at the resolved destination at some moment |
| `Commit.NoTemporaryRemains` | src/remote_ssh_mcp/_write_receiver.py:256-257 | however the commit ends the temporary name is gone, and unless it published nothing leads to its file |
| `Commit.TemporaryReleased` | src/remote_ssh_mcp/_write_receiver.py:245-251 | the step after which the temporary name is no longer private is the one that removes it |
| `Commit.SettledForGood` | src/remote_ssh_mcp/_write_receiver.py:259-287 | once the commit has given up or finished, nothing more takes effect |
| `Commit.PrivateUntilSealed` | src/remote_ssh_mcp/_write_receiver.py:229-239 | until the temporary file is complete it leads nowhere but from its own name, holds the beginning of the payload and has the mode 600 |
| `Comparison.PublishesOverTheSnapshot` | src/remote_ssh_mcp/_write_receiver.py:178-217 | with others acting in between: when the receiver goes on to the link or replace, the path led at the check to the inode it led to at the snapshot, or to nothing at both; and if that is a link, its text and what it resolves to were those of the snapshot |
| `Comparison.SucceedsOverTheSnapshot` | src/remote_ssh_mcp/_write_receiver.py:253-254 | after replacing what a link leads to it reports success only if the same has been found again |
| `Comparison.EntryDifferenceGivesUp` | src/remote_ssh_mcp/_write_receiver.py:201-214 | a check, before or after, that finds another entry than the snapshot ends in giving up; one that finds the same goes on unless a call fails |
| `Comparison.TextDifferenceGivesUp` | src/remote_ssh_mcp/_write_receiver.py:214-215 | the same for the text of a link |
| `Comparison.DestinationDifferenceGivesUp` | src/remote_ssh_mcp/_write_receiver.py:216-217 | the same for what it resolves to |
| `Comparison.UntriedSaysUnchanged` | src/remote_ssh_mcp/_write_receiver.py:273-279 | a commit that never gets to the link or replace reports `unchanged` |
| `Comparison.TriedSaysUnknown` | src/remote_ssh_mcp/_write_receiver.py:273-279 | once the rename over what was there has been called the commit reports `unknown`, whether the call failed or not |
| `QuietCommit.QuietCommitFrame` | src/remote_ssh_mcp/_write_receiver.py:219-257 | without interference a commit that ends has succeeded: the resolved destination is the payload, with the old mode `& 0o7777` or the mode of a new file, in a directory that is there; every other name leads to the same inode with the same contents; nothing is new but directories above it |
| `QuietCommit.QuietCommitKeepsLinks` | src/remote_ssh_mcp/_write_receiver.py:187-194 | without interference every symbolic link on the path keeps its identity and its text, and the path still resolves to the file |
| `QuietCommit.QuietCommitNeedsAPlace` | src/remote_ssh_mcp/_write_receiver.py:178-227 | a commit without interference ends only where a file can be put: no regular file on the way to the path or to what it resolves to, and neither a directory nor a loop of links there |
| `QuietCommit.CommitsIff` | src/remote_ssh_mcp/_write_receiver.py:219-257 | there is a run without interference and failing calls to success if and only if a file can be put at the destination |
| `QuietCommit.LoopsFailStat` | src/remote_ssh_mcp/_write_receiver.py:224-227 | a path that runs into a loop of links never gets past the `stat` |
| `WriteReceiver.Receiver.constructor` | src/remote_ssh_mcp/_write_receiver.py:26-46 | a receiver as it is created: nothing received, nothing made, nothing committed |
| `WriteReceiver.Receiver.ReceivePayload` | src/remote_ssh_mcp/_write_receiver.py:80-138 | the file written is what the specification of the stream accepts; READY is printed once, after echo is off; the terminal is restored on every path |
| `WriteReceiver.Receiver.ReadUntilDelimiter` | src/remote_ssh_mcp/_write_receiver.py:97-119 | the reading loop refines the one-shot verdict on the whole stream |
| `WriteReceiver.Receiver.DecodeFile` | src/remote_ssh_mcp/_write_receiver.py:146-163 | the decoding loop with its carry gives what the specification makes of the blocks of the file, and refuses when that does |
| `WriteReceiver.Receiver.VerifyPayload` | src/remote_ssh_mcp/_write_receiver.py:140-176 | the payload has the announced length and digest, or the reason is an exact one of those that can fail |
| `WriteReceiver.Receiver.DestinationSnapshot` | src/remote_ssh_mcp/_write_receiver.py:178-199 | the snapshot is what the transition system sees, or the call failed |
| `WriteReceiver.Receiver.DestinationMatches` | src/remote_ssh_mcp/_write_receiver.py:201-217 | the comparison with the snapshot moves the commit to the publication, or makes it give up, as the transition system does |
| `WriteReceiver.Receiver.MakeTemp` | src/remote_ssh_mcp/_write_receiver.py:229-231 | the temporary file is new and beside the destination |
| `WriteReceiver.Receiver.FillTemp` | src/remote_ssh_mcp/_write_receiver.py:233-239 | the private file holds exactly the payload and has its final mode before it is checked |
| `WriteReceiver.Receiver.LinkTemp` | src/remote_ssh_mcp/_write_receiver.py:244-247 | a missing destination is published by a link |
| `WriteReceiver.Receiver.ReplaceTemp` | src/remote_ssh_mcp/_write_receiver.py:248-250 | an existing one is published by a rename |
| `WriteReceiver.Receiver.PlaceVerified` | src/remote_ssh_mcp/_write_receiver.py:273-287 | from a verified payload on: DONE was printed and that payload held at the destination, or an ERROR of the commit that says `unchanged` only if nothing was published, and does so if nothing was tried |
| `WriteReceiver.Receiver.CleanUp` | src/remote_ssh_mcp/_write_receiver.py:256-257 | the last step of every commit drops the temporary name |
| `WriteReceiver.Receiver.CommitPayload` | src/remote_ssh_mcp/_write_receiver.py:219-257 | the fields and the file system after the commit are those of the last state of a run of the transition system; undisturbed it succeeds if and only if a file can be put at the destination |
| `WriteReceiver.Receiver.HonestStreamIsDeliverable` | src/remote_ssh_mcp/files.py:383-386 | a stream that the client sends for some content is one that an undisturbed receiver delivers if and only if a file can be put at the destination |
| `WriteReceiver.Receiver.Execute` | src/remote_ssh_mcp/_write_receiver.py:259-287 | exit code 0: READY, unechoed, and DONE were printed and a payload of that length and digest was held at the destination; exit code 1: an ERROR whose stage says how far it came, which says `unchanged` only if nothing was published, and does so if nothing was tried; scratch files and the temporary name are gone either way; undisturbed, it exits with 0 if and only if the stream, the digest and the destination allow it |
| `WriteReceiver.Receiver.Deliver` | src/remote_ssh_mcp/_write_receiver.py:266-287 | from a received payload on: DONE and a payload held at the destination, or an ERROR with its stage and with a truthful state of the destination; undisturbed, exactly according to the payload and the destination |
| `WriteProtocol.RunInv` | src/remote_ssh_mcp/files.py:336-459 | the invariant of client, terminal, receiver and commit in every state of every run |
| `WriteGuarantees.UnchangedIsSound` | src/remote_ssh_mcp/files.py:435-459 | when the client has failed with `unchanged`, or the receiver has reported it, no link or replace has taken effect, and none does in any continuation |
| `WriteGuarantees.ReturnedMeansHeld` | src/remote_ssh_mcp/files.py:388-446 | `write_remote_file` returns normally only if at some moment of the run the destination held exactly the content, on the DONE and EXIT 0 path and on the probe path |
| `WriteGuarantees.NeverPartial` | src/remote_ssh_mcp/files.py:336-459 | over the whole protocol, every name that leads to the receiver's file leads to all of the content, unless someone else has rewritten the file |
| `WriteGuarantees.PublishedWasHeld` | src/remote_ssh_mcp/files.py:336-459 | once the commit has published, there was a moment at which the destination held the content |
| `WriteGuarantees.HandlerReports` | src/remote_ssh_mcp/files.py:447-459 | a write that fails in the exception handler reports `unchanged` if the handler was entered before READY had been read, and `unknown` otherwise |
| `WriteGuarantees.MarkerIsReported` | src/remote_ssh_mcp/files.py:394-409 | one that fails over an ERROR marker reports the state that a marker on the screen says |
| `WriteGuarantees.ReceiverSaysTheTruth` | src/remote_ssh_mcp/_write_receiver.py:259-287 | in every run: an ERROR of the commit says `unknown` exactly if a link or replace had been begun, one of an earlier stage says `unchanged` and nothing is ever committed; the exit code is 0 exactly after DONE |
| `WriteSuccess.DoneIsTrue` | src/remote_ssh_mcp/_write_receiver.py:281-287 | in every run, a DONE on the screen gives the length and the digest of the content |
| `WriteSuccess.DoneIsBelieved` | src/remote_ssh_mcp/files.py:414-429 | so a client that reads a DONE goes on to wait for the exit, and one that then reads EXIT 0 returns |
| `WriteSuccess.MarkersAreBelieved` | src/remote_ssh_mcp/files.py:364-429 | what every other marker makes of a client that waits for it |
| `WriteSuccess.ProbeCanReturn` | src/remote_ssh_mcp/files.py:437-446 | a failed write whose probe finds the content can still return |
| `WriteSuccess.NeverGivesUpWithoutACause` | src/remote_ssh_mcp/files.py:336-429 | in every run in which no call fails and nobody interferes the client is still trying or has returned, no ERROR comes up, and no exit but 0 |
| `WriteSuccess.GoodWriteReturns` | src/remote_ssh_mcp/files.py:336-429 | for every write, to every place where a file can be put, there is such a run in which the client returns through DONE and EXIT 0 |
| `CleanTerminal.CleanVerdict` | src/remote_ssh_mcp/_write_receiver.py:97-119 | on a lossless terminal the verdict after each read is to go on until everything has arrived, and then to accept |
| `CleanTerminal.NoPayloadReachesTheShell` | src/remote_ssh_mcp/files.py:358-386 | over a lossless terminal without interrupts, in every interleaving, the shell has read no payload, and all of it has been consumed by the receiver before it restores the terminal |
| `CleanTerminal.PastedUnechoed` | src/remote_ssh_mcp/files.py:383-386 | every piece of the payload is pasted while echo is off |
| `CleanTerminal.InterruptedReceiverLeaksPayload` | src/remote_ssh_mcp/_write_receiver.py:120-128 | for every write: a run, clean until the receiver raises, that hands payload to the shell |
| `CleanTerminal.KilledReceiverLeaksPayload` | src/remote_ssh_mcp/_write_receiver.py:94-128 | the same for a receiver that is killed: nothing restores the terminal, and the shell reads what the client goes on to paste |
| `CleanTerminal.NoiseLeaksPayload` | src/remote_ssh_mcp/_write_receiver.py:97-119 | the same for stray keys: read after read of at most 65,536 characters they overflow the announced length, the receiver gives up, and the shell reads the payload |
| `SessionGuarantees.RunInv` | src/remote_ssh_mcp/session.py:388-514 | the lifecycle invariant in every state of every run of any number of tasks |
| `SessionGuarantees.BusyHasOneOwner` | src/remote_ssh_mcp/session.py:397-433 | busy means that exactly one task is inside an operation, it holds the lock, and `current_operation` is its name |
| `SessionGuarantees.InsideHoldsTheLock` | src/remote_ssh_mcp/session.py:397-433 | a task inside its body holds the lock and the connection publishes what it does |
| `SessionGuarantees.OthersLeaveItAlone` | src/remote_ssh_mcp/session.py:397-433 | while one task holds the lock nothing another does changes the connection or its pane |
| `SessionGuarantees.UnresponsiveForGood` | src/remote_ssh_mcp/session.py:477-490 | an unresponsive connection is never ready or busy again |
| `SessionGuarantees.NoBodyAfterDisconnect` | src/remote_ssh_mcp/session.py:492-514 | once a disconnect has begun no operation is inside its body, neither one that was queued on the lock nor a later one |
| `SessionGuarantees.ReadyMeansUsableIff` | src/remote_ssh_mcp/session.py:388-433 | over whole runs: with the lock free and the state ready, the pane is busy if and only if nobody has had the lock since a connect that timed out on its last command, since a write whose probe hung after a recovery that worked, or since an operation that left with an error, or a cancellation during a recovery, that nobody recovers from, over something unfinished |
| `SessionGuarantees.ReleasedReadyButBusyIff` | src/remote_ssh_mcp/session.py:413-433 | the step that gives the lock back with the state ready leaves the pane busy if and only if the task that takes it is about to leave in one of the last two ways |
| `SessionGuarantees.ReadyMeansUsableWithoutWrites` | src/remote_ssh_mcp/session.py:160-184 | if the last command of the connect completed, nothing is ever written and no operation leaves something unfinished behind with what nobody recovers from, ready always means an idle pane |
| `SessionGuarantees.ReadyButBusy` | src/remote_ssh_mcp/files.py:435-459 | a run from an idle pane, through a write whose probe hangs, to ready with the lock free and the pane busy |
| `SessionGuarantees.ReadyButBusyFromTheStart` | src/remote_ssh_mcp/session.py:160-184 | the same without any operation, when the last command of the connect has timed out |
| `SessionGuarantees.ReadyButBusyAfterAnEscape` | src/remote_ssh_mcp/session.py:441-455 | the same after a run that leaves with an error or a cancellation that nobody recovers from |
| `SessionGuarantees.OperationsCanSucceed` | src/remote_ssh_mcp/session.py:388-433 | from every connection that is ready and at rest, each kind of operation has a run to success, after which it is ready and its pane idle |
| `SessionGuarantees.ClosingAtRestIff` | src/remote_ssh_mcp/session.py:497-513 | over whole runs: a registered connection with a free lock says closing if and only if the last task that had the lock was a disconnect whose kill failed after it had been cancelled, or with an error it does not catch |
| `SessionGuarantees.ClosingUntilDisconnected` | src/remote_ssh_mcp/session.py:482-514 | in every continuation such a connection stays exactly as it is until somebody takes the lock, and that can only be a disconnect |
| `SessionGuarantees.ClosingForever` | src/remote_ssh_mcp/session.py:503-506 | a run after which a registered connection with a free lock says closing |
| `Connection.Connection.constructor` | src/remote_ssh_mcp/session.py:133-184 | a connection is registered as ready whatever times out; its pane is idle if and only if the last command of the connect completed; the directory is the one that command shows, or `?` |
| `Connection.Connection.Enter` | src/remote_ssh_mcp/session.py:397-402 | the entry of an operation publishes busy and its name and clears the last error, or refuses, exactly when the connection is unresponsive or closing, and changes nothing |
| `Connection.Connection.Leave` | src/remote_ssh_mcp/session.py:403-433 | the exit publishes ready or unresponsive, exactly according to the recovery that was tried last, and the message that goes with it; after a recovery that itself breaks off, ready |
| `Connection.Connection.RunCommand` | src/remote_ssh_mcp/session.py:435-472 | after a run that ends with neither an unexpected error nor a recovery cut short, the connection is ready if and only if the pane is idle, that is, the command completed or the recovery worked; after the others it is ready, and the pane busy if something was left unfinished; the directory changes only on completion; the reply and the recorded error say which |
| `Connection.Connection.Disconnect` | src/remote_ssh_mcp/session.py:492-514 | a disconnect unregisters the connection if the window is gone afterwards, makes it unresponsive if the kill failed, and leaves it registered and closing if that happened after a cancellation or with an error it does not catch |
| `Connection.Connection.RecordRecovery` | src/remote_ssh_mcp/session.py:477-480 | a failed recovery makes the connection unresponsive |
| `Windows.RunInv` | src/remote_ssh_mcp/session.py:74-188 | every window that is alive has exactly one owner, in every state of every run of connects and disconnects |
| `Windows.Conservation` | src/remote_ssh_mcp/session.py:114-188 | live windows are those of registered connections and of connects in progress, and leaked ones; owned windows are alive unless they died by themselves or a disconnect killed them; no two owners share one |
| `Windows.QuietConservation` | src/remote_ssh_mcp/session.py:253-286 | with no connect or disconnect under way, the live windows are exactly those of the registered connections, less the ones a disconnect killed, and the leaked ones, less the ones that died by themselves |
| `Windows.RegisteredOverKilledIff` | src/remote_ssh_mcp/session.py:499-514 | with nothing under way, a connection is registered over a window that the manager killed if and only if one of its disconnects ended without unregistering it and yet killed the window |
| `Windows.WithoutHalves` | src/remote_ssh_mcp/session.py:492-514 | in a run without such a step the live windows are exactly those that are registered or leaked and have not died |
| `Windows.SecondCancellationLeavesItRegistered` | src/remote_ssh_mcp/session.py:503-507 | a run in which a disconnect is cancelled twice and leaves its connection registered over the window it has killed |
| `Windows.LeaksExactlyWhen` | src/remote_ssh_mcp/session.py:208-212 | a step leaks a window if and only if tmux makes one whose name is never heard, the cleanup of a live window fails, or a second cancellation or an unexpected error stops the undoing of a new session whose windows are alive |
| `Windows.CarefulRunLeaksNothing` | src/remote_ssh_mcp/session.py:253-286 | a run without such a step leaks nothing |
| `Windows.SecondCancellationLeaksTheBootstrap` | src/remote_ssh_mcp/session.py:281-286 | a run in which no kill fails, no window is made unheard and everything ends, with the bootstrap window alive and nobody knowing it |
| `SessionManager.SessionManager.constructor` | src/remote_ssh_mcp/session.py:70-72 | a manager begins with no connections |
| `SessionManager.SessionManager.CleanUp` | src/remote_ssh_mcp/session.py:208-212 | a shielded cleanup kills the window or loses it, goes on without its cancelled caller, or breaks off; when nothing goes wrong the window is gone |
| `SessionManager.SessionManager.NewSession` | src/remote_ssh_mcp/session.py:253-286 | a new session ends with its window ready to be prepared, or with nothing left to undo; the first when nothing goes wrong |
| `SessionManager.SessionManager.Connect` | src/remote_ssh_mcp/session.py:114-188 | a connect ends with a registered connection whose window is there, or with nothing left to undo; the first when nothing goes wrong |
| `SessionManager.SessionManager.Disconnect` | src/remote_ssh_mcp/session.py:492-514 | an unknown connection is reported exactly when it is not registered, without any effect; success means off the register and its window gone, also if it was gone before; when nothing goes wrong every registered connection is closed |
| `Shell.QuoteRoundTrip` | src/remote_ssh_mcp/runner.py:132-141 | a shell reads a quoted text as one word whose value is the text, whatever is in it |
| `Text.ReplaceIsJoinOfSplit` | src/remote_ssh_mcp/files.py:503-508 | replacing is splitting and joining, and the count is the number of gaps |
| `Text.JoinOfSplit` | src/remote_ssh_mcp/files.py:503-508 | joining the pieces with what they were split at gives back the text |
| `Text.LinesStep` | src/remote_ssh_mcp/server.py:435 | where `splitlines` ends a line, and what is left over after the last line end |
| `Text.StripIs` | src/remote_ssh_mcp/runner.py:130 | stripping takes the white space from both ends of a text, and nothing else |
| `Framing.NormaliseIs` | src/remote_ssh_mcp/runner.py:126-129 | line ends written in any of the three ways become line feeds, and nothing else changes |
| `Framing.WrapIs` | src/remote_ssh_mcp/runner.py:129-141 | the wrapper, written out; its second command is, as a shell reads it, `eval` with one word, whose value is the command with its line ends normalised |
| `Framing.WrapRefuses` | src/remote_ssh_mcp/runner.py:123-131 | a command with a NUL, and one of nothing but white space, are refused, in this order, and no others |
| `Framing.PrintedIsFrame` | src/remote_ssh_mcp/runner.py:132-141 | what the `printf` calls of the wrapper print is the frame with the two halves of the marker joined |
| `Framing.EchoHasNoBegin` | src/remote_ssh_mcp/runner.py:116-141 | the typed wrapper never contains the marker nor the BEGIN literal when the command does not, after quoting and normalising line ends |
| `FramingGuarantees.MarkerOnlyThere` | src/remote_ssh_mcp/runner.py:48-57 | up to the END line the marker occurs in the BEGIN line and nowhere else |
| `FramingGuarantees.FramingRoundTrip` | src/remote_ssh_mcp/runner.py:89-111 | for any history and output free of the marker, any text after the frame, any exit code and any one-line directory: parsing the screen returns the output without final line ends, that exit code and that directory |
| `FramingGuarantees.PartialIsAttributable` | src/remote_ssh_mcp/runner.py:184-201 | partial output exists exactly when BEGIN is on the screen, and then it is what lies after the last one and before the first END line after it |
| `FramingGuarantees.ParsedIsAttributable` | src/remote_ssh_mcp/runner.py:166-181 | the output of a finished command is what lies between the last BEGIN before the first END line and that END line |
| `FramingGuarantees.PartialOfCut` | src/remote_ssh_mcp/runner.py:184-201 | a screen cut inside the output gives that part of the output, without final line ends |
| `FramingGuarantees.EndAtIff` | src/remote_ssh_mcp/runner.py:89-104 | the END pattern matches exactly a line of the END literal, digits and two underscores, and the exit code is their number |
| `FramingGuarantees.CwdAtIff` | src/remote_ssh_mcp/runner.py:96-107 | the CWD pattern matches exactly a line that begins with the CWD literal, and the directory is the rest of the line |
| `FramingGuarantees.ParseIff` | src/remote_ssh_mcp/runner.py:89-111 | of any capture: it is complete if and only if there is an END line and a CWD line after the first of them; the code and the directory are those of the first END line and the first CWD line after it; it is refused if no BEGIN comes before |
| `Runner.RunInPane` | src/remote_ssh_mcp/runner.py:48-113 | the polling loop: invalid commands are refused; the first poll that shows a finished command, or fails, decides; completed means that the exit code is the number in the first END line of the full capture and the directory the rest of the first CWD line after it, and if the capture shows what the wrapper printed, the output, code and directory are those of the command; lost markers, a lost BEGIN and a failed capture are told apart exactly; when time is over the output is that of the late capture if BEGIN is on it, else that of the last poll if BEGIN is on that, else nothing |
| `Runner.AtDeadline` | src/remote_ssh_mcp/runner.py:68-87 | at the deadline the late capture is used if it shows BEGIN, the last poll otherwise, and nothing if neither does |
| `Utf8.StrictIff` | src/remote_ssh_mcp/files.py:484-490 | the strict decoder accepts exactly the encodings |
| `Utf8.EncodeCharIs` | src/remote_ssh_mcp/files.py:484-490 | which bytes a character becomes: their number by its code point, and the bits of the code point in them |
| `Utf8.FirstIsChar` | src/remote_ssh_mcp/server.py:80-81 | what is decoded is what encodes to those bytes, so no other form of a character passes |
| `Utf8.PrefixDecodes` | src/remote_ssh_mcp/server.py:80 | a slice from the front decodes to the longest whole prefix inside it |
| `Utf8.SuffixDecodes` | src/remote_ssh_mcp/server.py:81 | a slice from the back decodes to the longest whole suffix inside it |
| `Truncate.TruncatedForm` | src/remote_ssh_mcp/server.py:71-82 | a text over the limit becomes the longest whole-character prefix with room, the marker and the longest such suffix; they do not overlap; with room for the marker the result is within six bytes of the limit and never over it |
| `Truncate.RespectsTheLimitIff` | src/remote_ssh_mcp/server.py:71-82 | the result respects the limit if and only if the text did or the marker does; the flag says exactly whether the text was over it |
| `Truncate.RoomIsShared` | src/remote_ssh_mcp/server.py:76-79 | prefix and suffix share what the marker leaves of the limit; the suffix gets the odd byte |
| `ReadFile.ParseUndoesPrint` | src/remote_ssh_mcp/files.py:74-116 | parsing a printed piece gives back data and size, whatever white space is in the body |
| `ReadFile.ParseWithoutSize` | src/remote_ssh_mcp/files.py:106-114 | without its size line a piece still gives its data |
| `ReadFile.ParseIff` | src/remote_ssh_mcp/files.py:93-105 | of any output: no data if a sentinel is missing or the first END comes before the first BEGIN; otherwise what is between them, without white space, decides |
| `ReadFile.SizeIff` | src/remote_ssh_mcp/files.py:106-114 | the size is the number on the rest of the line after the first size marker, and -1 if there is none |
| `ReadFile.SqueezeParts` | src/remote_ssh_mcp/files.py:98-100 | white space is taken out of every part of the body |
| `ReadFile.PieceIs` | src/remote_ssh_mcp/files.py:78 | a piece is as many bytes as are asked for and are there, from the offset on |
| `ReadFile.ReadPiece` | src/remote_ssh_mcp/files.py:57-116 | bad offsets and limits are refused in this order; otherwise the piece of the file, with the size known or not; only a command that fails can prevent it |
| `ReadFile.ReadEntire` | src/remote_ssh_mcp/files.py:119-145 | reading a file that does not change ends, and gives the file, whatever each piece says about the size, unless a command fails |
| `Edit.EditsOne` | src/remote_ssh_mcp/files.py:492-510 | a single edit is accepted exactly when no second occurrence fits beside the first, and then changes it and no other byte; the errors are exact |
| `Edit.RefusedAtOnce` | src/remote_ssh_mcp/files.py:478-481 | an empty `old`, and one equal to the new text, are refused in this order, whatever the file, and no others are |
| `Edit.NotFoundIff` | src/remote_ssh_mcp/files.py:492-496 | a text in which `old` does not occur is refused as such, for one replacement and for all, and no other is |
| `Edit.NotUniqueCounts` | src/remote_ssh_mcp/files.py:492-501 | the number in a refusal as not unique is that of the gaps between the pieces |
| `Edit.EditsAll` | src/remote_ssh_mcp/files.py:492-510 | editing all occurrences joins the pieces between them with the new text and reports their number |
| `Edit.NotUtf8Iff` | src/remote_ssh_mcp/files.py:484-490 | content is refused as not being text if and only if no text has these bytes |
| `Edit.UniquenessMeansOnceIff` | src/remote_ssh_mcp/files.py:492-501 | that the check for uniqueness passes means a single occurrence, for every file, if and only if the text cannot overlap itself |
| `Edit.OverlapIsAccepted` | src/remote_ssh_mcp/files.py:492-510 | for a text that can overlap itself, a file in which it occurs twice, and the edit that is made of it |
| `Walk.SortOrders` | src/remote_ssh_mcp/_search_runner.py:97-98 | names are visited in order, whatever order a directory is read in |
| `Walk.CompleteIsAll` | src/remote_ssh_mcp/_search_runner.py:96-109 | the complete walk reports exactly the matching regular files below the root, at any depth |
| `Walk.ScanNames` | src/remote_ssh_mcp/_search_runner.py:99-107 | the names of one directory: the matches so far and those here, up to the limit |
| `Walk.Glob` | src/remote_ssh_mcp/_search_runner.py:81-112 | the walk that stops early gives the beginning of the complete walk, as long as the limit allows; a missing root is an error |
| `Walk.WalkFrom` | src/remote_ssh_mcp/_search_runner.py:96-109 | the walk of a directory with its worklist of places gives the beginning of the complete walk |
| `WalkPaths.FoundIff` | src/remote_ssh_mcp/_search_runner.py:96-109 | without the walk's own helpers: a path is found below a directory if and only if entries lead down, each in the one before, to a regular file whose name is accepted, and the path is the root and their names joined with slashes |
| `WalkPaths.AllIff` | src/remote_ssh_mcp/_search_runner.py:81-109 | the same for every kind of root: a regular file reports itself if its base name is accepted |
| `WalkPaths.BaseNameIs` | src/remote_ssh_mcp/_search_runner.py:89 | the base name is what follows the last slash |
| `WalkPaths.BelowIff` | src/remote_ssh_mcp/_search_runner.py:97-98 | names are compared as Python compares strings: at the first difference |
| `WalkPaths.FilesComeInOrder` | src/remote_ssh_mcp/_search_runner.py:98-104 | the matches of a directory are reported in the order of their names, ... |
| `WalkPaths.DirectoriesComeInOrder` | src/remote_ssh_mcp/_search_runner.py:96-97 | ... what is below one directory before what is below the next, ... |
| `WalkPaths.FilesComeFirst` | src/remote_ssh_mcp/_search_runner.py:96-109 | ... and after the matches of the directory itself |
| `GlobTool.GlobAnswers` | src/remote_ssh_mcp/server.py:435-440 | the tool answers with the first matches of the complete walk, and says truncated exactly when there are more, but for a root that is a regular file with a blank name |
| `GlobTool.ReadBack` | src/remote_ssh_mcp/server.py:435 | printed matches are read back line by line |

## Left out

- tmux and ssh as subprocesses, `tmux.py` and `preflight.py`: paste, capture, kill and recovery are single steps. A kill or a creation that fails may have had its effect or not; its effect belongs to the step in which the task hears of it or gives up waiting. An error that is neither a `TmuxError` nor a `ValueError` comes before tmux is reached.
- Commands in a pane that finish by themselves after they have timed out, a shielded recovery that goes on after a second cancellation, and people who type into the pane: a pane that is busy stays so until an operation uses or recovers it.
- SHA-256 itself, zlib, JSON and the packing of receiver events: an event is a value, and a screen a set of those seen.
- A marker that has scrolled out of a capture: `WriteSuccess` takes each capture to show what has been printed so far; every other theorem lets the client see any marker, or none.
- Wall-clock time: a deadline is a nondeterministic outcome, in `Runner` the number of polls there was time for. The checks that timeouts are positive are left out with it.
- An interrupt between the link and the flag that remembers it (`_write_receiver.py` lines 245-246), and a failing `close` in line 123 or `tcsetattr` in line 128, after which the terminal would not be restored.
- That the receiver of `WriteProtocol` takes the steps of `WriteReceiver.Receiver.Execute`: both follow the same source, and share `Transfer` and `Commit`, but no lemma connects them.
- Symbolic links among the directories of a path, directories that others remove or replace during a commit, and the mode of those that `makedirs` creates: the model resolves links of the last component, through chains and loops, and looks for regular files in the way at the snapshot and at `makedirs`.
- `realpath`, `lstat` and the probe's read of the destination are single steps.
- The `unlink` in `remove` (`_write_receiver.py` lines 56-62) always works, and a call of the commit that raises has had no effect, but for the directories of `makedirs`.
- Scratch files of the receiver are out of the others' reach, as their names are random.
- The message, length and digest fields of an ERROR event, beyond its stage and destination state.
- A delimiter of more than 65,537 characters, which the overflow check of the receiver could refuse; the client's has 60.
- Unicode digits, which Python's `\d` and `int` also take: digits are `0` to `9`. Signs and underscores in the size line of a read are taken as no size.
- ANSI sequences, terminal wrapping, and what a shell does with the user's command, beyond the text that is typed and printed.
- Reading a file that changes between its pieces.
- grep and ripgrep, response dictionaries, validators, MCP registration, packaging, plugins, skills and scripts.
- Connection.Connection.Leave: what a file operation did to the pane before it is given by the steps of `Session.FileMove`; the methods of the file tools themselves are in `ReadFile`, `Edit` and `WriteProtocol`.
- SessionManager.SessionManager.OthersAct: its body does nothing; its contract lets other tasks do anything, and only the contract is used.
- WalkPaths.FoundIff: names of entries are not empty and have no slash in them.
- GlobTool.GlobAnswers: paths with a line break in them, which the tool would read back as several.
- Walk.Glob: the pattern is an arbitrary predicate on names, and calls that fail in the middle of a walk are left out.
- Truncate.TruncatedForm: limits are natural numbers; no caller passes a negative one.
