# SliceHub dispute client — a Dafny model

SliceHub is a decentralised dispute-resolution service. Jurors stake a
token and join a dispute. They commit to a vote as `keccak256(vote ‖ salt)`,
reveal the `(vote, salt)` pair later, and the registry then executes the
ruling. This project models the client side of that protocol: the hooks and
helpers of the web client that build commitments, drive the transactions,
choose which records to read and shape what the pages display.

Every remote party is an input, never a call:
- the dispute registry, the stake token, the wallet, the metadata store and
  the browser's secret store;
- each remote answer is an `Outcome` (a value, or the error object that was
  thrown);
- each transaction is a `Tx` (what the send did, what the receipt wait did).

Each flow returns the `Call`s it issued, in order, so its contract can say
what was read or sent, in what order, with which arguments, and what was
never sent.

Modules, one per source file, plus two shared ones:

| module | models |
|---|---|
| `Js` | the JavaScript built-ins the client relies on: truthiness, `startsWith`/`endsWith`/`includes`/`substring`/`padStart`, integer `toString`, `filter` |
| `Remote` | errors, outcomes, transactions, the call trace, `reason \|\| message \|\| "Unknown error"` |
| `VotingUtils` | `generateSalt`, `generateIdentitySecret`, `calculateCommitment`, `calculateNullifier` over an abstract Keccak-256 |
| `VotingStorage` | the `(contract, disputeId, voter) → {vote, salt}` secret store, as a map |
| `SliceVoting` | `useSliceVoting`: `commitVote`, `revealVote` |
| `Reveal` | `useReveal`: phase flags, local secret lookup, bound `revealVote` |
| `AssignDispute` | `useAssignDispute`: `processInBatches`, the matchmaker scan, `joinDispute` |
| `DisputeList` | `useDisputeList`: the `calls` memo and the result processing |
| `ExecuteRuling` | `useExecuteRuling`: guard, receipt rule, error classification |
| `PayDispute` | `usePayDispute`: allowance check, bounded polling, payment |
| `GetDispute` | `useGetDispute`: `fetchDispute` and the record mapping |
| `Evidence` | `useEvidence`: party info, image/video split and numbering |
| `Wallet` | `shortenAddress` |
| `TimerCard` | `formatTime` |
| `SwipeGesture` | `useSwipeGesture`: start/end handlers, swipe rule, reset |
| `SliderDrag` | `useSliderDrag`: `calculateProgress`, `startDrag`, `handleMove`, `handleEnd` |
| `Config` | environment selection and the two chain records |

React state and refs that the hooks update become fields of a class per hook:
- `isProcessing`, `isFinding`, `isJoining`, `isPaying`, `isExecuting`, `isLoading`;
- `dispute`, `disputes`, `localVote`, `hasLocalData`;
- the swipe refs and the slider's `progress`/`isDragging`.

Callbacks such as `onSwipeLeft` and `onComplete` are modelled by what the
handler returns.

Three behaviours of the code are kept as written:
- `commitVote` is not gated on the dispute's phase.
- The registry's status numbers are the ones the code compares with: 1 is
  open for jurors (commit phase) and 2 is the reveal phase.
- viem's `waitForTransactionReceipt` returns for a reverted receipt, and
  the voting hook does not look at the receipt status. So a commit whose
  receipt reverted still saves the secret (`SliceVoting.Confirmed`).

## Model

| member | source | states |
|---|---|---|
| `VotingUtils.FoldRandomBytes` | src/util/votingUtils.ts:23-27 | the fold equals the big-endian value of the first 31 random bytes (the 32nd is never read) and lies below 256^31 |
| `VotingUtils.GenerateSalt` | src/util/votingUtils.ts:20-28 | the salt is the big-endian value of bytes 0..30 and is below 256^31, hence below 2^256 |
| `VotingUtils.GenerateIdentitySecret` | src/util/votingUtils.ts:6-15 | the identity secret is built exactly as the salt: same value, same bound |
| `VotingUtils.BigEndianBound` | src/util/votingUtils.ts:24-26 | an n-byte big-endian value is below 256^n |
| `VotingUtils.BigEndianOfToBigEndian` | src/util/votingUtils.ts:24-26 | decoding the n-byte encoding of x < 256^n gives x back |
| `VotingUtils.ToBigEndianOfBigEndian` | src/util/votingUtils.ts:24-26 | encoding a decoded byte string gives the bytes back, so the fold is a bijection on n-byte strings |
| `VotingUtils.SaltDeterminesBytes` | src/util/votingUtils.ts:20-28 | two random buffers give the same salt if and only if they agree on their first 31 bytes |
| `VotingUtils.EncodeUint` | src/util/votingUtils.ts:37-40 | a `uintN` argument is accepted exactly when it is in [0, 256^size); then it is `size` bytes whose big-endian value is the argument |
| `VotingUtils.CommitmentPreimage` | src/util/votingUtils.ts:36-40 | the preimage exists exactly for a vote and salt below 2^256; it is 64 bytes, the first 32 decoding to the vote and the last 32 to the salt |
| `VotingUtils.CommitmentPreimageLayout` | src/util/votingUtils.ts:36-40 | the preimage is exactly the 32-byte big-endian vote followed by the 32-byte big-endian salt |
| `VotingUtils.CommitmentPreimageInjective` | src/util/votingUtils.ts:34-42 | distinct in-range (vote, salt) pairs have distinct preimages |
| `VotingUtils.CalculateCommitment` | src/util/votingUtils.ts:34-42 | defined exactly for in-range vote and salt, and then it is the hash of the packed preimage |
| `VotingUtils.NullifierPreimage` | src/util/votingUtils.ts:55-60 | defined exactly for secret and salt below 2^256 and proposal id below 2^64; it is 72 bytes split 32/32/8, each part decoding to its argument |
| `VotingUtils.NullifierPreimageInjective` | src/util/votingUtils.ts:55-60 | distinct in-range (secret, salt, proposal id) triples have distinct preimages |
| `VotingUtils.CalculateNullifier` | src/util/votingUtils.ts:49-64 | defined exactly for in-range arguments; then it is the 32 hash bytes of the 72-byte preimage |
| `VotingUtils.GeneratedSaltEncodes` | src/hooks/useSliceVoting.ts:27-28 | a salt from `generateSalt` is always accepted by `calculateCommitment`, for any vote below 2^256 |
| `VotingStorage.VoteStore.SaveVoteData` | src/hooks/useSliceVoting.ts:47 | saving overwrites the entry at (contract, disputeId, voter) and leaves every other entry unchanged |
| `Remote.TxCalls` | src/hooks/useExecuteRuling.ts:23-28 | a transaction issues its send first, and a second call exactly when the send returned; that second call is the receipt wait |
| `Remote.ReasonOrMessage` | src/hooks/useExecuteRuling.ts:43 | the error text is never empty: the reason if set, else the message if set, else "Unknown error" |
| `SliceVoting.CommitCalls` | src/hooks/useSliceVoting.ts:33-44 | the commit's calls start with the send of the commitment; a second call exists exactly when the send returned and a public client exists, and it is the receipt wait |
| `SliceVoting.Confirmed` | src/hooks/useSliceVoting.ts:33-44 | with a public client a transaction gets through exactly when it returned (send and wait); without one, exactly when the send returned; the receipt status is never consulted |
| `SliceVoting.SliceVotingHook.CommitVote` | src/hooks/useSliceVoting.ts:17-65 | without an address nothing is drawn, sent or saved; otherwise the commitment sent is computed from the very (vote, salt) that is saved, the secret is saved only when the send (and the wait, with a client) returned, success is exactly that, and `isProcessing` ends false |
| `SliceVoting.SliceVotingHook.RevealVote` | src/hooks/useSliceVoting.ts:68-119 | no stored secret means false with no transaction; otherwise exactly the stored vote and salt are revealed for that dispute; `isProcessing` ends false |
| `SliceVoting.CommitThenReveal` | src/hooks/useSliceVoting.ts:27-96 | after a commit that went through, the reveal submits the committed vote with a salt whose commitment is exactly the committed one |
| `Reveal.Flags` | src/hooks/useReveal.ts:19-23 | no dispute: too early only; with a dispute each flag holds exactly when the status is below, equal to or above 2 |
| `Reveal.ExactlyOneFlag` | src/hooks/useReveal.ts:19-23 | whatever is loaded, exactly one of the three flags holds |
| `Reveal.RevealHook.LoadLocalData` | src/hooks/useReveal.ts:25-35 | with an address, `hasLocalData` holds exactly when the store has the key, and then `localVote` is the stored vote; without an address nothing changes |
| `Reveal.RevealHook.RevealVote` | src/hooks/useReveal.ts:42 | every reveal sent is for this hook's dispute, and a success revealed the stored secret |
| `AssignDispute.ProcessInBatches` | src/hooks/useAssignDispute.ts:8-21 | one result per item in item order, each the processor's value on its item; the batches are consecutive slices that together are exactly the items, each non-empty and at most `batchSize` long, all but the last full |
| `AssignDispute.Candidate` | src/hooks/useAssignDispute.ts:61-75 | the processor yields the id exactly when its read succeeded with status 1, and null otherwise |
| `AssignDispute.Ids` | src/hooks/useAssignDispute.ts:59 | the scanned ids are exactly 0..count-1 |
| `AssignDispute.Candidates` | src/hooks/useAssignDispute.ts:59-77 | the candidates of a registry with `count` disputes number at most `count` (membership and order are stated by the next two rows) |
| `AssignDispute.CandidatesExactly` | src/hooks/useAssignDispute.ts:61-77 | an id is a candidate if and only if it is below the count and its read succeeded with status 1; a failed read only skips that id |
| `AssignDispute.CandidatesAscending` | src/hooks/useAssignDispute.ts:59-77 | the candidates are strictly ascending and below the count, so none appears twice |
| `AssignDispute.RandomIndexInRange` | src/hooks/useAssignDispute.ts:84 | `Math.floor(random * length)` is a valid index for `0 <= random < 1` |
| `AssignDispute.Pick` | src/hooks/useAssignDispute.ts:79-85 | null exactly when there is no candidate; otherwise a member of the candidate list |
| `AssignDispute.MatchIsOpen` | src/hooks/useAssignDispute.ts:39-92 | a match is a scanned id whose read succeeded with status 1, and the answer is null exactly when no scanned id is open |
| `AssignDispute.ScanForCandidates` | src/hooks/useAssignDispute.ts:57-77 | the batched scan, whose processor (`ScanStep`) issues the `disputes(id)` read of its own id, yields exactly the candidate list, and the reads it issued are every id 0..total-1 once, in ascending order |
| `AssignDispute.AssignDisputeHook.FindActiveDispute` | src/hooks/useAssignDispute.ts:39-92 | no client or registry: null and no read; a failed or zero count: null and no record read; otherwise the trace is the count read followed by the reads the batched scan issued, which are every id 0..count-1 once in order, and the answer is the random pick among the candidates; `isFinding` ends false |
| `AssignDispute.AssignDisputeHook.JoinDispute` | src/hooks/useAssignDispute.ts:95-157 | not connected: false, nothing read; otherwise stake read, allowance read, approval of exactly the stake only when the allowance is below it, and the join attempted after any approval that returned; success exactly when every awaited step returned |
| `DisputeList.NewestIds` | src/hooks/useDisputeList.ts:55-70 | the "all" window holds min(total, 20) ids, each within max(0, total-20) <= id < total |
| `DisputeList.NewestIdsWindow` | src/hooks/useDisputeList.ts:55-70 | the "all" window has min(total, 20) ids, starts at total-1, is strictly descending, and holds an id exactly when max(0, total-20) <= id < total |
| `DisputeList.BuildCalls` | src/hooks/useDisputeList.ts:41-73 | only the branch of the list type contributes; "juror" reads the juror's ids in order, "all" reads the newest window, and a missing list or a falsy count gives no calls |
| `DisputeList.Shown` | src/hooks/useDisputeList.ts:96-110 | the displayed list is the non-null entries of the mapped results (`Processed`), so it is never longer than the results; which records it holds and in what order is stated by the next two rows |
| `DisputeList.ShownKeepsOrder` | src/hooks/useDisputeList.ts:96-110 | each successful read is shown, right after the successful reads before it |
| `DisputeList.ShownExactly` | src/hooks/useDisputeList.ts:96-110 | a record is shown if and only if it is the transform of some successful read |
| `DisputeList.DisputeListHook.Process` | src/hooks/useDisputeList.ts:87-115 | no results: an empty list, not processing; otherwise the shown records and not processing, unless a transform threw, which leaves the list as it was and processing still true |
| `ExecuteRuling.PrefixedNoticeDiffers` | src/hooks/useExecuteRuling.ts:44-48 | an "Execution failed: ..." notice is never the not-in-Reveal notice |
| `ExecuteRuling.FailureNotice` | src/hooks/useExecuteRuling.ts:43-48 | every failure notice is either the not-in-Reveal notice or "Execution failed: " followed by a non-empty error text |
| `ExecuteRuling.FailureNoticeClassifies` | src/hooks/useExecuteRuling.ts:43-48 | the not-in-Reveal notice is given if and only if the error text contains "Wrong phase"; any other error is reported with its text |
| `ExecuteRuling.RevertedReceiptNotice` | src/hooks/useExecuteRuling.ts:33-48 | a receipt status other than 1 is reported as "Execution failed: Transaction failed on-chain", never as a phase error |
| `ExecuteRuling.ExecutionError` | src/hooks/useExecuteRuling.ts:19-40 | the try block ends without error exactly when send and wait returned and the status is 1 |
| `ExecuteRuling.ExecuteRulingHook.ExecuteRuling` | src/hooks/useExecuteRuling.ts:11-53 | without contract or address: null and no transaction; otherwise send then wait, true exactly on status 1, the success notice on success and the classified failure notice otherwise; `isExecuting` ends false |
| `PayDispute.PollLengthFromBounds` | src/hooks/usePayDispute.ts:44-52 | from the k-th read on, the poll ends after a read n-1 with k < n <= 5; the reads from k before it were all short, and an end before the fifth read is at a read that threw or showed enough |
| `PayDispute.PollLengthBounds` | src/hooks/usePayDispute.ts:44-52 | the poll makes between one and five reads, every read before the last returned an allowance below the amount, and an early stop is at a read that threw or showed enough |
| `PayDispute.PollStopsAtFirst` | src/hooks/usePayDispute.ts:44-52 | the poll ends exactly at the first read (within five) that threw or showed enough allowance |
| `PayDispute.PollAllowance` | src/hooks/usePayDispute.ts:44-52 | the loop makes between one and five reads, stops at the first sufficient or failing read, and reports the error exactly when that read threw |
| `PayDispute.PayDisputeHook.PayDispute` | src/hooks/usePayDispute.ts:15-77 | not connected: false with no call; a malformed amount: false with no call; a failed first allowance read: false after that read; a failed approval: false with no polling and no payment; an approval only for the parsed amount and only when the allowance was below it; with enough allowance, straight to paying; after an approval, the poll and then the payment whether or not the poll saw the allowance, unless a poll read threw; true only on a receipt with status 1; `isPaying` ends false |
| `GetDispute.MapDispute` | src/hooks/useGetDispute.ts:48-68 | every on-chain field carried over, no assigned jurors, title the metadata title if truthy else "Dispute #id", description defaulting to "No description provided.", evidence defaulting to [], title and description never empty |
| `GetDispute.MapDisputeDefaults` | src/hooks/useGetDispute.ts:42-67 | without a metadata pointer every off-chain field takes its default |
| `GetDispute.GetDisputeHook.FetchDispute` | src/hooks/useGetDispute.ts:31-74 | no contract or a falsy id ("" or 0): nothing read or changed; otherwise the record is read, the metadata fetched only for a non-empty hash, a failure keeps the previous record, and `isLoading` ends false |
| `Evidence.Party` | src/hooks/useEvidence.ts:11-19 | the name is the party's address when set, else the fixed mock name (never empty); the role label follows the role |
| `Evidence.AudioTitle` | src/hooks/useEvidence.ts:53-58 | the audio title is the role label followed by "'s Audio Statement" |
| `Evidence.RawEvidence` | src/hooks/useEvidence.ts:29 | the dispute's evidence list, or empty without a dispute; each of its URLs lands in the image list or the video list, and the two lists together are as long as it |
| `Evidence.ImageEvidence` | src/hooks/useEvidence.ts:31-39 | one entry per non-.mp4 URL in order, the i-th with id "img-i" |
| `Evidence.VideoEvidence` | src/hooks/useEvidence.ts:41-50 | one entry per .mp4 URL in order, the i-th with id "vid-i" and the fixed thumbnail |
| `Evidence.EvidencePartition` | src/hooks/useEvidence.ts:29-50 | every URL lands in exactly one list according to its suffix, nothing else lands in either, and the two lists together are as long as the evidence |
| `Evidence.EvidenceOrder` | src/hooks/useEvidence.ts:31-50 | each list keeps the relative order of its URLs; a URL's number is how many URLs of its kind precede it |
| `Evidence.NoEvidence` | src/hooks/useEvidence.ts:29 | no dispute gives two empty lists |
| `Wallet.ShortenAddress` | src/util/wallet.ts:7-21 | the result is empty exactly for an absent or empty address; a string that does not look like an address comes back unchanged; an address becomes a string of 3 to 2n+3 characters that contains "..." |
| `Wallet.ShortenPassThrough` | src/util/wallet.ts:11-18 | an absent or empty address gives ""; a string that does not start with "0x" or is at most 10 long comes back unchanged |
| `Wallet.ShortenedShape` | src/util/wallet.ts:16-20 | with 0 <= chars and chars+2 <= length, the result is the first chars+2 characters, "...", and the last chars; it has 2*chars+5 characters and starts with "0x" |
| `Wallet.ShortenedDefault` | src/util/wallet.ts:9-20 | with the default of 4 a 42-character address becomes 13 characters |
| `TimerCard.FormatTime` | src/components/dispute-overview/TimerCard.tsx:7-11 | the output has at least four characters, and for a non-negative input it ends in ':' and two digits (its read-back is `FormatTimeReadBack`) |
| `TimerCard.JsRemainder` | src/components/dispute-overview/TimerCard.tsx:9 | `%` agrees with the mathematical remainder on non-negative numbers and is in (-60, 0] on negative ones |
| `TimerCard.FormatTimeFields` | src/components/dispute-overview/TimerCard.tsx:8-10 | for t >= 0 the minutes are t div 60 and the seconds t mod 60 < 60, with t = minutes*60 + seconds |
| `TimerCard.SecondsField` | src/components/dispute-overview/TimerCard.tsx:10 | a seconds value below 60 is padded to exactly two digits that read back to it |
| `TimerCard.ReadTimeOfFields` | src/components/dispute-overview/TimerCard.tsx:10 | digits, ":" and two digits contain one ":" and read back to minutes*60 + seconds |
| `TimerCard.FormatTimeReadBack` | src/components/dispute-overview/TimerCard.tsx:7-11 | for t >= 0 the output has exactly one ":", a two-digit seconds field, and reads back as minutes*60 + seconds == t |
| `Js.PadStart` | src/components/dispute-overview/TimerCard.tsx:10 | the padded string is max(width, length) long, ends with the original, and every character before the original is the pad character |
| `Js.ParseDecimalString` | src/components/dispute-overview/TimerCard.tsx:10 | the decimal string of n reads back to n |
| `Js.ContainsIffOccurs` | src/hooks/useExecuteRuling.ts:44 | `includes` holds exactly when the substring occurs at some offset |
| `SwipeGesture.SwipeDecision` | src/hooks/useSwipeGesture.ts:40-57 | a swipe fires exactly when abs(dx) > minSwipeDistance and abs(dx) > 2*abs(dy); a left swipe has dx > 0 and a right one dx < 0; at most one fires |
| `SwipeGesture.SwipeMirror` | src/hooks/useSwipeGesture.ts:49-56 | mirroring the horizontal movement swaps left and right and keeps "no swipe" |
| `SwipeGesture.SwipeScales` | src/hooks/useSwipeGesture.ts:49 | a swipe stays the same swipe when the movement is made k >= 1 times longer |
| `SwipeGesture.SwipeGestureHook.constructor` | src/hooks/useSwipeGesture.ts:10-17 | `minSwipeDistance` defaults to 100; the refs start null and not dragging |
| `SwipeGesture.SwipeGestureHook.OnStart` | src/hooks/useSwipeGesture.ts:20-25 | a start records both coordinates and starts dragging |
| `SwipeGesture.SwipeGestureHook.ResetState` | src/hooks/useSwipeGesture.ts:97-101 | both coordinates null, not dragging |
| `SwipeGesture.SwipeGestureHook.OnEnd` | src/hooks/useSwipeGesture.ts:34-62 | ignored (nothing changes) when not dragging, startX falsy (null or 0) or startY null; otherwise the decision on start minus end and the refs reset |
| `SwipeGesture.SwipeGestureHook.OnGlobalMouseUp` | src/hooks/useSwipeGesture.ts:104 | only `isDragging` is cleared; the start point stays |
| `SwipeGesture.Gesture` | src/hooks/useSwipeGesture.ts:20-62 | a start then an end fires what the decision rule says and resets, except that a start at x = 0 is ignored |
| `SliderDrag.CalculateProgress` | src/hooks/useSliderDrag.ts:12-21 | no element gives 0; any number is in [0, 100]; with a positive effective width (width - 36) it is 0 exactly left of the track, 100 exactly at or past its end, and the covered share in between; NaN exactly for a pointer on the left edge of a track as wide as the handle |
| `SliderDrag.ProgressMonotone` | src/hooks/useSliderDrag.ts:16-18 | moving the pointer right never lowers the progress |
| `SliderDrag.SliderDragHook.constructor` | src/hooks/useSliderDrag.ts:4-10 | the threshold defaults to 80; progress 0, not dragging |
| `SliderDrag.SliderDragHook.StartDrag` | src/hooks/useSliderDrag.ts:65 | sets `isDragging` and nothing else |
| `SliderDrag.SliderDragHook.HandleMove` | src/hooks/useSliderDrag.ts:23-36 | not dragging: nothing changes; otherwise completion exactly when the progress reaches the threshold, which stops the drag and resets the progress to 0, else the progress is the new value |
| `SliderDrag.SliderDragHook.HandleEnd` | src/hooks/useSliderDrag.ts:38-41 | stops dragging and resets the progress to 0 only when it is below the threshold |
| `SliderDrag.SlideAcross` | src/hooks/useSliderDrag.ts:23-36 | a drag to the end of the track completes for any threshold up to 100 and leaves the slider at rest |
| `Config.EnvKey` | src/util/config.ts:81-83 | `NEXT_PUBLIC_APP_ENV` if set and non-empty, else `NODE_ENV` if so, else "development"; never empty |
| `Config.SelectedSettings` | src/util/config.ts:81-91 | the exported settings are one of the three records; a set `NEXT_PUBLIC_APP_ENV` alone decides: its own record when it names one, development when it does not; only when it is unset or empty does `NODE_ENV` decide in the same way; with neither set, development |
| `Config.SettingsFor` | src/util/config.ts:85-91 | a known key selects the record of that environment; any other key selects development |
| `Config.SepoliaConsistent` | src/util/config.ts:30-43 | "0x14a34" decodes to 84532, and the RPC map entry is the first listed RPC URL |
| `Config.MainnetConsistent` | src/util/config.ts:46-59 | "0x2105" decodes to 8453, and the RPC map entry is the first listed RPC URL |
| `Config.SelectedChain` | src/util/config.ts:62-91 | the selected settings are self-consistent, on chain 8453 in production and on 84532 otherwise |

## Left out

- Keccak-256 is a parameter (any function from bytes to 32 bytes); `crypto.getRandomValues` is the 32-byte input it would fill.
- `bytesToHex`, `hexToBytes` and `bytesToBuffer` are library wrappers with no logic of their own. The commitment is kept as bytes rather than as its hex string.
- Sleeps (the 100 ms pause between batches, the 2 s pause between polls) and `Promise.all` concurrency are not modelled. Batches, processors and polls run in sequence, and answers are inputs.
- React scheduling, wagmi query enabling and caching are not modelled. `jurorDisputeIds`, `totalCount` and the multicall results arrive as inputs. `isLoading = isMulticallLoading || isProcessing` is not modelled.
- Toasts, `setLogs` and console output are not modelled, including the cleartext salt log of `commitVote`. The notice of `executeRuling` is the only message modelled, since it carries the error classification.
- `parseUnits(amountStr, 6)` is its result (`Outcome<int>`: the amount, or the error it throws). `BigInt(disputeId)` failing on a malformed id is folded into the send outcome.
- The metadata store (`fetchJSONFromIPFS`) and `transformDisputeData` are oracles. Their code is not part of this model.
- The secret store's implementation (`votingStorage`) is not part of this model; it is modelled as a map.
- Touch and mouse handlers of the swipe hook share one logic and are modelled once. The move handlers change nothing and are not modelled. Touch point selection (`touches[0]`) is not modelled.
- The slider's event-listener wiring is not modelled; `HandleMove` and `HandleEnd` are what the listeners call.
- `useEvidence`'s statement text, carousel images, avatar paths and `uploadDate` fields are fixed mock data and are not modelled.
- `AssignDispute.Pick`: `Math.random() * length` is computed in real arithmetic, so the rounding of a floating-point product is not captured.
- `SliderDrag.CalculateProgress`: positions and widths are reals; IEEE rounding and infinities other than those of a zero width are not captured.
- `TimerCard.FormatTimeReadBack`: stated for non-negative integer inputs only. A negative input is formatted (minutes floor, a remainder with the dividend's sign) but its read-back is not claimed. Fractional inputs are not modelled.
- `Config.SettingsFor`: keys are compared as strings. Lookups that hit inherited JavaScript object keys (such as "toString") are not modelled.
- The assign-dispute page forwards only a truthy id, so a matched dispute 0 is dropped by the caller. That page is not part of this model.
- In `DisputeList.DisputeListHook.Process`, a transform that throws leaves an unhandled rejection. The model keeps the previous list with `isProcessing` still true.
- Swipe coordinates and thresholds are integers in `SwipeGesture` (the start refs and the end point), whereas `clientX` and `clientY` are floating-point numbers; fractional positions and their rounding are not captured.
- Strings are sequences of Unicode characters, so `length`, `substring`, `startsWith` and `endsWith` count characters; JavaScript counts UTF-16 code units, which differ for characters outside the Basic Multilingual Plane (in `Wallet.ShortenAddress` and in the `.mp4` test of `Evidence`).
