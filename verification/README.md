# Polaris desktop shell: verified model

A Dafny model of the parts of the Polaris shell (a voice-driven Stellar wallet for the desktop)
whose behaviour is a protocol, a ledger or bit arithmetic, with proofs about all inputs and all
runs. `dafny verify dfyconfig.toml` checks the project.

## What is modelled

- **The approval gate** (`ApprovalGate`, `ApprovalStore`, `ApprovalRuns`, `ApprovalSafety`,
  `ApprovalRelabelling`, `ApprovalPrompts`, `ApprovalAnswers`). One unsigned transaction, or one batch of them, waits
  for the device owner's approval and is released once. `ApprovalGate` gives every locked section as
  a function, `ApprovalStores.ApprovalStore` runs the same sections in place, and `ApprovalRuns` lets
  any number of threads interleave them: prepare, prompt, finish and guard drop are separate steps, a
  thread may panic at its prompt, and a section may carry an instant read before it got the lock. A
  log records what was issued, approved, rejected and released.
- **Account keys** (`Base32`, `Crc16`, `StrKey`): base32 after section 6 of RFC 4648,
  CRC16-XModem, and the `G...` form of SEP-0023.
- **The payload digest** (`Octets`, `Fips180`, `FipsConstants`, `Sha256`, `Execution`): the hand-written SHA-256 against
  sections 4, 5 and 6.2 of FIPS 180-4, and the seam that binds the digest to an approval request.
- **The demo bank** (`Decimal`, `Money`, `Iban`, `Bank`, `BankRuns`, `BankAnswers`): amounts, IBANs after
  ISO 13616 with ISO/IEC 7064 MOD 97-10, and the ledger over whole runs.
- **The gestures** (`Modifiers`, `CtrlTap`, `Gesture`, `Exclusion`): the double-Control detector, the
  push-to-talk latch, and both on one stream of inputs.
- **The overlay** (`Shell`, `ShellRuns`, `ShellAnswers`), **speech** (`Speech`, `SpeechQueue`) and **capture**
  (`Capture`): runs of the window runtime, the utterance queue and the recording engine.

Code that updates fields is a class whose methods are proved equal to functions on the state's
value; the theorems about runs are about those functions. A step that cannot be taken does
nothing, so every sequence of steps is a run and a theorem about runs covers every order of events.

## Where the code and its description differ

- A dead approval can be relabelled: a denied or consumed request becomes `Expired` exactly when its
  time has come and a call reaches it: its prompt or its batch's finishes, its batch is prepared
  again, it or its batch is denied, or it is taken (`ApprovalRelabelling.RelabelledExactlyWhenOverdue`,
  and `ApprovalRelabelling.DeniedBecomesExpired` for a run). The set of dead states stays closed.
- The latch on an open prompt is cleared twice after a failed prompt. A prompt opened between the
  two clearings loses its latch, and a second prompt can open beside it
  (`ApprovalPrompts.TwoPromptsOpen`). The second clearing does harm exactly when it comes late, while
  a prompt for its request or batch is open and the request is pending: without a late clearing
  prompts are exclusive (`ApprovalPrompts.PromptsAreExclusive`), and after one the next thread to
  ask in time opens a second prompt if the owner is asked at all
  (`ApprovalPrompts.SecondPromptIffLate`). No safety theorem uses the latch.
- A refund marks its deposit before it checks the addition, so an overflowing refund loses the
  amount (`BankRuns.OverflowingRefund`). `BankRuns.BalanceIsConserved` holds if and only if no
  refund of the run overflows, which a caller can check before each call.
- The IBAN validator accepts the check digits 00, 01 and 99, which the generator never emits
  (`Iban.NeverGeneratedYetValid`); `Iban.AcceptedCheckDigits` gives the exact set.
- A credit is idempotent by its anchor transaction only while the entry is among the newest 500
  (`BankRuns.CreditPaysOncePerWindow`); after 500 further entries it is paid again
  (`BankRuns.CreditedTwice`).
- The cap on spoken text is exceeded by one character when a single token is cut
  (`Speech.CapIsExceededOnlyByHardCut`), as 121 letters are (`Speech.LimitIsExceeded`).
- A modifier capture can outlive its pair: exactly when the last sample shows Command or Shift
  without the pair and nothing ended the capture (`Gesture.CaptureWithoutPairIff`,
  `Gesture.BlockedReleaseLeavesCapture`).
- After a chord the pair need not be fully released: one key up is enough for the next bare pair to
  arm (`Gesture.OneKeyUpIsEnough`, `Gesture.ChordedPairRearms`).
- The cap on spoken text can cut a word in half: at a terminator inside a token, as in an amount, and
  then nothing marks the cut; or in a token longer than the cap (`Speech.CutsTokenIff`,
  `Speech.AmountIsCut`).
- The hover test uses the nominal height of the active state: over a grown prompt it counts the
  cursor as outside exactly below that height (`ShellRuns.HitTestMissesWhatGrew`).
- Transcription checks that its take is current, reports it and emits its transcript in three steps.
  A recording started after the check keeps its state, but the superseded transcript is still
  emitted (`Captures.StaleTranscriptCanEscape`). What is emitted is the newest take exactly when no
  recording was started since the check (`Captures.EmittedIsNewestIff`).

## Model

| member | source | states |
|---|---|---|
| ApprovalSafety.ReleasesAreEarned | app/src-tauri/src/approval.rs:1129-1157 | in every run, a released XDR is the one stored when its request was issued, matches its digest, leaves before issue time plus 120 s, and follows an approval that came after the issue: its own or its batch's prompt for Touch ID, the in-process path for wallet-only |
| ApprovalSafety.EveryRequestEndsOnce | app/src-tauri/src/approval.rs:7-16 | in every run an id is issued once and ends at most once, by one release or one rejection report (superseded, denied, locked), never both |
| ApprovalSafety.ReleasedExactlyWhenAuthorized | app/src-tauri/src/approval.rs:1137-1157 | on every reachable store a take succeeds exactly for an authorized, unexpired entry of that id, single or in the batch |
| ApprovalSafety.UndisturbedApprovalReleases | app/src-tauri/src/approval.rs:865-891 | from every reachable state a valid request of either mode that is begun, approved and taken, each at any instant before its 120 s are over, is released with its payload |
| ApprovalSafety.UndisturbedBatchReleases | app/src-tauri/src/approval.rs:974-1013 | the same for a batch: after one approved prompt any of its steps can be taken |
| ApprovalSafety.ReleasedIsWhatWasBegun | app/src-tauri/src/approval.rs:1129-1157 | whatever a run does after a request was begun, a release under its id carries that request's payload, within 120 s |
| ApprovalSafety.NoReturn | app/src-tauri/src/approval.rs:1129-1157 | once an issued id is no longer live, no continuation of the run releases or reports it |
| ApprovalSafety.DeadForGood | app/src-tauri/src/approval.rs:1129-1157 | the same from any state satisfying the invariant |
| ApprovalSafety.OustedIsNeverReleased | app/src-tauri/src/approval.rs:1159-1192 | after a lock or an accepted begin, no id known before it is ever released, even if its prompt succeeds later |
| ApprovalSafety.OustedAreReported | app/src-tauri/src/approval.rs:503-526 | everything live that a lock or a begin ousts is reported with its own payload hash |
| ApprovalSafety.ReportsAreTheLog | app/src-tauri/src/approval.rs:503-526 | the hashes an operation returns are, in order, those of the requests it rejected, and no other is rejected |
| ApprovalRelabelling.DeadSetIsClosed | app/src-tauri/src/approval.rs:1024-1057 | no step revives a denied, expired or consumed entry; the only change among them is to expired, at or after its time |
| ApprovalRelabelling.RelabelledExactlyWhenOverdue | app/src-tauri/src/approval.rs:826-1157 | in every reachable state and for every step that begins nothing, a dead entry changes its state if and only if it is not marked expired, its time has come, and the step finishes its prompt, prepares its batch, denies it or its batch, or takes it |
| ApprovalRelabelling.DeniedBecomesExpired | app/src-tauri/src/approval.rs:1019-1066 | a run in which a denied request becomes expired |
| ApprovalSafety.StepEndsTheLive | app/src-tauri/src/approval.rs:504-526 | every release and every rejection report is of an entry that was live just before |
| ApprovalRuns.StepKeepsInv | app/src-tauri/src/approval.rs:549-592 | every step of every interleaving keeps the invariant of store, log and threads |
| ApprovalRuns.RunKeepsInv | app/src-tauri/src/approval.rs:594-600 | so does every run |
| ApprovalRuns.FinishEvolves | app/src-tauri/src/approval.rs:826-857 | finishing authorizes only the prompt's own request or batch and only on success, expires only in time, and keeps the batch uniform |
| ApprovalRuns.DenyEvolves | app/src-tauri/src/approval.rs:1019-1066 | denying revives and authorizes nothing and keeps the batch uniform |
| ApprovalRuns.TakeEvolves | app/src-tauri/src/approval.rs:1137-1157 | taking one step of a batch keeps the batch uniform |
| ApprovalRuns.LockEvolves | app/src-tauri/src/approval.rs:1164-1192 | locking leaves dead entries alone and the batch uniform |
| ApprovalRuns.StatusEvolves | app/src-tauri/src/approval.rs:1070-1081 | asking for a status expires at most the entry asked for, and only in time |
| ApprovalAnswers.RefusedBegins | app/src-tauri/src/approval.rs:679-704 | each refusal of a request has its own exact condition, with 16384 bytes as the most |
| ApprovalAnswers.BeginAnswers | app/src-tauri/src/approval.rs:706-733 | a begin is accepted exactly for an acceptable request and leaves it alone in the store, with the next id, pending for 120 s |
| ApprovalAnswers.BeginBatchAnswers | app/src-tauri/src/approval.rs:741-786 | a batch is accepted exactly with one to eight acceptable steps; else the first refusal is the answer and nothing is stored |
| ApprovalAnswers.PrepareAnswers | app/src-tauri/src/approval.rs:790-821 | each of the five answers has its exact condition, and only the latch, or a lapse, changes |
| ApprovalAnswers.PrepareBatchAnswers | app/src-tauri/src/approval.rs:936-972 | the same for a batch of any run |
| ApprovalAnswers.FinishAnswers | app/src-tauri/src/approval.rs:826-857 | recording a prompt: each answer with its exact condition, the payload returned, and the latch open in every case |
| ApprovalAnswers.FinishBatchAnswers | app/src-tauri/src/approval.rs:976-1013 | the same for a batch of any run, with one receipt a step |
| ApprovalAnswers.DropAnswers | app/src-tauri/src/approval.rs:549-592 | a guard's drop changes its own latch and nothing else |
| ApprovalAnswers.DenyAnswers | app/src-tauri/src/approval.rs:1049-1066 | in every run a single request is denied exactly while it is pending and in time, open prompt or not: state, latch, reason and hash |
| ApprovalAnswers.DenyStepAnswers | app/src-tauri/src/approval.rs:1019-1047 | in every run one step's denial denies its batch exactly while all steps are pending and in time |
| ApprovalAnswers.TakeAnswers | app/src-tauri/src/approval.rs:1137-1157 | in every run each answer to a take has its exact condition, and a take consumes the entry and nothing else |
| ApprovalAnswers.TakeStepAnswers | app/src-tauri/src/approval.rs:1137-1157 | the same for a step of a batch; the other steps stand |
| ApprovalAnswers.UnknownAnswers | app/src-tauri/src/approval.rs:1019-1157 | an id that is not held is not found by any call, which changes nothing |
| ApprovalAnswers.LockAnswers | app/src-tauri/src/approval.rs:1164-1192 | a lock denies what is live, with the lock as reason, and leaves the rest |
| ApprovalAnswers.BatchStateIs | app/src-tauri/src/approval.rs:405-436 | the five states derived for a batch of any run, each with its exact condition |
| ApprovalAnswers.SnapshotAnswers | app/src-tauri/src/approval.rs:1086-1102 | a snapshot shows the data of what holds the id, step by step, and marks a request that is overdue |
| ApprovalAnswers.CurrentAnswers | app/src-tauri/src/approval.rs:1104-1127 | the panel's snapshot is the same picture of what is held |
| ApprovalAnswers.StatusAnswers | app/src-tauri/src/approval.rs:1068-1081 | a status is the entry's id, state as of now and reason |
| ApprovalPrompts.BatchMovesAsOne | app/src-tauri/src/approval.rs:741-786 | in every run, before its expiry a batch is pending as a whole or not at all, and all steps share the expiry |
| ApprovalPrompts.BatchStateIsUnanimous | app/src-tauri/src/approval.rs:405-436 | the derived state is pending, or authorized, exactly when every step is and the batch is unexpired |
| ApprovalPrompts.PanelShowsTheActionable | app/src-tauri/src/approval.rs:1104-1127 | the panel gets a snapshot exactly when something can still be acted on |
| ApprovalPrompts.OnePromptForAll | app/src-tauri/src/approval.rs:976-1013 | one answered prompt authorizes all steps or none, with the exact condition |
| ApprovalPrompts.OnePromptForOne | app/src-tauri/src/approval.rs:823-857 | a finished prompt leaves its request authorized exactly when it was pending, in time and answered yes |
| ApprovalPrompts.StatusIsTimely | app/src-tauri/src/approval.rs:1068-1081 | a status is given for exactly the ids held, and calls one live only while it is live and in time |
| ApprovalPrompts.OneDenialForAll | app/src-tauri/src/approval.rs:1015-1047 | denying one step denies all, or none, with the exact condition and all hashes reported |
| ApprovalPrompts.PromptsAreExclusive | app/src-tauri/src/approval.rs:549-592 | in every run in which no finished thread drops its guard late, no request or batch ever has two threads under way, and so never two prompts, panics included |
| ApprovalPrompts.SecondPromptIffLate | app/src-tauri/src/approval.rs:549-592 | the condition is exact: after a finished thread's drop, the next thread to ask for its key in time gets under way beside another if and only if the drop was late, and then prompts if and only if the request is a batch or a Touch ID one |
| ApprovalPrompts.LeavingAtOnceIsInTime | app/src-tauri/src/approval.rs:549-568 | no drop is late when finishing and dropping are one step |
| ApprovalPrompts.DropKeepsLatchIff | app/src-tauri/src/approval.rs:557-568 | a separate guard drop keeps the latch true to the open prompts exactly when no prompt is open for its key |
| ApprovalPrompts.TwoPromptsOpen | app/src-tauri/src/approval.rs:879-887 | the interleaving in which one request has two open prompts |
| ApprovalStores.ApprovalStore.TakeLive | app/src-tauri/src/approval.rs:504-526 | removes everything and reports the live entries in order |
| ApprovalStores.ApprovalStore.StoreRequest | app/src-tauri/src/approval.rs:706-733 | validation, next id, superseding, pending entry: equal to the section's function |
| ApprovalStores.ApprovalStore.BeginBatch | app/src-tauri/src/approval.rs:741-786 | the same for a batch, nothing stored when one step is bad |
| ApprovalStores.ApprovalStore.PrepareAuthorize | app/src-tauri/src/approval.rs:790-821 | equal to the section's function, latch and all four refusals |
| ApprovalStores.ApprovalStore.FinishAuthorize | app/src-tauri/src/approval.rs:826-857 | equal to the section's function, in the code's order of checks |
| ApprovalStores.ApprovalStore.DropGuard | app/src-tauri/src/approval.rs:557-568 | clears the latch of its own request only |
| ApprovalStores.ApprovalStore.PrepareBatch | app/src-tauri/src/approval.rs:936-972 | equal to the section's function |
| ApprovalStores.ApprovalStore.FinishBatch | app/src-tauri/src/approval.rs:976-1013 | equal to the section's function, receipts included |
| ApprovalStores.ApprovalStore.DropBatchGuard | app/src-tauri/src/approval.rs:578-591 | clears the latch of its own batch only |
| ApprovalStores.ApprovalStore.Deny | app/src-tauri/src/approval.rs:1019-1066 | equal to the section's function, batch first |
| ApprovalStores.ApprovalStore.GetStatus | app/src-tauri/src/approval.rs:1070-1081 | equal to the section's function |
| ApprovalStores.ApprovalStore.SnapshotOf | app/src-tauri/src/approval.rs:1086-1102 | equal to the section's function |
| ApprovalStores.ApprovalStore.Current | app/src-tauri/src/approval.rs:1106-1127 | equal to the section's function |
| ApprovalStores.ApprovalStore.TakeAuthorized | app/src-tauri/src/approval.rs:1137-1157 | equal to the section's function |
| ApprovalStores.ApprovalStore.InvalidateForLock | app/src-tauri/src/approval.rs:1164-1192 | denies every live entry and returns their hashes in order |
| Base32.Base32Decode | app/src-tauri/src/stellar_config.rs:62-80 | the loop with its unmasked 32-bit accumulator regroups the input's bits big-endian, for any length, and refuses exactly the strings outside the alphabet |
| Base32.DigitIsPlace | app/src-tauri/src/stellar_config.rs:67-71 | a character's value is its place in A to Z, 2 to 7, and no other character has one |
| Base32.DecodeEncode | app/src-tauri/src/stellar_config.rs:62-80 | decoding inverts the RFC 4648 encoding |
| Base32.EncodeDecode | app/src-tauri/src/stellar_config.rs:62-80 | encoding inverts decoding on whole groups, so 56 characters and 35 bytes are in bijection |
| Crc16.Crc16Xmodem | app/src-tauri/src/stellar_config.rs:83-97 | the nested loop computes the remainder of the message polynomial modulo x^16 + x^12 + x^5 + 1 |
| Crc16.CrcIsRemainder | app/src-tauri/src/stellar_config.rs:83-97 | the step-by-step checksum is that polynomial remainder |
| Crc16.BurstDetected | app/src-tauri/src/stellar_config.rs:82-97 | messages of one length that differ only within two adjacent bytes have equal checksums only if they are equal |
| Crc16.LastByteDetected | app/src-tauri/src/stellar_config.rs:82-97 | what a change of the last data byte does to the checksum's high byte |
| StrKey.CheckPublicKey | app/src-tauri/src/stellar_config.rs:104-118 | the checks in the code's order decide the key shape |
| StrKey.AcceptedIffGenerated | app/src-tauri/src/stellar_config.rs:99-118 | the accepted strings are exactly the keys of 32-byte payloads |
| StrKey.KeyOfIsAccepted | app/src-tauri/src/stellar_config.rs:99-118 | a generated key is accepted and decodes to its payload |
| StrKey.KeysBeginWithG | app/src-tauri/src/stellar_config.rs:99-118 | accepted are exactly the 56-character base32 strings that begin with G and A to D and whose checksum matches |
| StrKey.NoTwoKeysOneCharacterApart | app/src-tauri/src/stellar_config.rs:10-19 | two accepted keys never differ in exactly one character |
| StrKey.MistypedKeyRejected | app/src-tauri/src/stellar_config.rs:10-19 | changing any one character of an accepted key, to anything, yields a rejected string |
| Sha256.Sha256Hex | agent/src/execution.ts:228-297 | the buffer, the reused schedule array and the eight working variables compute SHA-256 of FIPS 180-4 |
| Sha256.PadBuffer | agent/src/execution.ts:229-237 | the padded buffer is the padding of section 5.1.1 |
| Sha256.FillSchedule | agent/src/execution.ts:249-259 | the schedule array holds the message schedule of the current block, whatever it held before |
| Sha256.RunRounds | agent/src/execution.ts:260-283 | 64 in-place rounds are the rounds of section 6.2 |
| Sha256.RotrIsRotation | agent/src/execution.ts:219-221 | the shift expression is rotation by any amount from 1 to 31 |
| Sha256.SigmasAreTheStandards | agent/src/execution.ts:250-272 | the rotations and shifts as written are the four sigma functions of section 4.1.2 |
| Sha256.ExpressionsAreTheStandards | agent/src/execution.ts:260-283 | choice, majority and the sums as written are the standard's functions and addition modulo 2^32 |
| Sha256.SeamAndGateWriteOneDigest | app/src-tauri/src/approval.rs:77-80 | the seam's hexadecimal text and the gate's are the same string |
| FipsConstants.RoundConstants | agent/src/execution.ts:208-217 | the 64 constants are the first 32 fractional bits of the cube roots of the first 64 primes |
| FipsConstants.InitialHashValue | agent/src/execution.ts:239-246 | the initial words are those of the square roots of the first eight primes |
| Fips180.PaddedLengthIsLeast | agent/src/execution.ts:229-231 | the padded length is the least multiple of 64 that is at least length + 9 |
| Fips180.PadIsInjective | agent/src/execution.ts:229-237 | no two messages of fewer than 2^64 bits, whatever their lengths, pad to the same blocks |
| Execution.ReleasedIsWhatTheSeamReports | agent/src/execution.ts:479-533 | when the request of an executed intent is begun at the gate, every release under its id, in any continuation of any run, carries the transaction and hash the outcome reports |
| Execution.EveryFailureIsLabelled | agent/src/execution.ts:423-533 | every way an intent can fail has its own status and label and hands out nothing |
| Execution.RequestIsOfTheTool | agent/src/execution.ts:479-486 | the approver is asked about the intent, the tool's transaction and summary, and the digest the gate will compute |
| Money.AcceptedAmounts | app/src-tauri/src/bank.rs:146-173 | an amount parses to m exactly when its trimmed text denotes m hundredths with at most two decimals and m is positive and fits |
| Money.AmountsByDecimals | app/src-tauri/src/bank.rs:146-173 | no, one and two decimals count nothing, tens of hundredths, and hundredths |
| Money.RefusedAmounts | app/src-tauri/src/bank.rs:146-173 | each of the five refusals has its exact condition on the trimmed text |
| Money.TrimIs | app/src-tauri/src/bank.rs:147 | trimming drops the white space at both ends and nothing else |
| Money.WhitespaceIs | app/src-tauri/src/bank.rs:147 | white space is Unicode's White_Space |
| Money.ParseOfFormat | app/src-tauri/src/bank.rs:146-180 | for every 64-bit amount, parsing its printed form gives it back when it is positive and fails otherwise |
| Money.FormatIsCanonical | app/src-tauri/src/bank.rs:176-180 | the printed form of every 64-bit amount is canonical and denotes its value, after a minus sign when negative |
| Money.CanonicalFormIsFormat | app/src-tauri/src/bank.rs:176-180 | there is one canonical text per amount, zero included |
| Money.FormatNormalises | app/src-tauri/src/bank.rs:146-180 | printing an accepted text gives a canonical form of the same value |
| Iban.ToNumeric | app/src-tauri/src/bank.rs:186-197 | the loop writes digits and letter values in order and skips the rest |
| Iban.LettersAre | app/src-tauri/src/bank.rs:186-197 | the letters are A to Z in either case |
| Iban.LetterCounts | app/src-tauri/src/bank.rs:186-197 | each letter counts ten and its place in the alphabet |
| Iban.Mod97 | app/src-tauri/src/bank.rs:200-209 | the 32-bit loop computes the remainder of a digit string of any length without overflow |
| Iban.TrIban | app/src-tauri/src/bank.rs:212-216 | equal to the generator's function |
| Iban.IsValidTrIban | app/src-tauri/src/bank.rs:219-232 | equal to the validator's predicate |
| Iban.GeneratedIsValid | app/src-tauri/src/bank.rs:212-232 | the IBAN of every 22-digit BBAN validates |
| Iban.AcceptedCheckDigits | app/src-tauri/src/bank.rs:212-232 | the exact check digits the validator accepts for a BBAN |
| Iban.ValidInRangeIsGenerated | app/src-tauri/src/bank.rs:212-232 | a valid IBAN with check digits 02 to 98 is the generated one |
| Iban.NeverGeneratedYetValid | app/src-tauri/src/bank.rs:212-232 | 00, 01 and 99 are each accepted with some BBAN and never generated |
| Iban.MistypedDigitDetected | app/src-tauri/src/bank.rs:219-232 | changing one digit of a valid IBAN makes it invalid |
| Iban.SwappedDigitsMakeInvalid | app/src-tauri/src/bank.rs:219-232 | so does swapping two unequal adjacent digits |
| Bank.BankStore.Push | app/src-tauri/src/bank.rs:309-317 | the log keeps its newest 500 entries |
| Bank.BankStore.Debit | app/src-tauri/src/bank.rs:320-351 | equal to the debit's function on the old state |
| Bank.BankStore.Credit | app/src-tauri/src/bank.rs:355-392 | equal to the credit's function on the old state |
| Bank.BankStore.Settle | app/src-tauri/src/bank.rs:395-414 | equal to the settlement's function on the old state |
| Bank.BankStore.Refund | app/src-tauri/src/bank.rs:418-461 | equal to the refund's function, with the status changed before the checked addition |
| Bank.BankStore.Reset | app/src-tauri/src/bank.rs:464-469 | the fresh account |
| BankAnswers.DebitAnswers | app/src-tauri/src/bank.rs:320-351 | each answer to a debit has its condition; an accepted one logs the entry and replies with it and the new balance |
| BankAnswers.CreditAnswers | app/src-tauri/src/bank.rs:355-392 | the same for a credit; a known anchor transaction names the entry it was first credited with |
| BankAnswers.SettleAnswers | app/src-tauri/src/bank.rs:395-414 | settling names the oldest reservation of the reference, completed, or is refused |
| BankAnswers.RefundAnswers | app/src-tauri/src/bank.rs:418-461 | each answer to a refund has its condition, the mark left by an overflowing one included |
| BankAnswers.RunKeepsBooks | app/src-tauri/src/bank.rs:309-317 | over every run the log is the newest 500 entries and the currency stands |
| BankAnswers.ReplyShowsTheAccount | app/src-tauri/src/bank.rs:345-350 | in every run an accepted call replies with the account as it is after the call |
| BankRuns.BalanceIsConserved | app/src-tauri/src/bank.rs:320-461 | over every run, pruned entries included, the balance is non-negative, fits, and equals the initial amount less deposits not refunded plus payouts if and only if no refund overflowed |
| BankRuns.DebitReservesWhatIsCovered | app/src-tauri/src/bank.rs:320-351 | a debit reserves its amount exactly when the amount parses and the balance covers it, and otherwise changes nothing |
| BankRuns.SettleCompletesThePending | app/src-tauri/src/bank.rs:394-414 | settling completes the reservation found if it is pending and changes nothing else |
| BankRuns.RefundPaysThePending | app/src-tauri/src/bank.rs:418-461 | a refund pays back exactly when the reservation found is pending, has no top-up among the newest 500, and fits |
| BankRuns.LossIsOverflow | app/src-tauri/src/bank.rs:438-442 | money is lost exactly when a refund overflows |
| BankRuns.RefundsMatchTopups | app/src-tauri/src/bank.rs:418-461 | over every run refunded deposits and top-ups pair up one to one, with equal amounts and matching references, save deposits left without a top-up, of which there are none exactly when no refund overflowed |
| BankRuns.EntriesSettleOnce | app/src-tauri/src/bank.rs:395-461 | an entry changes only from pending to completed or to refunded, once and for good |
| BankRuns.CreditPaysOncePerWindow | app/src-tauri/src/bank.rs:353-373 | a credit pays exactly when it fits and no entry among the newest 500 is for its anchor transaction |
| BankRuns.DoubleCreditsAreFarApart | app/src-tauri/src/bank.rs:309-373 | two credits of one anchor transaction lie more than 500 entries apart |
| BankRuns.CreditedTwice | app/src-tauri/src/bank.rs:353-373 | after a credit and 500 further entries the same anchor transaction is paid again |
| BankRuns.RefundIsIdempotent | app/src-tauri/src/bank.rs:416-427 | while its top-up is among the newest 500, refunding again changes nothing |
| BankRuns.IdsAreUnique | app/src-tauri/src/bank.rs:333-345 | no two entries of a run share an identifier |
| BankRuns.OverflowingRefund | app/src-tauri/src/bank.rs:437-442 | a run in which a refund overflows and its amount is lost |
| CtrlTaps.CtrlTap.OnModifiers | app/src-tauri/src/ctrl_tap.rs:82-151 | equal to the sample's step function |
| CtrlTaps.CtrlTap.OnKeyPress | app/src-tauri/src/ctrl_tap.rs:165-173 | equal to the key press's step function |
| CtrlTaps.FiresExactlyOnDoubleTaps | app/src-tauri/src/ctrl_tap.rs:28-46 | from the default state the detector returns true exactly on the input that ends a double tap, stated on the trace: two short taps of Control alone from rest, close together, no foreign modifier between and no key while held, the first not itself ending a pair |
| CtrlTaps.FiringResets | app/src-tauri/src/ctrl_tap.rs:42-43 | a detection returns the machine to its default state |
| CtrlTaps.FiringWindowsAreDisjoint | app/src-tauri/src/ctrl_tap.rs:42-43 | the windows of two detections share no input |
| Gesture.Latch.OnModifiers | app/src-tauri/src/gesture.rs:102-139 | equal to the sample's step function |
| Gesture.Latch.OnShortcut | app/src-tauri/src/gesture.rs:145-159 | equal to the shortcut's step function |
| Gesture.Latch.Tick | app/src-tauri/src/gesture.rs:163-174 | equal to the tick's step function |
| Gesture.Latch.Watchdog | app/src-tauri/src/gesture.rs:179-184 | equal to the watchdog's step function |
| Gesture.Latch.ResetModifiers | app/src-tauri/src/gesture.rs:188-198 | equal to the reset's step function |
| Gesture.EveryRunIsSound | app/src-tauri/src/gesture.rs:85-99 | over every mix of calls the actions strictly alternate Start and Stop, a pending deadline implies the whole guard of the tick, and a modifier capture implies pair or blocked |
| Gesture.DueTickStarts | app/src-tauri/src/gesture.rs:163-174 | a due tick always starts: its inner guard is implied |
| Gesture.StartsExactlyAfterAHold | app/src-tauri/src/gesture.rs:20-29 | a tick starts a capture exactly when an unblocked pair began at least 300 ms before it with no chord in that hold, no shortcut press and no reset since |
| Gesture.CaptureHistory | app/src-tauri/src/gesture.rs:97-198 | a modifier capture is on exactly when a tick started it and since then the pair was not let go, one key being enough, with Command and Shift up, no chord was played and nothing was reset; a shortcut capture exactly when a press started it and no release came since |
| Gesture.WatchdogReconciles | app/src-tauri/src/gesture.rs:176-184 | after a watchdog call the latch agrees with the live state, and with neither pair nor block live no modifier capture is on |
| Gesture.CaptureWithoutPairIff | app/src-tauri/src/gesture.rs:102-139 | a modifier capture is on without the pair exactly when a tick started it, nothing ended it since, and the last sample shows Command or Shift without the pair |
| Gesture.BlockedReleaseLeavesCapture | app/src-tauri/src/gesture.rs:106-119 | a blocked sample that is no longer the pair leaves a modifier capture on |
| Gesture.OneKeyUpIsEnough | app/src-tauri/src/gesture.rs:24-28 | after any calls, a sample without the pair and without Command or Shift, one key still down or none, lets the next bare pair arm unless the shortcut's capture is on |
| Gesture.ChordedPairRearms | app/src-tauri/src/gesture.rs:24-28 | a chord, then Control alone, then the pair: it arms although Control never went up |
| Exclusion.PromptExcludesPushToTalk | app/src-tauri/src/ctrl_tap.rs:426-466 | during the window of a firing double tap no modifier capture is live and none starts, unless a poll contradicts the samples |
| Exclusion.QuietUnlessArmed | app/src-tauri/src/hotkey.rs:187-203 | within the window the latch stays quiet if and only if no poll finds the bare pair, against the samples, on a free and unpoisoned latch |
| Exclusion.UntrustedIsQuiet | app/src-tauri/src/hotkey.rs:158-210 | without Accessibility trust the modifiers hold no capture and no pending arm |
| Exclusion.ContradictingPollBreaksExclusion | app/src-tauri/src/hotkey.rs:187-203 | the condition on polls is needed |
| Shell.GrowUnionIsLeast | app/src-tauri/src/notch.rs:615-626 | the union covers both frames and is the least that does |
| Shell.ShellRuntime.UpdateDisplay | app/src-tauri/src/notch.rs:785-803 | equal to the section's function |
| Shell.ShellRuntime.SetActive | app/src-tauri/src/notch.rs:816-832 | equal to the section's function |
| Shell.ShellRuntime.SetContentHeight | app/src-tauri/src/notch.rs:837-851 | equal to the section's function |
| Shell.ShellRuntime.RequestKeyboard | app/src-tauri/src/notch.rs:869-880 | equal to the section's function |
| Shell.ShellRuntime.ObserveCursor | app/src-tauri/src/notch.rs:980-987 | equal to the section's function |
| Shell.ShellRuntime.TrackCursor | app/src-tauri/src/notch.rs:1092-1098 | equal to the section's function |
| Shell.ShellRuntime.WatchdogDecision | app/src-tauri/src/notch.rs:994-1008 | equal to the section's function |
| Shell.ShellRuntime.MarkForcedCollapse | app/src-tauri/src/notch.rs:1029-1053 | equal to the section's function |
| ShellAnswers.TableIs | app/src-tauri/src/notch.rs:202-262 | the four states' sizes on any display, in points |
| ShellAnswers.FrameIs | app/src-tauri/src/notch.rs:561-591 | a frame hangs from the screen, centred on the cutout, 48 points wider than the widest row and 48 higher than the shown height |
| ShellAnswers.SetupAnswers | app/src-tauri/src/notch.rs:756-774 | at first the resting state is active and framed, clicks pass through and nothing was seen or measured |
| ShellAnswers.InsideIs | app/src-tauri/src/notch.rs:489-608 | the hit test is the closed rectangle of the active row |
| ShellAnswers.RequestAnswers | app/src-tauri/src/notch.rs:816-832 | a request activates the first row of its name at its nominal height with its flags, and an unknown name changes nothing |
| ShellAnswers.RequestActivates | app/src-tauri/src/notch.rs:816-832 | in every run on an unchanged display each of the four names activates its own state |
| ShellAnswers.CommitAnswers | app/src-tauri/src/notch.rs:1440-1463 | a commit sets the active row's flags, frames the window for the active row and leaves it for any other |
| ShellAnswers.ResizeAnswers | app/src-tauri/src/notch.rs:837-851 | a measurement counts exactly in a row whose bounds differ, kept within them |
| ShellAnswers.KeyboardAnswers | app/src-tauri/src/notch.rs:869-880 | the keyboard is granted exactly to an active row that takes clicks |
| ShellAnswers.CursorAnswers | app/src-tauri/src/notch.rs:980-987 | an observation reports an edge exactly when it differs from the last |
| ShellAnswers.DisplayAnswers | app/src-tauri/src/notch.rs:785-803 | the display counts as changed exactly when its origin or size differ |
| ShellAnswers.PollAnswers | app/src-tauri/src/notch.rs:628-639 | applying a poll takes that one and sets the target on a changed display, the union otherwise |
| ShellAnswers.CollapseAnswers | app/src-tauri/src/notch.rs:1029-1053 | a forced collapse ends in the resting row, inert and unpinned, and says what it changed |
| ShellAnswers.OutsideIsTimed | app/src-tauri/src/notch.rs:1092-1098 | in every run the time away counts from the first look that saw the cursor outside since the last restart |
| ShellAnswers.WatchdogCollapsesIff | app/src-tauri/src/notch.rs:994-1008 | in every run the watchdog collapses exactly an unfocused, unpinned state that takes clicks, with the cursor away for the grace period, told by the cursor's history |
| ShellRuns.TableIsGood | app/src-tauri/src/notch.rs:202-262 | on any display each row opens at its least height, only clickable rows take keys, and the resting row is fixed |
| ShellRuns.FrameInColumn | app/src-tauri/src/notch.rs:1057-1078 | every state's frame has the window's left edge, width and top edge |
| ShellRuns.FrameCoversShell | app/src-tauri/src/notch.rs:1057-1078 | the active state's frame, with the measured height, covers its nominal shell |
| ShellRuns.WindowHoldsTheShell | app/src-tauri/src/notch.rs:549-639 | over every run on an unchanged display the window keeps its left edge, width and top edge and covers the active state's frame, which covers its nominal shell |
| ShellRuns.HitTestMissesWhatGrew | app/src-tauri/src/notch.rs:922-933 | over every run on an unchanged display the hover test differs from the shell at its measured height on exactly the points below the nominal height |
| ShellRuns.CommitIsExactOrStale | app/src-tauri/src/notch.rs:1440-1463 | a commit of the active state makes the window exact, a stale one never moves it |
| ShellRuns.FlagsFollowTheRow | app/src-tauri/src/notch.rs:1255-1297 | clickability is the active row's, keys imply clickability, and the native flags agree with the runtime |
| ShellRuns.DisplayChangeSnaps | app/src-tauri/src/notch.rs:628-639 | an uninterrupted poll of a moved display snaps the window to the new frame |
| Speech.LastIndexWhere | agent/src/speech.ts:178-186 | the loop finds the last index satisfying the predicate, or -1 |
| Speech.CapSpokenText | agent/src/speech.ts:198-218 | equal to the cap's function |
| Speech.CapIsExceededOnlyByHardCut | agent/src/speech.ts:188-218 | the result is longer than the cap exactly when one token is cut, and then by one character |
| Speech.LongTokenIsOneOver | agent/src/speech.ts:198-218 | under every cap any longer text without space or sentence end comes out one character over |
| Speech.LimitIsExceeded | agent/src/speech.ts:188-218 | 121 letters come out as 121 characters |
| Speech.CapKeepsTheBeginning | agent/src/speech.ts:188-218 | the result begins the text, ending at its end, at the last terminator in the window, at the end of the last word before its last space, or at a hard cut |
| Speech.TrimIs | agent/src/speech.ts:199 | trimming drops the white space at both ends and nothing else |
| Speech.CharactersAre | agent/src/speech.ts:209-213 | the terminators, and the characters ECMAScript calls white space |
| Speech.CutsTokenIff | agent/src/speech.ts:188-218 | the cut falls inside a token if and only if the text is too long and either the last terminator in the window has more of its token after it, or one token reaches past the cap |
| Speech.AmountIsCut | agent/src/speech.ts:188-218 | an amount is cut at its decimal point with no mark |
| SpeechQueues.SpeechQueue.Enqueue | agent/src/speech.ts:311-327 | equal to the section's function |
| SpeechQueues.SpeechQueue.WhenIdle | agent/src/speech.ts:330-335 | equal to the section's function |
| SpeechQueues.SpeechQueue.Resume | agent/src/speech.ts:339-355 | what the drain loop does after an utterance settled |
| SpeechQueues.NeverOverlaps | agent/src/speech.ts:246-253 | an utterance starts only when none plays, and pending implies busy |
| SpeechQueues.SpokenIsInOrder | agent/src/speech.ts:246-253 | what is spoken is a subsequence of the non-blank requests |
| SpeechQueues.LatestWins | agent/src/speech.ts:248-252 | what starts is always the newest request so far |
| SpeechQueues.IdleOwesNothing | agent/src/speech.ts:329-355 | at rest the last request was the last spoken and every waiter was answered once |
| SpeechQueues.AnsweredOnlyAtRest | agent/src/speech.ts:329-355 | a waiter is answered only by a call that leaves nothing playing and nothing pending |
| Captures.Capture.Start | app/src-tauri/src/capture.rs:111-129 | equal to the section's function |
| Captures.Capture.FinishCapture | app/src-tauri/src/capture.rs:218-236 | equal to the section's function, which replaces the state unconditionally |
| Captures.Capture.MarkTranscribing | app/src-tauri/src/capture.rs:270-281 | equal to the section's function |
| Captures.Capture.MarkTranscribed | app/src-tauri/src/capture.rs:296-306 | equal to the section's function |
| Captures.Capture.MarkTranscriptionFailed | app/src-tauri/src/capture.rs:310-327 | equal to the section's function |
| Captures.OneRecorder | app/src-tauri/src/capture.rs:108-129 | at most one worker records, exactly while the engine is recording, and it has the newest take |
| Captures.CurrentIsNewestAndHeld | app/src-tauri/src/capture.rs:289-292 | in every run a recording the check finds current is the newest take and the worker's own, and nothing is being recorded |
| Captures.SupersededNeverReturns | app/src-tauri/src/capture.rs:283-292 | a superseded take is never carried or current again |
| Captures.CarriedNeverDecreases | app/src-tauri/src/capture.rs:161-170 | the takes the engine carries never decrease |
| Captures.ConsumerTouchesOnlyItsTake | app/src-tauri/src/capture.rs:264-327 | the transcription worker changes the engine only while it carries the worker's own, newest take |
| Captures.FailureIsReported | app/src-tauri/src/capture.rs:310-327 | a failed transcription shows its failure exactly while the engine is still transcribing that take, and frees the worker |
| Captures.EmittedIsNewestIff | app/src-tauri/src/stt.rs:816-845 | every emitted transcript was found current at an earlier check, and is of the newest take if and only if no recording was started since that check |
| Captures.EmittedWasCheckedAndReported | app/src-tauri/src/stt.rs:822-850 | in every run a step that emits a transcript emits that of the recording in hand, which a check found current and which was reported after that check |
| Captures.StaleTranscriptCanEscape | app/src-tauri/src/stt.rs:822-850 | a recording started between check and report, or between report and emission, does not stop the superseded transcript |

## Left out

- Tauri commands, event emission, AppKit calls, audio streams and LocalAuthentication: foreign calls. A prompt's answer, a recording's outcome and a transcription's outcome are arbitrary; window calls are taken to succeed.
- `signer_hint_of` and the rest of the released payload's decoding: they rest on `bridge::verify`, which is not part of this model.
- The printed form of gate identifiers (`apr_`, `bat_` and sixteen hexadecimal digits), and the wrap-around of their 64-bit counters.
- The `origin` field of a request, wall-clock conversion of expiry times, and the card texts of errors.
- Mutex poisoning: a panic outside the lock is modelled, one inside is not.
- Sha256.Sha256Hex: requires fewer than 2^31 - 72 bytes, because the code rounds the length with a 32-bit mask.
- The override of the digest function in `executeIntent`, which tests use, and the table of labels for refusals, which is a parameter.
- TextEncoder and other UTF-8 encoding: hashing is modelled on the bytes.
- Bank persistence and loading: saving is taken to succeed and every run begins at a reset; `set_currency` only relabels and `history` only reads.
- The random choice of a BBAN in `generate_tr_iban`.
- Floating-point rounding in the geometry, corner radii, activation policy, and first-responder focus.
- ShellRuns.WindowHoldsTheShell: only for an unchanged display, because a poll reads a moved display in one section and moves the window in another.
- ShellRuns.FlagsFollowTheRow: only for an unchanged display, for the same reason.
- Speech handlers that throw, and the audio itself; per-utterance failure handlers are calls to the queue just before it goes on.
- The timeout in `Capture::stop`, which only waits; WAV writing and pruning.
- Intent validators, dialogue, prompts, provider configuration, contacts, `.env` parsing, React components and the Soroban contracts: single-branch checks, text or other systems.
