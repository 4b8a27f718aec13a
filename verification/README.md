# Verified models of the Mazze node

Dafny models of the parts of the Mazze node whose correctness is not evident from reading them, and
proofs of what they promise. `dafny verify dfyconfig.toml` checks the whole project.

**Fixed-point arithmetic.** `FixedPoint`, `FractionalPower`, `OverflowThreshold` and `PowerTwo`
model the Newton square root of a 256-bit integer and the 64-round computation of `2^(ratio/2^64)`
and `2^(-ratio/2^64)` built on it. The root is the exact floor root after at most three rounds; the
power is within four units of `2^-127` before its final shift; and the inputs on which either
overflows are given exactly. `Powers` holds the arithmetic.

**Addresses.** `BitStrings`, `ConvertBits`, `Checksum`, `ChecksumField`, `Text`, `Address`,
`AddressOptions`, `AddressCodec`, `AddressLimits` and `AddressForms` model the base-32 address format.
Regrouping keeps the bit string. The checksum register is the remainder of polynomial division over
the field of 32 elements by the generator of the CashAddr checksum; the eight checksum symbols are the
only ones that work and detect every change inside a window of eight. Decoding undoes encoding in both
forms, and the texts that decode, that are canonical, that are rejected with each error and that send
decoding out of range are given exactly.

**The cancellable task channel.** `TaskChannel` is a state machine over its atomic sections,
`TaskChannelSafety` what every interleaving keeps, `TaskChannelWaits` what those who wait are promised,
and `TaskChannelObject` the object with its methods tied to the steps. A waiter is registered under its
own key, is never lost, and is woken by the step that ends its task and no earlier. The retry branch is
unreachable, and the channel is a simple queue in which cancelling filters by key.

**Peer bookkeeping.** `NodeTable`, `NodeOrder`, `NodeDatabase` and `NodeDatabaseObject` model the
swap-remove table of nodes as a plain map, the listing order, and three tables that stay disjoint.
`NodeDatabaseLaws` tells where each operation leaves every node and how long a node stays blacklisted.
`SessionTags` and `Sessions` model the session slab, its counters and its indices.

**Framing and egress accounting.** `Framing`, `Throttling` and `Connection` model the length-prefixed
packets with their head swapped to the tail, the throttling counters and the two halves of a
connection. `Egress` and `Delivery` run any number of connections with arbitrary partial writes and
reads: what is received is always a prefix of what was sent, no packet is sent while one of a higher
priority waits, polling brings the rest once it has arrived, and the counters are always those of the
packets alive.

**Phrases.** `Phrases` models the mixed-radix enumeration of candidate phrases.

Where the source changes state step by step the model is a class or a method with loops, and each
method is proved equal to a function on values; the properties are proved about those functions over
all inputs, steps or runs. `Wrappers` holds the option type.

## Where the code and its documentation differ

The model follows the code.

- The comment in `sqrt_u256` speaks of up to four rounds; three suffice (`FixedPoint.SqrtU256`).
- The comment in `power_two_fractional` claims an error of 5.2 units; four hold
  (`FractionalPower.ErrorBound`). Going up it is not total: a product leaves 256 bits exactly for the
  ratios `OverflowThreshold.NearTop` describes, the all-ones ratio among them.
- `mazze_addr_decode` subtracts eight from the number of symbols and reads the first payload byte
  without a check. They go out of range exactly on the texts `AddressLimits.PanicsIff` describes, and
  every network has one (`AddressLimits.ChecksumAlonePanics`).
- Decoding is canonical up to the prefix (`AddressCodec.EncodeDecoded`): with a leading zero in the
  network id, bytes of every size have a text that decodes to them and is never printed
  (`AddressLimits.LeadingZeroAccepted`).
- The unit test of `expand_prefix` expects the expansion of a shorter prefix than the one it passes.
- `set_current_task` removes from the list it scans. A receive goes out of bounds exactly when the
  task it took has a wait registered that is not the last one (`TaskChannelSafety.CrashesIff`), and
  runs get there (`TaskChannelSafety.CrashReached`).
- `set_blacklisted` notes a failure to start the time on the blacklist, but a demoted node keeps the
  contact that demoted it, so that its seven days start there (`NodeDatabaseLaws.SevenDaysFrom`).
- The comment on `ordered_entries` says contacts older than a week are left out; they are not.

## Model

| member | source | states |
|---|---|---|
| FixedPoint.SqrtU256 | crates/mazze_math/src/lib.rs:15-44 | overflows exactly when the top 64 bits are at least (2^32-1)^2, otherwise returns the floor square root, in at most three rounds |
| FixedPoint.InitRoot | crates/mazze_math/src/lib.rs:25-32 | the first estimate is strictly above the root, and taking the scale off it gives something that is not |
| FixedPoint.NewtonLoop | crates/mazze_math/src/lib.rs:37-43 | from such an estimate the loop ends within three rounds at the floor root, and only its first product can overflow |
| FixedPoint.FirstEstimate | crates/mazze_math/src/lib.rs:25-32 | shifting out an even number of bits and rooting the top word brackets the root between two neighbouring multiples of the scale |
| FixedPoint.StepStaysAbove | crates/mazze_math/src/lib.rs:39-41 | a Newton step from above strictly decreases and never falls below the floor root |
| FixedPoint.StepConverges | crates/mazze_math/src/lib.rs:39-41 | quadratic convergence: the excess of the square drops to at most its square over four times the square |
| FixedPoint.RoundOne | crates/mazze_math/src/lib.rs:37-41 | after one round the excess of the square is less than the square of the scale |
| FixedPoint.RoundTwo | crates/mazze_math/src/lib.rs:37-41 | after two rounds the candidate is the floor root or one more |
| FixedPoint.RoundThree | crates/mazze_math/src/lib.rs:37-41 | a third round, when there is one, reaches the floor root |
| FixedPoint.FirstSquare | crates/mazze_math/src/lib.rs:39-40 | the first product leaves 256 bits exactly from a fixed top word on |
| FractionalPower.BaseInRange | crates/mazze_math/src/lib.rs:49-63 | after every round the value held stays in [1/2, 1] going down and in [1, 2) going up |
| FractionalPower.ErrorBound | crates/mazze_math/src/lib.rs:46-67 | after k rounds, the value held and the same plus four units of 2^-127, raised to 2^k, bracket 2 to the low k bits of the ratio, up or down |
| FractionalPower.FinalShift | crates/mazze_math/src/lib.rs:64-66 | the final shift keeps the bracket, widened by one unit of the requested precision |
| OverflowThreshold.OverflowsIff | crates/mazze_math/src/lib.rs:52-63 | going up, round k overflows exactly when the ratio shifted left by 63-k in 64 bits comes within 0x171547653 of 2^64 |
| OverflowThreshold.Monotone | crates/mazze_math/src/lib.rs:52-63 | the value held is monotone in the bits of the ratio read so far |
| PowerTwo.PowerTwoFractional | crates/mazze_math/src/lib.rs:46-67 | fails exactly when going up on a ratio some left shift of which is near 2^64, and otherwise approximates the power of two for every precision up to 127 |
| PowerTwo.Round | crates/mazze_math/src/lib.rs:52-63 | one round is one step of the recurrence, or overflows where the threshold says |
| PowerTwo.AllOnesIsNearTop | crates/mazze_math/src/lib.rs:46-67 | a concrete ratio on which going up overflows |
| ConvertBits.Convert | crates/mazze_addr/src/lib.rs:287-329 | the accumulator loops compute the regrouping of the bit string, with its padding error, for every width from 1 to 8, and sixteen bits are enough |
| ConvertBits.Extract | crates/mazze_addr/src/lib.rs:301-308 | the inner loop takes whole output symbols and keeps symbols plus accumulator equal to the bits read |
| ConvertBits.PaddedKeepsBits | crates/mazze_addr/src/lib.rs:287-329 | padded output is the input bits followed by fewer than one symbol of zeros |
| ConvertBits.UnpaddedKeepsBits | crates/mazze_addr/src/lib.rs:287-329 | unpadded output succeeds exactly when fewer than one input symbol of bits is left over and all are zero, and then loses only those |
| ConvertBits.RegroupBack | crates/mazze_addr/src/lib.rs:287-329 | regrouping down with padding and back without gives the data again |
| ConvertBits.RegroupUnique | crates/mazze_addr/src/lib.rs:287-329 | symbols accepted without padding are the ones padded regrouping of their bytes gives |
| Checksum.ComputePolymod | crates/mazze_addr/src/checksum.rs:9-31 | the loop folds the step over the symbols |
| Checksum.Update | crates/mazze_addr/src/checksum.rs:12-28 | the conditional additions are the linear step of the register |
| Checksum.StepKernel | crates/mazze_addr/src/checksum.rs:12-28 | only the zero register steps to zero, because each generator has its own low bit |
| Checksum.ChecksumUnique | crates/mazze_addr/src/checksum.rs:9-31 | eight appended symbols give zero exactly when they are the checksum the encoder appends |
| Checksum.BurstChangesChecksum | crates/mazze_addr/src/checksum.rs:9-31 | sequences that differ only inside a window of eight symbols never have the same checksum |
| ChecksumField.RowIsGenerator | crates/mazze_addr/src/checksum.rs:14-28 | the five constants are the coefficients 19, 3, 25, 11, 25, 3, 19, 1 times the five powers of x, in the field of 32 elements with x^5 = x^3 + 1 |
| ChecksumField.StepSymbol | crates/mazze_addr/src/checksum.rs:12-28 | in that field, symbol j after a step is the next symbol before it, or the one fed in, plus coefficient j times the symbol shifted out |
| ChecksumField.FoldReduces | crates/mazze_addr/src/checksum.rs:9-31 | feeding symbols in reduces the polynomial that they make with the register by the generator |
| ChecksumField.RemainderIff | crates/mazze_addr/src/checksum.rs:9-31 | the remainder of division by the generator exists and is the only one of degree below eight |
| ChecksumField.PolymodIsRemainder | crates/mazze_addr/src/checksum.rs:9-31 | the checksum plus one is the remainder of the symbols, with a one in front, divided by the generator of the CashAddr checksum |
| Address.SymbolCharIsCharset | crates/mazze_addr/src/lib.rs:26-38 | the characters are the charset in order |
| Address.CharIndex | crates/mazze_addr/src/lib.rs:40-53 | the index table inverts the charset in either case and rejects everything else |
| Address.ParsePrintedSymbols | crates/mazze_addr/src/lib.rs:191-203 | parsing undoes printing |
| Address.PrintParsedSymbols | crates/mazze_addr/src/lib.rs:191-203 | printing undoes parsing of lower-case text |
| Address.FromPrinted | crates/mazze_addr/src/consts.rs:80-124 | every prefix printed for a network is read back as that network |
| AddressOptions.ScanOptions | crates/mazze_addr/src/lib.rs:165-178 | the loop returns the first option that is not a key and a value, and when there is none the type of the last option whose key is `type`, or no type when no option gives one |
| AddressOptions.DescribesOne | crates/mazze_addr/src/lib.rs:165-178 | that description leaves only one result |
| AddressOptions.PairIff | crates/mazze_addr/src/lib.rs:167-173 | an option parses exactly when it is two texts without dots with a dot between them |
| AddressOptions.GivesTypeIff | crates/mazze_addr/src/lib.rs:174-177 | an option gives a type exactly when it is `type.` and a name without a dot |
| AddressCodec.DecodeEncoded | crates/mazze_addr/src/lib.rs:76-272 | encoding succeeds exactly for the eight sizes and printable networks, and decoding its output, plain or upper-cased with a type, gives the same bytes and network |
| AddressCodec.DecodesIff | crates/mazze_addr/src/lib.rs:145-272 | a text decodes to given bytes and network exactly when it is not of mixed case, its prefix is accepted, its options parse and agree with the type, and its payload is the one printed for the bytes |
| AddressCodec.EncodeDecoded | crates/mazze_addr/src/lib.rs:145-272 | an accepted text is what plain encoding prints exactly when it is lower-case, has no options and starts with a prefix that is printed for the network it is read as |
| AddressLimits.TyposRejected | crates/mazze_addr/src/lib.rs:205-213 | an address that decodes, changed inside eight consecutive payload characters to other payload characters, in any letter case, fails its checksum |
| AddressLimits.PanicsIff | crates/mazze_addr/src/lib.rs:145-221 | a text sends decoding out of range exactly when it is not of mixed case, its prefix is accepted, its options parse, and its payload has one to eight payload characters and a good checksum |
| AddressLimits.ChecksumAlonePanics | crates/mazze_addr/src/lib.rs:215-221 | for every network, the prefix with the checksum of nothing is such a text |
| AddressLimits.LeadingZeroAccepted | crates/mazze_addr/src/consts.rs:94-124 | bytes of every allowed size have a text that decodes to them and is not what encoding prints for them |
| AddressForms.QrNamesType | crates/mazze_addr/src/consts.rs:148-173 | the second piece of the form for codes says user, contract, null, builtin or unknown exactly as the first byte and the zero test of the bytes do |
| AddressForms.TypedDecodesIff | crates/mazze_addr/src/lib.rs:245-264 | a 20-byte address with a type option decodes exactly when its bytes are of that type, and otherwise reports both types |
| AddressForms.VersionLengths | crates/mazze_addr/src/lib.rs:81-93 | version v stands for (20 + 4(v mod 4)) bytes, doubled from four on, and other lengths have none |
| AddressForms.EncodedLayout | crates/mazze_addr/src/lib.rs:76-143 | a printed address is the prefix of its network, a colon, and symbols whose bits are the version, the bytes, zeros to fill the last symbol, and eight symbols that make the whole, with its prefix, one modulo the generator |
| AddressForms.OtherPrefixRejected | crates/mazze_addr/src/lib.rs:278-282 | what is printed for one prefix fails its checksum after another of the same length whose low five bits differ inside eight consecutive characters |
| AddressForms.HeadErrors | crates/mazze_addr/src/lib.rs:149-178 | mixed case and a missing prefix are each reported exactly when they occur, and an unknown prefix and the first bad option only in their turn |
| AddressForms.PayloadErrors | crates/mazze_addr/src/lib.rs:180-213 | the character reported is the first that is no payload character, and the checksum is reported exactly when it alone is wrong so far |
| AddressForms.VersionDecides | crates/mazze_addr/src/lib.rs:215-243 | any version byte with any bytes and a good checksum is rejected for the length, then for the version, exactly when they are wrong, and decodes otherwise |
| TaskChannelSafety.CountKept | crates/mazze_utils/src/cancellable_task_channel.rs:68-304 | every step keeps: queue length is the true tokens plus the sends before their token, and one more between token and pop |
| TaskChannelSafety.StepKeeps | crates/mazze_utils/src/cancellable_task_channel.rs:63-348 | every enabled step keeps the invariant on tokens, log, waits and condition variables |
| TaskChannelSafety.RunKeeps | crates/mazze_utils/src/cancellable_task_channel.rs:63-348 | the invariant holds at every point of every interleaving |
| TaskChannelSafety.NeverSpins | crates/mazze_utils/src/cancellable_task_channel.rs:281-287 | in no interleaving is the queue empty once a token was taken |
| TaskChannelSafety.LockedWaitEnds | crates/mazze_utils/src/cancellable_task_channel.rs:235-265 | when the receiver blocks with the locks held, a token is there or a sender is about to give one without a lock |
| TaskChannelSafety.WaitKept | crates/mazze_utils/src/cancellable_task_channel.rs:80-206 | every step keeps pending keys distinct, different from the current key, and backed by a task in the queue |
| TaskChannelSafety.ReturnsOldest | crates/mazze_utils/src/cancellable_task_channel.rs:267-304 | a task returned is the oldest one pushed that was neither returned nor cancelled |
| TaskChannelSafety.CancelledNeverReturned | crates/mazze_utils/src/cancellable_task_channel.rs:184-304 | a task cancelled while queued is never returned later in the run |
| TaskChannelSafety.RefinesSimpleQueue | crates/mazze_utils/src/cancellable_task_channel.rs:63-304 | every step is a step of a queue of tasks in which cancelling filters by key |
| TaskChannelSafety.CrashesIff | crates/mazze_utils/src/cancellable_task_channel.rs:326-339 | a receive goes out of bounds exactly when the wait of its task is not the last pending one |
| TaskChannelSafety.CrashReached | crates/mazze_utils/src/cancellable_task_channel.rs:326-339 | a run from the new channel reaches such a receive |
| TaskChannelWaits.HandsOutOwn | crates/mazze_utils/src/cancellable_task_channel.rs:120-167 | in every run, a condition variable handed out is registered under the key asked for, and none is handed out exactly when the key is not current, has no wait and has no task in the queue |
| TaskChannelWaits.SameHandedOut | crates/mazze_utils/src/cancellable_task_channel.rs:120-167 | whoever asks for a key again while its variable is registered gets the same one |
| TaskChannelWaits.PendingMoves | crates/mazze_utils/src/cancellable_task_channel.rs:80-206 | a pending waiter is notified by cancelling its key, becomes current when a task of its key is received, and stays pending under its key through every other step |
| TaskChannelWaits.CurrentMoves | crates/mazze_utils/src/cancellable_task_channel.rs:244-302 | the current waiter is notified when the next task is received or none is left and the receiver blocks, and not earlier |
| TaskChannelWaits.RemoveForgets | crates/mazze_utils/src/cancellable_task_channel.rs:80-117 | cancelling leaves nothing registered under its key and everything registered under others |
| TaskChannelWaits.CallEndsIff | crates/mazze_utils/src/cancellable_task_channel.rs:227-304 | a call to receive ends exactly with a task, with the token of a stop, or without a token when it may not wait |
| TaskChannelWaits.CallGoesOn | crates/mazze_utils/src/cancellable_task_channel.rs:235-304 | a call that may not wait never blocks, and the locks are taken only at its start and after waiting without them |
| TaskChannelWaits.CurrentIsLastReturned | crates/mazze_utils/src/cancellable_task_channel.rs:293-300 | in every run the current key is that of the task returned last |
| TaskChannelWaits.WaiterNeverLost | crates/mazze_utils/src/cancellable_task_channel.rs:120-206 | ever after, a condition variable handed out is pending under the key asked for and no other, waiting for the task in use, or notified, and only one of these |
| TaskChannelWaits.CancelNotifies | crates/mazze_utils/src/cancellable_task_channel.rs:171-205 | a waiter pending when its key is cancelled is notified by that step, for good |
| TaskChannelWaits.NotifiedWhenDone | crates/mazze_utils/src/cancellable_task_channel.rs:171-304 | a waiter is notified only by a step that cancels its task or ends it after it was received |
| TaskChannelObject.CancellableTaskChannel.Push | crates/mazze_utils/src/cancellable_task_channel.rs:68-69 | the whole new state is the push step |
| TaskChannelObject.CancellableTaskChannel.Notify | crates/mazze_utils/src/cancellable_task_channel.rs:70-71 | the whole new state is the notify step |
| TaskChannelObject.CancellableTaskChannel.RemovePending | crates/mazze_utils/src/cancellable_task_channel.rs:185-205 | exactly the matching tasks are blanked, and their waiters are woken when asked and found |
| TaskChannelObject.CancellableTaskChannel.NotifyPendingTaskWaits | crates/mazze_utils/src/cancellable_task_channel.rs:171-182 | the waits for the key are dropped in order and exactly their variables notified |
| TaskChannelObject.CancellableTaskChannel.Remove | crates/mazze_utils/src/cancellable_task_channel.rs:80-117 | the whole new state is the remove step, and the result tells whether the key was current |
| TaskChannelObject.CancellableTaskChannel.WaitFor | crates/mazze_utils/src/cancellable_task_channel.rs:120-167 | the whole new state is the wait step, and the result is its condition variable |
| TaskChannelObject.CancellableTaskChannel.ClonePendingTaskWait | crates/mazze_utils/src/cancellable_task_channel.rs:341-348 | the first pending wait for the key |
| TaskChannelObject.CancellableTaskChannel.SetCurrentTask | crates/mazze_utils/src/cancellable_task_channel.rs:326-339 | notifies the previous waiters and moves the wait of the key, unless the scan goes out of bounds |
| TaskChannelObject.CancellableTaskChannel.TryToken | crates/mazze_utils/src/cancellable_task_channel.rs:240-264 | the whole new state is the step at the head of the loop, for both kinds of receive, up to the point where one blocks |
| TaskChannelObject.CancellableTaskChannel.TakeToken | crates/mazze_utils/src/cancellable_task_channel.rs:227-233 | the whole new state is the step in which a blocked receive gets its token |
| TaskChannelObject.CancellableTaskChannel.Pop | crates/mazze_utils/src/cancellable_task_channel.rs:281-302 | for both kinds of receive the whole new state is the pop step, or the scan goes out of bounds |
| TaskChannelObject.CancellableTaskChannel.TryRecv | crates/mazze_utils/src/cancellable_task_channel.rs:209-304 | returns the first task that is not cancelled and makes it current exactly when there are more tokens than cancelled tasks before it; otherwise it ends empty or stopped, as the tokens end, and loses no task |
| NodeTable.NodeTable.AddToLevel | crates/network/src/node_table.rs:614-621 | appends to a level and adds the node to the map |
| NodeTable.NodeTable.RemoveFromLevel | crates/network/src/node_table.rs:582-612 | swap-removal takes exactly one node out of the map, keeps the index exact, and refuses positions outside the table |
| NodeTable.NodeTable.RemoveWithId | crates/network/src/node_table.rs:744-753 | removes the node from the map and returns it |
| NodeTable.NodeTable.AddNode | crates/network/src/node_table.rs:547-576 | the plain-map insertion, with the last contact kept when asked |
| NodeTable.NodeTable.UpdateLastContact | crates/network/src/node_table.rs:515-544 | only contact and endpoint of a known node change, and an unknown node is added |
| NodeTable.NodeTable.NoteUnsuccessContact | crates/network/src/node_table.rs:756-791 | the plain-map update; a demoted node stays demoted |
| NodeTable.NodeTable.NoteSuccess | crates/network/src/node_table.rs:794-837 | the plain-map update; a demoted node stays demoted |
| NodeTable.NodeTable.Get | crates/network/src/node_table.rs:730-737 | lookup through the index is lookup in the map |
| NodeTable.SwapSlots | crates/network/src/node_table.rs:582-612 | after a swap-removal every slot is indexed where it sits and in the level of its contact |
| NodeTable.SwapPoints | crates/network/src/node_table.rs:582-612 | after a swap-removal every index entry points at its node, and the map lost exactly one id |
| NodeTable.AddsOne | crates/network/src/node_table.rs:547-576 | a node added is found as given, with the last contact of the node known before when that is asked for, and no other node changes |
| NodeTable.UpdatesContact | crates/network/src/node_table.rs:515-544 | connection, token and tags of a known node are kept |
| NodeTable.SuccessKeepsToken | crates/network/src/node_table.rs:794-837 | only the node named changes, its token only when a connection brings one, and a demoted node keeps its contact |
| NodeTable.UnsuccessKeepsToken | crates/network/src/node_table.rs:756-791 | only the node named changes, its token is kept, and a demoted node stays demoted |
| NodeOrder.LevelNodes | crates/network/src/node_table.rs:416-427 | a level holds exactly the nodes of the map whose last contact is of its class, each once |
| NodeOrder.OrderedEntries | crates/network/src/node_table.rs:633-683 | lists each node that is neither useless nor demoted once: successes newest first, then unknown, then failures oldest first |
| NodeDatabase.StepKeepsDisjoint | crates/network/src/node_database.rs:133-612 | every operation keeps the three tables disjoint, whatever the limiter answers and evicts |
| NodeDatabase.StepKeepsKeyed | crates/network/src/node_database.rs:133-612 | every operation keeps nodes filed under their own ids |
| NodeDatabase.RunKeepsSound | crates/network/src/node_database.rs:133-612 | every sequence of operations keeps the tables disjoint and the nodes filed under their own ids |
| NodeDatabase.EvaluatedShrinks | crates/network/src/node_database.rs:587-612 | evaluation only takes nodes out, and a node whose time is over is not blacklisted afterwards |
| NodeDatabaseLaws.OthersStay | crates/network/src/node_database.rs:133-612 | an operation leaves every node as it is but its own and the one the limiter names |
| NodeDatabaseLaws.EvictedIff | crates/network/src/node_database.rs:133-276 | the node named is evicted exactly when the operation gets that far |
| NodeDatabaseLaws.BlacklistsKnown | crates/network/src/node_database.rs:570-582 | a known node moves to the blacklist with the failure noted, an unknown one stays unknown |
| NodeDatabaseLaws.ExpiresIff | crates/network/src/node_database.rs:587-612 | a node leaves the blacklist exactly when it has no last contact or one more than seven days old |
| NodeDatabaseLaws.DemotesTrusted | crates/network/src/node_database.rs:438-450 | exactly a trusted node moves, as it is, to the untrusted ones |
| NodeDatabaseLaws.PromotesIff | crates/network/src/node_database.rs:406-435 | exactly an untrusted node that has been connected for longer than is due moves to the trusted ones |
| NodeDatabaseLaws.RemovesOne | crates/network/src/node_database.rs:453-466 | the node is in no table afterwards |
| NodeDatabaseLaws.InsertsWithToken | crates/network/src/node_database.rs:133-184 | where the node inserted is found and with what, for every place it was in and every answer of the limiter |
| NodeDatabaseLaws.InsertsWithPromotion | crates/network/src/node_database.rs:189-243 | the same for the insertion that promotes; a demoted node is not promoted |
| NodeDatabaseLaws.InsertsTrusted | crates/network/src/node_database.rs:247-276 | the same for the insertion of a trusted node |
| NodeDatabaseLaws.NotesContact | crates/network/src/node_database.rs:279-317 | a note leaves the node in its table with the contact noted, unless it was demoted and the contact does not demote it |
| NodeDatabaseLaws.NotesConnection | crates/network/src/node_database.rs:279-317 | the last connection and the token change only with a connection |
| NodeDatabaseLaws.NotesTag | crates/network/src/node_database.rs:523-534 | only a tag changes the tags, and only of a node that is not blacklisted |
| NodeDatabaseLaws.StaysDemoted | crates/network/src/node_database.rs:279-317 | in every run in which only contacts and tags of it are noted, a demoted node stays demoted |
| NodeDatabaseLaws.BarredForSevenDays | crates/network/src/node_database.rs:570-612 | for seven days after its last contact a blacklisted node stays so, as it is, through every sequence of operations that neither removes nor evicts it |
| NodeDatabaseLaws.SevenDaysFrom | crates/network/src/node_database.rs:570-582 | the seven days start with the blacklisting, or for a demoted node with its demotion |
| NodeDatabaseLaws.LetInAgain | crates/network/src/node_database.rs:247-276 | a blacklisted node that the limiter lets in is trusted again exactly when its time is over |
| NodeDatabaseObject.Database.InsertWithToken | crates/network/src/node_database.rs:133-164 | the new tables are those of the plain-map operation |
| NodeDatabaseObject.Database.InsertIpLimit | crates/network/src/node_database.rs:166-184 | evicts the node the limiter names, and tells whether the insertion may go on |
| NodeDatabaseObject.Database.InsertWithConditionalPromotion | crates/network/src/node_database.rs:189-220 | the new tables are those of the plain-map operation |
| NodeDatabaseObject.Database.PromoteWithUntrusted | crates/network/src/node_database.rs:222-243 | takes the node out of the untrusted table unless it was the one evicted |
| NodeDatabaseObject.Database.InsertTrusted | crates/network/src/node_database.rs:247-276 | the new tables are those of the plain-map operation |
| NodeDatabaseObject.Database.NoteFailure | crates/network/src/node_database.rs:279-295 | the new tables are those of the plain-map operation |
| NodeDatabaseObject.Database.NoteDemoted | crates/network/src/node_database.rs:298-305 | the new tables are those of the plain-map operation |
| NodeDatabaseObject.Database.NoteSuccess | crates/network/src/node_database.rs:308-317 | the new tables are those of the plain-map operation |
| NodeDatabaseObject.Database.Promote | crates/network/src/node_database.rs:406-435 | the loop is the run of one promotion for each id |
| NodeDatabaseObject.Database.Demote | crates/network/src/node_database.rs:438-450 | the new tables are those of the plain-map operation |
| NodeDatabaseObject.Database.Remove | crates/network/src/node_database.rs:453-466 | removes from the first table that has the node and returns it |
| NodeDatabaseObject.Database.SetTag | crates/network/src/node_database.rs:523-534 | only the tags of the node change |
| NodeDatabaseObject.Database.SetBlacklisted | crates/network/src/node_database.rs:570-582 | the new tables are those of the plain-map operation |
| NodeDatabaseObject.Database.EvaluateBlacklisted | crates/network/src/node_database.rs:587-612 | a blacklisted node stays so for seven days after a known contact and is dropped otherwise |
| NodeDatabaseObject.Database.PerformAll | crates/network/src/node_database.rs:133-612 | any sequence of operations on the object is the run on plain maps and leaves its three tables disjoint |
| SessionTags.SessionTagIndex.Add | crates/network/src/session_manager.rs:345-369 | sets one tag of one session and keeps the two maps exact inverses; neither assertion can fail |
| SessionTags.SessionTagIndex.RemoveWithTag | crates/network/src/session_manager.rs:323-343 | takes exactly one session out of one tag, and leaves nothing empty behind |
| SessionTags.SessionTagIndex.Remove | crates/network/src/session_manager.rs:313-321 | drops every tag of a session and keeps the two maps exact inverses; the assertion cannot fail |
| SessionTags.SessionTagIndex.CountWithTag | crates/network/src/session_manager.rs:371-379 | the number of sessions that have the tag |
| SessionTags.InverseUnique | crates/network/src/session_manager.rs:305-310 | the map by session determines the map by tag |
| Sessions.StepKeepsIff | crates/network/src/session_manager.rs:147-302 | an operation keeps the ingress count exact and within its maximum and every index entry leading to a live session with that id, exactly when its handle is not stale and its id is that of the session; only a repeated HELLO stops |
| Sessions.RunKeeps | crates/network/src/session_manager.rs:147-302 | every sequence of such operations keeps both |
| Sessions.RemoveKeepsIff | crates/network/src/session_manager.rs:234-263 | removing a session by a handle, stale or not, keeps count and index exactly when the handle tells the direction of the session and its indexed id |
| Sessions.HelloKeepsIff | crates/network/src/session_manager.rs:269-302 | indexing a session under an id keeps the index exactly when it is the id of the session |
| Sessions.CreateErrors | crates/network/src/session_manager.rs:147-231 | which limit a new session is refused for: the first one that it meets |
| Sessions.CreatesOne | crates/network/src/session_manager.rs:147-231 | the session created is found at its token and, when its node is known, under its id |
| Sessions.LearnsId | crates/network/src/session.rs:221-231 | a session learns its id once, and nothing else changes |
| Sessions.HelloIndexes | crates/network/src/session_manager.rs:269-302 | the session is indexed under the id it tells |
| Sessions.RemovesOne | crates/network/src/session_manager.rs:234-263 | a session removed by a handle that agrees is gone with its tags and index entry, and other entries stay |
| Sessions.OthersStay | crates/network/src/session_manager.rs:97-302 | sessions and tags at other tokens and index entries of other ids stay |
| Sessions.TagsLiveIff | crates/network/src/session_manager.rs:97-102 | an operation keeps the tags to live sessions exactly when it does not tag another token |
| Sessions.RunKeepsTagsLive | crates/network/src/session_manager.rs:97-263 | in every run that tags only live sessions, every tagged session is live |
| Sessions.SessionManager.Create | crates/network/src/session_manager.rs:147-231 | the checks in their order, and the whole new state |
| Sessions.SessionManager.Remove | crates/network/src/session_manager.rs:234-263 | the whole new state for any handle, with the counter wrapping around, and a valid object when the handle agrees |
| Sessions.SessionManager.UpdateIngressNodeId | crates/network/src/session_manager.rs:269-302 | for any id the whole new state and the other live session of that node that has to go, and a valid object exactly when the id is that of the session |
| Sessions.SessionManager.GetById | crates/network/src/session_manager.rs:82-86 | an indexed node always has a live session, and it has that id |
| Framing.DefaultIsValid | crates/network/src/connection.rs:527-531 | the default assembler meets what the constructor asserts |
| Framing.Assemble | crates/network/src/connection.rs:539-561 | in place, the frame is the length and the packet with its head swapped to its tail; only a packet that is too long is refused, unchanged |
| Framing.Load | crates/network/src/connection.rs:563-593 | the packet and rest of the buffer as the frame size in it says |
| Framing.LoadedIff | crates/network/src/connection.rs:539-593 | a packet is loaded, leaving a rest, exactly when the buffer is its frame followed by the rest |
| Framing.LittleEndianBack | crates/network/src/connection.rs:551-553 | the length bytes are read back as the length |
| Framing.LittleEndianDigit | crates/network/src/connection.rs:551-553 | byte i of the length is its digit of weight 256^i |
| Framing.FrameLayout | crates/network/src/connection.rs:539-561 | where every byte of the packet and of its length is on the wire |
| Throttling.Service.Initialize | crates/network/src/throttling.rs:83-108 | sets the thresholds in bytes and nothing else |
| Throttling.Service.OnEnqueue | crates/network/src/throttling.rs:112-141 | counts the data unless it would exceed the capacity, and then changes nothing |
| Throttling.Service.OnDequeue | crates/network/src/throttling.rs:145-172 | takes the data out of the counters, or resets them |
| Throttling.DequeuedSaturates | crates/network/src/throttling.rs:145-172 | the queue size goes down by the data but not below zero, and stays the sum of its two parts |
| Connection.Connection.Send | crates/network/src/connection.rs:335-372 | queues the packet under its priority and counts it, or reports why not and changes nothing |
| Connection.Connection.PopFront | crates/util/priority-send-queue/src/lib.rs:37-54 | takes the oldest packet of the highest priority that has one |
| Connection.Connection.WriteNextFromQueue | crates/network/src/connection.rs:269-318 | the whole new state, counters and bytes written, whatever the socket accepts |
| Connection.Connection.Readable | crates/network/src/connection.rs:195-241 | takes in everything up to the end of the data, then loads at most one packet; a failure keeps what was taken in |
| Egress.DropAllSubtracts | crates/network/src/throttling.rs:145-172 | dropping live packets subtracts exactly their sizes, and the reset is not taken |
| Egress.DropAccounted | crates/network/src/connection.rs:152-157 | dropping the packet being sent is accounted for, and the reset is not taken |
| Egress.WriteNextAccounted | crates/network/src/connection.rs:269-318 | a write changes the counters exactly as it changes the live packets |
| Egress.StepBalanced | crates/network/src/throttling.rs:112-172 | every event keeps: high and low counters are the sizes of the live packets of all connections, their sum is the queue size, and it is within the capacity |
| Delivery.WriteNextUnsent | crates/network/src/connection.rs:269-318 | the bytes written and still to be written are those there were and the frame of a packet newly popped |
| Delivery.LoadFirst | crates/network/src/connection.rs:563-593 | what is loaded from a stream of frames is the first packet, and the stream of the others is left |
| Delivery.LoadAllFrames | crates/network/src/connection.rs:563-593 | loading until nothing is left gives back the packets of a stream |
| Delivery.WriteKeepsStream | crates/network/src/connection.rs:269-318 | a write of any portion keeps the stream the frames of the packets popped |
| Delivery.ReadKeepsStream | crates/network/src/connection.rs:195-241 | a read in any portions keeps what was received a prefix of the packets popped |
| Delivery.WriteKeepsOrder | crates/util/priority-send-queue/src/lib.rs:37-54 | each priority is popped in the order it was sent |
| Delivery.WritePopsHighest | crates/util/priority-send-queue/src/lib.rs:37-54 | a write pops at most one packet, none while one of a higher priority waits, and none at all only when nothing waits or one is being sent |
| Delivery.RunPopsInOrder | crates/util/priority-send-queue/src/lib.rs:37-54 | so does every event of every run, and it changes no link but the one it names |
| Delivery.SendLogsIff | crates/network/src/connection.rs:335-372 | a packet is accepted exactly when it has data, is not too long and fits in with the packets of all connections, and each error is reported exactly when it applies |
| Delivery.WriteProgress | crates/network/src/connection.rs:269-318 | a write puts on the wire as much as the socket takes of the rest of the packet and of the next frame |
| Delivery.WriteCompleteIff | crates/network/src/connection.rs:269-318 | a write is complete exactly when the socket takes everything, and ongoing otherwise |
| Delivery.TakesInUpTo | crates/network/src/connection.rs:195-241 | all data up to the first end of the data is taken in, through interruptions, and only a failure fails |
| Delivery.ReadLoadsIff | crates/network/src/connection.rs:195-241 | a read that does not fail loads the packet whose frame the buffer starts with, and one that fails loads nothing |
| Delivery.ConfiguresIff | crates/network/src/throttling.rs:83-108 | limits are taken, in decimal megabytes, exactly when they are in order and what is queued fits |
| Delivery.RunKeepsRange | crates/network/src/throttling.rs:83-108 | in every run the limits are in order and the capacity fits in 64 bits |
| Delivery.StepKeeps | crates/network/src/connection.rs:195-372 | every event keeps accounts, streams and order of every connection |
| Delivery.EveryRunDelivers | crates/network/src/connection.rs:137-372 | in every run the counters are exact, each receiver has a prefix of the packets popped, byte for byte and in order, each priority is first in first out, no packet is popped while one of a higher priority waits, and once every byte has arrived the buffer holds exactly the packets still to be loaded |
| Delivery.EveryRunCompletes | crates/network/src/connection.rs:195-241 | whenever every byte of a connection has arrived, enough further reads continue the run to where exactly the packets popped have been received |
| Phrases.PhrasesIterator.constructor | crates/mazze_key/src/brain_recover.rs:97-109 | the number of combinations is the product, and the first vector is all zeros |
| Phrases.PhrasesIterator.Current | crates/mazze_key/src/brain_recover.rs:115-122 | the chosen words joined by spaces |
| Phrases.PhraseSplits | crates/mazze_key/src/brain_recover.rs:115-122 | words without spaces are told from the phrase: split at its spaces, it is the words chosen, in order |
| Phrases.PhrasesIterator.NextIndex | crates/mazze_key/src/brain_recover.rs:124-137 | the carry loop computes the successor vector and whether there is one |
| Phrases.PhrasesIterator.Next | crates/mazze_key/src/brain_recover.rs:143-151 | yields the current phrase and moves on, or yields nothing and stays |
| Phrases.SuccessorAddsOne | crates/mazze_key/src/brain_recover.rs:124-137 | the successor adds one to the mixed-radix value, and there is none exactly after the last vector |
| Phrases.RankOrder | crates/mazze_key/src/brain_recover.rs:124-137 | the mixed-radix value is the position in lexicographic order |
| Phrases.CallYieldsRank | crates/mazze_key/src/brain_recover.rs:143-151 | call k yields the vector of value k, for as many calls as the product and never after |
| Phrases.VisitsEachOnce | crates/mazze_key/src/brain_recover.rs:97-151 | every vector is visited at exactly one call, vectors come in lexicographic order, and after the product of calls nothing comes |

## Left out

- Sockets, event registration, timers, UPnP, UDP discovery and the service event loop: what they deliver enters as arguments (bytes read, room to write, verdicts).
- secp256k1, keccak, HMAC, AES, ECIES, RandomX and blake3: foreign primitives.
- RLP, JSON files, configuration, RPC servers and command-line tools: encoding of fields and plumbing.
- Consensus, storage and transaction pool: outside the components modelled.
- Throttling.Service.Initialize: the size of a megabyte is that of the `byte-unit` crate, which is not part of this model; it is taken as decimal.
- The node and session address limiters: any answer and any eviction is allowed, and their own assertions are not modelled.
- The tag index of the node database and the loading of its tables at start.
- Wall-clock readings and random choices: arbitrary arguments.
- `write_raw_data`, `check_throttling` and `get_throttling_ratio`: a best-effort write and two plain reads.
- Disconnection of the task channel's other side: every step assumes both ends exist.
- TaskChannelObject.CancellableTaskChannel.TryRecv: there is no such method for the blocking receive, which waits for other threads; its steps are methods and its runs are those of the state machine.
- Checksum.ComputePolymod: the 64-bit register is a string of its 40 bits, and the five conditional additions are a loop over the five generators.
- AddressCodec.DecodesIff: ASCII text only, because letter case outside ASCII needs tables.
- The second mixed-case test in `mazze_addr_decode`: it looks at text already in lower case and cannot succeed.
- Egress.StepBalanced: an `initialize` that would stop the program changes nothing in the model, since nothing follows it.
- Phrases.PhrasesIterator.Next: the empty table, on which the source goes out of range, is excluded, and so are products beyond 64 bits, on which its constructor stops.
