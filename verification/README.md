# Gensokyo-kook: a verification model

The repository is a bridge between the KOOK chat platform and OneBot v11 applications. This project models its
stateful parts in Dafny and proves what they keep over whole runs. Verify it with
`dafny verify dfyconfig.toml`.

| file | part of the bridge |
|---|---|
| `Decimal.dfy`, `Text.dfy`, `Wrappers.dfy` | decimal notation, the string functions of Go's library, result types |
| `RowId.dfy`, `Bucket.dfy`, `IdMap.dfy`, `IdPairs.dfy`, `IdDatabase.dfy` | the id map: rows from hashes, the bucket, single ids, pairs, and the database with its transactions |
| `IdRename.dfy`, `IdTakenNames.dfy`, `KeyOrder.dfy`, `IdRuns.dfy`, `IdPairRuns.dfy`, `IdRunMethods.dfy` | renaming in every traversal order, the prefix scan, whole runs of all operations, and the methods that carry them out |
| `Mentions.dfy`, `MentionLaws.dfy`, `MentionRoundTrip.dfy`, `MentionCases.dfy` | mentions translated to CQ codes and back, on top of the id map |
| `MessageFilter.dfy` | white list, black list, visual prefixes and aliases |
| `ResendQueue.dfy`, `ResendTries.dfy`, `ResendGuards.dfy`, `WebSocketClient.dfy` | the resend queue of the reverse WebSocket client: interleaved steps, and the slices that realise them |
| `GatewaySession.dfy`, `StateSession.dfy` | the gateway session: its steps, and the object whose methods they are |
| `RateLimiter.dfy`, `ConfigText.dfy`, `JpegLadder.dfy`, `ShortUrls.dfy`, `EchoKeys.dfy` | upload limit, configuration completion, quality search, short URLs, echo keys |

Conventions. What the original changes in place is a class; each method is proved against a function on values,
and the properties are lemmas about those functions. MD5, SHA-256, the JPEG encoder, random draws, the clock and
the outcome of writes, dials and requests are arbitrary functions or parameters. A character stands for a code
point, and for a byte inside a stored row. Transactions commit all or nothing. Strings are not normalised.

## What the model brings out

- The session's timeout is never set, so it is 0, and with a timeout of 0 the retry state cannot be reached: a
  silent gateway is never noticed (`GatewaySession.RetryReachableExactly`).
- The diagram above the session's type draws an arrow from retry back to connected. The transition table has no
  such transition; the model follows the table, and `GatewaySession.ConnectedOnlyByDial` shows that the only way
  back is a new connection.
- After a reconnect frames go to a new queue that nobody reads (`GatewaySession.ReconnectEndsDelivery`), and are
  accepted all the same (`GatewaySession.FrameAfterReconnectIsLost`). `GatewaySession.DeliverableExactly` says which
  frames can be handed on.
- A sweep clears the queue without the mutex. If that falls inside a failing send, messages already written are
  queued and written again (`ResendGuards.ClearDuringAppendWritesTwice`, `ResendGuards.EndExactly`).
- A message that fails for the first time while a sweep runs is dropped at its end, unwritten, after one try
  (`ResendQueue.WhatASweepDrops`, `ResendGuards.FailureDuringSweepIsLost`).
- The white list of a special visual prefix lets the bare prefix through when it blocks
  (`MessageFilter.InnerBlockKeepsSpecialPrefix`, `MessageFilter.BlockedToolComesThrough`).
- A user moved to a negative row is not translated back (`MentionRoundTrip.MentionsReturnExactly`,
  `MentionCases.MovedBelowZero`).
- Pairs of ids and pairs of rows share their keys. A pair of rows handed in as ids is given rows that lead nowhere
  (`IdPairs.KnownPairExactly`, `IdPairRuns.RowsTakenForIds`), and a pair whose generated rows are taken silently
  takes over the earlier pair's reverse entry (`IdPairs.PairStoreInvolutiveExactly`, `IdPairRuns.CollidingPairs`).
- A template key after a vertical tab or a no-break space is read as a key but never found again, and the whole
  completion fails (`ConfigText.OddSpaceHidesKey`, `ConfigText.ExtractionSucceedsExactly`).
- Renaming onto names in use loses the pairs that held them (`IdTakenNames.TakenNamesExactly`), and what is stored
  can depend on the random order of a map (`IdTakenNames.OrderDecides`).

Guards that the original does not check and the run theorems need are spelled out in `IdRuns.Admissible`,
`IdRuns.CountedAdmissible`, `IdPairRuns.KeepsRowsApart` and `IdPairRuns.Numeric`. Ids are not empty, hold no colon
and avoid the bucket's own names (`row-...`, `currentRow`); rows are int64; a generated reverse key is free or
paired with itself; new names are free, or taken from whole pairs, or the old ones; and in counter mode no stored id has the
counter's next row, which holds of itself while rebinds go no higher than the counter. For the pair round trip,
moreover, either no renamed key is itself a pair of rows, or all pairs of ids are numbers. The operations themselves
are modelled without these guards. For each guard that is a matter of state there is an exact condition or a run
that breaks without it.

## Model

| member | source | states |
|---|---|---|
| `RowId.GenerateRowID` | idmap/service.go:58-89 | the digits of the hash in order, cut to the length and read as a number; too few digits, an empty cut and a value beyond int64 are errors |
| `RowId.DigitsInOrder` | idmap/service.go:65-71 | every digit of the hash is kept, at the place given by the number of digits before it, and nothing else is |
| `RowId.RowExactly` | idmap/service.go:72-86 | the row is the number that the first digits spell; with too few digits, or beyond int64, there is none |
| `RowId.RowBounds` | idmap/service.go:72-86 | a generated row of length L lies between 0 and 10^L and is an int64 |
| `RowId.RowExtends` | idmap/service.go:144-154 | the ten-digit fallback row divided by ten is the nine-digit row (any length and its successor) |
| `RowId.UsualLengthsFit` | idmap/service.go:72-86 | for lengths up to 18 generation fails only on a hash with too few digits |
| `RowId.CheckValue` | idmap/service.go:92-105 | true exactly when a row of the value's printed length can be generated and differs from the value |
| `RowId.ReboundExactly` | idmap/service.go:92-105 | a value of at most 18 digits counts as rebound if and only if the hash has as many digits and they do not start with the printed value |
| `RowId.GeneratedRowRecognised` | idmap/service.go:92-105 | a generated row is recognised as generated if and only if its first digit is non-zero or all its digits are zero |
| `Bucket.DecodeEncode` | idmap/service.go:161-162 | every int64 row, negative ones included, survives the eight-byte big-endian form |
| `Bucket.BigEndianBytes` | idmap/service.go:161-162 | the bytes of a stored row are the digits of the number in base 256, the most significant first |
| `Bucket.RowKeyInjective` | idmap/service.go:149-149 | different rows have different reverse keys |
| `IdDatabase.Database.AllocateByHash` | idmap/service.go:141-159 | the nine-digit row if its reverse key is free, else the ten-digit row if that one is, else an error |
| `IdDatabase.Database.StoreID` | idmap/service.go:118-179 | the transaction as a whole: the row already stored, or a new row written in both directions (and to the counter in counter mode); on any error the bucket is as before |
| `IdDatabase.Database.SimplifiedStoreID` | idmap/service.go:181-216 | allocates by hash and writes the reverse entry alone; on error nothing |
| `IdDatabase.Database.RetrieveRowByID` | idmap/service.go:396-412 | what the reverse entry of a row holds, or not found |
| `IdDatabase.Database.UpdateVirtualValue` | idmap/service.go:671-706 | moves the id at the old row to a free new row in both directions, or fails and changes nothing |
| `IdDatabase.Database.StoreIDPro` | idmap/service.go:261-304 | the rows of a stored pair as Sscanf reads them, or two nine-digit rows written in both directions |
| `IdDatabase.Database.RetrieveRowByIDPro` | idmap/service.go:462-487 | the two halves behind a pair of rows; not exactly two parts is an error |
| `IdDatabase.Database.UpdateVirtualValuePro` | idmap/service.go:1023-1056 | moves a pair to a free pair of rows, or fails and changes nothing |
| `IdDatabase.Database.Seek` | idmap/service.go:1131-1131 | the first key in cursor order at or after the prefix |
| `IdDatabase.Database.FindSubKeysById` | idmap/service.go:1120-1146 | finds exactly the colon-free x stored as id:x (none if the id has a colon), each once and in key order, although the scan stops at the first key without the prefix |
| `IdDatabase.Database.UpdateKeysWithNewID` | idmap/service.go:1149-1203 | the renaming loop in a given traversal order, committed only if every turn succeeds |
| `IdMap.BindKeepsConsistentExactly` | idmap/service.go:166-173 | writing both directions for a new id keeps every id's row pointing back at it if and only if no stored id has that row |
| `IdMap.StoreKeepsConsistent` | idmap/service.go:118-179 | storing by hash keeps the two-way invariant |
| `IdMap.HalfStoreKeepsConsistent` | idmap/service.go:181-216 | storing half keeps the two-way invariant |
| `IdMap.RebindKeepsConsistent` | idmap/service.go:671-706 | rebinding keeps the two-way invariant, whatever rows are named |
| `IdMap.RowsAreUnshared` | idmap/service.go:118-179 | in a consistent bucket two ids with the same row are the same id |
| `IdMap.RetrieveUndoesStore` | idmap/service.go:118-179 | looking up the row an id was given yields the id, and storing the id again yields the same row and writes nothing |
| `IdMap.RetrieveUndoesHalfStore` | idmap/service.go:181-216 | the row of a half-stored id leads back to it, and no forward entry is created |
| `IdMap.RebindMoves` | idmap/service.go:671-706 | after a rebind the new row finds the id, the old row finds nothing, and storing the id yields the new row |
| `IdMap.StoreFailsExactly` | idmap/service.go:141-159 | storing by hash fails if and only if the id is new and its hash is too short or both its rows are taken |
| `IdMap.HashStoreExactly` | idmap/service.go:141-159 | by hash a new id, stored or half stored, is given the number of its first nine digits if that row is free, else that of its first ten if that one is, else an error |
| `IdMap.StoreTouchesOnly` | idmap/service.go:161-173 | storing writes the entries of the id, of its row and, in counter mode, of the counter, and no others; an error writes nothing |
| `IdMap.HalfStoreTouchesOnly` | idmap/service.go:181-216 | half storing writes the entry of the row alone |
| `IdMap.RebindExactly` | idmap/service.go:671-706 | a rebind succeeds if and only if an id sits at the old row and the new row is free, says which of the two fails, and touches the two rows and the id only |
| `IdMap.CounterStore` | idmap/service.go:131-173 | in counter mode a new id gets the counter plus one, the counter moves there, the invariant holds and the row leads back to the id |
| `IdMap.CounterRebind` | idmap/service.go:671-706 | a rebind to a row not above the counter, be it negative, keeps the counter-mode invariant |
| `IdMap.CounterKeepsRowExactly` | idmap/service.go:166-173 | in counter mode the row of an id known by its reverse entry alone, as half storing leaves it, is lost to a new id if and only if it is the counter's next row |
| `IdMap.CounterStoreConsistentExactly` | idmap/service.go:131-173 | a counter allocation for a new id keeps the two-way invariant if and only if no stored id already has the next row |
| `IdPairs.ScanRowPair` | idmap/service.go:269-273 | a printed pair of int64 rows is read back whole |
| `IdPairs.ScanStopsHalfway` | idmap/service.go:269-273 | of a value that goes wrong after its first number, that number is kept and the second is 0 |
| `IdPairs.PairStoreInvolutiveExactly` | idmap/service.go:276-301 | storing a new pair keeps the pairing an involution if and only if the generated reverse key was free or paired with itself |
| `IdPairs.PairRebindKeepsInvolutive` | idmap/service.go:1023-1056 | rebinding a pair keeps the involution for all arguments |
| `IdPairs.RetrieveUndoesNewPair` | idmap/service.go:462-487 | the rows of a newly stored pair lead back to it if and only if neither id holds a colon, and otherwise the lookup is an error |
| `IdPairs.NewPairExactly` | idmap/service.go:276-301 | a new pair is given the numbers of the first nine digits of its two ids, in their order, and fails exactly when one has too few; nothing but its two entries is written |
| `IdPairs.PairRetrievedExactly` | idmap/service.go:462-487 | a lookup yields two colon-free halves if and only if the value is these halves with a colon between; a missing key and every other value are different errors |
| `IdPairs.PairRebindExactly` | idmap/service.go:1023-1056 | a pair is moved if and only if the old rows are there, the new ones are free and the value is not empty; every other entry is as before, and all of them after a failure |
| `IdPairs.PairRebindMoves` | idmap/service.go:1023-1056 | after a move the new rows lead to the pair, storing the pair gives them without a write, and the old rows are not found unless they were the pair itself |
| `IdPairs.KnownPairExactly` | idmap/service.go:261-304 | a pair known already is given the rows scanned from its value, without a write; they lead back to it if and only if neither id holds a colon and the value is a printed pair of rows |
| `IdRename.RenameSucceeds` | idmap/service.go:1149-1203 | with free new names and no pair under the id on both sides, every traversal order succeeds, renames id:x to newID:x as key and as partner, changes nothing else, and keeps the involution |
| `IdRename.RenamingUnique` | idmap/service.go:1173-1200 | there is only one such renaming, so the traversal order cannot matter |
| `IdRename.SharedHalvesAlwaysFail` | idmap/service.go:1173-1181 | if two different halves of a pair start with the id, every order fails and leaves the bucket as it was |
| `IdRename.RenameFailsExactly` | idmap/service.go:1173-1200 | given free new names the pairing stays an involution in every traversal order, and the operation fails if and only if two different halves of a pair start with the id; a key that is its own partner does no harm |
| `IdRename.RenameExactly` | idmap/service.go:1149-1203 | given free new names, the operation is the renaming if and only if no pair has both halves under the id |
| `IdRename.RenameToItself` | idmap/service.go:1149-1203 | renaming an id to itself succeeds and changes nothing |
| `IdRename.TakenNameBreaksPairing` | idmap/service.go:1183-1191 | why free names are needed: if a new name belongs to a pair no half of which is renamed or a new name, every traversal order that succeeds leaves no involution; with halves apart the operation does succeed |
| `IdTakenNames.TakenNamesExactly` | idmap/service.go:1149-1203 | for new names in use or not, as long as none is under the id or paired with a key under it: every order succeeds with the same bucket, pairs that lose a name are lost, and the pairing is still an involution if and only if they lose both names |
| `IdTakenNames.OrderDecides` | idmap/service.go:1163-1200 | and if a new name is paired with a key under the id: a bucket in which the traversal order decides what is stored, and no order leaves an involution |
| `KeyOrder.PrefixContiguous` | idmap/service.go:1131-1136 | a key between a prefix and a key with that prefix has the prefix, so such keys are contiguous |
| `KeyOrder.FirstDifferenceDecides` | idmap/service.go:1131-1131 | keys are ordered by their first difference, and a key comes before its extensions |
| `KeyOrder.SubKeysComplete` | idmap/service.go:1129-1136 | filtering the whole key list finds exactly the colon-free x with id:x present |
| `IdRuns.RunKeepsSound` | idmap/service.go:118-304 | over every run of storing, half storing, rebinding, pair storing, pair rebinding and renaming in any order, with rows by hash or by counter, each forward entry has its reverse entry and the pairs form an involution |
| `IdRunMethods.PerformAll` | idmap/service.go:118-1203 | any sequence of calls of the database's methods is such a run and keeps both invariants |
| `IdRuns.RunFromEmpty` | idmap/service.go:118-216 | after any such run from an empty bucket, storing then looking up returns the id, also after another store, and different ids have different rows |
| `IdRuns.RowIsStable` | idmap/service.go:124-129 | a stored id keeps its row over every run in which no rebind moves it |
| `IdRuns.CountedRun` | idmap/service.go:131-173 | over every counter-mode run of all six operations whose rebinds go no higher than the counter, the guards of counter allocations hold of themselves, both invariants hold and the counter has grown by the number of new ids |
| `IdRuns.NextNewIdGetsNextRow` | idmap/service.go:131-139 | the next new id after such a run gets the row after all those |
| `IdRuns.UnguardedMoveBreaksLookup` | idmap/service.go:671-706 | without the guard: store, rebind to counter plus one, store another id, and the first id's row finds the second id |
| `IdPairRuns.RetrieveUndoesPairStore` | idmap/service.go:261-304 | the rows given to a colon-free pair, new or known with a pair of rows as its value, lead back to it, and storing it again gives them again without a write |
| `IdPairRuns.PairRunFromEmpty` | idmap/service.go:261-304 | after any run from an empty bucket that keeps rows apart from ids, and while generated reverse keys are free, the rows given to a pair, stored in the run or not, lead back to it, also after another pair is stored, and different pairs have different rows |
| `IdPairRuns.NumericRunFromEmpty` | idmap/service.go:261-304 | the same when all pairs of ids are numbers and may look like rows |
| `IdPairRuns.RowsTakenForIds` | idmap/service.go:266-274 | without that: after one pair is stored its two rows, handed in as ids, are given the rows 0 and 0, and those are not found unless they are the same |
| `IdPairRuns.CollidingPairs` | idmap/service.go:276-301 | two pairs of ids with the same generated rows: the second takes over the reverse entry, and the rows the first is still given lead to the second |
| `Mentions.RewriteMentions` | handlers/message_parser.go:328-355 | translates the leftmost mentions one by one, storing each user on the way; text and bucket are those of the token-wise translation |
| `Mentions.RewriteToken` | handlers/message_parser.go:333-352 | one mention: nothing or the bot's number for the bot, the row for a stored user, the user's own number when storing fails |
| `MentionLaws.RenderUndoesScan` | handlers/message_parser.go:328-355 | scanning a text for mentions and printing the tokens gives the text back, stray fragments included |
| `MentionLaws.MatchRefExactly` | handlers/message_parser.go:328-328 | the pattern matches at the start of a text if and only if the text starts with the opening, a numeral and the closing, and then the numeral is unique |
| `MentionLaws.MentionIsRewritten` | handlers/message_parser.go:330-355 | a mention is translated to nothing or its own number for the bot, to the row for a user that could be stored, and to its own number for another; the rest goes on with the bucket then reached |
| `MentionLaws.RewritingSkips` | handlers/message_parser.go:330-355 | text without a parenthesis is copied |
| `MentionLaws.StrayIsCopied` | handlers/message_parser.go:330-355 | and so is a character at which no mention starts |
| `MentionLaws.RemovesOnlyTheBot` | handlers/message_parser.go:335-341 | with remove_at on, the text is the one got with it off after exactly the mentions of the bot are dropped |
| `MentionLaws.RemovalKeepsBucket` | handlers/message_parser.go:335-345 | and the bucket is the one left with it off |
| `MentionLaws.ReplyIsDropped` | handlers/message_parser.go:216-218 | sending drops every reply |
| `MentionLaws.MentionIsSent` | handlers/message_parser.go:220-241 | sending turns a number that is no row into a mention of it, and a row into a mention of the user behind it, or into nothing for an id of 32 characters when bots are to be left out |
| `MentionLaws.SendingSkips` | handlers/message_parser.go:214-242 | and copies text without a bracket |
| `MentionLaws.NoReplies` | handlers/message_parser.go:216-218 | dropping replies does not touch a text whose only codes are mentions |
| `MentionLaws.LabelsAreSent` | handlers/message_parser.go:220-241 | sending translates exactly the numbers put into mention codes, and leaves codes with a negative number alone |
| `MentionRoundTrip.RunLabels` | handlers/message_parser.go:333-352 | the number put in for each mention can be told from the bucket left at the end, however often users are mentioned |
| `MentionRoundTrip.RemovedRunLabels` | handlers/message_parser.go:333-352 | with remove_at on, every mention but the bot's still carries its label |
| `MentionRoundTrip.BlockedThroughout` | idmap/service.go:141-159 | a user that cannot be stored cannot be stored later in the same text either |
| `MentionRoundTrip.MentionsReturn` | handlers/message_parser.go:214-242 | for any text without a CQ code, in hash or counter mode, translating and sending back through the bucket left behind gives exactly the text, as soon as every mention is safe |
| `MentionRoundTrip.MentionsReturnExactly` | handlers/message_parser.go:214-242 | when no id behind a numeric row holds a parenthesis the text comes back if and only if every mention is safe: a stored user's row is not negative, and the number of the bot or of an unstorable user is nobody else's row |
| `MentionRoundTrip.StoredUsersReturn` | handlers/message_parser.go:328-355 | the usual case: no negative row to begin with, all users stored, the bot's number nobody's row |
| `MentionCases.ForeseenTextReturns` | handlers/message_parser.go:328-355 | a condition on the bucket before receiving, by hash or by counter: no row is negative, every user mentioned is known or its row is free and nobody else's, and no old or new row is the bot's number; then the text comes back |
| `MentionCases.MentionsReturnAfterRun` | handlers/message_parser.go:214-242 | the same equivalence after any run of the id map from an empty bucket in which the ids stored, message ids among them, hold no parenthesis |
| `MentionCases.MovedBelowZero` | handlers/message_parser.go:214-242 | after any such run, moving a stored user to a free negative row succeeds, and the user's mention is not translated back |
| `MentionCases.StoredAndMoved` | idmap/service.go:671-706 | in particular two calls on an empty bucket are enough |
| `MessageFilter.MatchesPrefix` | handlers/message_parser.go:418-424 | whether some entry of the list begins the text |
| `MessageFilter.CheckBypass` | handlers/message_parser.go:377-402 | whether the white list is bypassed for this group and user, with or without reversal |
| `MessageFilter.WhiteListAppliesExactly` | handlers/message_parser.go:374-402 | the outer white list applies if and only if its mode is on, the caller wants it, and neither group nor user is an exception, or one is when the exceptions are reversed |
| `MessageFilter.RemoveVisualPrefix` | handlers/message_parser.go:449-481 | the loop over visual prefixes, with the special prefix it notes |
| `MessageFilter.ProcessMessageText` | handlers/message_parser.go:585-593 | each complete pair replaces the leftmost occurrence of its first half |
| `MessageFilter.ApplyStages` | handlers/message_parser.go:367-549 | all stages after the mentions, with the responses they send, in order |
| `MessageFilter.RevertTransformedText` | handlers/message_parser.go:305-574 | the whole of the function: trimming, mentions, stages |
| `MessageFilter.FirstShorterIsRemoved` | handlers/message_parser.go:465-481 | the prefix removed is the first that begins the text and leaves something over; a lone space is never touched |
| `MessageFilter.NoneShorterKeepsText` | handlers/message_parser.go:465-481 | when there is no such prefix the text stays and none counts as matched |
| `MessageFilter.LastNotedIsKept` | handlers/message_parser.go:459-481 | the special prefix to put back is the last one among the entries looked at whose text without the star begins the message |
| `MessageFilter.SlashRemovedExactly` | handlers/message_parser.go:367-372 | the first slash is removed if the setting says so, and what stands before and after it is kept |
| `MessageFilter.AliasApplies` | handlers/message_parser.go:577-593 | an alias replaces the first occurrence of its pattern and keeps what stands before and after it |
| `MessageFilter.AliasDoesNotApply` | handlers/message_parser.go:577-593 | an alias whose pattern does not occur, and an odd last entry, do nothing |
| `MessageFilter.PlainTextPrepared` | handlers/message_parser.go:313-365 | a message without a parenthesis reaches the stages trimmed, a lone space as it is |
| `MessageFilter.BotMentionIsPrepared` | handlers/message_parser.go:357-365 | with remove_at on, a mention of the bot in front goes together with the space after it |
| `MessageFilter.UnprefixedTextPasses` | handlers/message_parser.go:367-549 | a text that no outer list blocks and no visual prefix shortens ends as the aliases make it, unanswered |
| `MessageFilter.PrefixedTextPasses` | handlers/message_parser.go:449-549 | a text with a visual prefix ends as the aliases make its trimmed rest, or empty and answered if that prefix's list blocks it, with a noted special prefix in front of either |
| `MessageFilter.EmptyStaysEmptyExactly` | handlers/message_parser.go:577-593 | the empty text stays empty after every number of alias pairs if and only if every pair with an empty pattern has an empty replacement |
| `MessageFilter.BlockIsFinal` | handlers/message_parser.go:375-485 | a text blocked by either outer list ends as what the aliases make of the empty text, which is empty for harmless aliases; it is answered exactly when the white list blocks it, and with that list's response |
| `MessageFilter.PassedTextWasAllowed` | handlers/message_parser.go:375-448 | with harmless aliases a non-empty result had an allowed prefix when the white list applies, and no forbidden one when the black list is on |
| `MessageFilter.InnerBlockKeepsSpecialPrefix` | handlers/message_parser.go:486-548 | the white list of a visual prefix is not final: when it blocks, a noted special prefix comes through without its star, and the result is empty if and only if there is none or it is a bare star |
| `MessageFilter.BlockedToolComesThrough` | handlers/message_parser.go:486-548 | such a configuration and text: the text is blocked and answered, and the bare prefix comes through |
| `ResendQueue.AtMostOnce` | wsclient/ws.go:31-50 | over every interleaving of senders and sweeps, with a failing append read and stored in two steps, a message is tried at most twice and written at most once, if a sweep begins only when no queued message belongs to an active one, and ends only when no append under way has read one of its messages |
| `ResendTries.EverySendIsTried` | wsclient/ws.go:31-50 | in every interleaving a call with a message that can be encoded makes one attempt, at that message and with its own outcome, and in the end the message was written, is queued or being queued, or was dropped; a message that cannot be encoded is never tried |
| `ResendTries.EveryResendIsTried` | wsclient/ws.go:166-173 | each turn of a sweep makes one attempt, at the sweep's next message and with its own outcome, and that message too is accounted for in the end |
| `ResendTries.AttemptsGrow` | wsclient/ws.go:31-50 | attempts are as many as the encodable messages and the resends of a run, and none is taken back |
| `ResendTries.QueueGrowsAtEnd` | wsclient/ws.go:45-45 | between clearings the queue only grows, at its end, by the message whose append is stored |
| `ResendGuards.BeginExactly` | wsclient/ws.go:167-172 | the first guard is exact: in a sound state a sweep may begin if and only if what the active sweeps then do leaves every message tried at most twice |
| `ResendGuards.EndExactly` | wsclient/ws.go:175-175 | and so is the second: the only active sweep may end during an append if and only if, after the store and the next sweep's begin, no message can be tried a third time |
| `ResendQueue.OneAtATimeIsCareful` | wsclient/ws.go:166-176 | both guards hold when sweeps do not overlap and the queue is never cleared during an append |
| `ResendQueue.NothingVanishes` | wsclient/ws.go:31-50 | in every interleaving, guarded or not, a message tried was written, is queued or being queued, or was dropped by a clearing |
| `ResendQueue.WhatASweepDrops` | wsclient/ws.go:166-176 | what the clearing of a guarded run throws away: messages the sweep tried a second time, and messages in no active sweep, lost unwritten after one try; the queue is empty afterwards |
| `ResendGuards.FailureDuringSweepIsLost` | wsclient/ws.go:166-176 | such a run with a single sweeper: the message that failed during the sweep is dropped after one try, never written |
| `ResendQueue.SweepTriesTheQueue` | wsclient/ws.go:166-176 | from begin to end a sweep tries exactly the messages queued when it began, in order, however many sweeps and senders run beside it |
| `ResendGuards.TwoSweepersWriteTwice` | wsclient/ws.go:209-245 | without the first guard: two overlapping sweeps write a message twice |
| `ResendGuards.ClearDuringAppendWritesTwice` | wsclient/ws.go:45-45 | without the second, with one sweep at a time: the clearing falls between reading and storing the queue, a message already written is queued again, and the next sweep writes it again |
| `WebSocketClient.AppendTo` | wsclient/ws.go:45-45 | the built-in append, in place or into a larger array, adds one message and leaves the elements of the slice as they were |
| `WebSocketClient.Client.SendMessage` | wsclient/ws.go:31-43 | is the send step, up to reading the slice header after a failed write |
| `WebSocketClient.Client.StoreLonger` | wsclient/ws.go:45-45 | is the store step: writing into the array that sweeps range over changes none of their messages, and a clearing in between is undone |
| `WebSocketClient.Client.EnterSweep` | wsclient/ws.go:167-167 | copying the slice header is the begin step |
| `WebSocketClient.Client.ResendOne` | wsclient/ws.go:168-172 | reading the next element of the shared array and sending it is the resend step, which takes it from the messages queued at the beginning |
| `WebSocketClient.Client.FinishSweep` | wsclient/ws.go:175-175 | replacing the slice is the end step, also while an append is under way |
| `WebSocketClient.Client.PerformAll` | wsclient/ws.go:31-176 | any interleaving of these methods is a run of the model |
| `WebSocketClient.Client.ProcessFailedMessages` | wsclient/ws.go:166-176 | an uninterrupted sweep is begin, a turn for each queued message, and end |
| `WebSocketClient.WholeSweep` | wsclient/ws.go:166-176 | which tries the queued messages once each in order and leaves the queue empty |
| `GatewaySession.GatewayAlwaysKnown` | golang-bot/kaihela/api/base/state_session.go:111-125 | in every reachable state gateway, ws_connected, connected and retry have a non-empty gateway address |
| `GatewaySession.InitEnteredExactly` | golang-bot/kaihela/api/base/state_session.go:111-125 | a session goes back to init exactly when a dial made in gateway is given up, when a hello in ws_connected has no code or one of 40100 to 40103, on a reconnect, and when started without an address |
| `GatewaySession.GatewayEnteredExactly` | golang-bot/kaihela/api/base/state_session.go:111-125 | to gateway by a reply in init, from retry at a second timeout, and when started with an address |
| `GatewaySession.WsConnectedEnteredExactly` | golang-bot/kaihela/api/base/state_session.go:111-125 | to ws_connected by a successful dial in gateway only |
| `GatewaySession.ConnectedEnteredExactly` | golang-bot/kaihela/api/base/state_session.go:111-125 | to connected by a good hello, a pong or a resume acknowledgement in ws_connected only |
| `GatewaySession.RetryEnteredExactly` | golang-bot/kaihela/api/base/state_session.go:384-393 | to retry when a watcher wakes in connected and the last pong is older than one timeout before the deadline |
| `GatewaySession.LastGiven` | golang-bot/kaihela/api/base/state_session.go:245-289 | over every run session id and address are those of the last good hello and the last reply since the last reconnect |
| `GatewaySession.AcceptedExactly` | golang-bot/kaihela/api/base/state_session.go:304-314 | the serial numbers accepted are those of the events received in connected since the last reconnect, in order |
| `GatewaySession.RecordedExactly` | golang-bot/kaihela/api/base/state_session.go:337-371 | the recorded pings and pongs are those sent, and the pongs and good hellos received, at their times |
| `GatewaySession.NothingGetsLost` | golang-bot/kaihela/api/base/state_session.go:337-382 | over every run the pings delivered are those with a deadline posted or to be posted, the deadlines posted those checked or on their way, and the starts those whose consumer has begun or is still to begin |
| `GatewaySession.SleepsExactly` | golang-bot/kaihela/api/base/state_session.go:376-382 | a deadline is slept on exactly when it is checked ahead of time in connected or retry |
| `GatewaySession.SecondCheckExactly` | golang-bot/kaihela/api/base/state_session.go:384-400 | a watcher makes its second check exactly when it found the pong overdue |
| `GatewaySession.SerialNumberIsGreatest` | golang-bot/kaihela/api/base/state_session.go:304-314 | in every reachable state the number a ping carries, and the one in the address a session is resumed at, is the greatest accepted since the last reconnect, at least 0 |
| `GatewaySession.HandedOnIsPrefix` | golang-bot/kaihela/api/base/state_session.go:296-314 | from every queue the frames handed on are the first of those put on it, in order, and none unless a consumer has been started on it; on the current queue their serial numbers are the first of those accepted since the last reconnect |
| `GatewaySession.DeliverableExactly` | golang-bot/kaihela/api/base/state_session.go:296-314 | the frames waiting on a queue can all be handed on without another start if and only if a consumer listens to that queue, or it is the current one and a consumer is still to be started |
| `GatewaySession.ReconnectEndsDelivery` | golang-bot/kaihela/api/base/state_session.go:413-423 | after a reconnect, in every continuation without another start, only frames that were waiting before can still be handed on; nothing is taken from the new queue |
| `GatewaySession.FrameAfterReconnectIsLost` | golang-bot/kaihela/api/base/state_session.go:304-314 | a run that reconnects, connects again and accepts a frame which no continuation without another start hands on |
| `GatewaySession.ConnectedOnlyByDial` | golang-bot/kaihela/api/base/state_session.go:111-125 | every run from start, init, gateway or retry to ws_connected or connected has a successful dial made in state gateway |
| `GatewaySession.TimeoutExactly` | golang-bot/kaihela/api/base/state_session.go:373-402 | a check takes the session out of connected if and only if no pong or good hello was recorded at or after a ping sent one timeout before the deadline |
| `GatewaySession.RetryReachableExactly` | golang-bot/kaihela/api/base/state_session.go:345-395 | the retry state can be reached if and only if the timeout is positive |
| `StateSession.Session.Start` | golang-bot/kaihela/api/base/state_session.go:158-166 | from any state, goes to init without a gateway address and to gateway with one |
| `StateSession.Session.StartProcessEvent` | golang-bot/kaihela/api/base/state_session.go:296-302 | the consumer listens to whatever queue is current when it is started |
| `StateSession.Session.ReceiveHello` | golang-bot/kaihela/api/base/state_session.go:272-289 | a good hello is recorded as a pong, saves the session id and connects; codes 40100 to 40103, and a missing code, go back to init; others are ignored |
| `StateSession.Session.Reconnect` | golang-bot/kaihela/api/base/state_session.go:413-423 | clears address, session id and serial number, makes a new queue and goes to init |
| `StateSession.Session.ReceiveFrameHandler` | golang-bot/kaihela/api/base/state_session.go:304-335 | dispatches a signal; event frames count only when connected |
| `StateSession.Session.SendHeartBeat` | golang-bot/kaihela/api/base/state_session.go:337-350 | the ping carries the greatest serial number and its time is recorded |
| `StateSession.Session.CheckDeadline` | golang-bot/kaihela/api/base/state_session.go:376-382 | a deadline is slept on only in connected or retry and only if it lies ahead |
| `StateSession.Session.WakeWatcher` | golang-bot/kaihela/api/base/state_session.go:383-393 | on waking an overdue pong moves connected to retry |
| `StateSession.Session.PerformAll` | golang-bot/kaihela/api/base/state_session.go:158-423 | every interleaving of the session's methods is a run of the state machine, so what holds in every run holds of the object; the invariant is kept |
| `RateLimiter.Limiter.CheckAndUpdateRateLimit` | server/uploadpic.go:30-43 | for a clock that does not run backwards, the stored list becomes exactly the address's requests no older than a minute, this one included, and the call is allowed if and only if there are at most maxRequests; other addresses are untouched |
| `RateLimiter.DropExpired` | server/uploadpic.go:38-40 | taking expired times off the front of a sorted list leaves exactly the recent ones |
| `RateLimiter.AllowedExactly` | server/uploadpic.go:30-43 | a request is allowed if and only if its address made at most maxRequests requests in the last 60 seconds, this one included |
| `RateLimiter.WindowLimit` | server/uploadpic.go:30-43 | with a fixed limit at most that many requests of an address are allowed in any one-minute window of any run |
| `ConfigText.ExtractKeysFromString` | config/config.go:282-292 | the trimmed text before the first colon of every line that has one |
| `ConfigText.GetMissingSettingsByText` | config/config.go:267-279 | the template's keys that the configuration lacks |
| `ConfigText.ExtractMissingConfigLines` | config/config.go:294-320 | for each key in the traversal order the first template line the expression matches, or the first key without one |
| `ConfigText.AppendToConfigFile` | config/config.go:322-342 | each line after a newline at the end of the file |
| `ConfigText.MatchesKeyExactly` | config/config.go:300-311 | the expression matches a line for a key if and only if it is the line's key and the space around it is space for the expression too |
| `ConfigText.SpacedKeyIsMatched` | config/config.go:300-311 | blanks, tabs, line and form feeds and carriage returns around a key do not hinder the expression |
| `ConfigText.OddSpaceHidesKey` | config/config.go:300-311 | a vertical tab or a no-break space before it does, although the key is read off the line |
| `ConfigText.ExtractionSucceedsExactly` | config/config.go:294-320 | extracting the textually missing keys succeeds, in every order, if and only if each has a template line with such spacing |
| `ConfigText.RegularTemplateNeverFails` | config/config.go:294-320 | in particular it never fails for a template with ordinary spacing, whatever the file holds |
| `ConfigText.OnePassCompletes` | config/config.go:203-229 | after the extracted lines are appended the file has every key of the template and every key it had |
| `ConfigText.OnlyMissingKeysExtracted` | config/config.go:294-320 | every line extracted is a template line whose key the file lacks |
| `ConfigText.ReplaceVisualPrefixsLine` | config/config.go:1291-1330 | every line of the old form is replaced by the new lines; reports whether there was one |
| `ConfigText.MigratedLineByLine` | config/config.go:1308-1326 | each line is migrated in its place: one of the old form becomes the new lines, any other stays |
| `ConfigText.NewFormListsThree` | config/config.go:1293-1303 | the new form lists three empty prefixes, each with an empty white list and an empty response |
| `ConfigText.MigrationIsFinal` | config/config.go:1291-1330 | applied to its own output the migration reports no change and only adds a newline |
| `JpegLadder.CompressJPEG` | images/Compress.go:93-116 | stops at the first attempt that fails, fits or is at the minimum, whatever the step and the bounds, as long as some attempt would stop |
| `JpegLadder.GoesOnExactly` | images/Compress.go:104-106 | an attempt is the last if and only if it fails, has at most thresholdKB times 1024 bytes, or is at the minimum |
| `JpegLadder.StopsWithinBound` | images/Compress.go:93-116 | with a positive step, or a maximum not above the minimum, it stops within ceil((max-min)/step)+1 attempts whatever the encoder does |
| `JpegLadder.EndsExactly` | images/Compress.go:93-116 | the search ends for every encoder if and only if the step is positive or the maximum is not above the minimum |
| `JpegLadder.ResultIsHighestFit` | images/Compress.go:93-116 | no quality of the ladder that fits is higher than the result's; if the result does not fit it is at the minimum and none fits |
| `JpegLadder.NoStepNeverEnds` | images/Compress.go:108-111 | without a positive step an encoder that never fits is called for ever |
| `ShortUrls.UrlDatabase.StoreURL` | url/shorturl.go:285-290 | writes the entry, or fails and writes nothing: the empty key is refused, and the database may fail |
| `ShortUrls.UrlDatabase.GenerateShortURL` | url/shorturl.go:190-218 | the hash if free, else the first free draw, bound to the URL; the empty text and an unchanged database as soon as a lookup or the store fails |
| `ShortUrls.GenerateAll` | url/shorturl.go:190-218 | calls one after the other are a run of the model |
| `ShortUrls.CodeFor` | url/shorturl.go:190-210 | a code returned was not in use, whichever accesses fail |
| `ShortUrls.FreeHashIsIssued` | url/shorturl.go:190-218 | a free hash is the code, unless its lookup or the store fails |
| `ShortUrls.FirstFreeDrawIsIssued` | url/shorturl.go:198-218 | when the hash is taken the first free draw is the code, unless a lookup up to it or the store fails |
| `ShortUrls.IssuedExactly` | url/shorturl.go:190-218 | a code is issued if and only if no access on the way fails and the hash, or the first free draw, is not empty |
| `ShortUrls.EntriesStay` | url/shorturl.go:190-218 | no run rebinds an entry or issues its code again |
| `ShortUrls.IssuedCodesHold` | url/shorturl.go:190-218 | over every sequential run, for any hashes, draws and failing accesses, an issued code leads for good to its URL and no two calls get the same code |
| `EchoKeys.KeyInjective` | echo/echo.go:81-83 | different echoes have different keys |
| `EchoKeys.GroupKeyInjective` | echo/echo.go:85-87 | different application, group and user triples have different keys |
| `EchoKeys.KindsCollideExactly` | echo/echo.go:81-87 | a key of one kind is a key of the other if and only if the numbers agree and one application id is the other followed by underscore and group |
| `EchoKeys.EchoMapping.AddMsgID` | echo/echo.go:118-123 | records the id under the echo's key |
| `EchoKeys.EchoMapping.AddMsgIDv2` | echo/echo.go:110-115 | records the id under the group and user's key, in the same map |
| `EchoKeys.FoundAsLastAdded` | echo/echo.go:110-137 | over every run of additions an entry no other collides with is found as it was last added |

## Left out

- HTTP and WebSocket transport, gin handlers, object storage, audio, restarting, logging and the web interface: no logic of their own to state.
- The lotus branches: they forward the same operations to another instance.
- The storage engine: a map with all-or-nothing transactions; its limits on key and value size and its file format are not modelled, only that it refuses an empty key.
- The configuration bucket of the id map, the real-value lookups and `CheckValuev2`: plain reads and writes.
- Sscanf on a value that starts with a newline or with white space outside Latin-1: the model reads no number there.
- Media patterns and URL handling in outgoing messages, and the conversion to message segments: greedy patterns without an intended law.
- Mention round trip: it is stated for the mention stages. `RevertTransformedText` first trims the message, so what comes back is the trimmed text; the options that remove mentions are off, for they delete text.
- Messages that are not KMarkdown events: the filter returns the empty string for them at once.
- Temporary commands and settings are read once per message; the original reads them again at each stage and could see a change in between.
- Two goroutines inside one step of the session at once: a received frame is one step, so the race of two readers on the serial number is not modelled. In the client the slice of failed messages is read and written as a whole; the original does both without synchronisation and could see half of a slice header.
- Waiting times and the number of attempts of gateway requests and dials: a reply, a dial and a dial given up may come at any time.
- The saved session file, and frames without the expected fields, on which the original crashes.
- Reconnecting the WebSocket client: the connection is only the outcome of each write; the overlap of sweeps that a reconnect can cause is what `TwoSweepersWriteTwice` shows, and `AtMostOnce` holds for those overlaps that meet its guards.
- Concurrent use of the short-URL store and of the rate limiter: one call at a time.
- Settings found missing by reflection, and the restart after completion: only the textual pass is modelled.
- The comments at the ends of the migrated lines: any text without a newline.
- The third kind of echo key, whose last part is any string: it can equal a key of the other kinds in many ways.
- Choice of messages by chance, the global message stack and the ten-element time stack: easy claims only.
- JpegLadder.CompressJPEG: requires some attempt that stops, because otherwise the original never returns; `EndsExactly` says when there is one for every encoder, and `NoStepNeverEnds` gives an encoder without one.
- ShortUrls.UrlDatabase.GenerateShortURL: requires, when the hash is taken, some draw that is free or whose lookup fails, because otherwise the original never returns.
- IdTakenNames.TakenNamesExactly: leaves out new names that are under the id or paired with a key under it, where the outcome depends on the traversal order, as `OrderDecides` shows.
- RateLimiter.Limiter.CheckAndUpdateRateLimit: requires the clock not to run backwards, as the monotonic clock does not.
