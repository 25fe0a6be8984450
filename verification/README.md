# Proofs about the agent harness and its channels

Dafny models of nine stateful pieces of the repository, each proved against a
specification that says what the piece is for. Where the code does not meet a
property that its documentation or its callers expect, the code is kept as it is,
a concrete input is given, and the exact condition is proved under which the
property does hold.

Loops and mutable tables are methods and classes, tied by their `ensures` to
functions of the old state; the results about whole runs are lemmas about those
functions. Protocols with waits (the setup-status endpoint, the running cards of
Feishu) are state machines over the stretches of code between two waits.

| files | what is modelled |
|---|---|
| `MiddlewareChain`, `MiddlewareLayout`, `MiddlewareBlocks`, `MiddlewareOrder`, `MiddlewareAssembly`, `MiddlewareListing` | the middleware chain of an agent: built-ins in their documented order, extras inserted around anchors in repeated rounds, repair of the tail |
| `StreamClient`, `StreamReconciliation`, `StreamDelivery` | `stream()` and `chat()` of the embedded client: token chunks and whole-state snapshots merged into one event stream |
| `AesKeyCodec`, `AesKeyText`, `AesKeyRoundTrip`, `AesKeyDecoding` | the media key codec of the WeChat channel, over a bit-exact model of base64, hex and UTF-8 decoding |
| `TelegramStream`, `TelegramRuns`, `TelegramPacing` | answers streamed into one edited Telegram message, against a platform that may refuse, limit, or lose an answer on the way back, in a chat where messages can be deleted |
| `InboundDedupe`, `StreamText`, `StreamPublisher` | the channel manager: window of received messages, folding of stream chunks, throttled publishing |
| `LoginLockout`, `SetupStatus`, `SetupLimit`, `SetupAnswers`, `Eviction` | the authentication router: lock-out table, cached and shared setup-status computation |
| `FeishuCards` | creation, patching and forgetting of running cards |
| `Uploads`, `UniqueNames` | upload of several files under size limits with rollback |
| `DiscordSplit` | splitting of long messages |
| `Sequences`, `Wrappers` | shared definitions |

What the proofs bring to light:

- **Chain assembly.** Unique anchors are not enough for the chain to be
  independent of the order in which extras are listed: one extra may be anchored on
  a class and another on its base class, on the same side of the same element
  (`OrderCanMatter`). With unique matches every relisting of the extras that keeps the
  unanchored ones in order gives the same chain if and only if no element has two
  extras on one side (`OrderInsensitiveExactly` for the rounds, `InsertionOrderExactly`
  for insertion, `AssemblyOrderExactly` for the assembled chain). The chain is then the
  documented built-ins, each replaced by its block of extras (`AssemblyBuildsLayout`).
- A custom feature that is itself a clarification middleware makes the tail repair
  move that one instead of the built-in: with extras, the documented order survives if
  and only if there is none (`OrderKeptExactly`, `OrderCanBreak`).
- **Client.** The text of a message is delivered twice over exactly when a snapshot
  with text precedes the first chunk of its id and text chunks follow it
  (`TextDoubledExactly`, `TextCanDouble`). What is delivered is the snapshot's text if
  and only if no text follows it, or chunks came before it and say the same
  (`SnapshotTextExactly`): one chunk that carries only tool calls suffices for the
  snapshot's text never to be delivered (`SnapshotTextCanBeLost`).
- A keyword value that only a chunk without text and calls carries, or a snapshot entry
  after the first, is not delivered. The reader learns all values exactly when none of
  those has the last word (`AllKwargsReadExactly`, `KwargsCanBeWithheld`).
- **Key codec.** Whether hex or base64 is tried first never matters, for any value
  (`PreferenceIsIrrelevant`).
- The strict base64 attempt is redundant: whatever it reads, the tolerant one reads the
  same (`Base64KeyExactly`, `TolerantReadsToo`).
- **Telegram.** A final text whose first chunk equals what the channel believes is
  shown is not written, and the belief can be wrong. Over every run it is wrong if and
  only if, since it was recorded, the message was deleted, or an edit took effect but
  raised and its resend raised too (`WrongExactly`). A final that returns normally is
  delivered if and only if it does not begin with such a wrong record
  (`FinalsDelivered`); runs in which it does are `LostEditMisleads` and
  `DeletionMisleads`. In a run without deletions and lost edits every final that
  returns normally is delivered in full and still shown at the end (`CalmRunsDeliver`).
- **Chunk folding.** Two equal deltas in a row are read as one. A stream of deltas is
  put together again exactly when none of them repeats the end of the text or starts
  with all of it (`DeltasRebuiltExactly`, `RepeatedDeltaIsLost`).
- **Setup status.** Nothing is checked when an answer is stored, so the cache can
  outgrow its limit of 10000. For every positive w there is a run in which w addresses
  wait at once and 9999 + w answers are stored (`CacheGrowsTo`), so the limit holds in
  all runs with at most w waiting addresses if and only if w is at most one
  (`LimitExactly`). The bound that does hold is `Bound` (`CacheSize`).
- **Running cards.** A final that found neither card nor creation under way can leave a
  card behind that nobody finishes; exactly when a creation of the same message is
  still unfinished as it completes (`QuietAfterFinalExactly`, `FinalCanLeaveCard`).
- **Uploads.** Rollback removes what the request opened; it does not bring back files
  that were replaced. The directory is as before if and only if none of the opened
  names was there before (`UploadFiles`, `ReplacedIsLost`).

Nothing was executed.

## Model

| member | source | states |
|---|---|---|
| MiddlewareChain.Classify | packages/harness/deerflow/agents/factory.py:316-344 | accepted if and only if no extra asks for both sides and no class is anchored on twice; then the anchored and the unanchored extras in listing order; otherwise an extra that really breaks the rule |
| MiddlewareLayout.AnchoredExactly | packages/harness/deerflow/agents/factory.py:321-344 | anchored are exactly the extras whose class carries a mark, @Next being looked at first, on the side and the class it says |
| MiddlewareLayout.UnanchoredExactly | packages/harness/deerflow/agents/factory.py:321-350 | unanchored are exactly the extras without a mark, in listing order |
| MiddlewareChain.InsertUnanchored | packages/harness/deerflow/agents/factory.py:346-350 | unanchored extras stand, in order, directly in front of the first clarification middleware |
| MiddlewareChain.InsertPass | packages/harness/deerflow/agents/factory.py:358-370 | one in-place pass equals the recursive round, chain and left-overs |
| MiddlewareChain.InsertExtra | packages/harness/deerflow/agents/factory.py:306-379 | the in-place algorithm with its bound of one round more than extras returns what unbounded rounds return, error included, so the bound never leaves an extra silently unplaced |
| MiddlewareLayout.RoundsOrder | packages/harness/deerflow/agents/factory.py:352-379 | the rounds amount to placing the extras one after another in some order; placed and left-over extras share out the pending ones, and what is left has no match |
| MiddlewareLayout.RoundsSucceed | packages/harness/deerflow/agents/factory.py:352-379 | the rounds place everything if and only if every extra's trail of anchors reaches the chain; on failure exactly the extras without such a trail are reported |
| MiddlewareLayout.InsertionSucceeds | packages/harness/deerflow/agents/factory.py:306-379 | for compatible extras, insertion succeeds if and only if every anchored extra's trail reaches the chain with the unanchored extras in it |
| MiddlewareLayout.CircularExactly | packages/harness/deerflow/agents/factory.py:371-378 | a failure is called circular if and only if an unplaceable extra is anchored on the class of an unplaceable extra |
| MiddlewareLayout.ErrorNamesExactly | packages/harness/deerflow/agents/factory.py:371-378 | an unresolved error names exactly the extras without a trail; a circular one exactly the classes that are both asked for by such an extra and the class of one |
| MiddlewareLayout.TrueCycleIsReported | packages/harness/deerflow/agents/factory.py:373-377 | extras anchored on each other, to which nothing else answers, always raise the circular error |
| MiddlewareLayout.ExtrasConserved | packages/harness/deerflow/agents/factory.py:306-379 | on success the chain holds the old elements and every extra, each as often as before |
| MiddlewareLayout.PlaceAllOrder | packages/harness/deerflow/agents/factory.py:359-370 | placement reorders nothing that was there; every extra is placed beside the first match in some chain grown from the one at the beginning, and nothing read off that chain changes its order later |
| MiddlewareLayout.PlacedAtItsTurn | packages/harness/deerflow/agents/factory.py:359-370 | in the finished chain every extra stands, for @Prev, in front of every instance of its anchor that was there at its turn, extras placed earlier included; for @Next, between the first of them and the others |
| MiddlewareBlocks.RoundsBuildLayout | packages/harness/deerflow/agents/factory.py:352-379 | with unique matches and at most one extra per side, the rounds yield the recursive layout: every element replaced by the block of its @Prev extra, itself, the block of its @Next extra |
| MiddlewareOrder.SuccessIgnoresOrder | packages/harness/deerflow/agents/factory.py:352-379 | whether the extras can be placed never depends on the listing order |
| MiddlewareOrder.OrderInsensitiveExactly | packages/harness/deerflow/agents/factory.py:352-379 | with unique matches, every listing order gives the same chain if and only if no element has two extras on one side |
| MiddlewareListing.InsertionOrderExactly | packages/harness/deerflow/agents/factory.py:306-379 | with unique matches, insertion gives the same chain for every relisting of the extras that keeps the unanchored ones in order, if and only if no element has two extras on one side |
| MiddlewareListing.AssemblyOrderExactly | packages/harness/deerflow/agents/factory.py:155-298 | the same for the assembled chain, for all features and for extras none of which is a clarification middleware |
| MiddlewareListing.InsertionBuildsLayout | packages/harness/deerflow/agents/factory.py:306-379 | with unique matches and at most one extra per side, insertion yields the recursive layout of the chain with the unanchored extras in it |
| MiddlewareListing.AssemblyBuildsLayout | packages/harness/deerflow/agents/factory.py:155-298 | under the same conditions the assembled chain is the layout of the documented built-ins, with its tail repaired |
| MiddlewareListing.OrderCanMatter | packages/harness/deerflow/agents/factory.py:155-298 | two extras with unique matches, anchored on the class of a custom sandbox and on its base class, which the assembly accepts in either order and with different chains |
| MiddlewareAssembly.AppendSandbox | packages/harness/deerflow/agents/factory.py:192-203 | fills the first documented slot: three built-ins, a custom one, or nothing |
| MiddlewareAssembly.AppendBuiltins | packages/harness/deerflow/agents/factory.py:189-286 | appends the slots in their order; refuses if and only if guardrail or summarization is merely switched on, naming the first of them |
| MiddlewareAssembly.MoveToEnd | packages/harness/deerflow/agents/factory.py:292-296 | the first clarification middleware is moved to the end, in place |
| MiddlewareAssembly.FinishChain | packages/harness/deerflow/agents/factory.py:289-296 | extras inserted and the first clarification middleware moved to the end, in place; fails exactly when insertion does |
| MiddlewareAssembly.AssembleFromFeatures | packages/harness/deerflow/agents/factory.py:155-298 | without extras, the chain lists one element under every number from 0 to 13 for which its feature calls for one, in rising order: the built-in of a feature that is switched on, the custom object of a custom one, todo in plan mode, the unconditional three always; with extras that chain is still in it, and in order unless something else is a clarification middleware; refused for a missing custom instance if and only if such a feature is merely switched on |
| MiddlewareAssembly.BuiltinsDocumented | packages/harness/deerflow/agents/factory.py:163-177 | the built-in chain is the one documented by number, for all features and both plan modes |
| MiddlewareAssembly.DocumentedOnce | packages/harness/deerflow/agents/factory.py:163-177 | features and plan mode determine which numbers are filled |
| MiddlewareAssembly.AssembledContents | packages/harness/deerflow/agents/factory.py:189-298 | nothing is lost or doubled and the chain ends with a clarification middleware, for all features and extras |
| MiddlewareAssembly.AssembledOrder | packages/harness/deerflow/agents/factory.py:189-298 | when clarification is only the built-in: built-ins keep their documented relative order, unanchored extras theirs, and every anchored extra stands in front of all built-in instances of its anchor, or behind the first of all instances and in front of the others; except that the clarification middleware comes behind it either way |
| MiddlewareAssembly.MarksAreKept | packages/harness/deerflow/agents/factory.py:321-370 | an extra whose class is marked @Next or @Prev stands on that side of its anchor in the assembled chain |
| MiddlewareAssembly.OrderKeptExactly | packages/harness/deerflow/agents/factory.py:289-296 | with extras, the documented order survives if and only if no custom feature is itself a clarification middleware |
| MiddlewareListing.OrderCanBreak | packages/harness/deerflow/agents/factory.py:289-296 | a custom sandbox that is a clarification middleware, and one extra: the sandbox ends up last |
| StreamClient.Turn.AccountUsage | packages/harness/deerflow/client.py:640-665 | the totals and the counted ids after offering one usage value |
| StreamClient.Turn.UnsentKwargs | packages/harness/deerflow/client.py:667-679 | the delta against what was sent for the id, and the new record of what was sent |
| StreamClient.Turn.OnMessageChunk | packages/harness/deerflow/client.py:697-738 | all tables and events after one chunk |
| StreamClient.Turn.OnSnapshotMessage | packages/harness/deerflow/client.py:743-796 | all tables and events after one snapshot entry |
| StreamClient.Turn.OnSnapshot | packages/harness/deerflow/client.py:740-806 | a snapshot is its entries one after another, then the values event |
| StreamClient.Stream | packages/harness/deerflow/client.py:681-808 | the events of a whole turn over any finite sequence of custom items, chunks and snapshots |
| StreamReconciliation.ContentReconciled | packages/harness/deerflow/client.py:697-796 | for every id and every interleaving the events deliver, in order, the chunks before the first snapshot, the snapshot's content only if there were none, and the chunks after it |
| StreamReconciliation.TextReconciled | packages/harness/deerflow/client.py:697-793 | the AI text delivered for an id: its chunk texts, or the snapshot's text followed by whatever chunks come later |
| StreamReconciliation.TextExactlyOnce | packages/harness/deerflow/client.py:697-793 | when no content follows the first snapshot: exactly the concatenated chunk texts if anything was streamed, exactly the snapshot text otherwise |
| StreamReconciliation.TextDoubledExactly | packages/harness/deerflow/client.py:747-785 | the text is neither the chunks' nor the snapshot's if and only if a snapshot with text came before all chunks of the id and text chunks followed |
| StreamReconciliation.TextCanDouble | packages/harness/deerflow/client.py:747-785 | a snapshot with a text and then its chunk: the text is delivered twice |
| StreamReconciliation.SnapshotTextExactly | packages/harness/deerflow/client.py:747-785 | the snapshot's text is what is delivered if and only if, with nothing streamed before it, no text chunk follows it; or else the chunks make up the same text |
| StreamReconciliation.SnapshotTextCanBeLost | packages/harness/deerflow/client.py:697-785 | a chunk with tool calls only, then a snapshot with a text: no text is delivered |
| StreamReconciliation.KwargsReconciled | packages/harness/deerflow/client.py:667-679 | merging what the events carry reads like merging the maps of the chunks with text or calls and of the first snapshot entry of the id, and no event repeats a value its reader has |
| StreamReconciliation.AllKwargsReadExactly | packages/harness/deerflow/client.py:697-793 | what the events carry reads like all maps that any chunk or snapshot entry of the id carried, if and only if no map outside those has the last word on a key with a value not among them before |
| StreamReconciliation.KwargsCanBeWithheld | packages/harness/deerflow/client.py:708-738 | a single chunk with a keyword value but without text and calls: nothing is delivered |
| StreamReconciliation.LedgerIsExact | packages/harness/deerflow/client.py:640-665 | the ledger of counted usage holds for each id exactly the first usage on offer for it |
| StreamReconciliation.UsageReconciled | packages/harness/deerflow/client.py:640-808 | the end event carries the component-wise sum over that ledger |
| StreamDelivery.TotalsDelivered | packages/harness/deerflow/client.py:654-665 | each component of the end event is the sum of that component over all that was counted |
| StreamDelivery.UsageDelivered | packages/harness/deerflow/client.py:640-785 | the AI text events of an id carry exactly one usage, the first on offer, if it comes with a text and is a chunk or a first snapshot entry of something not streamed before; otherwise none |
| StreamDelivery.ArrivalsInOrder | packages/harness/deerflow/client.py:697-796 | each chunk and each snapshot entry adds events about its own message only, at the end |
| StreamDelivery.UnnamedDelivered | packages/harness/deerflow/client.py:697-793 | of messages without an id every arrival is delivered in full, in order, with its usage |
| StreamDelivery.UnnamedKwargsDelivered | packages/harness/deerflow/client.py:667-679 | their keyword maps go out whole, once per arrival with text or calls |
| StreamDelivery.ValuesDelivered | packages/harness/deerflow/client.py:667-679 | of every key the reader ends up with the last value on offer |
| StreamReconciliation.EventsPassThrough | packages/harness/deerflow/client.py:693-806 | custom items and snapshots are passed on, each once and in order, whatever the messages do |
| StreamReconciliation.Chat | packages/harness/deerflow/client.py:829-840 | returns the whole text delivered for the id of the last event that carried text |
| AesKeyRoundTrip.DecodeEncoded | app/channels/wechat.py:1156-1168 | both decoders give back what the matching encoder of sections 4 and 5 of RFC 4648 encoded, for any bytes |
| AesKeyRoundTrip.HexPrints | app/channels/wechat.py:114-115 | reading the printed hex form gives back the bytes |
| AesKeyRoundTrip.ShortIsNoKey | app/channels/wechat.py:1134-1154 | decoded bytes that are neither a key nor as long as its hex form never count as a key |
| AesKeyRoundTrip.HexIsNoBase64Key | app/channels/wechat.py:1128-1168 | text that is the hex form of a key, white space included, never yields a key when read as base64, by either decoder |
| AesKeyRoundTrip.PreferenceIsIrrelevant | app/channels/wechat.py:1170-1203 | both preferences give the same result for every value |
| AesKeyRoundTrip.EveryFormParses | app/channels/wechat.py:1128-1203 | hex text of a key, either case and with white space between bytes, and base64 of either alphabet, padded or not, of its bytes or of its hex text within any white space and quotes, all parse to that key, for either preference, also with white space around |
| AesKeyRoundTrip.OutboundKeyParses | app/channels/wechat.py:114-115 | what the sender prints for any key parses to that key |
| AesKeyDecoding.OutboundIsHexText | app/channels/wechat.py:114-115 | what the sender prints is base64 of the 32 lower-case hex digits |
| AesKeyText.HexTextExactly | app/channels/wechat.py:1185-1185 | text is read as bytes if and only if it is two digits of either case for each of them, with white space only in front of a byte or at the end |
| AesKeyText.AlphabetExactly | app/channels/wechat.py:1156-1168 | the alphabets are those of sections 4 and 5 of RFC 4648 |
| AesKeyText.SpaceExactly | app/channels/wechat.py:1130-1130 | the white space that is stripped, character by character |
| AesKeyText.StripExactly | app/channels/wechat.py:1130-1130 | stripping takes away only characters to be dropped, and leaves none of them at either end |
| AesKeyText.Utf8Exactly | app/channels/wechat.py:1141-1144 | decoded are exactly the byte strings that encode a text as section 3 of RFC 3629 says |
| AesKeyDecoding.StrictExactly | app/channels/wechat.py:1158-1158 | the strict decoder accepts exactly alphabet characters with the padding they call for, and reads every four of them as one number of three bytes |
| AesKeyDecoding.JunkIgnored | app/channels/wechat.py:1159-1159 | a character outside both alphabets makes no difference to the tolerant decoder |
| AesKeyDecoding.TailsAreFilled | app/channels/wechat.py:114-115 | an incomplete last group is filled up with zero bits |
| AesKeyDecoding.Base64KeyExactly | app/channels/wechat.py:1128-1168 | the strict attempt never changes the outcome: text yields the key that its tolerant reading carries |
| AesKeyDecoding.NormalizesExactly | app/channels/wechat.py:1134-1154 | decoded bytes count as a key if and only if they are it, or are UTF-8 of its hex text within white space and quotes |
| AesKeyDecoding.ParsesExactly | app/channels/wechat.py:1170-1203 | bytes and byte arrays are a key if they are 16 long, text if it is hex text of one or base64 that carries one, other values never |
| TelegramStream.SplitIsExact | app/channels/telegram.py:333-335 | the chunks join to the text; all but the last are full, and none is empty unless the text is |
| TelegramStream.DisplayExactly | app/channels/telegram.py:149-151 | of a partial text all is shown, or beyond 4096 characters its first 4095 and an ellipsis |
| TelegramStream.TelegramChannel.Register | app/channels/telegram.py:308-316 | the key is tracked last, the oldest ones go when 256 are tracked, all others stay as they are |
| TelegramStream.TelegramChannel.SendNewMessage | app/channels/telegram.py:231-256 | sends the text until the platform answers, gives up after exactly the given number of refusals, and remembers the message it was given as the last one |
| TelegramStream.TelegramChannel.EditFinalChunk | app/channels/telegram.py:215-229 | one edit, a second one exactly after a rate limit; reports success if and only if the last one was applied or not needed |
| TelegramStream.TelegramChannel.SendStreamUpdate | app/channels/telegram.py:139-194 | exactly which calls an update makes and what is recorded after each answer: nothing when too early, unchanged or empty; an edit; a resend when the edit fails; a first message when nothing is tracked; every call carries the text, or its first 4095 characters and an ellipsis |
| TelegramStream.TelegramChannel.Finalize | app/channels/telegram.py:196-213 | the chunks are tried in order: the first one by editing it into the streamed message, unless it equals the record, and by sending it afresh only when the edit failed; all others by sending; up to the first that is refused three times |
| TelegramStream.TelegramChannel.Send | app/channels/telegram.py:116-137 | an update takes the update step; a final stops the tracking, delivers by chunks what was tracked and otherwise sends the whole text, and raises if and only if the delivery broke off |
| TelegramStream.TelegramChannel.SendRunningReply | app/channels/telegram.py:337-356 | the running reply is tracked as the message to stream into, or nothing changes |
| TelegramRuns.FinalTextDelivered | app/channels/telegram.py:116-229 | a final that returns normally leaves different messages that show parts joining to the final text, each within 4096 characters for a tracked stream, if and only if the record was not a wrong one equal to the first chunk |
| TelegramRuns.RaisesOnlyRefused | app/channels/telegram.py:196-256 | a final raises only after three refusals in a row of the part that is next |
| TelegramRuns.WrongExactly | app/channels/telegram.py:116-356 | over any run, and for any key: what is recorded is not what its message shows if and only if, since that was recorded, the message was deleted or an edit of it took effect but raised and the resend raised too |
| TelegramRuns.FinalsDelivered | app/channels/telegram.py:116-229 | over any run, for every final that returns normally: its messages show the final text unless the record was wrong in that way and the text begins with it |
| TelegramRuns.AnswersStay | app/channels/telegram.py:116-356 | over any run no message of a final is changed after it, except by being deleted |
| TelegramRuns.CalmRunsDeliver | app/channels/telegram.py:116-356 | in a run without deletions and lost edits every final that returns normally is delivered in full, and still shown at the end |
| TelegramRuns.TrackedBounded | app/channels/telegram.py:308-316 | over any run at most 256 streams are tracked |
| TelegramPacing.UpdateShows | app/channels/telegram.py:149-194 | every call of an update carries the text as far as it fits, and so does the record it writes |
| TelegramPacing.UpdatesArePaced | app/channels/telegram.py:171-194 | over any run, an update of a tracked stream is sent, as an edit of its message, if and only if it has a text that shows something else than is recorded and one second, in groups three, have passed since the last update that was answered |
| TelegramPacing.OldestMakeRoom | app/channels/telegram.py:308-312 | a stream is dropped only for want of room, and never rather than one registered earlier |
| TelegramPacing.FirstChunkCalls | app/channels/telegram.py:196-229 | the first chunk is edited in once, or twice exactly after a rate limit, and sent afresh if and only if the last edit had no effect |
| TelegramPacing.GivenUpAfterThree | app/channels/telegram.py:231-256 | a part is given up after exactly three attempts at sending it |
| TelegramPacing.SentByThird | app/channels/telegram.py:231-256 | a part that is sent took the first attempt that was answered, the third at the latest |
| TelegramPacing.RunningReplySays | app/channels/telegram.py:337-356 | the running reply and its record say that work is under way |
| TelegramRuns.Serve | app/channels/telegram.py:116-356 | whatever the operations and the answers, the channel goes through a run made of exactly the calls the platform has seen, and every final that returned normally has its parts, delivered or misled, and untouched until the end |
| TelegramRuns.LostEditMisleads | app/channels/telegram.py:171-203 | a run from the start: an update, a lost edit to another text, and the first text as the final one, which returns normally and is not shown |
| TelegramRuns.DeletionMisleads | app/channels/telegram.py:196-213 | a run from the start: an update, its message is deleted, and the same text as the final one, which returns normally while nothing is shown |
| InboundDedupe.Window.PopExpired | app/channels/manager.py:1016-1024 | popping expired entries from the front leaves what a scan of all entries by age leaves |
| InboundDedupe.Window.IsDuplicate | app/channels/manager.py:1011-1038 | duplicate if and only if the key is among the newest 4096 unexpired entries; otherwise it is recorded last |
| InboundDedupe.RememberedExactly | app/channels/manager.py:1011-1038 | a message counts as a duplicate if and only if an entry of it is at most 600 s old and among the newest 4096 |
| InboundDedupe.Window.Release | app/channels/manager.py:1040-1050 | the window without the entry of the key, in the same order |
| InboundDedupe.WithoutIsFilter | app/channels/manager.py:1040-1050 | after a release exactly the other keys are still held |
| InboundDedupe.WindowBounded | app/channels/manager.py:1011-1050 | over any run the window stays in order of time, without repetition, with at most 4097 entries |
| InboundDedupe.AcceptedTwice | app/channels/manager.py:1011-1050 | if a message is let through twice, then more than the time to live has passed, it was released, or at least 4096 different other messages were let through in between |
| StreamText.MergeExtends | app/channels/manager.py:351-361 | the old text is a prefix and the chunk a suffix of the merged text |
| StreamText.MergeTwice | app/channels/manager.py:351-361 | a redelivered chunk changes nothing |
| StreamText.DeltaAppendedExactly | app/channels/manager.py:351-361 | a chunk is appended as it is if and only if it neither repeats the end of the text nor starts with all of it |
| StreamText.SnapshotsEndAsLast | app/channels/manager.py:351-361 | a stream of cumulative snapshots ends as the last one |
| StreamText.DeltasRebuiltExactly | app/channels/manager.py:351-361 | a stream of deltas is rebuilt if and only if none is mistaken for a redelivery or a snapshot |
| StreamText.RepeatedDeltaIsLost | app/channels/manager.py:351-361 | a stream of deltas with two equal ones in a row that is not rebuilt |
| StreamText.Buffers.Accumulate | app/channels/manager.py:380-414 | a text goes to the first id found in its event, whatever the current one, and if there is none to the current message or the default one; that buffer takes it up, is displayed, and becomes current; no other buffer changes |
| StreamText.FeedExactly | app/channels/manager.py:380-414 | the same said of the buffers as a value |
| StreamText.BuffersAreIndependent | app/channels/manager.py:380-414 | however events interleave, each buffer is the fold of exactly the texts of events that name its message, or that name nobody while it is the last one named |
| StreamText.UnderWayExactly | app/channels/manager.py:380-414 | the current message is the last one named by an event with a text, or the default one |
| StreamPublisher.FinalNamesFiles | app/channels/manager.py:1436-1454 | after a full state the final message names every file presented in the current turn, resolved or not |
| StreamPublisher.ArtifactsExactly | app/channels/manager.py:417-449 | presented are exactly the files of messages of the current turn, those of earlier turns are left out |
| StreamPublisher.BaseNameExactly | app/channels/manager.py:464-471 | the name of a file is what stands behind the last slash of its path |
| StreamPublisher.FilesAreListed | app/channels/manager.py:632-661 | unresolved files are listed in front of resolved ones, each list in its own paragraph behind the text |
| StreamPublisher.ListFormat | app/channels/manager.py:464-471 | how one file is announced, and several |
| StreamPublisher.FinalFallback | app/channels/manager.py:1441-1454 | what the final message says when there is neither an answer nor a file: that the thread is busy, that an error occurred, the latest text, or that there is no response |
| StreamPublisher.LastStateCounts | app/channels/manager.py:1401-1405 | the answer is taken from the last full state |
| StreamPublisher.HandleStreamingChat | app/channels/manager.py:1371-1477 | publishes the updates that are due, then exactly one final message, whether or not the stream fails |
| StreamPublisher.UpdatesArePaced | app/channels/manager.py:1407-1428 | updates are non-empty, differ from the one before, and their clock samples are at least 0.35 s apart |
| StreamPublisher.UpdatesAreTimely | app/channels/manager.py:1407-1428 | every update shows the text that was current at its event, with the clock sample of that event |
| StreamPublisher.NothingDueIsMissed | app/channels/manager.py:1407-1428 | after every event the current text has been published, unless the last update is less than 0.35 s old |
| StreamPublisher.ResponseTextExactly | app/channels/manager.py:205-255 | the response is the text of the last answer of the current turn, if there is one |
| StreamPublisher.FinalCarriesResponse | app/channels/manager.py:1436-1454 | after a full state the final message begins with its response, and says more exactly when files were presented |
| StreamPublisher.LatestIsBuffer | app/channels/manager.py:1397-1405 | while one message is streamed the text to display is its buffer and only grows |
| StreamPublisher.LatestExactly | app/channels/manager.py:1397-1405 | displayed is what the last event that brought a text brought: the response in a full state, or the whole buffer of the message it belongs to |
| StreamPublisher.NothingYetDisplayed | app/channels/manager.py:1397-1405 | before a text has been brought nothing is displayed |
| StreamPublisher.ReaderSeesGrowth | app/channels/manager.py:1397-1428 | the updates about one message are a chain of extensions that the latest text extends |
| StreamPublisher.FinalOfOneMessage | app/channels/manager.py:1436-1454 | for one streamed message the final text is the latest text, also after an exception |
| Eviction.OlderHalf | app/gateway/routers/auth.py:248-251 | picks half of the entries, none of them later than one that is kept |
| LoginLockout.Lockouts.CheckRateLimit | app/gateway/routers/auth.py:220-232 | refuses if and only if the history holds five failures since the last removal and less than 300 s have passed since the last one; removes an expired lock |
| LoginLockout.Lockouts.MakeRoom | app/gateway/routers/auth.py:240-251 | a full table loses exactly its expired locks and, if still full, half of the rest, never a later deadline before an earlier one; afterwards it has room |
| LoginLockout.RoomExactly | app/gateway/routers/auth.py:240-251 | what becomes of each address when room is made |
| LoginLockout.Lockouts.RecordFailure | app/gateway/routers/auth.py:238-259 | after making room, the address has the record its history calls for; the table never exceeds 10000 entries |
| LoginLockout.Lockouts.RecordSuccess | app/gateway/routers/auth.py:262-264 | removes the address and nothing else |
| LoginLockout.CountIsFailuresSinceRemoval | app/gateway/routers/auth.py:253-259 | the count a history calls for is the number of failures not followed by a removal through success, expiry, purge or eviction |
| LoginLockout.LastFailureExactly | app/gateway/routers/auth.py:253-259 | the last failure is the last entry about one |
| LoginLockout.DeadlineExactly | app/gateway/routers/auth.py:254-259 | in every table that summarizes its history a deadline is set if and only if the count has reached five |
| SetupStatus.SetupTables.Prune | app/gateway/routers/auth.py:424-433 | a full cache loses its expired answers and, if still full, the older half |
| SetupStatus.SetupTables.Enter | app/gateway/routers/auth.py:413-440 | gives a cached answer, joins the current computation, or starts one after pruning |
| SetupStatus.SetupTables.Settle | app/gateway/routers/auth.py:442-454 | forgets the computation only if it is still the current one, and keeps only the answer "set up" |
| SetupStatus.EntersIsEntered | app/gateway/routers/auth.py:413-440 | the step of the state machine is the guarded section |
| SetupStatus.NextKeeps | app/gateway/routers/auth.py:401-454 | every step keeps: an unfinished computation is the current one of its address, a current one is awaited, cached answers are "set up", the cache is bounded |
| SetupStatus.SingleFlight | app/gateway/routers/auth.py:422-447 | in every interleaving an address never has two unfinished computations |
| SetupStatus.SetUpIsTrue | app/gateway/routers/auth.py:403-454 | while administrators are only added, every answer "set up" is true when given, and the cache gives no other answer |
| SetupStatus.PrunedSize | app/gateway/routers/auth.py:424-433 | pruning leaves fewer than 10000 answers or about half of them |
| SetupAnswers.PrunedExactly | app/gateway/routers/auth.py:424-433 | below 10000 answers nothing is dropped; then exactly those older than 60 s; and if that is not enough half of the rest, none rather than an older one |
| SetupAnswers.CachedExactly | app/gateway/routers/auth.py:407-421 | a cached answer is given exactly while it is less than 60 s old |
| SetupAnswers.CachedAnswersAreFresh | app/gateway/routers/auth.py:403-454 | over any run an answer from the cache is "set up" and was stored less than 60 s before, by a request of the same address |
| SetupAnswers.FreshAnswersAreUsed | app/gateway/routers/auth.py:407-412 | while there is such an answer a request is answered on arrival and nothing is computed |
| SetupAnswers.ComputedAnswersAreCounted | app/gateway/routers/auth.py:435-454 | over any run any other answer says whether there was no administrator when a computation for the same address counted them |
| SetupStatus.CacheSize | app/gateway/routers/auth.py:424-454 | the cache never exceeds 9999 answers plus the largest number of addresses that waited at once, or twice that number plus one if that is more |
| SetupLimit.CacheGrowsTo | app/gateway/routers/auth.py:424-454 | for every positive w a run in which w addresses wait at once and the cache ends with 9999 + w answers |
| SetupLimit.LimitExactly | app/gateway/routers/auth.py:424-454 | the limit of 10000 holds in all runs in which at most w addresses wait at once, if and only if w is at most one |
| FeishuCards.RunningCards.EnsureStarted | app/channels/feishu.py:505-518 | starts a creation only when there is neither card nor creation, and returns what to wait for |
| FeishuCards.RunningCards.Record | app/channels/feishu.py:495-503 | records a card only when the platform returned one |
| FeishuCards.RunningCards.Finalize | app/channels/feishu.py:520-523 | unregisters a creation only if it is still the registered one |
| FeishuCards.RunningCards.Forget | app/channels/feishu.py:586-587 | forgets the card of the message and nothing else |
| FeishuCards.StepKeeps | app/channels/feishu.py:495-589 | every step keeps: an unfinished creation is registered and its message has no card; recorded and patched cards were made for their own message |
| FeishuCards.OneTask | app/channels/feishu.py:505-523 | in every interleaving a message never has two unfinished creations, nor a recorded card and an unfinished creation |
| FeishuCards.OwnCard | app/channels/feishu.py:543-573 | a sender only patches a card made for its own message |
| FeishuCards.SendUsesCard | app/channels/feishu.py:543-582 | a send patches the card there is, or waits for the one being made; without either a final replies and an update has a card made |
| FeishuCards.FinalsAreAnswered | app/channels/feishu.py:543-589 | over any run a final completes only by a card patched or a reply sent with its answer, and fails only with the reply or with the creation it waited for |
| FeishuCards.RepliesOnlyWithoutCard | app/channels/feishu.py:543-575 | over any run a separate reply is sent only by a final that found neither card nor creation, whose creation ended without a card, or whose patch failed |
| FeishuCards.FailedPatchIsReplied | app/channels/feishu.py:555-566 | a final whose patch fails can still reply, and with the reply forgets the card |
| FeishuCards.RecordedTwice | app/channels/feishu.py:495-589 | between two cards recorded for a message a final for it completes |
| FeishuCards.CreatedTwice | app/channels/feishu.py:505-518 | a second creation starts only after the first ended without a card or a final completed |
| FeishuCards.QuietAfterFinalExactly | app/channels/feishu.py:586-587 | after a final no card turns up again without a new creation, exactly when none of the message was unfinished as it completed |
| FeishuCards.FinalCanLeaveCard | app/channels/feishu.py:543-589 | a run in which the first creation of a message ends without a card, the message arrives once more while its final is under way, and a card is recorded after the final, the only sender, has completed |
| UniqueNames.CandidatesDiffer | packages/harness/deerflow/uploads/manager.py:96-101 | numbered variants of a name are all different |
| UniqueNames.CandidateExactly | packages/harness/deerflow/uploads/manager.py:96-101 | a variant is the stem, an underscore, the number in decimal, and the extension behind the last dot that has something on both sides |
| UniqueNames.CandidateExamples | packages/harness/deerflow/uploads/manager.py:96-101 | two of them |
| UniqueNames.ClaimUniqueFilename | packages/harness/deerflow/uploads/manager.py:81-103 | terminates with the name itself if it is free, or else the first numbered variant that is |
| UniqueNames.ClaimUnique | packages/harness/deerflow/uploads/manager.py:81-103 | that describes one name only |
| Uploads.UploadDir.WriteWithLimits | app/gateway/routers/uploads.py:165-193 | a body is written whole if and only if it arrives whole and its size and the total fit; otherwise the first piece that fails decides the error and the file is gone; at every piece the limits hold |
| Uploads.FailureIsFinal | app/gateway/routers/uploads.py:177-183 | a body with a failing piece can never fit as a whole |
| Uploads.CauseExactly | app/gateway/routers/uploads.py:177-183 | which limit a failing piece is reported for: that of its file first, then that of the request |
| Uploads.UploadDir.Cleanup | app/gateway/routers/uploads.py:154-161 | removes exactly the given files, within the limits at every step |
| Uploads.UploadDir.UploadFiles | app/gateway/routers/uploads.py:218-317 | succeeds if and only if there are files, not too many, and all named files are acceptable together; then exactly they are in place; otherwise everything the request opened is gone, and the directory is as it was if and only if none of the opened names was in use before; bytes kept respect both limits at every step |
| Uploads.AcceptablePrefix | app/gateway/routers/uploads.py:251-317 | what is refused stays refused whatever files follow |
| Uploads.ClaimsDistinct | app/gateway/routers/uploads.py:251-260 | files of one request never share a destination |
| Uploads.ClaimsExactly | app/gateway/routers/uploads.py:251-260 | every file with a safe base name is claimed, in order, under that name or its first numbered variant that no file before it has |
| Uploads.OpenedExactly | app/gateway/routers/uploads.py:262-305 | opened are exactly the claims whose destination opens, skipped those whose destination is unsafe |
| Uploads.OpenedInOrder | app/gateway/routers/uploads.py:262-305 | files are written in the order in which they were claimed |
| Uploads.StoredExactly | app/gateway/routers/uploads.py:262-305 | after success the accepted files are in place with the reported names and sizes, everything else is as before |
| Uploads.StoredAgainExactly | app/gateway/routers/uploads.py:262-305 | a successful request leaves the directory as it was if and only if every accepted file was there already with the same contents |
| Uploads.ReplacedIsLost | app/gateway/routers/uploads.py:185-191 | a request with one upload that is too large is refused and takes an earlier file of its name with it |
| DiscordSplit.SplitText | app/channels/discord.py:602-619 | every piece but the last ends at the last line end that fits, or after 2000 characters when there is none; the whole run of newlines after it is dropped; a text that fits is one piece, the empty text one empty piece |
| DiscordSplit.SplitIsUnique | app/channels/discord.py:602-619 | there is only one such way to split a text |
| DiscordSplit.SplitIsSound | app/channels/discord.py:602-619 | pieces are non-empty and at most 2000 characters long, and with the dropped runs of newlines they make up the text |
| DiscordSplit.LinesStayWhole | app/channels/discord.py:610-612 | a line is cut apart only by a full piece without a line end after its first character |
| DiscordSplit.CutsAreLatest | app/channels/discord.py:605-612 | no cut is earlier than need be: what is left is too long, and has no later line end that fits |
| DiscordSplit.OnlyNewlinesAreLost | app/channels/discord.py:602-619 | the pieces together hold the characters of the text other than newlines, in order |

## Left out

- Everything network-bound (HTTP, web sockets, chat platform SDKs, the graph runtime) enters only through the possible outcomes of a call.
- AES itself, hashing, regular expressions, JSON, authentication tokens and persistence.
- Chain assembly: base classes of the built-in middlewares other than the common one, the extra tools, and the chain a failed assembly leaves behind, which nobody sees.
- Embedded client: exactly-once claims for messages without an id, which the code re-emits on purpose (what it does with them is `UnnamedDelivered`); the shape of item tuples; text extraction from content blocks.
- Key codec: `_resolve_media_aes_key`, which only looks up candidates; base64 and hex decoding follow CPython 3.12.
- Telegram: interleavings of two sends for the same conversation at an await; deletions between two calls of one operation, which are taken to come before or after it; replies and threading; invalid chat ids and a missing application, which return at once; the platform's own refusal of texts longer than 4096 characters, which concerns finals without a tracked stream; waiting times. A send whose answer is lost may leave an additional message, which is not counted among the delivered ones.
- Manager: attachment resolution is a given set of resolvable paths; message text and artifact paths are given as extracted; cancellation of the handler; errors raised by publishing the final message; how the key of a received message is put together.
- Lock-out table: entries with equal deadlines are dropped in any order, while the source's sort keeps insertion order; address detection behind proxies.
- Setup status: entries stored at the same time are dropped in any order, as above. The guard never stays locked across a wait, so a request that cannot enter at once is modelled as one that enters later.
- Running cards: cancellation by `stop()`, reactions, thread mappings and pending clarifications, messages without a source message, retries of a whole send (they are further senders).
- Uploads: document conversion, sandbox synchronisation and file modes, failures to remove a file, cancelled requests; `normalize_filename` is given as a result; buffering between write and disk.
- Discord: thread bookkeeping and typing indicators; the platform's refusal of messages that consist of white space only.
- LoginLockout.DeadlineExactly: assumes a clock that started after time zero, so that a deadline of 0.0 always means none.
- Uploads.ReplacedIsLost: one family of inputs, the general statement is in UploadFiles.
