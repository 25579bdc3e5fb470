# Verification model of the WhatsApp–Telegram translation bridge

wa-service puts WhatsApp messages on a Redis list; N processor workers take them off, translate
them with a language model and send them to every Telegram chat paired with the WhatsApp chat.
This project models that pipeline and the glossary and review machinery beside it, and proves
what the services rely on. `dafny verify dfyconfig.toml` checks all of it.

**The queue protocol** (`QueueModel`) is a labelled step system: the lists `messages:in`,
`messages:processing`, `messages:dlq` and `messages:dlq:dead`, the workers with their per-chat FIFO
locks, the entry the dead-letter loop holds between its two Redis commands, the `message_events`
rows, the dedup keys and a clock. A step is one Redis or database command, one send, or one
stretch of code between two awaits; a crash may fall between any two steps, also inside recovery.
A theorem about a run is about every interleaving of every number of workers. `QueueLocks` and
`QueueTrace` hold what every run keeps, `QueueConservation`, `QueueFanOut`, `QueueRows`,
`QueueAccount`, `QueueDelivery`, `QueueResends`, `QueueOrder`, `QueueRetries`, `QueueDedup` and
`QueueProgress` the results, `QueueLimits` the runs that show a bound is met or a hypothesis
needed, `QueueLoops` the processor's loops in the form the code gives them, and `QueueSimulation`
the link between the two: each loop is a run of the step system.

`Config` fixes the pairs of each chat for the run. Two more hypotheses appear, each only where it is
needed. A run is *prompt* when a message is emitted again only while its dedup key lives. A message has
*one lock key* when no copy of it was enqueued under a second user. Conservation, the targets of sends
and rows, order, exclusion, dedup, the retry bounds and draining need neither. With one lock key a
delivered row stays delivered, and accepted sends are counted exactly (`SendsAreAccounted`): one for the
delivered row, one for each crash that caught a send before its record, one if a send is being recorded,
and one for each send recorded over a delivered row; the last kind is sent by the run of an unmarked copy
and by no other (`ResentIff`). In a prompt run there is none of it, so there is at most one send besides
the crashes (`AtMostOnce`); without promptness, at most one per enqueue besides the crashes
(`SendsAreBounded`). `LateReemitSendsTwice`, `TwoClientsUndoDelivered` and `TwoClientsSendThrice` are runs
that show each hypothesis needed.

**The rest**: `Dedup` (which publishes reach the queue), `TranslationCache` (two caches, the echo
retry and the store guard against the plain node, interleaved at every await), `GlossaryMatch`,
`GlossaryWords`, `GlossaryIndex`, `GlossaryHits` and `GlossaryLayers` (normalisation and words, the
indexed scan against a naive one, what a hit is, and the layers from service-wide rows down to the
chat's own guesses), `ProfileGlossary` and
`ServiceGlossary` (the two glossary life cycles, the second with three services interleaved),
`MessagePacking`, `AlertWindow`, `ReviewCallbacks` and `RoundRobin`. `Wrappers`,
`GlossaryStatus` and `QueueRuns` hold what several modules share.

What the proofs found out about the code:

- The dead-letter loop can lose a message: the entry it holds between RPOP and LPUSH, at a crash or when a
  graceful shutdown cancels it (`HandIsLost`). As long as commands succeed this is the only way: a branch
  stops being accounted for exactly when the loop is stopped with the only copy that owes it in hand.
- "Fresh messages skip the query: wa-service dedup has them covered" (processor/src/main.py:1142-1143)
  holds only within DEDUP_TTL. A copy emitted after the key expired does not ask what was delivered: what its
  run sends to a pair that has the message already, and Telegram accepts, is a second send (`ResentIff`).
- Group pairs are looked up without the user, the lock key contains the user. A group message re-emitted
  through a second client after its key expired runs beside the first copy, and the unguarded update
  after a two-phase send can turn its `delivered` row into `failed` (`TwoClientsUndoDelivered`); its
  retries then send it again (`TwoClientsSendThrice`).
- `key_of` is not idempotent on every text: underscores can shield a quote mark in front, or a gershayim at
  the end, of a token from the first pass. It is idempotent exactly when no token of the text does that.
- `pack_messages` drops an empty block that arrives while no message is open or that no longer fits. Joining
  gives the blocks back exactly when that never happens, the only block is empty, or the separator is.
- `split_text` can cut a word no longer than the limit: a break in the first position is never used.
- Ten ids below 36^4 fit a review message's callback data and ten from there up do not; in between, exactly
  the digits and commas count.
- POST /translate stores the model's first reply unguarded under the cache keys of pair 0, which the node also
  reads for messages without a pair. There a call returns the uncached text or that first reply, and the two
  differ exactly when the first reply looks untranslated and the node's retry mends it (`PairZeroIsTransparentIff`).
- An admin who accepts a proposed row that has no rendering makes it `verified` with none. This is the
  only way a used row comes to have no rendering, and it is reached (`BlankRowIsReached`).
- The arbiter's test `decided_by IS DISTINCT FROM 'admin'` never decides anything: a proposed row has no
  author.
- Hand edits are documented as never touched by the resolver (processor/src/main.py:553); its `classify`
  step does write `also_word` on locked rows, and import and upsert write where their names were seen. A
  decided row keeps everything else.

## Model

| member | source | states |
|---|---|---|
| QueueConservation.NothingIsLost | processor/src/main.py:1302-1358 | every run, any crashes: at its end an enqueued message is, for each pair of its chat, or as pair-less exactly when the chat has no pair, settled or carried by a copy in one of the four lists or in the dead-letter loop's hand, unless a step stopped that loop with the only such copy in hand and nothing brought the branch back since |
| QueueConservation.LostIff | processor/src/main.py:1020-1045 | one step of any sound state: a branch accounted for stops being so iff the step is a crash or a cancellation, the hand's entry owes it and nothing else carries it (at a crash, the in-flight list included) |
| QueueModel.BranchesAreDue | processor/src/main.py:1127-1137 | a run is fanned out to exactly the pairs of the chat, and to one pair-less branch exactly when there are none |
| QueueFanOut.NothingGoesAstray | processor/src/main.py:1127-1153 | every run, any crashes: whatever Telegram accepted for a pair, and every row of it, is of a message enqueued in a chat with that pair; a pair-less row is `skipped`, only such a row is, and nothing is sent for it |
| QueueFanOut.SkippedIff | processor/src/main.py:1139-1151 | every run with one lock key per message: a branch is passed over iff its copy has `_dlq_attempts` or `_requeued` and the row of this message and branch is delivered |
| QueueDedup.PublishIsExact | wa-service/src/redis-publisher.js:37-43 | every run, any crashes: within DEDUP_TTL of the message's latest enqueue a publish changes nothing; otherwise a fresh copy joins the far end of the queue and the key is set anew |
| QueueLocks.ChatExclusion | processor/src/main.py:1316-1345 | two workers never hold the lock of one chat: its messages are processed one at a time |
| QueueLocks.InFlightIsHeld | processor/src/main.py:1336-1345 | while workers serve, `messages:processing` is, copy for copy, what they hold |
| QueueDelivery.AtMostOnce | processor/src/main.py:1139-1152 | sends Telegram accepted for (message, pair) = 1 if its row is delivered + crashes that fell between a send and its record + 1 if one is being recorded now; so at most 1 + those crashes, in spite of several copies |
| QueueAccount.SendsAreAccounted | processor/src/main.py:1139-1152 | every run with one lock key per message, late re-emits included: accepted sends of (message, pair) = 1 if its row is delivered + crashes that caught a send before its record + 1 if one is being recorded + sends recorded over a delivered row |
| QueueAccount.ResentIff | processor/src/main.py:1144-1150 | any state of such a run with the row delivered: a step adds an accepted send iff it is one at that pair by the run of a copy without `_dlq_attempts` or `_requeued` |
| QueueResends.SendsAreBounded | processor/src/main.py:1139-1152 | in every such run accepted sends are at most the message's enqueues + the crashes that caught one, and exactly those crashes + the send being recorded while no row says delivered |
| QueueDelivery.UnmarkedIsAlone | processor/src/main.py:1199-1212 | a queued copy without `_dlq_attempts` or `_requeued` is the only copy of its message in the queue, in flight, in the DLQ, in hand and among the dead; the message was never started and has no row |
| QueueRows.DeliveredIsAbsorbing | processor/src/pipeline/nodes.py:591-688 | every run in which each message has one lock key, late re-emits and crashes included: what a run delivered, every continuation leaves delivered, through the plain and the two-phase delivery |
| QueueRows.DeliveredLostIff | processor/src/db.py:231-309 | any state: a step takes `delivered` from a row iff it is the unguarded update by event id after a refused send |
| QueueDelivery.DeliveredIsFinal | processor/src/main.py:1139-1152 | from any sound state of a prompt run with the row delivered, that message is not sent to that pair again |
| QueueDelivery.DeliveredIsNotResent | processor/src/main.py:1139-1152 | the same for every prompt run and every prompt continuation of it |
| QueueOrder.FirstStartsInOrder | processor/src/main.py:1316-1345 | every run, late re-emits and crashes included, any number of workers: under a lock key, messages in the order their first processing began are a prefix of those in the order they were first enqueued |
| QueueOrder.PromptStartsInOrder | processor/src/main.py:1316-1345 | with prompt re-emits, a prefix of all its enqueues in order |
| QueueOrder.PopKeepsBacklog | processor/src/main.py:1336 | BLMOVE leaves `in` followed by `processing`, read as one list, unchanged |
| QueueOrder.HeadIsNext | processor/src/main.py:1339-1344 | when the head of a chat's lock line begins a message not begun before, it is exactly the next of the chat's first enqueues |
| QueueRetries.AttemptsAreCapped | processor/src/main.py:1036-1044 | every run: nothing in `messages:in` has more than DLQ_MAX_ATTEMPTS attempts; a dead entry has exactly that many |
| QueueRetries.ProcessingIsBounded | processor/src/main.py:1018-1045 | without crashes, processings so far plus what the copies in the system can still cause never exceed the budget of the enqueues |
| QueueRetries.RetriesAreBounded | processor/src/main.py:1146-1152 | a message enqueued once in a chat with k branches is processed at most 1 + k + … + k^DLQ_MAX_ATTEMPTS times |
| QueueRetries.CostIsPowerSum | processor/src/main.py:1292-1299 | what one copy can cost, each failing branch pushing its own copy, is that sum from its attempt count on |
| QueueLimits.CrashInDoubtResends | processor/src/pipeline/nodes.py:645-678 | the crash bound is met: a prompt run with one crash between send and record sends twice |
| QueueLimits.LateReemitSendsTwice | processor/src/main.py:1139-1144 | promptness is needed: a re-emit after the dedup key expired is sent twice with no crash |
| QueueLimits.HandIsLost | processor/src/main.py:1021-1044 | a prompt run in which a crash, or a cancellation, loses the only copy of a message |
| QueueLimits.TwoClientsUndoDelivered | processor/src/db.py:296-309 | one lock key is needed: a run of two clients' copies of one message in which a delivered row becomes failed |
| QueueLimits.TwoClientsSendThrice | processor/src/db.py:296-309 | one lock key is needed: a run without crashes that sends three times for two enqueues |
| QueueProgress.QueueDrains | processor/src/main.py:1330-1345 | from every reachable state, whatever Telegram answers, a run without crash, failure or new message empties queue, in-flight list and DLQ; each branch of each enqueued message is then settled or with the dead, unless it was lost with the loop's hand |
| QueueProgress.SomeoneCanMove | processor/src/main.py:1316-1345 | no deadlock: while a worker is engaged, some worker holds its lock, is done, or heads its line |
| QueueLoops.RecoveryInvertsPopping | processor/src/main.py:1302-1313 | k pops and a full recovery restore the queue sequence up to the `_requeued` mark |
| QueueLoops.RecoverySurvivesCrashes | processor/src/main.py:1308-1310 | however often recovery is itself cut short, the in-flight items come back in order with at most one repeat per cut |
| QueueLoops.PassConserves | processor/src/main.py:1020-1045 | of the entries a dead-letter pass takes, each goes back to the queue or to the dead list, none vanishes |
| QueueLoops.Processor.RequeueInflight | processor/src/main.py:1302-1313 | the recovery loop, stopped after any number of Redis commands, leaves these lists |
| QueueLoops.Processor.DlqPass | processor/src/main.py:1018-1045 | one pass: the oldest entries leave the DLQ, those below the limit join the queue with one more attempt, the others are dead |
| QueueLoops.Processor.ProcessMessage | processor/src/main.py:1144-1152 | the fan-out: row by row what every branch leaves, a delivered row untouched, a raising branch with at most a pending row, and one DLQ copy per branch that raised |
| QueueSimulation.PushIsAStep | processor/src/main.py:1309 | each RPUSH of the recovery loop is a step of the protocol |
| QueueSimulation.RemoveIsAStep | processor/src/main.py:1310 | each LREM of the recovery loop is a step of the protocol |
| QueueSimulation.PopIsAStep | processor/src/main.py:1021 | each RPOP of the dead-letter pass is a step of the protocol |
| QueueSimulation.PlaceIsAStep | processor/src/main.py:1036-1044 | each placing of the entry in hand is a step of the protocol |
| QueueSimulation.RecoveryIsARun | processor/src/main.py:1302-1313 | any number of commands of the recovery loop is a run to the lists RequeueInflight leaves |
| QueueSimulation.DlqPassIsARun | processor/src/main.py:1018-1045 | a dead-letter pass over any number of entries is a run to the lists DlqPass leaves |
| QueueSimulation.BranchIsARun | processor/src/main.py:1215-1299 | each branch of the fan-out, whatever its outcome, is a run |
| QueueSimulation.FanOutIsARun | processor/src/main.py:1127-1152 | from the reading of the pairs, the whole fan-out is a run to the rows and the DLQ ProcessMessage leaves, all else unchanged: a row for each pair of the chat, and no other, is what its outcome writes, unless a returning copy finds it delivered |
| Dedup.DedupIsExact | wa-service/src/redis-publisher.js:37-43 | an attempt is enqueued if and only if no attempt with its id was enqueued less than DEDUP_TTL before |
| Dedup.KeyIsLatestEnqueue | wa-service/src/redis-publisher.js:38 | a dedup key exists exactly when its id was enqueued, and carries its latest enqueue |
| Dedup.DirectionDoesNotMatter | wa-service/src/redis-publisher.js:81-91 | `true_` and `false_` copies of one message share a dedup id, whoever received them |
| Dedup.IdsAreMessages | wa-service/src/redis-publisher.js:88-94 | two unedited messages share a dedup id iff their WhatsApp ids are the same without the `true_` or `false_` in front, whoever received them |
| Dedup.FallbackIds | wa-service/src/redis-publisher.js:60-69 | two messages without an id share one iff the shortened digests of chat, time, body and media type agree |
| Dedup.DifferentMessagesAreEnqueued | wa-service/src/redis-publisher.js:93-112 | two different messages published one after the other, after any publishes of others, are both enqueued |
| Dedup.EditIds | wa-service/src/redis-publisher.js:93-101 | edits of messages with bare ids a and b share an id iff a = b and the shortened body hashes agree; an edit has the id of an unedited message iff that one's bare id is the edit's spelled out, so never of the message it edits |
| Dedup.Publisher.PublishMessage | wa-service/src/redis-publisher.js:93-112 | the payload, its id rewritten to the id of IdsAreMessages, FallbackIds and EditIds, joins the queue exactly when the attempt is taken |
| TranslationCache.CacheIsTransparent | processor/src/pipeline/nodes.py:134-259 | over every interleaving of calls, evictions, Redis failures and unguarded stores under pair 0, a call for a chat pair returns what the node returns with empty caches |
| TranslationCache.PairZeroIsTransparentIff | processor/src/main.py:772-787 | over every run in which POST /translate stores first replies under their own keys, a call without a pair returns the uncached text or the first reply; always the uncached text iff the retry does not mend that reply |
| TranslationCache.MendedReply | processor/src/pipeline/nodes.py:214-230 | a model and a request for which it does |
| TranslationCache.NoBadTranslationStored | processor/src/pipeline/nodes.py:237-250 | whatever a reachable pair cache (pair not 0) or global cache holds is not empty, not under 0.3 of a source over 80 characters, trimmed not the trimmed source, and free of source script where a known target script is absent |
| TranslationCache.StripIff | processor/src/pipeline/nodes.py:122-123 | trimming takes the spaces off both ends, all of them and nothing else |
| TranslationCache.LooksUntranslatedIff | processor/src/pipeline/nodes.py:111-129 | a reply looks untranslated iff it is not empty and, trimmed, is the trimmed source or has source script and nothing of a known target script |
| TranslationCache.AnswerBySigns | processor/src/pipeline/nodes.py:210-250 | with empty caches the first reply is the answer, without a retry, if it has neither sign; else a second reply with neither, else the first unstored; stored iff non-empty and long enough |
| TranslationCache.RetryHasCause | processor/src/pipeline/nodes.py:214-225 | every run: the model is asked again only about a first reply to the message itself that has one of the signs |
| TranslationCache.HitIsServed | processor/src/pipeline/nodes.py:168-173 | after any run, what is under a request's pair key answers it in one read |
| TranslationCache.GlobalHitIsServed | processor/src/pipeline/nodes.py:175-182 | failing that, what is under its global key does, for a chat without context, and is filed under the pair key |
| TranslationCache.TranslateIsARun | processor/src/pipeline/nodes.py:168-259 | after any run, a call nothing disturbs ends in the answer and the caches the method is proved to leave |
| TranslationCache.KeysFixTheModel | processor/src/pipeline/prompts.py:77-80 | equal keys come from one model and one prompt variant: changing the model starts with empty caches |
| TranslationCache.PairKeyInjective | processor/src/pipeline/cache.py:56-61 | equal pair keys come from equal language, pair, variant, context and text |
| TranslationCache.GlobalKeyInjective | processor/src/pipeline/cache.py:80-83 | equal global keys of calls without context come from calls with one uncached answer |
| TranslationCache.Translator.Translate | processor/src/pipeline/nodes.py:168-259 | one undisturbed call: what is under the pair key, else the uncached answer, filed under the pair key, and without context under the global one, exactly when it is fit; for a chat pair always the uncached answer; the caches stay sound |
| TranslationCache.Translator.DirectStore | processor/src/main.py:787 | a direct store under pair 0 keeps the pair and global caches sound |
| TranslationCache.Translator.Evict | processor/src/pipeline/cache.py:72-77 | expiry of any entry keeps both caches sound |
| GlossaryMatch.SplitWords | shared/bridge_shared/glossary_match.py:37-45 | the loop over the tokens keeps, trimmed, those with something left |
| GlossaryMatch.TokensOfPhrase | shared/bridge_shared/glossary_match.py:37-50 | words joined by spaces split back into the same words |
| GlossaryMatch.PhraseInjective | shared/bridge_shared/glossary_match.py:102-103 | two phrases look up the same dictionary key only if they are the same words |
| GlossaryMatch.WordsAreClean | shared/bridge_shared/glossary_match.py:31-45 | every word is non-empty, of word characters, folded and without niqqud |
| GlossaryMatch.KeyOfIdempotentIff | shared/bridge_shared/glossary_match.py:42-50 | `key_of` is idempotent on a text iff none of its tokens, quotes in front and gershayim at the end stripped, has underscores before a quote mark or after a gershayim |
| GlossaryMatch.KeyOfIdempotent | shared/bridge_shared/glossary_match.py:37-50 | in particular on every text without underscores |
| GlossaryMatch.KeyOfNotIdempotent | shared/bridge_shared/glossary_match.py:42 | a text with an underscore on which it is not |
| GlossaryWords.NormalizeIff | shared/bridge_shared/glossary_match.py:31-34 | two texts normalise to the same iff, niqqud aside, they agree sign by sign up to letter case, the form of quote marks, and hyphens or slashes for spaces |
| GlossaryWords.LookAlikesShareAKey | shared/bridge_shared/glossary_match.py:11-12 | such texts have the same words and the same key |
| GlossaryWords.SeparatorsPartWords | shared/bridge_shared/glossary_match.py:37-41 | at a space, a hyphen or a foreign sign, the words of a text are those before it and those after it |
| GlossaryWords.NothingElseParts | shared/bridge_shared/glossary_match.py:37-45 | a text without any of these is one word, what its normal form leaves when stripped, or none |
| GlossaryWords.TrimIff | shared/bridge_shared/glossary_match.py:42 | quote marks in front, gershayim at the end, then underscores at both ends are stripped, all of them and nothing else: a geresh at the end stays |
| GlossaryIndex.Index.constructor | shared/bridge_shared/glossary_match.py:78-87 | for any words the dictionary answers what a search through all entries answers, and no entry is longer than `max_words` |
| GlossaryIndex.Index.Find | shared/bridge_shared/glossary_match.py:92-111 | find returns exactly what the naive leftmost-longest scan mentions |
| GlossaryIndex.Index.LongestMatch | shared/bridge_shared/glossary_match.py:100-109 | the capped length loop finds the longest phrase of any length at a position |
| GlossaryIndex.Index.TryVariants | shared/bridge_shared/glossary_match.py:102-107 | the variant loop finds the first stripped form that makes a phrase |
| GlossaryIndex.CapLosesNothing | shared/bridge_shared/glossary_match.py:86-100 | capping phrase lengths by `max_words` loses nothing |
| GlossaryIndex.ScanIsLeftmostLongest | shared/bridge_shared/glossary_match.py:15-16 | matched spans are disjoint and ordered, each is the longest phrase where it starts, and a word outside every span starts no phrase of any length |
| GlossaryIndex.KeyFindsItself | shared/bridge_shared/glossary_match.py:78-111 | the text of an indexed key mentions exactly the entry of its words |
| GlossaryHits.VariantsAre | shared/bridge_shared/glossary_match.py:53-61 | the forms tried are the word, and it without one or two of the seven prefix letters while two characters are left, in that order |
| GlossaryHits.EntryForIff | shared/bridge_shared/glossary_match.py:78-87 | of the keys with exactly these words, one to four of them, the last answers; without such a key none does |
| GlossaryHits.PhraseAtIff | shared/bridge_shared/glossary_match.py:102-107 | a phrase stands at a position iff a form of the word there and the words after it are a key's, the first such form deciding |
| GlossaryHits.MentionedIff | shared/bridge_shared/glossary_match.py:92-111 | a text mentions exactly the keys of its scan's spans |
| GlossaryHits.LookAlikesAreFound | shared/bridge_shared/glossary_match.py:11-12 | texts that look alike mention the same; one that looks like an indexed key mentions its entry and nothing else |
| GlossaryLayers.CoversIff | shared/bridge_shared/glossary_match.py:64-72 | the positional search says yes iff both names have words and one's lie consecutively in the other's, either way round |
| GlossaryLayers.CoversIsSymmetric | shared/bridge_shared/glossary_match.py:64-72 | covering is symmetric |
| GlossaryLayers.CoversItself | shared/bridge_shared/glossary_match.py:67-69 | a name covers itself iff it has words |
| GlossaryLayers.Service.Refresh | processor/src/pipeline/glossary.py:81-99 | after a reload each language and each chat has exactly the rows meant for it, as NamesStayInTheirChats and the three Reach lemmas tell them apart |
| GlossaryLayers.Service.Lookup | processor/src/pipeline/glossary.py:111-130 | the sequence of updates over the indexes gives the layered hits |
| GlossaryLayers.OverridesComeFirst | processor/src/pipeline/glossary.py:125-129 | every own hit is kept as is, and no other hit's words overlap one either way round |
| GlossaryLayers.NamesStayInTheirChats | processor/src/pipeline/glossary.py:11-13 | a hit that no override of the chat gives comes from a row of the language that is locked, has also_word false, or lists this very chat in chat_pairs; outside any chat from one of the first two |
| GlossaryLayers.UnscopedRowsReachAll | processor/src/pipeline/glossary.py:92-93 | a row that is locked or has also_word false is in what every lookup of its language searches, unless a later such row has its source |
| GlossaryLayers.ScopedRowsReachTheirChats | processor/src/pipeline/glossary.py:94-96 | any other row is in what lookups in each of its chat_pairs search, with the same proviso |
| GlossaryLayers.OverridesReachTheirChat | processor/src/pipeline/glossary.py:97-99 | an override is in what lookups in its chat search, with the same proviso |
| GlossaryLayers.FoundIff | processor/src/pipeline/glossary.py:111-130 | a lookup in a chat finds its own hits, and the service-wide and scoped hits none of them overlaps, scoped before service-wide; outside any chat the service-wide hits |
| GlossaryLayers.HitsReplaceGuesses | shared/bridge_shared/chat_context.py:18-36 | all hits are in, a chat's guess stays unchanged iff no hit overlaps it as whole words, and the members stay but for those that are hits |
| GlossaryLayers.WithGlossaryTwice | shared/bridge_shared/chat_context.py:18-36 | laying the same hits over a profile twice is laying them once |
| GlossaryLayers.OverrideIsTheOnlyRendering | processor/src/pipeline/nodes.py:153-155 | in the final prompt any name overlapping a mentioned override is itself an override of the chat |
| ProfileGlossary.ApplyFlags | analytics/flows/glossary.py:110-146 | the loop over the hits equals the night's simultaneous update of every entry, and returns, in order, the keys that left the glossary |
| ProfileGlossary.RecordDropped | analytics/flows/glossary.py:215-233 | the loop over rejections takes each from glossary and flags and puts it on the ban list with its rendering |
| ProfileGlossary.GlossaryAndBanListAreDisjoint | analytics/flows/chat_context_builder.py:293-309 | every run of feedback, merge and validator: no key is both in use and banned; flags are only on keys in use, below the threshold |
| ProfileGlossary.RemovedStaysRemoved | analytics/flows/chat_context_builder.py:398-411 | a banned key is banned, and out of the glossary, after every continuation of the run |
| ProfileGlossary.FlagsAddUp | analytics/flows/glossary.py:126-143 | an entry's flag count is all the hits it ever got while in use, below the threshold; with hits at the threshold it is banned |
| ProfileGlossary.EvaluatorRemovesAtThreshold | analytics/flows/glossary.py:133-143 | a night of feedback removes an entry iff it was hit and its accumulated hits reach the threshold |
| ProfileGlossary.FeedbackOnAnEntry | analytics/flows/glossary.py:126-143 | a night of feedback, entry by entry: one in use that was hit goes to the ban list with rendering and count if the count reaches the threshold, else stays with the count and the last three examples; all else stays |
| ProfileGlossary.StoreOnAnEntry | analytics/flows/chat_context_builder.py:305-411 | what the builder brings is in use afterwards in its rendering unless banned or rejected; what the validator rejects is banned with its rendering and reason, and loses its flags; all else stays |
| ServiceGlossary.DecisionsAreFinal | analytics/flows/glossary_resolver.py:446-454 | no interleaving of import, upsert, resolver, arbiter and classifier changes a decided row but for its also-a-word mark and where it was seen |
| ServiceGlossary.JobsOnADecidedRow | analytics/flows/glossary_resolver.py:140-217 | a job's step changes the mark of a decided row iff the classifier writes a new one for it, and its sightings iff an import or a sighting brings new ones; nothing else |
| ServiceGlossary.PinnedRowIsRewritten | analytics/flows/glossary_resolver.py:360-363 | a run in which a hand-pinned row gets its mark and a chat from the jobs |
| ServiceGlossary.JobVerdictsHaveGrounds | analytics/flows/glossary_resolver.py:370-385 | every run: a row the jobs verified has the rendering of a confident answer the resolver read while all the chats agreed with it, or of a confident single reading of the arbiter's |
| ServiceGlossary.StatusNeverFallsBack | bot/src/db.py:357-371 | over every run, admin steps included, candidate < proposed < verified/rejected < locked never falls, and verified and rejected never swap |
| ServiceGlossary.NamesAreUnique | analytics/flows/glossary_resolver.py:140-153 | every run keeps one row a name and language |
| ServiceGlossary.ProposedHasNoAuthor | analytics/flows/glossary_resolver.py:557-562 | a proposed row never has an author, so the arbiter's test for an admin is redundant |
| ServiceGlossary.BlankRowsComeFromAcceptingBlanks | bot/src/handlers/glossary.py:92-96 | a row comes into use without a rendering iff an admin accepts, without giving one, a proposed row that has none |
| ServiceGlossary.BlankRowIsReached | bot/src/db.py:357-371 | a run that gets there |
| ServiceGlossary.ArbiterSettlesItsEntry | analytics/flows/glossary_resolver.py:514-562 | the arbiter changes only the proposed entry it is at: a confident single reading is verified with that rendering, any other answer rejects it and keeps the rendering it had; nothing else of the row changes |
| ServiceGlossary.VerifiedWhenUnanimous | analytics/flows/glossary_resolver.py:370-385 | automatic verification iff a confident named answer and chats whose guesses all normalise to it |
| ServiceGlossary.DecideOtherwise | analytics/flows/glossary_resolver.py:370-385 | candidate iff there is no answer, rejected iff a confident one says it is no name, never locked; what is left is proposed |
| ServiceGlossary.AdminDecisionStands | bot/src/db.py:357-371 | after any legal run: a decision on a proposed row leaves that status, that author and the given rendering, or the old one if none is given, and changes nothing else; on any other row nothing at all |
| ServiceGlossary.AdminPinStands | processor/src/main.py:602-608 | after any legal run: a pin leaves its name, old or new, locked by an admin in the given rendering and kind, keeps where it was seen and its mark, and changes no other row |
| ServiceGlossary.AdminDeletionIsOfOne | processor/src/main.py:613-623 | a deletion takes its row and no other |
| ServiceGlossary.ImportBringsSightings | analytics/flows/glossary_resolver.py:140-153 | an import replaces a known name's sightings, its kind too while it is a candidate and they differ, and nothing else; a new name is a candidate without rendering or author |
| ServiceGlossary.SightingAddsTheChat | analytics/flows/glossary_resolver.py:195-218 | a sighting in a new chat adds the chat and counts the rendering; in a known one it changes nothing; a new name is a candidate seen once |
| ServiceGlossary.ResolverPlansItsAnswers | analytics/flows/glossary_resolver.py:433-445 | the resolver plans one update for each answer there is, with its rendering, its kind unless the name is a person's, and the status its rule gives |
| ServiceGlossary.ResolverWriteStands | analytics/flows/glossary_resolver.py:446-454 | its write leaves a row that is a candidate still with the planned rendering, kind and status, its own as author where that decides it, and changes nothing else; any other row not at all |
| ServiceGlossary.ClassifierWritesTheMark | analytics/flows/glossary_resolver.py:360-363 | the classifier writes the also-a-word mark and nothing else, on any row |
| ServiceGlossary.Table.GlossaryDecide | bot/src/db.py:357-371 | decides a row only while it is proposed, with the status given and the rendering given or else the old one, by an admin, all else unchanged; None means another admin was first and nothing changed |
| ServiceGlossary.Table.WriteResolved | analytics/flows/glossary_resolver.py:446-454 | the batch applies each update under its own guard, in order |
| MessagePacking.PackMessages | bot/src/utils/telegram_format.py:43-56 | the loop sends the greedy packing |
| MessagePacking.PackingIsOptimal | bot/src/utils/telegram_format.py:43-46 | non-empty blocks: joining the messages gives the joined blocks, each message is a group of whole blocks that fits, and no grouping has fewer |
| MessagePacking.MessagesFit | bot/src/utils/telegram_format.py:47-56 | any blocks: no message is empty, and only a single block is ever over the limit |
| MessagePacking.RejoinsIff | bot/src/utils/telegram_format.py:43-56 | any blocks, separator and limit: joining the messages gives the joined blocks iff no empty block is dropped, one empty block is all there is, or the separator is empty |
| MessagePacking.EmptyBlockIsDropped | bot/src/utils/telegram_format.py:48-49 | an empty first block leaves no trace |
| MessagePacking.SplitText | bot/src/utils/telegram_format.py:24-40 | the loop gives the pieces of the cuts |
| MessagePacking.FindCut | bot/src/utils/telegram_format.py:30-38 | last paragraph break before the limit, else last line break, else last space, else a hard cut at the limit |
| MessagePacking.PiecesFit | bot/src/utils/telegram_format.py:25-27 | every piece is within the limit and only "\n\n", "\n", " " or nothing is cut out |
| MessagePacking.SplitRebuilds | bot/src/utils/telegram_format.py:24-40 | the pieces with each cut break put back are the text |
| MessagePacking.EveryCutIsBest | bot/src/utils/telegram_format.py:25-27 | at every cut, of the text left there, the best usable break is taken |
| MessagePacking.HardCutIff | bot/src/utils/telegram_format.py:30-38 | a cut is hard iff no space or line break stands at positions 1 to the limit |
| MessagePacking.HardCutsAreInWords | bot/src/utils/telegram_format.py:26-27 | a hard cut is inside a word longer than the limit iff the text left there does not begin with a space or a line break |
| MessagePacking.ShortWordIsCut | bot/src/utils/telegram_format.py:31-32 | after a leading space a word no longer than the limit is cut |
| AlertWindow.WindowIsExact | processor/src/alerts.py:65-77 | monotone clock: the deque is exactly the events no older than `window` at the last record |
| AlertWindow.LatchIsLastFire | processor/src/alerts.py:79-87 | the latch is the time of the last alert since the last rearm |
| AlertWindow.FireIsExact | processor/src/alerts.py:82-87 | fire says yes iff no fire since the last rearm was less than `cooldown` ago (ever, without a cooldown) |
| AlertWindow.AlertsAreSeparated | processor/src/main.py:175-191 | between two failure-rate alerts there is a record at which the window held FAILURE_RATE_MIN_MSGS events and no failure |
| AlertWindow.AlertIff | processor/src/main.py:175-191 | ordered deliveries: the alert goes off iff, of the deliveries within the window, there are FAILURE_RATE_MIN_MSGS and the share of failed ones is at FAILURE_RATE_THRESHOLD, and since every earlier alert there was a moment with as many and none failed |
| AlertWindow.TrackDelivery | processor/src/main.py:175-191 | the tracker's new window, latch and alert |
| AlertWindow.SlidingWindow.Record | processor/src/alerts.py:73-77 | drops what is older than the window, then appends |
| AlertWindow.SlidingWindow.Fire | processor/src/alerts.py:82-87 | answers and latches |
| ReviewCallbacks.ValueOfNumeral | shared/bridge_shared/glossary_review.py:27-38 | from36(to36(n)) = n, in any base up to 36 |
| ReviewCallbacks.To36 | shared/bridge_shared/glossary_review.py:27-34 | the division loop writes the base-36 numeral |
| ReviewCallbacks.IdsRoundTrip | shared/bridge_shared/glossary_review.py:45 | a separated list of ids reads back, the empty one included |
| ReviewCallbacks.Build | shared/bridge_shared/glossary_review.py:75-96 | the callback data of the keyboard: three buttons for each proposed row, the whole batch in the last |
| ReviewCallbacks.ButtonsIff | shared/bridge_shared/glossary_review.py:90-93 | the row buttons are, for each proposed row and each of ok, ed and no, the callback data with that action and the row's own id, which reads back |
| ReviewCallbacks.BatchRoundTrip | shared/bridge_shared/glossary_review.py:41-46 | a review message gives back all ids of its batch in order |
| ReviewCallbacks.NumeralLength | shared/bridge_shared/glossary_review.py:27-34 | at most k digits iff below 36^k |
| ReviewCallbacks.CallbacksFitIff | shared/bridge_shared/glossary_review.py:87-96 | any rows: every callback fits 64 bytes iff the digits of all ids and the commas between them are within 56 |
| ReviewCallbacks.CallbacksFit | shared/bridge_shared/glossary_review.py:7-11 | so up to BATCH rows with ids below 36^4 fit |
| ReviewCallbacks.LargerIdsDoNotFit | shared/bridge_shared/glossary_review.py:95-96 | and a full batch with all ids from 36^4 on does not |
| ReviewCallbacks.RefRoundTrip | shared/bridge_shared/glossary_review.py:102-120 | `parse_ref` recovers entry, message and batch from `edit_prompt`, whatever text stands above |
| RoundRobin.ByPair | analytics/flows/model_bakeoff.py:92-94 | each pair's list is its rows in order |
| RoundRobin.LoadMessages | analytics/flows/model_bakeoff.py:92-101 | min(limit, total) rows are picked, of each pair its last rows and none twice, and no pair is two ahead of one that still has rows |

## Left out

- Telegram, OpenAI, S3, Puppeteer, Prefect and HTTP: a send is a nondeterministic outcome, the model a function of messages and model name.
- Swallowed Redis and database failures (`_dlq_push`, `insert_message_event`, `fetch_delivered_pair_ids`, `_requeue_inflight`): commands succeed unless the process crashes; in these places the code gives the guarantee up.
- Revoke notices, unparseable payloads and the raw-item backstop of the consumer are not in the queue model; nor are the dashboard's manual retries.
- Malformed dead-letter entries, which go straight to the dead list.
- The admin fallback of chats without pairs: a pair-less run is skipped. Migration 014 makes NULL pair ids equal in the unique key, so the pair-less row is an ordinary key.
- Supergroup migration, pausing of dead chats and the pair lookup's cache: the pairs of a chat are fixed for a run.
- BLMOVE and joining the chat lock are one step. The code awaits the reply of BLMOVE and then joins without another await; that replies resume the workers in the order Redis served them is an assumption.
- QueueDelivery.AtMostOnce: assumes re-emits within DEDUP_TTL and fixed pairs, because without the first it is false (LateReemitSendsTwice); SendsAreAccounted and ResentIff say exactly what it is then.
- QueueAccount.SendsAreAccounted: assumes one lock key per message and fixed pairs; TwoClientsSendThrice shows what two keys do.
- QueueFanOut.SkippedIff: assumes one lock key per message and fixed pairs, because without the first another run may deliver after this one asked.
- QueueRows.DeliveredIsAbsorbing: assumes one lock key per message, because without it the claim is false (TwoClientsUndoDelivered).
- QueueLoops.Processor.ProcessMessage: a whole fan-out in one method, without crashes or other workers; interleaved with those it is the steps of QueueModel (FanOutIsARun).
- QueueLoops.Processor.DlqPass: the pass runs undisturbed; interleaved with workers and crashes it is the steps DlqPop and DlqPlace (DlqPassIsARun).
- JSON encoding and SHA-256 are taken as collision-free: payloads and cache keys are values, the dedup hash a parameter.
- TranslationCache.CacheIsTransparent: the model is a function of its messages; model names and contexts contain no NUL; the prompt text is a tuple of its parameters. POST /translate is a store of any text under any key of pair 0 there, and of first replies under their own keys in PairZeroIsTransparentIff. With a DIRECT_MODEL of its own it has keys of its own, and the two never meet.
- Cache lifetimes: an entry may vanish at any time, which covers expiry.
- Real Unicode: texts are over a small alphabet with the classes the matcher tells apart, and case folding is one letter to one letter.
- `render_name` and `lookup_word`, `sender_display` and the prompt text of `format_chat_context`.
- The `people` index and the refresh interval; the loaded glossaries are searched through an index built on demand instead of being kept as indexes.
- GlossaryLayers.Service.Refresh: takes the rows the query returns; their selection by status and non-NULL rendering is SQL.
- ProfileGlossary.RecordDropped: dates are day numbers and reasons strings; the LLM validator's answer is any map.
- The parts of `merge_profiles` other than the glossary (simple fields, members, people, topics).
- ServiceGlossary.DecisionsAreFinal: notes, evidence, confidences and timestamps are not in the row; a classifier's hint may fill the note of a decided row that is not locked. `chats_seen` is the number of `chat_pairs` for every writer and is left out.
- The arbiter's and resolver's texts, thresholds as floats (real numbers here) and `_clean_rendering`.
- ReviewCallbacks.ValueOfNumeral: signs, whitespace, underscores and capitals, which int() also accepts, are errors here; the service writes none of them.
- ReviewCallbacks.RefRoundTrip: the text is its lines, each already stripped.
- MessagePacking.SplitText: `limit` is at least 1; with 0 the loop would not end, and no caller passes it.
- AlertWindow.WindowIsExact: times are real numbers; the 401 and translation trackers, which use the same class, are not modelled.
- The media-slot counter and client map of wa-service, the event bus, reports, digest and dashboard.
