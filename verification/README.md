# SawtAI: verified models of the core services

SawtAI receives citizens' messages for a public authority, redacts and indexes
them, opens cases, drafts replies from approved documents, and has people
approve and deliver those replies. Much of its state lives in one append-only
audit table. This project models the parts whose correctness spans several
functions or a whole run, and proves what the system relies on.

| file | models |
|---|---|
| `Text.dfy`, `Regex.dfy` | Python string functions; the regular expressions the code uses, with ordered backtracking and the `Pattern.sub` scan |
| `Redaction.dfy`, `RedactionLimits.dfy`, `RedactionShapes.dfy`, `Normalization.dfy`, `Simhash.dfy` | the text algorithms of ingestion |
| `EditDistance.dfy`, `Embedding.dfy`, `Chunker.dfy` | reply edit distance, hashed embeddings, cutting documents into sections |
| `Ledger.dfy`, `Audit.dfy` | the audit table as a log with newest- and oldest-row lookups, and as per-tenant hash chains |
| `Sessions.dfy`, `Cases.dfy` | refresh tokens and cases, both read back from the ledger |
| `Replies.dfy`, `Pipeline.dfy` | the maker-checker workflow, and the pipeline from webhook to reply |
| `Notifications.dfy`, `OutboxLock.dfy` | the notification outbox, sequentially and with evaluators interleaved under the advisory lock |
| `Documents.dfy` | the life of a knowledge document and the citations of it, with processing and replies interrupted by other requests |
| `Sse.dfy` | the draft stream: event printer, incremental parser and studio state; the format is that of section 9.2.6 of the WHATWG HTML Living Standard |

How the models are built. Each committed transaction is one step of a state
machine (uploads, retries of them and replies, which wait for other services in
between, are two); the classes (`CaseDesk`, `SessionStore`, `ReplyDesk`, `Evaluator`,
`Worker`, `Knowledge`, `AuditLog`, `DraftStudio`) carry the methods, proved equal
to step functions, and the main lemmas quantify over every run of those steps.
Things outside the model enter as parameters: the Unicode classes of the
regular expressions (`Chars`), BLAKE2b and SHA-256, the square root, JSON
printing and parsing of event data, extraction and embedding, the clock, and
whether an outbound send succeeds. Where the code only needs a digest to tell
its inputs apart (token digest, pseudonym, notification identifier, document
digest) it is an injective constructor. The hash chain is the exception: there
the hash is an arbitrary function with 32-byte results, and the theorem speaks
of collisions among the texts actually hashed. Clocks do not go back and random
identifiers are new; the `Enabled` predicates say so.

What the proofs showed about the code:

- Redaction is complete far beyond realistic input, but not without bound: the
  phone pass leaves a phone number exactly when it replaces at least 20,000,000
  numbers, since `<PHONE_20000000>` itself reads as one, and 20,000,000 copies of
  `20000000a` are such a text; an Emirates ID is left exactly when some pass
  counts to 784,000,000,000,000. Neither happens in texts of up to 40,000,000
  characters (`RedactionLimits`).
- The e-mail pass reads an address as far as it can. When another follows directly,
  as in `a@b.cc.d@e.ff`, that one has no beginning of its own and stays, and only
  such addresses do (`RedactionShapes.EmailPassIff`).
- The second half of an upload or of a retry does not look at what happened since
  its first half. When a document is approved and cited in between, finishing
  deletes the cited chunks: a retry can overtake its upload, cross another retry,
  or simply be slow (`Documents.ImpatientRetry`, `CrossingRetries`, `LoneRetry`).
  A reply likewise stores the chunk its search found without looking again.
  Citations are stable in a run if and only if no step indexes readable text for a
  cited document or stores a reply whose chunk is gone (`Documents.StableIff`): in
  particular in every run where nothing finishes processing after an approval of its
  document was asked for (`CitationsStable`), and where no request interrupts another
  (`ChecksSuffice`).
- Replaying a webhook is safe if and only if its message has no text, or is first
  delivered while its source is enabled with a timestamp that parses and is at most
  five minutes ahead. A message first delivered to a disabled source is stored by a
  replay; one without such a timestamp is, too, after having been dropped as a
  duplicate of a like message stored at exactly the clock value of its delivery
  (`Pipeline.ReplaySafeIff`).
- A reply drafted in the studio has no inference run, so approval never finds it:
  a reply can be published if and only if a worker drafted it for a message and
  did not refuse (`Replies.PublishableIff`).

## Model

| member | source | states |
|---|---|---|
| Redaction.Replace | services/api/src/sawtai/ingest/service.py:48-57 | one pass yields the leftmost non-overlapping scan with placeholders numbered from 1, and one finding per match |
| Redaction.RedactPii | services/api/src/sawtai/ingest/service.py:45-62 | the three passes run in order on each other's output; findings list the labels pass by pass |
| Redaction.PhoneYields | services/api/src/sawtai/ingest/service.py:17 | a phone match that starts with a separator or sign still matches without its first character, so look-behind context cannot hide a number |
| Redaction.Survives | services/api/src/sawtai/ingest/service.py:48-57 | a structured number in the output of a pass was a number of its input where the pass found nothing, or is the whole counter of a placeholder |
| Redaction.PhonePass | services/api/src/sawtai/ingest/service.py:61 | one phone pass leaves no phone match if and only if it replaces fewer than 20,000,000 |
| Redaction.NoPhoneLeft | services/api/src/sawtai/ingest/service.py:45-62 | the final text has no phone match if and only if the phone pass replaced fewer than 20,000,000 |
| Redaction.PassAddsNoId | services/api/src/sawtai/ingest/service.py:48-57 | no pass uncovers or spells an Emirates ID below 784,000,000,000,000 matches, although it changes its neighbours' context |
| Redaction.PhoneAtMost | services/api/src/sawtai/ingest/service.py:17 | a phone match made of digits alone has at most fourteen of them |
| Redaction.SmallNumeralIsNoId | services/api/src/sawtai/ingest/service.py:18 | no decimal counter below 784,000,000,000,000 reads as an Emirates ID |
| Redaction.NoEmiratesIdLeft | services/api/src/sawtai/ingest/service.py:45-62 | the final text has no Emirates ID match if and only if every pass stays below that count |
| Redaction.CleanTextUnchanged | services/api/src/sawtai/ingest/service.py:45-62 | text without matches comes back unchanged with no findings |
| RedactionShapes.IdIff | services/api/src/sawtai/ingest/service.py:18 | character by character: the pattern matches exactly 784, four, seven and one digits, each group behind at most one white-space character or hyphen, with no digit on either side |
| RedactionShapes.PhoneIff | services/api/src/sawtai/ingest/service.py:17 | exactly an optional +971, 971, 00971 or 0, an area of 5 and a digit or of one digit from 2 to 9, three and four digits, with at most one white-space character or hyphen in between and no digit on either side |
| RedactionShapes.EmailIff | services/api/src/sawtai/ingest/service.py:16 | exactly mailbox characters, an at-sign, host characters, a dot and two or more letters, not right behind a word character or dot nor right before a word character |
| RedactionShapes.AddressReplaced | services/api/src/sawtai/ingest/service.py:45-60 | an address between characters that no address contains is replaced from its first to its last character by a numbered placeholder, though backtracking could stop earlier |
| RedactionShapes.EmailPassIff | services/api/src/sawtai/ingest/service.py:45-60 | exactly: the e-mail pass leaves an address if and only if its input has one right behind an address that it replaces, in which no match begins |
| RedactionShapes.GluedExists | services/api/src/sawtai/ingest/service.py:45-60 | there is such a text: of `a@b.cc.d@e.ff` the second address stays |
| RedactionShapes.NoneLeft | services/api/src/sawtai/ingest/service.py:45-62 | the final text holds no such number and no such ID, exactly below the counts at which placeholders read as one, and always for texts of up to 40,000,000 characters |
| RedactionShapes.NothingToRedact | services/api/src/sawtai/ingest/service.py:45-62 | text with none of the three shapes comes back unchanged with no findings |
| RedactionLimits.UnitHits | services/api/src/sawtai/ingest/service.py:57 | a text of n copies of a number and a letter has at least n matches |
| RedactionLimits.ManyPhones | services/api/src/sawtai/ingest/service.py:45-62 | the failing side is inhabited: 20,000,000 or more copies of a phone number and a letter leave a phone number in the final text |
| RedactionLimits.ManyIds | services/api/src/sawtai/ingest/service.py:45-62 | likewise for as many Emirates IDs as the bound says |
| RedactionLimits.FewMatches | services/api/src/sawtai/ingest/service.py:45-62 | a text of at most 40,000,000 characters has fewer than 20,000,000 matches in every pass, although placeholders may be longer than what they replace |
| RedactionLimits.ShortTextClean | services/api/src/sawtai/ingest/service.py:45-62 | so its final text has no phone number and no Emirates ID |
| Regex.Locate | services/api/src/sawtai/ingest/service.py:57 | a run of output characters that no placeholder begins or ends with was copied from the input or lies inside one placeholder |
| Regex.EveryReplacementIsPrinted | services/api/src/sawtai/ingest/service.py:51-57 | each counter up to the number of matches appears in the output |
| Regex.BlockCopied | services/api/src/sawtai/ingest/service.py:57 | a stretch of text that no match touches is found in the output as it was |
| Normalization.NormalizeIsNormal | services/api/src/sawtai/arabic.py:10-17 | one pass leaves no tatweel, diacritic, Arabic-Indic digit, URL, foldable letter, double, leading or trailing space |
| Normalization.NormalIsFixed | services/api/src/sawtai/arabic.py:10-17 | text without those is left alone |
| Normalization.FixedPoints | services/api/src/sawtai/arabic.py:10-17 | the texts normalisation leaves alone are exactly the normal ones |
| Normalization.Idempotent | services/api/src/sawtai/arabic.py:10-17 | normalising twice is normalising once |
| Normalization.NormalizeIsWords | services/api/src/sawtai/arabic.py:10-17 | the result is the words that are left after the replacements, between single spaces |
| Normalization.PlainNormalized | services/api/src/sawtai/arabic.py:11-16 | text without URLs becomes its words with tatweel and diacritics left out, each Arabic-Indic digit as the digit of the same value, alef forms as alef, alef maksura as yeh and teh marbuta as heh, and every other character as it was |
| Normalization.UrlFound | services/api/src/sawtai/arabic.py:8 | http or https in any case, "://" and visible characters are matched up to the next white space |
| Normalization.UrlOnly | services/api/src/sawtai/arabic.py:8 | and nothing else is |
| Normalization.UrlReplaced | services/api/src/sawtai/arabic.py:14 | a URL that begins a word is replaced to the end of the word by the mark between spaces |
| Simhash.Simhash64 | services/api/src/sawtai/ingest/service.py:86-94 | the counter loops compute the majority vote as a signed 64-bit number |
| Simhash.IsMajorityVote | services/api/src/sawtai/ingest/service.py:86-94 | bit b of the two's-complement result is set exactly when at least half of the trigram hashes have it, and the result fits a signed 64-bit column |
| Simhash.IsMajorityOfPlaces | services/api/src/sawtai/ingest/service.py:86-94 | on the text: bit b is set exactly when the substrings of three characters whose hash has it begin at half of all places or more; a shorter text counts as one token |
| Simhash.SignedRange | services/api/src/sawtai/ingest/service.py:94 | the signed result is in range and equals the unsigned sum modulo the word size |
| Simhash.OrderIrrelevant | services/api/src/sawtai/ingest/service.py:87-93 | texts with the same multiset of trigrams hash alike |
| EditDistance.ZeroWhenEqual | services/api/src/sawtai/channels/service.py:161-164 | the stored distance is zero exactly for equal texts |
| EditDistance.Symmetric | services/api/src/sawtai/channels/service.py:161-164 | the distance is symmetric |
| EditDistance.Triangle | services/api/src/sawtai/channels/service.py:161-164 | the triangle inequality holds across texts of different lengths |
| EditDistance.AtLeastLevenshtein | services/api/src/sawtai/channels/service.py:161-164 | the distance is never below the Levenshtein distance |
| EditDistance.CountsPositions | services/api/src/sawtai/channels/service.py:161-164 | the distance is exactly the number of positions at which both texts have a character and these differ, and one for each character by which one is longer |
| EditDistance.SingleChange | services/api/src/sawtai/channels/service.py:161-164 | replacing one character, or adding one at the end, costs one |
| Embedding.HashEmbedding | services/api/src/sawtai/rag/ingestion.py:227-241 | the loop computes the signed feature counts, scaled and rounded |
| Embedding.CountsBounded | services/api/src/sawtai/rag/ingestion.py:233-237 | the counts sum in absolute value to at most the number of features |
| Embedding.FeaturesAre | services/api/src/sawtai/rag/ingestion.py:230-231 | the features are the words and then the substring of four characters at every place that has one |
| Embedding.CountIs | services/api/src/sawtai/rag/ingestion.py:233-237 | a slot holds the features whose first four digest bytes, read big-endian modulo 1024, name it, counted up for an odd fifth byte and down for an even one |
| Embedding.RoundNearest | services/api/src/sawtai/rag/ingestion.py:241 | a component is rounded to the nearest multiple of 1e-8, ties to the even one |
| Embedding.UnitLength | services/api/src/sawtai/rag/ingestion.py:238-241 | after scaling and rounding to 8 decimals the squared length is within 4e-7 of 1, or the vector is zero, which it is exactly when all counts cancel |
| Embedding.CompactAlready | services/api/src/sawtai/rag/ingestion.py:228-229 | collapsing white space again after normalisation changes nothing |
| Chunker.Flush | services/api/src/sawtai/rag/service.py:104-113 | a flush appends the buffered paragraph cut at every 180 words, and nothing for an empty buffer |
| Chunker.StructureChunks | services/api/src/sawtai/rag/service.py:99-125 | the line loop computes the planned sections |
| Chunker.SectionsConserveText | services/api/src/sawtai/rag/service.py:99-125 | the sections carry exactly the words of the text lines in order, each under the last titled heading before it, in its own paragraph, 1 to 180 words each, in the number that rounding up per paragraph gives |
| Chunker.PlanTags | services/api/src/sawtai/rag/service.py:107-112 | no word is lost, added, moved across a heading or a paragraph |
| Chunker.PlanWell | services/api/src/sawtai/rag/service.py:109-112 | all sections of a paragraph but the last are full |
| Chunker.PlanCount | services/api/src/sawtai/rag/service.py:109-112 | the number of sections is the sum over paragraphs of words divided by 180, rounded up |
| Chunker.TitleText | services/api/src/sawtai/rag/service.py:118 | a title is the heading line without its leading hashes and the white space around them and around the title |
| Chunker.LinesApart | services/api/src/sawtai/rag/service.py:115 | line feeds and carriage-return line feeds both end a line |
| Sse.Stream | services/api/src/sawtai/rag/routes.py:189-245 | the generator yields the printed events of the reply, in order |
| Sse.PrintText | services/api/src/sawtai/rag/routes.py:80-81 | the wire format of an event |
| Sse.ParseSseBlock | services/web/src/api/sse.ts:6-15 | the line loop computes name and joined data of a block; no data gives no event, bad JSON an error |
| Sse.BlocksContinue | services/web/src/features/draft/DraftStudio.tsx:46-47 | splitting what was left over together with the next read continues the split of the whole text, even when a cut falls inside the separator |
| Sse.SolidBlock | services/web/src/features/draft/DraftStudio.tsx:46 | a printed event followed by the separator is split off as one block |
| Sse.BodyParses | services/web/src/api/sse.ts:6-15 | a printed event parses back to itself |
| Sse.EventsArrive | services/web/src/features/draft/DraftStudio.tsx:41-56 | the blocks of a printed list of events parse to exactly these events in order, with nothing left over |
| Sse.DraftStudio.Handle | services/web/src/features/draft/DraftStudio.tsx:50-54 | what each event changes in the view, and that a token event with null data throws |
| Sse.DraftStudio.HandleAll | services/web/src/features/draft/DraftStudio.tsx:48-55 | the blocks of one read take effect up to the first that does not parse or throws |
| Sse.DraftStudio.Generate | services/web/src/features/draft/DraftStudio.tsx:25-60 | the final view depends on the received text alone, not on how it was cut; a failed request, a bad block and a read that fails midway end in the error state |
| Sse.RestIgnored | services/web/src/features/draft/DraftStudio.tsx:57-59 | after a block that does not parse or throws, later reads change nothing |
| Sse.SpacedSplit | services/api/src/sawtai/rag/routes.py:228-230 | the tokens, each followed by a space, make up the body and one trailing space |
| Sse.ReplyArrives | services/api/src/sawtai/rag/routes.py:189-245 | end to end, however the stream is cut, the studio shows the body plus exactly one space, the retrieval and verification objects and the done state, or the refusal |
| Ledger.AppendOrdered | services/api/src/sawtai/audit/service.py:34-79 | with a clock that does not go back, insertion order is (time, id) order |
| Ledger.NewestAppend | services/api/src/sawtai/auth/service.py:206-223 | the newest matching row is the last one written |
| Ledger.OldestAppend | services/api/src/sawtai/rag/service.py:730-735 | the oldest matching row, once there is one, stays |
| Audit.EscapeApart | services/api/src/sawtai/audit/service.py:35-48 | no JSON escape is the beginning of another, surrogate pairs included |
| Audit.CanonicalInjective | services/api/src/sawtai/audit/service.py:35-48 | rows that differ in one of the eight hashed fields have different canonical JSON texts |
| Audit.CanonicalTells | services/api/src/sawtai/audit/service.py:35-48 | and different encoded bytes |
| Audit.KeysAndValues | services/api/src/sawtai/audit/service.py:35-48 | the keys in order, each with its own field |
| Audit.EscapesRead | services/api/src/sawtai/audit/service.py:35-48 | reading an escaped string by the rules of section 7 of RFC 8259, surrogate pairs included, gives the string back |
| Audit.NewestIsHead | services/api/src/sawtai/audit/service.py:26-33 | the lookup finds the head of the tenant's chain, whatever other tenants wrote |
| Audit.AppendVerifies | services/api/src/sawtai/audit/service.py:49-79 | a row linked to its tenant's head keeps every tenant's chain unbroken |
| Audit.AuditLog.WriteAudit | services/api/src/sawtai/audit/service.py:13-79 | one row with the given fields is appended, and every tenant's rows still form an unbroken hash chain |
| Audit.CanonicalOpens | services/api/src/sawtai/audit/service.py:35-48 | a canonical text begins nowhere but at its start, whatever the fields contain |
| Audit.CanonicalStandalone | services/api/src/sawtai/audit/service.py:49 | no canonical text is 32 bytes followed by another, so a first row is never taken for a later one |
| Audit.HeadFixesChain | services/api/src/sawtai/audit/service.py:26-49 | two verifying chains with the same head hash have the same length and agree on all fields of every row, unless two texts hashed in them collide |
| Audit.TamperEvident | services/api/src/sawtai/audit/service.py:26-49 | a forged chain that verifies and ends in the head hash of a tenant's chain has the same length and the same eight fields in every row, unless hashed texts collide |
| Sessions.SessionStore.IssueTokenPair | services/api/src/sawtai/auth/service.py:163-195 | a token of the given user and tenant comes out, and one issue row of that user and tenant with its digest is written |
| Sessions.SessionStore.RotateRefreshToken | services/api/src/sawtai/auth/service.py:198-248 | a token is exchanged when the ledger accepts it and the account loads, for one of the same user and tenant; the old token's revocation precedes the new token's issue; otherwise nothing is written |
| Sessions.SessionStore.RevokeRefreshToken | services/api/src/sawtai/auth/service.py:251-270 | a token that decodes is revoked, live or not |
| Sessions.StepRefines | services/api/src/sawtai/auth/service.py:198-270 | each step of the ledger is the corresponding step of a set of live tokens, with the same answer |
| Sessions.LookupIsMembership | services/api/src/sawtai/auth/service.py:206-230 | in every run the newest-row check equals membership in the set of live tokens |
| Sessions.NeverAgain | services/api/src/sawtai/auth/service.py:225-247 | a token that was exchanged or logged out is never accepted again |
| Sessions.OneDescendant | services/api/src/sawtai/auth/service.py:238-247 | two tokens accepted at the same time descend from different logins |
| Sessions.SameOwner | services/api/src/sawtai/auth/service.py:230-247 | in every run an accepted token has the tenant and the user of the login it descends from, and that login is a step of the run |
| Sessions.Conservation | services/api/src/sawtai/auth/service.py:183-194 | the live tokens are as many as the logins less the logouts that ended a live one |
| Cases.CaseDesk.CreateCase | services/api/src/sawtai/cases/service.py:183-250 | a new unassigned case with its deadline and one row, or a refusal for an unavailable node |
| Cases.CaseDesk.UpdateCase | services/api/src/sawtai/cases/service.py:253-294 | the severity changes and both values are recorded |
| Cases.CaseDesk.AssignCase | services/api/src/sawtai/cases/service.py:297-346 | assignment, with the status and resolution time it implies |
| Cases.CaseDesk.TransitionCase | services/api/src/sawtai/cases/service.py:349-391 | a status change along the table and with an assignee where one is needed, or a refusal |
| Cases.CaseDesk.AddCaseNote | services/api/src/sawtai/cases/service.py:394-419 | a note changes nothing but the update time |
| Cases.CaseDesk.EscalateCase | services/api/src/sawtai/cases/service.py:422-448 | escalation makes the case critical |
| Cases.CaseDesk.CreateCaseFromMessage | services/api/src/sawtai/cases/service.py:451-546 | the message's case, opened if there was none |
| Cases.HistoryTellsCase | services/api/src/sawtai/cases/service.py:240-248 | in every run a case's own rows replay to its status, assignee and severity, every recorded before-state agrees with the rows before it, and every recorded status change follows the table |
| Cases.LifeCycle | services/api/src/sawtai/cases/service.py:369-383 | in every run the resolution time is set exactly for resolved and closed cases, an assignee is there from assigned to closed and not while new or triaged, and a responded case has its first response time |
| Cases.StepMoves | services/api/src/sawtai/cases/service.py:327-337 | every step moves a case along an edge of the table, writes the first response time at most once, the resolution time only on entering or leaving the resolved state, and the update time whenever anything changes |
| Cases.Forever | services/api/src/sawtai/cases/service.py:13-22 | closed and rejected are final, first response times are permanent, no case becomes new again |
| Cases.EdgesAre | services/api/src/sawtai/cases/service.py:13-22 | the table has these fifteen edges |
| Cases.OthersUntouched | services/api/src/sawtai/cases/service.py:358-368 | requests of other tenants or about other cases leave a case alone |
| Cases.BreachLasts | services/api/src/sawtai/cases/service.py:25-35 | while a case is open its service-level urgency never falls |
| Replies.ReplyDesk.UpdateReply | services/api/src/sawtai/channels/service.py:134-199 | an edit returns the reply to draft under its editor, with the distance to the old body |
| Replies.ReplyDesk.SubmitForApproval | services/api/src/sawtai/channels/service.py:202-254 | a draft that is long enough and passed the checks goes to approval |
| Replies.ReplyDesk.ApproveAndDeliver | services/api/src/sawtai/channels/service.py:492-604 | delivery and publication by an approver who is neither creator nor editor, the known reference when already published, or a refusal |
| Replies.PublishedIsSafe | services/api/src/sawtai/channels/service.py:532-582 | in every run a published reply left exactly once with the body last submitted, of at least ten characters, not refused or flagged, grounded at 0.6 or more, approved by neither its first author on record nor its last editor; any other reply never left |
| Replies.JudgeMeans | services/api/src/sawtai/rag/service.py:1031-1050 | what is refused and why, and the grounding score of what is not |
| Replies.ChecksAreVerdict | services/api/src/sawtai/rag/service.py:1031-1050 | the checks at submission and approval amount to the verdict at generation, whatever happened since |
| Replies.StepPreserves | services/api/src/sawtai/channels/service.py:158-176 | no step changes the verdict of a reply, or anything of a published one |
| Replies.PublishedForever | services/api/src/sawtai/channels/service.py:532-538 | a published reply is the same after any continuation |
| Replies.ApproveAgain | services/api/src/sawtai/channels/service.py:532-538 | approving again sends nothing and returns the same reference |
| Replies.TwoPeople | services/api/src/sawtai/channels/service.py:234-242 | an accepted draft is published by two different people in two steps, and by one person never in these |
| Replies.PublishableIff | services/api/src/sawtai/channels/service.py:530-544 | in every reachable state, some continuation publishes a reply if and only if it answers a message and was not refused at generation |
| Notifications.Evaluator.Emit | services/api/src/sawtai/notifications/service.py:26-79 | an item is added exactly when its identifier was missing |
| Notifications.Evaluator.EmitEach | services/api/src/sawtai/notifications/service.py:168-179 | the loop over recipients, in any order, adds exactly the missing items |
| Notifications.Evaluator.EvaluateCase | services/api/src/sawtai/notifications/service.py:146-236 | the rules of one case add exactly what is due to whom it is due |
| Notifications.Evaluator.EvaluateTenant | services/api/src/sawtai/notifications/service.py:98-278 | the nested loops add exactly the due items that were missing, once each, and return how many they were |
| Notifications.Evaluator.ListNotifications | services/api/src/sawtai/notifications/service.py:281-329 | evaluates, then lists the user's newest items in descending order, with identifier, time, notice and read mark, none missing but those older than `limit` others, and counts the unread ones |
| Notifications.Evaluator.MarkNotificationRead | services/api/src/sawtai/notifications/service.py:332-375 | only the recipient's items are found, and each gets at most one read mark |
| Notifications.Evaluator.MarkAllRead | services/api/src/sawtai/notifications/service.py:378-394 | marks as many as were unread among the user's newest 200, which are all listed, and then each of these is marked |
| Notifications.CaseDueParts | services/api/src/sawtai/notifications/service.py:146-236 | what is due for a case is the union of the six rules |
| Notifications.CountMissing | services/api/src/sawtai/notifications/service.py:269-278 | the difference of the two counts is the number of due items that were missing |
| Notifications.TriggeredAre | services/api/src/sawtai/notifications/service.py:42-57 | afterwards the triggered identifiers are the old ones and the due ones, and other tenants' are unchanged |
| Notifications.AgainNothing | services/api/src/sawtai/notifications/service.py:42-57 | a second evaluation at the same instant leaves the log as it was |
| Notifications.TriggersDescend | services/api/src/sawtai/notifications/service.py:304-309 | the rows of a list are distinct and come newest first |
| Notifications.ListingLists | services/api/src/sawtai/notifications/service.py:304-311 | every trigger row of the tenant for the user is listed with its identifier, time and notice, or the list is full and all listed rows are later |
| Notifications.DueIff | services/api/src/sawtai/notifications/service.py:104-268 | an item is due exactly when the rule of its kind says so of the case or reply, the time, and an active user of the tenant with the role, the assignment or the part in the reply it asks for |
| Notifications.LevelsAre | services/api/src/sawtai/notifications/service.py:146-268 | the level and page of each kind |
| Notifications.AllReadStays | services/api/src/sawtai/notifications/service.py:378-394 | after marking all, a list at the same instant of at most 200 items shows none unread |
| Notifications.NobodyForgotten | services/api/src/sawtai/notifications/service.py:157-179 | with the life cycle of cases, every open case is due to its assignee or else to every manager |
| Notifications.AskedMayApprove | services/api/src/sawtai/notifications/service.py:250-268 | whoever is asked to approve a reply that passed its checks can approve it |
| OutboxLock.StepKeeps | services/api/src/sawtai/notifications/service.py:98-102 | locks exclude each other, a check stays true until its insert, and no pending row is committed or pending elsewhere |
| OutboxLock.ExactlyOnce | services/api/src/sawtai/notifications/service.py:43-58 | however evaluators interleave, commit and roll back, no item has two trigger rows, and a commit leaves a row for every item dealt with |
| OutboxLock.CommitAdds | services/api/src/sawtai/notifications/service.py:269-278 | a transaction commits exactly the rows of the items it dealt with that were missing, whatever others committed since its checks |
| OutboxLock.SameAsSerial | services/api/src/sawtai/notifications/service.py:82-102 | interleaved evaluators of what is due leave, once each, the rows that the same evaluations leave when run one transaction after the other in commit order, which is always possible |
| OutboxLock.LockNeeded | services/api/src/sawtai/notifications/service.py:99-102 | without the lock there is a run that writes an item twice |
| Pipeline.Worker.PersistInboundMessage | services/api/src/sawtai/ingest/service.py:97-259 | a message is stored once per external identifier and per content and time, with its sender in the vault |
| Pipeline.Worker.ProcessPersistedMessage | services/api/src/sawtai/channels/service.py:319-449 | one job drafts, opens or finds the case, links and reports, and sends an acknowledgement to the message's sender in mode acknowledge only; a failed send, which only that mode can meet, leaves everything as it was |
| Pipeline.MessageOnce | services/api/src/sawtai/channels/service.py:348-449 | in every run of replays, redeliveries, failed sends, mode changes, edits, approvals and case work, no two stored messages share an external identifier, or content and time, and each has its sender in the vault, at most one reply, one complaint with a case of its own, and one acknowledgement, and its reply is linked to that case |
| Pipeline.AnsweredInTheEnd | services/api/src/sawtai/channels/service.py:334-396 | a stored message is never lost: every continuation of a run with a job of it that drafts and does not fail to send ends with it answered |
| Pipeline.NoUnwantedAck | services/api/src/sawtai/channels/service.py:425-433 | in every run without a job of the message in mode acknowledge that can send, nobody is told of it |
| Pipeline.AcknowledgedOnce | services/api/src/sawtai/channels/service.py:425-433 | such a job of a stored, unanswered message adds exactly one acknowledgement, to its sender, and the message never has another |
| Pipeline.MessagesStay | services/api/src/sawtai/ingest/service.py:174-210 | stored messages never change |
| Pipeline.TimedReplay | services/api/src/sawtai/ingest/service.py:126-155 | a message with a timestamp of its own, at most five minutes ahead, delivered while its source is enabled, stores nothing more when its webhook is replayed, whatever was stored before and happened in between |
| Pipeline.UntimedReplay | services/api/src/sawtai/ingest/service.py:157-160 | every other message with text is dropped after a like one stored at exactly the clock value of its delivery, and stored by a replay |
| Pipeline.ReplaySafeIff | services/api/src/sawtai/channels/models.py:29-34 | over all reachable states, continuations and later times, replays of a message store nothing if and only if it has no text, or its first delivery finds the source enabled and a timestamp that parses and is at most five minutes ahead |
| Pipeline.StoredClean | services/api/src/sawtai/ingest/service.py:161-209 | in every run, a stored message has a phone number or an Emirates ID exactly when some pass over the text received counted that far, never for texts of up to 40,000,000 characters, neither as the pattern nor as the shape; and its search form is in normal form |
| Documents.Knowledge.ReplaceChunks | services/api/src/sawtai/rag/service.py:310-357 | the document's chunks are replaced by its sections under new identifiers, numbered from 1, with the section's heading and text and the columns derived from that text; other documents' stay |
| Documents.Knowledge.Create | services/api/src/sawtai/rag/service.py:360-457 | a new document whose chunks tell the content, refused exactly for a version that exists or unreadable text |
| Documents.Knowledge.Receive | services/api/src/sawtai/rag/service.py:460-558 | the first transaction of an upload |
| Documents.Knowledge.Process | services/api/src/sawtai/rag/service.py:572-664 | the second half of an upload or a retry, whatever happened since the first half: a recorded failure, a refusal exactly of unreadable text, or chunks that tell the extracted text |
| Documents.Knowledge.RetryIngestion | services/api/src/sawtai/rag/service.py:676-694 | the first half of a retry: refused for approved or cited documents, otherwise processing is to follow |
| Documents.Knowledge.Approve | services/api/src/sawtai/rag/service.py:715-772 | approval of a document with content that has not expired, by somebody other than its creator |
| Documents.Knowledge.Retire | services/api/src/sawtai/rag/service.py:775-818 | retirement as of today, once |
| Documents.Knowledge.Reindex | services/api/src/sawtai/rag/service.py:821-890 | only the derived columns of the document's chunks change, and they are derived from the chunk's own text |
| Documents.Knowledge.Search | services/api/src/sawtai/rag/service.py:1025-1044 | a reply takes a chunk that its search may return along, with its document and text |
| Documents.Knowledge.StoreReply | services/api/src/sawtai/rag/service.py:1114-1137 | the citation is stored as it was taken along |
| Documents.MadeIndexes | services/api/src/sawtai/rag/service.py:344-352 | in the order of their numbers, 1 to n without a gap, the chunks tell exactly the words of the content's text lines, each under the heading in force there, in 1 to 180 words between single spaces, with norm and vector derived from the text |
| Documents.StepKeeps | services/api/src/sawtai/rag/service.py:715-772 | every step keeps approved documents with content and an approver other than the creator on record, and one document per version |
| Documents.OnlyGoverned | services/api/src/sawtai/rag/service.py:938-942 | in every run, whatever a search may return belongs to an approved document of the tenant with content, begun and not ended, approved by somebody other than its creator |
| Documents.NeverFoundAgain | services/api/src/sawtai/rag/service.py:747-750 | a document past its end is never found again in any continuation with dates that do not go back |
| Documents.RetiredForGood | services/api/src/sawtai/rag/service.py:796-807 | nor is a retired one |
| Documents.StepStable | services/api/src/sawtai/rag/service.py:854-874 | every step but the end of a processing and the storing of a reply keeps each citation's chunk, its document and the quoted text |
| Documents.FinishStableIff | services/api/src/sawtai/rag/service.py:591-618 | finishing an upload or a retry keeps all citations good if and only if no readable text was extracted or nobody has cited the document |
| Documents.QuoteStableIff | services/api/src/sawtai/rag/service.py:1114-1137 | storing a reply keeps all citations good if and only if its chunk is still there, and then document and text are as quoted |
| Documents.StableIff | services/api/src/sawtai/rag/service.py:692-694 | in every run, with retries, uploads and replies interrupted by each other, citations keep their chunk, document and text at every moment if and only if no step indexes readable text for a document already cited or stores a reply whose chunk has been replaced since its search |
| Documents.CitationsStable | services/api/src/sawtai/rag/service.py:692-694 | in particular in every run in which no processing of a document finishes after an approval of it was asked for, so retrying an upload that died does no harm |
| Documents.ChecksSuffice | services/api/src/sawtai/rag/service.py:692-693 | and in every run in which no other request comes between the two halves of an upload, a retry or a reply, so the checks suffice but for interruptions |
| Documents.ImpatientRetry | services/api/src/sawtai/rag/service.py:558-569 | otherwise they may not be: for every upload with readable text and ordered dates, a retry that overtakes the upload leads to a run that breaks a citation when the late processing finishes, and to one that does when the reply is stored |
| Documents.LoneRetry | services/api/src/sawtai/rag/service.py:692-702 | the same with an upload long finished and a single retry, when approval and citation come after its check |
| Documents.CrossingRetries | services/api/src/sawtai/rag/service.py:692-702 | the same with two retries of an upload whose extraction failed |

## Left out

- Cases.HistoryTellsCase: titles, references, notes and reasons are not part of the recorded facts; they are displayed, and no decision depends on them.
- Notifications.Evaluator.EvaluateTenant: every row of one evaluation carries the time of the evaluation, and the Arabic and English wording of the items is omitted.
- Embedding.UnitLength: exact real arithmetic, with rounding to the nearest 8-decimal value; binary floating point is not modelled.
- RedactionShapes.EmailPassIff: speaks of the text after the e-mail pass; the phone pass, which runs later, can change the right context of an address, so nothing is claimed of the final text.
- The Unicode NFKC step of search normalisation, UTF-8 decoding of network reads, JSON internals of event data, JWT signatures, password hashing and pgcrypto: external.
- Lone surrogates in audited strings, and the before and after states, which the hash does not cover.
- Concurrency inside one transaction: audit writes, token rotation, webhook deliveries and the duplicate check of document creation take no lock and are atomic steps here, and so is a job, which the queue runs one at a time per message. Interleaved are the notification evaluators, the two halves of an upload and of a retry, and a reply's search and its storing.
- A crash between an outbound send and its commit: send and commit are one step.
- Uniqueness of case references, which are cut from random identifiers; a collision would fail the insert.
- Object storage, OCR, PDF and DOCX extraction, reranking, vector and trigram similarity: a search may return any chunk that is retrievable.
- Access tokens, roles and permissions, HTTP, Redis, seed data, migrations, analytics and the other screens: single checks or plumbing.
- Delivery status callbacks and read marks written concurrently: they only append rows nothing here depends on.
