# Proofs about the media server's state and protocols

The server plays films, records and books to people in one household. What is hard about it is
not the media but the state around it: a saved place that must not move while somebody watches
a passage, a feed that must not miss a change, work handed to other machines, a bucket whose
files are replaced one at a time, links that must mean the same on both sides of a copy and
paste. This project models those parts and proves what they promise. `dafny verify
dfyconfig.toml` checks it.

Code that works in place is written in place: the registry of live plays, the leases, the
bucket and the list of places are classes with the fields the server keeps, loops are loops,
and each method is proved against a function of the state or the inputs. Where requests,
writers or crashes interleave there is a state machine whose steps are single locked calls or
single store writes, and its theorems are about every run of it.

## What is in it

- **Links.** `Utf8`, `Numerals` and `UrlEncoding` are the spelling of a query string: section
  5.1 of the WHATWG URL Standard for reading it, section 2.1 of RFC 3986 for the percent
  escapes. `PassageGrammar` is the passage grammar over them, `Locators` the places in a book.
- **Passages.** `Marks` makes a passage from two marks, `Runs` plays one across members.
  `Registry` is the table of live plays and `SittingMachine` every request that touches it,
  step by step. `Requests` is what each request comes to undisturbed; `PassageRule`,
  `StoredPlaces` and `MarksOverRuns` are what holds in all of the runs.
- **The change feed.** `ChangeFeed`: a client's mirror, a cursor of two counters, and a fetch
  whose five reads have writers between them.
- **Transcription.** `TranscriptQueue` hands out silent files under leases, and
  `TranscriptRaces` is what overlapping reads of it do. `TranscriptRuns` is what is heard of
  the objects, whatever they are by then, and what arrives back, the file first and then the
  row; `TranscriptOrigins` is where each row came from, and `TranscriptHazards` and
  `TranscriptMishaps` when the words on disk and the row part.
- **The converter.** `Converter` is one conversion and every way a step of it can go;
  `ConverterRuns` is pass after pass over one listing, each attempt cut off after any write.
- **The home screen.** `Shelves` is the order of the library and `ArtistShelves` what stands on
  each artist's shelf, `ShelfRows` and `BecauseRow` the rows selected from the library, `Focus`
  and `FocusGrid` what a D-pad does on it.
- **Places.** `PlaceTokens` spells and reads clock times, episode codes and sections; `Places`
  is what a work publishes and the passage two of those places mint, and `EpisodePlaces` where
  an episode code or a time lands and what two of them mint.
- **The window.** `ClockWindow` is when heavy work may start.

`Options`, `Positions`, `Trimming` and `StableSort` are shared.

## What the code does not promise

Each of these is a lemma with the input that shows it, or the exact condition:

- A run of members whose out time is not a greater number than its in time loses its end when
  its link is read back, though the end is another file's (`RunKeepsEndExactly`,
  `MintedLinkReadsBack`). The client's own link to the next member drops the end as well
  (`LinkFormLosesTheEnd`).
- A progress write outside a session looks for a passage and writes in two steps, and a passage
  may come on between them (`BareWriteRaces`). A second session of the same film without a
  passage moves the place (`SecondSessionMoves`), and so does forgetting it (`ForgettingMoves`).
- A mark set while the works cannot be built compares seconds alone (`BlindMarkExactly`).
- Stopping an older session that has no marks deletes the newer one's (`MarklessStopForgets`).
- `POST next` does not stop the session it advances, so the two minutes that bridge two
  episodes run from the last mark and not from the advance: an in point marked earlier than
  that is lost to the next episode (`NextKeepsTheInPointExactly`).
- Clearing a place stamps nothing and regrouping a file stamps only itself, so a feed client
  that was caught up does not hear of the one (`ClearedPlaceIsUnheard`) and holds the file in two
  works after the other (`RegroupedRowIsHeldTwice`). It hears of them when its answer is full or
  something else of the work changed, and only then (`ClearingIsHeardExactly`,
  `LeavingIsHeardExactly`).
- A feed answer does not say whether it is full, so no client can tell a full answer from a
  partial one: whatever it makes of the answers, it holds a member that has gone or drops one
  that is there (`NoClientCanTell`). A client that only lays the works it is sent over those it
  has keeps a work that has no members left (`NoGhostInAnyRun`).
- A run stops at the first member that is not probed or that the device is denied, and then
  publishes no end at all (`RefusedRunFallsShort`, `EndPublishedOnce`).
- Two queue reads that overlap may hand out one file twice (`OverlappingReadsListTwice`): both
  list it if and only if both looked at its lease before either gave it (`BothListExactly`).
- A transcript is heard of whatever is under the key by then, and nobody compares it with the
  etag it was handed out under: before the next scan, the words of a file the library has not
  seen are recorded under the old one's etag (`HeardBeforeTheScan`), and they stay for good when
  the old file is put back first (`PutBackUnseen`). The steps that can do this are a scan and a
  read of an object the library does not know, under an exact condition
  (`StepKeepsTruthExactly`).
- Of deliveries of one item that cross, what stays is the last file and the last row, whoever's
  they are (`CrossedExactly`); of two, the older words stay under the newer etag in one of the
  six orders of their writes (`OneOrderInSix`, `CrossedDeliveriesMislabel`).
- A file that is replaced and then put back may end with the replacement's words under its own
  row, for good, even when nothing crosses and everything is heard as named
  (`RestoredFileIsMislabelled`).
- Files that differ only in their extension convert to one key. A file is lost in some run if and
  only if another planned file of its stem is not itself the .mp4, and the file is, or is planned
  with originals not kept (`LostExactly`, `SharedStemExactly`).
- An episode numbered past 9999, or a season past 999, is published as a place that is refused
  when handed back (`EpisodePlaceIsAccepted`).
- Right from the end of a short last row climbs a row instead of stopping (`ShortRowClimbs`).

## Model

| member | source | states |
|---|---|---|
| `Utf8.DecodeReadsEncode` | web/passage.js:90-101 | every string of Unicode scalars survives the trip through its bytes, which the escapes of a query are of |
| `UrlEncoding.FormDecodeReadsComponent` | web/passage.js:96-99 | what encodeURIComponent escaped, form decoding restores exactly, '&', '=', '+', '%' and non-ASCII included |
| `UrlEncoding.ParseFormReadsFormText` | web/passage.js:70 | the name and value pairs written into a query are the pairs read out of it, in order |
| `Numerals.DecimalReadsBack` | internal/passage/passage.go:75-84 | a number of seconds printed with the decimals it has reads back as that number |
| `Numerals.DecimalExactly` | web/passage.js:45-48 | a text is a number of seconds if and only if it is digits, or digits on both sides of one point |
| `Numerals.StripZerosKeepsValue` | internal/passage/passage.go:173-177 | trailing zeros change the spelling of seconds and never the value |
| `PassageGrammar.PassageQuery` | web/passage.js:90-102 | the parts pushed one by one are exactly the present fields in the one order |
| `PassageGrammar.RunIsSpelled` | web/passage.js:90-102 | the link of a run is "?t=", its start, "&end=", its end, "&until=" and its last member |
| `PassageGrammar.PrintedReadsBack` | web/passage.js:65-102 | any passage printed and parsed is its normal form: what a link can lose, and all it can lose |
| `PassageGrammar.RoundTripExactly` | web/passage.js:65-102 | the printed query parses back to the passage if and only if it is well formed |
| `PassageGrammar.ParsedIsFixed` | web/passage.js:87-90 | whatever was parsed is well formed, and printing it is a fixed point |
| `PassageGrammar.OneSpellingEach` | web/passage.js:87-90 | two different well-formed passages never share a link |
| `PassageGrammar.RunKeepsEndExactly` | web/passage.js:82 | a run keeps its end through a link if and only if the end is the greater number, and otherwise loses only it |
| `Locators.FormattedReadsBack` | web/passage.js:155-176 | the canonical spelling of every place in a book parses back to it |
| `Locators.FormatExactly` | web/passage.js:155-176 | a cfi, a chapter, a page and a share are spelled "cfi:", "ch:", "pg:" and "pct:" and the place |
| `Locators.CfiExactly` | web/passage.js:155-176 | a cfi is "epubcfi(", any text without a line break and ")", and nothing else is |
| `Locators.FractionExactly` | web/passage.js:155-176 | exactly which texts are a share of the whole, and which number each is |
| `Locators.ParsedIsPlaceable` | internal/passage/passage.go:337-385 | everything parsed is a real place, and its canonical spelling is a fixed point |
| `Locators.TextPassageRoundTrip` | cmd/server/passage.go:613-640 | a text passage of two places survives its link, locators and all |
| `Marks.NearestTenth` | cmd/server/passage.go:133-143 | a mark lands on the nearest tenth of a second, the later of two as near, and never before the start |
| `Marks.SnapToChapter` | cmd/server/passage.go:145-157 | the answer is the last listed of the nearest starts within the tolerance, or the position itself when none is in reach |
| `Marks.SnapsToOnePlace` | cmd/server/passage.go:145-157 | that description leaves one answer only |
| `Marks.SnapStaysPut` | cmd/server/passage.go:145-157 | a snap moves a mark by at most the tolerance and snapping again moves it no further |
| `Marks.SnapKeepsOrder` | cmd/server/passage.go:145-157 | two marks of one file may be merged by snapping, never reversed |
| `Marks.FindPlace` | cmd/server/passage.go:207-214 | the rank of the first occurrence, and 0 for an id the order does not hold |
| `Marks.CompareIsTheOrder` | cmd/server/passage.go:194-205 | for members of the work the comparison is the strict playing order, and 0 only for the same mark |
| `Marks.SetMarkKeepsOrder` | cmd/server/passage.go:165-182 | marking keeps in strictly before out whichever end was meant, and holds exactly the two points said |
| `Marks.BlindMarkExactly` | cmd/server/session.go:858-890 | with no order known the pair comes out in the work's order if and only if the seconds agree with it |
| `Marks.StrangerIsTheFirst` | cmd/server/passage.go:207-214 | a mark the order does not name is compared as one of the first member's |
| `Marks.MintedLinkReadsBack` | cmd/server/passage.go:219-268 | the link of two ordered marks reads back as their passage: always in one file, across files if and only if the out time is greater, losing only the end otherwise |
| `Marks.RunLosesItsEnd` | cmd/server/passage.go:219-235 | the concrete pair of marks whose link loses its end |
| `Runs.NextMember` | internal/works/progress.go:507-527 | the scan past bonus material finds the next in the list of real members |
| `Runs.RunPlaysThrough` | cmd/server/session.go:385-431 | a run from member i plays i, i+1, … once each to the member it is until (or the work's last), or up to the first that is unprobed or denied to the device; every later sitting keeps until and end and has no t |
| `Runs.RefusedRunFallsShort` | cmd/server/session.go:385-417 | refused at member k it has played i to k-1, and the answer is which refusal it was |
| `Runs.EndPublishedOnce` | cmd/server/session.go:423-431 | past the first sitting ends_at is published if and only if the member it is until lies ahead and every member up to it can be started, and then on that member alone, the run's last |
| `Runs.LinkFormLosesTheEnd` | web/passage.js:126-135 | the client's next passage and the server's agree if and only if there is no end, and always on whether the run goes on |
| `Registry.PlaySessions.constructor` | cmd/server/session.go:70-78 | the registry starts with no plays and no remembered marks |
| `Registry.PlaySessions.PutRow` | cmd/server/session.go:116-127 | the row is in, touched now, and nothing else changes |
| `Registry.PlaySessions.Get` | cmd/server/session.go:131-140 | a read touches the row it answers and no other |
| `Registry.PlaySessions.UpdateRow` | cmd/server/session.go:143-153 | the function is applied to the one row there is, or nothing happens |
| `Registry.PlaySessions.RememberRow` | cmd/server/session.go:100-114 | marks are remembered under profile and work; none deletes what was remembered |
| `Registry.PlaySessions.Drop` | cmd/server/session.go:155-169 | the row is gone and its marks remembered |
| `Registry.PlaySessions.FindPassageOn` | cmd/server/session.go:174-183 | an answer if and only if some live row of that item and profile carries a passage |
| `Registry.PlaySessions.Inherit` | cmd/server/session.go:188-199 | the remembered marks inside two minutes, none after them and none for no work |
| `Registry.PlaySessions.ReapIdle` | cmd/server/session.go:206-228 | exactly the rows gone idle, or whose stream is gone, are dropped, and each is answered once |
| `PassageRule.RuleOverRuns` | cmd/server/session.go:786-844 | in every run a session's pending place write is of a row that carried no passage and still carries none, and a pending write outside sessions saw none |
| `Requests.ProgressComesTo` | cmd/server/session.go:786-816 | undisturbed, a session's progress stores the place it sent, for the row's profile or the body's when the row has none, and nothing else; with its passage on it changes no place |
| `Requests.BareComesTo` | cmd/server/main.go:1060-1080 | a write outside sessions stores its value, or takes the place away, unless some row holds the pair under a passage |
| `Requests.KeepComesTo` | cmd/server/session.go:835-844 | keeping on takes the passage off that row and changes nothing else |
| `Requests.PlayComesTo` | cmd/server/session.go:265-375 | a play puts one row under a new id: its item, profile, work and passage, and the marks left in that work inside two minutes |
| `Requests.NextComesTo` | cmd/server/session.go:385-431 | POST next puts a row for the same profile whose passage keeps until and end alone, and leaves the row it was asked of |
| `Requests.MarkComesTo` | cmd/server/session.go:858-890 | a mark sets or clears one end of that row's pair and remembers the pair, or forgets it when nothing is left |
| `Requests.StopComesTo` | cmd/server/session.go:155-169 | a stop takes the row away and remembers its marks |
| `Requests.ReapedExactly` | cmd/server/session.go:206-228 | a row stays if and only if its stream is live, or without one it was touched within five minutes, or four hours for a book |
| `StoredPlaces.StoredIsTheLastReport` | cmd/server/session.go:786-822 | in every run, whatever interleaves or is cut off, what is stored of an item and profile is what the last report to reach it said: the place it sent, nothing after it was taken away, nothing when there was never one |
| `PassageRule.OnlyWaysAPlaceMoves` | cmd/server/session.go:786-822 | in every run a place moves only by a session without a passage, by a write outside sessions that saw no passage (any there now is newer), or by being forgotten |
| `PassageRule.BareWriteAsOneStep` | cmd/server/main.go:1060-1080 | a legacy or watched write straight after its look never moves a place while a live row of the pair has a passage |
| `PassageRule.BareWriteRaces` | cmd/server/watched.go:86-107 | with a step between look and write it does: the run that shows it |
| `PassageRule.SecondSessionMoves` | cmd/server/session.go:786-816 | a second session without a passage moves the place under the first one's: the run that shows it |
| `PassageRule.ForgettingMoves` | cmd/server/continue.go:133-160 | from any state, of any item and profile, each place among the work's members is forgotten when its turn comes, whatever passage is on |
| `MarksOverRuns.MarksAlwaysInOrder` | cmd/server/session.go:100-199 | in every state of every run each row, each memo and each pair on its way between is of the work's members with in strictly before out |
| `MarksOverRuns.NextSessionInherits` | cmd/server/session.go:155-199 | of marks remembered by a stop or by a mark, if nothing else of that profile and work is remembered meanwhile, exactly those are left inside the TTL, and after it none |
| `MarksOverRuns.NewRowInherits` | cmd/server/session.go:265-350 | and the next session's own row, whether from play or POST next, is put in the registry with exactly those marks, whatever goes on while it starts |
| `MarksOverRuns.NextKeepsTheInPointExactly` | cmd/server/session.go:385-417 | advanced by POST next, the second episode has the in point if and only if it was asked for within two minutes of the mark, the first session still holding it |
| `MarksOverRuns.MarklessStopForgets` | cmd/server/session.go:109-112 | an older session stopped without marks leaves nothing to inherit |
| `ChangeFeed.NoGapInAnyRun` | cmd/server/main.go:511-557 | for every interleaving of item, place and deletion writes with the handler's reads, every live row stamped at or before the client's cursor is in its mirror as it stands |
| `ChangeFeed.RowsAreAsWritten` | internal/store/store.go:766-787 | in every run a row says what its last upsert said, stamped past all stamps there were, a deleted one is gone, and any other is untouched |
| `ChangeFeed.PlacesAreAsWritten` | internal/store/store.go:987-1033 | and a place what was last saved of it, or is gone when it was cleared |
| `ChangeFeed.AnswerExactly` | internal/works/feed.go:61-110 | a work is in the answer if and only if it has a member and the answer is full or some member, or place on one, is stamped past the cursor; and it comes with all its members and every place on them, as they are |
| `ChangeFeed.NoPlaceMissedInAnyRun` | internal/works/feed.go:61-110 | and every place stamped at or before it, on any member the client holds, however that member's own row changed since, unless a full answer is owed, or, to a client that cannot tell a full answer, that member itself |
| `ChangeFeed.FirstFetchAfterDeletionIsFull` | internal/store/store.go:443-458 | the first fetch begun after a deletion is answered in full whatever happens in between: the answer carries every work there is |
| `ChangeFeed.FirstAnswerAfterDeletionIsFull` | cmd/server/main.go:511-557 | stated of the actions alone: of the fetches begun after a deletion, the first to be answered is answered in full |
| `ChangeFeed.NoGhostInAnyRun` | internal/works/feed.go:61-110 | in every run that regroups nothing, what the client holds is really there or a full answer is owed; a client that cannot tell a full answer may hold besides a work with no members left, or one about to be sent anew |
| `ChangeFeed.NoClientCanTell` | cmd/server/main.go:553-556 | after a deletion and a change the answer can be, cursor and works, the one after two changes: whatever a client makes of it, it is wrong about the deleted member in one of the two |
| `ChangeFeed.ClearedPlaceIsUnheard` | internal/store/store.go:1030-1033 | a cleared place leaves the mirror of a client that was caught up as it was |
| `ChangeFeed.ClearingIsHeardExactly` | internal/works/feed.go:61-110 | a client's next fetch takes a cleared place away if and only if the work is in the answer (full, or something else of it past the cursor), or it has no members and the client can tell that the answer is full |
| `ChangeFeed.LeavingIsHeardExactly` | internal/works/feed.go:61-110 | and a member no longer in the work, under the same condition |
| `ChangeFeed.NoGhostPlaceInAnyRun` | internal/store/store.go:987-1033 | in every run in which no place is cleared, every place the client holds is a live row, as it stands or from before |
| `ChangeFeed.RegroupedRowIsHeldTwice` | internal/store/store.go:766-787 | a row moved to another work stays in the mirror's copy of the old one |
| `StableSort.SortOrders` | cmd/server/library.go:487 | sorting by a strict weak order leaves nothing out of order |
| `StableSort.SortStable` | cmd/server/library.go:487 | elements the order does not tell apart keep the order they came in |
| `TranscriptQueue.Leases.constructor` | cmd/server/transcripts.go:53-59 | nothing is handed out at first |
| `TranscriptQueue.Leases.IsHeld` | cmd/server/transcripts.go:62-67 | held for the lease's hour and not a second after |
| `TranscriptQueue.Leases.HandOut` | cmd/server/transcripts.go:70-77 | the lease is from now, and no other lease changes |
| `TranscriptQueue.Leases.Drop` | cmd/server/transcripts.go:80-84 | that lease is gone, and no other |
| `TranscriptQueue.Leases.Count` | cmd/server/transcripts.go:87-96 | exactly the live leases are left and counted |
| `TranscriptQueue.Leases.ReadQueue` | cmd/server/transcripts.go:122-172 | one read lists the smallest-id free silent files up to its limit, its limit being what was asked within 100 and 20 by default, leases what it lists unless only looking, and counts the whole backlog every time |
| `TranscriptQueue.BacklogIsEverySilentFile` | cmd/server/main.go:848-862 | the backlog is, by ascending id, every file probed as video or audio, without subtitles and without a row at its etag, and no other |
| `TranscriptQueue.NoMoreThanAsked` | cmd/server/transcripts.go:122-126 | a read hands out as many as it asked for while there are, twenty when it did not say and never over a hundred |
| `TranscriptQueue.HeldForTheHour` | cmd/server/transcripts.go:62-67 | work handed out is held for an hour and not a second longer |
| `TranscriptQueue.SweptExactly` | cmd/server/transcripts.go:87-96 | counting leaves exactly the leases under an hour old, as they were |
| `TranscriptQueue.ReadsPartitionTheBacklog` | cmd/server/transcripts.go:122-172 | reads inside one window, each undisturbed, hand out consecutive stretches of the free backlog, nothing twice |
| `TranscriptQueue.EnoughReadsLeaseAll` | cmd/server/transcripts.go:122-172 | once the limits add up to the backlog every silent file has been leased exactly once |
| `TranscriptRaces.BothListExactly` | cmd/server/transcripts.go:150-164 | over any number of overlapping reads, sweeps and deliveries of other files in one window, a reader lists a free file if and only if it looked before anybody handed it out; two list it if and only if both did |
| `TranscriptRaces.OverlappingReadsListTwice` | cmd/server/transcripts.go:158-163 | of any file nobody holds, the run in which two readers both list it |
| `TranscriptRaces.UndisturbedRead` | cmd/server/transcripts.go:150-164 | a read with nothing between its steps lists and leases what the one-step read does |
| `TranscriptRuns.RowsAreServable` | cmd/server/main.go:919-946 | in every run, crashes included, a row means a file on disk, and the etag it names is one its item has had |
| `TranscriptRuns.LocalPassComesTo` | cmd/server/main.go:906-931 | undisturbed, the server's own pass hears the object there is, writes its words and records the item's etag |
| `TranscriptRuns.DeliveryComesTo` | cmd/server/transcripts.go:213-314 | and so does a worker's delivery |
| `TranscriptRuns.TakenExactly` | cmd/server/transcripts.go:213-300 | a delivery is taken if and only if the item is there at the etag sent, has no subtitles and a cue came; it writes nothing at that step |
| `TranscriptRuns.WorldComesTo` | internal/store/store.go:425-460 | an upload, a removal, a scan, a missing file, a worker giving up and a restart each change what they are of and nothing else |
| `TranscriptOrigins.EveryRowRecordsItsIntake` | cmd/server/transcripts.go:213-314 | in every run each row's etag is the one its item had when the work whose row step wrote it was taken in, and the one a delivery named, whatever became of the item before the row was written |
| `TranscriptRuns.CurrentRowIsHeard` | cmd/server/transcripts.go:213-314 | in every run with one transcript of an item in hand at a time, workers that send back the etag they were handed, and etags that never come back to a key, a row at the etag of the object there is means words heard from those very bytes, in however many reads; so a row that counts and is wrong is of a library behind its bucket |
| `TranscriptHazards.CrossedDeliveriesMislabel` | cmd/server/transcripts.go:213-314 | two that cross leave old words under the new etag, from any state with nothing in hand |
| `TranscriptHazards.CrossedExactly` | cmd/server/transcripts.go:303-312 | of any number of transcripts of one item, in any order of their writes, the words are mislabelled if and only if the last row written is at the item's etag and the last file written was not heard from exactly those bytes |
| `TranscriptHazards.OneOrderInSix` | cmd/server/transcripts.go:303-312 | of two, each heard as named, that is one order of the six: the older file lands after the newer one and the newer row last |
| `TranscriptMishaps.HeardBeforeTheScan` | cmd/transcriber/worker.go:202-213 | of any two files, the run, careful at every step, in which the second is heard and recorded as the first before a scan sees it; the next scan puts the item back on the backlog |
| `TranscriptMishaps.PutBackUnseen` | cmd/server/transcripts.go:168-189 | and the run in which the first is put back before any scan: library, bucket and row agree, the words are the second's, and the item is off the backlog |
| `TranscriptMishaps.RestoredFileIsMislabelled` | cmd/server/transcripts.go:213-314 | of any two files, the run without crossing, each heard as named, in which the first is put back and keeps the second's words, off the backlog |
| `TranscriptHazards.StepKeepsTruthExactly` | cmd/server/transcripts.go:213-314 | with one transcript of an item in hand, a step leaves true all that the library vouches for if and only if it is no scan that finds an etag other words are recorded or on their way under, and no read of an object the library does not know for an item it vouches for |
| `TranscriptHazards.SafeRunsAreTruthful` | cmd/server/main.go:848-862 | over every run of such steps no row at its item's etag is of other words, whether or not an etag comes back |
| `TranscriptHazards.PutKeepsHeardExactly` | cmd/server/transcripts.go:168-189 | an upload leaves true what rows and jobs say of the object there is if and only if none of them names its etag with other words |
| `TranscriptRuns.RecordingClearsExactly` | cmd/server/main.go:938-946 | recording takes an item off the backlog if and only if it is still at the etag the work was for, and touches no other |
| `TranscriptRuns.BacklogExactly` | cmd/server/main.go:848-862 | in any state an item is on the backlog if and only if it is video or audio, has no subtitles and no row at its etag |
| `Converter.PlanWork` | cmd/converter/worker.go:207-224 | the work is every item that is not a skip, in the plan's order |
| `Converter.JobsExactly` | cmd/converter/worker.go:207-224 | the jobs are of the rows that are not skipped, one each, as the library has them |
| `Converter.WorkInOrder` | cmd/converter/worker.go:203-224 | nothing lost, remuxes before encodes, smaller before larger, equals as listed |
| `Converter.Ffmpeg` | cmd/converter/worker.go:400-433 | the chain kept is the first that succeeds with no cancelled one before it |
| `Converter.FallsBackExactly` | cmd/converter/worker.go:400-433 | a chain is the one kept if and only if the plan has that many (one for a copied picture, two on the cores, three with the card), it succeeds, and every one before it failed uncancelled |
| `Converter.Bucket.constructor` | cmd/converter/bucket.go:27-33 | a pass starts from the bucket as found |
| `Converter.Bucket.Put` | cmd/converter/bucket.go:70-73 | a put writes that key and no other, or nothing when refused |
| `Converter.Bucket.Remove` | cmd/converter/bucket.go:75-77 | a removal takes that key and no other, or nothing when refused |
| `Converter.Bucket.PutSidecars` | cmd/converter/worker.go:379-384 | sidecars go up in track order and stop at the first that fails |
| `Converter.Bucket.Ocr` | cmd/converter/worker.go:338-385 | nothing is uploaded unless every track read into a cue |
| `Converter.Bucket.Replace` | cmd/converter/worker.go:300-336 | the upload only of a file that was made and verified, the removal only after it |
| `Converter.Bucket.Convert` | cmd/converter/worker.go:255-336 | the whole log of writes a conversion makes, and that it reports a change exactly when the new file went up |
| `ConverterRuns.OwnAttemptKeeps` | cmd/converter/worker.go:255-336 | whichever write of a conversion is the last made, its file is there unchanged or as a verified conversion under its output key |
| `ConverterRuns.UploadsExactly` | cmd/converter/worker.go:255-331 | the new file is written if and only if the object is the one listed, every step up to the upload went well and the bucket took it; the original is removed if and only if the bucket also said so, it is another object, originals are not kept and the removal was taken |
| `ConverterRuns.SidecarsExactly` | cmd/converter/worker.go:379-384 | the sidecars written are those of the first tracks, up to the first not reported up, which is there too when only the report failed |
| `ConverterRuns.EveryFileIsKept` | cmd/converter/worker.go:255-336 | over any number of passes, failures and cuts, so is every file when no other file of its stem is planned; and it is untouched when it is not planned either |
| `ConverterRuns.UnplannedUntouched` | cmd/converter/worker.go:255-336 | a file nobody plans and that is not itself the .mp4 of its stem is untouched in every run, whatever is planned beside it |
| `ConverterRuns.LostExactly` | internal/pipeline/convert.go:126 | over a whole listing, some run of attempts at the planned files loses a given file if and only if another planned file of its stem is not itself the .mp4, and the given one is, or is planned with originals not kept |
| `ConverterRuns.SharedStemLosesAFile` | internal/pipeline/convert.go:126 | of two planned files of one stem the run that loses one, with originals kept or not |
| `ConverterRuns.KeepingLeavesOriginals` | cmd/converter/worker.go:325-331 | with originals kept, whatever is planned, a file that is not itself the .mp4 of its stem is left exactly as it was |
| `ConverterRuns.SharedStemExactly` | internal/pipeline/convert.go:126 | some run at two planned files of one stem loses one if and only if originals are not kept or one of them is the .mp4 |
| `ConverterRuns.WhatMakesItStale` | cmd/converter/worker.go:321-331 | a finished attempt takes its file off the work if and only if it replaced it in place or uploaded, meant to remove and did |
| `ConverterRuns.NeverConvertedAgain` | cmd/converter/worker.go:260-276 | after which no later attempt from that listing writes anything, whatever came between |
| `ConverterRuns.NoHalfASetOfSubtitles` | cmd/converter/worker.go:291-331 | no sidecar unless every picture track read, and no removal but straight after the upload of the new file |
| `Shelves.ArtistsOf` | internal/works/artists.go:37-75 | every filed album is on one shelf in the sorted order, no shelf is empty, no neighbours share a name |
| `ArtistShelves.SoonerIsAnOrder` | internal/works/artists.go:47-60 | comparing by artist, year with the undated last, title and key is a strict weak order |
| `ArtistShelves.ShelvesAreByArtistAndYear` | internal/works/artists.go:32-75 | one shelf for each artist with a filed album, in name order, holding exactly that artist's, by year with the undated last, then title, then key |
| `Shelves.LibraryOrder` | cmd/server/library.go:86-123 | the five slices appended to one after another are the order the next rows are about |
| `Shelves.EveryWorkOnce` | cmd/server/library.go:72-85 | given distinct keys every work is exactly one tile or on exactly one artist's shelf, and which is whether it is a filed album |
| `Shelves.TilesExactly` | cmd/server/library.go:86-123 | on the grid are exactly a tile of each artist, in music, and one of each work no artist's shelf stands for, in its band: shows, books, audiobooks and albums in their own, other works by what their medium is, a film being what is neither audio nor text |
| `Shelves.BandsInOrder` | cmd/server/library.go:72-85 | the bands are contiguous in the library's order, artists lead music, and each band holds, as they came, exactly the works that belong in it and stand on no shelf |
| `Shelves.BandsOf` | cmd/server/library.go:125-140 | exactly the bands something landed in, in the library's order |
| `ShelfRows.ShelfAddedAt` | cmd/server/library.go:441-464 | the newest arrival among all files behind the tile |
| `ShelfRows.RecentlyAdded` | cmd/server/library.go:476-496 | the newest n of the shelves whose arrival is known |
| `ShelfRows.NewEpisodesIn` | cmd/server/library.go:514-531 | the number and the newest of the episodes inside the fortnight |
| `ShelfRows.NewEpisodes` | cmd/server/library.go:537-557 | the newest n of the shows with news |
| `ShelfRows.NewestIsExact` | cmd/server/library.go:476-557 | the selection is newest first, a sub-multiset, leaves out nothing newer than what it takes, and breaks ties by the grid's order |
| `ShelfRows.ArrivedExactly` | cmd/server/library.go:481-486 | in the running are exactly the shelves with some dated file, as the grid has them |
| `ShelfRows.WithNewsExactly` | cmd/server/library.go:542-547 | in the running are exactly the shows with an episode that arrived inside fourteen days, as the grid has them |
| `BecauseRow.SharedGenres` | cmd/server/library.go:580-597 | the number of the second work's genres that are named and the first's too |
| `BecauseRow.AlikeIsMutual` | cmd/server/library.go:560-570 | being alike is sharing a named genre, and goes both ways |
| `BecauseRow.Alike` | cmd/server/library.go:603-630 | the works alike in rank order |
| `BecauseRow.BecauseSeeds` | cmd/server/library.go:655-683 | the works this profile has been in, furthest into first, then latest touched |
| `BecauseRow.ByRankIsExact` | cmd/server/library.go:599-602 | ranking loses and adds nothing, puts no work before one that outranks it, and keeps the library's order inside a rank |
| `BecauseRow.Because` | cmd/server/library.go:695-726 | the strongest seed with any suggestion, no stronger one having any; nil if and only if nobody watched anything or no seed has one |
| `BecauseRow.SuggestionsAre` | cmd/server/library.go:706-720 | the row is the ranked works with tiles of their own, as many as fit |
| `BecauseRow.SuggestionsSuit` | cmd/server/library.go:687-694 | every pick is unwatched, not the seed, shares a named genre and has its own tile in its band; no more are picked than fit, and while there is room every such work is; picks come by how many genres are shared and then by arrival |
| `BecauseRow.OwnTileExactly` | cmd/server/library.go:80-85 | a work has a tile of its own if and only if no artist's shelf stands for it |
| `Focus.Wrap` | web/focus.js:65-88 | the near end of the nearest row that way, first listed of equals, or nothing |
| `Focus.Pick` | web/focus.js:90-107 | the cheapest candidate that way, first listed of equals, and the wrap when there is none |
| `Focus.CostExactly` | web/focus.js:35-63 | a rectangle is that way if and only if its centre is more than a unit further, and costs the way there and four times what the two miss each other by across |
| `FocusGrid.EveryPressLands` | web/focus.js:35-107 | from every tile of every uniform grid each arrow lands where the table says, the short last row included |
| `FocusGrid.RightReadsOn` | web/focus.js:65-88 | k presses of Right from the first tile land on tile k of reading order, for every k below the count |
| `FocusGrid.PressesUndone` | web/focus.js:45-107 | Left takes back a press of Right, and Up a press of Down onto the same column |
| `FocusGrid.ShortRowClimbs` | web/focus.js:45-58 | from the end of a short last row the nearest tile to the right is one row up |
| `FocusGrid.DownToTheLast` | web/focus.js:45-58 | with nothing straight below, the nearest tile down is the last |
| `PlaceTokens.ParseClock` | cmd/server/passage.go:667-681 | one to three parts, only the last with a fraction, each worth sixty of the next |
| `PlaceTokens.ClockReadsBack` | internal/works/progress.go:362-372 | a printed time parses back to the whole second it was printed for |
| `PlaceTokens.ClockExactly` | internal/works/progress.go:362-372 | minutes and seconds, the seconds in two digits, and past the hour the hours first and the minutes in two digits |
| `PlaceTokens.NumberExactly` | cmd/server/passage.go:667-681 | a part of a time is a number if and only if it is digits, with one point at most and a digit at least |
| `PlaceTokens.FractionReadsBack` | cmd/server/passage.go:665-681 | bare seconds with a fraction are that many seconds |
| `PlaceTokens.RefusedTimes` | cmd/server/passage.go:667-681 | four parts, a part that is no number and a fraction before the last part are refused |
| `PlaceTokens.EpisodeTokenReadsBack` | cmd/server/passage.go:642-652 | a published episode token splits into its own code if and only if season and episode fit the code's digits |
| `EpisodePlaces.CodeExactly` | cmd/server/passage.go:642-652 | letters in either case, one to three digits and one to four: exactly which texts begin with a code, the numbers it is of and what follows it |
| `PlaceTokens.EpisodeTokenIsNoTime` | cmd/server/passage.go:667-681 | no episode token, in range or out of it, is taken for a time |
| `PlaceTokens.SectionTokenReadsBack` | cmd/server/passage.go:657-663 | "ch. n" is read as the n-th section |
| `PlaceTokens.WordExactly` | cmd/server/passage.go:657-663 | a kind may have a dot and needs blanks and then one word; without the blanks or without the word it is no section, and is left as it came |
| `Places.PlaceList.constructor` | cmd/server/hyper.go:688-689 | the list starts empty |
| `Places.PlaceList.Add` | cmd/server/hyper.go:690-696 | a token is kept the first time it comes, and a blank one never |
| `Places.PlacesOf` | cmd/server/hyper.go:687-737 | the published list is the work's places, each token once |
| `PublishedPlaces.ShowPublishes` | cmd/server/hyper.go:697-708 | a show publishes its numbered episodes in order, each its code at 0:00 under its name |
| `PublishedPlaces.WorkPublishes` | cmd/server/hyper.go:709-737 | a film, an audiobook and a record publish the chapter starts of the first member with chapters, a book its sections or those of the first member with a spine, each under its title or its number; any other work nothing |
| `Places.EachTokenOnce` | cmd/server/hyper.go:684-686 | no place is lost, no token is listed twice, nothing is made up |
| `Places.EpisodePlaceIsAccepted` | cmd/server/passage.go:575-594 | an episode's place is accepted if and only if its code fits, and lands at the start of the first episode with that code |
| `EpisodePlaces.EpisodeTimeIsAccepted` | cmd/server/passage.go:575-591 | a code in range and a time land at that second of the first member with the code, and the code alone at its start |
| `EpisodePlaces.CodedPlace` | cmd/server/passage.go:575-591 | and with any text after the code: at the time it is, or refused when it is none |
| `EpisodePlaces.TimeIsAccepted` | cmd/server/passage.go:592-608 | a bare time is refused of a show; of any other work it lands in the first member with chapters, else in the representative, else in the first member |
| `EpisodePlaces.TwoEpisodesMint` | cmd/server/passage.go:533-568 | two times in two episodes mint, either way round, the run from the earlier member's time until the later member, out at its time |
| `EpisodePlaces.ToAloneMints` | cmd/server/passage.go:553-561 | a place given alone as the end mints from the top of its file, and the whole file's start when it is there |
| `Places.ChapterPlaceIsAccepted` | cmd/server/passage.go:595-608 | a chapter's place lands on its own start, to the whole second, in the file it is of |
| `Places.SectionPlaceIsAccepted` | cmd/server/passage.go:613-640 | a book's i-th place is read as its i-th section |
| `Places.TwoSectionsMint` | cmd/server/passage.go:613-640 | two sections mint the passage from the one to the other in the book's own file, in the order given |
| `PublishedPlaces.TextMintExactly` | cmd/server/passage.go:613-640 | of places and blanks a book's passage opens and closes where the sides say; two blanks, or a side that is no place, are refused |
| `Places.TextMintIsFixed` | cmd/server/passage.go:613-640 | whatever a book's passage was minted from, its own spelling mints it again |
| `Places.MintEitherWay` | cmd/server/passage.go:536-568 | two places mint the same passage in either order, and are refused together |
| `Places.MintedMarksAreInOrder` | cmd/server/passage.go:536-568 | what two places mint is the passage of two marks in the work's order |
| `Places.TwoChaptersMint` | cmd/server/passage.go:533-568 | two chapters mint the stretch of that file from the earlier to the later, to the second |
| `ClockWindow.OpenExactly` | cmd/server/main.go:748-754 | the hands of the clock say open if and only if the instant is inside the window drawn on some day, ending the next day when it ends before it starts |
| `ClockWindow.LeastWait` | cmd/server/main.go:748-766 | untilOpen is the least non-negative wait after which the instant is inside such a window, under a day, for every instant and every window |

## Left out

- HTTP, JSON, SQLite, MinIO, ffmpeg, whisper and the OCR tools: each is a step that may go either way, or a value.
- Sign-in, devices and access, the child filter, search, sharing, telemetry and avatars: no state the theorems above depend on.
- The browser's DOM, the player and the reader: only the arithmetic they call is here.
- PassageGrammar.RoundTripExactly: seconds are exact decimals and ids are unbounded; a browser's rounding, its exponent spellings (from 1e21 up and below 1e-6) and ids past 2^53 are not modelled.
- Locators.TextPassageRoundTrip: a share of a book below a millionth is an exact decimal here, where the JavaScript prints it with an exponent that it does not read back.
- PlaceTokens.ParseClock: a part is plain digits with or without a point; the signs, exponents, hexadecimal, infinities and not-a-number that strconv.ParseFloat also takes are answered as no time, and no published place contains them.
- Locators.FormattedReadsBack: the JavaScript trimmer and pattern are modelled; the Go ones differ on which code points are spaces and on line breaks inside a cfi, and no spelling here has any of them.
- Places.TwoSectionsMint: a section number past the width of an int is not modelled.
- Marks.SetMarkKeepsOrder: seconds are real numbers; a not-a-number position is not modelled.
- MarksOverRuns.MarksAlwaysInOrder: which items are in which work does not change during a run, and a mark set while the works cannot be built is left to BlindMarkExactly.
- Registry.PlaySessions.RememberRow: a memo is keyed by the pair of profile and work, where the code joins the two with a NUL byte.
- Session ids are never reused, as if drawn without collisions; a play's stream and its pipeline are only a name that is live or not.
- ChangeFeed.NoGapInAnyRun: a client is either told which answers are full or lays each answer over what it holds; what else a client might do is only in NoClientCanTell. The order of the works in an answer and the summing of progress per audience are left out.
- ChangeFeed.NoPlaceMissedInAnyRun: for runs in which no row moves to another work; RegroupedRowIsHeldTwice is what happens otherwise.
- TranscriptQueue.ReadsPartitionTheBacklog: one read is one step, as UndisturbedRead allows; BothListExactly is what holds of reads that overlap.
- TranscriptRaces.BothListExactly: readers that ask for every file (`all`) neither look at a lease nor give one, so they are not among its readers.
- TranscriptRuns.CurrentRowIsHeard: an etag never comes back to a key that had it, and one transcript of an item is on its way at a time; PutBackUnseen, RestoredFileIsMislabelled and CrossedExactly are what happens otherwise. What whisper makes of the bytes is not modelled, only which bytes it was given.
- Runs.RunPlaysThrough: which members are probed and which the device is denied stays as it is during a run; a signing or streaming failure ends the run as a denial does.
- ConverterRuns.EveryFileIsKept: one listing; nothing but the converter writes to the bucket between its stat and its removal; a put or a removal happens whole or not at all.
- ConverterRuns.LostExactly: two files of one stem have different bytes, and a put has an etag no listed object had.
- ConverterRuns.NeverConvertedAgain: a file put under the key has an etag other than the listed one.
- The planner's decision and the verifier's measurements: a plan is any plan whose output key and sidecars are spelled the way the planner spells them, and verification passes only good files.
- The converter's main loop: the scan requests, the card probe and the backoff are left out; they write nothing to the bucket.
- Shelves.ArtistsOf: the lower-casing of a text is given, not computed, and two names that fold alike are taken to lower alike.
- BecauseRow.BecauseSeeds: how far a profile is into a work is given, not computed, and is a real number.
- FocusGrid.EveryPressLands: a uniform grid with exact coordinates; other layouts have only Pick and Wrap's own contracts.
- ClockWindow.LeastWait: no daylight saving; the reading of "HH:MM-HH:MM" is left out.
- textPassageEnded and the order of CFIs, the genre facets and the similar-works row: easy members beside the ones above.
