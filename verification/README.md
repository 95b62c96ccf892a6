# What is proved about the streaming platform

This project models the parts of the platform whose correctness cannot be seen in any single branch, and proves what
each of them is for. It has one module per component.

- **Audio analysis** (`Complex`, `Bits`, `Fourier`, `Fft`, `Pcm`, `Spectral`, `Analyzer`, `Tempo`). The in-place radix-2
  transform computes the discrete Fourier transform, for every power of two and every input, in exact arithmetic: `UnitRoots`
  names the laws of the cosine and sine tables (angles add, half a turn is -1). Around it the byte-stream analyzer, whose
  whole state is a function of the bytes heard, and the tempo search with its onset and autocorrelation bounds.
- **Events** (`Outbox`, `Consumer`). The transactional outbox as a state machine: open transactions, an id sequence, row
  locks, relays that stop anywhere, and a log per key. The consumers as classes that own their committed offsets.
- **Media pipeline** (`Transcoder`, `Uploads`). Redelivery, rewinds and interruptions between the writes of three
  variants; concurrent completions of one upload.
- **Sessions** (`Sessions`, `Browser`). Refresh-token rotation with lookups, decisions and writes as separate steps of any
  interleaving, and the browser's single-flight refresh in front of it. This is the pattern of section 4.14.2 of RFC 9700.
- **Search** (`Indices`, `Documents`, `Rebuild`). Index generations behind aliases with a failure at any request, versioned
  writes under any delivery, and that rebuilding an index shows what replaying the events would.
- **Recommendations** (`Taste`, `Scores`, `Ranking`, `Decided`). The profile a user's signals add up to, bounds on every part of
  a score and what moves it, the ranked lists, and when the signals alone decide them.
- **Reading** (`Paging`, `Cache`). Walks along cursors under concurrent edits, and the cache before Catalog's tracks.

Code that changes things step by step is modelled by classes and loops, each tied by its `ensures` to a function or a
relation whose properties are then proved. Protocols that several processes take part in are state machines: `Step` is one
round trip or one critical section, `Apply` what it does, a run any sequence of enabled steps, and what the service classes
do is proved to be steps of those machines. `Options` holds the one shared datatype,
`Places` what it means to list some places of a list in order.

## What the proofs found

- **Reuse detection sees one token back.** The comment on `Refresh` says that presenting an already-rotated token revokes
  the session. The session row holds the last two hashes only: `Sessions.PresentedMeaning` says exactly which link of a
  chain rotates, which one revokes, and that every older one is merely invalid; `Sessions.StaleTokenGoesUnnoticed` is a case.
- **A lost answer can log the user out.** Losing the answer of a refresh is harmless exactly if no rotation was saved for it
  (`Browser.LosingExactly`). While no such answer is lost no refresh is taken for a reuse (`Browser.NeverReused`); after one,
  however the steps of the page, of its calls and of everyone else interleave, every refresh is answered as a reuse and the
  session is revoked (`Browser.LostAnswerTripsReuse`).
- **`Ensure` is not idempotent after an interruption.** It is documented as idempotent. Stopped between creating
  `<alias>-v1` and pointing the alias at it, it can never succeed again. `Indices.Admin.Ensure` states the exact condition,
  `Indices.InterruptedEnsure` and `Indices.StaysStuck` the case.
- **Reordering is harmless only while ties agree.** Versions are milliseconds. Two events of a track within one millisecond
  that ask for different documents make the result depend on the order (`Documents.TiesDecide`); otherwise it does not
  (`Documents.AnyOrder`), and in-order delivery with rewinds never does (`Documents.InOrder`).
- **Per-key order needs the row lock, and only that.** For every configuration a key's log follows its commit order in all
  runs exactly if the key's writers lock its row (`Outbox.OrderNeedsRowLock`), also when relays lose their lock. Repeats are
  another matter: deleted rows can be appended again exactly if a relay can lose its lock under a publish
  (`Outbox.RepeatsNeedLostLock`).
- **Dead-lettering an upload can leave a mix of two masters.** A run with dead letters has converged exactly if the newest
  usable upload was last passed by a delivery, or given up when it already counted as a duplicate
  (`Transcoder.RunsConvergeExactly`).
- **The genre ratio stays within 1 by the catalog's doing.** It does for every user exactly if the track's genres are distinct
  (`Taste.DistinctGenresExactly`); Catalog removes repeats when an album is created
  (`services/catalog/internal/domain/album.go`, line 60), so the clamp is only a second guard.
- **A recommendation can depend on the order in which a map is listed.** It does not if one analyzer version at most weighs
  most in what the user likes (`Decided.RecommendationIsUnique`). Exactly then is the sound of the profile decided
  (`Decided.SoundDecidedExactly`), and exactly then is every recommendation, whichever track joins the catalog
  (`Decided.RecommendationDecidedExactly`). `Decided.TieLeavesItOpen` has two outcomes for the same signals.
- **A rebuild reports failure where two aliases shared an index.** The second delete of that index is an error, after all aliases
  have moved. `Indices.Admin.Reindex` succeeds exactly if the indices are filled, every request is served, no index is shared
  and no first or next name is in use.

## Model

| member | source | states |
|---|---|---|
| `Fft.Fft.constructor` | workers/audio-analysis/internal/dsp/fft.go:12-30 | The tables: entry i of `rev` is the bit reversal of i, and the twiddle tables hold the unit roots of the first half turn |
| `Fft.ReverseIndex` | workers/audio-analysis/internal/dsp/fft.go:18-22 | The bit loop with shifts and ors computes the reversal of a bit string |
| `Bits.ReverseInvolution` | workers/audio-analysis/internal/dsp/fft.go:17-23 | Reversal is its own inverse on the table's range, so the table is a permutation |
| `Bits.OrDisjoint` | workers/audio-analysis/internal/dsp/fft.go:18-22 | Collecting bits by `or` is adding them, as each lands on a clear bit |
| `Fft.Fft.Permute` | workers/audio-analysis/internal/dsp/fft.go:33-38 | The conditional swap pass moves every element to its reversed index, once: the buffers hold exactly the permuted input |
| `Fft.Cross` | workers/audio-analysis/internal/dsp/fft.go:42-48 | One butterfly replaces its two elements by sum and difference of the first and the rotated second, and touches nothing else |
| `Fft.Fft.Block` | workers/audio-analysis/internal/dsp/fft.go:42-48 | The inner loop applies every butterfly of one block, with every table index in range, and leaves other blocks alone |
| `Fft.Fft.Stage` | workers/audio-analysis/internal/dsp/fft.go:39-50 | One pass over the buffers applies the butterflies of every block |
| `Fft.Fft.Transform` | workers/audio-analysis/internal/dsp/fft.go:32-52 | For every power of two and every input the buffers end up holding the discrete Fourier transform, line by line |
| `Fft.StageTransforms` | workers/audio-analysis/internal/dsp/fft.go:39-50 | If every block holds the transform of its strided subsequence of the input, so does every block of twice the size after a stage |
| `Fft.ReversedIsTransformed` | workers/audio-analysis/internal/dsp/fft.go:33-38 | In reversed order, blocks of one element are the transforms of their subsequences |
| `Fft.OneBlockIsDft` | workers/audio-analysis/internal/dsp/fft.go:32-52 | When one block covers the buffer, it is the transform of the whole input |
| `Fourier.DftIsEval` | workers/audio-analysis/internal/dsp/fft.go:32-52 | The defining sum at line k is the value of the input's polynomial at unit root k |
| `Fourier.EvalSplit` | workers/audio-analysis/internal/dsp/fft.go:42-48 | A polynomial is its even part at the square plus the point times its odd part there |
| `Fourier.Butterfly` | workers/audio-analysis/internal/dsp/fft.go:42-48 | Sum and difference of the half-size transforms are the full-size transform at k and k + half |
| `Bits.ReverseChild` | workers/audio-analysis/internal/dsp/fft.go:17-23 | The reversed index of a block's children: the even and the odd half of its subsequence |
| `Pcm.ChunkingIsIrrelevant` | workers/audio-analysis/internal/dsp/dsp.go:84-102 | Every way of cutting a byte stream into writes leaves the same samples and the same bytes held back |
| `Pcm.SplitAnywhere` | workers/audio-analysis/internal/dsp/dsp.go:84-102 | Decoding a first part and then its held-back bytes with the rest is decoding the whole |
| `Pcm.DecodeOfEncode` | workers/audio-analysis/internal/dsp/dsp.go:94-99 | Four bytes, least significant first, are heard as the binary32 number they encode, subnormal numbers included |
| `Pcm.EveryWordIsEncoded` | workers/audio-analysis/internal/dsp/dsp.go:94-99 | There are no other four bytes |
| `Pcm.StreamRoundTrip` | workers/audio-analysis/internal/dsp/dsp.go:84-102 | A stream of encoded numbers is heard number by number, with nothing held back |
| `Analyzer.Analyzer.constructor` | workers/audio-analysis/internal/dsp/dsp.go:71-82 | A fresh analyzer has heard nothing |
| `Analyzer.Analyzer.Write` | workers/audio-analysis/internal/dsp/dsp.go:84-102 | After any write the whole state (samples, frame, envelope, counters, fewer than 4 bytes held back) is the function of all bytes so far that `Pcm.Stream` defines |
| `Analyzer.Analyzer.WriteSamples` | workers/audio-analysis/internal/dsp/dsp.go:104-109 | Feeding samples directly extends the samples heard by exactly those |
| `Analyzer.Analyzer.Sample` | workers/audio-analysis/internal/dsp/dsp.go:111-121 | One sample more, ending a hop exactly when it is full |
| `Analyzer.Analyzer.EndHop` | workers/audio-analysis/internal/dsp/dsp.go:123-129 | The end of a hop moves the state to one hop more: silence count, sliding frame and envelope entry |
| `Analyzer.Analyzer.Slide` | workers/audio-analysis/internal/dsp/dsp.go:123-129 | The frame drops its oldest samples and takes the hop at its end |
| `Analyzer.Analyzer.CountSilence` | workers/audio-analysis/internal/dsp/dsp.go:131-140 | One hop more, and one silent hop more exactly if it is below the threshold |
| `Analyzer.Analyzer.Flux` | workers/audio-analysis/internal/dsp/dsp.go:142-157 | The flux is what rose since the previous frame's exact spectrum; the magnitudes kept are those of this frame |
| `Analyzer.Analyzer.Result` | workers/audio-analysis/internal/dsp/dsp.go:159-171 | The reported silence ratio and tempo are those of everything heard, a last partial hop included |
| `Spectral.FrameSlides` | workers/audio-analysis/internal/dsp/dsp.go:123-129 | Dropping the oldest hop and appending the newest turns the last frame into the next |
| `Spectral.SilenceRatio` | workers/audio-analysis/internal/dsp/dsp.go:159-171 | The share of silent hops lies in [0, 1] |
| `Spectral.SilenceThreshold` | workers/audio-analysis/internal/dsp/dsp.go:130-140 | A hop is silent if every sample is below 0.001, and is not if none is |
| `Spectral.SilenceOfStream` | workers/audio-analysis/internal/dsp/dsp.go:130-171 | A stream below 0.001 throughout is all silence, one that never is has none |
| `Spectral.RiseMeaning` | workers/audio-analysis/internal/dsp/dsp.go:142-157 | The flux is nothing exactly if no line rose; what rose less what fell is the whole change |
| `Spectral.EnvelopeAt` | workers/audio-analysis/internal/dsp/dsp.go:123-157 | Each entry of the envelope is the flux into its frame, in order, and the first is nothing |
| `Spectral.WindowShapes` | workers/audio-analysis/internal/dsp/dsp.go:72-77 | The window lets nothing of a frame through at its ends, all of it in the middle, and half in between |
| `Spectral.HopsAreFinal` | workers/audio-analysis/internal/dsp/dsp.go:111-129 | Later samples change neither silent hops nor envelope entries that ended before |
| `Tempo.PrefixWindow` | workers/audio-analysis/internal/dsp/dsp.go:224-244 | A difference of prefix sums is the sum of the window between them |
| `Tempo.Onsets` | workers/audio-analysis/internal/dsp/dsp.go:224-244 | The prefix-sum loop equals the naive local means, rectified and centered, with no index out of range |
| `Tempo.OnsetsSumToZero` | workers/audio-analysis/internal/dsp/dsp.go:224-244 | The onsets of every envelope sum to zero |
| `Tempo.PeaksStandOut` | workers/audio-analysis/internal/dsp/dsp.go:224-244 | An entry above its neighbourhood stands out over every entry that nothing around it lies below |
| `Tempo.Autocorrelate` | workers/audio-analysis/internal/dsp/dsp.go:189-198 | The loop fills the table with the unbiased, normalised autocorrelation |
| `Tempo.AcfBound` | workers/audio-analysis/internal/dsp/dsp.go:189-198 | Every entry is at most n / (n - lag) in absolute value, and at most 2 for lags up to half the length |
| `Tempo.OverlapIsMismatch` | workers/audio-analysis/internal/dsp/dsp.go:189-198 | The overlap at a lag is the mean energy of both parts less half of what tells them apart |
| `Tempo.PeriodicScoresOne` | workers/audio-analysis/internal/dsp/dsp.go:189-198 | An envelope of whole periods scores exactly 1 at its period |
| `Tempo.PickLag` | workers/audio-analysis/internal/dsp/dsp.go:200-209 | The search finds the first eligible lag with the greatest positive score |
| `Tempo.PickIsUnique` | workers/audio-analysis/internal/dsp/dsp.go:200-209 | There is one such lag |
| `Tempo.PickIsBest` | workers/audio-analysis/internal/dsp/dsp.go:200-209 | In terms of table and prior alone: the first lag with a tempo from 60 to 200 and a positive entry whose weighted entry is greatest above 0 |
| `Tempo.EstimateTempo` | workers/audio-analysis/internal/dsp/dsp.go:173-222 | The answer is no tempo, or within half a tenth 60 seconds of frames by a lag: the picked one, or half of it if that is at least 0.95 times as periodic, moved to where the parabola through its neighbours is highest; the confidence is what the lag scores, at most 1 |
| `Tempo.ParabolicIsPeak` | workers/audio-analysis/internal/dsp/dsp.go:252-260 | The offset is where the parabola through the three points is highest within half a lag, and none without a peak |
| `Tempo.TempoMeaning` | workers/audio-analysis/internal/dsp/dsp.go:173-222 | The report of a pick says so in terms of the table entries alone |
| `Tempo.TempoInRange` | workers/audio-analysis/internal/dsp/dsp.go:173-222 | It is (0, 0), or a tempo in [60, 200] with a confidence in [0.095, 1] |
| `Tempo.TempoIsUnique` | workers/audio-analysis/internal/dsp/dsp.go:173-222 | The envelope determines it |
| `Outbox.StepKeepsInv` | libs/platform/outbox/relay.go:112-168 | Every step of a writer, a relay or the broker, and every stop, keeps the invariant |
| `Outbox.DeliveryIsAtLeastOnce` | libs/platform/outbox/relay.go:112-168 | In every run a row is in the topic only if its change committed, and a committed row is in the topic or in the outbox |
| `Outbox.LogFollowsCommits` | libs/platform/outbox/outbox.go:53-75 | For a key whose writers lock its row, the log with repeats removed is a prefix of the commit order, and all of it once the outbox holds no row of the key |
| `Outbox.ClosedIsPrefix` | libs/platform/outbox/relay.go:150-168 | A sorted part that misses no smaller element of a sorted whole is a prefix of it |
| `Outbox.DeletedIsNeverResent` | libs/platform/outbox/relay.go:112-148 | While the lock outlives the publish, a row deleted from the outbox is never appended again |
| `Outbox.RunKeepsExclusive` | libs/platform/outbox/relay.go:114-127 | Only the holder of the relay lock has a batch in flight, and its rows still wait in the outbox |
| `Outbox.OrderNeedsRowLock` | services/catalog/internal/adapters/postgres/repositories.go:246-262 | For every configuration, a key's log follows its commit order in all runs exactly if its writers hold the row lock |
| `Outbox.UnlockedWritersReorder` | services/catalog/internal/adapters/postgres/repositories.go:246-262 | For every key without it, a run whose log contradicts the commit order |
| `Outbox.RepeatsNeedLostLock` | libs/platform/outbox/relay.go:114-148 | For every configuration, no deleted row can be appended again in any run exactly if no relay can lose its lock under a publish |
| `Outbox.DetachedRelayResends` | libs/platform/outbox/relay.go:114-148 | For every configuration and key, a run in which a row already published and deleted can be appended again |
| `Outbox.Store.Write` | libs/platform/outbox/outbox.go:57-75 | One row per message enters the transaction after those it held, in the order given, with its key and value, under ids counting up from the next |
| `Outbox.CommitsInOrder` | services/auth/internal/application/service.go:90-108 | After the commit the history of each key has grown by exactly the messages of that key, in the order given |
| `Outbox.Store.Modify` | services/catalog/internal/application/usecases.go:255-282 | A locked read-modify-write commits the row and its event, or neither, however it ends; a refused or empty change leaves both, and the last event of a key once announced keeps carrying the row stored |
| `Outbox.Store.RelayOnce` | libs/platform/outbox/relay.go:112-148 | Publishes the oldest rows and deletes exactly them when acknowledged and committed; otherwise every row stays |
| `Outbox.Store.Publish` | libs/platform/outbox/relay.go:135-139 | What a failed publish leaves in the topic is a prefix of the batch, taken by steps of the machine |
| `Consumer.AdvanceMeaning` | libs/platform/kafka/consumer.go:118-133 | A commit leaves each partition's offset after its last record committed, and no offset lower |
| `Consumer.AdvanceStaysSettled` | libs/platform/kafka/consumer.go:97-136 | Committing settled records read in order leaves no unsettled record below an offset |
| `Consumer.Consumer.constructor` | libs/platform/kafka/consumer.go:69-93 | Missing settings become their defaults; nothing is committed |
| `Consumer.Consumer.Process` | libs/platform/kafka/consumer.go:138-173 | A record counts as handled exactly if a call within MaxRetries + 1 succeeds, as dead-lettered exactly if the last failure is final and the dead-letter topic takes it; waits sum to at most RetryBackoff M (M + 1) / 2 |
| `Consumer.Consumer.RunOnce` | libs/platform/kafka/consumer.go:97-136 | A poll is handled in order up to the first record that stops it; exactly what was processed becomes settled, as handled or dead-lettered, and only that is committed |
| `Consumer.Consumer.Settle` | libs/platform/kafka/consumer.go:118-133 | Whether the commit works or not, everything below a committed offset stays settled |
| `Consumer.Consumer.Restart` | libs/platform/kafka/consumer.go:97-105 | A member starting again continues at the committed offsets and loses nothing |
| `Consumer.FetchesJoin` | libs/platform/kafka/batch.go:94-98 | Polls that continue one another are one longer poll, none left out |
| `Consumer.BatchConsumer.Collect` | libs/platform/kafka/batch.go:87-111 | A batch is whole polls in order, closed exactly by an empty first poll, the size, or the linger time, whichever comes first; it is a fetch as committing it needs |
| `Consumer.BatchConsumer.Handle` | libs/platform/kafka/batch.go:113-172 | Each record is flushed, skipped or dead-lettered as its decoding says, or the batch stops uncommitted; a record counts as flushed only if a permitted flush of what all decodable records decode to, in order, succeeded |
| `Consumer.ItemsAreUnique` | libs/platform/kafka/batch.go:115-131 | There is only one list of all items in order |
| `Consumer.BatchConsumer.FlushWithRetries` | libs/platform/kafka/batch.go:143-171 | The flush succeeds exactly if a permitted attempt does |
| `Consumer.BatchConsumer.RunOnce` | libs/platform/kafka/batch.go:75-84 | A batch is committed only when every record of it is settled; nothing but its records becomes settled, each as it decodes, and as flushed only if all items of the batch were, in order |
| `Consumer.BatchConsumer.Turn` | libs/platform/kafka/batch.go:64-85 | One turn of the loop collects, handles and commits so that everything below a committed offset stays settled; nothing but the records of its batch becomes settled, each as it decodes, and on success all of them |
| `Transcoder.Transcoder.Existing` | workers/transcoder/internal/application/transcoder.go:170-183 | The loop lists the stored variants, lowest first |
| `Transcoder.Transcoder.Handle` | workers/transcoder/internal/application/transcoder.go:111-168 | One handling with an interruption anywhere answers, stores and announces as specified: every finished job with the duration stored, every hopeless one with the reason, nothing else; only an incomplete job is invalid |
| `Transcoder.DeliveredOutright` | workers/transcoder/internal/application/transcoder.go:111-168 | A delivery of a complete job without faults is always done: stale exactly if a stored variant is newer, a duplicate exactly if none is and all hold this content, else failed exactly if the master is no audio, with nothing changed, and otherwise every variant is made from it |
| `Transcoder.FaultsOnlyDelay` | workers/transcoder/internal/application/transcoder.go:111-168 | What is done under faults is done as without them; else the job is retried, the lowest variants are as they will be and the others as they were |
| `Transcoder.CatchesUp` | workers/transcoder/internal/application/transcoder.go:111-168 | From anywhere in a log, as many deliveries without faults as records are left end after the last one, whatever the masters are |
| `Transcoder.PutMeaning` | workers/transcoder/internal/application/transcoder.go:155-163 | Writing n variants changes exactly the n lowest |
| `Transcoder.UploadTimesNeverDecrease` | workers/transcoder/internal/application/transcoder.go:185-206 | No delivery in any order replaces a variant by an older upload's, or loses one |
| `Transcoder.OldDeliveryChangesNothing` | workers/transcoder/internal/application/transcoder.go:185-206 | A record done before changes nothing when it comes again, also half way into a newer one |
| `Transcoder.NewDelivery` | workers/transcoder/internal/application/transcoder.go:111-168 | The newest record completes, leaves a longer partial run, or leaves all as it was |
| `Transcoder.RunsConverge` | workers/transcoder/internal/application/transcoder.go:111-206 | Any run of deliveries, interruptions and rewinds that ends after the last record leaves all three variants made from the newest usable master |
| `Transcoder.RunsConvergeExactly` | workers/transcoder/internal/application/transcoder.go:111-206 | All runs, dead letters included: a run ending after the last record has converged exactly if the newest usable record was last passed by a delivery, or given up when the duplicate guard held |
| `Transcoder.RunStores` | workers/transcoder/internal/application/transcoder.go:111-206 | In any run whatever is stored was made from a usable record |
| `Transcoder.NothingUsable` | workers/transcoder/internal/application/transcoder.go:111-206 | Without a usable master nothing is stored, in any run |
| `Transcoder.NewestDelivered` | workers/transcoder/internal/application/transcoder.go:111-206 | A finished delivery of the newest usable record leaves every variant made from it |
| `Transcoder.GivingUpLeavesAMix` | workers/transcoder/internal/application/transcoder.go:111-206 | A run with a dead letter that leaves variants of two masters side by side |
| `Uploads.RunKeepsInv` | services/media-ingest/internal/application/service.go:153-199 | In every interleaving each session settles once with the one event that matches it, callers are told what is stored, and only objects of failed sessions are removed |
| `Uploads.SettledIsFinal` | services/media-ingest/internal/adapters/postgres/repository.go:77-91 | A settled session never changes again |
| `Uploads.CallersAgree` | services/media-ingest/internal/application/service.go:181-192 | Two callers told a final outcome of a session were told the same |
| `Uploads.CompletedStays` | services/media-ingest/internal/application/service.go:186-191 | The object of a completed upload is never removed |
| `Uploads.Service.Verify` | services/media-ingest/internal/application/service.go:201-229 | No reason exactly if size, limit, type, digest and leading bytes all match, and a reason given is true of the object; a missing object is an expiry or not yet uploaded |
| `Uploads.Service.Complete` | services/media-ingest/internal/application/service.go:149-199 | One call on its own settles a pending session by the object's verdict, completed exactly if nothing was wrong, with the one event that says so, and tells the caller what is stored; what was declared never changes |
| `Sessions.StepKeepsInv` | services/auth/internal/application/service.go:159-281 | Every database round trip of every use case keeps the invariant |
| `Sessions.RunKeepsInv` | services/auth/internal/application/service.go:159-281 | In every interleaving a session's tokens form one chain whose last two links are the row's hashes, no token is shared or repeated, and the first revocation is the one kept |
| `Sessions.TokenRotatesOnce` | services/auth/internal/adapters/postgres/repositories.go:131-146 | Each token gives at most one successful rotation |
| `Sessions.RotationsKept` | services/auth/internal/adapters/postgres/repositories.go:131-146 | The compare-and-swap makes each successful rotation replace the last link by the next |
| `Sessions.RevokedIsFinal` | services/auth/internal/adapters/postgres/repositories.go:131-157 | Once revoked, a session's row never changes and no rotation succeeds |
| `Sessions.LookupsSeeTwoLinks` | services/auth/internal/adapters/postgres/repositories.go:122-129 | The two lookups find exactly the last and the second last token of a chain |
| `Sessions.PresentedMeaning` | services/auth/internal/application/service.go:159-206 | Presenting the last link rotates exactly if the session is neither revoked nor expired, and slides its expiry; the link before it revokes the session; older links and unknown tokens change nothing |
| `Sessions.StartedExpires` | services/auth/internal/domain/domain.go:105-130 | In any interleaving, until its first rotation a session rotates only while less than ttl has passed since its start |
| `Sessions.RotatedExpires` | services/auth/internal/domain/domain.go:114-130 | And so from each rotation to the next |
| `Sessions.StaleTokenGoesUnnoticed` | services/auth/internal/application/service.go:159-196 | A run after which a token rotated out twice ago is only refused and the session stays active |
| `Sessions.Service.Refresh` | services/auth/internal/application/service.go:159-206 | Run alone, a refresh answers and leaves just that; an error after the rotation leaves the rotation in place |
| `Sessions.Service.LogOut` | services/auth/internal/application/service.go:208-222 | Ends the session holding the token, now and as a logout unless it ended before; an unknown token changes nothing |
| `Sessions.Service.RevokeSession` | services/auth/internal/application/service.go:229-240 | Ends a session of the user's own; another user's is not found and untouched |
| `Browser.Tab.RefreshSession` | apps/web/src/shared/api/session.ts:45-64 | Joins the refresh in flight or starts the only one |
| `Browser.Tab.EnsureSession` | apps/web/src/shared/api/session.ts:66-69 | Restores the session once, or waits for the refresh in flight |
| `Browser.Tab.Retry` | apps/web/src/shared/api/client.ts:44-52 | After a 401 a retry is sent with another token only and starts no call if there is one; otherwise it waits for the refresh in flight or starts the only one |
| `Browser.Tab.Settle` | apps/web/src/shared/api/session.ts:50-63 | Stores the answer, clears the promise, and leaves no request waiting |
| `Browser.OneCallAtMost` | apps/web/src/shared/api/session.ts:45-64 | In any interleaving at most one refresh call is outstanding, and whatever waits is covered by its promise |
| `Browser.RefusedTokenRefreshesOnce` | apps/web/src/shared/api/client.ts:41-52 | However many requests a token is refused for, only the first starts a refresh, in any interleaving, as long as refreshes bring other tokens and the session lasts |
| `Browser.AccessNeedsCookie` | apps/web/src/shared/api/session.ts:45-64 | In any run the page is signed in only with a cookie, and the answer that brings one brings the access token |
| `Browser.StepKeepsBrowserInv` | apps/web/src/shared/api/client.ts:41-52 | Every step but a lost answer keeps the cookie the session's current token, or none |
| `Browser.LosingExactly` | apps/web/src/shared/api/session.ts:55-59 | A lost answer does so exactly if no rotation was saved for the call |
| `Browser.RunKeepsBrowserInv` | apps/web/src/shared/api/session.ts:49-64 | So does every run that loses no other answers |
| `Browser.PresentsCurrent` | services/auth/internal/application/service.go:168-181 | In such a state a refresh finds its session by the token presented and does not go on to the previous tokens |
| `Browser.NeverReused` | services/auth/internal/application/service.go:168-196 | In such a run every refresh finds its session, and no call is ever taken to the previous tokens or to a revocation |
| `Browser.SignedIn` | services/auth/internal/adapters/http/handler.go:181-200 | A page right after sign-in satisfies what the run needs |
| `Browser.LosingMakesStale` | services/auth/internal/adapters/http/handler.go:123-131 | Losing the answer to a saved rotation, success or error, leaves the page with the token before it |
| `Browser.StaleStays` | apps/web/src/shared/api/session.ts:49-69 | Nothing helps such a page, whatever it and everyone else do, until it receives the answer that its session is gone |
| `Browser.LostAnswerTripsReuse` | services/auth/internal/application/service.go:168-181 | In any interleaving of what the page, its calls and everyone else do, every call is taken to the previous tokens and answered as a reuse, with the session revoked by then |
| `Browser.CookieKeptBySave` | services/auth/internal/adapters/http/handler.go:123-131 | Clearing the cookie on every error keeps it from going stale, also when the error comes after the rotation |
| `Indices.VersionOfVersioned` | workers/search-indexer/internal/indices/indices.go:43-53 | A version number survives being written into a name and parsed back |
| `Indices.ForeignIsZero` | workers/search-indexer/internal/indices/indices.go:46-53 | An index not named after a version of the alias counts as version 0 |
| `Indices.VersionedIsUnique` | workers/search-indexer/internal/indices/indices.go:43-44 | No index name belongs to two aliases or versions |
| `Indices.Next` | workers/search-indexer/internal/indices/indices.go:96-99 | One more than the highest version behind the alias, at least 1 |
| `Indices.NextIsFresh` | workers/search-indexer/internal/indices/indices.go:96-100 | The next name is none the alias points at |
| `Indices.Admin.Send` | libs/platform/opensearch/opensearch.go:230-282 | A request is refused, applied, or applied without its answer arriving |
| `Indices.Admin.AliasIndices` | libs/platform/opensearch/opensearch.go:248-263 | The indices behind an alias, in any order |
| `Indices.Admin.Ensure` | workers/search-indexer/internal/indices/indices.go:55-78 | Only aliases that point nowhere change; it succeeds exactly if all requests are served and no first index is in the way |
| `Indices.EnsureIsInvisible` | workers/search-indexer/internal/indices/indices.go:55-78 | Readers who saw one index see the same one after every request of it |
| `Indices.EnsuredIsSafe` | workers/search-indexer/internal/indices/indices.go:55-78 | After it succeeded every alias reaches exactly one index, exactly if none pointed at two before |
| `Indices.EnsureRepeats` | workers/search-indexer/internal/indices/indices.go:55-78 | Repeated after success it changes nothing |
| `Indices.StaysStuck` | workers/search-indexer/internal/indices/indices.go:66-76 | A first index without its alias makes it fail, and it leaves that so |
| `Indices.InterruptedEnsure` | workers/search-indexer/internal/indices/indices.go:66-76 | One interruption leads there from an empty cluster |
| `Indices.Admin.NewGeneration` | workers/search-indexer/internal/indices/indices.go:87-107 | Creates one fresh index per alias with readers undisturbed; succeeds exactly if all requests are served and no next name is taken |
| `Indices.UnsharedExactly` | workers/search-indexer/internal/indices/indices.go:120-132 | Where each alias had one index, no index is dropped twice exactly if no two aliases shared one |
| `Indices.Admin.Promote` | workers/search-indexer/internal/indices/indices.go:109-132 | After every request every alias reaches exactly one index; it succeeds exactly if every request is served and no index is to be dropped twice, and then the new ones are reached, the old ones gone, all others untouched |
| `Indices.Admin.Abandon` | workers/search-indexer/internal/indices/indices.go:134-139 | Drops new indices only, aliases untouched |
| `Indices.Admin.Reindex` | workers/search-indexer/cmd/search-indexer/main.go:131-162 | Once `Ensure` is through, every alias reaches exactly one index after every request of the run, wherever it stops; it succeeds exactly if the new indices were filled, every request was served, no first or next name was in use and no index was behind two aliases |
| `Indices.SwappingIsSafe` | libs/platform/opensearch/opensearch.go:265-276 | With any of the aliases moved, all of them reach one index |
| `Documents.LastMaxWins` | libs/platform/opensearch/opensearch.go:159-168 | A document is its last write of the highest version |
| `Documents.AnyOrder` | workers/search-indexer/internal/adapters/kafka/handler.go:28-30 | If writes that tie for the highest version agree, any order with any repeats leaves the index of one in-order delivery |
| `Documents.TiesDecide` | workers/search-indexer/internal/application/indexer.go:84-85 | If they do not, two deliveries of the same writes leave different indices |
| `Documents.InOrder` | libs/platform/opensearch/opensearch.go:159-168 | In-order delivery with any rewinds leaves it too, whatever ties |
| `Documents.EventsInAnyOrder` | workers/search-indexer/internal/application/indexer.go:87-103 | The same for track events whose milliseconds differ |
| `Documents.ShownByNewest` | workers/search-indexer/internal/application/indexer.go:87-103 | Whatever order events arrive in, the index shows each track as its newest event has it, field by field, while it is ready or blocked, and not while it is a draft, in processing or deleted |
| `Documents.VersionIsMillis` | workers/search-indexer/internal/application/indexer.go:84-85 | A version is the number of whole milliseconds passed |
| `Documents.UncomparedStays` | libs/platform/opensearch/opensearch.go:159-168 | A write without an external version is not compared and counts up what is stored |
| `Documents.Indexer.Apply` | workers/search-indexer/internal/adapters/opensearch/index.go:28-52 | A bulk request applies its writes in order; stale ones are no error |
| `Documents.Indexer.TrackChanged` | workers/search-indexer/internal/application/indexer.go:87-103 | After any events the index is what their effects leave; it fails exactly on a searchable track of an unknown album |
| `Rebuild.Note` | workers/search-indexer/internal/application/indexer.go:159-164 | Artists met for the first time are listed, each once |
| `Rebuild.Rebuilder.Flush` | workers/search-indexer/internal/application/indexer.go:129-136 | Sends what is waiting in one request; what is refused is dropped |
| `Rebuild.Rebuilder.Add` | workers/search-indexer/internal/application/indexer.go:137-143 | A request goes out exactly when 500 writes wait; what was sent and what waits is all that was added |
| `Rebuild.Rebuilder.AddAlbum` | workers/search-indexer/internal/application/indexer.go:147-181 | An album and exactly its searchable tracks are written |
| `Rebuild.Rebuilder.AddArtists` | workers/search-indexer/internal/application/indexer.go:185-201 | Exactly the artists Catalog knows are written, in order, however they are asked for in hundreds |
| `Rebuild.Rebuilder.Rebuild` | workers/search-indexer/internal/application/indexer.go:124-207 | It succeeds exactly if every bulk request is served; then the tracks index shows exactly the ready and blocked tracks, field by field, under the milliseconds of their last update, and every album, playlist and known credited artist was written once |
| `Rebuild.NamesKnown` | workers/search-indexer/internal/application/indexer.go:212-220 | Asking for the credited artists names them as asking for all would |
| `Rebuild.CreditedMeaning` | workers/search-indexer/internal/application/indexer.go:146-152 | The artists asked for are those of the album and of its tracks, and no others |
| `Rebuild.RebuildIsReplay` | workers/search-indexer/internal/application/indexer.go:124-207 | A rebuilt index shows for every track what replaying its events would, absences included |
| `Taste.NewSound` | workers/recommendation/internal/domain/model.go:36-49 | Features land in the unit hypercube, and inside their ranges they can be read back |
| `Taste.NewCatalog` | workers/recommendation/internal/domain/scoring.go:63-74 | Tracks are found by id and, in order, by album, and the most plays are known |
| `Taste.OfAlbumInOrder` | workers/recommendation/internal/domain/scoring.go:63-74 | An album lists exactly its tracks, in the order the catalog was given |
| `Taste.Gathering.Add` | workers/recommendation/internal/domain/scoring.go:95-111 | One liked track adds its share to every artist, genre and sound total, and nothing else |
| `Taste.NewProfile` | workers/recommendation/internal/domain/scoring.go:89-173 | Each affinity is the sum over all signals, exclusions and familiar tracks are exactly those named by them, and the sound is the weighted mean of the heaviest version |
| `Taste.Mean` | workers/recommendation/internal/domain/scoring.go:187-193 | The weighted mean stays in the unit hypercube |
| `Taste.LikingSquared` | workers/recommendation/internal/domain/scoring.go:238-245 | Cauchy-Schwarz for the genre loop |
| `Taste.DistinctGenresFit` | workers/recommendation/internal/domain/scoring.go:238-245 | For distinct genres the ratio is at most 1 before clamping, for every user |
| `Taste.CountsLiking` | workers/recommendation/internal/domain/scoring.go:238-245 | Liking each genre as often as a list has it adds up to the sum of the squares, more than the length once a genre is repeated |
| `Taste.DistinctGenresExactly` | workers/recommendation/internal/domain/scoring.go:238-245 | For every genre list, it is distinct exactly if every user's ratio is at most 1 |
| `Taste.SimilarityNeedsNoClamp` | workers/recommendation/internal/domain/scoring.go:255-263 | Similarity stays in [0, 1] without the clamp; 1 for equal sounds only, 0 for opposite corners only |
| `Taste.ComponentsInUnit` | workers/recommendation/internal/domain/scoring.go:229-278 | Every component lies in [0, 1] |
| `Taste.ScoreInUnit` | workers/recommendation/internal/domain/scoring.go:282-297 | Every listed score lies in [0, 1], a familiar track's in [0, 0.5] |
| `Scores.SkipNeverRaises` | workers/recommendation/internal/domain/scoring.go:107-128 | One skip more raises the affinity to no artist or genre, and lowers that to every one the track has |
| `Scores.CompletionRaises` | workers/recommendation/internal/domain/scoring.go:117-119 | One completion more gains at least 0.75 and at most 1 |
| `Scores.PlayCounts` | workers/recommendation/internal/domain/scoring.go:117-119 | A play counts a quarter exactly if it was neither completed nor skipped |
| `Scores.LikeRaises` | workers/recommendation/internal/domain/scoring.go:120-140 | A like is worth three completions, with or without a history |
| `Scores.TasteOfOneLike` | workers/recommendation/internal/domain/scoring.go:89-173 | Who likes one track likes its artists and genres alike, no others, and sounds like it; it is not recommended again |
| `Scores.TasteOfOneAlbum` | workers/recommendation/internal/domain/scoring.go:141-152 | A liked album counts once, as its first track has it and without a sound, and all its tracks are excluded |
| `Scores.TasteOfOneFollow` | workers/recommendation/internal/domain/scoring.go:153-155 | A followed artist counts as much as a like, alone |
| `Scores.TasteOfOneHistory` | workers/recommendation/internal/domain/scoring.go:107-128 | Who only played one track likes its artists, genres and sound as plays, completions and skips say; it is excluded exactly if skipped more than completed |
| `Scores.UnknownAddsNothing` | workers/recommendation/internal/domain/scoring.go:126-152 | Tracks and albums the catalog does not know add nothing |
| `Scores.SameGenres` | workers/recommendation/internal/domain/scoring.go:238-250 | Distinct genres that are all there is to a taste meet it in full, with or without an equal sound |
| `Scores.PopularityGrows` | workers/recommendation/internal/domain/scoring.go:264-270 | More plays mean more popularity, from 0 without plays to 1 for the track played most |
| `Scores.FreshnessFades` | workers/recommendation/internal/domain/scoring.go:272-278 | A later release is no less fresh: 1 for what comes out now, half after ninety days, 0 without a date |
| `Scores.FavouriteArtist` | workers/recommendation/internal/domain/scoring.go:229-237 | The artist component is 1 for a track of the artist liked most, in proportion for another single artist, and 0 if none is liked |
| `Scores.ScoreIsWeighted` | workers/recommendation/internal/domain/scoring.go:199-202 | The score is 0.35 style, 0.3 artist, 0.2 popularity and 0.15 freshness, halved for a familiar track, to four decimals |
| `Scores.NewerAndMorePlayed` | workers/recommendation/internal/domain/scoring.go:280-305 | Of two tracks alike in artists, genres and sound, the one played more and released later scores no less |
| `Ranking.Recommend` | workers/recommendation/internal/domain/scoring.go:280-305 | Tracks are the top of all not excluded, exactly the n greatest if the catalog lists no track twice; artists are the n greatest by their best score over those tracks |
| `Ranking.ScoredDistinct` | workers/recommendation/internal/domain/scoring.go:286-297 | A catalog that lists no track twice scores none twice |
| `Ranking.NeverExcluded` | workers/recommendation/internal/domain/scoring.go:286-290 | No excluded track is ever recommended |
| `Ranking.TopIsGreatest` | workers/recommendation/internal/domain/scoring.go:338-350 | With distinct ids the result is exactly the n greatest by score, then id |
| `Ranking.TopMeaning` | workers/recommendation/internal/domain/scoring.go:338-350 | Scores never rise down the list, equal ones are in order of id, and nothing left out scores more than anything listed |
| `Ranking.TopIsUnique` | workers/recommendation/internal/domain/scoring.go:338-350 | There is one such list |
| `Ranking.TopIgnoresOrder` | workers/recommendation/internal/domain/scoring.go:338-358 | The order in which items are listed makes no difference |
| `Decided.SoundDecidedExactly` | workers/recommendation/internal/domain/scoring.go:160-172 | The signals decide the profile's sound exactly if one analyzer version at most is the heaviest |
| `Decided.HeaviestMayBeChosen` | workers/recommendation/internal/domain/scoring.go:160-172 | Every heaviest version may be the one chosen |
| `Decided.ProfilesAgree` | workers/recommendation/internal/domain/scoring.go:89-173 | Then all that scoring reads of a profile is decided, in whatever order maps are listed |
| `Decided.RecommendationIsUnique` | workers/recommendation/internal/domain/scoring.go:280-305 | And so is the whole recommendation |
| `Decided.RecommendationDecidedExactly` | workers/recommendation/internal/domain/scoring.go:160-172 | The signals decide every recommendation, whichever track the user has no signal about joins the catalog, exactly if one version at most is the heaviest |
| `Decided.TieSpoils` | workers/recommendation/internal/domain/scoring.go:280-305 | For two versions that may be chosen there is a track that joins the catalog and makes two recommendations differ |
| `Decided.TieLeavesItOpen` | workers/recommendation/internal/domain/scoring.go:160-172 | With a tie it is not: the same signals have two different recommendations |
| `Paging.PageMeaning` | services/library/internal/application/service.go:102-119 | A page is the first rows after the cursor, and has a next one exactly if rows are left, its cursor being the last row shown |
| `Paging.PageShows` | services/library/internal/application/service.go:102-119 | In times and ids: rows from before the cursor, each from before the one above it, none left out above the last, and a next page exactly if rows are left |
| `Paging.WalkDescends` | services/library/internal/adapters/postgres/repository.go:75-98 | Keys strictly decrease over a walk, whatever changes between the requests |
| `Paging.WalkShowsAll` | services/library/internal/application/service.go:102-119 | A finished walk shows every row present throughout exactly once, and none that never was |
| `Paging.UnchangedWalk` | services/library/internal/application/service.go:102-119 | Without changes it is the whole sorted list |
| `Paging.PageSizesAreIrrelevant` | services/library/internal/application/service.go:102-119 | Whatever the page sizes |
| `Paging.WalkEnds` | services/library/internal/application/service.go:102-119 | And it ends after at most one request more than there are rows |
| `Paging.Library.Save` | services/library/internal/adapters/postgres/repository.go:44-63 | Saving again keeps the first time and announces nothing |
| `Paging.Library.Remove` | services/library/internal/application/service.go:85-94 | Removes one row and announces it exactly if it was there |
| `Paging.Library.Query` | services/library/internal/adapters/postgres/repository.go:75-98 | The newest rows after the cursor, up to the limit |
| `Paging.Library.List` | services/library/internal/application/service.go:102-119 | The method returns such a page |
| `Paging.PageAlbums` | services/catalog/internal/application/usecases.go:118-138 | Albums page the same way |
| `Cache.RunKeepsInv` | workers/analytics/internal/application/ingest.go:110-147 | Interleaved calls keep entries and answers honest and the cache within its size |
| `Cache.ReturnsFresh` | workers/analytics/internal/application/ingest.go:110-147 | Every answer is what Catalog said no earlier than ttl before the call began |
| `Cache.ConstantIsDirect` | workers/analytics/internal/application/ingest.go:110-147 | With a Catalog that does not change, a call is a direct lookup |
| `Cache.SizeBounded` | workers/analytics/internal/application/ingest.go:131-146 | Entries never exceed max or the longest list of one call |
| `Cache.RemembersForTtl` | workers/analytics/internal/application/ingest.go:110-147 | What one call stored another finds for ttl after the first began, and asks for again after that, unless the cache was emptied or the track stored again |
| `Cache.TrackCache.Look` | workers/analytics/internal/application/ingest.go:112-124 | The first critical section splits the ids into hits and missing ones |
| `Cache.TrackCache.Store` | workers/analytics/internal/application/ingest.go:131-146 | The second stores every answer, emptying the cache first when it would not fit |
| `Cache.TrackCache.Tracks` | workers/analytics/internal/application/ingest.go:110-147 | A call on its own is a direct lookup while the cache agrees with Catalog |

## Left out

- Fft.Fft.Transform: arithmetic is over exact reals; rounding is not modelled, nor are the library's cosines and sines, of which `UnitRoots` names the laws used.
- Tempo.EstimateTempo: the tempo prior is any function, so its exponential and logarithm are not modelled.
- Analyzer.Analyzer.Flux: the compressed magnitude of a spectrum line is any function of it.
- Taste.ComponentsInUnit: square roots, `Log1p` and powers of one half are any functions with the laws `IsMath` names (a root, growth, a half-life); rounding errors are not modelled.
- Taste.NewProfile: 64-bit overflow of play counts is not modelled.
- Indices.Next: 64-bit overflow of version numbers is not modelled; integers are unbounded.
- Ranking.Recommend: the reasons shown with an item are not modelled, nor is `Popular`, the fallback without signals.
- Outbox.Store.Modify: a row is the value its events carry, and what a change does to it is a parameter; the order in which the two writes of a change fail is not told apart.
- Outbox.Store.Publish: the class lets the broker append a prefix of the whole batch; the state machine allows any subset that keeps each key's order.
- Consumer.Consumer.RunOnce: one member owns its partitions; rebalancing is not modelled.
- Documents.Indexer.TrackChanged: Catalog's albums and artists are fixed while events are handled, and a deleted document keeps its version for good; the cluster forgets it after a while.
- Rebuild.Rebuilder.Rebuild: of albums, artists and playlists only which are written is modelled, not their documents; a bulk request is served as a whole or not.
- Browser.OneCallAtMost: one tab. A second tab shares the refresh cookie but not the module's `inflight` promise, so two tabs can refresh at once.
- Browser.NeverReused: one signed-in session in one tab; signing in or out while a refresh is outstanding is not a step of the page, and an answer is lost only after the server is done with the call, so a page that gives up on a call the server still works on is not modelled.
- Sessions.Service.Refresh: of reading the account and issuing the access token only success or failure is modelled; the revocation entries that outlive a session's access tokens are not.
- Uploads.Service.Verify: leading bytes are abstracted to the format they announce.
- Cache.TrackCache.Tracks: `Cached.readAt` is a record kept by the model, not a field of the program.
- HTTP handlers, gateways, ffmpeg and ffprobe, object storage, SQL and Kafka drivers, configuration and wiring are input and output; their answers are parameters or steps.
- Password hashing, digests, signatures and token encodings are library code; a new token's hash is taken to be fresh, and hashing injective.
- Global order of the outbox across keys, and playlist index versions stamped before the transaction, are not decided by this code.
- Completing a reindex after an earlier one failed half way is not claimed; only what readers of the aliases see is.
- The React layers, page view models, metrics, tracing and logging, and validators that one reading settles.
