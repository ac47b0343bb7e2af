# Chaskiwasi in Dafny

Chaskiwasi carries letters between a child's small device and a family mailbox. A Go server (Wasi)
works over an IMAP mailbox and an SMTP submitter; a C++ device (Chaski) syncs with it over a narrow
link and keeps everything on flash. Its comments promise hard things: never a lost letter, the
decision is made once, the cursor last. This project models the code behind those promises and
proves them, or says exactly when they hold.

## What is modelled

* **The sync protocol** (`AckRing`, `Assembly`, `SyncSystem`, `SyncOutbound`, `SyncLosses`,
  `SyncReplay`, `SyncInbound`, `SyncRedelivery`, `SyncForgetting`, `SyncDevice`, `SyncServer`). `SyncSystem` is a step system of both programs, the network between
  them and the mailbox: one step is one durable write, one SMTP call or one message, so that a crash
  may fall between any two of them, requests and responses may be lost, repeated or late, state.json
  may be put back from any earlier moment, backups older than the device included, and UIDVALIDITY
  may change. A write may take effect and still be reported as failed, and disk and RAM then differ
  on either side; a boot may fail to read a file that is there. `SyncDevice` and `SyncServer` hold the
  code itself as classes; their methods are shown to be runs of that system, of the code's own steps
  only, whichever of their writes fail.
* **Filing** (`Addresses`, `Ayllu`, `Filing`, `FilingService`). The contact table with its
  mutations, and the reconciling, arrival, spam and release passes over INBOX, one table lookup or
  one IMAP command at a time, with mail, guardians and restarts in between.
* **Notices** (`Notices`, `NoticeService`). Change log, pending list and INBOX append, and the two
  startup passes that repair them.
* **Frames** (`Crc`, `Wire`, `Framing`, `FrameDecoders`, `ChaskiFrames`). The CRC, a reference
  decoder, the device's decoder and the host's reader with their read loops, and the payload codecs.
  They are written for any `Format` (magic, length digits, seal); `ChaskiFrames.CHASKI` is the real one.
* **Device storage** (`Records`, `SeenRing`, `LetterStore`, `OutboxFiles`, `OutboxRefinement`,
  `ContactBook`, `Decimal`). The escaped record codec, the append log that stands for a bounded ring, the letter and outbox files
  and the indexes over them, the contact and decoration files, and the number formats.
* **Doorbell, SHA-256, layout** (`Doorbell`, `Compression`, `Streaming`, `Sha256`, `Layout`).

## What turned out not to hold as promised

* Formatting the letters partition also erases the local-id counter. If the server's ack ring still
  says "sent" for a low id, or a backup of state.json does and is put back, the next letter to get
  that id is dropped by the device without ever having been sent. A boot that cannot read the
  counter file takes it for zero and gives ids out again, to the same end.
  `SyncLosses.NoNoteLostIffRingClean` shows that no letter is lost over any run if and only if
  neither that ring nor any backup of it holds a "sent" and the counter file is read at every boot.
* A write of state.json that reached the disk and was reported as failed does not stop the same
  process from sending the letter again (`SyncReplay.HalfRecordSendsAgain`); only a record that was
  reported done does (`SyncReplay.ReplayIsStable`).
* The seen ring on flash does not by itself keep a letter read. When one append to it is refused,
  RAM alone has the id; in a full ring that pushes the oldest id out of RAM while the file still
  holds it, and the next delivery of that letter is written unread
  (`SyncForgetting.RefusedAppendForgets`, in a whole run at any capacity
  `SyncForgetting.ForgettingRun`). A boot that cannot read the ring file does the same. The store and
  the ring in RAM always suffice; the ring on flash suffices over all runs with at most so many such
  lapses if and only if there is none (`SyncForgetting.FlashRingSufficesIff`).
* A guardian's release files arrivals at once, even while the startup pass is still being retried:
  the web interface is served next to that pass (cmd/wasi/serve.go:240-264), and only HandleNotify
  waits for it. Letters decided long ago are then judged again by the active contacts alone
  (`FilingService.EarlyReleaseUndecides`). `Filing.DecidedOnce` carries the ordering as its condition,
  and the exact outcome of an arrival pass is in `FilingService.Service.HandleNotifyLocked`: a message
  stays if and only if the mark had passed it or its sender is an active contact.
* Append errors can announce a change twice (`Notices.ErrorsCanDuplicate`); a Flush does so exactly
  when a notice is owed twice and not yet in INBOX (`NoticeService.FlushDuplicatesIff`).
* A seen-ring append torn by a power cut swallows the id appended after it, unless nothing at all of
  the torn line reached flash (`SeenRing.TornAppendHarmlessIff`).
* A negative resync window is not rejected by the configuration; "nothing more" is then said of a
  mailbox that was not looked at (`Assembly.ResyncDrainedIffWindowPositive`).
* A letter released from an address its sender has left goes straight back to Held: the full table
  lets the release through, the arrival pass of that very release does not
  (`FilingService.PastAddressGoesBack`, `FilingService.ReactivatedGoesBack`).
* Outbox::Discard removes any entry, though its interface speaks of rejected ones only: an entry that
  waits to be sent goes like a rejected one, exactly when its file's removal is reported done
  (`SyncDevice.Outbox.Discard`).
* A failed ClearOverlay puts the row back at the end of the list, not where it was; no lookup can
  tell (`ContactBook.OverlayStore.ClearOverlay`).

## Assumptions

* Replacing a file is one durable step; IMAP MOVE and APPEND are atomic. Their error may come after
  they took effect (fsutil.cpp:88 and 124, atomicfile.go:98-106): the sync step system, `SyncDevice`,
  `SyncServer`, the seen ring, filing, notices and the doorbell allow for it. In `LetterStore`,
  `OutboxFiles`, `ContactBook` and `Ayllu` a write that is reported as failed did not happen.
* A boot may fail to read the counter, outbox, ring or state file of the device; a letter file that
  exists is read.
* Startup reads ninety days of the change log (cmd/wasi/serve.go:413); what is said of notices is
  said of the changes that the last startup read, and of those since.
* FetchAbove, Recent and List do what internal/mailbox/mailbox.go says; section 2.3.1.1 of RFC 3501 is
  relied on for uids that only grow within a UIDVALIDITY and for UIDVALIDITY values that only grow.
* Letter ids are injective on messages and all twelve characters long, so that two of them run
  together are no letter id. Notice ids are injective on change-log versions, which the model proves
  distinct.
* A From header that parses holds a non-empty address. Derivation is any total function of a message.
* The device has one exchange under way at a time.
* The decoration file, which only the device writes, never names an id twice.
* Outbox cap, ring capacity and letters kept are positive parameters.

## Model

| member | source | states |
|---|---|---|
| `AckRing.RecordLookup` | internal/state/state.go:101-119 | after recording, an id has its new answer, and every other id keeps its answer or is forgotten, never an older one |
| `AckRing.LookupSuffix` | internal/state/state.go:101-119 | eviction from the front can only forget an id |
| `AckRing.Ring.Find` | internal/state/state.go:101-108 | the newest-first scan finds exactly what Lookup defines |
| `AckRing.Ring.Add` | internal/state/state.go:114-119 | append and evict leave the newest entries within capacity |
| `Assembly.AssembleLetters` | internal/syncsvc/syncsvc.go:439-535 | the loop builds the one response the specification allows: the longest run of leading messages without an unparseable one whose letters fit the budget, one letter always allowed |
| `Assembly.CorrectIsUnique` | internal/syncsvc/syncsvc.go:439-535 | that specification determines letters, cursor and the more flag |
| `Assembly.CursorCoversTaken` | internal/syncsvc/syncsvc.go:479-534 | every fetched message at or below the minted cursor has its letter in the response or is a stranger's |
| `Assembly.CursorAdvances` | internal/syncsvc/syncsvc.go:479-534 | the minted cursor never moves back |
| `Assembly.ManyLettersFitBudget` | internal/syncsvc/syncsvc.go:495-567 | two or more letters fit the budget together |
| `Assembly.MoreMeansProgress` | internal/syncsvc/syncsvc.go:439-535 | more=true comes with a strictly larger cursor uid, for a fetch above a cursor and for a window resync alike |
| `Assembly.NoMoreMeansDrained` | internal/syncsvc/syncsvc.go:439-535 | more=false means nothing was above the new cursor when it was fetched |
| `Assembly.ResyncDrainedIffWindowPositive` | internal/syncsvc/syncsvc.go:439-478 | for a window resync that promise is kept if and only if the window is positive or INBOX is empty |
| `Assembly.DrainEnds` | firmware/chaski/components/syncengine/syncengine.cpp:203-252 | on a fixed mailbox a drain, begun at a cursor or with a window resync, has at most one round more than there are messages above its start |
| `Assembly.DrainIsComplete` | firmware/chaski/components/syncengine/syncengine.cpp:203-252 | when its last round promises no more, nothing is left above the cursor |
| `SyncLosses.NoNoteLostIffRingClean` | firmware/chaski/components/store/store.cpp:260-316 | over every run, each letter Outbox::Add accepted is still in the outbox, was discarded, or was accepted by Send with its own body, if and only if neither the ack ring met by the formatted device nor any backup of it holds a "sent" and every boot reads the counter file |
| `SyncOutbound.RunKeepsOutbound` | internal/syncsvc/outbound.go:75-197 | the invariant behind it, kept by every step of both programs while boots read the counter: a "sent" in a ring, an ack or a response is backed by an accepted send of the very note |
| `SyncLosses.LeftoverSentLosesANote` | firmware/chaski/components/store/store.cpp:302-311 | the losing run, for every leftover "sent" of a future id |
| `SyncLosses.BackupLosesANote` | internal/state/store.go:48-71 | the same for a "sent" in any backup, once it is put back |
| `SyncLosses.BlindCounterLosesANote` | firmware/chaski/components/store/store.cpp:362-365 | the losing run under a boot that cannot read the counter, whatever the ring |
| `SyncLosses.ReformatCanLoseANote` | firmware/chaski/main/session.cpp:119-132 | after a reformat, any "sent" in state.json as it ever was can lose a letter |
| `SyncReplay.ReplayIsStable` | internal/syncsvc/outbound.go:80-141 | without a restore and within 4096 records, no send of an id whose record was reported done is tried again, it is not recorded again, and every ack for it repeats the recorded status, across restarts and half-failed writes |
| `SyncReplay.HalfRecordSendsAgain` | internal/state/store.go:83-106 | a record that reached the disk but was reported as failed lets the same process send the letter twice |
| `SyncReplay.EveryAckIsLogged` | internal/syncsvc/outbound.go:75-133 | every ack of every response ever sent is an event of that history, so what holds of the history holds on the wire |
| `SyncInbound.NoLetterSkipped` | firmware/chaski/components/syncengine/syncengine.cpp:117-201 | in every state of every run, each INBOX message at or below the durable cursor had its letter written to flash, or is excused by a response whose own cursor the device took over: its sender resolved to nobody while that response was built, or it lay outside that resync's window |
| `SyncRedelivery.RedeliveryInvisible` | firmware/chaski/components/store/store.cpp:105-145 | a letter once read is never unread again while the store or the ring in RAM knows it, however often it is delivered |
| `SyncRedelivery.FlashRingSuffices` | firmware/chaski/components/store/store.cpp:429-459 | in every run in which no ring append was refused and every boot read the ring file, the store and the ring on flash are enough, power cuts, torn lines and compactions included |
| `SyncForgetting.RefusedAppendForgets` | firmware/chaski/components/store/store.cpp:429-438 | one refused append is enough: at any capacity it pushes the oldest read letter of a full ring out of RAM, and that letter comes back unread while the ring file holds its id |
| `SyncForgetting.ForgettingRun` | firmware/chaski/components/syncengine/syncengine.cpp:160-174 | a whole run from a formatted device, at any capacity, with that one lapse |
| `SyncForgetting.FlashRingSufficesIff` | firmware/chaski/components/store/store.cpp:414-459 | over all runs in which RAM falls behind the ring file at most k times, the store and the ring on flash keep every read letter read if and only if k is zero |
| `SyncDevice.Outbox.Add` | firmware/chaski/components/store/store.cpp:260-288 | cap on sendable entries, counter first, then the entry; what each failed write leaves on flash and in RAM |
| `SyncDevice.Outbox.Resolve` | firmware/chaski/components/store/store.cpp:302-311 | "sent" removes, a reject keeps the text, an unknown id is no error; what a failed write leaves on flash and in RAM |
| `SyncDevice.Outbox.Discard` | firmware/chaski/components/store/store.cpp:313-316 | any entry goes, file first; one that waits to be sent goes exactly when its removal is reported done |
| `SyncDevice.Outbox.Sendable` | firmware/chaski/components/store/store.cpp:290-296 | exactly the entries not rejected, oldest first |
| `SyncDevice.Engine.BuildRequest` | firmware/chaski/components/syncengine/syncengine.cpp:84-110 | the cursor verbatim and every sendable entry |
| `SyncDevice.Engine.ApplyAcks` | firmware/chaski/components/syncengine/syncengine.cpp:130-142 | acks in order, durable, stopping at the first failed write: a run of the engine's own steps; when none fails every ack has been resolved |
| `SyncDevice.Engine.StoreLetter` | firmware/chaski/components/syncengine/syncengine.cpp:160-174 | check, write, record for one letter: a run of the engine's own steps whichever write fails |
| `SyncDevice.Engine.ApplyResponse` | firmware/chaski/components/syncengine/syncengine.cpp:117-198 | whatever fails, what has happened is a run of the engine's own steps; the cursor moves only if everything before it was written, and RAM's only if its own write was reported done |
| `SyncDevice.EngineDropsOnlyAcked` | firmware/chaski/components/syncengine/syncengine.cpp:130-142 | a run of the engine's steps takes a letter off the outbox only if the response acks it as "sent" |
| `SyncDevice.DeviceCodeIsSystemRun` | firmware/chaski/components/syncengine/syncengine.cpp:117-198 | a run of the device's code on a response that was sent is a run of the whole system in which the child writes and discards nothing |
| `SyncServer.Handler.SendOne` | internal/syncsvc/outbound.go:146-197 | which status is terminal, when a letter stays unacked, and when the mail server has it nonetheless: a failed QUIT, or a reply lost after the message |
| `SyncServer.Handler.RecordAck` | internal/state/store.go:83-106 | the ring is written from the published one and published only once reported durable |
| `SyncServer.Handler.ProcessFresh` | internal/syncsvc/outbound.go:100-141 | send, then record, then ack: a run of the step system |
| `SyncServer.Handler.ProcessOutbound` | internal/syncsvc/outbound.go:75-133 | the whole batch is a run of the step system, also when the mail server is unreachable |
| `SyncServer.ServerCodeIsSystemRun` | internal/syncsvc/outbound.go:75-141 | a run of the server's code on a request is a run of the whole system in which nothing else moves |
| `Addresses.TrimKeepsKey` | internal/ayllu/store.go:626-641 | trimming an address does not change what it is compared by |
| `Addresses.SystemKey` | internal/ayllu/store.go:167-173 | Wasi's own address normalises to the key the table answers for |
| `Ayllu.ResolveLocked` | internal/ayllu/store.go:167-195 | the scan in id order finds c_sys, or the least matching row, for either view |
| `Ayllu.ActiveIsInFull` | internal/ayllu/store.go:154-195 | what resolves as active resolves in the full table |
| `Ayllu.RetainPastKeys` | internal/ayllu/store.go:456-468 | a moved row's history answers to exactly the keys it had, less the new one |
| `Ayllu.RetainPastLoop` | internal/ayllu/store.go:456-468 | the loop with its seen set computes that history |
| `Ayllu.ResolutionOnlyGrows` | internal/ayllu/store.go:272-482 | over every sequence of mutations, refused writes included: no row disappears, the table stays within its cap, and every non-empty address that resolved still does |
| `Ayllu.AddedIsActive` | internal/ayllu/store.go:364-414 | an address just added resolves as active |
| `Ayllu.FileStore.CommitLocked` | internal/ayllu/store.go:345-362 | a failed persist rolls table and version back, so RAM never runs ahead of the file |
| `Ayllu.FileStore.ApplyAdd` | internal/ayllu/store.go:364-414 | re-adding reuses the least row that ever had the address; a new row needs room |
| `Ayllu.FileStore.Mutate` | internal/ayllu/store.go:272-340 | the new table, version and log line, or nothing, for every refusal and failed write |
| `Filing.RunKeepsInv` | internal/filing/filing.go:129-149 | in every interleaving, each INBOX message at or below the high-water mark resolves in the full table |
| `Filing.DecidedOnce` | internal/filing/filing.go:217-371 | a decided message that nobody takes away by hand stays in INBOX through every orderly run with restarts, passes, releases and contact changes |
| `Filing.NoticeStays` | internal/ayllu/store.go:167-173 | no order of steps moves one of Wasi's own notices out of INBOX, a person's own hand apart |
| `Filing.NothingVanishes` | internal/filing/release.go:22-31 | whatever arrived is in INBOX, Held or Spam until a person takes it away, failed moves and restarts included |
| `FilingService.Service.ReconcileLocked` | internal/filing/filing.go:261-305 | a completed pass leaves exactly the wanted messages and a mark past all it saw; a failed one leaves the mark; both are runs of the step system |
| `FilingService.Service.HandleNotifyLocked` | internal/filing/filing.go:329-371 | a completed pass keeps a message if and only if the mark had passed it or its sender is active |
| `FilingService.Service.CheckSpam` | internal/filing/filing.go:381-397 | a completed sweep empties the spam folder |
| `FilingService.Service.ReleaseStranger` | internal/filing/release.go:47-76 | the letter ends in INBOX; a refused change or move leaves it in Held |
| `FilingService.Service.ReleaseDeactivated` | internal/filing/release.go:94-126 | only the very contact is reactivated; the letter stays in INBOX if and only if its address is a current active one |
| `FilingService.Service.ReleaseActive` | internal/filing/release.go:138-186 | the letter ends in INBOX, and other mail above the mark stays if and only if welcome |
| `FilingService.EarlyReleaseUndecides` | cmd/wasi/serve.go:289-311 | a release before the startup pass has completed quarantines a decided letter |
| `FilingService.PastAddressGoesBack` | internal/filing/release.go:128-143 | whatever the table, when some row has the address in its past and no active row has it as current, release and arrival pass end with the letter in Held and INBOX as before |
| `FilingService.ReactivatedGoesBack` | internal/filing/release.go:94-126 | the same for the release that reactivates its contact: the contact is active, the letter is back in Held |
| `FilingService.SyncDeliversOnlyActive` | internal/syncsvc/syncsvc.go:326-355 | with a concrete cursor and nothing changed in between, every letter of a response is from an active row, and known mail at or below the cursor stays |
| `Notices.RunKeepsInv` | internal/notice/notice.go:192-349 | every notice owed or sent is of a logged change, and what startup has dealt with, in every run |
| `Notices.ExactlyOnce` | internal/notice/notice.go:192-349 | with deaths at any step, once startup has completed both passes each change it read, and each since, has exactly one letter and is not pending; none ever has two |
| `Notices.NeverSilent` | internal/notice/notice.go:231-349 | whatever failed before, a startup without errors leaves no change it read, and none since, unannounced, and nothing owed |
| `Notices.AtMostOnce` | internal/notice/notice.go:246-277 | no change is announced twice if every startup finds no notice owed twice that INBOX does not hold |
| `Notices.ErrorsCanDuplicate` | internal/notice/notice.go:333-346 | three Append errors and a restart put two letters in INBOX |
| `NoticeService.LogIsDistinct` | internal/notice/notice.go:563-588 | no two lines of the change log share a notice id |
| `NoticeService.FlushedCount` | internal/notice/notice.go:246-277 | after a Flush without errors a notice is in INBOX as often as before, or, if it was not there, as often as it was owed |
| `NoticeService.FlushDuplicatesIff` | internal/notice/notice.go:246-277 | such a Flush repeats a letter if and only if one is owed twice and not there |
| `NoticeService.Service.Announce` | internal/notice/notice.go:192-229 | record, append, clear, whichever fails: a run of the step system |
| `NoticeService.Service.RemovePending` | internal/state/state.go:130-138 | every entry of the id goes and the others stay in order |
| `NoticeService.Service.Flush` | internal/notice/notice.go:240-282 | without errors nothing is pending and exactly the unsent entries were appended; a run of the step system in any case |
| `NoticeService.Service.Reconcile` | internal/notice/notice.go:299-349 | without errors exactly the changes read from the log and not yet in INBOX were appended; a run of the step system in any case |
| `NoticeService.PerformsIsRun` | internal/notice/notice.go:192-349 | what these methods do is a run of the step system in which no change is logged |
| `Crc.ComputeCrc32` | firmware/chaski/components/transport/frame.cpp:40-50 | the bitwise loop is the fold of the byte step |
| `Crc.OneByteChangesCrc` | firmware/chaski/components/transport/frame.cpp:40-50 | changing one byte of a message always changes its checksum, as every step is injective |
| `Framing.VerdictStable` | firmware/chaski/components/transport/frame.cpp:78-131 | bytes still to come cannot change a verdict |
| `Framing.WholeIsEncoding` | firmware/chaski/components/transport/frame.cpp:103-130 | what is taken for a frame is byte for byte that frame's encoding |
| `Framing.EncodingIsWhole` | firmware/chaski/components/transport/frame.cpp:52-66 | a whole encoding at the head is delivered as its frame |
| `Framing.Conserved` | tools/chaskibridge/frame.go:156-218 | discarded bytes, frame encodings and leftover concatenate back to the stream |
| `Framing.ChunkingIsInvisible` | firmware/chaski/components/transport/frame.cpp:68-131 | for every split of every stream, the same frames, discards and leftover |
| `Framing.Recovers` | tools/chaskibridge/frame.go:156-204 | a whole frame at offset k is delivered once the stream reaches a maximum frame past k, unless a frame with a good seal starts earlier and overlaps it |
| `Framing.DamagedIsTorn` | tools/chaskibridge/frame.go:188-194 | a frame damaged in one byte is dropped at its own offset, for every seal that notices one byte |
| `FrameDecoders.DecodersAgree` | firmware/chaski/components/transport/frame.cpp:78-131 | two decoders that meet the one-call specification skip, deliver and keep the same |
| `FrameDecoders.Decoder.Next` | firmware/chaski/components/transport/frame.cpp:78-131 | the device's loop meets it, and counts one resync per run of noise or failed candidate |
| `FrameDecoders.Decoder.FeedAll` | firmware/chaski/components/transport/usbbridge.cpp:52-107 | fed any chunks one after the other, the device delivers exactly the frames of the whole stream and keeps exactly its leftover |
| `FrameDecoders.FrameReader.Scan` | tools/chaskibridge/frame.go:156-204 | the host's loop meets it, with the same resyncs, the failed seals as torn, and every discarded byte on Console |
| `FrameDecoders.FrameReader.Discard` | tools/chaskibridge/frame.go:207-218 | bytes leave the buffer for Console, and one resync is counted |
| `FrameDecoders.FrameReader.Next` | tools/chaskibridge/frame.go:134-152 | scan and read until a frame is whole; the end of the source or an empty read comes only after everything read so far was decoded |
| `FrameDecoders.FrameReader.ReadAll` | tools/chaskibridge/proxy.go:118-132 | however the source cuts the stream, the frames, Console, the torn count and the leftover are those of the whole stream |
| `FrameDecoders.BothDecode` | tools/chaskibridge/frame.go:100-108 | device and host, fed the same stream cut differently, deliver the same frames and keep the same leftover; Console is every byte of no frame |
| `ChaskiFrames.SameWord` | firmware/chaski/components/transport/frame.cpp:15-29 | comparing a word that was read is comparing its four bytes |
| `ChaskiFrames.ChaskiIsLawful` | firmware/chaski/components/transport/include/chaski/frame.h:41-53 | the real format meets what the decoders need: lengths written in four bytes are read back, and only so |
| `ChaskiFrames.ChaskiIsSensitive` | firmware/chaski/components/transport/frame.cpp:40-50 | its seal notices any one changed byte |
| `ChaskiFrames.Encode` | firmware/chaski/components/transport/frame.cpp:52-66 | a payload within the cap is appended as its encoding, a longer one refused |
| `ChaskiFrames.FrameRoundTrip` | firmware/chaski/components/transport/frame.cpp:52-131 | what Encode wrote is delivered, whatever follows |
| `ChaskiFrames.DamageIsNoticed` | firmware/chaski/components/transport/frame.cpp:117-124 | a real frame damaged in one byte of type, payload or checksum is never delivered where it lies |
| `ChaskiFrames.RequestRoundTrip` | firmware/chaski/components/transport/frame.cpp:133-152 | a request payload is read back as it was written |
| `ChaskiFrames.RequestIsBytes` | firmware/chaski/components/transport/frame.cpp:143-152 | and only encodings decode |
| `ChaskiFrames.ResponseRoundTripIff` | firmware/chaski/components/transport/frame.cpp:154-183 | with the device's payload cap or, as on the host, with none: the host reads back every response, the device if and only if it knows the outcome |
| `Records.SplitCompleteLines` | firmware/chaski/components/store/fsutil.cpp:258-268 | the complete lines, without a torn tail |
| `Records.EncodeRecord` | firmware/chaski/components/store/fsutil.cpp:177-193 | the loops write the specified text |
| `Records.DecodeRecord` | firmware/chaski/components/store/fsutil.cpp:195-216 | the loops read the specified record |
| `Records.RoundTripIffCleanKeys` | firmware/chaski/components/store/fsutil.cpp:177-216 | decoding undoes encoding for all values if and only if no key holds '=' or a newline |
| `Records.PrefixDecodesToPrefix` | firmware/chaski/components/store/fsutil.cpp:195-268 | a file cut short anywhere decodes to a prefix of the record |
| `Records.AppendLine` | firmware/chaski/components/store/fsutil.cpp:91-100 | an appended line merges with whatever a torn write left behind |
| `SeenRing.FileSeenRing.Add` | firmware/chaski/components/store/store.cpp:429-438 | RAM is the bounded queue; the file holds its newest lines, a merged line behind a torn tail, or, when the write failed, whatever part of the line had got there |
| `SeenRing.FileSeenRing.Append` | firmware/chaski/components/store/fsutil.cpp:91-100 | the bytes of the file grow by the line, or by the part of it that reached flash |
| `SeenRing.FileSeenRing.constructor` | firmware/chaski/components/store/store.cpp:445-459 | a boot keeps each non-empty line of the newest ones once, in order |
| `SeenRing.FileSeenRing.ReloadIsRing` | firmware/chaski/components/store/store.cpp:445-459 | with no torn append a reload gives exactly the ring in RAM |
| `SeenRing.AddAll` | firmware/chaski/components/store/store.cpp:414-470 | after any sequence of adds a reload gives the queue, and the file is within capacity plus slack |
| `SeenRing.EnqueueAllDistinct` | firmware/chaski/components/store/store.cpp:429-433 | the queue of distinct ids is the last capacity of them, in order |
| `SeenRing.TornAppendHarmlessIff` | firmware/chaski/components/store/store.cpp:445-451 | the id appended after a torn line is found again if and only if nothing of that line reached flash |
| `SeenRing.FileIsLinesAndTail` | firmware/chaski/components/store/fsutil.cpp:258-268 | the bytes of the file read back as those lines, without the torn tail |
| `SeenRing.EveryFileIsLinesAndTail` | firmware/chaski/components/store/fsutil.cpp:258-268 | and every file is its complete lines followed by its torn tail |
| `LetterStore.LetterRoundTrip` | firmware/chaski/components/store/store.cpp:63-92 | a letter file is read back as it was written, for every 64-bit date |
| `LetterStore.FileLetterStore.Put` | firmware/chaski/components/store/store.cpp:105-119 | the file and the index entry are written together, and a repeat keeps its unread flag |
| `LetterStore.FileLetterStore.MarkRead` | firmware/chaski/components/store/store.cpp:136-145 | file and index say read together, or neither changes |
| `LetterStore.FileLetterStore.EvictBeyond` | firmware/chaski/components/store/store.cpp:158-176 | the newest letters stay, the others go file and entry together, a stuck file with its entry |
| `LetterStore.Ordered` | firmware/chaski/components/store/store.cpp:232-242 | the index newest first, ties by id, nothing added or lost |
| `LetterStore.Scan` | firmware/chaski/components/store/store.cpp:197-211 | a rescan agrees with the files |
| `LetterStore.RescanAgrees` | firmware/chaski/components/store/store.cpp:63-211 | two indexes that agree with the same files hold the same letters |
| `OutboxFiles.SheetRoundTrip` | firmware/chaski/components/store/store.cpp:331-360 | an outbox file is read back as it was written |
| `OutboxFiles.ScanEntries` | firmware/chaski/components/store/store.cpp:367-378 | a scan gives exactly the entries whose file says the id it is named by |
| `OutboxFiles.ScanIsUnique` | firmware/chaski/components/store/store.cpp:367-378 | the files determine what a scan gives, in whatever order they are listed |
| `OutboxFiles.FileOutbox.Add` | firmware/chaski/components/store/store.cpp:260-288 | a fresh id, file and entry together; a rescan still gives exactly the entries in RAM |
| `OutboxFiles.FileOutbox.Resolve` | firmware/chaski/components/store/store.cpp:302-311 | after a successful ack a rescan gives exactly the entries in RAM |
| `OutboxFiles.FileOutbox.Erase` | firmware/chaski/components/store/store.cpp:395-403 | file and entry go together, or neither |
| `OutboxFiles.FileOutbox.constructor` | firmware/chaski/components/store/store.cpp:248-253 | a boot loads exactly the readable entries, whatever their numbers; ids are fresh again if and only if none is above the counter |
| `OutboxRefinement.AddRefines` | firmware/chaski/components/store/store.cpp:260-288 | adding a file and an entry under a padded name is adding a numbered entry |
| `OutboxRefinement.ResolveRefines` | firmware/chaski/components/store/store.cpp:302-311 | and resolving by name is resolving by number, for every status the server sends |
| `ContactBook.OverlaysRoundTrip` | firmware/chaski/components/ayllu/ayllu.cpp:93-127 | the decoration file is read back exactly, unset fields included |
| `ContactBook.SnapshotRoundTrip` | firmware/chaski/components/ayllu/ayllu.cpp:52-89 | the contact snapshot is read back exactly |
| `ContactBook.OverlayStore.SetOverlay` | firmware/chaski/components/ayllu/ayllu.cpp:193-207 | one id's decoration changes and no other, or nothing does; every lookup is what a restart gives |
| `ContactBook.OverlayStore.ClearOverlay` | firmware/chaski/components/ayllu/ayllu.cpp:211-220 | one id's decoration goes; a failed write changes no lookup |
| `Decimal.ParseCounter` | firmware/chaski/components/pututu/pututu.cpp:41-54 | accepts exactly the canonical decimals of 64-bit values, each as its value |
| `Decimal.CounterRoundTrip` | internal/pututu/token.go:34-43 | the server's rendering is read back, and nothing else prints like it |
| `Decimal.SignedRoundTrip` | firmware/chaski/components/store/fsutil.cpp:57-65 | every 64-bit integer written is read back, by a reader that stops at a NUL as strtoll does |
| `Decimal.LocalIdsAreUnique` | firmware/chaski/components/store/store.cpp:47-50 | padded local ids are distinct for distinct numbers |
| `Decimal.LocalIdOrder` | firmware/chaski/components/store/store.cpp:380-386 | sorting padded ids by name is sorting by number while they fit sixteen digits |
| `Doorbell.Split` | firmware/chaski/components/pututu/pututu.cpp:135-145 | exactly the tokens split, each into the counter and mac it was put together from |
| `Doorbell.Verifier.Verify` | firmware/chaski/components/pututu/pututu.cpp:65-131 | only a genuine token above the mark is accepted, after the mark was written; only the limit and a failing flash keep one out; each refusal has its own reason |
| `Doorbell.NeverAcceptedTwice` | firmware/chaski/components/pututu/pututu.cpp:65-131 | over every run accepted counters strictly increase, no message is accepted twice, and wakes since the last power loss are five minutes apart, across deep sleeps if the RTC hooks are set |
| `Doorbell.FirstMintAfterSync` | internal/state/state.go:143-159 | however far the counter was rolled back, the first token after a completed sync exceeds the reported mark if and only if the counter has a next value |
| `Doorbell.HealedTokenIsAccepted` | internal/pututu/pututu.go:264-274 | such a token is accepted when the device is willing to wake |
| `Compression.Compress` | firmware/chaski/components/pututu/hmac_sha256.cpp:36-76 | the loops over schedule and rounds compute the compression of section 6.2.2 of FIPS 180-4 |
| `Streaming.Context.Update` | firmware/chaski/components/pututu/hmac_sha256.cpp:78-91 | the chaining value and the block stand for everything fed in so far, for any split |
| `Streaming.Context.FillZeros` | firmware/chaski/components/pututu/hmac_sha256.cpp:97-98 | the padding loop ends, at the length field |
| `Streaming.Context.Final` | firmware/chaski/components/pututu/hmac_sha256.cpp:93-115 | the result is the fold of the compression over the message padded as in section 5.1.1 of FIPS 180-4 |
| `Streaming.ZerosIsLeast` | firmware/chaski/components/pututu/hmac_sha256.cpp:97-98 | the number of zeros is the smallest that fits |
| `Sha256.ComputeSha256` | firmware/chaski/components/pututu/hmac_sha256.cpp:122-126 | the digest of the concatenation, however the message was split into Update calls |
| `Sha256.ComputeHmacSha256` | firmware/chaski/components/pututu/hmac_sha256.cpp:128-157 | section 2 of RFC 2104 for every key length |
| `Layout.BreakLines` | firmware/chaski/components/layout/layout.cpp:128-210 | the lines say the letter's words and breaks in order and nothing else, cut only words longer than a line, fit the width, and end early only for a piece that does not fit |
| `Layout.TextIsPreserved` | firmware/chaski/components/layout/layout.cpp:128-210 | every cluster but spaces and newlines appears once and in order; no line is too long or begins or ends with a space |
| `Layout.Paginate` | firmware/chaski/components/layout/layout.cpp:212-233 | pages of at most the given lines, all but the last full, concatenate back to the lines; an empty letter is one blank page |

## Left out

- IMAP, SMTP, HTTP, TLS, JSON and TOML plumbing: typed values and environment steps stand for them.
- MIME derivation, reply stripping, Unicode graphemes: derivation is any result, clusters are given.
- Step 3 and step 5 of ApplyResponse (contact snapshot, config) inside the sync step system: the snapshot store is modelled on its own in `ContactBook`.
- The retry ladder, its jitter and the round cap of RunOnce; the drain it bounds is in `Assembly`.
- base64 of cursors and macs, and constant-time comparison: a cursor is its pair of numbers, a mac any sixteen characters without a dot.
- HMAC unforgeability: a token is genuine when its mac is the one the key gives.
- The guardian copies of notices, certificate alarms, kipu telemetry and the carrier.
- Screens, power, input and settings of the device; merging and sorting of contacts for display.
- Concurrent sync requests: the device issues one at a time.
- Lower-casing beyond ASCII in addresses.
- Ayllu.FileStore.Mutate: does not model the text of ayllu.toml and the change log, whose lines are taken as durable or absent.
- Two entries of one id in the outbox index, which only an unread counter file can bring about: the step system keeps the newer one.
- Streaming.Context.Final: counts message bytes in sixty-four bits as the source does, which is the standard's length for messages under 2^61 bytes.
