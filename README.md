# OTA_Handler — a Dafny model of the ThingsBoard firmware-download controller

`OTA_Handler` drives an over-the-air firmware update for the ThingsBoard
Arduino client. It splits the firmware image into fixed-size chunks and
requests them one at a time through a publish callback. A watchdog re-requests
a chunk that does not arrive in time. Each chunk received with the right
index and size is written to flash through an updater and fed into a hash.
After the last chunk, the handler compares the hash with the expected
checksum, ends the updater and reports the outcome through the state
callback, the update callback and the finish callback. Failures are answered
by re-requesting the chunk, restarting the whole transfer, or giving up,
within a per-chunk retry budget.

The model has four modules:

- `ChunkLayout` (`chunk_layout.dfy`): the pure arithmetic of the transfer.
  - The chunk count `m_total_chunks = fw_size / chunk_size + 1`.
  - The size each chunk must have.
  - Proofs that the chunks tile the image exactly.
- `OtaSpec` (`ota_spec.dfy`): every operation of the handler as a function on
  a `Session` value.
  - A `Session` holds the handler's fields (index, retry budget, chunk count,
    configuration, whether a session is active, whether the last start found
    all collaborators bound, whether the watchdog is armed).
  - It also holds a `Calls` record of everything the handler passed to its
    collaborators: sizes given to `begin`, bytes written since the last
    updater reset, bytes hashed since the last hash start, published chunk
    indices, progress counts, reported states, update-callback results, and
    how often `finish` and `end` ran.
  - `Handle_Failure`, `Request_First_Firmware_Packet`,
    `Request_Next_Firmware_Packet` and `Finish_Firmware_Update` call one
    another. So do their models. Their termination rests on the chunk count
    being at least one.
- `OtaHandlerClass` (`ota_handler.dfy`): the handler as a class.
  - The integer and flag fields are updated in place; the call record is a
    ghost field.
  - Each method is proved to produce the state that the matching `OtaSpec`
    function computes from the state before the call.
- `OtaProperties` (`ota_properties.dfy`): what each kind of packet, failure
  and timeout does to a session, plus runs of events. The runs cover timeouts
  until the budget is spent, repeated failed writes, and a complete in-order
  delivery of an image.

What the collaborators answer is given as parameters:

- whether `begin` succeeds;
- how many bytes `write` reports;
- whether the progress callback stopped the update;
- whether the checksum comparison finds the two buffers equal;
- whether `end` succeeds;
- whether the publish, state and finish callbacks and the updater are all bound.

## Behaviour reproduced as written

The model follows the code where it is surprising. These properties are
proved about the behaviour as written:

- **Inverted checksum test**
  (`MQTT/ThingsBoard/libraries/ThingsBoard/src/OTA_Handler.h:260`).
  - The failure branch is taken when `memcmp` reports the expected checksum
    and the calculated hash EQUAL.
  - `FinishSucceedsIff` proves that success is reported exactly when the
    comparison finds them different and `end()` succeeds.
  - `MatchingChecksumNeverSucceeds` and
    `CompleteTransferWithMatchingChecksumRestarts` show the effect: a
    transfer whose hash matches is discarded. With a non-zero configured retry
    count it restarts at chunk 0; with none configured, the reload at line 181
    leaves no budget and the update fails.
- **One chunk too many** (line 104).
  - `fw_size / chunk_size + 1` gives an image whose size is an exact multiple
    of the chunk size an extra, empty final chunk (`ExactMultipleGetsEmptyExtraChunk`).
  - In general the chunk count is the least count whose blocks strictly exceed
    the image (`TotalChunksBounds`).
  - The chunks still tile the image exactly (`SizeOfFirstChunks`).
- **Restarts refill the budget** (lines 299, 306 and 220).
  - `Handle_Failure` decrements `m_retries`, then `Request_First_Firmware_Packet`
    reloads it.
  - So a failure answered by a restart never exhausts the budget.
  - `RetryUpdateRestartsWithFullBudget` proves this for one failure, and
    `ShortWriteRun` for any number of failed writes of chunk 0.
  - Timeouts, in contrast, are bounded (`TimeoutsExhaustBudget`).
- **A cancelled session reaches a second failure path** (lines 125 and 175-181).
  - The only way the progress callback can end the session is to call
    `Stop_Firmware_Update`. That call resets the updater and runs
    `Handle_Failure(RETRY_NOTHING)` itself: it reports FAILED and `false`, runs
    finish and spends a retry if one is left.
  - Back in `Process_Firmware_Packet`, line 175 finds the session ended and
    runs `Handle_Failure` a second time, before the budget is reloaded. That
    second run reports FAILED again and then calls the update callback through
    the cleared pointer.
  - The model covers only the second part, through a `cancelled` flag: the
    session is found ended, another retry is spent if one is left, and FAILED
    and `false` are recorded (`CancelDuringProgressAborts`). The nested `Stop` is not part of
    that step; see "Left out".
- **Overrun after completion** (lines 134-142 and 207-211).
  - After a successful finish the index equals the chunk count.
  - Any packet for that index with the remainder size then passes both checks
    and reaches the updater again. When the write reports every byte, the
    comparison again finds the buffers different and the second `end()`
    succeeds, the packet is written and hashed and the update is finalised
    again (`OverrunAfterCompletion`).
  - Under those same answers, one such packet after a complete successful
    transfer makes the update report success twice
    (`OverrunAfterCompleteTransfer`).
  - With other answers (a short write, a failing second `end()`) the packet
    goes through the usual failure handling instead, which restarts the
    download or, with no budget left, fails it.
  - Hence `ProcessPacket` keeps the index within the layout only for packets
    whose index is not the chunk count.
- **A failed session still accepts packets** (lines 134-182 and 290-294).
  - A terminal `Handle_Failure` reports FAILED and `false` and runs finish, but
    does not clear `m_fw_callback`, so the session stays active.
  - A late packet for the current index then passes both checks and the
    download carries on: the index advances and the next chunk is requested
    (`LatePacketResumesFailedSession`, after a timeout with no budget left).

## Model

| member | source | states |
|---|---|---|
| ChunkLayout.TotalChunks | MQTT/ThingsBoard/libraries/ThingsBoard/src/OTA_Handler.h:104 | the chunk count is at least one |
| ChunkLayout.TotalChunksBounds | MQTT/ThingsBoard/libraries/ThingsBoard/src/OTA_Handler.h:104 | one chunk fewer fits inside the image; the full count strictly exceeds it, so exact multiples get an extra chunk |
| ChunkLayout.ExpectedChunkSize | MQTT/ThingsBoard/libraries/ThingsBoard/src/OTA_Handler.h:206-215 | the expected size never exceeds the chunk size, and is smaller only for the last chunk |
| ChunkLayout.ChunkWithinImage | MQTT/ThingsBoard/libraries/ThingsBoard/src/OTA_Handler.h:206-215 | every chunk lies inside the image; the last one ends exactly at the image's end |
| ChunkLayout.SizeOfFirstChunks | MQTT/ThingsBoard/libraries/ThingsBoard/src/OTA_Handler.h:206-215 | the first `k` chunks carry `k` full chunks; all chunks together carry exactly the firmware size |
| ChunkLayout.FinalChunkEmptyIffExactMultiple | MQTT/ThingsBoard/libraries/ThingsBoard/src/OTA_Handler.h:207-211 | the final chunk is empty if and only if the firmware size is a multiple of the chunk size |
| ChunkLayout.TenThousandBytesInFourKibChunks | MQTT/ThingsBoard/libraries/ThingsBoard/src/OTA_Handler.h:104 | 10000 bytes in 4096-byte chunks are requested as 4096, 4096 and 1808 bytes |
| ChunkLayout.ExactMultipleGetsEmptyExtraChunk | MQTT/ThingsBoard/libraries/ThingsBoard/src/OTA_Handler.h:104 | 8192 bytes in 4096-byte chunks make three chunks, the last one empty |
| OtaSpec.HandleFailure | MQTT/ThingsBoard/libraries/ThingsBoard/src/OTA_Handler.h:289-317 | configuration is kept; call records only grow; at most one outcome is reported; the index is kept or reset to 0; the budget does not grow except by a full refill |
| OtaSpec.RequestFirst | MQTT/ThingsBoard/libraries/ThingsBoard/src/OTA_Handler.h:218-226 | the transfer waits for chunk 0 with the full budget, empty flash and hash and an armed watchdog; chunk 0 is the one new request and nothing is reported |
| OtaSpec.RequestNext | MQTT/ThingsBoard/libraries/ThingsBoard/src/OTA_Handler.h:230-246 | below the chunk count it publishes the current index and arms the watchdog, whatever the publish result; it keeps the failure-handling invariants |
| OtaSpec.Finish | MQTT/ThingsBoard/libraries/ThingsBoard/src/OTA_Handler.h:251-283 | DOWNLOADED is the first state reported; the failure-handling invariants are kept |
| OtaSpec.Start | MQTT/ThingsBoard/libraries/ThingsBoard/src/OTA_Handler.h:101-115 | with bound collaborators: awaits chunk 0, one request for chunk 0, DOWNLOADING reported. Otherwise: FAILED and `false` reported, nothing requested. The session records whether the collaborators are bound, and the layout invariant holds afterwards |
| OtaSpec.Stop | MQTT/ThingsBoard/libraries/ThingsBoard/src/OTA_Handler.h:120-126 | for an active session with bound collaborators: the session ends with the watchdog detached, the updater reset, FAILED and `false` reported, and nothing requested |
| OtaSpec.ProcessPacket | MQTT/ThingsBoard/libraries/ThingsBoard/src/OTA_Handler.h:133-183 | a packet with the wrong index or size changes nothing; configuration is kept; only cancellation ends the session; for a packet whose index is not the chunk count, the index stays within the layout |
| OtaSpec.AcceptChunk | MQTT/ThingsBoard/libraries/ThingsBoard/src/OTA_Handler.h:144-182 | an accepted chunk keeps the configuration and the collaborators' presence, call records only grow, only cancellation ends the session, and for a packet whose index is below the chunk count the index stays within the layout |
| OtaSpec.Timeout | MQTT/ThingsBoard/libraries/ThingsBoard/src/OTA_Handler.h:320-326 | for an active session with bound collaborators and an armed watchdog: configuration is kept, call records only grow, and the index is kept or reset to 0 |
| OtaHandlerClass.OtaHandler.constructor | MQTT/ThingsBoard/libraries/ThingsBoard/src/OTA_Handler.h:79-94 | no session, zero sizes and counters, nothing recorded |
| OtaHandlerClass.OtaHandler.StartFirmwareUpdate | MQTT/ThingsBoard/libraries/ThingsBoard/src/OTA_Handler.h:101-115 | the new state is `Start` of the old one, and the handler invariant holds |
| OtaHandlerClass.OtaHandler.StopFirmwareUpdate | MQTT/ThingsBoard/libraries/ThingsBoard/src/OTA_Handler.h:120-126 | the new state is `Stop` of the old one |
| OtaHandlerClass.OtaHandler.ProcessFirmwarePacket | MQTT/ThingsBoard/libraries/ThingsBoard/src/OTA_Handler.h:133-143 | the new state is `ProcessPacket` of the old one |
| OtaHandlerClass.OtaHandler.AcceptFirmwareChunk | MQTT/ThingsBoard/libraries/ThingsBoard/src/OTA_Handler.h:144-182 | processing an accepted chunk produces the state `AcceptChunk` computes |
| OtaHandlerClass.OtaHandler.ReceivedValidChunkSize | MQTT/ThingsBoard/libraries/ThingsBoard/src/OTA_Handler.h:206-215 | returns the layout's expected size for the current index, and whether the received size equals it, in both directions |
| OtaHandlerClass.OtaHandler.RequestFirstFirmwarePacket | MQTT/ThingsBoard/libraries/ThingsBoard/src/OTA_Handler.h:218-226 | the new state is `RequestFirst` of the old one |
| OtaHandlerClass.OtaHandler.RequestNextFirmwarePacket | MQTT/ThingsBoard/libraries/ThingsBoard/src/OTA_Handler.h:230-246 | the new state is `RequestNext` of the old one |
| OtaHandlerClass.OtaHandler.FinishFirmwareUpdate | MQTT/ThingsBoard/libraries/ThingsBoard/src/OTA_Handler.h:251-283 | the new state is `Finish` of the old one |
| OtaHandlerClass.OtaHandler.HandleFailure | MQTT/ThingsBoard/libraries/ThingsBoard/src/OTA_Handler.h:289-317 | the new state is `HandleFailure` of the old one |
| OtaHandlerClass.OtaHandler.HandleRequestTimeout | MQTT/ThingsBoard/libraries/ThingsBoard/src/OTA_Handler.h:320-326 | the new state is `Timeout` of the old one, and the handler invariant holds |
| OtaProperties.ExhaustedBudgetIsTerminal | MQTT/ThingsBoard/libraries/ThingsBoard/src/OTA_Handler.h:290-295 | with no retries left, every response reports FAILED and `false`, runs finish once, and changes nothing else |
| OtaProperties.RetryNothingIsTerminal | MQTT/ThingsBoard/libraries/ThingsBoard/src/OTA_Handler.h:297-312 | RETRY_NOTHING is terminal whatever the budget, requests nothing, and spends one retry if there is one |
| OtaProperties.RetryChunkReRequests | MQTT/ThingsBoard/libraries/ThingsBoard/src/OTA_Handler.h:299-304 | RETRY_CHUNK with budget left re-requests the same index under a re-armed watchdog and spends one retry; flash and hash are kept |
| OtaProperties.RetryUpdateRestartsWithFullBudget | MQTT/ThingsBoard/libraries/ThingsBoard/src/OTA_Handler.h:299-306 | RETRY_UPDATE with budget left restarts at chunk 0 with empty flash and hash and the budget refilled to its maximum |
| OtaProperties.FinishSucceedsIff | MQTT/ThingsBoard/libraries/ThingsBoard/src/OTA_Handler.h:251-283 | `true` is reported if and only if the checksum comparison finds the buffers different and `end()` succeeds |
| OtaProperties.FinishSuccess | MQTT/ThingsBoard/libraries/ThingsBoard/src/OTA_Handler.h:271-282 | success reports DOWNLOADED then UPDATING, calls `end()` once, reports `true`, runs finish once, and keeps flash and hash |
| OtaProperties.MatchingChecksumNeverSucceeds | MQTT/ThingsBoard/libraries/ThingsBoard/src/OTA_Handler.h:258-265 | equal checksum buffers never call `end()`; the transfer restarts, or with no budget left it fails |
| OtaProperties.EndFailureRestartsOrFails | MQTT/ThingsBoard/libraries/ThingsBoard/src/OTA_Handler.h:271-274 | a failing `end()` restarts the transfer, or with no budget left it fails |
| OtaProperties.RequestNextFinalisesWhenDone | MQTT/ThingsBoard/libraries/ThingsBoard/src/OTA_Handler.h:231-235 | requesting the next chunk reports DOWNLOADED next if and only if every chunk has been handled, and then it is finalisation; below the chunk count it reports nothing to the state or update callbacks |
| OtaProperties.AcceptedChunkAdvances | MQTT/ThingsBoard/libraries/ThingsBoard/src/OTA_Handler.h:144-182 | a good non-final chunk is written and hashed; the index advances; progress sees the new count; the budget is refilled and the next chunk is requested |
| OtaProperties.AcceptedFinalChunkFinalises | MQTT/ThingsBoard/libraries/ThingsBoard/src/OTA_Handler.h:168-182 | a good final chunk is written and hashed, then finalisation runs with the budget refilled |
| OtaProperties.ShortWriteRestartsOrFails | MQTT/ThingsBoard/libraries/ThingsBoard/src/OTA_Handler.h:157-164 | a short write restarts the transfer. With no budget it fails, with the chunk written but not hashed and the index unchanged |
| OtaProperties.BeginFailureRestartsOrFails | MQTT/ThingsBoard/libraries/ThingsBoard/src/OTA_Handler.h:149-155 | a failing `begin` for chunk 0 restarts the transfer. With no budget it fails, with nothing written |
| OtaProperties.CancelDuringProgressAborts | MQTT/ThingsBoard/libraries/ThingsBoard/src/OTA_Handler.h:170-178 | when the session is found ended after the progress callback, the chunk is kept and nothing more is requested. This step's `Handle_Failure` records FAILED and `false` and spends a retry if one is left; the nested `Stop` is not modelled |
| OtaProperties.OverrunAfterCompletion | MQTT/ThingsBoard/libraries/ThingsBoard/src/OTA_Handler.h:134-142 | once the index equals the chunk count, a packet for that index with the remainder size is accepted. Written in full, with the buffers again different and a succeeding second `end()`, it is hashed and finalised again, leaving the index one past the count |
| OtaProperties.OverrunAfterCompleteTransfer | MQTT/ThingsBoard/libraries/ThingsBoard/src/OTA_Handler.h:207-211 | after a complete successful transfer, one more packet for the chunk count's index, written in full, with the buffers again different and a succeeding second `end()`, makes the update report success twice |
| OtaProperties.TimeoutRun | MQTT/ThingsBoard/libraries/ThingsBoard/src/OTA_Handler.h:320-326 | `n` timeouts with budget left keep the index, spend `n` retries and publish the same index `n` times |
| OtaProperties.TimeoutsExhaustBudget | MQTT/ThingsBoard/libraries/ThingsBoard/src/OTA_Handler.h:289-295 | after as many timeouts as the budget allows, the next timeout fails the update and leaves the watchdog disarmed |
| OtaProperties.ShortWriteRun | MQTT/ThingsBoard/libraries/ThingsBoard/src/OTA_Handler.h:157-164 | with a non-zero configured retry count, any number of failed writes of chunk 0 leave the transfer at chunk 0 with the full budget, never reporting failure |
| OtaProperties.DeliverInOrder | MQTT/ThingsBoard/libraries/ThingsBoard/src/OTA_Handler.h:133-183 | for `k` below the chunk count: after the first `k` chunks arrive in order, flash and hash hold the image's first `k` chunks and requests name indices `1..k` |
| OtaProperties.LatePacketResumesFailedSession | MQTT/ThingsBoard/libraries/ThingsBoard/src/OTA_Handler.h:133-182 | after a timeout with no budget left has reported FAILED and `false`, the session is still active, and a full-size packet for the current (non-final) index is accepted, advances the index and requests the next chunk without another result reaching the update callback |
| OtaProperties.DeliverNext | MQTT/ThingsBoard/libraries/ThingsBoard/src/OTA_Handler.h:144-182 | one more chunk in order extends flash and hash by exactly that chunk; the last chunk finalises on the whole image |
| OtaProperties.AcceptedChunkOutcome | MQTT/ThingsBoard/libraries/ThingsBoard/src/OTA_Handler.h:166-182 | an accepted chunk with every collaborator succeeding leads to either the next request or finalisation |
| OtaProperties.CompleteTransferSucceeds | MQTT/ThingsBoard/libraries/ThingsBoard/src/OTA_Handler.h:133-183 | a complete in-order transfer writes and hashes exactly the image. With differing buffers and a successful `end()`, success is reported once |
| OtaProperties.CompleteTransferWithMatchingChecksumRestarts | MQTT/ThingsBoard/libraries/ThingsBoard/src/OTA_Handler.h:260-265 | with a non-zero configured retry count, a complete transfer whose hash matches is discarded: it restarts at chunk 0 with empty flash and nothing reported to the update callback |

## Left out

- Logging, the message buffers built with `snprintf`, and the PROGMEM string
  constants are not modelled; they affect no state.
- The watchdog's timing is out of scope. The model records only whether a
  timeout is pending, and a timeout is an event the caller chooses.
- The hash algorithm and the checksum bytes are out of scope.
  - The hash is recorded as the sequence of bytes fed to it.
  - The fixed-length `memcmp` of the expected checksum and the calculated
    digest is a boolean input.
  - The `strncpy` copy of the checksum and the algorithm selection are not modelled.
- The updater's internals are not modelled. `begin`, `write` and `end` answer
  with input values, and `reset` empties the record of written bytes.
- The publish result is not modelled. The code arms the watchdog whatever it
  is, so it changes nothing.
- The configuration's `Get_Timeout` is not modelled.
- The return values of the state and finish callbacks are ignored by the code,
  so they are not modelled either.
- OtaSpec.Start: when a collaborator is unbound, the code still calls the
  state, update and finish callbacks through the failure path. Those calls
  would dereference an empty callback. The model records them as if they had
  been made. The session then stays active, and `bound` records the missing
  collaborator. Later events that would call through it are excluded by
  preconditions rather than modelled: an accepted packet (lines 151, 158 and
  224), `Stop` (line 122) and a timeout (lines 237, 291) all require `bound`.
  The one flag stands for all four collaborators, so these preconditions also
  exclude some cases the code handles: `Stop`, for example, never calls the
  publish callback, yet a session whose only missing collaborator is that
  callback cannot be stopped in the model.
- OtaProperties.CancelDuringProgressAborts: the `cancelled` flag stands for a
  `Stop_Firmware_Update` called from inside the progress callback, which is
  the only way to clear `m_fw_callback` (line 125). The flag leaves out what
  that nested `Stop` does first: the updater reset, the first FAILED, `false`
  and finish, and the first retry spent. The model records only the second
  `Handle_Failure` that line 177 runs, so one FAILED and `false` instead of two.
- The call record keeps one sequence per collaborator, so only the order of
  the calls within each collaborator is recorded. The order across
  collaborators is not: that chunk 0 is published before DOWNLOADING is
  reported (lines 113-114), or that FAILED is reported before the update
  callback receives `false` and before the finish callback runs (lines
  291-293).
- OtaSpec.ProcessPacket: for the same reason a cancelled packet leaves the
  chunk in the record of written bytes, although the nested `Stop` resets the
  updater. The model also does not capture that the second `Handle_Failure`
  calls the update callback through the cleared pointer (line 292 or 310).
- Calls made through a null `m_fw_callback` are excluded by preconditions
  rather than modelled: a packet for the current index, `Stop`, the size
  check and a timeout all require an active session.
- TotalChunks: `size_t` arithmetic is modelled on unbounded naturals. The
  model does not capture the wrap-around of `fw_size / chunk_size + 1` at the
  platform's `size_t` width, nor of `current_chunk + 1`. A zero configured
  chunk size, which the code divides by, is excluded by a precondition.
- Concurrency is out of scope: events are modelled as running one at a time,
  as on the single-threaded device loop.
