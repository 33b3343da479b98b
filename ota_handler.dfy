/**
 * `OTA_Handler` as a class: the handler's integer and flag fields are updated
 * in place by its methods, and ghost fields record the calls it makes into its
 * collaborators. Each method is proved to leave the handler in the state the
 * corresponding function of `OtaSpec` computes from the state before the call.
 */
module OtaHandlerClass {
  import opened ChunkLayout
  import opened OtaSpec

  class OtaHandler {
    var active: bool              // m_fw_callback != nullptr
    var collaboratorsBound: bool  // the publish, state and finish callbacks and m_fw_updater are present
    var fwSize: nat               // m_fw_size
    var chunkSize: nat            // Get_Chunk_Size() of the update configuration
    var chunkRetries: uint8       // Get_Chunk_Retries() of the update configuration
    var totalChunks: nat          // m_total_chunks
    var requestedChunks: nat      // m_requested_chunks
    var retries: uint8            // m_retries
    var watchdogArmed: bool       // m_watchdog has a pending once()

    ghost var calls: Calls        // what the handler passed to its collaborators

    /** The handler's fields and call record as a `Session` value. */
    ghost function State(): Session
      reads this
    {
      Session(active, collaboratorsBound, fwSize, chunkSize, chunkRetries, totalChunks, requestedChunks, retries,
              watchdogArmed, calls)
    }

    ghost predicate Valid()
      reads this
    {
      Wf(State())
    }

    /** The constructor: no session, zero sizes and counters, nothing recorded. */
    constructor ()
      ensures Valid() && State() == Initial()
    {
      active, collaboratorsBound, fwSize, chunkSize, chunkRetries := false, false, 0, 0, 0;
      totalChunks, requestedChunks, retries, watchdogArmed := 0, 0, 0, false;
      calls := Calls([], [], [], [], [], [], [], 0, 0);
    }

    /**
     * `Start_Firmware_Update`. `bound` says whether the publish, state and finish
     * callbacks and the configuration's updater are all present.
     */
    method StartFirmwareUpdate(bound: bool, size: nat, configChunkSize: nat, configRetries: uint8)
      requires configChunkSize > 0
      modifies this
      ensures Valid() && State() == Start(old(State()), bound, size, configChunkSize, configRetries)
    {
      active := true;
      collaboratorsBound := bound;
      fwSize := size;
      chunkSize := configChunkSize;
      chunkRetries := configRetries;
      totalChunks := fwSize / chunkSize + 1;
      ghost var configured := State();
      assert configured == old(State()).(active := true, bound := bound, fwSize := size, chunkSize := configChunkSize,
                                         maxRetries := configRetries,
                                         totalChunks := TotalChunks(size, configChunkSize));
      if !bound {
        HandleFailure(RetryNothing, None);
        return;
      }
      RequestFirstFirmwarePacket();
      assert State() == RequestFirst(configured);
      calls := calls.(statuses := calls.statuses + [Downloading]);
    }

    /** `Stop_Firmware_Update`. */
    method StopFirmwareUpdate()
      requires Valid() && active && collaboratorsBound
      modifies this
      ensures Valid() && State() == Stop(old(State()))
    {
      watchdogArmed := false;
      calls := calls.(flash := []);
      HandleFailure(RetryNothing, None);
      active := false;
    }

    /**
     * `Process_Firmware_Packet`. The collaborators' answers are parameters: the
     * result of `begin`, the count `write` reports, whether the progress callback
     * cancelled the session, and what finalisation would find.
     */
    method ProcessFirmwarePacket(currentChunk: nat, payload: seq<byte>, beginOk: bool, written: nat,
                                 cancelled: bool, checksumEqual: bool, endOk: bool)
      requires Valid()
      requires currentChunk == requestedChunks ==> active
      requires Accepts(State(), currentChunk, |payload|) ==> collaboratorsBound
      modifies this
      ensures Valid()
      ensures State() == ProcessPacket(old(State()), currentChunk, payload, beginOk, written, cancelled,
                                       Verdict(checksumEqual, endOk))
    {
      if currentChunk != requestedChunks {
        return;
      }
      var valid, expected := ReceivedValidChunkSize(|payload|);
      if !valid {
        return;
      }
      AcceptFirmwareChunk(currentChunk, payload, beginOk, written, cancelled, Verdict(checksumEqual, endOk));
    }

    /**
     * The rest of `Process_Firmware_Packet` once the packet passed both checks;
     * each failure on the way is answered by `Handle_Failure`.
     */
    method AcceptFirmwareChunk(currentChunk: nat, payload: seq<byte>, beginOk: bool, written: nat,
                               cancelled: bool, verdict: Verdict)
      requires Started(State()) && currentChunk == requestedChunks
      modifies this
      ensures State() == AcceptChunk(old(State()), currentChunk, payload, beginOk, written, cancelled, verdict)
    {
      watchdogArmed := false;
      if currentChunk == 0 {
        calls := calls.(begins := calls.begins + [fwSize]);
        if !beginOk {
          HandleFailure(RetryUpdate, None);
          return;
        }
      }
      calls := calls.(flash := calls.flash + payload);
      if written != |payload| {
        HandleFailure(RetryUpdate, None);
        return;
      }
      requestedChunks := currentChunk + 1;
      calls := calls.(hashed := calls.hashed + payload, progress := calls.progress + [requestedChunks]);
      if cancelled {
        active := false;
        HandleFailure(RetryNothing, None);
        return;
      }
      retries := chunkRetries;
      RequestNextFirmwarePacket(Some(verdict));
    }

    /** `Received_Valid_Chunk_Size`: the size the current chunk must have, and whether `received` is it. */
    method ReceivedValidChunkSize(received: nat) returns (valid: bool, expected: nat)
      requires Valid() && active
      ensures expected == ExpectedChunkSize(fwSize, chunkSize, totalChunks, requestedChunks)
      ensures valid <==> received == expected
    {
      var isLastChunk := requestedChunks + 1 >= totalChunks;
      if isLastChunk {
        expected := fwSize % chunkSize;
        return received == expected, expected;
      }
      expected := chunkSize;
      valid := received == chunkSize;
    }

    /** `Request_First_Firmware_Packet`. */
    method RequestFirstFirmwarePacket()
      requires Started(State())
      modifies this
      ensures State() == RequestFirst(old(State()))
      decreases retries, 4
    {
      requestedChunks := 0;
      retries := chunkRetries;
      watchdogArmed := false;
      calls := calls.(hashed := [], flash := []);
      RequestNextFirmwarePacket(None);
    }

    /** `Request_Next_Firmware_Packet`. */
    method RequestNextFirmwarePacket(v: Option<Verdict>)
      requires Started(State())
      requires requestedChunks >= totalChunks ==> v.Some?
      modifies this
      ensures State() == RequestNext(old(State()), v)
      decreases if requestedChunks < totalChunks then 0 else retries, 3
    {
      if requestedChunks >= totalChunks {
        FinishFirmwareUpdate(v.value);
        return;
      }
      calls := calls.(requests := calls.requests + [requestedChunks]);
      watchdogArmed := true;
    }

    /** `Finish_Firmware_Update`, with the checksum comparison's polarity as written. */
    method FinishFirmwareUpdate(v: Verdict)
      requires Started(State())
      modifies this
      ensures State() == Finish(old(State()), v)
      decreases retries, 2
    {
      calls := calls.(statuses := calls.statuses + [Downloaded]);
      if v.checksumEqual {
        HandleFailure(RetryUpdate, None);
        return;
      }
      calls := calls.(ends := calls.ends + 1);
      if !v.endOk {
        HandleFailure(RetryUpdate, None);
        return;
      }
      calls := calls.(statuses := calls.statuses + [Updating], results := calls.results + [true],
                      finishes := calls.finishes + 1);
    }

    /** `Handle_Failure`. */
    method HandleFailure(response: FailureResponse, v: Option<Verdict>)
      requires Started(State())
      requires response == RetryChunk && requestedChunks >= totalChunks ==> v.Some?
      modifies this
      ensures State() == OtaSpec.HandleFailure(old(State()), response, v)
      decreases retries, 1
    {
      if retries == 0 {
        calls := calls.(statuses := calls.statuses + [Failed], results := calls.results + [false],
                        finishes := calls.finishes + 1);
        return;
      }
      retries := retries - 1;
      match response {
        case RetryChunk =>
          RequestNextFirmwarePacket(v);
        case RetryUpdate =>
          RequestFirstFirmwarePacket();
        case RetryNothing =>
          calls := calls.(statuses := calls.statuses + [Failed], results := calls.results + [false],
                          finishes := calls.finishes + 1);
      }
    }

    /** `Handle_Request_Timeout`: the watchdog fires. */
    method HandleRequestTimeout(checksumEqual: bool, endOk: bool)
      requires Valid() && active && collaboratorsBound && watchdogArmed
      modifies this
      ensures Valid() && State() == Timeout(old(State()), Verdict(checksumEqual, endOk))
    {
      watchdogArmed := false;
      HandleFailure(RetryChunk, Some(Verdict(checksumEqual, endOk)));
    }
  }
}
