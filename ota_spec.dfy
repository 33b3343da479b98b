/**
 * The behaviour of `OTA_Handler` as pure functions over a `Session` value.
 *
 * A `Session` holds the handler's fields (`m_fw_size`, the chunk size and
 * retry budget read from the update configuration, `m_total_chunks`,
 * `m_requested_chunks`, `m_retries`, whether `m_fw_callback` is set, whether
 * the watchdog is armed) together with a record of every call the handler
 * makes into its collaborators: what it passed to the updater's `begin` and
 * `write`, what it fed to the hash, which chunks it published, what it sent
 * through the state callback, the update callback's arguments and how often
 * `finish` and the updater's `end` ran.
 *
 * The private members `Handle_Failure`, `Request_First_Firmware_Packet`,
 * `Request_Next_Firmware_Packet` and `Finish_Firmware_Update` call one
 * another; so do the functions here, and their termination rests on the
 * chunk count being at least one (a restart never re-enters finalisation).
 */
module OtaSpec {
  import opened ChunkLayout

  type byte = b: int | 0 <= b < 256

  /** `m_retries` and the configured retry count are `uint8_t`. */
  type uint8 = x: int | 0 <= x < 256

  datatype Option<+T> = None | Some(value: T)

  /** The firmware states sent through the state callback. */
  datatype Status = Downloading | Downloaded | Updating | Failed

  /** `OTA_Failure_Response`: how a failure is answered. */
  datatype FailureResponse = RetryChunk | RetryUpdate | RetryNothing

  /**
   * What finalisation finds if it runs during the current event: whether the
   * `memcmp` of the expected checksum and the calculated hash reports the two
   * buffers equal, and whether the updater's `end()` succeeds.
   */
  datatype Verdict = Verdict(checksumEqual: bool, endOk: bool)

  /**
   * Record of the calls the handler makes into its collaborators.
   */
  datatype Calls = Calls(
    begins: seq<nat>,      // sizes passed to the updater's begin()
    flash: seq<byte>,      // bytes passed to the updater's write() since its last reset()
    hashed: seq<byte>,     // bytes fed to the hash since its last start()
    requests: seq<nat>,    // chunk indices passed to the publish callback
    progress: seq<nat>,    // received-chunk counts passed to the progress callback
    statuses: seq<Status>, // states sent through the state callback
    results: seq<bool>,    // arguments of the update callback
    finishes: nat,         // calls to the finish callback
    ends: nat              // calls to the updater's end()
  )

  datatype Session = Session(
    active: bool,          // m_fw_callback != nullptr
    bound: bool,           // the publish, state and finish callbacks and the updater are all present
    fwSize: nat,           // m_fw_size
    chunkSize: nat,        // Get_Chunk_Size() of the update configuration
    maxRetries: uint8,     // Get_Chunk_Retries() of the update configuration
    totalChunks: nat,      // m_total_chunks
    requested: nat,        // m_requested_chunks
    retries: uint8,        // m_retries
    armed: bool,           // the watchdog has a pending once()
    calls: Calls           // what the handler passed to its collaborators
  )

  /** The handler as constructed: no session, no chunk layout, nothing recorded. */
  function Initial(): Session {
    Session(false, false, 0, 0, 0, 0, 0, 0, false, Calls([], [], [], [], [], [], [], 0, 0))
  }

  /** A start has configured the session: a positive chunk size and at least one chunk. */
  predicate Started(s: Session) {
    s.chunkSize > 0 && s.totalChunks >= 1
  }

  /**
   * The handler's invariant: either a start has configured it, with the chunk
   * count its firmware and chunk sizes imply, or it is still as constructed,
   * with no session and no pending watchdog.
   */
  predicate Wf(s: Session) {
    || (Started(s) && s.totalChunks == TotalChunks(s.fwSize, s.chunkSize))
    || (s.chunkSize == 0 && s.totalChunks == 0 && !s.active && !s.armed)
  }

  /** The index of the next chunk is within the layout. */
  predicate InRange(s: Session) {
    s.requested <= s.totalChunks
  }

  /** A transfer that has just been (re)started and waits for chunk 0. */
  predicate AwaitingFirstChunk(s: Session) {
    && Started(s)
    && s.requested == 0
    && s.retries == s.maxRetries
    && s.armed
    && s.calls.flash == []
    && s.calls.hashed == []
  }

  /** Configuration, session presence and the collaborators' presence are the same in `s` and `r`. */
  predicate SameConfig(s: Session, r: Session) {
    && r.active == s.active
    && r.bound == s.bound
    && r.fwSize == s.fwSize
    && r.chunkSize == s.chunkSize
    && r.maxRetries == s.maxRetries
    && r.totalChunks == s.totalChunks
  }

  /**
   * The call records only grow, and at most one outcome is reported: the update
   * callback and the finish callback run together, at most once.
   */
  predicate LogsExtend(s: Session, r: Session) {
    && s.calls.begins <= r.calls.begins
    && s.calls.requests <= r.calls.requests
    && s.calls.progress <= r.calls.progress
    && s.calls.statuses <= r.calls.statuses
    && s.calls.results <= r.calls.results
    && s.calls.ends <= r.calls.ends
    && s.calls.finishes <= r.calls.finishes <= s.calls.finishes + 1
    && |r.calls.results| - |s.calls.results| == r.calls.finishes - s.calls.finishes
  }

  /**
   * The terminal failure actions of `Handle_Failure`: FAILED is reported, the
   * update callback receives `false` and the finish callback runs.
   */
  function ReportFailure(s: Session): Session {
    s.(calls := s.calls.(statuses := s.calls.statuses + [Failed], results := s.calls.results + [false],
                         finishes := s.calls.finishes + 1))
  }

  /**
   * `Handle_Failure`. With no retries left every response is terminal; otherwise
   * one retry is spent and the response decides: re-request the current chunk,
   * restart the whole transfer, or give up.
   */
  function HandleFailure(s: Session, response: FailureResponse, v: Option<Verdict>): (r: Session)
    requires Started(s)
    requires response == RetryChunk && s.requested >= s.totalChunks ==> v.Some?
    ensures Started(r) && SameConfig(s, r) && LogsExtend(s, r)
    ensures r.requested == s.requested || r.requested == 0
    ensures r.retries <= s.retries || r.retries == s.maxRetries
    decreases s.retries, 1
  {
    if s.retries == 0 then ReportFailure(s)
    else
      var s1 := s.(retries := s.retries - 1);
      match response
      case RetryChunk => RequestNext(s1, v)
      case RetryUpdate => RequestFirst(s1)
      case RetryNothing => ReportFailure(s1)
  }

  /**
   * `Request_First_Firmware_Packet`: back to chunk 0 with the full retry budget,
   * a restarted hash, a reset updater and a detached watchdog, then request chunk 0.
   * The layout has at least one chunk, so this never reaches finalisation.
   */
  function RequestFirst(s: Session): (r: Session)
    requires Started(s)
    ensures AwaitingFirstChunk(r) && SameConfig(s, r)
    ensures r.calls.requests == s.calls.requests + [0]
    ensures r.calls.statuses == s.calls.statuses && r.calls.results == s.calls.results && r.calls.finishes == s.calls.finishes
    ensures r.calls.begins == s.calls.begins && r.calls.progress == s.calls.progress && r.calls.ends == s.calls.ends
    decreases s.retries, 4
  {
    var s1 := s.(requested := 0, retries := s.maxRetries, armed := false,
                 calls := s.calls.(hashed := [], flash := []));
    RequestNext(s1, None)
  }

  /**
   * `Request_Next_Firmware_Packet`: finalise once every chunk has been handled;
   * otherwise publish the request for the current chunk and arm the watchdog,
   * whether or not publishing succeeded.
   */
  function RequestNext(s: Session, v: Option<Verdict>): (r: Session)
    requires Started(s)
    requires s.requested >= s.totalChunks ==> v.Some?
    ensures Started(r) && SameConfig(s, r) && LogsExtend(s, r)
    ensures r.requested == s.requested || r.requested == 0
    ensures r.retries <= s.retries || r.retries == s.maxRetries
    ensures s.requested < s.totalChunks ==> r.armed && r.calls.requests == s.calls.requests + [s.requested]
    decreases if s.requested < s.totalChunks then 0 else s.retries, 3
  {
    if s.requested >= s.totalChunks then Finish(s, v.value)
    else s.(calls := s.calls.(requests := s.calls.requests + [s.requested]), armed := true)
  }

  /**
   * `Finish_Firmware_Update`, as written: DOWNLOADED is reported first; then a
   * checksum comparison that finds the buffers EQUAL restarts the transfer (the
   * source tests `memcmp(...) == 0` on its failure path), as does a failing
   * `end()`; otherwise UPDATING is reported, the update callback receives
   * `true` and the finish callback runs.
   */
  function Finish(s: Session, v: Verdict): (r: Session)
    requires Started(s)
    ensures Started(r) && SameConfig(s, r) && LogsExtend(s, r)
    ensures r.requested == s.requested || r.requested == 0
    ensures r.retries <= s.retries || r.retries == s.maxRetries
    ensures |r.calls.statuses| > |s.calls.statuses| && r.calls.statuses[|s.calls.statuses|] == Downloaded
    decreases s.retries, 2
  {
    var s1 := s.(calls := s.calls.(statuses := s.calls.statuses + [Downloaded]));
    if v.checksumEqual then HandleFailure(s1, RetryUpdate, None)
    else
      var s2 := s1.(calls := s1.calls.(ends := s1.calls.ends + 1));
      if !v.endOk then HandleFailure(s2, RetryUpdate, None)
      else s2.(calls := s2.calls.(statuses := s2.calls.statuses + [Updating], results := s2.calls.results + [true],
                                 finishes := s2.calls.finishes + 1))
  }

  /** The packet passes both checks of `Process_Firmware_Packet`: right index and expected size. */
  predicate Accepts(s: Session, chunk: nat, byteCount: nat) {
    && Started(s)
    && chunk == s.requested
    && byteCount == ExpectedChunkSize(s.fwSize, s.chunkSize, s.totalChunks, s.requested)
  }

  /**
   * `Start_Firmware_Update`: record the configuration and the chunk count; with an
   * unbound collaborator give up at once (`RETRY_NOTHING`), otherwise request the
   * first chunk and report DOWNLOADING.
   */
  function Start(s: Session, bound: bool, fwSize: nat, chunkSize: nat, maxRetries: uint8): (r: Session)
    requires chunkSize > 0
    ensures Wf(r) && r.active && r.bound == bound && LogsExtend(s, r)
    ensures r.fwSize == fwSize && r.chunkSize == chunkSize && r.maxRetries == maxRetries
    ensures bound ==> AwaitingFirstChunk(r) && r.calls.requests == s.calls.requests + [0]
                      && r.calls.statuses == s.calls.statuses + [Downloading] && r.calls.results == s.calls.results
    ensures !bound ==> r.calls.requests == s.calls.requests && r.calls.results == s.calls.results + [false]
                       && r.calls.statuses == s.calls.statuses + [Failed]
  {
    var s1 := s.(active := true, bound := bound, fwSize := fwSize, chunkSize := chunkSize, maxRetries := maxRetries,
                 totalChunks := TotalChunks(fwSize, chunkSize));
    if !bound then HandleFailure(s1, RetryNothing, None)
    else
      var s2 := RequestFirst(s1);
      s2.(calls := s2.calls.(statuses := s2.calls.statuses + [Downloading]))
  }

  /**
   * `Stop_Firmware_Update`: detach the watchdog, reset the updater, give up
   * (`RETRY_NOTHING`) and drop the session. It calls the updater and the
   * callbacks, so they must be present.
   */
  function Stop(s: Session): (r: Session)
    requires Wf(s) && s.active && s.bound
    ensures Wf(r) && !r.active && r.bound && !r.armed && r.calls.flash == []
    ensures LogsExtend(s, r) && r.calls.requests == s.calls.requests
    ensures r.calls.results == s.calls.results + [false] && r.calls.statuses == s.calls.statuses + [Failed]
  {
    var s1 := s.(armed := false, calls := s.calls.(flash := []));
    HandleFailure(s1, RetryNothing, None).(active := false)
  }

  /**
   * `Process_Firmware_Packet`, given what the collaborators answer: whether the
   * updater's `begin` succeeds (asked for chunk 0 only), how many bytes its
   * `write` reports written, whether the progress callback cancelled the session,
   * and what finalisation would find. A packet that passes both checks is handed
   * to the updater, so the collaborators must then be present.
   */
  function ProcessPacket(s: Session, chunk: nat, payload: seq<byte>, beginOk: bool, written: nat,
                         cancelled: bool, v: Verdict): (r: Session)
    requires Wf(s)
    requires chunk == s.requested ==> s.active
    requires Accepts(s, chunk, |payload|) ==> s.bound
    ensures Wf(r) && LogsExtend(s, r)
    ensures r.bound == s.bound && r.fwSize == s.fwSize && r.chunkSize == s.chunkSize && r.maxRetries == s.maxRetries
    ensures r.totalChunks == s.totalChunks
    ensures r.active ==> s.active
    ensures !cancelled ==> r.active == s.active
    ensures !Accepts(s, chunk, |payload|) ==> r == s
    ensures InRange(s) && chunk != s.totalChunks ==> InRange(r)
  {
    if chunk != s.requested then s
    else if |payload| != ExpectedChunkSize(s.fwSize, s.chunkSize, s.totalChunks, s.requested) then s
    else AcceptChunk(s, chunk, payload, beginOk, written, cancelled, v)
  }

  /**
   * The part of `Process_Firmware_Packet` after both checks passed: detach the
   * watchdog, `begin` the updater for chunk 0, write the chunk, fold it into the
   * hash, advance the index, run the progress callback, restore the retry
   * budget and request the next chunk; a failing `begin` or a short `write`
   * restarts the transfer, a cancelling progress callback gives up.
   */
  function AcceptChunk(s: Session, chunk: nat, payload: seq<byte>, beginOk: bool, written: nat,
                       cancelled: bool, v: Verdict): (r: Session)
    requires Started(s) && chunk == s.requested
    ensures Started(r) && LogsExtend(s, r)
    ensures r.bound == s.bound && r.fwSize == s.fwSize && r.chunkSize == s.chunkSize
    ensures r.maxRetries == s.maxRetries && r.totalChunks == s.totalChunks
    ensures r.active ==> s.active
    ensures !cancelled ==> r.active == s.active
    ensures chunk < s.totalChunks ==> r.requested <= s.totalChunks
  {
    var s1 := s.(armed := false,
                 calls := s.calls.(begins := if chunk == 0 then s.calls.begins + [s.fwSize] else s.calls.begins));
    if chunk == 0 && !beginOk then HandleFailure(s1, RetryUpdate, None)
    else
      var s2 := s1.(calls := s1.calls.(flash := s1.calls.flash + payload));
      if written != |payload| then HandleFailure(s2, RetryUpdate, None)
      else
        var s3 := s2.(requested := chunk + 1,
                      calls := s2.calls.(hashed := s2.calls.hashed + payload,
                                         progress := s2.calls.progress + [chunk + 1]));
        if cancelled then HandleFailure(s3.(active := false), RetryNothing, None)
        else RequestNext(s3.(retries := s3.maxRetries), Some(v))
  }

  /**
   * `Handle_Request_Timeout`: the watchdog fires (and is no longer armed); the
   * failure is always answered by re-requesting the current chunk. The handler
   * reads the timeout from the update callback, so a session must be active,
   * and answers through the publish or state callback, so they must be present.
   */
  function Timeout(s: Session, v: Verdict): (r: Session)
    requires Wf(s) && s.active && s.bound && s.armed
    ensures Wf(r) && SameConfig(s, r) && LogsExtend(s, r)
    ensures r.requested == s.requested || r.requested == 0
  {
    HandleFailure(s.(armed := false), RetryChunk, Some(v))
  }
}
