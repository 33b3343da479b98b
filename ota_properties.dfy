/**
 * Properties of the `OTA_Handler` behaviour: what each kind of packet, failure
 * and timeout does to a session, how the retry budget runs out (or does not),
 * and what a complete in-order transfer leaves in flash and in the hash.
 */
module OtaProperties {
  import opened ChunkLayout
  import opened OtaSpec

  /** The indices `lo, lo + 1, ..., hi - 1`. */
  function Indices(lo: nat, hi: nat): (r: seq<nat>)
    ensures |r| == if lo <= hi then hi - lo else 0
    ensures forall i :: 0 <= i < |r| ==> r[i] == lo + i
    decreases hi
  {
    if hi <= lo then [] else Indices(lo, hi - 1) + [hi - 1]
  }

  /** `n` copies of `x`. */
  function Repeat(x: nat, n: nat): (r: seq<nat>)
    ensures |r| == n
    ensures forall i :: 0 <= i < n ==> r[i] == x
  {
    if n == 0 then [] else Repeat(x, n - 1) + [x]
  }

  /** The bytes of chunk `index` of `image` when it is sent in `chunkSize`-byte chunks. */
  function ChunkOf(image: seq<byte>, chunkSize: nat, index: nat): (chunk: seq<byte>)
    requires chunkSize > 0
    requires index < TotalChunks(|image|, chunkSize)
    ensures |chunk| == LayoutChunkSize(|image|, chunkSize, index)
  {
    ChunkWithinImage(|image|, chunkSize, index);
    image[index * chunkSize .. index * chunkSize + LayoutChunkSize(|image|, chunkSize, index)]
  }

  // ---------------------------------------------------------------------------
  // Handle_Failure and its three responses
  // ---------------------------------------------------------------------------

  /**
   * With no retries left, every response is terminal: FAILED is reported, the
   * update callback receives `false`, the finish callback runs, and nothing else
   * (index, budget, watchdog, flash, hash, requests) changes.
   */
  lemma ExhaustedBudgetIsTerminal(s: Session, response: FailureResponse, v: Option<Verdict>)
    requires Started(s) && s.retries == 0
    requires response == RetryChunk && s.requested >= s.totalChunks ==> v.Some?
    ensures var r := HandleFailure(s, response, v);
      && r.calls.statuses == s.calls.statuses + [Failed]
      && r.calls.results == s.calls.results + [false]
      && r.calls.finishes == s.calls.finishes + 1
      && r.(calls := s.calls) == s
      && r.calls.requests == s.calls.requests && r.calls.flash == s.calls.flash
      && r.calls.hashed == s.calls.hashed
  {
  }

  /**
   * `RETRY_NOTHING` is terminal whatever the budget; it spends one retry when
   * there is one, and requests nothing.
   */
  lemma RetryNothingIsTerminal(s: Session)
    requires Started(s)
    ensures var r := HandleFailure(s, RetryNothing, None);
      && r.calls.statuses == s.calls.statuses + [Failed]
      && r.calls.results == s.calls.results + [false]
      && r.calls.finishes == s.calls.finishes + 1
      && r.calls.requests == s.calls.requests
      && r.requested == s.requested && r.armed == s.armed
      && r.retries == (if s.retries == 0 then 0 else s.retries - 1)
  {
  }

  /**
   * `RETRY_CHUNK` with budget left re-requests the same chunk: one retry is
   * spent, the index, flash and hash are kept, and the watchdog is re-armed.
   */
  lemma RetryChunkReRequests(s: Session, v: Option<Verdict>)
    requires Started(s) && s.retries > 0 && s.requested < s.totalChunks
    ensures var r := HandleFailure(s, RetryChunk, v);
      && r.requested == s.requested
      && r.retries == s.retries - 1
      && r.armed
      && r.calls.requests == s.calls.requests + [s.requested]
      && r.calls.flash == s.calls.flash && r.calls.hashed == s.calls.hashed
      && r.calls.statuses == s.calls.statuses && r.calls.results == s.calls.results
  {
  }

  /**
   * `RETRY_UPDATE` with budget left restarts the whole transfer from chunk 0 with
   * an empty flash and hash, and — because the restart reloads `m_retries` right
   * after it was decremented — with the FULL retry budget again.
   */
  lemma RetryUpdateRestartsWithFullBudget(s: Session)
    requires Started(s) && s.retries > 0
    ensures var r := HandleFailure(s, RetryUpdate, None);
      && AwaitingFirstChunk(r)
      && r.retries == s.maxRetries
      && r.calls.requests == s.calls.requests + [0]
      && r.calls.statuses == s.calls.statuses && r.calls.results == s.calls.results
  {
  }

  // ---------------------------------------------------------------------------
  // Finish_Firmware_Update
  // ---------------------------------------------------------------------------

  /**
   * Finalisation reports success (the update callback receives `true`) exactly
   * when the checksum comparison finds the buffers DIFFERENT and `end()`
   * succeeds: the comparison's polarity is inverted, so a matching checksum
   * never leads to success.
   */
  lemma FinishSucceedsIff(s: Session, v: Verdict)
    requires Started(s)
    ensures var r := Finish(s, v);
      (true in r.calls.results[|s.calls.results|..]) <==> (!v.checksumEqual && v.endOk)
  {
    var r := Finish(s, v);
    var added := r.calls.results[|s.calls.results|..];
    var s1 := s.(calls := s.calls.(statuses := s.calls.statuses + [Downloaded]));
    if v.checksumEqual || !v.endOk {
      var f := if v.checksumEqual then s1 else s1.(calls := s1.calls.(ends := s1.calls.ends + 1));
      assert r == HandleFailure(f, RetryUpdate, None);
      if f.retries == 0 {
        assert added == [false];
      } else {
        assert added == [];
      }
    } else {
      assert added == [true];
    }
  }

  /** The successful outcome: DOWNLOADED then UPDATING, `end()` once, `true`, finish. */
  lemma FinishSuccess(s: Session)
    requires Started(s)
    ensures var r := Finish(s, Verdict(false, true));
      && r.calls.statuses == s.calls.statuses + [Downloaded, Updating]
      && r.calls.results == s.calls.results + [true]
      && r.calls.finishes == s.calls.finishes + 1
      && r.calls.ends == s.calls.ends + 1
      && r.requested == s.requested && r.calls.flash == s.calls.flash && r.calls.hashed == s.calls.hashed
  {
  }

  /**
   * A matching checksum, as written, is handled as a checksum failure: `end()`
   * is never called and the transfer restarts (budget left) or fails.
   */
  lemma MatchingChecksumNeverSucceeds(s: Session, endOk: bool)
    requires Started(s)
    ensures var r := Finish(s, Verdict(true, endOk));
      && r.calls.ends == s.calls.ends
      && (s.retries > 0 ==> AwaitingFirstChunk(r) && r.calls.results == s.calls.results
                              && r.calls.statuses == s.calls.statuses + [Downloaded])
      && (s.retries == 0 ==> r.calls.results == s.calls.results + [false]
                               && r.calls.statuses == s.calls.statuses + [Downloaded, Failed])
  {
  }

  /** A failing `end()` after a differing checksum restarts the transfer or fails it. */
  lemma EndFailureRestartsOrFails(s: Session)
    requires Started(s)
    ensures var r := Finish(s, Verdict(false, false));
      && r.calls.ends == s.calls.ends + 1
      && (s.retries > 0 ==> AwaitingFirstChunk(r) && r.calls.results == s.calls.results)
      && (s.retries == 0 ==> r.calls.results == s.calls.results + [false])
  {
  }

  /**
   * `Request_Next_Firmware_Packet` finalises exactly when every chunk has been
   * handled: DOWNLOADED is reported next if and only if the index has reached
   * the chunk count.
   */
  lemma RequestNextFinalisesWhenDone(s: Session, v: Verdict)
    requires Started(s)
    ensures s.requested >= s.totalChunks ==> RequestNext(s, Some(v)) == Finish(s, v)
    ensures var r := RequestNext(s, Some(v));
      (|r.calls.statuses| > |s.calls.statuses| && r.calls.statuses[|s.calls.statuses|] == Downloaded)
      <==> s.requested >= s.totalChunks
    ensures var r := RequestNext(s, Some(v));
      s.requested < s.totalChunks ==> r.calls.statuses == s.calls.statuses && r.calls.results == s.calls.results
  {
  }

  // ---------------------------------------------------------------------------
  // Process_Firmware_Packet
  // ---------------------------------------------------------------------------

  /**
   * An accepted chunk that is not the last one, with every collaborator
   * succeeding: it is written and hashed, the index advances, the progress
   * callback sees the new count, the budget is refilled and the next chunk is
   * requested under a re-armed watchdog.
   */
  lemma AcceptedChunkAdvances(s: Session, chunk: nat, payload: seq<byte>, v: Verdict)
    requires Wf(s) && s.active && s.bound && Accepts(s, chunk, |payload|)
    requires chunk + 1 < s.totalChunks
    ensures var r := ProcessPacket(s, chunk, payload, true, |payload|, false, v);
      && r.requested == chunk + 1
      && r.retries == s.maxRetries
      && r.armed && r.active
      && r.calls.flash == s.calls.flash + payload
      && r.calls.hashed == s.calls.hashed + payload
      && r.calls.requests == s.calls.requests + [chunk + 1]
      && r.calls.progress == s.calls.progress + [chunk + 1]
      && r.calls.begins == (if chunk == 0 then s.calls.begins + [s.fwSize] else s.calls.begins)
      && r.calls.statuses == s.calls.statuses && r.calls.results == s.calls.results
  {
  }

  /**
   * The last chunk, accepted with every collaborator succeeding, is written and
   * hashed and then the update is finalised with a refilled budget.
   */
  lemma AcceptedFinalChunkFinalises(s: Session, chunk: nat, payload: seq<byte>, beginOk: bool, v: Verdict)
    requires Wf(s) && s.active && s.bound && Accepts(s, chunk, |payload|)
    requires chunk + 1 == s.totalChunks
    requires chunk == 0 ==> beginOk
    ensures ProcessPacket(s, chunk, payload, beginOk, |payload|, false, v)
         == Finish(s.(armed := false, requested := chunk + 1, retries := s.maxRetries,
                      calls := s.calls.(begins := if chunk == 0 then s.calls.begins + [s.fwSize] else s.calls.begins,
                                        flash := s.calls.flash + payload,
                                        hashed := s.calls.hashed + payload,
                                        progress := s.calls.progress + [chunk + 1])), v)
  {
  }

  /**
   * A short write restarts the transfer when budget is left; with none left it
   * is terminal, and the chunk is then in flash but not in the hash and the
   * index does not advance.
   */
  lemma ShortWriteRestartsOrFails(s: Session, chunk: nat, payload: seq<byte>, written: nat,
                                  cancelled: bool, v: Verdict)
    requires Wf(s) && s.active && s.bound && Accepts(s, chunk, |payload|)
    requires written != |payload|
    ensures var r := ProcessPacket(s, chunk, payload, true, written, cancelled, v);
      && (s.retries > 0 ==> AwaitingFirstChunk(r) && r.calls.requests == s.calls.requests + [0]
                              && r.calls.results == s.calls.results)
      && (s.retries == 0 ==> r.requested == s.requested && !r.armed
                               && r.calls.flash == s.calls.flash + payload
                               && r.calls.hashed == s.calls.hashed
                               && r.calls.results == s.calls.results + [false])
  {
  }

  /**
   * A failing `begin` for chunk 0 restarts the transfer when budget is left; with
   * none left it is terminal and nothing is written.
   */
  lemma BeginFailureRestartsOrFails(s: Session, payload: seq<byte>, written: nat, cancelled: bool, v: Verdict)
    requires Wf(s) && s.active && s.bound && Accepts(s, 0, |payload|)
    ensures var r := ProcessPacket(s, 0, payload, false, written, cancelled, v);
      && r.calls.begins == s.calls.begins + [s.fwSize]
      && (s.retries > 0 ==> AwaitingFirstChunk(r) && r.calls.requests == s.calls.requests + [0]
                              && r.calls.results == s.calls.results)
      && (s.retries == 0 ==> r.requested == 0 && r.calls.flash == s.calls.flash
                               && r.calls.hashed == s.calls.hashed
                               && r.calls.results == s.calls.results + [false])
  {
  }

  /**
   * The `cancelled` outcome of the progress callback: the session is found
   * ended after the chunk was written, hashed and counted, so the failure path
   * runs instead of the next request. Nothing more is requested, FAILED and
   * `false` are reported, and — the budget not yet being refilled at that
   * point — one retry is spent if there was one. (The `Stop_Firmware_Update`
   * that ends the session from inside the callback is not part of this step.)
   */
  lemma CancelDuringProgressAborts(s: Session, chunk: nat, payload: seq<byte>, v: Verdict)
    requires Wf(s) && s.active && s.bound && Accepts(s, chunk, |payload|)
    ensures var r := ProcessPacket(s, chunk, payload, true, |payload|, true, v);
      && !r.active && !r.armed
      && r.requested == chunk + 1
      && r.calls.flash == s.calls.flash + payload && r.calls.hashed == s.calls.hashed + payload
      && r.calls.requests == s.calls.requests
      && r.calls.statuses == s.calls.statuses + [Failed]
      && r.calls.results == s.calls.results + [false]
      && r.retries == (if s.retries == 0 then 0 else s.retries - 1)
  {
  }

  /**
   * As written, once the index has reached the chunk count (as it does after a
   * successful finalisation), a packet for index `m_total_chunks` still passes
   * both checks — its expected size is the remainder — and is written, hashed
   * and finalised a second time, leaving the index past the layout.
   */
  lemma OverrunAfterCompletion(s: Session, payload: seq<byte>)
    requires Wf(s) && s.active && s.bound && s.requested == s.totalChunks
    requires |payload| == s.fwSize % s.chunkSize
    ensures Accepts(s, s.totalChunks, |payload|)
    ensures var r := ProcessPacket(s, s.totalChunks, payload, true, |payload|, false, Verdict(false, true));
      && r.requested == s.totalChunks + 1
      && r.calls.flash == s.calls.flash + payload && r.calls.hashed == s.calls.hashed + payload
      && r.calls.statuses == s.calls.statuses + [Downloaded, Updating]
      && r.calls.results == s.calls.results + [true]
      && r.calls.finishes == s.calls.finishes + 1
  {
    var j := s.totalChunks;
    AcceptedChunkOutcome(s, j, payload, Verdict(false, true));
    FinishSuccess(s.(armed := false, requested := j + 1, retries := s.maxRetries,
                     calls := s.calls.(flash := s.calls.flash + payload,
                                       hashed := s.calls.hashed + payload,
                                       progress := s.calls.progress + [j + 1])));
  }

  // ---------------------------------------------------------------------------
  // Runs of events
  // ---------------------------------------------------------------------------

  /**
   * `n` successive watchdog timeouts while budget is left: each re-requests the
   * same chunk and spends one retry.
   */
  function TimeoutRun(s: Session, n: nat, v: Verdict): (r: Session)
    requires Wf(s) && s.active && s.bound && s.armed && s.requested < s.totalChunks && n <= s.retries
    ensures Wf(r) && SameConfig(s, r) && r.armed
    ensures r.requested == s.requested && r.retries == s.retries - n
    ensures r.calls.requests == s.calls.requests + Repeat(s.requested, n)
    ensures r.calls.statuses == s.calls.statuses && r.calls.results == s.calls.results
    ensures r.calls.flash == s.calls.flash && r.calls.hashed == s.calls.hashed
    decreases n
  {
    if n == 0 then s
    else
      var p := TimeoutRun(s, n - 1, v);
      RetryChunkReRequests(p.(armed := false), Some(v));
      Timeout(p, v)
  }

  /**
   * The retry budget bounds timeouts: after `m_retries` timeouts of the same
   * chunk the next one fails the update, and the watchdog is not re-armed.
   */
  lemma {:induction false} TimeoutsExhaustBudget(s: Session, v: Verdict)
    requires Wf(s) && s.active && s.bound && s.armed && s.requested < s.totalChunks
    ensures var p := TimeoutRun(s, s.retries, v);
      var r := Timeout(p, v);
      && r.calls.statuses == s.calls.statuses + [Failed]
      && r.calls.results == s.calls.results + [false]
      && r.calls.requests == s.calls.requests + Repeat(s.requested, s.retries)
      && !r.armed
  {
    var p := TimeoutRun(s, s.retries, v);
    ExhaustedBudgetIsTerminal(p.(armed := false), RetryChunk, Some(v));
  }

  /**
   * `n` successive short writes of chunk 0 (the updater accepts `begin` but
   * writes fewer bytes than it was given). Because every restart refills the
   * budget, failures answered by a restart never exhaust it: however many
   * attempts fail, the session is back at chunk 0 with the full budget and the
   * update is never reported as failed.
   */
  function ShortWriteRun(s: Session, payload: seq<byte>, written: nat, n: nat): (r: Session)
    requires Wf(s) && s.active && s.bound && AwaitingFirstChunk(s) && s.maxRetries > 0
    requires |payload| == ExpectedChunkSize(s.fwSize, s.chunkSize, s.totalChunks, 0)
    requires written != |payload|
    ensures Wf(r) && r.active && AwaitingFirstChunk(r) && SameConfig(s, r)
    ensures r.calls.requests == s.calls.requests + Repeat(0, n)
    ensures r.calls.begins == s.calls.begins + Repeat(s.fwSize, n)
    ensures r.calls.statuses == s.calls.statuses && r.calls.results == s.calls.results
    decreases n
  {
    if n == 0 then s
    else
      var p := ShortWriteRun(s, payload, written, n - 1);
      ShortWriteRestartsOrFails(p, 0, payload, written, false, Verdict(false, false));
      ProcessPacket(p, 0, payload, true, written, false, Verdict(false, false))
  }

  /**
   * The first `k` chunks of `image` delivered in order, each exactly as laid
   * out, with every collaborator succeeding and `v` as what finalisation finds.
   */
  function DeliverInOrder(s: Session, image: seq<byte>, k: nat, v: Verdict): (r: Session)
    requires Wf(s) && s.active && s.bound && AwaitingFirstChunk(s) && s.fwSize == |image|
    requires k <= s.totalChunks
    ensures Wf(r) && r.active && SameConfig(s, r)
    ensures k < s.totalChunks ==> Delivered(s, image, r, k)
    decreases k
  {
    if k == 0 then s
    else
      var p := DeliverInOrder(s, image, k - 1, v);
      DeliverNext(s, image, p, k - 1, v);
      ProcessPacket(p, k - 1, ChunkOf(image, s.chunkSize, k - 1), true, |ChunkOf(image, s.chunkSize, k - 1)|,
                    false, v)
  }

  /** The state after the first `k` chunks of `image` arrived in order (`k` below the chunk count). */
  predicate Delivered(s: Session, image: seq<byte>, r: Session, k: nat)
    requires Started(s) && s.fwSize == |image| && k <= s.totalChunks
  {
    && Wf(r) && r.active && SameConfig(s, r)
    && r.requested == k
    && r.retries == s.maxRetries
    && r.armed
    && k * s.chunkSize <= |image|
    && r.calls.flash == image[..k * s.chunkSize]
    && r.calls.hashed == image[..k * s.chunkSize]
    && r.calls.requests == s.calls.requests + Indices(1, k + 1)
    && r.calls.progress == s.calls.progress + Indices(1, k + 1)
    && r.calls.statuses == s.calls.statuses && r.calls.results == s.calls.results
    && r.calls.finishes == s.calls.finishes
  }

  /**
   * One more chunk delivered in order: from the state after `j` chunks, chunk `j`
   * is accepted, and either the state after `j + 1` chunks is reached or, for
   * the last chunk, finalisation runs on the complete image.
   */
  lemma DeliverNext(s: Session, image: seq<byte>, p: Session, j: nat, v: Verdict)
    requires Wf(s) && s.active && s.bound && AwaitingFirstChunk(s) && s.fwSize == |image|
    requires j < s.totalChunks
    requires j == 0 ==> p == s
    requires j > 0 ==> Delivered(s, image, p, j)
    ensures p.requested == j && Wf(p) && p.active
    ensures var chunk := ChunkOf(image, s.chunkSize, j);
      var r := ProcessPacket(p, j, chunk, true, |chunk|, false, v);
      && (j + 1 < s.totalChunks ==> Delivered(s, image, r, j + 1))
      && (j + 1 == s.totalChunks ==>
            r == Finish(p.(armed := false, requested := j + 1, retries := s.maxRetries,
                           calls := p.calls.(begins := if j == 0 then p.calls.begins + [s.fwSize] else p.calls.begins,
                                             flash := image, hashed := image,
                                             progress := p.calls.progress + [j + 1])), v))
  {
    var cs := s.chunkSize;
    var chunk := ChunkOf(image, cs, j);
    ChunkWithinImage(|image|, cs, j);
    assert p.calls.flash == image[..j * cs] && p.calls.hashed == image[..j * cs];
    assert image[..j * cs] + chunk == image[..j * cs + |chunk|];
    AcceptedChunkOutcome(p, j, chunk, v);
    if j + 1 < s.totalChunks {
      assert j * cs + |chunk| == (j + 1) * cs;
      assert Indices(1, j + 1) + [j + 1] == Indices(1, j + 2);
    } else {
      assert image[..j * cs + |chunk|] == image;
    }
  }

  /** What accepting a chunk with every collaborator succeeding does, in either position. */
  lemma AcceptedChunkOutcome(p: Session, j: nat, chunk: seq<byte>, v: Verdict)
    requires Wf(p) && p.active && p.bound && Accepts(p, j, |chunk|)
    ensures var r := ProcessPacket(p, j, chunk, true, |chunk|, false, v);
      var q := p.(armed := false, requested := j + 1, retries := p.maxRetries,
                  calls := p.calls.(begins := if j == 0 then p.calls.begins + [p.fwSize] else p.calls.begins,
                                    flash := p.calls.flash + chunk,
                                    hashed := p.calls.hashed + chunk,
                                    progress := p.calls.progress + [j + 1]));
      && (j + 1 < p.totalChunks ==> r == q.(armed := true, calls := q.calls.(requests := q.calls.requests + [j + 1])))
      && (j + 1 >= p.totalChunks ==> r == Finish(q, v))
  {
  }

  /**
   * A complete in-order transfer writes and hashes exactly the image. If the
   * checksum comparison finds the buffers different and `end()` succeeds, the
   * update is reported as successful once.
   */
  lemma CompleteTransferSucceeds(s: Session, image: seq<byte>)
    requires Wf(s) && s.active && s.bound && AwaitingFirstChunk(s) && s.fwSize == |image|
    ensures var r := DeliverInOrder(s, image, s.totalChunks, Verdict(false, true));
      && r.calls.flash == image && r.calls.hashed == image
      && r.calls.statuses == s.calls.statuses + [Downloaded, Updating]
      && r.calls.results == s.calls.results + [true]
      && r.calls.finishes == s.calls.finishes + 1
      && r.requested == s.totalChunks
      && Wf(r) && r.active && SameConfig(s, r)
  {
    var n := s.totalChunks;
    var j := n - 1;
    var v := Verdict(false, true);
    var p := DeliverInOrder(s, image, j, v);
    DeliverNext(s, image, p, j, v);
    var chunk := ChunkOf(image, s.chunkSize, j);
    var q := p.(armed := false, requested := j + 1, retries := s.maxRetries,
                calls := p.calls.(begins := if j == 0 then p.calls.begins + [s.fwSize] else p.calls.begins,
                                  flash := image, hashed := image,
                                  progress := p.calls.progress + [j + 1]));
    assert DeliverInOrder(s, image, n, v) == Finish(q, v);
    FinishSuccess(q);
  }

  /**
   * As written, a complete transfer whose checksum comparison finds the buffers
   * EQUAL is discarded: with budget configured the update restarts from chunk 0
   * with an empty flash, and nothing is reported to the update callback.
   */
  lemma CompleteTransferWithMatchingChecksumRestarts(s: Session, image: seq<byte>, endOk: bool)
    requires Wf(s) && s.active && s.bound && AwaitingFirstChunk(s) && s.fwSize == |image| && s.maxRetries > 0
    ensures var r := DeliverInOrder(s, image, s.totalChunks, Verdict(true, endOk));
      && AwaitingFirstChunk(r)
      && r.calls.flash == [] && r.calls.hashed == []
      && r.calls.results == s.calls.results
      && r.calls.statuses == s.calls.statuses + [Downloaded]
  {
    var n := s.totalChunks;
    var j := n - 1;
    var v := Verdict(true, endOk);
    var p := DeliverInOrder(s, image, j, v);
    DeliverNext(s, image, p, j, v);
    var chunk := ChunkOf(image, s.chunkSize, j);
    var q := p.(armed := false, requested := j + 1, retries := s.maxRetries,
                calls := p.calls.(begins := if j == 0 then p.calls.begins + [s.fwSize] else p.calls.begins,
                                  flash := image, hashed := image,
                                  progress := p.calls.progress + [j + 1]));
    assert DeliverInOrder(s, image, n, v) == Finish(q, v);
    MatchingChecksumNeverSucceeds(q, endOk);
  }

  /**
   * A complete successful transfer followed by one more packet for index
   * `m_total_chunks` with the remainder size reports success twice.
   */
  lemma OverrunAfterCompleteTransfer(s: Session, image: seq<byte>, payload: seq<byte>)
    requires Wf(s) && s.active && s.bound && AwaitingFirstChunk(s) && s.fwSize == |image|
    requires |payload| == |image| % s.chunkSize
    ensures var done := DeliverInOrder(s, image, s.totalChunks, Verdict(false, true));
      var r := ProcessPacket(done, s.totalChunks, payload, true, |payload|, false, Verdict(false, true));
      && r.calls.results == s.calls.results + [true] + [true]
      && r.calls.finishes == s.calls.finishes + 2
      && r.requested == s.totalChunks + 1
  {
    var done := DeliverInOrder(s, image, s.totalChunks, Verdict(false, true));
    CompleteTransferSucceeds(s, image);
    assert done.requested == done.totalChunks == s.totalChunks;
    OverrunAfterCompletion(done, payload);
  }

  /**
   * A terminal failure does not end the session: `m_fw_callback` stays set, so
   * a late packet for the current index is still accepted after FAILED and
   * `false` were reported, and the download carries on with the next request.
   */
  lemma LatePacketResumesFailedSession(s: Session, payload: seq<byte>, v: Verdict, w: Verdict)
    requires Wf(s) && s.active && s.bound && s.armed && s.retries == 0
    requires s.requested + 1 < s.totalChunks
    requires |payload| == s.chunkSize
    ensures var failed := Timeout(s, v);
      && failed.calls.results == s.calls.results + [false]
      && failed.calls.statuses == s.calls.statuses + [Failed]
      && failed.active && failed.requested == s.requested
      && var r := ProcessPacket(failed, s.requested, payload, true, |payload|, false, w);
        && r.requested == s.requested + 1 && r.armed
        && r.calls.requests == failed.calls.requests + [s.requested + 1]
        && r.calls.results == failed.calls.results
  {
    var failed := Timeout(s, v);
    ExhaustedBudgetIsTerminal(s.(armed := false), RetryChunk, Some(v));
    AcceptedChunkAdvances(failed, s.requested, payload, w);
  }
}
