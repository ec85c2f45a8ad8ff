/** `DiscordDownloader`: resolves the latest version, streams the archive to
    the downloads directory chunk by chunk, and reports progress and one
    completion signal. The network is replaced by its observable results (the
    final URL of the HEAD request, the chunks of the GET body), and the UI
    thread's `cancel()` by the moment at which it lands. */
module Download {
  import opened Wrappers
  import VersionInfo
  import Signals

  type Chunk = seq<bv8>

  /** The message part of a progress signal. The per-chunk message is
      "Descargando: x/y MB" rendered with floats; it is kept as its two
      integer inputs. */
  datatype Note = Text(text: string) | Megabytes(downloaded: nat, total: int)

  /** The downloader's Qt signals, in the order they are emitted. */
  datatype DownloadEvent =
    | Progress(percent: int, note: Note)
    | VersionDetected(version: string)
    | Completed(success: bool, filepath: string, error: string)

  /** Outcome of the HEAD request: the URL after redirects, or an exception. */
  datatype HeadResult = HeadFailed | Resolved(finalUrl: string)

  /** Outcome of the streamed GET. `RequestFailed` stands for every exception
      raised before the file is opened (connection error, non-2xx status,
      unparseable content-length). `broken` means the body raised an exception
      after the listed chunks. `contentLength` is 0 when the header is absent. */
  datatype Response =
    | RequestFailed
    | Streamed(contentLength: int, chunks: seq<Chunk>, broken: bool)

  /** When the UI thread's `cancel()` lands, relative to the checks of
      `should_cancel`. `DuringTransfer(k)` lands just before the check of
      chunk `k`; when the body has fewer chunks it lands after the transfer. */
  datatype CancelTiming =
    | NoCancel
    | BeforeDownload
    | DuringTransfer(chunk: nat)
    | AfterTransfer

  const QueryingNote: Note := Text("Consultando servidores de Discord...")
  const VerifyingNote: Note := Text("Verificando archivo...")
  const DoneNote: Note := Text("¡Descarga completada!")
  const NoVersionError: string := "No se pudo detectar la última versión de Discord"
  const DownloadError: string := "Error al descargar el archivo"
  const CancelledError: string := "CANCELLED"

  function StartNote(version: string): Note {
    Text("Descargando Discord " + version + "...")
  }

  /** `download_dir / f"discord-{version}.tar.gz"`. */
  function TargetPath(dir: string, version: string): string {
    dir + "/discord-" + version + ".tar.gz"
  }

  /** `10 + int(80 * downloaded / total_size)`; for non-negative integers the
      truncated quotient is integer division. */
  function Percent(downloaded: nat, total: int): int
    requires total > 0
  {
    10 + (80 * downloaded) / total
  }

  /** The bytes written for a sequence of chunks. */
  function Flatten(chunks: seq<Chunk>): seq<bv8> {
    if chunks == [] then []
    else Flatten(chunks[..|chunks| - 1]) + chunks[|chunks| - 1]
  }

  /** The progress signals the loop emits for `chunks`: one per non-empty
      chunk, and only when the content length is positive. */
  function ChunkEvents(chunks: seq<Chunk>, total: int): seq<DownloadEvent> {
    if chunks == [] then []
    else
      var last := chunks[|chunks| - 1];
      var done := |Flatten(chunks)|;
      ChunkEvents(chunks[..|chunks| - 1], total)
      + (if |last| > 0 && total > 0 then [Progress(Percent(done, total), Megabytes(done, total))] else [])
  }

  // ---------------------------------------------------------------------
  // The progress formula

  lemma MulMonotone(t: int, x: int, y: int)
    requires 0 <= t && x <= y
    ensures t * x <= t * y
  {
    assert t * y - t * x == t * (y - x);
  }

  /** Integer division by a positive divisor is monotone. */
  lemma DivMonotone(a: nat, b: nat, t: int)
    requires 0 < t && a <= b
    ensures a / t <= b / t
  {
    var qa, qb := a / t, b / t;
    assert t * qa + a % t == a && 0 <= a % t;
    assert t * qb + b % t == b && b % t < t;
    if qa > qb {
      MulMonotone(t, qb + 1, qa);
    }
  }

  /** With `downloaded <= total` the percentage lies in the band [10, 90]. */
  lemma PercentInBand(downloaded: nat, total: int)
    requires 0 < total && downloaded <= total
    ensures 10 <= Percent(downloaded, total) <= 90
  {
    MulMonotone(80, downloaded, total);
    DivMonotone(80 * downloaded, 80 * total, total);
    var q := (80 * total) / total;
    assert total * q + (80 * total) % total == 80 * total;
    if q > 80 {
      MulMonotone(total, 81, q);
    } else if q < 80 {
      MulMonotone(total, q, 79);
    }
  }

  /** More bytes never give a smaller percentage. */
  lemma PercentMonotone(d1: nat, d2: nat, total: int)
    requires 0 < total && d1 <= d2
    ensures Percent(d1, total) <= Percent(d2, total)
  {
    MulMonotone(80, d1, d2);
    DivMonotone(80 * d1, 80 * d2, total);
  }

  lemma {:induction false} FlattenPrefixLength(chunks: seq<Chunk>, k: nat)
    requires k <= |chunks|
    ensures |Flatten(chunks[..k])| <= |Flatten(chunks)|
    decreases |chunks|
  {
    if k < |chunks| {
      var init := chunks[..|chunks| - 1];
      assert init[..k] == chunks[..k];
      FlattenPrefixLength(init, k);
    } else {
      assert chunks[..k] == chunks;
    }
  }

  /** Every per-chunk progress value is a progress signal whose percentage is
      at most the one for everything written so far, and at least 10. */
  lemma {:induction false} ChunkEventsBelowLast(chunks: seq<Chunk>, total: int)
    requires total > 0
    ensures forall e :: e in ChunkEvents(chunks, total) ==>
      e.Progress? && 10 <= e.percent <= Percent(|Flatten(chunks)|, total)
  {
    if chunks != [] {
      var init := chunks[..|chunks| - 1];
      ChunkEventsBelowLast(init, total);
      assert |Flatten(init)| <= |Flatten(chunks)|;
      PercentMonotone(|Flatten(init)|, |Flatten(chunks)|, total);
    }
  }

  /** When the server sent no more bytes than its content-length, every
      per-chunk percentage lies in [10, 90]. */
  lemma ChunkProgressInBand(chunks: seq<Chunk>, total: int)
    requires total > 0 && |Flatten(chunks)| <= total
    ensures forall e :: e in ChunkEvents(chunks, total) ==>
      e.Progress? && 10 <= e.percent <= 90
  {
    ChunkEventsBelowLast(chunks, total);
    PercentInBand(|Flatten(chunks)|, total);
  }

  /** The per-chunk percentages never decrease. */
  lemma {:induction false} ChunkProgressMonotone(chunks: seq<Chunk>, total: int)
    requires total > 0
    ensures forall i, j :: 0 <= i <= j < |ChunkEvents(chunks, total)| ==>
      ChunkEvents(chunks, total)[i].Progress? && ChunkEvents(chunks, total)[j].Progress?
      && ChunkEvents(chunks, total)[i].percent <= ChunkEvents(chunks, total)[j].percent
  {
    if chunks != [] {
      var init := chunks[..|chunks| - 1];
      ChunkProgressMonotone(init, total);
      ChunkEventsBelowLast(init, total);
      var before := ChunkEvents(init, total);
      forall e | e in before ensures e.percent <= Percent(|Flatten(chunks)|, total) {
        PercentMonotone(|Flatten(init)|, |Flatten(chunks)|, total);
      }
    }
  }

  /** Without a positive content-length no per-chunk progress is emitted. */
  lemma {:induction false} NoChunkProgressWithoutLength(chunks: seq<Chunk>, total: int)
    requires total <= 0
    ensures ChunkEvents(chunks, total) == []
  {
    if chunks != [] {
      NoChunkProgressWithoutLength(chunks[..|chunks| - 1], total);
    }
  }

  // ---------------------------------------------------------------------
  // download_discord, as a function of its inputs

  /** The chunk index whose check first sees the flag, if any. */
  function StopIndex(cancelledBefore: bool, cancelAt: Option<nat>): Option<nat> {
    if cancelledBefore then Some(0) else cancelAt
  }

  predicate CancelledInLoop(response: Response, stop: Option<nat>) {
    response.Streamed? && stop.Some? && stop.value < |response.chunks|
  }

  /** The signals of `download_discord`. */
  function TransferEvents(version: string, response: Response, stop: Option<nat>): seq<DownloadEvent> {
    [Progress(10, StartNote(version))]
    + match response
      case RequestFailed => []
      case Streamed(total, chunks, broken) =>
        if CancelledInLoop(response, stop) then ChunkEvents(chunks[..stop.value], total)
        else if broken then ChunkEvents(chunks, total)
        else ChunkEvents(chunks, total) + [Progress(95, VerifyingNote)]
  }

  /** The download directory after `download_discord`. */
  function TransferFiles(files: map<string, seq<bv8>>, target: string, response: Response,
                         stop: Option<nat>): map<string, seq<bv8>> {
    match response
    case RequestFailed => files
    case Streamed(_, chunks, _) =>
      if CancelledInLoop(response, stop) then files - {target}
      else files[target := Flatten(chunks)]
  }

  /** The return value of `download_discord`. */
  function TransferResult(target: string, response: Response, stop: Option<nat>): Option<string> {
    match response
    case RequestFailed => None
    case Streamed(_, chunks, broken) =>
      if CancelledInLoop(response, stop) || broken || |Flatten(chunks)| == 0 then None
      else Some(target)
  }

  /** A cancellation seen by the loop deletes the partial file and returns
      None; a returned path names a non-empty file holding exactly the
      streamed bytes. */
  lemma TransferOutcome(files: map<string, seq<bv8>>, target: string, response: Response, stop: Option<nat>)
    ensures CancelledInLoop(response, stop) ==>
      TransferResult(target, response, stop).None? && target !in TransferFiles(files, target, response, stop)
    ensures TransferResult(target, response, stop).Some? ==>
      var after := TransferFiles(files, target, response, stop);
      TransferResult(target, response, stop).value == target && target in after
      && |after[target]| > 0 && after[target] == Flatten(response.chunks)
    ensures forall p :: p != target ==>
      (p in TransferFiles(files, target, response, stop) <==> p in files)
  {
  }

  /** When the server sends no more bytes than its content length, every
      signal of `download_discord` is a progress signal in [10, 95], whether
      the loop runs to the end or stops at a cancellation. */
  lemma TransferProgressInBand(version: string, response: Response, stop: Option<nat>)
    requires response.Streamed? && response.contentLength > 0
    requires |Flatten(response.chunks)| <= response.contentLength
    ensures forall e :: e in TransferEvents(version, response, stop) ==>
      e.Progress? && 10 <= e.percent <= 95
  {
    var total, chunks := response.contentLength, response.chunks;
    if CancelledInLoop(response, stop) {
      FlattenPrefixLength(chunks, stop.value);
      ChunkProgressInBand(chunks[..stop.value], total);
    } else {
      ChunkProgressInBand(chunks, total);
    }
  }

  /** `get_latest_version_info` after the HEAD request. */
  function ResolvedVersion(head: HeadResult): Option<VersionInfo.LatestVersion> {
    match head
    case HeadFailed => None
    case Resolved(url) => VersionInfo.ExtractVersion(url)
  }

  /** The chunk at which `cancel()` lands inside the loop, if it does. */
  function LoopCancel(cancel: CancelTiming): Option<nat> {
    if cancel.DuringTransfer? then Some(cancel.chunk) else None
  }

  /** The signals with which `run` reports the result of `download_discord`,
      given whether the flag is set at the final check. */
  function ReportEvents(result: Option<string>, cancelled: bool): seq<DownloadEvent> {
    if result.Some? && !cancelled then [Progress(100, DoneNote), Completed(true, result.value, "")]
    else if cancelled then [Completed(false, "", CancelledError)]
    else [Completed(false, "", DownloadError)]
  }

  /** The signals of `run` from the call to `download_discord` on. By the final
      check every cancellation other than none has landed. */
  function DownloadPhaseEvents(dir: string, version: string, response: Response,
                               cancel: CancelTiming): seq<DownloadEvent> {
    var stop := LoopCancel(cancel);
    TransferEvents(version, response, stop)
    + ReportEvents(TransferResult(TargetPath(dir, version), response, stop), !cancel.NoCancel?)
  }

  /** The signals of `run` for a downloader whose flag is `cancelledBefore`
      when it starts, given what `get_latest_version_info` returned. */
  function RunEvents(dir: string, found: Option<VersionInfo.LatestVersion>, response: Response,
                     cancel: CancelTiming, cancelledBefore: bool): seq<DownloadEvent> {
    [Progress(5, QueryingNote)]
    + match found
      case None => [Completed(false, "", NoVersionError)]
      case Some(info) =>
        [VersionDetected(info.version)]
        + if cancelledBefore || cancel.BeforeDownload? then []
          else DownloadPhaseEvents(dir, info.version, response, cancel)
  }

  /** The download directory after `run`. */
  function RunFiles(files: map<string, seq<bv8>>, dir: string, found: Option<VersionInfo.LatestVersion>,
                    response: Response, cancel: CancelTiming, cancelledBefore: bool): map<string, seq<bv8>> {
    match found
    case None => files
    case Some(info) =>
      if cancelledBefore || cancel.BeforeDownload? then files
      else TransferFiles(files, TargetPath(dir, info.version), response, LoopCancel(cancel))
  }

  // ---------------------------------------------------------------------
  // Terminal events

  predicate IsCompletion(e: DownloadEvent) {
    e.Completed?
  }

  /** Number of `download_completed` signals among `events`. */
  function Terminals(events: seq<DownloadEvent>): nat {
    Signals.Count(events, IsCompletion)
  }

  lemma {:induction false} ChunkEventsNotTerminal(chunks: seq<Chunk>, total: int)
    ensures Terminals(ChunkEvents(chunks, total)) == 0
  {
    if chunks != [] {
      var init := chunks[..|chunks| - 1];
      ChunkEventsNotTerminal(init, total);
      var last := chunks[|chunks| - 1];
      var tail: seq<DownloadEvent> :=
        if |last| > 0 && total > 0
        then [Progress(Percent(|Flatten(chunks)|, total), Megabytes(|Flatten(chunks)|, total))]
        else [];
      Signals.CountAppend(ChunkEvents(init, total), tail, IsCompletion);
      Signals.CountNone(tail, IsCompletion);
    }
  }

  lemma TransferEventsNotTerminal(version: string, response: Response, stop: Option<nat>)
    ensures Terminals(TransferEvents(version, response, stop)) == 0
  {
    var start := [Progress(10, StartNote(version))];
    Signals.CountNone(start, IsCompletion);
    match response
    case RequestFailed =>
      assert TransferEvents(version, response, stop) == start + [];
      Signals.CountAppend(start, [], IsCompletion);
    case Streamed(total, chunks, broken) =>
      if CancelledInLoop(response, stop) {
        ChunkEventsNotTerminal(chunks[..stop.value], total);
        Signals.CountAppend(start, ChunkEvents(chunks[..stop.value], total), IsCompletion);
      } else if broken {
        ChunkEventsNotTerminal(chunks, total);
        Signals.CountAppend(start, ChunkEvents(chunks, total), IsCompletion);
      } else {
        var verifying := [Progress(95, VerifyingNote)];
        Signals.CountNone(verifying, IsCompletion);
        ChunkEventsNotTerminal(chunks, total);
        Signals.CountAppend(ChunkEvents(chunks, total), verifying, IsCompletion);
        Signals.CountAppend(start, ChunkEvents(chunks, total) + verifying, IsCompletion);
      }
  }

  /** `run`'s report of a download ends in its one completion signal. */
  lemma ReportEventsOneCompletion(result: Option<string>, cancelled: bool)
    ensures Terminals(ReportEvents(result, cancelled)) == 1
    ensures ReportEvents(result, cancelled)[|ReportEvents(result, cancelled)| - 1].Completed?
  {
    Signals.OnlyLast(ReportEvents(result, cancelled), IsCompletion);
  }

  /** `run` emits at most one completion signal, and none exactly when the
      version was found and the flag was already set at the check before the
      download (the UI is then never told the download ended). */
  lemma RunTerminalCount(dir: string, found: Option<VersionInfo.LatestVersion>, response: Response,
                         cancel: CancelTiming, cancelledBefore: bool)
    ensures Terminals(RunEvents(dir, found, response, cancel, cancelledBefore))
         == if found.Some? && (cancelledBefore || cancel.BeforeDownload?) then 0 else 1
  {
    var querying := [Progress(5, QueryingNote)];
    Signals.CountNone(querying, IsCompletion);
    var events := RunEvents(dir, found, response, cancel, cancelledBefore);
    match found
    case None =>
      var failed := [Completed(false, "", NoVersionError)];
      Signals.OnlyLast(failed, IsCompletion);
      Signals.CountAppend(querying, failed, IsCompletion);
    case Some(info) =>
      var detected := [VersionDetected(info.version)];
      Signals.CountNone(detected, IsCompletion);
      if cancelledBefore || cancel.BeforeDownload? {
        assert events == querying + (detected + []);
        Signals.CountAppend(detected, [], IsCompletion);
        Signals.CountAppend(querying, detected + [], IsCompletion);
      } else {
        var stop := LoopCancel(cancel);
        var result := TransferResult(TargetPath(dir, info.version), response, stop);
        var transfer := TransferEvents(info.version, response, stop);
        var last := ReportEvents(result, !cancel.NoCancel?);
        ReportEventsOneCompletion(result, !cancel.NoCancel?);
        TransferEventsNotTerminal(info.version, response, stop);
        Signals.CountAppend(transfer, last, IsCompletion);
        Signals.CountAppend(detected, transfer + last, IsCompletion);
        Signals.CountAppend(querying, detected + (transfer + last), IsCompletion);
        assert events == querying + (detected + (transfer + last));
      }
  }

  /** A cancellation that lands after a successful transfer is reported as
      CANCELLED, yet the downloaded file stays on disk. */
  lemma CancelAfterTransferKeepsFile(files: map<string, seq<bv8>>, dir: string, info: VersionInfo.LatestVersion,
                                     total: int, chunks: seq<Chunk>)
    requires |Flatten(chunks)| > 0
    ensures var events := RunEvents(dir, Some(info), Streamed(total, chunks, false), AfterTransfer, false);
      var after := RunFiles(files, dir, Some(info), Streamed(total, chunks, false), AfterTransfer, false);
      events[|events| - 1] == Completed(false, "", CancelledError)
      && TargetPath(dir, info.version) in after
      && after[TargetPath(dir, info.version)] == Flatten(chunks)
  {
  }

  /** A cancellation seen by the loop is reported as CANCELLED and leaves no
      file at the target path. */
  lemma CancelDuringTransferRemovesFile(files: map<string, seq<bv8>>, dir: string, info: VersionInfo.LatestVersion,
                                        total: int, chunks: seq<Chunk>, k: nat)
    requires k < |chunks|
    ensures var events := RunEvents(dir, Some(info), Streamed(total, chunks, false), DuringTransfer(k), false);
      var after := RunFiles(files, dir, Some(info), Streamed(total, chunks, false), DuringTransfer(k), false);
      events[|events| - 1] == Completed(false, "", CancelledError)
      && TargetPath(dir, info.version) !in after
  {
  }

  /** A stream that breaks part-way is reported as a plain download error and
      leaves the truncated file on disk. */
  lemma BrokenStreamKeepsPartialFile(files: map<string, seq<bv8>>, dir: string, info: VersionInfo.LatestVersion,
                                     total: int, chunks: seq<Chunk>)
    ensures var events := RunEvents(dir, Some(info), Streamed(total, chunks, true), NoCancel, false);
      var after := RunFiles(files, dir, Some(info), Streamed(total, chunks, true), NoCancel, false);
      events[|events| - 1] == Completed(false, "", DownloadError)
      && after[TargetPath(dir, info.version)] == Flatten(chunks)
  {
  }

  // ---------------------------------------------------------------------
  // The downloader thread object

  class DiscordDownloader {
    const downloadDir: string
    var shouldCancel: bool
    /** Contents of the files under `downloadDir`, keyed by full path. */
    var files: map<string, seq<bv8>>
    /** Signals emitted so far, in order. */
    var events: seq<DownloadEvent>

    constructor (downloadDir: string, files: map<string, seq<bv8>>)
      ensures this.downloadDir == downloadDir && this.files == files
      ensures !shouldCancel && events == []
    {
      this.downloadDir := downloadDir;
      this.files := files;
      shouldCancel := false;
      events := [];
    }

    /** `cancel()`: raises the cooperative flag. */
    method Cancel()
      modifies this`shouldCancel
      ensures shouldCancel
    {
      shouldCancel := true;
    }

    /** The `for chunk in r.iter_content(...)` loop of `download_discord`,
        writing to the file `target` that was just opened empty. `cancelAt` is
        the chunk before whose check the UI thread's `cancel()` lands, if it
        lands inside the loop. */
    method WriteChunks(target: string, total: int, chunks: seq<Chunk>, cancelAt: Option<nat>)
      returns (cancelled: bool)
      requires target in files && files[target] == []
      modifies this`shouldCancel, this`files, this`events
      ensures var stop := StopIndex(old(shouldCancel), cancelAt);
        cancelled == (stop.Some? && stop.value < |chunks|)
      ensures shouldCancel == (old(shouldCancel) || cancelled)
      ensures cancelled ==> files == old(files) - {target}
      ensures cancelled ==>
        events == old(events) + ChunkEvents(chunks[..StopIndex(old(shouldCancel), cancelAt).value], total)
      ensures !cancelled ==> files == old(files)[target := Flatten(chunks)]
      ensures !cancelled ==> events == old(events) + ChunkEvents(chunks, total)
    {
      ghost var stop := StopIndex(shouldCancel, cancelAt);
      var downloaded := 0;
      var k := 0;
      while k < |chunks|
        invariant 0 <= k <= |chunks|
        invariant shouldCancel == old(shouldCancel)
        invariant k > 0 ==> !shouldCancel && (cancelAt.None? || cancelAt.value >= k)
        invariant downloaded == |Flatten(chunks[..k])|
        invariant files == old(files)[target := Flatten(chunks[..k])]
        invariant events == old(events) + ChunkEvents(chunks[..k], total)
      {
        if cancelAt == Some(k) {
          Cancel();
        }
        if shouldCancel {
          if target in files {
            files := files - {target};
          }
          assert files == old(files) - {target};
          return true;
        }
        var chunk := chunks[k];
        assert chunks[..k + 1][..k] == chunks[..k];
        assert Flatten(chunks[..k + 1]) == Flatten(chunks[..k]) + chunk;
        if |chunk| > 0 {
          downloaded := downloaded + |chunk|;
          files := files[target := files[target] + chunk];
          if total > 0 {
            events := events + [Progress(Percent(downloaded, total), Megabytes(downloaded, total))];
          }
        } else {
          assert Flatten(chunks[..k]) + chunk == Flatten(chunks[..k]);
        }
        k := k + 1;
      }
      assert chunks[..k] == chunks;
      return false;
    }

    /** `download_discord(url, version)`. */
    method DownloadDiscord(url: string, version: string, response: Response, cancelAt: Option<nat>)
      returns (path: Option<string>)
      modifies this`shouldCancel, this`files, this`events
      ensures path == TransferResult(TargetPath(downloadDir, version), response,
                                     StopIndex(old(shouldCancel), cancelAt))
      ensures files == TransferFiles(old(files), TargetPath(downloadDir, version), response,
                                     StopIndex(old(shouldCancel), cancelAt))
      ensures events == old(events) + TransferEvents(version, response, StopIndex(old(shouldCancel), cancelAt))
      ensures shouldCancel == (old(shouldCancel) || CancelledInLoop(response, StopIndex(old(shouldCancel), cancelAt)))
    {
      var target := TargetPath(downloadDir, version);
      ghost var stop := StopIndex(shouldCancel, cancelAt);
      ghost var files0 := files;
      events := events + [Progress(10, StartNote(version))];
      if response.RequestFailed? {
        return None;
      }
      files := files[target := []];
      ghost var started := events;
      var cancelled := WriteChunks(target, response.contentLength, response.chunks, cancelAt);
      assert cancelled == CancelledInLoop(response, stop);
      if cancelled {
        assert files == files0 - {target};
        return None;
      }
      assert files == files0[target := Flatten(response.chunks)];
      assert events == started + ChunkEvents(response.chunks, response.contentLength);
      if response.broken {
        return None;
      }
      events := events + [Progress(95, VerifyingNote)];
      if target in files && |files[target]| > 0 {
        path := Some(target);
      } else {
        path := None;
      }
    }

    /** The second half of `run()`: download, then report the outcome. */
    method DownloadAndReport(url: string, version: string, response: Response, cancel: CancelTiming)
      requires !shouldCancel && !cancel.BeforeDownload?
      modifies this`shouldCancel, this`files, this`events
      ensures events == old(events) + DownloadPhaseEvents(downloadDir, version, response, cancel)
      ensures files == TransferFiles(old(files), TargetPath(downloadDir, version), response, LoopCancel(cancel))
      ensures shouldCancel == !cancel.NoCancel?
    {
      var path := DownloadDiscord(url, version, response, LoopCancel(cancel));
      ghost var transferred := events;
      if !cancel.NoCancel? && !shouldCancel {
        // the UI thread's cancel() lands after the loop's last check
        Cancel();
      }
      assert shouldCancel == !cancel.NoCancel?;
      if path.Some? && !shouldCancel {
        events := events + [Progress(100, DoneNote), Completed(true, path.value, "")];
      } else if shouldCancel {
        events := events + [Completed(false, "", CancelledError)];
      } else {
        events := events + [Completed(false, "", DownloadError)];
      }
      assert events == transferred + ReportEvents(path, shouldCancel);
    }

    /** `run()` once the version is known: the cancellation check before the
        download, then download and report. */
    method DownloadResolved(url: string, version: string, response: Response, cancel: CancelTiming)
      modifies this`shouldCancel, this`files, this`events
      ensures var skipped := old(shouldCancel) || cancel.BeforeDownload?;
        events == old(events) + if skipped then [] else DownloadPhaseEvents(downloadDir, version, response, cancel)
      ensures var skipped := old(shouldCancel) || cancel.BeforeDownload?;
        files == if skipped then old(files)
                 else TransferFiles(old(files), TargetPath(downloadDir, version), response, LoopCancel(cancel))
      ensures shouldCancel == (old(shouldCancel) || !cancel.NoCancel?)
    {
      if cancel.BeforeDownload? {
        Cancel();
      }
      if shouldCancel {
        return;
      }
      DownloadAndReport(url, version, response, cancel);
    }

    /** `get_latest_version_info()`: the HEAD request is replaced by its
        result; the version comes from the final URL. */
    method GetLatestVersionInfo(head: HeadResult) returns (found: Option<VersionInfo.LatestVersion>)
      ensures found == ResolvedVersion(head)
      ensures head.HeadFailed? ==> found.None?
      ensures found.Some? ==> head.Resolved? && found.value.url == head.finalUrl
    {
      found := ResolvedVersion(head);
    }

    /** `run()` after `get_latest_version_info()` returned `found`. */
    method RunWithVersion(found: Option<VersionInfo.LatestVersion>, response: Response, cancel: CancelTiming)
      modifies this`shouldCancel, this`files, this`events
      ensures events == old(events) + RunEvents(downloadDir, found, response, cancel, old(shouldCancel))
      ensures files == RunFiles(old(files), downloadDir, found, response, cancel, old(shouldCancel))
      ensures shouldCancel == (old(shouldCancel) || (found.Some? && !cancel.NoCancel?))
    {
      events := events + [Progress(5, QueryingNote)];
      if found.None? {
        events := events + [Completed(false, "", NoVersionError)];
        return;
      }
      events := events + [VersionDetected(found.value.version)];
      DownloadResolved(found.value.url, found.value.version, response, cancel);
    }

    /** `run()`: resolve the version, download, and report the outcome. */
    method Run(head: HeadResult, response: Response, cancel: CancelTiming)
      modifies this`shouldCancel, this`files, this`events
      ensures events == old(events) + RunEvents(downloadDir, ResolvedVersion(head), response, cancel, old(shouldCancel))
      ensures files == RunFiles(old(files), downloadDir, ResolvedVersion(head), response, cancel, old(shouldCancel))
      ensures shouldCancel == (old(shouldCancel) || (ResolvedVersion(head).Some? && !cancel.NoCancel?))
    {
      var found := GetLatestVersionInfo(head);
      RunWithVersion(found, response, cancel);
    }
  }
}
