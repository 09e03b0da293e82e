/**
 * RecorderApp of recording.py without its widgets: the prompt cursor, the
 * capture state machine fed by the audio device, and the metadata ledger it
 * keeps in memory and rewrites on disk after every save.
 */
module Recorder {

  import opened Basics
  import opened Text
  import opened Ledger
  import opened Signal
  import opened Prompts

  /**
   * The recorder's files: the wav files of the wav folder by name, and the
   * text of the ledger file, None while it does not exist.
   */
  class Disk {
    var wavs: map<string, seq<real>>
    var ledger: Option<string>

    constructor(wavs: map<string, seq<real>>, ledger: Option<string>)
      ensures this.wavs == wavs && this.ledger == ledger
    {
      this.wavs := wavs;
      this.ledger := ledger;
    }
  }

  /** `load_metadata`: no rows without a ledger file, else the rows its lines parse to. */
  function LoadLedger(file: Option<string>): (rows: seq<Row>)
    ensures AllWellFormed(rows)
    ensures file.Some? ==> rows == Parse(file.value)
    ensures file.None? ==> rows == []
  {
    match file
    case None => []
    case Some(text) =>
      ParseLinesWellFormed(ReadLines(text));
      Parse(text)
  }

  // ---------------------------------------------------------------------------
  // Cursor
  // ---------------------------------------------------------------------------

  /**
   * Where skip_to_next_unrecorded stops when it starts at `i` with `n`
   * prompts: the first index from `i` on that is unrecorded or past the end.
   */
  function NextUnrecorded(rows: seq<Row>, n: nat, i: nat): (j: nat)
    ensures i <= j && (j == i || j <= n)
    ensures forall k :: i <= k < j ==> IsRecorded(rows, k)
    ensures j >= n || !IsRecorded(rows, j)
    decreases n - i
  {
    if i < n && IsRecorded(rows, i) then NextUnrecorded(rows, n, i + 1) else i
  }

  /** Any index satisfying the stopping rule from `i` is the one the skip reaches. */
  lemma {:induction false} NextUnrecordedUnique(rows: seq<Row>, n: nat, i: nat, j: nat)
    requires i <= j && (j == i || j <= n)
    requires forall k :: i <= k < j ==> IsRecorded(rows, k)
    requires j >= n || !IsRecorded(rows, j)
    ensures NextUnrecorded(rows, n, i) == j
    decreases j - i
  {
    if i < j {
      NextUnrecordedUnique(rows, n, i + 1, j);
    }
  }

  /** Skipping from where a skip stopped goes nowhere. */
  lemma NextUnrecordedIdempotent(rows: seq<Row>, n: nat, i: nat)
    ensures NextUnrecorded(rows, n, NextUnrecorded(rows, n, i)) == NextUnrecorded(rows, n, i)
  {
    var j := NextUnrecorded(rows, n, i);
    NextUnrecordedUnique(rows, n, j, j);
  }

  /** How many of 0, 1, ..., n - 1 satisfy `p`. */
  function CountWhere(p: nat -> bool, n: nat): (c: nat)
    ensures c <= n
  {
    if n == 0 then 0 else CountWhere(p, n - 1) + (if p(n - 1) then 1 else 0)
  }

  lemma {:induction false} CountWhereFull(p: nat -> bool, n: nat)
    ensures CountWhere(p, n) == n <==> forall k :: 0 <= k < n ==> p(k)
  {
    if n > 0 {
      CountWhereFull(p, n - 1);
    }
  }

  lemma {:induction false} CountWhereSame(p: nat -> bool, q: nat -> bool, n: nat)
    requires forall k :: 0 <= k < n ==> p(k) == q(k)
    ensures CountWhere(p, n) == CountWhere(q, n)
  {
    if n > 0 {
      CountWhereSame(p, q, n - 1);
    }
  }

  lemma {:induction false} CountWhereAdd(p: nat -> bool, q: nat -> bool, i: nat, n: nat)
    requires forall k :: 0 <= k < n ==> (q(k) <==> p(k) || k == i)
    ensures CountWhere(q, n) == CountWhere(p, n) + (if i < n && !p(i) then 1 else 0)
  {
    if n > 0 {
      CountWhereAdd(p, q, i, n - 1);
    }
  }

  /** `sum(1 for i in range(n) if is_recorded(i))`. */
  function RecordedCount(rows: seq<Row>, n: nat): (c: nat)
    ensures c <= n
  {
    CountWhere((k: nat) => IsRecorded(rows, k), n)
  }

  /** The count reaches n exactly when every prompt is recorded. */
  lemma RecordedCountFull(rows: seq<Row>, n: nat)
    ensures RecordedCount(rows, n) == n <==> forall k :: 0 <= k < n ==> IsRecorded(rows, k)
  {
    var p := (k: nat) => IsRecorded(rows, k);
    CountWhereFull(p, n);
    assert forall k :: 0 <= k < n ==> p(k) == IsRecorded(rows, k);
  }

  /** The cursor starts past the last prompt exactly when every prompt is recorded. */
  lemma AllRecordedIffComplete(rows: seq<Row>, n: nat)
    ensures NextUnrecorded(rows, n, 0) == n <==> RecordedCount(rows, n) == n
  {
    RecordedCountFull(rows, n);
    if forall k :: 0 <= k < n ==> IsRecorded(rows, k) {
      NextUnrecordedUnique(rows, n, 0, n);
    }
  }

  lemma {:induction false} HasFileAppend(rows: seq<Row>, r: Row, f: string)
    ensures HasFile(rows + [r], f) <==> HasFile(rows, f) || r.file == f
  {
    if rows != [] {
      assert (rows + [r])[1..] == rows[1..] + [r];
      HasFileAppend(rows[1..], r, f);
    }
  }

  /** Recording a prompt again adds a row but does not raise the count. */
  lemma DuplicateRowNotCounted(rows: seq<Row>, r: Row, n: nat)
    requires HasFile(rows, r.file)
    ensures RecordedCount(rows + [r], n) == RecordedCount(rows, n)
  {
    forall k | 0 <= k < n
      ensures IsRecorded(rows + [r], k) == IsRecorded(rows, k)
    {
      HasFileAppend(rows, r, FileName(k));
    }
    var p, q := (k: nat) => IsRecorded(rows + [r], k), (k: nat) => IsRecorded(rows, k);
    assert forall k :: 0 <= k < n ==> p(k) == q(k);
    CountWhereSame(p, q, n);
  }

  /** Saving prompt i raises the count by one exactly when i is a prompt not yet recorded. */
  lemma SaveCount(rows: seq<Row>, i: nat, s: string, n: nat)
    ensures RecordedCount(rows + [Row(FileName(i), s)], n) ==
      RecordedCount(rows, n) + (if i < n && !IsRecorded(rows, i) then 1 else 0)
  {
    forall k | 0 <= k < n
      ensures IsRecorded(rows + [Row(FileName(i), s)], k) <==> IsRecorded(rows, k) || k == i
    {
      SaveRecords(rows, i, s, k);
    }
    var p, q := (k: nat) => IsRecorded(rows, k), (k: nat) => IsRecorded(rows + [Row(FileName(i), s)], k);
    assert forall k :: 0 <= k < n ==> (q(k) <==> p(k) || k == i);
    CountWhereAdd(p, q, i, n);
    assert i < n ==> p(i) == IsRecorded(rows, i);
  }

  /** After a save of prompt i, prompt k is recorded iff it was before or k is i. */
  lemma SaveRecords(rows: seq<Row>, i: nat, s: string, k: nat)
    ensures IsRecorded(rows + [Row(FileName(i), s)], k) <==> IsRecorded(rows, k) || i == k
  {
    HasFileAppend(rows, Row(FileName(i), s), FileName(k));
    if FileName(i) == FileName(k) {
      FileNameInjective(i, k);
    }
  }

  /**
   * The row a save appends keeps the ledger readable: when the sentence is a
   * prompt as the loader produces it, the rewritten file reads back as the
   * sorted rows.
   */
  lemma LedgerAfterSave(rows: seq<Row>, i: nat, s: string)
    requires AllWellFormed(rows) && IsPrompt(s)
    ensures AllWellFormed(rows + [Row(FileName(i), s)])
    ensures Parse(LedgerText(rows + [Row(FileName(i), s)])) == SortByFile(rows + [Row(FileName(i), s)])
  {
    SavedRowWellFormed(i, s);
    var all := rows + [Row(FileName(i), s)];
    assert forall k :: 0 <= k < |all| ==> all[k] == if k < |rows| then rows[k] else Row(FileName(i), s);
    LedgerRoundTrip(all);
  }

  // ---------------------------------------------------------------------------
  // Capture
  // ---------------------------------------------------------------------------

  /** `np.concatenate(audio_data).flatten()`: the blocks' samples in capture order. */
  function Concat(blocks: seq<seq<real>>): seq<real>
  {
    if blocks == [] then [] else blocks[0] + Concat(blocks[1..])
  }

  /** A block appended to the buffer extends the captured audio by its samples. */
  lemma {:induction false} ConcatAppend(blocks: seq<seq<real>>, b: seq<real>)
    ensures Concat(blocks + [b]) == Concat(blocks) + b
  {
    if blocks != [] {
      assert (blocks + [b])[1..] == blocks[1..] + [b];
      ConcatAppend(blocks[1..], b);
    }
  }

  /** The audio stop_recording writes: the captured samples trimmed, then normalised. */
  function Take(blocks: seq<seq<real>>, gain: real): seq<real>
    requires gain > 0.0
  {
    Normalize(Trimmed(Concat(blocks), SAMPLE_RATE, SILENCE_THRESHOLD, SILENCE_DURATION), gain)
  }

  /**
   * What is written is a slice of the capture, at least 2205 frames when it is
   * not the whole capture, scaled by one positive factor to a peak of at most
   * 0.95 unless it is silent.
   */
  lemma TakeShape(blocks: seq<seq<real>>, gain: real)
    requires gain > 0.0
    ensures var a := Concat(blocks);
      var t := Trimmed(a, SAMPLE_RATE, SILENCE_THRESHOLD, SILENCE_DURATION);
      (t == a || |t| >= 2205) &&
      (exists i, j :: 0 <= i <= j <= |a| && t == a[i..j]) &&
      Take(blocks, gain) == Scale(t, NormalizeFactor(t, gain)) &&
      (!AllZero(t) ==> Peak(Take(blocks, gain)) <= CLIP_LEVEL)
  {
    var a := Concat(blocks);
    var t := Trimmed(a, SAMPLE_RATE, SILENCE_THRESHOLD, SILENCE_DURATION);
    TrimmedShape(a, SAMPLE_RATE, SILENCE_THRESHOLD, SILENCE_DURATION);
    DefaultTrimFrames();
    if t == a {
      assert t == a[0..|a|];
    }
    NormalizeIsScaling(t, gain);
    if !AllZero(t) {
      NormalizeClips(t, gain);
    }
  }

  datatype StartOutcome = AllDone | Started | StreamFailed

  /** Why a save stopped part way. */
  datatype SaveFailure = WavWriteFailed | NoSentence | LedgerWriteFailed

  datatype StopOutcome = NoAudio | Rejected(level: Level) | Saved(file: string) | SaveFailed(why: SaveFailure)

  datatype Toggled = Began(start: StartOutcome) | Ended(stop: StopOutcome)

  /**
   * The outcome of the save step: writing the wav file can fail, looking up
   * the sentence of an index past the last prompt raises, and writing the
   * ledger can fail.
   */
  function SaveResult(index: nat, n: nat, wavOk: bool, ledgerOk: bool): (o: StopOutcome)
    ensures o.Saved? <==> wavOk && index < n && ledgerOk
    ensures o.Saved? ==> o.file == FileName(index)
  {
    if !wavOk then SaveFailed(WavWriteFailed)
    else if index >= n then SaveFailed(NoSentence)
    else if !ledgerOk then SaveFailed(LedgerWriteFailed)
    else Saved(FileName(index))
  }

  /**
   * The outcome of stop_recording: nothing captured, a level outside the
   * accepted range, or the save step.
   */
  function StopResult(blocks: seq<seq<real>>, index: nat, n: nat, wavOk: bool, ledgerOk: bool): (o: StopOutcome)
    ensures o.Rejected? ==> o.level != InRange
    ensures o.Saved? || o == SaveFailed(LedgerWriteFailed) ==> index < n
  {
    if blocks == [] then NoAudio
    else if CheckLevel(Concat(blocks)) != InRange then Rejected(CheckLevel(Concat(blocks)))
    else SaveResult(index, n, wavOk, ledgerOk)
  }

  /** The wav file was written: the save got past `sf.write`. */
  predicate WroteWav(o: StopOutcome)
  {
    o.Saved? || o == SaveFailed(NoSentence) || o == SaveFailed(LedgerWriteFailed)
  }

  /** The row was appended in memory: the save got past the sentence lookup. */
  predicate AppendedRow(o: StopOutcome)
  {
    o.Saved? || o == SaveFailed(LedgerWriteFailed)
  }

  /** Only in-range audio for an existing prompt, with both writes succeeding, is saved. */
  lemma StopSavesOnlyInRange(blocks: seq<seq<real>>, index: nat, n: nat, wavOk: bool, ledgerOk: bool)
    ensures StopResult(blocks, index, n, wavOk, ledgerOk).Saved? <==>
      blocks != [] && CheckLevel(Concat(blocks)) == InRange && index < n && wavOk && ledgerOk
    ensures StopResult(blocks, index, n, wavOk, ledgerOk).Saved? && |Concat(blocks)| > 0 ==>
      LEVEL_THRESHOLD_LOW * LEVEL_THRESHOLD_LOW <= MeanSquare(Concat(blocks)) <= LEVEL_THRESHOLD_HIGH * LEVEL_THRESHOLD_HIGH
  {
  }

  /** What stop_recording writes of an accepted capture: trimmed of silence, then normalised. */
  method Prepare(audio: seq<real>, gain: real) returns (clip: seq<real>)
    requires gain > 0.0
    ensures clip == Normalize(Trimmed(audio, SAMPLE_RATE, SILENCE_THRESHOLD, SILENCE_DURATION), gain)
  {
    var trimmed := TrimSilence(audio, SAMPLE_RATE, SILENCE_THRESHOLD, SILENCE_DURATION);
    clip := Normalize(trimmed, gain);
  }

  /**
   * The main window's state: the prompts, the cursor, the capture flag and
   * buffer, and the ledger rows in memory.
   */
  class App {
    const sentences: seq<string>
    const disk: Disk
    var index: nat
    var recording: bool
    var audioData: seq<seq<real>>
    var metadata: seq<Row>

    /** Loads the ledger, then skips to the first unrecorded prompt. */
    constructor(sentences: seq<string>, disk: Disk)
      ensures this.sentences == sentences && this.disk == disk
      ensures metadata == LoadLedger(disk.ledger)
      ensures index == NextUnrecorded(metadata, |sentences|, 0)
      ensures !recording && audioData == []
    {
      var rows := LoadLedger(disk.ledger);
      this.sentences := sentences;
      this.disk := disk;
      recording := false;
      audioData := [];
      metadata := rows;
      index := NextUnrecorded(rows, |sentences|, 0);
    }

    /** `is_recorded(idx)`: the ledger has a row for the wav file of prompt idx. */
    predicate IsRecordedAt(idx: nat)
      reads this
    {
      IsRecorded(metadata, idx)
    }

    /** The count shown in the progress line. */
    function Count(): (c: nat)
      reads this
      ensures c <= |sentences|
    {
      RecordedCount(metadata, |sentences|)
    }

    /** Moves forward over recorded prompts, stopping at an unrecorded one or the end. */
    method SkipToNextUnrecorded()
      modifies this`index
      ensures index == NextUnrecorded(metadata, |sentences|, old(index))
    {
      while index < |sentences| && IsRecorded(metadata, index)
        invariant NextUnrecorded(metadata, |sentences|, index) == NextUnrecorded(metadata, |sentences|, old(index))
        decreases |sentences| - index
      {
        index := index + 1;
      }
    }

    /** `next_sentence`: one step forward, then on to the next unrecorded prompt. */
    method NextSentence()
      modifies this`index
      ensures index == NextUnrecorded(metadata, |sentences|, old(index) + 1)
      ensures old(index) < index
    {
      index := index + 1;
      SkipToNextUnrecorded();
    }

    /** `previous_sentence`: one step back, never below the first prompt. */
    method PreviousSentence()
      modifies this`index
      ensures old(index) > 0 ==> index == old(index) - 1
      ensures old(index) == 0 ==> index == 0
    {
      if index > 0 {
        index := index - 1;
      }
    }

    /** `skip_sentence`, bound to the Right key, is next_sentence. */
    method SkipSentence()
      modifies this`index
      ensures index == NextUnrecorded(metadata, |sentences|, old(index) + 1)
    {
      NextSentence();
    }

    /**
     * `start_recording`: with every prompt passed, nothing changes; otherwise
     * the buffer is emptied and recording starts, unless the input stream
     * fails to open.
     */
    method StartRecording(streamOk: bool) returns (o: StartOutcome)
      modifies this`recording, this`audioData
      ensures index >= |sentences| ==> o == AllDone && recording == old(recording) && audioData == old(audioData)
      ensures index < |sentences| ==>
        audioData == [] && (recording <==> streamOk) && o == (if streamOk then Started else StreamFailed)
    {
      if index >= |sentences| {
        return AllDone;
      }
      recording := true;
      audioData := [];
      if !streamOk {
        recording := false;
        return StreamFailed;
      }
      return Started;
    }

    /** `audio_callback`: the device's block is kept only while recording. */
    method AudioCallback(block: seq<real>)
      modifies this`audioData
      ensures audioData == if recording then old(audioData) + [block] else old(audioData)
      ensures Concat(audioData) == if recording then old(Concat(audioData)) + block else old(Concat(audioData))
    {
      if recording {
        ConcatAppend(audioData, block);
        audioData := audioData + [block];
      }
    }

    /**
     * `save_metadata`: the row is appended in memory first, then the whole
     * ledger is rewritten sorted by file name, which fails unless `ledgerOk`.
     */
    method SaveMetadata(file: string, sentence: string, ledgerOk: bool) returns (ok: bool)
      modifies this`metadata, disk`ledger
      ensures metadata == old(metadata) + [Row(file, sentence)]
      ensures ok == ledgerOk
      ensures ok ==> disk.ledger == Some(LedgerText(metadata))
      ensures !ok ==> disk.ledger == old(disk.ledger)
    {
      metadata := metadata + [Row(file, sentence)];
      if !ledgerOk {
        return false;
      }
      disk.ledger := Some(LedgerText(metadata));
      return true;
    }

    /**
     * The save step of stop_recording, once the audio is trimmed and
     * normalised: write the wav file of the current prompt, record it in the
     * ledger, move on.
     */
    method SaveClip(clip: seq<real>, wavOk: bool, ledgerOk: bool) returns (o: StopOutcome)
      modifies this`metadata, this`index, disk`wavs, disk`ledger
      ensures o == SaveResult(old(index), |sentences|, wavOk, ledgerOk)
      ensures WroteWav(o) ==> disk.wavs == old(disk.wavs)[FileName(old(index)) := clip]
      ensures !WroteWav(o) ==> disk.wavs == old(disk.wavs)
      ensures AppendedRow(o) ==> metadata == old(metadata) + [Row(FileName(old(index)), sentences[old(index)])]
      ensures !AppendedRow(o) ==> metadata == old(metadata)
      ensures o.Saved? ==> disk.ledger == Some(LedgerText(metadata))
      ensures o.Saved? ==> index == NextUnrecorded(metadata, |sentences|, old(index) + 1)
      ensures !o.Saved? ==> disk.ledger == old(disk.ledger) && index == old(index)
    {
      var file := FileName(index);
      if !wavOk {
        return SaveFailed(WavWriteFailed);
      }
      disk.wavs := disk.wavs[file := clip];
      if index >= |sentences| {
        return SaveFailed(NoSentence);
      }
      var ok := SaveMetadata(file, sentences[index], ledgerOk);
      if !ok {
        return SaveFailed(LedgerWriteFailed);
      }
      NextSentence();
      return Saved(file);
    }

    /**
     * `stop_recording`. `gain` stands for TARGET_RMS over the RMS of the trimmed
     * audio; `wavOk` and `ledgerOk` say whether writing the wav file and the
     * ledger file succeed. The buffer is left as it is.
     */
    method StopRecording(gain: real, wavOk: bool, ledgerOk: bool) returns (o: StopOutcome)
      requires gain > 0.0
      modifies this`recording, this`metadata, this`index, disk`wavs, disk`ledger
      ensures o == StopResult(audioData, old(index), |sentences|, wavOk, ledgerOk)
      ensures !recording
      ensures WroteWav(o) ==> disk.wavs == old(disk.wavs)[FileName(old(index)) := Take(audioData, gain)]
      ensures !WroteWav(o) ==> disk.wavs == old(disk.wavs)
      ensures AppendedRow(o) ==> metadata == old(metadata) + [Row(FileName(old(index)), sentences[old(index)])]
      ensures !AppendedRow(o) ==> metadata == old(metadata)
      ensures o.Saved? ==> disk.ledger == Some(LedgerText(metadata))
      ensures o.Saved? ==> index == NextUnrecorded(metadata, |sentences|, old(index) + 1)
      ensures !o.Saved? ==> disk.ledger == old(disk.ledger) && index == old(index)
    {
      recording := false;
      if audioData == [] {
        return NoAudio;
      }
      var audio := Concat(audioData);
      var level := CheckLevel(audio);
      if level != InRange {
        return Rejected(level);
      }
      var clip := Prepare(audio, gain);
      o := SaveClip(clip, wavOk, ledgerOk);
    }

    /** `toggle_recording`, bound to Space. */
    method ToggleRecording(streamOk: bool, gain: real, wavOk: bool, ledgerOk: bool) returns (t: Toggled)
      requires gain > 0.0
      modifies this`recording, this`audioData, this`metadata, this`index, disk`wavs, disk`ledger
      ensures old(recording) ==> t.Ended? && t.stop == StopResult(old(audioData), old(index), |sentences|, wavOk, ledgerOk)
      ensures old(recording) ==> !recording && audioData == old(audioData)
      ensures old(recording) && WroteWav(t.stop) ==> disk.wavs == old(disk.wavs)[FileName(old(index)) := Take(audioData, gain)]
      ensures old(recording) && !WroteWav(t.stop) ==> disk.wavs == old(disk.wavs)
      ensures old(recording) && AppendedRow(t.stop) ==>
        metadata == old(metadata) + [Row(FileName(old(index)), sentences[old(index)])]
      ensures old(recording) && !AppendedRow(t.stop) ==> metadata == old(metadata)
      ensures old(recording) && t.stop.Saved? ==>
        disk.ledger == Some(LedgerText(metadata)) && index == NextUnrecorded(metadata, |sentences|, old(index) + 1)
      ensures old(recording) && !t.stop.Saved? ==> disk.ledger == old(disk.ledger) && index == old(index)
      ensures !old(recording) ==> t.Began? && index == old(index) && metadata == old(metadata)
      ensures !old(recording) ==> disk.wavs == old(disk.wavs) && disk.ledger == old(disk.ledger)
      ensures !old(recording) && old(index) >= |sentences| ==> t.start == AllDone && !recording && audioData == old(audioData)
      ensures !old(recording) && old(index) < |sentences| ==>
        audioData == [] && (recording <==> streamOk) && t.start == (if streamOk then Started else StreamFailed)
      ensures !recording || (t == Began(Started) && audioData == [])
    {
      if recording {
        var o := StopRecording(gain, wavOk, ledgerOk);
        return Ended(o);
      }
      var o := StartRecording(streamOk);
      return Began(o);
    }

    /**
     * One tick of `update_meter`: the band of the peak over the last tenth of
     * a second. With blocks that hold no samples `np.max` raises and the
     * ticks stop.
     */
    method UpdateMeter() returns (o: MeterOutcome)
      ensures o == NotRecording <==> !recording
      ensures recording && audioData == [] ==> o == Waiting
      ensures recording && audioData != [] && Concat(audioData) == [] ==> o == MeterFailed
      ensures recording && Concat(audioData) != [] ==> o == Shown(BandOf(MeterLevel(Concat(audioData))))
    {
      if !recording {
        return NotRecording;
      }
      if audioData == [] {
        return Waiting;
      }
      var audio := Concat(audioData);
      if audio == [] {
        return MeterFailed;
      }
      return Shown(BandOf(MeterLevel(audio)));
    }
  }

  datatype MeterOutcome = NotRecording | Waiting | Shown(band: Band) | MeterFailed
}
