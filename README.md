# Piper training helpers, modelled in Dafny

This project models the logic of three scripts used to train a Piper
text-to-speech voice.

- `recording.py` is a Tk recorder that walks a list of prompts. It captures one
  take per prompt from the microphone and rejects takes that are too quiet or
  too loud. It trims silence, normalises the level, and writes `NNN.wav`. It
  keeps a `metadata.csv` ledger of `file|sentence` rows, rewritten sorted by
  file name after every change. It also has a review window that plays takes
  and deletes them.
- `checkpoint_convert.py` turns `pathlib.Path` objects inside a loaded
  checkpoint into strings. It deletes every hyperparameter outside a fixed
  whitelist and names the temporary and final output files.
- `export_and_test.py` picks the newest `version_N` training run. It renames the
  exported `model.onnx` / `config.json` to the voice's `en_US-<name>` names,
  and builds the `piper` command line of the audio test.

The repository ships each script twice, at the top level and under `scripts/`.
Apart from the encoding of a few emoji in status strings, the two copies are
identical line for line. So one model covers both, and a citation of
`recording.py:N` applies equally to `scripts/recording.py:N` (likewise for the
other two scripts).

Modules, in dependency order:

| module | models |
|---|---|
| `Basics` | `Option` |
| `Text` | `str.strip`, splitting a file into lines, string order, `{n:03d}` |
| `Ledger` | the ledger rows, their file names, sorting by file name, the ledger text and its parser |
| `Prompts` | the built-in prompts and `load_sentences` |
| `Signal` | the level test, `trim_silence`, `normalize_audio`, the level meter |
| `Recorder` | `RecorderApp`: the cursor, capture, save, and the ledger on disk (class `App`, files in class `Disk`) |
| `Review` | `ReviewWindow`: navigation, playback, delete |
| `Checkpoint` | `convert_paths`, `strip_checkpoint_params` (class `Checkpoint`), output names |
| `Export` | `find_latest_version`, the version choice of `main`, `setup_model_files` (class `OutputDir`), the test command |

How the model is built:

- The state the scripts mutate is modelled as classes:
  - the recorder window;
  - its files on disk;
  - the review window;
  - the loaded checkpoint dict;
  - the export folder.
- The loops are methods, each proved against a specification function:
  - `skip_to_next_unrecorded`;
  - the two scans of `trim_silence`;
  - the deletion loop of `strip_checkpoint_params`;
  - the directory scan of `find_latest_version`.
- Everything else is functions, with lemmas about them.
- The outcome of each I/O step is a boolean parameter. These are the stream
  start, the wav write, the ledger write, the file removal and the file read.
- Samples are reals.

## Model

| member | source | states |
|---|---|---|
| Text.StripLeftSpec | recording.py:94 | what `lstrip` drops is whitespace, and what remains is a suffix that does not start with whitespace |
| Text.StripRightSpec | recording.py:94 | what `rstrip` drops is whitespace, and what remains is a prefix that does not end with whitespace |
| Text.StripSpec | recording.py:94 | `line.strip()` is a contiguous infix with no whitespace at either end, and everything outside it is whitespace |
| Text.Strip | recording.py:94 | `str.strip`: leading, then trailing Python whitespace removed; its shape is stated by StripSpec, StripIsStripped and StripOfStripped |
| Text.StripInfix | recording.py:456 | the stripped line is a slice of the line and is itself stripped |
| Text.StripTrailing | recording.py:456 | everything after the stripped part of the line is whitespace |
| Text.StripIsStripped | recording.py:94 | stripping gives a string with no whitespace at either end |
| Text.StripOfStripped | recording.py:94 | stripping is idempotent: an already stripped string is unchanged |
| Text.IndexOf | recording.py:459 | the first occurrence of a character, or none exactly when it does not occur (the split point of `split('\|', 1)`) |
| Text.IndexOfAt | recording.py:459 | a position holding the character with no earlier occurrence is the one found |
| Text.Lines | recording.py:455 | splitting text at each '\n' gives at least one piece, and no piece contains a '\n' |
| Text.LinesAvoid | recording.py:455 | a character absent from the text is absent from every line |
| Text.Universal | recording.py:454 | text mode's universal newlines: the text read contains no '\r' and is never longer than the file |
| Text.UniversalAppend | recording.py:454 | text without '\r' is read unchanged, whatever follows it |
| Text.UniversalPlain | recording.py:454 | a text without '\r', as the writers produce, is read exactly as written |
| Text.ReadLines | recording.py:454-455 | iterating a text-mode file gives at least one line, and no line contains '\n' or '\r' |
| Text.ReadLinesCons | recording.py:449 | a line without a break, written with '\n' after it, is the first line read back |
| Text.ReadLinesReturn | recording.py:454-455 | a lone '\r', or "\r\n", ends a line in a text-mode file just as '\n' does |
| Text.LinesJoin | recording.py:455 | joining the pieces with '\n' gives back the split text exactly |
| Text.LinesCons | recording.py:449 | a piece without '\n', written with '\n' after it, is the first piece split off |
| Text.LexLessIrreflexive | recording.py:448 | Python string order: no string sorts before itself |
| Text.LexLessTransitive | recording.py:448 | Python string order is transitive |
| Text.LexLessTotal | recording.py:448 | any two distinct strings are ordered one way or the other |
| Text.ZeroPad | recording.py:311 | `:03d` padding has the width or the digits' own length, whichever is longer, with zeros before the digits |
| Text.DecimalValue | recording.py:311 | the decimal digits of n read back as n |
| Text.ZerosValue | recording.py:311 | leading zeros do not change the value read |
| Text.PaddedDecimalValue | recording.py:311 | the zero-padded decimal of n is all digits and reads back as n |
| Text.PaddedDecimalInjective | recording.py:311 | distinct numbers give distinct padded decimals |
| Ledger.FileNameSpec | recording.py:384 | the file of prompt idx is digits then ".wav", the digits read as idx + 1, and there are exactly 7 characters below prompt 999 |
| Ledger.FileNameInjective | recording.py:311 | distinct prompts get distinct wav file names |
| Ledger.FileName | recording.py:384 | `f"{idx + 1:03d}.wav"`, the wav file of prompt idx; FileNameSpec and FileNameInjective state its form and that prompts never share a file |
| Ledger.IsRecorded | recording.py:310-312 | `is_recorded(idx)`: some ledger row names prompt idx's wav file; SaveRecords states how a save changes it |
| Ledger.HasFile | recording.py:312 | a file name is recorded exactly when some ledger row carries it |
| Ledger.InsertByFilePermutes | recording.py:448 | inserting a row into the sorted rows adds exactly that row |
| Ledger.InsertByFileSorted | recording.py:448 | inserting into rows sorted by file name keeps them sorted |
| Ledger.SortByFileSorted | recording.py:448 | `sorted(metadata, key=file)` is ordered by file name |
| Ledger.SortByFilePermutes | recording.py:448 | the sorted rows are a permutation of the rows |
| Ledger.SortByFileStable | recording.py:448 | the sort is stable: the rows of any one file keep their relative order |
| Ledger.SortByFile | recording.py:448 | `sorted(metadata, key=lambda x: x[0])` as a stable insertion sort; SortByFileSorted, SortByFilePermutes and SortByFileStable state that it is Python's stable sort |
| Ledger.InsertByFileStable | recording.py:448 | a row inserted into sorted rows lands after every earlier row of the same file |
| Ledger.InsertStableFront | recording.py:448 | inserting in front of larger file names keeps the rows of each file in order |
| Ledger.InsertStablePast | recording.py:448 | inserting past the first row keeps the rows of each file in order |
| Ledger.WithFileAppend | recording.py:444 | the rows of one file in a concatenation are those of each part, in order |
| Ledger.WithFileNone | recording.py:312 | rows that never name a file hold no rows of that file |
| Ledger.NoFileBelowFirst | recording.py:448 | sorted rows hold no row of a file name below their first |
| Ledger.ParseLine | recording.py:455-461 | a line gives a row exactly when its stripped text contains '\|'; the row's file has no '\|', and writing the row back gives the stripped text |
| Ledger.ParseLineOfRow | recording.py:449 | a well-formed row written as `file\|sentence` parses back to the same row |
| Ledger.RowLineOneLine | recording.py:449 | a well-formed row's line contains no '\n' and no '\r' |
| Ledger.Render | recording.py:448-449 | the lines `file\|sentence\n` of the rows in the given order; ParseRender states that they read back as the rows |
| Ledger.LedgerText | recording.py:446-449 | the text `save_metadata` and `delete_audio` write: the rows sorted by file, then rendered; LedgerRoundTrip states that it loads back as the sorted rows |
| Ledger.ParseRender | recording.py:447-461 | reading back the lines written for well-formed rows gives the same rows in the same order |
| Ledger.ParseLinesCons | recording.py:459-461 | a line that parses to a row contributes that row in front of the rest |
| Ledger.ParseLines | recording.py:455-461 | the rows of the lines that parse, in file order; ParseLinesWellFormed states that they are well formed |
| Ledger.Parse | recording.py:451-461 | `load_metadata` over the ledger text: its text-mode lines (broken at '\n', '\r' and "\r\n") parsed in order; ParseRender and LedgerRoundTrip state it inverts the writer |
| Ledger.ParseLineWellFormed | recording.py:455-461 | a row parsed from one line without '\n' or '\r' is well formed |
| Ledger.ParseLinesWellFormed | recording.py:451-461 | every row `load_metadata` reads is well formed |
| Ledger.LedgerRoundTrip | recording.py:446-461 | the ledger file rewritten from well-formed rows loads back as those rows sorted by file |
| Ledger.LoadedLedgerRoundTrip | recording.py:446-461 | a loaded ledger rewritten and loaded again gives the loaded rows sorted by file |
| Ledger.FileNameChars | recording.py:384 | a generated wav name has no whitespace, no '\|', no '\n' and no '\r' |
| Ledger.WavNameChars | recording.py:384 | any digits-then-".wav" name has no whitespace, '\|', '\n' or '\r' |
| Ledger.SavedRowWellFormed | recording.py:389 | the row saved for a prompt read from file is well formed |
| Prompts.NonBlank | recording.py:94 | keeping the non-blank stripped lines never gives more lines than there were |
| Prompts.NonBlankPrompts | recording.py:94 | every sentence kept from a file is non-empty, stripped and holds no '\n' or '\r' |
| Prompts.NonBlankOfPrompts | recording.py:94 | the filter keeps a list of prompts unchanged |
| Prompts.NonBlankAppend | recording.py:94 | the filter distributes over concatenation |
| Prompts.LoadSentencesPrompts | recording.py:90-105 | a missing file or one with no non-blank line gives the built-in list; otherwise its non-blank stripped lines, which are prompts; never empty |
| Prompts.LoadFromFile | recording.py:95-99 | a file with a non-blank line yields exactly its stripped non-blank lines |
| Prompts.LoadSentences | recording.py:90-105 | `load_sentences`: the built-in prompts when the file is missing, unreadable or has no non-blank line, else its stripped non-blank lines; LoadSentencesPrompts and LoadFromFile state this |
| Prompts.PromptFileLines | recording.py:111-113 | a file written one prompt per line reads back as those lines and one empty tail |
| Prompts.PromptFileNonBlank | recording.py:111-113 | the non-blank lines of a written prompt file are its prompts |
| Prompts.PromptFileRoundTrip | recording.py:107-113 | `load_sentences` of a file `create_default_sentences_file` wrote gives back the prompts written, in order |
| Prompts.PromptFile | recording.py:111-113 | the text `create_default_sentences_file` writes: each prompt followed by '\n'; PromptFileRoundTrip states that `load_sentences` reads it back |
| Signal.Magnitudes | recording.py:139 | `np.abs` keeps the length and takes each sample's magnitude |
| Signal.RmsComparison | recording.py:363-370 | comparing a non-negative RMS with a positive threshold agrees with comparing squares |
| Signal.CheckLevelIsRmsTest | recording.py:363-375 | the level test says too quiet iff rms < 0.02, too loud iff rms > 0.9 and not too quiet, and in range iff 0.02 <= rms <= 0.9 |
| Signal.CheckLevel | recording.py:363-375 | the too-quiet / too-loud / in-range decision on the captured audio, as a mean-square test; CheckLevelIsRmsTest states that it is the source's RMS test |
| Signal.SmoothingWindow | recording.py:142 | the window is `min(512, n // 10)` |
| Signal.Smooth | recording.py:142-146 | smoothing keeps the length, and leaves the magnitudes as they are when the window is at most 1 |
| Signal.FirstAbove | recording.py:149-153 | the forward scan stops at the first sample above the threshold, or at the end |
| Signal.LastAbove | recording.py:156-160 | the backward scan stops at the last sample above the threshold, or at -1 |
| Signal.TrimSpan | recording.py:149-160 | the kept span lies inside the signal; every loud sample lies in [start, end], and strictly before end when the padding is positive; everything outside it, beyond the 50 ms padding, is quiet; with no loud sample it is the whole signal |
| Signal.ScanStart | recording.py:149-153 | the start-finding loop computes the span's start |
| Signal.ScanEnd | recording.py:156-160 | the end-finding loop computes the span's end |
| Signal.TrimSilence | recording.py:133-166 | `trim_silence` computes the specified trim |
| Signal.Trimmed | recording.py:133-166 | what `trim_silence` returns: the padded span around the smoothed loud samples, or the input when that span is shorter than the guard; TrimmedShape and TrimmedSilence state its shape |
| Signal.DefaultTrimFrames | recording.py:136 | at 22050 Hz the minimum span is 2205 frames and the padding 1102 frames |
| Signal.TrimmedShape | recording.py:162-166 | the result is the input, or a slice at least the minimum length long; every loud sample lies in [start, end], and with a positive pre-roll (any rate of at least 20 Hz, such as 22050 Hz) every loud sample is kept |
| Signal.TrimmedSilence | recording.py:162-164 | audio with no loud sample is returned unchanged |
| Signal.Peak | recording.py:128 | `np.max(np.abs(audio))` is non-negative |
| Signal.PeakBound | recording.py:128 | every sample's magnitude is at most the peak |
| Signal.PeakAttained | recording.py:128 | some sample reaches the peak |
| Signal.PeakLeast | recording.py:128 | the peak is the least bound on the magnitudes |
| Signal.Scale | recording.py:127 | scaling multiplies every sample by the factor and keeps the length |
| Signal.NormalizeFactor | recording.py:124-130 | the overall factor is positive |
| Signal.Normalize | recording.py:121-131 | `normalize_audio`: silent audio unchanged, else scaled by the gain and brought down to a 0.95 peak when above; NormalizeIsScaling, NormalizeClips, NormalizeGainOnly and NormalizeKeepsSign state its properties |
| Signal.NormalizeIsScaling | recording.py:121-131 | normalisation multiplies every sample by that single factor |
| Signal.NormalizeClips | recording.py:126-130 | after normalisation of audio that is not all zero, no sample exceeds 0.95 in magnitude |
| Signal.NormalizeGainOnly | recording.py:124-131 | silent audio is unchanged, and audio whose scaled peak is at most 0.95 is only scaled by the gain |
| Signal.SumSquaresScale | recording.py:123 | scaling every sample by k scales the sum of squares by k squared |
| Signal.MeanSquareScale | recording.py:123-127 | scaling every sample by k scales `np.mean(audio ** 2)` by k squared |
| Signal.NormalizeHitsTarget | recording.py:121-131 | with the gain `target_rms / current_rms`, the normalised audio keeps its length and has RMS TARGET_RMS (0.15) whenever the clip guard does not fire |
| Signal.NormalizeKeepsSign | recording.py:121-131 | normalisation keeps the length and the sign of every sample |
| Signal.ClipToLevel | recording.py:129-130 | rescaling by 0.95 / peak brings the peak to at most 0.95 |
| Signal.ScaleTwice | recording.py:127-130 | scaling twice is scaling once by the product |
| Signal.ScaleZero | recording.py:124 | silent audio is unchanged by any scaling |
| Signal.BandMonotone | recording.py:414-433 | a louder level never shows a lower meter band |
| Signal.BandOf | recording.py:414-433 | the meter's band for a level: below 0.05 quiet, below 0.7 good, below 0.9 loud, else clipping; BandMonotone states that it is monotone |
| Signal.Tail | recording.py:411 | `audio[-k:]` is the last k samples, or all when there are fewer |
| Signal.MeterLevel | recording.py:409-411 | the peak magnitude over the last SAMPLE_RATE // 10 samples; MeterClipping and MeterQuiet state which samples decide its band |
| Signal.MeterClipping | recording.py:409-433 | the meter shows "Clipping!" exactly when a sample of the last 0.1 s reaches 0.9 |
| Signal.MeterQuiet | recording.py:409-418 | the meter shows "Too quiet" exactly when every sample of the last 0.1 s is below 0.05 |
| Recorder.Disk.constructor | recording.py:180-181 | the files start as given |
| Recorder.LoadLedger | recording.py:451-461 | no ledger file gives no rows; otherwise the parsed rows, all well formed |
| Recorder.NextUnrecorded | recording.py:291-294 | the stop is the first index from i on that is unrecorded or the prompt count |
| Recorder.NextUnrecordedUnique | recording.py:291-294 | any index with that property is the one skipping reaches |
| Recorder.NextUnrecordedIdempotent | recording.py:291-294 | skipping again from where skipping stopped does not move |
| Recorder.CountWhere | recording.py:272 | a count over n indices is at most n |
| Recorder.CountWhereFull | recording.py:272 | the count is n exactly when every index qualifies |
| Recorder.RecordedCount | recording.py:272 | the recorded count is at most the number of prompts |
| Recorder.RecordedCountFull | recording.py:272 | every prompt is recorded exactly when the count equals the number of prompts |
| Recorder.AllRecordedIffComplete | recording.py:189-190 | at start-up the cursor lands past the end exactly when every prompt is recorded |
| Recorder.HasFileAppend | recording.py:444 | after appending a row, a file is present iff it was before or is the new row's |
| Recorder.DuplicateRowNotCounted | recording.py:444 | appending a row for an already recorded file does not change the count |
| Recorder.SaveCount | recording.py:384-389 | saving prompt i raises the count by one exactly when i was an unrecorded prompt |
| Recorder.SaveRecords | recording.py:384-389 | after saving prompt i, a prompt is recorded iff it was before or it is i |
| Recorder.LedgerAfterSave | recording.py:442-449 | after a save the ledger rows stay well formed and the file reads back as them sorted |
| Recorder.ConcatAppend | recording.py:404 | appending a block extends the concatenated audio by that block |
| Recorder.Concat | recording.py:360 | `np.concatenate(audio_data).flatten()`: the blocks' samples in capture order; ConcatAppend states that each callback block extends it |
| Recorder.TakeShape | recording.py:376-386 | the saved audio is a slice of the capture, the whole of it or at least 2205 frames, scaled by one factor, and peaks at most 0.95 unless silent |
| Recorder.Take | recording.py:376-381 | the samples `stop_recording` writes: the capture trimmed, then normalised; TakeShape states that it is a scaled slice of the capture with a peak of at most 0.95 |
| Recorder.SaveResult | recording.py:376-396 | a save succeeds iff the wav write succeeds, the index names a prompt and the ledger write succeeds; the file is the prompt's name |
| Recorder.StopResult | recording.py:354-375 | a rejection is for a level outside the range; a save or a failed ledger write happens only for a prompt in range |
| Recorder.StopSavesOnlyInRange | recording.py:354-396 | a take is saved iff audio was captured, its level is in range, the prompt exists and both writes succeed; its mean square then lies between the squared thresholds |
| Recorder.Prepare | recording.py:377-381 | the audio written is the capture trimmed, then normalised |
| Recorder.App.constructor | recording.py:172-190 | the ledger is loaded, capture is off and empty, and the cursor is on the first unrecorded prompt |
| Recorder.App.Count | recording.py:272 | the recorded count shown is at most the number of prompts |
| Recorder.App.SkipToNextUnrecorded | recording.py:291-294 | the loop moves the cursor to the first unrecorded prompt from where it is |
| Recorder.App.NextSentence | recording.py:296-299 | the cursor moves strictly forward to the first unrecorded prompt after the current one |
| Recorder.App.PreviousSentence | recording.py:301-305 | the cursor steps back one unless it is at 0 |
| Recorder.App.SkipSentence | recording.py:307-308 | skipping is moving to the next unrecorded prompt |
| Recorder.App.StartRecording | recording.py:323-342 | past the last prompt nothing changes; otherwise the buffer is emptied and recording is on exactly when the stream started |
| Recorder.App.AudioCallback | recording.py:402-404 | while recording each block is appended and the audio grows by it; otherwise nothing changes |
| Recorder.App.SaveMetadata | recording.py:442-449 | the row is appended in memory; the ledger file becomes the sorted rows when the write succeeds and is unchanged otherwise |
| Recorder.App.SaveClip | recording.py:383-396 | the wav file, the rows, the ledger file and the cursor change exactly as far as the save got |
| Recorder.App.StopRecording | recording.py:344-396 | recording stops; the outcome is the specified one; the files, rows and cursor change as the save step says |
| Recorder.App.ToggleRecording | recording.py:317-321 | while recording it is a stop, with the stop's outcome and every change to the files, rows and cursor that a stop makes; otherwise it is a start, with the start's outcome and buffer, and the files, rows and cursor untouched |
| Recorder.App.UpdateMeter | recording.py:406-437 | no meter when not recording, nothing while no block arrived, else the band of the recent peak |
| Review.RemoveAt | recording.py:620 | `pop(k)` drops exactly element k and keeps the others in order |
| Review.ClampAfterPop | recording.py:628-630 | after a pop the cursor stays put, or steps back when it is past the end |
| Review.ReviewWindow.constructor | recording.py:473-479 | the window starts on a copy of the ledger rows at row 0 |
| Review.ReviewWindow.Next | recording.py:593-596 | "Keep" moves forward unless on the last row, and keeps the cursor on a row |
| Review.ReviewWindow.Previous | recording.py:598-601 | back unless on the first row |
| Review.ReviewWindow.Play | recording.py:581-591 | plays the current row's wav file when there is a row, its file exists and it reads; changes nothing |
| Review.ReviewWindow.Delete | recording.py:603-635 | nothing changes without a row, without confirmation or when removal fails; a confirmed row whose file is absent or removed is always popped, both windows then share the rows, and the ledger is rewritten and the cursor clamped exactly when the ledger write succeeds |
| Review.DeleteRemovesOne | recording.py:620 | deleting a row leaves every other row of every file in order |
| Review.DeleteKeepsLedgerReadable | recording.py:620-626 | the ledger rewritten after a delete reads back as the remaining rows, sorted |
| Checkpoint.ConvertLeavesNoPaths | checkpoint_convert.py:7-15 | no path survives in dict values, list items or tuple items, the places `convert_paths` walks (a path used as a dict key is kept, as in the source) |
| Checkpoint.ConvertIsSameShape | checkpoint_convert.py:7-15 | a value has the original's shape with paths replaced by their text exactly when it is the converted value |
| Checkpoint.ConvertWithoutPaths | checkpoint_convert.py:7-15 | a value without paths is unchanged |
| Checkpoint.ConvertIdempotent | checkpoint_convert.py:7-15 | converting twice is converting once |
| Checkpoint.ConvertPaths | checkpoint_convert.py:7-15 | `convert_paths`: a path becomes its text, dict values and list and tuple items are converted, anything else is returned as it is; ConvertIsSameShape characterises it completely |
| Checkpoint.Keys | checkpoint_convert.py:37 | the keys are listed one per entry, in dict order |
| Checkpoint.KeptMembers | checkpoint_convert.py:28-44 | an entry survives exactly when it was there and its key is whitelisted |
| Checkpoint.KeptKeys | checkpoint_convert.py:28-44 | a key remains exactly when it was there and is whitelisted |
| Checkpoint.KeptAllKept | checkpoint_convert.py:37-44 | a dict of whitelisted keys is unchanged and nothing is removed |
| Checkpoint.KeptIdempotent | checkpoint_convert.py:17-55 | stripping twice is stripping once, and the second pass removes nothing |
| Checkpoint.Kept | checkpoint_convert.py:28-44 | the entries of the hyperparameters whose key is whitelisted, in dict order; KeptMembers, KeptKeys and StripDict state that it is what the deletion loop leaves |
| Checkpoint.KeysToRemoveMembers | checkpoint_convert.py:37-38 | a key is to be removed exactly when it is present and not whitelisted |
| Checkpoint.KeysToRemoveDistinct | checkpoint_convert.py:37-38 | the keys to remove of a dict are distinct |
| Checkpoint.KeysToRemove | checkpoint_convert.py:37-38 | `keys_to_remove`: the keys not whitelisted, in dict order; KeysToRemoveMembers states its members |
| Checkpoint.FilterOutMembers | checkpoint_convert.py:40-44 | deleting keys leaves a key exactly when it was there and not deleted |
| Checkpoint.FilterOutMore | checkpoint_convert.py:41-44 | deleting one more key is deleting the extended list |
| Checkpoint.FilterOutKept | checkpoint_convert.py:37-44 | deleting exactly the non-whitelisted keys leaves the whitelisted entries |
| Checkpoint.FilterOutRemovable | checkpoint_convert.py:37-44 | deleting the keys to remove leaves the whitelisted entries in order |
| Checkpoint.FilterOutAbsent | checkpoint_convert.py:42 | deleting an absent key changes nothing |
| Checkpoint.StripDict | checkpoint_convert.py:37-44 | the deletion loop leaves exactly the whitelisted entries in order, and for distinct keys records every key removed |
| Checkpoint.StripDictDone | checkpoint_convert.py:40-44 | the loop's specification ends at the whitelisted entries and, with distinct keys, at all keys to remove |
| Checkpoint.DeleteEachFilters | checkpoint_convert.py:41-43 | `del` of each listed key in turn is filtering them all out |
| Checkpoint.RemovedEachAll | checkpoint_convert.py:41-44 | distinct keys that are all present are each recorded as removed, in order |
| Checkpoint.NotEarlier | checkpoint_convert.py:41-42 | in a list of distinct keys, a key does not occur before its own position |
| Checkpoint.Find | checkpoint_convert.py:19 | `'hyper_parameters' in checkpoint` finds the entry exactly when the key is present |
| Checkpoint.Checkpoint.constructor | checkpoint_convert.py:101 | the checkpoint holds the loaded entries |
| Checkpoint.Checkpoint.StripParams | checkpoint_convert.py:17-55 | without 'hyper_parameters' nothing changes; a non-dict there is an error; otherwise only that entry changes, to its whitelisted part, and the removed keys are reported |
| Checkpoint.BaseName | checkpoint_convert.py:85 | `basename` is the suffix after the last '/' |
| Checkpoint.JoinBaseName | checkpoint_convert.py:87 | the basename of a joined path is the joined name |
| Checkpoint.JoinBaseNameRec | checkpoint_convert.py:87 | after a separator, the basename is what follows |
| Checkpoint.BaseNameSnoc | checkpoint_convert.py:85 | appending a non-separator extends the basename by it |
| Checkpoint.OutputNames | checkpoint_convert.py:84-88 | the output is "processed-" and the input's name, the temp file "temp-" and the input's name, and the two never coincide |
| Checkpoint.OutputPath | checkpoint_convert.py:85-87 | the final checkpoint: "processed-" and the input's file name, joined to the output folder; OutputNames states its file name |
| Checkpoint.TempPath | checkpoint_convert.py:85-88 | the temporary checkpoint: "temp-" and the input's file name, joined to the output folder; OutputNames states that it differs from the final one |
| Export.ParseInt | export_and_test.py:32 | `int()` succeeds only on text with something besides whitespace |
| Export.FirstField | export_and_test.py:32 | `split("_")[0]` is the longest prefix without '_' |
| Export.MaxOf | export_and_test.py:41 | `max` is a member and bounds every element |
| Export.FindLatestVersion | export_and_test.py:22-43 | a missing directory gives None; otherwise the scan computes the specified latest version |
| Export.VersionsMembers | export_and_test.py:29-35 | a number is collected exactly when some directory item qualifies with it |
| Export.Versions | export_and_test.py:28-35 | the versions of the directory items that qualify, in listing order; VersionsMembers states its members |
| Export.LatestIsMaximum | export_and_test.py:37-43 | None iff no item qualifies; otherwise the maximum of the qualifying versions, attained by an item |
| Export.Latest | export_and_test.py:37-43 | `max(versions)`, or none when no item qualifies; LatestIsMaximum, LatestMonotone and LatestOrderIndependent state it |
| Export.LatestBound | export_and_test.py:41 | every qualifying item is at most the latest |
| Export.LatestWitness | export_and_test.py:41 | the latest version belongs to some item |
| Export.LatestMonotone | export_and_test.py:29-43 | more items never lower the latest version |
| Export.LatestOrderIndependent | export_and_test.py:29 | the directory listing order does not matter |
| Export.ParseIntDecimal | export_and_test.py:32 | `int()` reads a decimal back as its number |
| Export.VersionOfPrefixed | export_and_test.py:30-32 | a "version_" name's version is `int` of its field after the prefix |
| Export.FirstFieldOf | export_and_test.py:32 | the first field of a '_'-free text, alone or before "_suffix", is that text |
| Export.VersionOfName | export_and_test.py:30-32 | "version_N" has version N |
| Export.VersionOfNameSuffix | export_and_test.py:30-32 | "version_N_anything" has version N |
| Export.VersionOf | export_and_test.py:30-35 | a name's version: it starts with "version_" and `int(name.split("_")[1])` succeeds, else none; VersionOfPrefixed, VersionOfName and VersionOfNameSuffix state it |
| Export.ChooseVersion | export_and_test.py:230-237 | an explicit version wins; otherwise the latest, or None |
| Export.TargetModel | export_and_test.py:102 | the voice model name never clashes with the exported file names |
| Export.TargetConfig | export_and_test.py:103 | the voice config name never clashes with the exported file names |
| Export.TargetNames | export_and_test.py:102-103 | the config is named after the model plus ".json", the two differ, and distinct voices get distinct names |
| Export.OutputDir.constructor | export_and_test.py:98-99 | the folder holds the given files |
| Export.OutputDir.SetupModelFiles | export_and_test.py:93-134 | without model.onnx nothing changes; otherwise it moves to the voice name, and the config is copied from the source, moved from the export, or missing |
| Export.SetupLeavesVoice | export_and_test.py:110-134 | after a successful setup model.onnx is gone, both voice files hold the right contents, and no unrelated file changed |
| Export.SynthesisKeysDistinct | export_and_test.py:149-157 | the three synthesis keys are distinct |
| Export.CollectSynthesis | export_and_test.py:270-277 | an option is in the parameters exactly when it was given, with its value |
| Export.Present | export_and_test.py:147-157 | the keys present keep their order and are exactly the listed keys that are given |
| Export.SynthesisFlags | export_and_test.py:147-157 | the flags are `--length_scale`, `--noise_scale`, `--noise_w` with values, each only when given, in that order |
| Export.BuildCommand | export_and_test.py:143-157 | the built command is the specified piper command |
| Export.FlagArgsLayout | export_and_test.py:147-157 | the flag list is flag/value pairs, one per present key, in key order |
| Export.FlagArgs | export_and_test.py:147-157 | a flag and its value for each listed key that is given, in key order; FlagArgsLayout, FlagValueOf and FlagValueAbsent state it |
| Export.PairsCons | export_and_test.py:150 | a pair in front of pairs gives pairs for the extended key list |
| Export.FlagInjective | export_and_test.py:150-156 | distinct keys give distinct flags |
| Export.FlagValueOf | export_and_test.py:147-157 | the value after a key's flag is the given value, and the flag is absent when the option is |
| Export.FlagValueAbsent | export_and_test.py:147-157 | keys not listed never appear as flags |
| Export.CommandCarriesOptions | export_and_test.py:143-157 | the command starts with the five fixed words and carries each given option's value under its flag; with no options it is just those five |
| Export.PiperCommand | export_and_test.py:143-157 | `cmd` of `generate_test_audio`: the five fixed words, then the synthesis flags; CommandCarriesOptions states which values it carries |
| Export.TestWavNames | export_and_test.py:267-268 | the test recording `test_<name>.wav` never coincides with model.onnx, config.json or the voice's two files, and distinct voices get distinct test files |

## Left out

- Floating point is modelled as exact reals. NaN and rounding are not modelled.
  One exception is the mean of an empty capture: it is NaN, fails both level
  comparisons, and the model treats it as in range.
- The level test compares the mean square with the squared thresholds, so no
  square root is needed. `Signal.CheckLevelIsRmsTest` states that this agrees
  with the RMS test.
- Recorder.StopRecording takes `TARGET_RMS / rms` as a positive `gain`
  parameter, because the model has no square root.
- Signal.NormalizeIsScaling and the other normalisation members use the same
  `gain` parameter, which stands for the factor `TARGET_RMS / rms`. They do
  not require that value. Signal.IsTargetGain characterises it without a
  square root. For that gain, Signal.NormalizeHitsTarget states that the
  resulting RMS equals 0.15 unless the clip guard fires.
- Audio device I/O is left out: `sounddevice` streams, playback and `sd.wait()`.
  Whether the stream started, and the blocks the callback receives, are
  parameters.
- File I/O is left out: `soundfile` reads and writes, `open`, `os.remove`,
  `os.makedirs`. Each is a success flag. A file's contents are a map entry.
- A failed ledger write is modelled as the file left unchanged. The original
  could leave it truncated.
- Threads are left out: `audio_callback` runs on the device's thread, and
  `master.after` schedules the meter every 50 ms.
- The widgets are not modelled:
  - `build_gui`;
  - `update_sentence_display`, which only shows the recorded count and
    `Recorder.App.Count` gives;
  - the progress bar, the LED, the status labels and message boxes;
  - `update_display` and `draw_waveform`;
  - `close_window`.
- The `str(float)` text of a synthesis value is left out. Values are strings.
- `load_sentences` is modelled on the text of the file, or None when it cannot
  be read. Encoding errors are not modelled. Both it and `load_metadata` read
  through text mode's universal newlines: '\n', '\r' and "\r\n" each end a
  line.
- Export.ParseInt accepts ASCII digits only. Python's `int()` also accepts
  other Unicode digits and '_' separators between digits.
- That the 35 built-in prompts are themselves stripped one-line prompts is not
  proved. It would be a check of the literal list only.
- `create_default_sentences_file` checks `os.path.exists` and reports errors.
  Only the text it writes is modelled.
- `main`'s argument parsing is not modelled.
- Review.ReviewWindow.Delete does not model what follows a failed ledger write.
  The open raises after `app.metadata` was already replaced, and the model
  stops there with the cursor unmoved.
- `update_display` after delete is not modelled. The review window's snapshot
  goes stale when the main window records more takes. The model has the same
  behaviour: the window keeps its own rows and copies them over
  `app.metadata` on delete.
- Paths are forward-slash strings. Windows separators, `os.path.join` with an
  absolute second part, and `str()` normalisation of a `Path` are not modelled.
- Checkpoint.ConvertPaths does not walk sets or other containers. It rebuilds a
  tuple as a tuple, and is not defined for namedtuple-style subclasses.
- Checkpoint.Checkpoint.StripParams does not model what happens with non-string
  keys:
  - Non-string keys are never kept. The original does the same.
  - The printed `', '.join(removed)` would raise a TypeError on them; the model
    does not represent this.
- Checkpoint.Checkpoint.StripParams says `removed == keys_to_remove` only for
  distinct keys. Python dict keys always are.
- The rest of `process_checkpoint` is left out: file dialogs, `torch.load` and
  `torch.save`, the `PosixPath` swap, and the temp file's removal.
- `find_latest_checkpoint` picks by modification time, so it depends on the
  clock and file system. It is not modelled.
- Running subprocesses is not modelled: `export_model` and `piper` itself. Only
  the test's command line is.
- `Path.exists`, `shutil.move` and `shutil.copy` are modelled as updates of a
  name-to-contents map. Permissions, cross-device moves and directories are not.
- The `version_N` scan is modelled over an abstract listing of names with a
  directory flag.
