# Voice cloning front ends: a verified model

This project models the logic that surrounds the speech model in a small
voice-cloning application. It covers:

- **`src/voice_cloner.py`.** The path-containment validator, and the
  `VoiceCloner` wrapper: its input checks, its language list and its text
  preview.
- **`cli.py`.** Voice-file lookup, the interactive session (a loop that keeps
  a file counter and a current language), and the guard sequence of a
  single generation.
- **`web_ui.py`.** The voice list offered in the dropdown, the default voice
  and the language choices, and the guard chain of a generation request.
- **`scripts/prepare_audio.py`.** Trimming a recording to its spoken span,
  the default name of the processed file, joining a voice's samples with
  500 ms pauses, and the `--process-all` loop.

The modules are:

- `Outcomes`: `Option` and `Result`.
- `Text`: Python string behaviour the code relies on: `strip`, `lower`,
  `split`, `{n:03d}`, `sorted` on strings.
- `Paths`: pathlib paths as parts, with `Parse`/`Render` for `Path(s)`/`str(p)`,
  `/`, `name`, `suffix`, `with_suffix`, `parents` and `is_relative_to`.
  It also holds the file system as an abstract snapshot with pathlib's
  `exists` on parts, `is_dir`, directory listing and `resolve`, and
  `OsPathExists`, which is `os.path.exists` on the string itself.
- `Cloner`, `Cli`, `WebUi` and `PrepareAudio`: one per source file.

What stays outside the model comes in as parameters:

- the clock, as a timestamp string;
- the lines typed at the prompt;
- whether the model call succeeds;
- whether the model loads;
- how audio loads;
- pydub's conversion and silence detection.

A model call is recorded as a `SynthCall` value, so the contracts can say
whether the model was called and with what.

Where the code loops or reassigns state step by step, the model is a method,
some of them with loops, proved equal to a specification function. Those
methods are:

- `InteractiveMode` and `Respond`;
- `ListVoiceFiles` and `ListDir`;
- `CombineSamples`, `ProcessAll` and `PrepareAudio.RunScript`;
- `PrepareAudio`, which reassigns `audio` step by step.

The properties of those functions are then proved as lemmas.

## Model

| member | source | states |
|---|---|---|
| Text.TrimLeft | cli.py:125 | Left stripping removes exactly the leading whitespace: the result is a suffix, the removed part is all whitespace, and the result starts with a non-space |
| Text.TrimRight | cli.py:125 | Right stripping removes exactly the trailing whitespace: the result is a prefix, the removed part is all whitespace, and the result ends with a non-space |
| Text.StripShape | cli.py:125 | `strip()` cuts only whitespace: its result occurs in the input at some offset, and everything before and after that occurrence is whitespace |
| Text.Strip | cli.py:125 | `strip()` never returns a text that starts or ends with whitespace |
| Text.BlankIffAllSpace | web_ui.py:80 | `not text.strip()` holds exactly when every character is whitespace, the empty text included |
| Text.StripStripped | cli.py:125 | Stripping an already stripped text changes nothing |
| Text.TakeWord | cli.py:147 | The first word is the longest whitespace-free prefix, and is non-empty when the text starts with a non-space |
| Text.LowerShape | cli.py:132 | `lower()` keeps the length, leaves no letter A-Z, keeps whitespace exactly where it was, and changes no other character except the Kelvin sign |
| Text.LowerIdempotent | cli.py:147 | Lower-casing twice is lower-casing once |
| Text.WordsShape | cli.py:147 | Every word of `split()` is free of whitespace, and there is no word exactly when the text is all whitespace |
| Text.WordsSplit | cli.py:147 | Words are maximal runs: leading whitespace, a whitespace-free word and a rest that is empty or starts with whitespace split into that word followed by the words of the rest |
| Text.WordsTwoThenRest | cli.py:147 | A word, a whitespace gap, a second word and such a rest split into the two words followed by the words of the rest |
| Text.Words | cli.py:147 | `split()` never yields an empty word |
| Text.LangArgumentExists | cli.py:146-147 | A stripped line whose lower case starts with "lang " has at least two words, so `split()[1]` always exists |
| Text.DigitChar | cli.py:160 | Each digit below 10 is written as the character with that value |
| Text.Decimal | cli.py:160 | The decimal form of n is non-empty, all digits, with no leading zero unless n is 0 |
| Text.DecimalRoundTrip | cli.py:160 | Reading the decimal form back gives n |
| Text.LeadingZerosValue | cli.py:160 | Zero padding keeps a numeral's value |
| Text.Pad3RoundTrip | cli.py:160 | The `{counter:03d}` field is all digits and reads back as the counter |
| Text.DecimalLength | cli.py:160 | n < 1000 exactly when its decimal form has at most three digits |
| Text.Pad3Width | cli.py:160 | The padded field is at least three wide, and exactly three for counters below 1000 |
| Text.NoLaterTotal | web_ui.py:31 | Any two strings are ordered one way or the other by Python's `<=` |
| Text.NoLaterTransitive | web_ui.py:31 | Python's string `<=` is transitive |
| Text.NoLaterAntisymmetric | web_ui.py:31 | Two strings that are each `<=` the other are equal |
| Text.Insert | web_ui.py:31 | Inserting into an ascending list keeps it ascending and adds exactly that one element |
| Text.Sort | web_ui.py:31 | `sorted()` returns an ascending permutation of its input |
| Text.Filter | cli.py:48 | Filtering keeps exactly the elements that pass the test, and never lengthens the list |
| Text.SortNoDuplicates | web_ui.py:31 | Sorting distinct names leaves them distinct |
| Paths.Components | cli.py:29 | Every part of a parsed relative path is a proper component: non-empty, not ".", no "/" |
| Paths.Parse | cli.py:29 | `Path(s).parts` are well formed: a root only in front, components elsewhere |
| Paths.SegmentEndOf | cli.py:29 | A component followed by "/" or the end is read as one whole segment |
| Paths.ComponentsOfJoin | web_ui.py:40 | Splitting components joined by "/" gives them back |
| Paths.ParseRender | web_ui.py:40 | `Path(str(p))` is `p` again for every well-formed path |
| Paths.ParseComponent | cli.py:41 | A single component parses to itself |
| Paths.Join | cli.py:41 | Joining an absolute path gives that path; a non-empty right-hand side gives the result its name |
| Paths.JoinStaysWithin | cli.py:41 | Joining a non-empty relative path gives a path strictly inside the left-hand side |
| Paths.ChildOfComponent | cli.py:41 | `dir / name` appends the name when it is a single component |
| Paths.JoinWellFormed | cli.py:41 | The `/` operator keeps paths well formed |
| Paths.LastDot | cli.py:29 | `rfind('.')`: the index of a dot with no dot after it, or -1 |
| Paths.Stem | scripts/prepare_audio.py:67 | The stem followed by the suffix is the whole name |
| Paths.WavSuffix | cli.py:29 | `.suffix == ".wav"` exactly when the name ends in ".wav" and is longer than that |
| Paths.Suffix | cli.py:29 | `.suffix` is empty or a dot-led ending of the name, at least two characters, shorter than the name, with no other dot |
| Paths.WithSuffix | scripts/prepare_audio.py:67 | `with_suffix` fails exactly for a path without a name; otherwise it keeps the parent, names the result stem plus suffix, and keeps the path well formed |
| Paths.RenderEndsWithName | scripts/prepare_audio.py:215-218 | `str(dir / name)` is the name, or ends in "/" followed by the name |
| Paths.OsPathExistsOfRendered | src/voice_cloner.py:89 | For a well-formed path with a name, `os.path.exists` on its string agrees with the path's existence |
| Paths.OsPathExistsStricter | src/voice_cloner.py:89 | `os.path.exists` rejects the empty string, and accepts "c/" only when c is a directory, although pathlib reads both as existing paths |
| Paths.ParentsArePrefixes | src/voice_cloner.py:32 | Every entry of `parents` is a proper prefix of the path |
| Paths.PrefixesAreParents | src/voice_cloner.py:32 | Every non-empty proper prefix, absolute when the path is, is among `parents` |
| Paths.WithinIffPrefix | src/voice_cloner.py:32 | For a non-empty parent, `relative_to` succeeds exactly when the parent's parts are a prefix of the child's |
| Paths.WithinTransitive | src/voice_cloner.py:32 | Containment is transitive |
| Cloner.ValidatePath | src/voice_cloner.py:29-35 | A path is accepted, as its resolved form, exactly when both paths resolve and the resolved path lies at or under the resolved parent; every other case is the one ValueError naming the path and the parent |
| Cloner.ValidatePathIsPrefixTest | src/voice_cloner.py:29-35 | Since resolution yields absolute paths, acceptance is the prefix test on resolved parts |
| Cloner.Preview | src/voice_cloner.py:99 | The preview is the text itself up to 60 characters, else its first 60 characters and "..." (63 in all) |
| Cloner.PreviewIsText | src/voice_cloner.py:99 | The preview equals the text exactly for texts of at most 60 characters, or 63 characters ending in "..." |
| Cloner.VoiceCloner.constructor | src/voice_cloner.py:49-57 | The device is CUDA exactly when a GPU is available |
| Cloner.VoiceCloner.SupportedLanguages | src/voice_cloner.py:146-154 | Sixteen distinct lower-case codes, English first |
| Cloner.VoiceCloner.CloneVoice | src/voice_cloner.py:75-121 | A reference string that `os.path.exists` rejects fails first, even with blank text; that includes the empty string and a file named with a trailing "/". Blank text fails next. Otherwise the output directory is made and the model is called with the arguments unchanged. The output path is returned unchanged exactly when the call succeeds; a failure is re-raised |
| Cloner.VoiceCloner.CloneVoiceCallsIffAdmissible | src/voice_cloner.py:89-112 | The model is called exactly when the reference exists and the text has a non-space character |
| Cloner.VoiceCloner.CloneVoiceStreaming | src/voice_cloner.py:123-144 | Only the reference string is checked, by `os.path.exists`, before any model call; the samples are returned exactly when the call succeeds |
| Cloner.VoiceCloner.StreamingSkipsTextCheck | src/voice_cloner.py:135-142 | With an existing reference, a whitespace-only text reaches the model through streaming but not through `clone_voice` |
| Cli.FindVoiceFile | cli.py:18-52 | Lookup order: a validated direct `.wav` path; else `voices/<name>/combined.wav` if it exists; else a `.wav` entry of the directory `voices/<name>/`; `None` exactly when none applies |
| Cli.DirectHitContained | cli.py:29-35 | A file found by the direct branch lies inside the resolved `voices/` |
| Cli.NameLookupNotContained | cli.py:37-43 | The name lookups skip containment: "../x" finds `voices/../x/combined.wav` |
| Cli.Classify | cli.py:125-156 | A line is nothing exactly when blank. It is quit exactly when, stripped and lower-cased, it is quit, exit or q. It is help exactly when it lower-cases to "help". Spoken text is the stripped line and is never empty |
| Cli.ClassifyLangCode | cli.py:146-147 | A line is a language command exactly when its stripped lower case starts with "lang ". The code is then the lower case of the second word of `split()` |
| Cli.ClassifyLang | cli.py:146-147 | "lang" in any case, a gap that starts with a space, a code and a rest that is empty or starts with whitespace select the code in lower case; the rest is ignored |
| Cli.SpokenTextIsNotCommand | cli.py:125-163 | Text handed to the model reads as text again: it is no command |
| Cli.InteractiveFileNameShape | cli.py:159-160 | The name is `interactive_<ts>_` followed by at least three digits that read back as the counter, then `.wav`; it is one path component when the timestamp has no "/" |
| Cli.InteractiveFileNameInjective | cli.py:159-160 | Within one timestamp, different counters give different `interactive_<ts>_<nnn>.wav` names |
| Cli.Generate | cli.py:158-186 | A generation uses the current counter and language and the numbered output. The counter moves on exactly when the file was saved; otherwise the session is unchanged |
| Cli.Step | cli.py:122-186 | One turn speaks exactly when the line is text, and stops exactly on a quit word |
| Cli.StepKeepsSession | cli.py:128-156 | A blank line, help, quit and an unsupported language leave counter and language as they were |
| Cli.StepLanguage | cli.py:146-156 | On a line whose stripped lower case starts with "lang ", `split()[1]` exists, and the language becomes its lower case exactly when that code is supported; the counter is kept |
| Cli.Respond | cli.py:125-186 | The imperative loop body computes exactly one turn |
| Cli.InteractiveMode | cli.py:96-194 | The `while True` loop starts at counter 1 and "en" and computes the session over the lines read. It stops after quit or at end of input |
| Cli.StepCounter | cli.py:160-186 | A spoken turn uses the current counter, and a turn adds one to the counter exactly when it saved a file |
| Cli.StepKeepsLanguage | cli.py:146-156 | One turn keeps the language among the supported codes |
| Cli.StepPlainSpeech | cli.py:125-168 | Every model call of a turn is on plain text |
| Cli.TurnCountsSaves | cli.py:160-186 | The session's turn function counts saves and stamps the current counter |
| Cli.TurnKeepsLanguage | cli.py:146-156 | The session's turn function keeps the language supported |
| Cli.TurnPlainSpeech | cli.py:125-168 | The session's turn function only speaks plain text |
| Cli.RunCounter | cli.py:119-186 | The counter at the end is the starting counter plus the number of saved generations |
| Cli.RunKeepsLanguage | cli.py:120-156 | The language stays supported throughout a session |
| Cli.RunShape | cli.py:122-134 | At most one effect per line, nothing after a quit, and a session that ends early ends on a quit |
| Cli.RunEffectsSatisfy | cli.py:122-194 | A property of every turn's effect holds for every effect of the session |
| Cli.RunCountersFrom | cli.py:119-183 | No generation uses a counter below the session's counter at its start |
| Cli.SavedCountersIncrease | cli.py:160-183 | After a saved generation every later generation uses a larger counter |
| Cli.InteractiveSession | cli.py:119-186 | A session started at counter 1 and "en" ends with counter 1 + saved files. It keeps the language supported and never speaks a command. Two saved files with the same timestamp never share a name |
| Cli.SingleShot | cli.py:263-347 | On success, the text was present, non-blank and at most 10000 characters, and the output is the validated `--output` or `outputs/output_<ts>.wav`. A voice that is not found ends the run. A missing or empty text is refused exactly when every earlier step passed |
| Cli.SingleShotLengthBoundary | cli.py:306-309 | 10000 characters pass the length check, 10001 do not |
| Cli.OutputPath | cli.py:311-323 | An `--output` the validator rejects gives the error naming it and "outputs". An accepted one lies inside the resolved `outputs/`. Without `--output` the path is `outputs/output_<ts>.wav` |
| Cli.SingleShotBlankTextRefused | cli.py:299-347 | A whitespace-only `--text` passes `main`'s own check, is refused by `clone_voice`, and exits with status 1 |
| Cli.SingleShotExitStatus | cli.py:263-347 | The exit status is 0 exactly when voices were listed, a session was started, or the file was written |
| WebUi.SampleNames | web_ui.py:39 | A directory's samples are exactly its `sample_*.wav` entries, ascending |
| WebUi.EntryPathNamesKey | web_ui.py:36-40 | An entry's path parses back to `voices/<dir>/<file>`, and `os.path.exists` accepts it exactly when that file exists |
| WebUi.ListDir | web_ui.py:32-41 | The inner loop builds exactly one directory's entries: `combined.wav` if present, then its samples |
| WebUi.ListVoiceFiles | web_ui.py:18-43 | The nested loops return exactly the specified voice list, empty when `voices/` is absent |
| WebUi.SampleIsNotCombined | web_ui.py:34-41 | No `sample_*.wav` name is `combined.wav`, so no file is listed twice |
| WebUi.DirKeysDir | web_ui.py:36-40 | A directory's entries all carry that directory's name |
| WebUi.CombinedThenSamplesOrdered | web_ui.py:34-41 | `combined.wav` followed by ascending samples is in list order |
| WebUi.DirKeysOrdered | web_ui.py:34-41 | One directory's entries are in list order |
| WebUi.OrderedAppend | web_ui.py:31-41 | Entries of earlier directories followed by those of a later one stay in order |
| WebUi.KeysOfOrdered | web_ui.py:31-41 | Visiting strictly ascending directories gives an ordered list whose entries come from those directories |
| WebUi.VoiceKeysOrdered | web_ui.py:31-41 | Directories come in ascending order. Within one, `combined.wav` comes first and the samples follow in ascending order |
| WebUi.KeysOfMembers | web_ui.py:31-41 | An entry is listed exactly when its directory was visited and the directory offers it |
| WebUi.DirKeysMembers | web_ui.py:32-41 | A directory offers its `combined.wav` and its `sample_*.wav` files, and only if it is a directory not starting with "." |
| WebUi.VoiceKeysMembers | web_ui.py:28-41 | Listed exactly: the `combined.wav` and `sample_*.wav` files of non-hidden directories of `voices/`; nothing without `voices/` |
| WebUi.DefaultVoiceIsFirst | web_ui.py:120-133 | The default voice is `None` exactly when nothing is listed. Otherwise it is the path of the entry that precedes all others |
| WebUi.LanguageChoices | web_ui.py:156 | One choice per supported code, in order, each carrying its code |
| WebUi.LanguageChoiceLabel | web_ui.py:156 | A code with a display name shows the name; one without shows the code itself |
| WebUi.ShippedLanguagesNamed | web_ui.py:135-156 | Every supported code has a display name, so every choice shows its name |
| WebUi.GenerateSpeech | web_ui.py:65-118 | Blank text is refused before the length test, and the length refusal comes exactly for non-blank text over 10000 characters. Every error returns no audio, and success returns `outputs/web_ui_<ts>.wav`. The model is called exactly when all guards pass, the validated path exists, and `os.path.exists` also accepts the voice string as given |
| WebUi.SpeechLengthBoundary | web_ui.py:78-84 | 10000 characters pass, 10001 do not |
| WebUi.SpeechVoiceOutside | web_ui.py:89-95 | A voice outside `voices/` yields the validator's error and no model call |
| WebUi.SpeechOutputInOutputs | web_ui.py:98-103 | The audio path is a file directly inside `outputs/`, and reads back as that path |
| PrepareAudio.PyIndex | scripts/prepare_audio.py:119 | A slice bound counts from the end when negative, and is clamped to the length |
| PrepareAudio.PySlice | scripts/prepare_audio.py:61 | `audio[i:j]` never lengthens audio and is the plain slice for bounds inside it |
| PrepareAudio.Trim | scripts/prepare_audio.py:59-63 | Trimming never lengthens the audio, and keeps it whole when nothing is detected |
| PrepareAudio.TrimKeepsSpan | scripts/prepare_audio.py:59-61 | With detected ranges, exactly the span from the first start to the last end is kept |
| PrepareAudio.TrimKeepsSound | scripts/prepare_audio.py:53-61 | Every detected range survives trimming unchanged, shifted by the first start |
| PrepareAudio.ProcessedPath | scripts/prepare_audio.py:66-67 | The default output exists exactly when the input has a name (otherwise `with_suffix` raises). Its parts are then the input's parent followed by the input's stem plus ".processed.wav" |
| PrepareAudio.Prepare | scripts/prepare_audio.py:15-79 | Loading failure, and only that, gives the load error, and the export is never longer than the converted audio |
| PrepareAudio.PrepareAudio | scripts/prepare_audio.py:15-79 | The step-by-step reassignments of `audio` compute `Prepare` |
| PrepareAudio.PrepareOutcome | scripts/prepare_audio.py:29-79 | A loaded recording is exported as exactly its detected span, to the given path or else to the `.processed.wav` path |
| PrepareAudio.SampleStem | scripts/prepare_audio.py:67 | A sample's stem is its name without ".wav" |
| PrepareAudio.TwinIsSample | scripts/prepare_audio.py:67 | The `.processed.wav` twin of a sample is again a `sample_*.wav` component holding ".processed" |
| PrepareAudio.ProcessedPathOfSample | scripts/prepare_audio.py:66-67 | `dir/sample_X.wav` is processed into `dir/sample_X.processed.wav` |
| PrepareAudio.ProcessedTwin | scripts/prepare_audio.py:66-67 | The processed twin is a sample name and its path holds ".processed" |
| PrepareAudio.SampleNamesSorted | scripts/prepare_audio.py:96 | The samples are exactly the directory's `sample_*.wav` entries, ascending; none for a missing directory |
| PrepareAudio.Loaded | scripts/prepare_audio.py:108-116 | A sample contributes at most one clip, so there are never more clips than samples |
| PrepareAudio.PaddedIsJoinedThenPause | scripts/prepare_audio.py:108-119 | The accumulated audio is the clips joined by pauses plus one trailing pause |
| PrepareAudio.DropLastPause | scripts/prepare_audio.py:119 | `combined[:-500]` removes exactly the trailing pause, and keeps empty audio empty |
| PrepareAudio.JoinedLength | scripts/prepare_audio.py:108-119 | k >= 1 joined clips last their total plus 500 ms times k - 1 |
| PrepareAudio.LoadedSkipsFailure | scripts/prepare_audio.py:110-116 | A sample that fails to load contributes nothing wherever it stands, and later samples still count |
| PrepareAudio.PaddedStep | scripts/prepare_audio.py:110-114 | Each further sample adds its clip and a pause if it loads, and nothing otherwise |
| PrepareAudio.CombineSamples | scripts/prepare_audio.py:82-134 | No samples gives `None`. Otherwise the loop produces the loaded samples, in sorted order, joined by 500 ms pauses, written to `voice_dir / output_name` |
| PrepareAudio.CombinedDuration | scripts/prepare_audio.py:108-125 | The combined duration is the samples' total plus 500 ms per gap, and empty when nothing loads |
| PrepareAudio.Pending | scripts/prepare_audio.py:215-218 | Processing takes exactly the samples whose path has no ".processed" |
| PrepareAudio.ProcessAll | scripts/prepare_audio.py:205-223 | The loop prepares exactly the pending samples, in order |
| PrepareAudio.TwinSkippedButCombined | scripts/prepare_audio.py:209-220 | A processed twin is skipped by `--process-all` but still combined with its original |
| PrepareAudio.RunScript | scripts/prepare_audio.py:184-228 | A missing voice directory stops first. Then `--input` prepares one file, and `--process-all` without samples stops. Otherwise the samples are combined into `combined.wav` |

## Left out

- The neural speech model is not modelled: loading XTTS-v2, torch device detection, and the `tts_to_file`/`tts` calls. A call is a `SynthCall` record, and its success or its samples are inputs.
- The Gradio interface (layout, events, launch) and every argparse parser are not modelled. Parsed options are datatypes.
- Playback through `ffplay` and all console output are not modelled, including `list_voices`, which only prints. File sizes printed in KB are also left out.
- pydub's DSP is left out: mono conversion, resampling to 22050 Hz, `normalize` and `detect_nonsilent` are the parameters `condition` and `detect`. Audio is one integer per millisecond.
- PrepareAudio.PySlice: follows Python list slicing, not pydub's frame arithmetic. The two agree for the lengths the script produces: the combined audio is either empty or at least 500 ms long, and detected ranges lie inside the audio.
- PrepareAudio.RunScript: `AudioSegment.from_file` and `from_wav` are one `load` parameter. The file system after processing, as `combine_samples` sees it, is a separate snapshot parameter.
- The file system is an abstract snapshot passed in. Symlink and working-directory resolution are the `resolve` function. Directory creation (`mkdir`) is assumed to succeed. Its failure, an `OSError` from `resolve`, and `iterdir` on a `voices` that is not a directory are not modelled.
- `glob` metacharacters inside a directory name are not modelled.
- Sorting glob results is modelled on names. This equals sorting the full path strings because they share the directory prefix.
- WebUi.VoiceKeysOrdered: assumes the names in `voices/` are distinct, as in any directory listing.
- Timestamps from `datetime.now()` are a parameter.
- Cli.InteractiveMode: a KeyboardInterrupt or EOF at the prompt is end of input. A KeyboardInterrupt during a generation also ends the session in the program; the model has no counterpart for it.
- Text.Lower: handles ASCII letters and the Kelvin sign only, not full Unicode case mapping. Commands and language codes are compared with ASCII words, so this is exact for them.
- Paths.Parse: reads a leading "//" as "/", as pathlib does on POSIX apart from that one special case.
- Cloner.VoiceCloner.constructor: model loading and download are not modelled. `Cli.SingleShot` takes whether loading succeeded as `clonerLoads`.
- `web_ui.py`'s start-up path when the model fails to load is not modelled.
- PrepareAudio.Prepare, PrepareAudio.CombineSamples, PrepareAudio.RunScript: `audio.export` and the `stat()` after it (scripts/prepare_audio.py:69, 76, 123, 131) are assumed to succeed. In the program a failure, for example an `--output` in a directory that does not exist, raises out of the script with a traceback; the model returns the export instead.
- Cli.SingleShot, WebUi.GenerateSpeech: the `stat()` of the written file after a successful synthesis (cli.py:342, web_ui.py:114) is assumed to succeed. In the program its failure is caught by the surrounding `try`: `cli.py` then exits with status 1 and `web_ui.py` returns no audio and an error message.
- `scripts/record_voice.py` (microphone capture and its duration prompt), `quick_clone.py` (argv joining and the same checks as `cli.py`) and `src/__init__.py` (re-exports) are not part of this model.
