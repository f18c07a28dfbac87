/**
  The audio preparation script: trimming one recording to its spoken span
  and naming the result, joining a voice's samples with pauses, and the
  command line that drives both.  Audio is one amplitude per millisecond,
  as pydub indexes it; loading, channel and rate conversion, normalisation
  and silence detection are library calls and come in as parameters.
*/
module PrepareAudio {
  import opened Outcomes
  import opened Text
  import opened Paths

  /** One amplitude per millisecond. */
  type Audio = seq<int>

  /** The pause put after every sample, and trimmed off the end. */
  const Pause: nat := 500

  function Silence(ms: nat): (a: Audio)
    ensures |a| == ms && forall i :: 0 <= i < ms ==> a[i] == 0
  {
    seq(ms, _ => 0)
  }

  /** A slice bound as Python reads it: negative counts from the end, and both are clamped. */
  function PyIndex(i: int, n: nat): (k: nat)
    ensures k <= n
    ensures 0 <= i <= n ==> k == i
    ensures -(n as int) <= i < 0 ==> k as int == n as int + i
  {
    if i < 0 then (if i + n < 0 then 0 else i + n) else (if i > n then n else i)
  }

  /** `audio[i:j]`: empty when the bounds cross. */
  function PySlice(a: Audio, i: int, j: int): (r: Audio)
    ensures |r| <= |a|
    ensures 0 <= i <= j <= |a| ==> r == a[i..j]
  {
    var s, e := PyIndex(i, |a|), PyIndex(j, |a|);
    if s < e then a[s..e] else []
  }

  /** One `[start, end]` pair of `detect_nonsilent`. */
  datatype Range = Range(start: int, end: int)

  /** What `detect_nonsilent` yields: non-empty ranges inside the audio, in order and apart. */
  predicate Detected(ranges: seq<Range>, n: nat) {
    && (forall k :: 0 <= k < |ranges| ==> 0 <= ranges[k].start < ranges[k].end <= n)
    && (forall i, j :: 0 <= i < j < |ranges| ==> ranges[i].end <= ranges[j].start)
  }

  /** The trimming step: from the first range's start to the last range's end, or all of it. */
  function Trim(audio: Audio, ranges: seq<Range>): (r: Audio)
    ensures |r| <= |audio|
    ensures ranges == [] ==> r == audio
  {
    if ranges == [] then audio else PySlice(audio, ranges[0].start, ranges[|ranges| - 1].end)
  }

  /** With detected ranges, exactly the span from the first start to the last end is kept. */
  lemma TrimKeepsSpan(audio: Audio, ranges: seq<Range>)
    requires Detected(ranges, |audio|) && ranges != []
    ensures ranges[0].start <= ranges[|ranges| - 1].end
    ensures Trim(audio, ranges) == audio[ranges[0].start..ranges[|ranges| - 1].end]
    ensures |Trim(audio, ranges)| == ranges[|ranges| - 1].end - ranges[0].start
  {
    if |ranges| > 1 {
      assert ranges[0].end <= ranges[|ranges| - 1].start;
    }
  }

  /** Trimming cuts no detected sound: each range reappears, shifted by the first start. */
  lemma TrimKeepsSound(audio: Audio, ranges: seq<Range>, k: int)
    requires Detected(ranges, |audio|) && 0 <= k < |ranges|
    ensures var first := ranges[0].start;
      && 0 <= ranges[k].start - first <= ranges[k].end - first <= |Trim(audio, ranges)|
      && Trim(audio, ranges)[ranges[k].start - first..ranges[k].end - first] == audio[ranges[k].start..ranges[k].end]
  {
    TrimKeepsSpan(audio, ranges);
    var first, last := ranges[0].start, ranges[|ranges| - 1].end;
    if 0 < k {
      assert ranges[0].end <= ranges[k].start;
    }
    if k < |ranges| - 1 {
      assert ranges[k].end <= ranges[|ranges| - 1].start;
    }
    assert audio[first..last][ranges[k].start - first..ranges[k].end - first] == audio[ranges[k].start..ranges[k].end];
  }

  const ProcessedSuffix: string := ".processed.wav"

  /** `str(Path(input_path).with_suffix(".processed.wav"))`; `None` is the ValueError for a path without a name. */
  function ProcessedPath(input: string): (r: Option<string>)
    ensures r.None? <==> Name(Parse(input)) == ""
    ensures r.Some? ==>
      Parse(r.value) == Parent(Parse(input)) + [Stem(Name(Parse(input))) + ProcessedSuffix]
  {
    match WithSuffix(Parse(input), ProcessedSuffix)
    case None => None
    case Some(p) =>
      ParseRender(p);
      assert p == Parent(p) + [Name(p)];
      Some(Render(p))
  }

  /** What `prepare_audio` raises or returns instead of a file. */
  datatype PrepareError = LoadFailed | NoName

  /** The exported file: where it goes and what it holds. */
  datatype Export = Export(path: string, audio: Audio)

  /**
    What `prepare_audio` produces from the loaded audio (`None` when
    loading raised); `condition` is the mono, 22050 Hz and normalisation
    steps, `detect` is `detect_nonsilent`.
  */
  function Prepare(input: string, output: Option<string>, loaded: Option<Audio>,
                   condition: Audio -> Audio, detect: Audio -> seq<Range>): (r: Result<Export, PrepareError>)
    ensures r == Err(LoadFailed) <==> loaded.None?
    ensures r.Ok? ==> |r.value.audio| <= |condition(loaded.value)|
  {
    match loaded
    case None => Err(LoadFailed)
    case Some(a) =>
      var audio := Trim(condition(a), detect(condition(a)));
      match output
      case Some(path) => Ok(Export(path, audio))
      case None =>
        match ProcessedPath(input)
        case None => Err(NoName)
        case Some(path) => Ok(Export(path, audio))
  }

  /** `prepare_audio`: `audio` is reassigned through conversion and trimming, then exported. */
  method PrepareAudio(input: string, output: Option<string>, loaded: Option<Audio>,
                      condition: Audio -> Audio, detect: Audio -> seq<Range>) returns (r: Result<Export, PrepareError>)
    ensures r == Prepare(input, output, loaded, condition, detect)
  {
    if loaded.None? {
      return Err(LoadFailed);
    }
    var audio := loaded.value;
    audio := condition(audio);
    var ranges := detect(audio);
    if ranges != [] {
      var start, end := ranges[0].start, ranges[|ranges| - 1].end;
      audio := PySlice(audio, start, end);
    }
    var outputPath: string;
    if output.None? {
      var named := ProcessedPath(input);
      if named.None? {
        return Err(NoName);
      }
      outputPath := named.value;
    } else {
      outputPath := output.value;
    }
    return Ok(Export(outputPath, audio));
  }

  /**
    A loaded recording is exported trimmed to its detected span, to the
    path given or else next to the input; only a failed load, or a default
    name for a path without one, yields no file.
  */
  lemma PrepareOutcome(input: string, output: Option<string>, loaded: Option<Audio>,
                       condition: Audio -> Audio, detect: Audio -> seq<Range>)
    requires loaded.Some?
    requires var a := condition(loaded.value); Detected(detect(a), |a|) && detect(a) != []
    ensures var a := condition(loaded.value);
      var ranges := detect(a);
      var r := Prepare(input, output, loaded, condition, detect);
      && (r.Ok? <==> output.Some? || ProcessedPath(input).Some?)
      && (r.Ok? ==> r.value.audio == a[ranges[0].start..ranges[|ranges| - 1].end])
      && (r.Ok? ==> r.value.path == if output.Some? then output.value else ProcessedPath(input).value)
  {
    var a := condition(loaded.value);
    var ranges := detect(a);
    TrimKeepsSpan(a, ranges);
    var audio := Trim(a, ranges);
    assert Prepare(input, output, loaded, condition, detect) ==
      if output.Some? then Ok(Export(output.value, audio))
      else if ProcessedPath(input).None? then Err(NoName)
      else Ok(Export(ProcessedPath(input).value, audio));
  }

  /** A sample's name with `.wav` replaced by `.processed.wav`: the twin `prepare_audio` writes by default. */
  function TwinName(name: string): string
    requires |name| >= 4
  {
    name[..|name| - 4] + ProcessedSuffix
  }

  lemma ContainsInSuffix(pre: string, s: string, sub: string, i: int)
    requires OccursAt(s, sub, i)
    ensures Contains(pre + s, sub)
  {
    assert (pre + s)[|pre| + i..|pre| + i + |sub|] == s[i..i + |sub|];
    assert OccursAt(pre + s, sub, |pre| + i);
  }

  /** A sample's stem is its name without ".wav". */
  lemma SampleStem(name: string)
    requires MatchesSample(name)
    ensures Stem(name) == name[..|name| - 4]
  {
    WavSuffix(name);
    assert Stem(name) + ".wav" == name;
  }

  /** The twin of a sample is again a sample name, a path component, and holds ".processed". */
  lemma TwinIsSample(name: string)
    requires IsComponent(name) && MatchesSample(name)
    ensures IsComponent(TwinName(name)) && MatchesSample(TwinName(name))
    ensures OccursAt(TwinName(name), ".processed", |name| - 4)
  {
    var stem := name[..|name| - 4];
    var twin := TwinName(name);
    assert twin[..7] == stem[..7] == name[..7];
    assert twin[|twin| - 4..] == ".wav";
    forall i | 0 <= i < |twin| ensures twin[i] != '/' {
      if i < |stem| { assert twin[i] == name[i]; }
    }
    assert twin[|stem|..|stem| + 10] == ProcessedSuffix[..10];
  }

  /** The default output of `dir/sample_X.wav` is `dir/sample_X.processed.wav`. */
  lemma ProcessedPathOfSample(dir: Parts, name: string)
    requires WellFormed(dir) && IsComponent(name) && MatchesSample(name)
    ensures ProcessedPath(Render(dir + [name])) == Some(Render(dir + [TwinName(name)]))
  {
    var p := dir + [name];
    WellFormedChild(dir, name);
    ParseRender(p);
    assert name != Root && Name(p) == name;
    SampleStem(name);
    assert p[..|p| - 1] == dir;
  }

  /**
    For a sample `dir/sample_X.wav` the default output is
    `dir/sample_X.processed.wav`: again a `sample_*.wav` name, and a path
    holding ".processed".
  */
  lemma ProcessedTwin(dir: Parts, name: string)
    requires WellFormed(dir) && IsComponent(name) && MatchesSample(name)
    ensures ProcessedPath(Render(dir + [name])) == Some(Render(dir + [TwinName(name)]))
    ensures IsComponent(TwinName(name)) && MatchesSample(TwinName(name))
    ensures Contains(Render(dir + [TwinName(name)]), ".processed")
  {
    ProcessedPathOfSample(dir, name);
    TwinIsSample(name);
    var twin := TwinName(name);
    RenderEndsWithName(dir, twin);
    var pre :| Render(dir + [twin]) == pre + twin && (pre == [] || pre[|pre| - 1] == '/');
    ContainsInSuffix(pre, twin, ".processed", |name| - 4);
  }

  /** `sorted(glob.glob(str(voice_dir / "sample_*.wav")))`, as names; nothing when the directory is missing. */
  function SampleNamesIn(fs: FileSystem, dir: Parts): seq<string> {
    if fs.isDir(dir) then Sort(Filter(fs.listing(dir), MatchesSample)) else []
  }

  /**
    The samples of a directory are exactly its `sample_*.wav` entries, in
    ascending order; a missing directory has none.
  */
  lemma SampleNamesSorted(fs: FileSystem, dir: Parts)
    ensures Ascending(SampleNamesIn(fs, dir))
    ensures forall n :: n in SampleNamesIn(fs, dir) <==> fs.isDir(dir) && n in fs.listing(dir) && MatchesSample(n)
  {
    var r := SampleNamesIn(fs, dir);
    assert forall n :: n in r <==> n in multiset(r);
  }

  /** The sample paths as `glob` returns them, in sorted order. */
  function SamplePaths(fs: FileSystem, dir: Parts): (paths: seq<string>)
    ensures |paths| == |SampleNamesIn(fs, dir)|
  {
    var names := SampleNamesIn(fs, dir);
    seq(|names|, k requires 0 <= k < |names| => Render(dir + [names[k]]))
  }

  /** The samples that load, in order. */
  function Loaded(paths: seq<string>, load: string -> Option<Audio>): (clips: seq<Audio>)
    ensures |clips| <= |paths|
    decreases |paths|
  {
    if paths == [] then []
    else
      var last := paths[|paths| - 1];
      Loaded(paths[..|paths| - 1], load) + (if load(last).Some? then [load(last).value] else [])
  }

  /** Each clip followed by a pause: what the loop of `combine_samples` accumulates. */
  function Padded(clips: seq<Audio>): Audio
    decreases |clips|
  {
    if clips == [] then [] else Padded(clips[..|clips| - 1]) + clips[|clips| - 1] + Silence(Pause)
  }

  /** The clips with one pause between neighbours, and none at either end. */
  function Joined(clips: seq<Audio>): Audio
    decreases |clips|
  {
    if clips == [] then []
    else if |clips| == 1 then clips[0]
    else Joined(clips[..|clips| - 1]) + Silence(Pause) + clips[|clips| - 1]
  }

  function TotalLength(clips: seq<Audio>): nat
    decreases |clips|
  {
    if clips == [] then 0 else TotalLength(clips[..|clips| - 1]) + |clips[|clips| - 1]|
  }

  /** The accumulated audio is the joined clips and one trailing pause. */
  lemma {:induction false} PaddedIsJoinedThenPause(clips: seq<Audio>)
    requires clips != []
    ensures Padded(clips) == Joined(clips) + Silence(Pause)
    decreases |clips|
  {
    if |clips| == 1 {
      assert clips[..0] == [];
    } else {
      var init := clips[..|clips| - 1];
      PaddedIsJoinedThenPause(init);
    }
  }

  /** `combined[:-500]` removes exactly the trailing pause, and leaves empty audio empty. */
  lemma DropLastPause(clips: seq<Audio>)
    ensures PySlice(Padded(clips), 0, -(Pause as int)) == Joined(clips)
  {
    if clips != [] {
      PaddedIsJoinedThenPause(clips);
      var j := Joined(clips);
      assert (j + Silence(Pause))[0..|j|] == j;
    }
  }

  /** With k >= 1 clips the joined length is their total plus 500 ms for each of the k - 1 gaps. */
  lemma {:induction false} JoinedLength(clips: seq<Audio>)
    requires clips != []
    ensures |Joined(clips)| == TotalLength(clips) + Pause * (|clips| - 1)
    decreases |clips|
  {
    if |clips| == 1 {
      assert clips[..0] == [];
    } else {
      JoinedLength(clips[..|clips| - 1]);
    }
  }

  /** A sample that fails to load adds nothing, wherever it stands, and the rest go on. */
  lemma {:induction false} LoadedSkipsFailure(before: seq<string>, failed: string, after: seq<string>,
                                              load: string -> Option<Audio>)
    requires load(failed).None?
    ensures Loaded(before + [failed] + after, load) == Loaded(before + after, load)
    decreases |after|
  {
    if after == [] {
      var s := before + [failed];
      assert s + after == s && before + after == before;
      assert s[..|s| - 1] == before && s[|s| - 1] == failed;
      assert Loaded(s, load) == Loaded(before, load) + [];
    } else {
      var init := after[..|after| - 1];
      LoadedSkipsFailure(before, failed, init, load);
      assert (before + [failed] + after)[..|before| + |after|] == before + [failed] + init;
      assert (before + after)[..|before| + |after| - 1] == before + init;
    }
  }

  /** A combined file: where it is written and what it holds. */
  datatype Combined = Combined(path: Parts, audio: Audio)

  /** The default `output_name`: the file the front ends look for in a voice directory. */
  const DefaultCombinedName: string := CombinedName

  /** One more sample extends the accumulated audio by its clip and a pause, or not at all. */
  lemma PaddedStep(paths: seq<string>, i: int, load: string -> Option<Audio>)
    requires 0 <= i < |paths|
    ensures Padded(Loaded(paths[..i + 1], load))
            == Padded(Loaded(paths[..i], load)) + (if load(paths[i]).Some? then load(paths[i]).value + Silence(Pause) else [])
  {
    assert paths[..i + 1][..i] == paths[..i];
    var clips := Loaded(paths[..i], load);
    if load(paths[i]).Some? {
      var a := load(paths[i]).value;
      assert Loaded(paths[..i + 1], load) == clips + [a];
      assert (clips + [a])[..|clips|] == clips;
      assert Padded(clips + [a]) == Padded(clips) + a + Silence(Pause);
    } else {
      assert paths[..i + 1][i] == paths[i];
      assert Loaded(paths[..i + 1], load) == clips + [] == clips;
    }
  }

  /**
    `combine_samples`: nothing without samples; otherwise every sample
    that loads, in sorted order, each followed by a 500 ms pause, the last
    pause cut, written to `voice_dir / output_name`.
  */
  method CombineSamples(fs: FileSystem, voiceDir: Parts, outputName: string, load: string -> Option<Audio>)
    returns (r: Option<Combined>)
    ensures r.None? <==> SampleNamesIn(fs, voiceDir) == []
    ensures r.Some? ==> r.value.path == Child(voiceDir, outputName)
    ensures r.Some? ==> r.value.audio == Joined(Loaded(SamplePaths(fs, voiceDir), load))
  {
    var samples := SamplePaths(fs, voiceDir);
    if samples == [] {
      return None;
    }
    var combined: Audio := [];
    var i := 0;
    while i < |samples|
      invariant 0 <= i <= |samples|
      invariant combined == Padded(Loaded(samples[..i], load))
    {
      PaddedStep(samples, i, load);
      var loaded := load(samples[i]);
      if loaded.Some? {
        combined := combined + loaded.value;
        combined := combined + Silence(Pause);
      }
      i := i + 1;
    }
    assert samples[..i] == samples;
    DropLastPause(Loaded(samples, load));
    combined := PySlice(combined, 0, -(Pause as int));
    return Some(Combined(Child(voiceDir, outputName), combined));
  }

  /**
    When k >= 1 samples load, the combined audio lasts their total plus
    500 ms times k - 1; when none loads it is empty.
  */
  lemma CombinedDuration(fs: FileSystem, voiceDir: Parts, load: string -> Option<Audio>)
    ensures var clips := Loaded(SamplePaths(fs, voiceDir), load);
      && (clips == [] ==> Joined(clips) == [])
      && (clips != [] ==> |Joined(clips)| == TotalLength(clips) + Pause * (|clips| - 1))
  {
    var clips := Loaded(SamplePaths(fs, voiceDir), load);
    if clips != [] {
      JoinedLength(clips);
    }
  }

  /** The samples `--process-all` hands to `prepare_audio`: those whose path has no ".processed". */
  function Pending(samples: seq<string>): (r: seq<string>)
    ensures |r| <= |samples|
    ensures forall s :: s in r <==> s in samples && !Contains(s, ".processed")
    decreases |samples|
  {
    if samples == [] then []
    else
      var init, last := samples[..|samples| - 1], samples[|samples| - 1];
      assert samples == init + [last];
      Pending(init) + (if Contains(last, ".processed") then [] else [last])
  }

  /** Every pending sample prepared with its default output name, in order. */
  function PrepareEach(paths: seq<string>, load: string -> Option<Audio>,
                       condition: Audio -> Audio, detect: Audio -> seq<Range>): (rs: seq<Result<Export, PrepareError>>)
    ensures |rs| == |paths|
    ensures forall k :: 0 <= k < |paths| ==> rs[k] == Prepare(paths[k], None, load(paths[k]), condition, detect)
  {
    seq(|paths|, k requires 0 <= k < |paths| => Prepare(paths[k], None, load(paths[k]), condition, detect))
  }

  lemma PendingStep(samples: seq<string>, i: int)
    requires 0 <= i < |samples|
    ensures Pending(samples[..i + 1])
            == Pending(samples[..i]) + (if Contains(samples[i], ".processed") then [] else [samples[i]])
  {
    assert samples[..i + 1][..i] == samples[..i];
  }

  /** The `--process-all` loop: each sample without ".processed" in its path is prepared in place. */
  method ProcessAll(samples: seq<string>, load: string -> Option<Audio>,
                    condition: Audio -> Audio, detect: Audio -> seq<Range>)
    returns (results: seq<Result<Export, PrepareError>>)
    ensures results == PrepareEach(Pending(samples), load, condition, detect)
  {
    results := [];
    var i := 0;
    while i < |samples|
      invariant 0 <= i <= |samples|
      invariant results == PrepareEach(Pending(samples[..i]), load, condition, detect)
    {
      var sample := samples[i];
      PendingStep(samples, i);
      if Contains(sample, ".processed") {
        assert Pending(samples[..i + 1]) == Pending(samples[..i]) + [];
        i := i + 1;
        continue;
      }
      var r := PrepareAudio(sample, None, load(sample), condition, detect);
      results := results + [r];
      i := i + 1;
    }
    assert samples[..i] == samples;
  }

  /**
    After `--process-all` has written `sample_X.processed.wav` beside
    `sample_X.wav`, a later run skips the twin when processing but
    combines it together with the original.
  */
  lemma TwinSkippedButCombined(fs: FileSystem, dir: Parts, name: string)
    requires WellFormed(dir) && IsComponent(name) && MatchesSample(name)
    requires fs.isDir(dir) && TwinName(name) in fs.listing(dir)
    ensures Render(dir + [TwinName(name)]) in SamplePaths(fs, dir)
    ensures Render(dir + [TwinName(name)]) !in Pending(SamplePaths(fs, dir))
  {
    ProcessedTwin(dir, name);
    SampleNamesSorted(fs, dir);
    var names := SampleNamesIn(fs, dir);
    assert TwinName(name) in names;
    var k :| 0 <= k < |names| && names[k] == TwinName(name);
    assert SamplePaths(fs, dir)[k] == Render(dir + [TwinName(name)]);
  }

  /** The script's options. */
  datatype PrepareArgs = PrepareArgs(input: Option<string>, output: Option<string>, voiceDir: string, processAll: bool)

  /** How a run of the script ends. */
  datatype PrepareRun =
    | NoVoiceDir
    | Single(result: Result<Export, PrepareError>)
    | NoSamples
    | Finished(processed: seq<Result<Export, PrepareError>>, combined: Option<Combined>)

  /**
    `main`: the voice directory must exist; `--input` prepares one file and
    stops; `--process-all` prepares every pending sample (and stops when
    there are none); then the samples are combined.  `after` is the file
    system as `combine_samples` finds it, once the processed files exist.
  */
  method RunScript(fs: FileSystem, args: PrepareArgs, load: string -> Option<Audio>,
              condition: Audio -> Audio, detect: Audio -> seq<Range>, after: FileSystem)
    returns (run: PrepareRun)
    ensures !fs.present(Parse(args.voiceDir)) <==> run == NoVoiceDir
    ensures run.Single? <==> fs.present(Parse(args.voiceDir)) && args.input.Some? && args.input.value != ""
    ensures run.Single? ==>
      run.result == Prepare(args.input.value, args.output, load(args.input.value), condition, detect)
    ensures run == NoSamples <==>
      && fs.present(Parse(args.voiceDir)) && !(args.input.Some? && args.input.value != "")
      && args.processAll && SampleNamesIn(fs, Parse(args.voiceDir)) == []
    ensures run.Finished? ==>
      && run.processed == (if args.processAll
                           then PrepareEach(Pending(SamplePaths(fs, Parse(args.voiceDir))), load, condition, detect)
                           else [])
      && (run.combined.Some? <==> SampleNamesIn(after, Parse(args.voiceDir)) != [])
      && (run.combined.Some? ==>
            run.combined.value == Combined(Parse(args.voiceDir) + [DefaultCombinedName],
                                           Joined(Loaded(SamplePaths(after, Parse(args.voiceDir)), load))))
  {
    var voiceDir := Parse(args.voiceDir);
    if !fs.present(voiceDir) {
      return NoVoiceDir;
    }
    if args.input.Some? && args.input.value != "" {
      var result := PrepareAudio(args.input.value, args.output, load(args.input.value), condition, detect);
      return Single(result);
    }
    var processed := [];
    if args.processAll {
      var samples := SamplePaths(fs, voiceDir);
      if samples == [] {
        return NoSamples;
      }
      processed := ProcessAll(samples, load, condition, detect);
    }
    CombinedChild(voiceDir);
    var combined := CombineSamples(after, voiceDir, DefaultCombinedName, load);
    return Finished(processed, combined);
  }
}
