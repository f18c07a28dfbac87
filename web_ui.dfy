/**
  The browser front end: the voice list offered in the dropdown, the
  default voice and language choices, and the guard chain of a
  generation request.
*/
module WebUi {
  import opened Outcomes
  import opened Text
  import opened Paths
  import opened Cloner

  /** The web front end's own limit on the text length. */
  const MaxTextLength: nat := 10000

  /** One voice file offered in the dropdown: the directory it sits in and its file name. */
  datatype VoiceKey = VoiceKey(dir: string, file: string)

  /** A dropdown entry as the program builds it: `(display_name, file_path)`. */
  datatype VoiceEntry = VoiceEntry(display: string, path: string)

  /** `f"{voice_dir.name}/{file}"` and `str(voices / dir / file)`. */
  function EntryOf(k: VoiceKey): VoiceEntry {
    VoiceEntry(k.dir + "/" + k.file, Render(VoicesDir + [k.dir, k.file]))
  }

  /**
    An entry's path names the key's file under `voices/` again once parsed,
    and `os.path.exists` accepts that string exactly when the file is there.
  */
  lemma EntryPathNamesKey(fs: FileSystem, k: VoiceKey)
    requires IsComponent(k.dir) && IsComponent(k.file)
    ensures Parse(EntryOf(k).path) == VoicesDir + [k.dir, k.file]
    ensures OsPathExists(fs, EntryOf(k).path) <==> fs.present(VoicesDir + [k.dir, k.file])
  {
    var p := VoicesDir + [k.dir, k.file];
    assert p == (VoicesDir + [k.dir]) + [k.file];
    ParseComponent("voices");
    WellFormedChild(VoicesDir, k.dir);
    WellFormedChild(VoicesDir + [k.dir], k.file);
    ParseRender(p);
    OsPathExistsOfRendered(fs, p);
  }

  function Entries(keys: seq<VoiceKey>): (es: seq<VoiceEntry>)
    ensures |es| == |keys| && forall i :: 0 <= i < |keys| ==> es[i] == EntryOf(keys[i])
  {
    seq(|keys|, i requires 0 <= i < |keys| => EntryOf(keys[i]))
  }

  lemma EntriesAppend(a: seq<VoiceKey>, b: seq<VoiceKey>)
    ensures Entries(a + b) == Entries(a) + Entries(b)
  {
  }

  lemma EntriesSnoc(a: seq<VoiceKey>, k: VoiceKey)
    ensures Entries(a + [k]) == Entries(a) + [EntryOf(k)]
  {
    EntriesAppend(a, [k]);
  }

  /** A directory entry the list visits: a directory whose name does not start with ".". */
  predicate IsVoiceDir(fs: FileSystem, name: string) {
    fs.isDir(VoicesDir + [name]) && !StartsWith(name, ".")
  }

  /** `combined.wav`, when the directory has one. */
  function CombinedKeys(fs: FileSystem, name: string): seq<VoiceKey> {
    if fs.present(VoicesDir + [name, CombinedName]) then [VoiceKey(name, CombinedName)] else []
  }

  /** `sorted(voice_dir.glob("sample_*.wav"))`, as file names. */
  function SampleNames(fs: FileSystem, name: string): (names: seq<string>)
    ensures Ascending(names)
    ensures forall f :: f in names <==> f in fs.listing(VoicesDir + [name]) && MatchesSample(f)
  {
    var r := Sort(Filter(fs.listing(VoicesDir + [name]), MatchesSample));
    assert forall f :: f in r <==> f in multiset(r);
    r
  }

  function SampleKeys(name: string, files: seq<string>): (keys: seq<VoiceKey>)
    ensures |keys| == |files| && forall i :: 0 <= i < |files| ==> keys[i] == VoiceKey(name, files[i])
  {
    seq(|files|, i requires 0 <= i < |files| => VoiceKey(name, files[i]))
  }

  /** What one directory of `voices/` contributes: nothing, or `combined.wav` then its sorted samples. */
  function DirKeys(fs: FileSystem, name: string): seq<VoiceKey> {
    if IsVoiceDir(fs, name) then CombinedKeys(fs, name) + SampleKeys(name, SampleNames(fs, name)) else []
  }

  /** The keys contributed by the directories `dirs`, visited in order. */
  function KeysOf(fs: FileSystem, dirs: seq<string>): seq<VoiceKey>
    decreases |dirs|
  {
    if dirs == [] then [] else KeysOf(fs, dirs[..|dirs| - 1]) + DirKeys(fs, dirs[|dirs| - 1])
  }

  /** Every voice file `list_voice_files` offers, as keys, in its order. */
  function VoiceKeys(fs: FileSystem): seq<VoiceKey> {
    if fs.present(VoicesDir) then KeysOf(fs, Sort(fs.listing(VoicesDir))) else []
  }

  /** What `list_voice_files` returns. */
  function VoiceFiles(fs: FileSystem): seq<VoiceEntry> {
    Entries(VoiceKeys(fs))
  }

  /** The entries one directory of `voices/` contributes, `combined.wav` first. */
  method ListDir(fs: FileSystem, name: string) returns (found: seq<VoiceEntry>)
    requires IsVoiceDir(fs, name)
    ensures found == Entries(DirKeys(fs, name))
  {
    var voiceDir := VoicesDir + [name];
    ghost var combined := CombinedKeys(fs, name);
    found := [];
    assert voiceDir + [CombinedName] == VoicesDir + [name, CombinedName];
    if fs.present(voiceDir + [CombinedName]) {
      found := [EntryOf(VoiceKey(name, CombinedName))];
    }
    var samples := Sort(Filter(fs.listing(voiceDir), MatchesSample));
    assert found == Entries(combined + SampleKeys(name, samples[..0])) by {
      assert combined + SampleKeys(name, samples[..0]) == combined;
    }
    var j := 0;
    while j < |samples|
      invariant 0 <= j <= |samples|
      invariant found == Entries(combined + SampleKeys(name, samples[..j]))
    {
      SampleEntriesSnoc(combined, name, samples, j);
      found := found + [EntryOf(VoiceKey(name, samples[j]))];
      j := j + 1;
    }
    assert samples[..j] == samples;
  }

  /** One more sample adds its entry at the end. */
  lemma SampleEntriesSnoc(combined: seq<VoiceKey>, name: string, files: seq<string>, j: int)
    requires 0 <= j < |files|
    ensures Entries(combined + SampleKeys(name, files[..j + 1]))
            == Entries(combined + SampleKeys(name, files[..j])) + [EntryOf(VoiceKey(name, files[j]))]
  {
    var k := VoiceKey(name, files[j]);
    assert SampleKeys(name, files[..j + 1]) == SampleKeys(name, files[..j]) + [k];
    assert combined + SampleKeys(name, files[..j + 1]) == (combined + SampleKeys(name, files[..j])) + [k];
    EntriesSnoc(combined + SampleKeys(name, files[..j]), k);
  }

  /** `list_voice_files`: sorted directories, and in each `combined.wav` and then the sorted samples. */
  method ListVoiceFiles(fs: FileSystem) returns (voiceFiles: seq<VoiceEntry>)
    ensures voiceFiles == VoiceFiles(fs)
  {
    if !fs.present(VoicesDir) {
      return [];
    }
    voiceFiles := [];
    var dirs := Sort(fs.listing(VoicesDir));
    var i := 0;
    while i < |dirs|
      invariant 0 <= i <= |dirs|
      invariant voiceFiles == Entries(KeysOf(fs, dirs[..i]))
    {
      var name := dirs[i];
      assert dirs[..i + 1][..i] == dirs[..i];
      EntriesAppend(KeysOf(fs, dirs[..i]), DirKeys(fs, name));
      if fs.isDir(VoicesDir + [name]) && !StartsWith(name, ".") {
        var found := ListDir(fs, name);
        voiceFiles := voiceFiles + found;
      }
      i := i + 1;
    }
    assert dirs[..i] == dirs;
  }

  /** The order of the list: directories ascending; in one directory `combined.wav` first, then samples ascending. */
  predicate KeyBefore(a: VoiceKey, b: VoiceKey) {
    if a.dir != b.dir then NoLater(a.dir, b.dir)
    else a.file == CombinedName || (b.file != CombinedName && NoLater(a.file, b.file))
  }

  predicate Ordered(keys: seq<VoiceKey>) {
    forall i, j :: 0 <= i < j < |keys| ==> KeyBefore(keys[i], keys[j])
  }

  /** No sample name is `combined.wav`: the two patterns never meet. */
  lemma SampleIsNotCombined(f: string)
    requires MatchesSample(f)
    ensures f != CombinedName
  {
    assert f[0] == 's';
  }

  /** A directory's keys all carry that directory's name. */
  lemma DirKeysDir(fs: FileSystem, name: string)
    ensures forall k :: k in DirKeys(fs, name) ==> k.dir == name
  {
    var s := SampleKeys(name, SampleNames(fs, name));
    forall k | k in s ensures k.dir == name {
      var i :| 0 <= i < |s| && s[i] == k;
    }
  }

  /** `combined.wav`, if there, followed by ascending sample names of one directory, is in order. */
  lemma CombinedThenSamplesOrdered(c: seq<VoiceKey>, name: string, names: seq<string>)
    requires c == [] || c == [VoiceKey(name, CombinedName)]
    requires Ascending(names) && forall f :: f in names ==> f != CombinedName
    ensures Ordered(c + SampleKeys(name, names))
  {
    var s := SampleKeys(name, names);
    var keys := c + s;
    forall i, j | 0 <= i < j < |keys| ensures KeyBefore(keys[i], keys[j]) {
      assert keys[j] == s[j - |c|] == VoiceKey(name, names[j - |c|]);
      assert names[j - |c|] in names;
      if i >= |c| {
        assert keys[i] == s[i - |c|] == VoiceKey(name, names[i - |c|]);
      }
    }
  }

  /** One directory's entries are in order. */
  lemma DirKeysOrdered(fs: FileSystem, name: string)
    ensures Ordered(DirKeys(fs, name))
  {
    if IsVoiceDir(fs, name) {
      var names := SampleNames(fs, name);
      forall f | f in names ensures f != CombinedName {
        SampleIsNotCombined(f);
      }
      CombinedThenSamplesOrdered(CombinedKeys(fs, name), name, names);
    }
  }

  /** Two ordered runs of keys, every one of the first from a directory strictly before the second's, stay ordered. */
  lemma OrderedAppend(a: seq<VoiceKey>, b: seq<VoiceKey>, last: string)
    requires Ordered(a) && Ordered(b)
    requires forall k :: k in b ==> k.dir == last
    requires forall k :: k in a ==> k.dir != last && NoLater(k.dir, last)
    ensures Ordered(a + b)
  {
    var keys := a + b;
    forall i, j | 0 <= i < j < |keys| ensures KeyBefore(keys[i], keys[j]) {
      if j >= |a| {
        assert keys[j] == b[j - |a|] && keys[j] in b;
        if i < |a| {
          assert keys[i] == a[i] && keys[i] in a;
        } else {
          assert keys[i] == b[i - |a|];
        }
      } else {
        assert keys[i] == a[i] && keys[j] == a[j];
      }
    }
  }

  /**
    The keys of strictly ascending directories are in order, and each
    comes from one of those directories.
  */
  lemma {:induction false} KeysOfOrdered(fs: FileSystem, dirs: seq<string>)
    requires Ascending(dirs) && NoDuplicates(dirs)
    ensures forall k :: k in KeysOf(fs, dirs) ==> k.dir in dirs
    ensures Ordered(KeysOf(fs, dirs))
    decreases |dirs|
  {
    if dirs != [] {
      var init, last := dirs[..|dirs| - 1], dirs[|dirs| - 1];
      assert Ascending(init) && NoDuplicates(init);
      KeysOfOrdered(fs, init);
      DirKeysOrdered(fs, last);
      DirKeysDir(fs, last);
      var a, b := KeysOf(fs, init), DirKeys(fs, last);
      assert KeysOf(fs, dirs) == a + b;
      forall k | k in a ensures k.dir != last && NoLater(k.dir, last) {
        var p :| 0 <= p < |init| && init[p] == k.dir;
        assert dirs[p] == k.dir;
      }
      OrderedAppend(a, b, last);
      forall k: VoiceKey | k in a + b ensures k.dir in dirs {
        if k in a {
          var p :| 0 <= p < |init| && init[p] == k.dir;
          assert dirs[p] == k.dir;
        }
      }
    }
  }

  /**
    Directories are visited in ascending order, and within a directory
    `combined.wav` comes before the samples, which are ascending; the
    directory names of `voices/` are distinct, as a listing's are.
  */
  lemma VoiceKeysOrdered(fs: FileSystem)
    requires NoDuplicates(fs.listing(VoicesDir))
    ensures Ordered(VoiceKeys(fs))
  {
    if fs.present(VoicesDir) {
      SortNoDuplicates(fs.listing(VoicesDir));
      KeysOfOrdered(fs, Sort(fs.listing(VoicesDir)));
    }
  }

  /** A key is listed for a directory exactly when it is one of that directory's entries. */
  lemma {:induction false} KeysOfMembers(fs: FileSystem, dirs: seq<string>, k: VoiceKey)
    ensures k in KeysOf(fs, dirs) <==> k.dir in dirs && k in DirKeys(fs, k.dir)
    decreases |dirs|
  {
    if dirs != [] {
      var init, last := dirs[..|dirs| - 1], dirs[|dirs| - 1];
      assert k.dir in dirs <==> k.dir in init || k.dir == last by {
        assert dirs == init + [last];
      }
      KeysOfMembers(fs, init, k);
      DirKeysDir(fs, last);
      var a, b := KeysOf(fs, init), DirKeys(fs, last);
      assert KeysOf(fs, dirs) == a + b;
      assert k in a + b <==> k in a || k in b;
      assert k in b <==> k.dir == last && k in DirKeys(fs, k.dir);
    }
  }

  /** The entries of one directory: its `combined.wav` if present, and its `sample_*.wav` files. */
  lemma DirKeysMembers(fs: FileSystem, name: string, k: VoiceKey)
    ensures k in DirKeys(fs, name) <==>
      && k.dir == name && IsVoiceDir(fs, name)
      && ((k.file == CombinedName && fs.present(VoicesDir + [name, CombinedName]))
          || (k.file in fs.listing(VoicesDir + [name]) && MatchesSample(k.file)))
  {
    var names := SampleNames(fs, name);
    if k.dir == name && k.file in names {
      var i :| 0 <= i < |names| && names[i] == k.file;
      assert SampleKeys(name, names)[i] == k;
    }
    if k.file in fs.listing(VoicesDir + [name]) && MatchesSample(k.file) {
      SampleIsNotCombined(k.file);
    }
  }

  /**
    Exactly the `combined.wav` files and `sample_*.wav` files of the
    non-hidden directories of `voices/` are listed; nothing when `voices/`
    does not exist.
  */
  lemma VoiceKeysMembers(fs: FileSystem, k: VoiceKey)
    ensures k in VoiceKeys(fs) <==>
      && fs.present(VoicesDir)
      && k.dir in fs.listing(VoicesDir) && fs.isDir(VoicesDir + [k.dir]) && !StartsWith(k.dir, ".")
      && ((k.file == CombinedName && fs.present(VoicesDir + [k.dir, CombinedName]))
          || (k.file in fs.listing(VoicesDir + [k.dir]) && MatchesSample(k.file)))
  {
    if fs.present(VoicesDir) {
      var dirs := Sort(fs.listing(VoicesDir));
      KeysOfMembers(fs, dirs, k);
      DirKeysMembers(fs, k.dir, k);
      assert k.dir in dirs <==> k.dir in multiset(dirs);
    }
  }

  /** `voice_files[0][1] if voice_files else None`: the first listed path. */
  function DefaultVoice(voiceFiles: seq<VoiceEntry>): Option<string> {
    if voiceFiles == [] then None else Some(voiceFiles[0].path)
  }

  /**
    The default voice is the path of a listed file that comes before every
    other in the list's order, and there is none only when nothing is listed.
  */
  lemma DefaultVoiceIsFirst(fs: FileSystem)
    requires NoDuplicates(fs.listing(VoicesDir))
    ensures DefaultVoice(VoiceFiles(fs)).None? <==> VoiceKeys(fs) == []
    ensures DefaultVoice(VoiceFiles(fs)).Some? ==>
      var first := VoiceKeys(fs)[0];
      && DefaultVoice(VoiceFiles(fs)).value == Render(VoicesDir + [first.dir, first.file])
      && forall j :: 0 < j < |VoiceKeys(fs)| ==> KeyBefore(first, VoiceKeys(fs)[j])
  {
    VoiceKeysOrdered(fs);
  }

  /** The display names of the shipped language codes. */
  const LanguageNames: map<string, string> := map[
    "en" := "English",
    "es" := "Spanish (Español)",
    "fr" := "French (Français)",
    "de" := "German (Deutsch)",
    "it" := "Italian (Italiano)",
    "pt" := "Portuguese (Português)",
    "pl" := "Polish (Polski)",
    "tr" := "Turkish (Türkçe)",
    "ru" := "Russian (Русский)",
    "nl" := "Dutch (Nederlands)",
    "cs" := "Czech (Čeština)",
    "ar" := "Arabic (العربية)",
    "zh-cn" := "Chinese (中文)",
    "ja" := "Japanese (日本語)",
    "hu" := "Hungarian (Magyar)",
    "ko" := "Korean (한국어)"]

  /** `(language_names.get(lang, lang), lang)` for every code, in order. */
  function LanguageChoices(langs: seq<string>, names: map<string, string>): (choices: seq<(string, string)>)
    ensures |choices| == |langs|
    ensures forall i :: 0 <= i < |langs| ==> choices[i].1 == langs[i]
  {
    seq(|langs|, i requires 0 <= i < |langs| => (if langs[i] in names then names[langs[i]] else langs[i], langs[i]))
  }

  /** A code without a display name is shown as the code itself; one with a name shows the name. */
  lemma LanguageChoiceLabel(langs: seq<string>, names: map<string, string>, i: int)
    requires 0 <= i < |langs|
    ensures langs[i] !in names ==> LanguageChoices(langs, names)[i].0 == langs[i]
    ensures langs[i] in names ==> LanguageChoices(langs, names)[i].0 == names[langs[i]]
  {
  }

  /** Every supported code has a display name, so the fallback is never shown for the shipped list. */
  lemma ShippedLanguagesNamed(cloner: VoiceCloner)
    ensures forall l :: l in cloner.SupportedLanguages() <==> l in LanguageNames
    ensures forall i :: 0 <= i < 16 ==>
      LanguageChoices(cloner.SupportedLanguages(), LanguageNames)[i] == (LanguageNames[Languages[i]], Languages[i])
  {
  }

  /** What `generate_speech` reports besides the audio. */
  datatype SpeechStatus =
    | NoText
    | TextTooLong
    | NoVoice
    | VoiceOutside(error: PathError)
    | VoiceMissing(voiceFile: string)
    | Failed(cause: CloneError)
    | Generated

  /** The `(audio_path, status)` reply, and the model call made on the way, if any. */
  datatype SpeechRun = SpeechRun(audio: Option<string>, status: SpeechStatus, call: Option<SynthCall>)

  /** `outputs / f"web_ui_{timestamp}.wav"`. */
  function WebOutput(timestamp: string): Parts {
    Child(OutputsDir, "web_ui_" + timestamp + ".wav")
  }

  /** The checks `generate_speech` makes before it calls the model, in order; true when all pass. */
  predicate Accepted(fs: FileSystem, text: string, voiceFile: Option<string>) {
    && !IsBlank(text)
    && |text| <= MaxTextLength
    && voiceFile.Some? && voiceFile.value != ""
    && ValidatePath(fs, voiceFile.value, "voices").Ok?
    && fs.present(ValidatePath(fs, voiceFile.value, "voices").value)
  }

  /**
    `generate_speech`: blank text, then text over 10000 characters, then no
    voice chosen, then a voice outside `voices/`, then a voice that does not
    exist; otherwise `clone_voice` into `outputs/web_ui_<timestamp>.wav`.
  */
  function GenerateSpeech(cloner: VoiceCloner, fs: FileSystem, text: string, voiceFile: Option<string>,
                          language: string, timestamp: string, synthOk: bool): (r: SpeechRun)
    ensures r.audio.Some? <==> r.status == Generated
    ensures r.status == Generated ==> r.audio.value == Render(WebOutput(timestamp))
    ensures IsBlank(text) ==> r == SpeechRun(None, NoText, None)
    ensures !IsBlank(text) && |text| > MaxTextLength ==> r == SpeechRun(None, TextTooLong, None)
    ensures r.status == TextTooLong <==> !IsBlank(text) && |text| > MaxTextLength
    ensures r.call.Some? <==> Accepted(fs, text, voiceFile) && OsPathExists(fs, voiceFile.value)
    ensures r.call.Some? ==> r.call.value == SynthCall(text, voiceFile.value, Some(Render(WebOutput(timestamp))), language)
    ensures r.status == Generated <==> r.call.Some? && synthOk
  {
    if IsBlank(text) then SpeechRun(None, NoText, None)
    else if |text| > MaxTextLength then SpeechRun(None, TextTooLong, None)
    else if voiceFile.None? || voiceFile.value == "" then SpeechRun(None, NoVoice, None)
    else match ValidatePath(fs, voiceFile.value, "voices")
      case Err(e) => SpeechRun(None, VoiceOutside(e), None)
      case Ok(voicePath) =>
        if !fs.present(voicePath) then SpeechRun(None, VoiceMissing(voiceFile.value), None)
        else
          var output := Render(WebOutput(timestamp));
          var run := cloner.CloneVoice(fs, text, voiceFile.value, output, language, synthOk);
          if run.result.Ok? then SpeechRun(Some(output), Generated, run.call)
          else SpeechRun(None, Failed(run.result.error), run.call)
  }

  /** Exactly 10000 characters pass the length check; 10001 do not. */
  lemma SpeechLengthBoundary(cloner: VoiceCloner, fs: FileSystem, text: string, voiceFile: Option<string>,
                             language: string, timestamp: string, synthOk: bool)
    requires !IsBlank(text) && |text| in {MaxTextLength, MaxTextLength + 1}
    ensures GenerateSpeech(cloner, fs, text, voiceFile, language, timestamp, synthOk).status == TextTooLong
            <==> |text| == MaxTextLength + 1
  {
  }

  /** A voice outside `voices/` is refused with the validator's error, and the model is not called. */
  lemma SpeechVoiceOutside(cloner: VoiceCloner, fs: FileSystem, text: string, voice: string,
                           language: string, timestamp: string, synthOk: bool)
    requires !IsBlank(text) && |text| <= MaxTextLength && voice != ""
    requires ValidatePath(fs, voice, "voices").Err?
    ensures GenerateSpeech(cloner, fs, text, Some(voice), language, timestamp, synthOk)
            == SpeechRun(None, VoiceOutside(InvalidPath(voice, "voices")), None)
  {
  }

  /** The reply's audio, when there is one, is a file directly inside `outputs/`. */
  lemma SpeechOutputInOutputs(timestamp: string)
    requires '/' !in timestamp
    ensures WebOutput(timestamp) == OutputsDir + ["web_ui_" + timestamp + ".wav"]
    ensures Parse(Render(WebOutput(timestamp))) == WebOutput(timestamp)
    ensures Within(WebOutput(timestamp), OutputsDir)
  {
    var name := "web_ui_" + timestamp + ".wav";
    assert name[0] == 'w';
    assert forall i :: 0 <= i < |name| ==> name[i] != '/' by {
      forall i | 0 <= i < |name| ensures name[i] != '/' {
        if 7 <= i < 7 + |timestamp| {
          assert name[i] == timestamp[i - 7];
        }
      }
    }
    ChildOfComponent(OutputsDir, name);
    ParseRender(OutputsDir + [name]);
  }
}
