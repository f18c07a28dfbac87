/**
  The command-line front end: locating the voice file, the interactive
  session (a loop over input lines that keeps a counter and a language),
  and the guard sequence of a single generation.
*/
module Cli {
  import opened Outcomes
  import opened Text
  import opened Paths
  import opened Cloner

  /** The command line's own limit on the text length. */
  const MaxTextLength: nat := 10000

  /** The first branch of `find_voice_file`: an existing `.wav` path that validates inside `voices/`. */
  predicate DirectHit(fs: FileSystem, voiceName: string) {
    && fs.present(Parse(voiceName))
    && Suffix(Name(Parse(voiceName))) == ".wav"
    && ValidatePath(fs, voiceName, "voices").Ok?
  }

  /** `voices / voice_name`. */
  function VoiceDir(voiceName: string): Parts {
    Child(VoicesDir, voiceName)
  }

  /** The `.wav` entries `voice_dir.glob("*.wav")` yields, in directory order. */
  function WavEntries(fs: FileSystem, dir: Parts): seq<string> {
    Filter(fs.listing(dir), MatchesWav)
  }

  /**
    `find_voice_file`: a direct path that exists, ends in `.wav` and lies
    inside `voices/` wins; otherwise `voices/<name>/combined.wav` if it
    exists; otherwise the first `.wav` entry of `voices/<name>/`; else None.
  */
  function FindVoiceFile(fs: FileSystem, voiceName: string): (r: Option<Parts>)
    ensures DirectHit(fs, voiceName) ==> r == Some(ValidatePath(fs, voiceName, "voices").value)
    ensures !DirectHit(fs, voiceName) && fs.present(Child(VoiceDir(voiceName), CombinedName))
            ==> r == Some(Child(VoiceDir(voiceName), CombinedName))
    ensures r.Some? && !DirectHit(fs, voiceName) && r.value != Child(VoiceDir(voiceName), CombinedName)
            ==> fs.isDir(VoiceDir(voiceName)) &&
                exists f :: f in fs.listing(VoiceDir(voiceName)) && EndsWith(f, ".wav") && r.value == VoiceDir(voiceName) + [f]
    ensures r.None? <==>
      && !DirectHit(fs, voiceName)
      && !fs.present(Child(VoiceDir(voiceName), CombinedName))
      && !(fs.present(VoiceDir(voiceName)) && fs.isDir(VoiceDir(voiceName)) && WavEntries(fs, VoiceDir(voiceName)) != [])
  {
    if DirectHit(fs, voiceName) then
      Some(ValidatePath(fs, voiceName, "voices").value)
    else
      var dir := VoiceDir(voiceName);
      var combined := Child(dir, CombinedName);
      if fs.present(combined) then Some(combined)
      else if fs.present(dir) && fs.isDir(dir) then
        var wavs := WavEntries(fs, dir);
        if wavs != [] then
          assert wavs[0] in wavs;
          Some(dir + [wavs[0]])
        else None
      else None
  }

  /** A file found through the direct branch lies inside the resolved `voices/` directory. */
  lemma DirectHitContained(fs: FileSystem, voiceName: string)
    requires DirectHit(fs, voiceName)
    ensures FindVoiceFile(fs, voiceName).Some? && fs.resolve(VoicesDir).Resolved?
    ensures Within(FindVoiceFile(fs, voiceName).value, fs.resolve(VoicesDir).path)
  {
    ParseComponent("voices");
  }

  lemma ParseUpAndDown()
    ensures Parse("../x") == ["..", "x"]
  {
    var name := "../x";
    assert SegmentEnd(name) == 2;
    assert name[..2] == "..";
    assert name[3..] == "x";
    ParseComponent("x");
    assert Components(name) == ["..", "x"];
  }

  /**
    The lookups by name are not checked for containment: the name "../x"
    finds `voices/../x/combined.wav` without validating it.
  */
  lemma NameLookupNotContained(fs: FileSystem)
    requires !fs.present(["..", "x"]) && fs.present(["voices", "..", "x", "combined.wav"])
    ensures FindVoiceFile(fs, "../x") == Some(["voices", "..", "x", "combined.wav"])
  {
    ParseUpAndDown();
    var up := Parse("../x");
    assert !DirectHit(fs, "../x");
    assert !IsAbsolute(up);
    var dir := VoiceDir("../x");
    assert dir == ["voices", "..", "x"] by {
      assert dir == ["voices"] + up;
    }
    CombinedChild(dir);
    assert Child(dir, CombinedName) == ["voices", "..", "x", "combined.wav"];
  }

  /** The session state of `interactive_mode`. */
  datatype Session = Session(counter: nat, language: string)

  const Initial: Session := Session(1, "en")

  /** What one input line means once stripped. */
  datatype Command = Nothing | Quit | Help | Lang(code: string) | Speak(text: string)

  /** The words that end the session, once lower-cased. */
  predicate IsQuitWord(low: string) {
    low == "quit" || low == "exit" || low == "q"
  }

  /**
    The command recognised in one line of input: the line is stripped first,
    commands are matched on its lower case, and everything else is text to speak.
  */
  function Classify(line: string): (c: Command)
    ensures c.Nothing? <==> IsBlank(line)
    ensures c.Quit? <==> !IsBlank(line) && IsQuitWord(Lower(Strip(line)))
    ensures c.Help? <==> Lower(Strip(line)) == "help"
    ensures c.Speak? ==> c.text == Strip(line) && c.text != []
  {
    var s := Strip(line);
    var low := Lower(s);
    if s == [] then Nothing
    else if IsQuitWord(low) then Quit
    else if low == "help" then Help
    else if StartsWith(low, "lang ") then
      LangArgumentExists(s);
      Lang(Lower(Words(s)[1]))
    else Speak(s)
  }

  /**
    A line is a language command exactly when its stripped lower case starts
    with "lang ", and the code is then the lower case of `split()[1]`.
  */
  lemma ClassifyLangCode(line: string)
    ensures Classify(line).Lang? <==> StartsWith(Lower(Strip(line)), "lang ")
    ensures Classify(line).Lang? ==>
      |Words(Strip(line))| >= 2 && Classify(line).code == Lower(Words(Strip(line))[1])
  {
    var low := Lower(Strip(line));
    if StartsWith(low, "lang ") {
      assert Strip(line) != [];
      assert low != "help" && !IsQuitWord(low) by {
        assert |low| >= 5;
      }
      LangArgumentExists(Strip(line));
    }
  }

  /**
    `lang X`, in any case and with any spacing, selects the lower case of
    the first word after the command; the rest of the line is ignored.
  */
  lemma ClassifyLang(cmd: string, gap: string, code: string, rest: string)
    requires |cmd| == 4 && Lower(cmd) == "lang"
    requires gap != [] && gap[0] == ' ' && AllSpace(gap)
    requires code != [] && NoSpace(code) && (rest == [] || IsSpace(rest[0]))
    requires IsStripped(cmd + gap + code + rest)
    ensures Classify(cmd + gap + code + rest) == Lang(Lower(code))
  {
    var line := cmd + gap + code + rest;
    assert StartsWith(Lower(line), "lang ") by {
      LangLinePrefix(cmd, gap, code, rest);
    }
    assert |Words(line)| >= 2 && Words(line)[1] == code by {
      LangCommandNoSpace(cmd);
      WordsTwoThenRest(cmd, gap, code, rest);
    }
    ClassifyStrippedLang(line, code);
  }

  /** A stripped line that lower-cases to "lang ..." selects its second word. */
  lemma ClassifyStrippedLang(line: string, code: string)
    requires IsStripped(line) && StartsWith(Lower(line), "lang ")
    requires |Words(line)| >= 2 && Words(line)[1] == code
    ensures Classify(line) == Lang(Lower(code))
  {
    StripStripped(line);
    ClassifyLangCode(line);
  }

  /** A line that starts with a four-letter spelling of `lang` and a space lower-cases to "lang ...". */
  lemma LangLinePrefix(cmd: string, gap: string, code: string, rest: string)
    requires |cmd| == 4 && Lower(cmd) == "lang"
    requires gap != [] && gap[0] == ' '
    ensures StartsWith(Lower(cmd + gap + code + rest), "lang ")
  {
    var line := cmd + gap + code + rest;
    var low := Lower(line);
    assert low[..4] == Lower(cmd) by {
      forall i | 0 <= i < 4 ensures low[i] == Lower(cmd)[i] {
        assert line[i] == cmd[i];
      }
    }
    assert low[4] == ' ' by {
      assert line[4] == ' ';
    }
    assert low[..5] == low[..4] + [low[4]];
  }

  /** A four-letter spelling of `lang` holds no whitespace. */
  lemma LangCommandNoSpace(cmd: string)
    requires |cmd| == 4 && Lower(cmd) == "lang"
    ensures NoSpace(cmd)
  {
    forall i | 0 <= i < 4 ensures !IsSpace(cmd[i]) {
      LowerSpace(cmd[i]);
      assert Lower(cmd)[i] == "lang"[i];
    }
  }

  /** Text handed to the model is never itself a command: classifying it again gives the same text. */
  lemma SpokenTextIsNotCommand(line: string)
    requires Classify(line).Speak?
    ensures Classify(Classify(line).text) == Classify(line)
  {
    StripStripped(Strip(line));
  }

  /** One line typed at the prompt, when it was typed, and whether the model call on it would succeed. */
  datatype Line = Line(text: string, timestamp: string, synthOk: bool)

  /** What the session did with one line. */
  datatype Effect =
    | Ignored
    | Stopped
    | HelpShown
    | LanguageSet(code: string)
    | LanguageRefused(code: string)
    | Spoke(counter: nat, call: Option<SynthCall>, saved: bool)

  /** `f"interactive_{timestamp}_{counter:03d}.wav"`. */
  function InteractiveFileName(timestamp: string, counter: nat): string {
    "interactive_" + timestamp + "_" + Pad3(counter) + ".wav"
  }

  /**
    The interactive file name is a `.wav` name that carries the timestamp
    and the counter as at least three digits, and it is a single path
    component whenever the timestamp holds no "/".
  */
  lemma InteractiveFileNameShape(timestamp: string, counter: nat)
    ensures var name := InteractiveFileName(timestamp, counter);
      && StartsWith(name, "interactive_" + timestamp + "_") && EndsWith(name, ".wav")
      && |name| >= |timestamp| + 17
      && var digits := name[|timestamp| + 13..|name| - 4];
         |digits| >= 3 && AllDigits(digits) && DecimalValue(digits) == counter
    ensures '/' !in timestamp ==> IsComponent(InteractiveFileName(timestamp, counter))
  {
    var head := "interactive_" + timestamp + "_";
    var pad := Pad3(counter);
    var name := InteractiveFileName(timestamp, counter);
    Pad3RoundTrip(counter);
    Pad3Width(counter);
    assert name == head + pad + ".wav";
    assert name[..|head|] == head;
    assert name[|head|..|name| - 4] == pad;
    assert name[|name| - 4..] == ".wav";
    if '/' !in timestamp {
      forall i | 0 <= i < |name| ensures name[i] != '/' {
        if |head| <= i < |name| - 4 {
          assert name[i] == pad[i - |head|] && IsDigit(pad[i - |head|]);
        } else if 12 <= i < |head| - 1 {
          assert name[i] == timestamp[i - 12];
        }
      }
    }
  }

  function InteractiveOutput(timestamp: string, counter: nat): Parts {
    Child(OutputsDir, InteractiveFileName(timestamp, counter))
  }

  /** Within one timestamp, different counters never give the same file name. */
  lemma InteractiveFileNameInjective(timestamp: string, a: nat, b: nat)
    requires InteractiveFileName(timestamp, a) == InteractiveFileName(timestamp, b)
    ensures a == b
  {
    var head := "interactive_" + timestamp + "_";
    var na, nb := InteractiveFileName(timestamp, a), InteractiveFileName(timestamp, b);
    assert na == head + Pad3(a) + ".wav";
    assert nb == head + Pad3(b) + ".wav";
    assert |Pad3(a)| == |Pad3(b)|;
    assert Pad3(a) == na[|head|..|na| - 4];
    assert Pad3(b) == nb[|head|..|nb| - 4];
    Pad3RoundTrip(a);
    Pad3RoundTrip(b);
  }

  /**
    A generation turn: `clone_voice` on the text into the file numbered with
    the current counter, which moves on only when the file was saved.
  */
  function Generate(cloner: VoiceCloner, fs: FileSystem, voiceFile: Parts, st: Session, text: string, line: Line)
    : (r: (Session, Effect))
    ensures r.1.Spoke? && r.1.counter == st.counter
    ensures r.1.call.Some? ==>
      r.1.call.value == SynthCall(text, Render(voiceFile), Some(Render(InteractiveOutput(line.timestamp, st.counter))), st.language)
    ensures r.1.saved <==> r.1.call.Some? && line.synthOk
    ensures r.0 == if r.1.saved then Session(st.counter + 1, st.language) else st
  {
    var output := Render(InteractiveOutput(line.timestamp, st.counter));
    var run := cloner.CloneVoice(fs, text, Render(voiceFile), output, st.language, line.synthOk);
    (if run.result.Ok? then st.(counter := st.counter + 1) else st,
     Spoke(st.counter, run.call, run.result.Ok?))
  }

  /** One turn of the `interactive_mode` loop. */
  function Step(cloner: VoiceCloner, fs: FileSystem, voiceFile: Parts, st: Session, line: Line): (r: (Session, Effect))
    ensures r.1.Spoke? <==> Classify(line.text).Speak?
    ensures r.1.Stopped? <==> Classify(line.text).Quit?
  {
    match Classify(line.text)
    case Nothing => (st, Ignored)
    case Quit => (st, Stopped)
    case Help => (st, HelpShown)
    case Lang(code) =>
      if code in cloner.SupportedLanguages() then (st.(language := code), LanguageSet(code))
      else (st, LanguageRefused(code))
    case Speak(text) => Generate(cloner, fs, voiceFile, st, text, line)
  }

  /** A blank line, `help`, and a refused language change leave the session as it was. */
  lemma StepKeepsSession(cloner: VoiceCloner, fs: FileSystem, voiceFile: Parts, st: Session, line: Line)
    requires Classify(line.text).Nothing? || Classify(line.text).Help? || Classify(line.text).Quit?
             || (Classify(line.text).Lang? && Classify(line.text).code !in Languages)
    ensures Step(cloner, fs, voiceFile, st, line).0 == st
  {
  }

  /**
    A line whose lower case starts with "lang " changes the language to the
    lower case of its second word exactly when that code is supported.
  */
  lemma StepLanguage(cloner: VoiceCloner, fs: FileSystem, voiceFile: Parts, st: Session, line: Line)
    requires StartsWith(Lower(Strip(line.text)), "lang ")
    ensures |Words(Strip(line.text))| >= 2
    ensures var code := Lower(Words(Strip(line.text))[1]);
            Step(cloner, fs, voiceFile, st, line).0 ==
              if code in Languages then Session(st.counter, code) else st
  {
    ClassifyLangCode(line.text);
  }

  /** The turn function of one session: the cloner, the file system and the voice file are fixed. */
  function Turn(cloner: VoiceCloner, fs: FileSystem, voiceFile: Parts): (Session, Line) -> (Session, Effect) {
    (st, line) => Step(cloner, fs, voiceFile, st, line)
  }

  function Prepend(effects: seq<Effect>, run: (Session, seq<Effect>)): (Session, seq<Effect>) {
    (run.0, effects + run.1)
  }

  /** Helper for the loop invariant of `InteractiveMode`: prepending in two steps is prepending once. */
  lemma PrependTwice(a: seq<Effect>, b: seq<Effect>, run: (Session, seq<Effect>))
    ensures Prepend(a, Prepend(b, run)) == Prepend(a + b, run)
  {
    assert a + (b + run.1) == (a + b) + run.1;
  }

  /**
    A session over the lines read before end of input, one turn per line:
    it stops after the first quit command, and end of input (or an
    interrupt) ends it too.
  */
  function Run(turn: (Session, Line) -> (Session, Effect), st: Session, lines: seq<Line>): (Session, seq<Effect>)
    decreases |lines|
  {
    if lines == [] then (st, [])
    else
      var (next, effect) := turn(st, lines[0]);
      if effect.Stopped? then (next, [effect])
      else Prepend([effect], Run(turn, next, lines[1..]))
  }

  /** The body of the `interactive_mode` loop for one line that was read. */
  method Respond(cloner: VoiceCloner, fs: FileSystem, voiceFile: Parts, counter: nat, language: string, line: Line)
    returns (nextCounter: nat, nextLanguage: string, effect: Effect)
    ensures (Session(nextCounter, nextLanguage), effect) == Step(cloner, fs, voiceFile, Session(counter, language), line)
  {
    nextCounter, nextLanguage := counter, language;
    var command := Classify(line.text);
    if command.Nothing? {
      effect := Ignored;
    } else if command.Quit? {
      effect := Stopped;
    } else if command.Help? {
      effect := HelpShown;
    } else if command.Lang? {
      if command.code in cloner.SupportedLanguages() {
        nextLanguage := command.code;
        effect := LanguageSet(command.code);
      } else {
        effect := LanguageRefused(command.code);
      }
    } else {
      var output := Render(InteractiveOutput(line.timestamp, counter));
      var run := cloner.CloneVoice(fs, command.text, Render(voiceFile), output, language, line.synthOk);
      effect := Spoke(counter, run.call, run.result.Ok?);
      if run.result.Ok? {
        nextCounter := counter + 1;
      }
    }
  }

  /** `interactive_mode`: read, classify and act on lines until quit or end of input. */
  method InteractiveMode(cloner: VoiceCloner, fs: FileSystem, voiceFile: Parts, lines: seq<Line>)
    returns (counter: nat, language: string, effects: seq<Effect>)
    ensures (Session(counter, language), effects) == Run(Turn(cloner, fs, voiceFile), Initial, lines)
  {
    ghost var turn := Turn(cloner, fs, voiceFile);
    counter, language, effects := 1, "en", [];
    var i := 0;
    assert lines[i..] == lines;
    assert [] + Run(turn, Initial, lines).1 == Run(turn, Initial, lines).1;
    while i < |lines|
      invariant 0 <= i <= |lines|
      invariant Run(turn, Initial, lines) == Prepend(effects, Run(turn, Session(counter, language), lines[i..]))
    {
      var line := lines[i];
      ghost var before, done := Session(counter, language), effects;
      assert lines[i..][0] == line && lines[i..][1..] == lines[i + 1..];
      var effect;
      counter, language, effect := Respond(cloner, fs, voiceFile, counter, language, line);
      effects := effects + [effect];
      assert turn(before, line) == (Session(counter, language), effect);
      if effect.Stopped? {
        break;
      }
      PrependTwice(done, [effect], Run(turn, Session(counter, language), lines[i + 1..]));
      i := i + 1;
    }
    assert i == |lines| ==> lines[i..] == [] && effects + [] == effects;
  }

  /** The number of generations that were saved. */
  function SavedCount(effects: seq<Effect>): nat {
    if effects == [] then 0
    else (if effects[0].Spoke? && effects[0].saved then 1 else 0) + SavedCount(effects[1..])
  }

  /** A turn advances the counter exactly when it saved a file. */
  ghost predicate CountsSaves(turn: (Session, Line) -> (Session, Effect)) {
    forall st, line :: turn(st, line).0.counter ==
      st.counter + (if turn(st, line).1.Spoke? && turn(st, line).1.saved then 1 else 0)
  }

  /** A turn that speaks uses the session's current counter. */
  ghost predicate StampsCounter(turn: (Session, Line) -> (Session, Effect)) {
    forall st, line :: turn(st, line).1.Spoke? ==> turn(st, line).1.counter == st.counter
  }

  /** A turn never leaves the supported languages. */
  ghost predicate KeepsLanguage(turn: (Session, Line) -> (Session, Effect)) {
    forall st: Session, line :: st.language in Languages ==> turn(st, line).0.language in Languages
  }

  /** An effect that called the model did so on plain text, never on a command. */
  predicate PlainSpeech(e: Effect) {
    e.Spoke? && e.call.Some? ==> Classify(e.call.value.text) == Speak(e.call.value.text)
  }

  /** Counter bookkeeping of one turn: a spoken turn uses the current counter, which advances iff the file was saved. */
  lemma StepCounter(cloner: VoiceCloner, fs: FileSystem, voiceFile: Parts, st: Session, line: Line)
    ensures var (next, effect) := Step(cloner, fs, voiceFile, st, line);
            && next.counter == st.counter + (if effect.Spoke? && effect.saved then 1 else 0)
            && (effect.Spoke? ==> effect.counter == st.counter)
  {
  }

  /** One turn keeps the language supported. */
  lemma StepKeepsLanguage(cloner: VoiceCloner, fs: FileSystem, voiceFile: Parts, st: Session, line: Line)
    requires st.language in Languages
    ensures Step(cloner, fs, voiceFile, st, line).0.language in Languages
  {
  }

  /** One turn only speaks plain text. */
  lemma StepPlainSpeech(cloner: VoiceCloner, fs: FileSystem, voiceFile: Parts, st: Session, line: Line)
    ensures PlainSpeech(Step(cloner, fs, voiceFile, st, line).1)
  {
    var command := Classify(line.text);
    if command.Speak? {
      SpokenTextIsNotCommand(line.text);
      assert Step(cloner, fs, voiceFile, st, line) == Generate(cloner, fs, voiceFile, st, command.text, line);
    }
  }

  /** In `interactive_mode` the counter moves past a file exactly when it was saved. */
  lemma TurnCountsSaves(cloner: VoiceCloner, fs: FileSystem, voiceFile: Parts)
    ensures CountsSaves(Turn(cloner, fs, voiceFile))
    ensures StampsCounter(Turn(cloner, fs, voiceFile))
  {
    forall st, line {
      StepCounter(cloner, fs, voiceFile, st, line);
    }
  }

  /** In `interactive_mode` a language change only ever installs a supported code. */
  lemma TurnKeepsLanguage(cloner: VoiceCloner, fs: FileSystem, voiceFile: Parts)
    ensures KeepsLanguage(Turn(cloner, fs, voiceFile))
  {
    forall st: Session, line | st.language in Languages {
      StepKeepsLanguage(cloner, fs, voiceFile, st, line);
    }
  }

  /** In `interactive_mode` only text that is not a command reaches the model. */
  lemma TurnPlainSpeech(cloner: VoiceCloner, fs: FileSystem, voiceFile: Parts)
    ensures forall st, line :: PlainSpeech(Turn(cloner, fs, voiceFile)(st, line).1)
  {
    forall st, line {
      StepPlainSpeech(cloner, fs, voiceFile, st, line);
    }
  }

  /** The counter is one more than the number of successful generations; failures leave it alone. */
  lemma {:induction false} RunCounter(turn: (Session, Line) -> (Session, Effect), st: Session, lines: seq<Line>)
    requires CountsSaves(turn)
    ensures Run(turn, st, lines).0.counter == st.counter + SavedCount(Run(turn, st, lines).1)
    decreases |lines|
  {
    if lines != [] {
      var (next, effect) := turn(st, lines[0]);
      if !effect.Stopped? {
        RunCounter(turn, next, lines[1..]);
        var rest := Run(turn, next, lines[1..]).1;
        assert ([effect] + rest)[1..] == rest;
      }
    }
  }

  /** The session language is always one of the supported codes. */
  lemma {:induction false} RunKeepsLanguage(turn: (Session, Line) -> (Session, Effect), st: Session, lines: seq<Line>)
    requires KeepsLanguage(turn) && st.language in Languages
    ensures Run(turn, st, lines).0.language in Languages
    decreases |lines|
  {
    if lines != [] {
      var (next, effect) := turn(st, lines[0]);
      if !effect.Stopped? {
        RunKeepsLanguage(turn, next, lines[1..]);
      }
    }
  }

  /** Every line gives at most one effect, and a quit is the last thing the session does. */
  lemma {:induction false} RunShape(turn: (Session, Line) -> (Session, Effect), st: Session, lines: seq<Line>)
    ensures var effects := Run(turn, st, lines).1;
            && |effects| <= |lines|
            && (forall k :: 0 <= k < |effects| - 1 ==> !effects[k].Stopped?)
            && (|effects| < |lines| ==> effects != [] && effects[|effects| - 1].Stopped?)
    decreases |lines|
  {
    if lines != [] {
      var (next, effect) := turn(st, lines[0]);
      if !effect.Stopped? {
        RunShape(turn, next, lines[1..]);
        var rest := Run(turn, next, lines[1..]).1;
        var effects := [effect] + rest;
        forall k | 0 <= k < |effects| - 1 ensures !effects[k].Stopped? {
          if k > 0 { assert effects[k] == rest[k - 1]; }
        }
      }
    }
  }

  /** A property that every turn's effect has holds of every effect of the session. */
  lemma {:induction false} RunEffectsSatisfy(turn: (Session, Line) -> (Session, Effect), p: Effect -> bool,
                                            st: Session, lines: seq<Line>)
    requires forall s, l :: p(turn(s, l).1)
    ensures forall e :: e in Run(turn, st, lines).1 ==> p(e)
    decreases |lines|
  {
    if lines != [] {
      var (next, effect) := turn(st, lines[0]);
      if !effect.Stopped? {
        RunEffectsSatisfy(turn, p, next, lines[1..]);
        assert p(turn(st, lines[0]).1);
      }
    }
  }

  /** Every generation in a session uses a counter no smaller than the session's counter at its start. */
  lemma {:induction false} RunCountersFrom(turn: (Session, Line) -> (Session, Effect), st: Session, lines: seq<Line>)
    requires CountsSaves(turn) && StampsCounter(turn)
    ensures forall e :: e in Run(turn, st, lines).1 && e.Spoke? ==> e.counter >= st.counter
    decreases |lines|
  {
    if lines != [] {
      var (next, effect) := turn(st, lines[0]);
      assert next.counter >= st.counter && (effect.Spoke? ==> effect.counter == st.counter) by {
        assert (next, effect) == turn(st, lines[0]);
      }
      if !effect.Stopped? {
        RunCountersFrom(turn, next, lines[1..]);
      }
    }
  }

  /** After a saved generation every later one uses a larger counter. */
  predicate CountersIncrease(effects: seq<Effect>) {
    forall i, j :: 0 <= i < j < |effects| && effects[i].Spoke? && effects[i].saved && effects[j].Spoke?
      ==> effects[i].counter < effects[j].counter
  }

  /** Within a session the counters of saved generations are never reused. */
  lemma {:induction false} SavedCountersIncrease(turn: (Session, Line) -> (Session, Effect), st: Session, lines: seq<Line>)
    requires CountsSaves(turn) && StampsCounter(turn)
    ensures CountersIncrease(Run(turn, st, lines).1)
    decreases |lines|
  {
    if lines != [] {
      var (next, effect) := turn(st, lines[0]);
      assert next.counter == st.counter + (if effect.Spoke? && effect.saved then 1 else 0)
             && (effect.Spoke? ==> effect.counter == st.counter) by {
        assert (next, effect) == turn(st, lines[0]);
      }
      if !effect.Stopped? {
        SavedCountersIncrease(turn, next, lines[1..]);
        RunCountersFrom(turn, next, lines[1..]);
        var rest := Run(turn, next, lines[1..]).1;
        var effects := [effect] + rest;
        forall i, j | 0 <= i < j < |effects| && effects[i].Spoke? && effects[i].saved && effects[j].Spoke?
          ensures effects[i].counter < effects[j].counter
        {
          assert effects[j] == rest[j - 1] && rest[j - 1] in rest;
          if i > 0 { assert effects[i] == rest[i - 1]; }
        }
      }
    }
  }

  /**
    What one interactive session guarantees: the prompt's counter is one
    more than the number of saved files, the language stays supported, no
    command is ever spoken, and two saved files with the same timestamp
    have different names.
  */
  lemma InteractiveSession(cloner: VoiceCloner, fs: FileSystem, voiceFile: Parts, lines: seq<Line>)
    ensures var (fin, effects) := Run(Turn(cloner, fs, voiceFile), Initial, lines);
      && fin.counter == 1 + SavedCount(effects)
      && fin.language in Languages
      && (forall e :: e in effects ==> PlainSpeech(e))
      && CountersIncrease(effects)
      && (forall i, j, ts :: 0 <= i < j < |effects| && effects[i].Spoke? && effects[i].saved && effects[j].Spoke?
            ==> InteractiveFileName(ts, effects[i].counter) != InteractiveFileName(ts, effects[j].counter))
  {
    var turn := Turn(cloner, fs, voiceFile);
    TurnCountsSaves(cloner, fs, voiceFile);
    TurnKeepsLanguage(cloner, fs, voiceFile);
    TurnPlainSpeech(cloner, fs, voiceFile);
    RunCounter(turn, Initial, lines);
    RunKeepsLanguage(turn, Initial, lines);
    RunEffectsSatisfy(turn, PlainSpeech, Initial, lines);
    SavedCountersIncrease(turn, Initial, lines);
    var effects := Run(turn, Initial, lines).1;
    forall i, j, ts | 0 <= i < j < |effects| && effects[i].Spoke? && effects[i].saved && effects[j].Spoke?
      ensures InteractiveFileName(ts, effects[i].counter) != InteractiveFileName(ts, effects[j].counter)
    {
      if InteractiveFileName(ts, effects[i].counter) == InteractiveFileName(ts, effects[j].counter) {
        InteractiveFileNameInjective(ts, effects[i].counter, effects[j].counter);
      }
    }
  }

  /** The command-line options `main` acts on. */
  datatype CliArgs = CliArgs(text: Option<string>, voice: string, output: Option<string>,
                             language: string, interactive: bool, listVoices: bool)

  /** How `main` ends. */
  datatype CliResult =
    | VoicesListed
    | VoiceNotFound(voice: string)
    | ClonerFailed
    | Interactive(voiceFile: Parts)
    | TextRequired
    | TextTooLong
    | OutputOutside(pathError: PathError)
    | GenerationFailed(error: CloneError)
    | Generated(output: Parts, call: SynthCall)

  /** `sys.exit(1)` on every error, a normal return otherwise. */
  function ExitStatus(r: CliResult): nat {
    if r.VoicesListed? || r.Interactive? || r.Generated? then 0 else 1
  }

  /** Without a "/" in the timestamp, `outputs / f"output_{timestamp}.wav"` appends one part. */
  lemma DefaultOutputChild(timestamp: string)
    ensures '/' !in timestamp ==>
      Child(OutputsDir, "output_" + timestamp + ".wav") == ["outputs", "output_" + timestamp + ".wav"]
  {
    var name := "output_" + timestamp + ".wav";
    if '/' !in timestamp {
      forall i | 0 <= i < |name| ensures name[i] != '/' {
        if 7 <= i < |name| - 4 { assert name[i] == timestamp[i - 7]; }
      }
      ChildOfComponent(OutputsDir, name);
    }
  }

  /**
    The output path of one generation: an explicit `--output` must validate
    inside `outputs/` and is then its resolved form; otherwise the path is
    `outputs/output_<timestamp>.wav`.
  */
  function OutputPath(fs: FileSystem, output: Option<string>, timestamp: string): (r: Result<Parts, PathError>)
    ensures r.Err? ==> output.Some? && output.value != "" && r.error == InvalidPath(output.value, "outputs")
    ensures r.Ok? && output.Some? && output.value != "" ==>
      fs.resolve(Parse("outputs")).Resolved? && Within(r.value, fs.resolve(Parse("outputs")).path)
    ensures (output.None? || output.value == "") && '/' !in timestamp ==>
      r == Ok(["outputs", "output_" + timestamp + ".wav"])
  {
    DefaultOutputChild(timestamp);
    if output.Some? && output.value != "" then ValidatePath(fs, output.value, "outputs")
    else Ok(Child(OutputsDir, "output_" + timestamp + ".wav"))
  }

  /**
    `main` in single-generation mode, in the program's order: list voices,
    find the voice, load the model (`clonerLoads`), interactive mode, then
    the text and output checks and the model call.
  */
  function SingleShot(cloner: VoiceCloner, fs: FileSystem, args: CliArgs, timestamp: string,
                clonerLoads: bool, synthOk: bool): (r: CliResult)
    ensures r.Generated? ==>
      && args.text.Some? && 0 < |args.text.value| <= MaxTextLength && !IsBlank(args.text.value)
      && r.call.text == args.text.value && r.call.language == args.language
      && r.call.output == Some(Render(r.output))
      && OutputPath(fs, args.output, timestamp) == Ok(r.output)
    ensures r.Generated? && args.output.Some? && args.output.value != "" ==>
      ValidatePath(fs, args.output.value, "outputs") == Ok(r.output)
    ensures !args.listVoices && FindVoiceFile(fs, args.voice).None? ==> r == VoiceNotFound(args.voice)
    ensures r == TextRequired <==>
      && !args.listVoices && FindVoiceFile(fs, args.voice).Some? && clonerLoads && !args.interactive
      && (args.text.None? || args.text.value == "")
  {
    if args.listVoices then VoicesListed
    else match FindVoiceFile(fs, args.voice)
      case None => VoiceNotFound(args.voice)
      case Some(voiceFile) =>
        if !clonerLoads then ClonerFailed
        else if args.interactive then Interactive(voiceFile)
        else if args.text.None? || args.text.value == "" then TextRequired
        else if |args.text.value| > MaxTextLength then TextTooLong
        else match OutputPath(fs, args.output, timestamp)
          case Err(e) => OutputOutside(e)
          case Ok(output) =>
            var run := cloner.CloneVoice(fs, args.text.value, Render(voiceFile), Render(output), args.language, synthOk);
            if run.result.Ok? then Generated(output, run.call.value) else GenerationFailed(run.result.error)
  }

  /** Exactly 10000 characters pass the length check; 10001 do not. */
  lemma SingleShotLengthBoundary(cloner: VoiceCloner, fs: FileSystem, args: CliArgs, timestamp: string, synthOk: bool)
    requires !args.listVoices && !args.interactive && FindVoiceFile(fs, args.voice).Some?
    requires args.text.Some? && |args.text.value| in {MaxTextLength, MaxTextLength + 1}
    ensures SingleShot(cloner, fs, args, timestamp, true, synthOk) == TextTooLong <==> |args.text.value| == MaxTextLength + 1
  {
  }

  /**
    A whitespace-only text passes `main`'s own check, which only asks for a
    non-empty string, and is then refused by `clone_voice`: exit status 1.
  */
  lemma SingleShotBlankTextRefused(cloner: VoiceCloner, fs: FileSystem, args: CliArgs, timestamp: string, synthOk: bool)
    requires !args.listVoices && !args.interactive && FindVoiceFile(fs, args.voice).Some?
    requires OsPathExists(fs, Render(FindVoiceFile(fs, args.voice).value))
    requires args.text.Some? && args.text.value != [] && |args.text.value| <= MaxTextLength && AllSpace(args.text.value)
    requires OutputPath(fs, args.output, timestamp).Ok?
    ensures SingleShot(cloner, fs, args, timestamp, true, synthOk) == GenerationFailed(EmptyText)
  {
    BlankIffAllSpace(args.text.value);
  }

  /** `main` returns normally exactly when it listed voices, started a session or wrote the file. */
  lemma SingleShotExitStatus(cloner: VoiceCloner, fs: FileSystem, args: CliArgs, timestamp: string, clonerLoads: bool, synthOk: bool)
    ensures var r := SingleShot(cloner, fs, args, timestamp, clonerLoads, synthOk);
            ExitStatus(r) == 0 <==> args.listVoices || (FindVoiceFile(fs, args.voice).Some? && clonerLoads && (args.interactive || r.Generated?))
  {
  }
}
