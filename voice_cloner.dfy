/**
  The wrapper object around the speech model: path containment, the input
  checks of `clone_voice` and `clone_voice_streaming`, the language list
  and the text preview.  The neural synthesis itself is foreign: a call to
  it is recorded as a `SynthCall`, and whether it succeeds is an input.
*/
module Cloner {
  import opened Outcomes
  import opened Text
  import opened Paths

  /** The ValueError `validate_path` raises, naming the path and the allowed parent. */
  datatype PathError = InvalidPath(path: string, allowedParent: string)

  /**
    `validate_path`: the resolved path when it lies at or under the
    resolved allowed parent; any failure to resolve, or a path elsewhere,
    is the one ValueError.
  */
  function ValidatePath(fs: FileSystem, path: string, allowedParent: string): (r: Result<Parts, PathError>)
    ensures r.Ok? <==>
      && fs.resolve(Parse(path)).Resolved?
      && fs.resolve(Parse(allowedParent)).Resolved?
      && Within(fs.resolve(Parse(path)).path, fs.resolve(Parse(allowedParent)).path)
    ensures r.Ok? ==> r.value == fs.resolve(Parse(path)).path
    ensures r.Err? ==> r.error == InvalidPath(path, allowedParent)
  {
    match (fs.resolve(Parse(path)), fs.resolve(Parse(allowedParent)))
    case (Resolved(p), Resolved(a)) =>
      if Within(p, a) then Ok(p) else Err(InvalidPath(path, allowedParent))
    case _ => Err(InvalidPath(path, allowedParent))
  }

  /**
    Since `resolve()` yields absolute paths, a path is accepted exactly when
    the resolved parent's parts are a prefix of the resolved path's parts.
  */
  lemma ValidatePathIsPrefixTest(fs: FileSystem, path: string, allowedParent: string)
    requires ResolvesAbsolute(fs)
    ensures ValidatePath(fs, path, allowedParent).Ok? <==>
      && fs.resolve(Parse(path)).Resolved?
      && fs.resolve(Parse(allowedParent)).Resolved?
      && IsPrefix(fs.resolve(Parse(allowedParent)).path, fs.resolve(Parse(path)).path)
  {
    var rp, ra := fs.resolve(Parse(path)), fs.resolve(Parse(allowedParent));
    if rp.Resolved? && ra.Resolved? {
      WithinIffPrefix(rp.path, ra.path);
    }
  }

  /** Every language code the model accepts, in the order `get_supported_languages` gives them. */
  const Languages: seq<string> :=
    ["en", "es", "fr", "de", "it", "pt", "pl", "tr",
     "ru", "nl", "cs", "ar", "zh-cn", "ja", "hu", "ko"]

  /** `text[:60] + "..." if len(text) > 60 else text`, the preview shown before synthesis. */
  function Preview(text: string): (p: string)
    ensures |p| <= 63
    ensures |text| <= 60 ==> p == text
    ensures |text| > 60 ==> |p| == 63 && p[..60] == text[..60] && p[60..] == "..."
  {
    if |text| > 60 then text[..60] + "..." else text
  }

  /**
    The preview equals the text for short texts, and for one kind of long
    text only: 63 characters ending in "...".
  */
  lemma PreviewIsText(text: string)
    ensures Preview(text) == text <==> |text| <= 60 || (|text| == 63 && text[60..] == "...")
  {
    if |text| == 63 && text[60..] == "..." {
      assert text == text[..60] + text[60..];
    }
  }

  datatype Device = Cuda | Cpu

  /** The exceptions `clone_voice` raises: FileNotFoundError, ValueError, or the model's own. */
  datatype CloneError = ReferenceNotFound(reference: string) | EmptyText | SynthesisFailed

  /** One call into the speech model, with the arguments it was given. */
  datatype SynthCall = SynthCall(text: string, reference: string, output: Option<string>, language: string)

  /**
    What one `clone_voice` call does: the directory it creates, the model
    call it makes, and what it returns or raises.
  */
  datatype CloneRun = CloneRun(madeDir: Option<Parts>, call: Option<SynthCall>, result: Result<string, CloneError>)

  /** The model's answer to a streaming request: the samples, or the exception it raised. */
  datatype StreamRun = StreamRun(call: Option<SynthCall>, result: Result<seq<real>, CloneError>)

  /** A request `clone_voice` hands to the model: the reference exists and the text is not blank. */
  predicate Admissible(fs: FileSystem, text: string, reference: string) {
    OsPathExists(fs, reference) && exists i :: 0 <= i < |text| && !IsSpace(text[i])
  }

  class VoiceCloner {
    /** "cuda" when a GPU is available, else "cpu"; chosen once, when the model is loaded. */
    const device: Device
    const modelName: string

    constructor (cudaAvailable: bool, modelName: string)
      ensures device == (if cudaAvailable then Cuda else Cpu)
      ensures this.modelName == modelName
    {
      device := if cudaAvailable then Cuda else Cpu;
      this.modelName := modelName;
    }

    /** `get_supported_languages`: sixteen distinct lower-case codes, English first. */
    function SupportedLanguages(): (langs: seq<string>)
      ensures |langs| == 16 && langs[0] == "en"
      ensures forall i, j :: 0 <= i < j < |langs| ==> langs[i] != langs[j]
      ensures forall i :: 0 <= i < |langs| ==> Lower(langs[i]) == langs[i]
    {
      Languages
    }

    /**
      `clone_voice`: the reference must exist as `os.path.exists` sees the
      string (checked first), the text must not be blank; then the output's directory is created and the model is
      called, and the output path is returned unchanged when it succeeds.
      `synthOk` is whether the model call returns normally.
    */
    function CloneVoice(fs: FileSystem, text: string, reference: string, outputPath: string,
                        language: string, synthOk: bool): (run: CloneRun)
      ensures !OsPathExists(fs, reference) ==> run == CloneRun(None, None, Err(ReferenceNotFound(reference)))
      ensures OsPathExists(fs, reference) && IsBlank(text) ==> run == CloneRun(None, None, Err(EmptyText))
      ensures run.call.Some? <==> OsPathExists(fs, reference) && !IsBlank(text)
      ensures run.call.Some? ==> run.call.value == SynthCall(text, reference, Some(outputPath), language)
      ensures run.madeDir.Some? <==> run.call.Some?
      ensures run.madeDir.Some? ==> run.madeDir.value == Parent(Parse(outputPath))
      ensures run.result.Ok? <==> run.call.Some? && synthOk
      ensures run.result.Ok? ==> run.result.value == outputPath
      ensures run.call.Some? && !synthOk ==> run.result == Err(SynthesisFailed)
    {
      if !OsPathExists(fs, reference) then
        CloneRun(None, None, Err(ReferenceNotFound(reference)))
      else if IsBlank(text) then
        CloneRun(None, None, Err(EmptyText))
      else
        var call := SynthCall(text, reference, Some(outputPath), language);
        CloneRun(Some(Parent(Parse(outputPath))), Some(call),
                 if synthOk then Ok(outputPath) else Err(SynthesisFailed))
    }

    /** The model is called exactly for admissible requests: an existing reference and a non-blank text. */
    lemma CloneVoiceCallsIffAdmissible(fs: FileSystem, text: string, reference: string, outputPath: string,
                                       language: string, synthOk: bool)
      ensures CloneVoice(fs, text, reference, outputPath, language, synthOk).call.Some?
              <==> Admissible(fs, text, reference)
    {
      BlankIffAllSpace(text);
    }

    /**
      `clone_voice_streaming`: only the reference is checked; the text goes
      to the model as it is.  `synthesized` is the model's answer, `None`
      when it raises.
    */
    function CloneVoiceStreaming(fs: FileSystem, text: string, reference: string, language: string,
                                 synthesized: Option<seq<real>>): (run: StreamRun)
      ensures !OsPathExists(fs, reference) ==> run == StreamRun(None, Err(ReferenceNotFound(reference)))
      ensures OsPathExists(fs, reference) ==> run.call == Some(SynthCall(text, reference, None, language))
      ensures run.result.Ok? <==> OsPathExists(fs, reference) && synthesized.Some?
      ensures run.result.Ok? ==> run.result.value == synthesized.value
    {
      if !OsPathExists(fs, reference) then
        StreamRun(None, Err(ReferenceNotFound(reference)))
      else
        StreamRun(Some(SynthCall(text, reference, None, language)),
                  match synthesized
                  case Some(wav) => Ok(wav)
                  case None => Err(SynthesisFailed))
    }

    /** Unlike `clone_voice`, the streaming call hands even a blank text to the model. */
    lemma StreamingSkipsTextCheck(fs: FileSystem, text: string, reference: string, language: string,
                                  synthesized: Option<seq<real>>, outputPath: string, synthOk: bool)
      requires OsPathExists(fs, reference) && AllSpace(text)
      ensures CloneVoiceStreaming(fs, text, reference, language, synthesized).call.Some?
      ensures CloneVoice(fs, text, reference, outputPath, language, synthOk).call.None?
    {
      BlankIffAllSpace(text);
    }
  }
}
