/** The generation script run as a child process: it derives a file name
    from the prompt, renders an image or synthesises speech into that file
    under `/generated/`, and prints the browser path. The rendering, the
    speech synthesis and the file writes are outcomes passed in as flags. */
module Inference {
  import opened Util
  import opened Text

  const NameLimit := 20
  const AssetDir := "/generated/"
  const DefaultImageName := "generated_image"
  const DefaultAudioName := "audio"
  const NoSpeaker := "No Speaker"

  /** The characters the file-name pattern deletes: backslash, slash,
      asterisk, question mark, colon, double quote, angle brackets and bar. */
  predicate Forbidden(c: char)
  {
    c == '\\' || c == '/' || c == '*' || c == '?' || c == ':' || c == '"' || c == '<' || c == '>' || c == '|'
  }

  predicate Allowed(c: char)
  {
    !Forbidden(c)
  }

  /** The pattern substitution with "": deletes every forbidden character. */
  function RemoveForbidden(s: string): (r: string)
    ensures forall i :: 0 <= i < |r| ==> !Forbidden(r[i])
    ensures |r| <= |s|
    ensures Subsequence(r, s)
  {
    Filter(s, Allowed)
  }

  /** Forbidden characters are all that is deleted: a string without them is kept. */
  lemma RemoveForbiddenKeepsClean(s: string)
    requires forall i :: 0 <= i < |s| ==> !Forbidden(s[i])
    ensures RemoveForbidden(s) == s
  {
    FilterAll(s, Allowed);
  }

  /** `s[:20]`. */
  function Head(s: string): (r: string)
    ensures |r| == if |s| < NameLimit then |s| else NameLimit
    ensures r <= s
  {
    if |s| <= NameLimit then s else s[..NameLimit]
  }

  /** `re.sub(..., "", s[:20]).strip() or default`. */
  function SafeName(s: string, default: string): string
  {
    var t := Strip(RemoveForbidden(Head(s)));
    if t == "" then default else t
  }

  /** A derived name is the default or a non-blank name of at most 20
      characters, with no forbidden character and no outer whitespace. */
  lemma SafeNameSpec(s: string, default: string)
    ensures var n := SafeName(s, default); n == default || (0 < |n| <= NameLimit && !PySpace(n[0]) && !PySpace(n[|n| - 1]))
    ensures var n := SafeName(s, default); n == default || forall i :: 0 <= i < |n| ==> !Forbidden(n[i])
    ensures var n := SafeName(s, default); n == default || Strip(n) == n
  {
    var c := RemoveForbidden(Head(s));
    var t := Strip(c);
    StripEnds(c);
    if t != "" {
      TrimWithFixed(t, PySpace);
      StripKeepsClean(c);
    }
  }

  /** Stripping takes out characters only at the ends, so it adds no forbidden one. */
  lemma StripKeepsClean(c: string)
    requires forall i :: 0 <= i < |c| ==> !Forbidden(c[i])
    ensures forall i :: 0 <= i < |Strip(c)| ==> !Forbidden(Strip(c)[i])
  {
    var t := Strip(c);
    var a := LeadingCount(c, PySpace);
    TrimWithSpec(c, PySpace);
    forall i | 0 <= i < |t|
      ensures !Forbidden(t[i])
    {
      assert t[i] == c[a + i];
    }
  }

  /** The default is used exactly when the first 20 characters are all
      forbidden characters or whitespace. */
  lemma SafeNameDefaulted(s: string)
    ensures Strip(RemoveForbidden(Head(s))) == "" <==>
      forall i :: 0 <= i < |Head(s)| ==> Forbidden(Head(s)[i]) || PySpace(Head(s)[i])
  {
    var h := Head(s);
    var c := RemoveForbidden(h);
    StripEnds(c);
    if forall i :: 0 <= i < |c| ==> PySpace(c[i]) {
      forall i | 0 <= i < |h| && !Forbidden(h[i])
        ensures PySpace(h[i])
      {
        assert Allowed(h[i]);
        assert h[i] in c;
      }
    }
    if forall i :: 0 <= i < |h| ==> Forbidden(h[i]) || PySpace(h[i]) {
      forall i | 0 <= i < |c|
        ensures PySpace(c[i])
      {
        assert c[i] in h;
      }
    }
  }

  /** `generate_image`: the browser path of the PNG, or "" when rendering
      or saving raised. */
  function GenerateImage(prompt: string, rendered: bool): (r: string)
    ensures rendered <==> r != ""
    ensures rendered ==> r == AssetDir + SafeName(prompt, DefaultImageName) + ".png"
  {
    if rendered then AssetDir + SafeName(prompt, DefaultImageName) + ".png" else ""
  }

  /** `generateAudio`: the browser path of the WAV, or "" when loading the
      model or synthesising raised. */
  function GenerateAudio(text: string, synthesised: bool): (r: string)
    ensures synthesised <==> r != ""
    ensures synthesised ==> r == AssetDir + SafeName(text, DefaultAudioName) + ".wav"
  {
    if synthesised then AssetDir + SafeName(text, DefaultAudioName) + ".wav" else ""
  }

  /** What a run leaves behind: the lines on standard output and the exit status. */
  datatype Outcome = Outcome(stdout: seq<string>, exitCode: int)

  /** The whole script on `argv` (the script's own name first). The model
      pipeline is loaded at import, before `argv` is looked at. Missing
      speaker or language prints "No Speaker"; an audio request without them
      then fails on the unbound name, which exits with status 1. */
  function Run(argv: seq<string>, pipelineLoaded: bool, rendered: bool, synthesised: bool): (o: Outcome)
  {
    if !pipelineLoaded || |argv| < 3 then Outcome([], 1)
    else
      var lines := if |argv| < 5 then [NoSpeaker] else [];
      var functionName := argv[1];
      if functionName == "image" then
        var result := GenerateImage(argv[2], rendered);
        if result != "" then Outcome(lines + [result], 0) else Outcome(lines, 1)
      else if functionName == "audio" then
        if |argv| < 5 then Outcome(lines, 1)
        else
          var result := GenerateAudio(argv[2], synthesised);
          if result != "" then Outcome(lines + [result], 0) else Outcome(lines, 1)
      else Outcome(lines, 1)
  }

  /** A run succeeds exactly when the pipeline loaded, the function name is
      "image" and rendering worked, or it is "audio" with speaker and language
      given and synthesis worked. The exit status is 0 or 1. */
  lemma RunExitCodes(argv: seq<string>, pipelineLoaded: bool, rendered: bool, synthesised: bool)
    ensures var o := Run(argv, pipelineLoaded, rendered, synthesised); o.exitCode == 0 || o.exitCode == 1
    ensures Run(argv, pipelineLoaded, rendered, synthesised).exitCode == 0 <==>
      pipelineLoaded && |argv| >= 3 && ((argv[1] == "image" && rendered) || (argv[1] == "audio" && |argv| >= 5 && synthesised))
    ensures !pipelineLoaded || |argv| < 3 ==> Run(argv, pipelineLoaded, rendered, synthesised).stdout == []
  {
  }

  /** A successful run prints the asset path last, and it lies under
      `/generated/`; "No Speaker" comes on the line before exactly when
      speaker or language was missing. */
  lemma RunSuccessPrintsPath(argv: seq<string>, pipelineLoaded: bool, rendered: bool, synthesised: bool)
    requires Run(argv, pipelineLoaded, rendered, synthesised).exitCode == 0
    ensures var out := Run(argv, pipelineLoaded, rendered, synthesised).stdout;
      && |out| >= 1
      && StartsWith(out[|out| - 1], AssetDir)
      && (out[..|out| - 1] == if |argv| < 5 then [NoSpeaker] else [])
  {
    var out := Run(argv, pipelineLoaded, rendered, synthesised).stdout;
    var lines := if |argv| < 5 then [NoSpeaker] else [];
    assert out == lines + [out[|out| - 1]];
    assert out[..|out| - 1] == lines;
  }

  /** A failing run never prints a path: at most the "No Speaker" line. */
  lemma RunFailurePrintsNoPath(argv: seq<string>, pipelineLoaded: bool, rendered: bool, synthesised: bool)
    requires Run(argv, pipelineLoaded, rendered, synthesised).exitCode != 0
    ensures var out := Run(argv, pipelineLoaded, rendered, synthesised).stdout;
      out == [] || out == [NoSpeaker]
  {
  }
}
