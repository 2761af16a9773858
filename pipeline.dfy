/** `process_youtube_video` and the input check of `main`: which external
    step runs, in which order, and what is shown. Every external service is
    a parameter (`Services`) returning None when the call raises; the
    result of a run is the returned summary and a trace of the calls made
    and the messages shown. */
module Pipeline {
  import opened Wrappers
  import opened Strings
  import opened VideoId

  /** One caption entry; only its text is read. */
  datatype Entry = Entry(text: string, start: real, duration: real)

  /** The external collaborators: `urlparse`, the transcript API, language
      detection, translation (source language given, destination English)
      and the summariser. None means the call raised. */
  datatype Services = Services(
    parse: string -> Option<ParsedUrl>,
    fetch: string -> Option<seq<Entry>>,
    detect: string -> Option<string>,
    translate: (string, string) -> Option<string>,
    summarize: string -> Option<string>)

  /** The messages the page shows. The text of a caught exception is not
      modelled; only which handler showed it. */
  datatype Notice =
    | ExtractionError      // "Error extracting video ID: ..."
    | ExtractionFailed     // "Failed to extract video ID."
    | ProcessingError      // "Error processing YouTube video: ..."
    | TranscriptShown(text: string)
    | SummaryShown(text: string)
    | Processing           // "Processing... Please wait."
    | Goodbye              // "Exiting the conversation. Goodbye!"

  datatype Step =
    | FetchCalled(id: string)
    | DetectCalled(text: string)
    | TranslateCalled(text: string, source: string)
    | SummarizeCalled(text: string)
    | Shown(notice: Notice)

  datatype Run = Run(summary: Option<string>, trace: seq<Step>)

  const English := "en"
  const ExitCommand := "exit"

  predicate IsError(n: Notice)
  {
    n.ExtractionError? || n.ExtractionFailed? || n.ProcessingError?
  }

  /** The calls to external services in a trace, in order. */
  function Calls(t: seq<Step>): (c: seq<Step>)
    ensures forall i :: 0 <= i < |c| ==> !c[i].Shown?
    ensures |c| <= |t|
  {
    if t == [] then []
    else if t[0].Shown? then Calls(t[1..])
    else [t[0]] + Calls(t[1..])
  }

  lemma {:induction false} CallsAppend(t: seq<Step>, u: seq<Step>)
    ensures Calls(t + u) == Calls(t) + Calls(u)
  {
    if t == [] {
      assert t + u == u;
    } else {
      assert (t + u)[1..] == t[1..] + u;
      CallsAppend(t[1..], u);
    }
  }

  /** `[entry['text'] for entry in transcript]`. */
  function Texts(entries: seq<Entry>): seq<string>
  {
    seq(|entries|, i requires 0 <= i < |entries| => entries[i].text)
  }

  /** `' '.join(transcriptions)`. */
  function TranscriptText(entries: seq<Entry>): string
  {
    Join(Texts(entries), ' ')
  }

  /** The transcript text is the entry texts in order, one space between
      neighbours: empty for no entries, the text itself for one entry, and
      each further entry adds one space and its text. */
  lemma TranscriptTextInOrder(entries: seq<Entry>, e: Entry)
    ensures TranscriptText([]) == ""
    ensures TranscriptText([e]) == e.text
    ensures entries != [] ==>
      TranscriptText(entries + [e]) == TranscriptText(entries) + " " + e.text
  {
    if entries != [] {
      assert Texts(entries + [e]) == Texts(entries) + [e.text];
      JoinAppend(Texts(entries), e.text, ' ');
    }
  }

  /** When no entry text contains a space, the transcript text splits back
      into exactly the entry texts. */
  lemma TranscriptTextSplits(entries: seq<Entry>)
    requires entries != []
    requires forall i :: 0 <= i < |entries| ==> ' ' !in entries[i].text
    ensures Split(TranscriptText(entries), ' ') == Texts(entries)
  {
    JoinThenSplit(Texts(entries), ' ');
  }

  /** The id that reaches `if video_id:`, as the source's truthiness test
      sees it: None and the empty string both stop the pipeline. */
  function UsableId(ex: Extraction): Option<string>
  {
    if ex.Found? && ex.id != "" then Some(ex.id) else None
  }

  /** The summariser, then the summary on screen; a failure shows the
      processing error. */
  function Summarise(text: string, env: Services, t: seq<Step>): (r: Run)
    ensures |r.trace| == |t| + 2 && r.trace[..|t|] == t
    ensures r.trace[|t|] == SummarizeCalled(text)
    ensures r.summary == env.summarize(text)
    ensures r.summary.Some? ==> r.trace[|t| + 1] == Shown(SummaryShown(r.summary.value))
    ensures r.summary.None? ==> r.trace[|t| + 1] == Shown(ProcessingError)
  {
    var t' := t + [SummarizeCalled(text)];
    match env.summarize(text)
    case None => Run(None, t' + [Shown(ProcessingError)])
    case Some(s) => Run(Some(s), t' + [Shown(SummaryShown(s))])
  }

  /** Language detection, translation when the language is not English,
      then the summariser. */
  function DetectTranslateSummarise(text: string, env: Services, t: seq<Step>): (r: Run)
    ensures |r.trace| > |t| + 1 && r.trace[..|t| + 1] == t + [DetectCalled(text)]
  {
    var t' := t + [DetectCalled(text)];
    match env.detect(text)
    case None => Run(None, t' + [Shown(ProcessingError)])
    case Some(lang) =>
      if lang != English then
        var t'' := t' + [TranslateCalled(text, lang)];
        match env.translate(text, lang)
        case None => Run(None, t'' + [Shown(ProcessingError)])
        case Some(english) => Summarise(english, env, t'')
      else
        Summarise(text, env, t')
  }

  /** `process_youtube_video(url)`. */
  function ProcessVideo(url: string, env: Services): (r: Run)
    // every run shows something last: the summary or an error message
    ensures r.trace != []
    ensures r.summary.Some? ==> r.trace[|r.trace| - 1] == Shown(SummaryShown(r.summary.value))
    ensures r.summary.None? ==> r.trace[|r.trace| - 1].Shown? && IsError(r.trace[|r.trace| - 1].notice)
    // a failed extraction is reported; an exception inside it first shows its own error
    ensures r.trace[0] == Shown(ExtractionError) <==> ExtractId(url, env.parse).Raised?
  {
    var ex := ExtractId(url, env.parse);
    var t0 := if ex.Raised? then [Shown(ExtractionError)] else [];
    match UsableId(ex)
    case None => Run(None, t0 + [Shown(ExtractionFailed)])
    case Some(id) =>
      var t1 := t0 + [FetchCalled(id)];
      match env.fetch(id)
      case None => Run(None, t1 + [Shown(ProcessingError)])
      case Some(entries) =>
        var text := TranscriptText(entries);
        DetectTranslateSummarise(text, env, t1 + [Shown(TranscriptShown(text))])
  }

  /** Without a usable id (None or empty) the run stops with "Failed to
      extract video ID." and calls no service: the transcript is never
      fetched. */
  lemma NoIdNoFetch(url: string, env: Services)
    requires UsableId(ExtractId(url, env.parse)).None?
    ensures var r := ProcessVideo(url, env);
      r.summary.None? && Calls(r.trace) == [] && r.trace[|r.trace| - 1] == Shown(ExtractionFailed)
  {
  }

  /** A failed fetch shows the processing error and nothing else: no
      transcript on screen, no detection, translation or summary. */
  lemma FetchFailure(url: string, env: Services, id: string)
    requires UsableId(ExtractId(url, env.parse)) == Some(id)
    requires env.fetch(id).None?
    ensures var r := ProcessVideo(url, env);
      r.summary.None? && Calls(r.trace) == [FetchCalled(id)] &&
      r.trace[|r.trace| - 1] == Shown(ProcessingError) &&
      forall i :: 0 <= i < |r.trace| ==> !(r.trace[i].Shown? && r.trace[i].notice.TranscriptShown?)
  {
  }

  /** After a successful fetch the joined transcript is on screen before
      language detection is called, whatever happens afterwards. */
  lemma TranscriptShownFirst(url: string, env: Services, id: string, entries: seq<Entry>)
    requires UsableId(ExtractId(url, env.parse)) == Some(id)
    requires env.fetch(id) == Some(entries)
    ensures var r, text := ProcessVideo(url, env), TranscriptText(entries);
      exists k :: 0 <= k < |r.trace| - 1 &&
        r.trace[k] == Shown(TranscriptShown(text)) && r.trace[k + 1] == DetectCalled(text)
  {
    var r, text := ProcessVideo(url, env), TranscriptText(entries);
    var t0 := if ExtractId(url, env.parse).Raised? then [Shown(ExtractionError)] else [];
    var t := t0 + [FetchCalled(id)] + [Shown(TranscriptShown(text))];
    var k := |t0| + 1;
    assert r.trace[..|t| + 1] == t + [DetectCalled(text)];
    assert r.trace[k] == r.trace[..|t| + 1][k];
    assert r.trace[k + 1] == r.trace[..|t| + 1][k + 1];
  }

  /** The calls a run makes once the transcript has been fetched, stated
      through the calls of the prefix `t` they extend: detection failing. */
  lemma DetectFailsCalls(text: string, env: Services, t: seq<Step>)
    requires env.detect(text).None?
    ensures var r := DetectTranslateSummarise(text, env, t);
      Calls(r.trace) == Calls(t) + [DetectCalled(text)] && r.summary.None?
  {
    CallsAppend(t, [DetectCalled(text)]);
    CallsAppend(t + [DetectCalled(text)], [Shown(ProcessingError)]);
  }

  /** English text goes to the summariser unchanged. */
  lemma EnglishCalls(text: string, env: Services, t: seq<Step>)
    requires env.detect(text) == Some(English)
    ensures var r := DetectTranslateSummarise(text, env, t);
      Calls(r.trace) == Calls(t) + [DetectCalled(text), SummarizeCalled(text)] &&
      r.summary == env.summarize(text)
  {
    var r := DetectTranslateSummarise(text, env, t);
    var t' := t + [DetectCalled(text)];
    CallsAppend(t, [DetectCalled(text)]);
    assert r.trace == t' + [SummarizeCalled(text), r.trace[|r.trace| - 1]];
    CallsAppend(t', [SummarizeCalled(text), r.trace[|r.trace| - 1]]);
  }

  /** Other languages are translated, and the translation, not the
      transcript text, goes to the summariser. */
  lemma ForeignCalls(text: string, env: Services, t: seq<Step>, lang: string)
    requires env.detect(text) == Some(lang) && lang != English
    ensures var r := DetectTranslateSummarise(text, env, t);
      match env.translate(text, lang)
      case None =>
        Calls(r.trace) == Calls(t) + [DetectCalled(text), TranslateCalled(text, lang)] &&
        r.summary.None?
      case Some(english) =>
        Calls(r.trace) == Calls(t) + [DetectCalled(text), TranslateCalled(text, lang), SummarizeCalled(english)] &&
        r.summary == env.summarize(english)
  {
    var r := DetectTranslateSummarise(text, env, t);
    var t' := t + [DetectCalled(text)];
    var t'' := t' + [TranslateCalled(text, lang)];
    CallsAppend(t, [DetectCalled(text)]);
    CallsAppend(t', [TranslateCalled(text, lang)]);
    match env.translate(text, lang)
    case None =>
      CallsAppend(t'', [Shown(ProcessingError)]);
    case Some(english) =>
      assert r.trace == t'' + [SummarizeCalled(english), r.trace[|r.trace| - 1]];
      CallsAppend(t'', [SummarizeCalled(english), r.trace[|r.trace| - 1]]);
  }

  /** The calls of a whole run after a successful fetch: detection on the
      joined transcript; translation exactly when the detected language is
      not English, then the summariser on the translation; otherwise the
      summariser on the transcript text unchanged. */
  lemma FetchedRunCalls(url: string, env: Services, id: string, entries: seq<Entry>)
    requires UsableId(ExtractId(url, env.parse)) == Some(id)
    requires env.fetch(id) == Some(entries)
    ensures var r, text := ProcessVideo(url, env), TranscriptText(entries);
      var before := [FetchCalled(id), DetectCalled(text)];
      && (env.detect(text).None? ==> Calls(r.trace) == before && r.summary.None?)
      && (env.detect(text) == Some(English) ==>
            Calls(r.trace) == before + [SummarizeCalled(text)] && r.summary == env.summarize(text))
      && (env.detect(text).Some? && env.detect(text).value != English ==>
            var lang := env.detect(text).value;
            match env.translate(text, lang)
            case None => Calls(r.trace) == before + [TranslateCalled(text, lang)] && r.summary.None?
            case Some(english) =>
              Calls(r.trace) == before + [TranslateCalled(text, lang), SummarizeCalled(english)] &&
              r.summary == env.summarize(english))
  {
    var text := TranscriptText(entries);
    var t0 := if ExtractId(url, env.parse).Raised? then [Shown(ExtractionError)] else [];
    var t := t0 + [FetchCalled(id)] + [Shown(TranscriptShown(text))];
    CallsAppend(t0 + [FetchCalled(id)], [Shown(TranscriptShown(text))]);
    CallsAppend(t0, [FetchCalled(id)]);
    assert Calls(t) == [FetchCalled(id)];
    match env.detect(text)
    case None => DetectFailsCalls(text, env, t);
    case Some(lang) =>
      if lang == English {
        EnglishCalls(text, env, t);
      } else {
        ForeignCalls(text, env, t, lang);
      }
  }

  /** Translation is called exactly when the detected language is not
      English, and then exactly once. */
  lemma TranslateIffNotEnglish(url: string, env: Services, id: string, entries: seq<Entry>, lang: string)
    requires UsableId(ExtractId(url, env.parse)) == Some(id)
    requires env.fetch(id) == Some(entries)
    requires env.detect(TranscriptText(entries)) == Some(lang)
    ensures var c := Calls(ProcessVideo(url, env).trace);
      (exists i :: 0 <= i < |c| && c[i].TranslateCalled?) <==> lang != English
    ensures var c := Calls(ProcessVideo(url, env).trace);
      forall i, j :: 0 <= i < j < |c| && c[i].TranslateCalled? ==> !c[j].TranslateCalled?
  {
    FetchedRunCalls(url, env, id, entries);
    var c := Calls(ProcessVideo(url, env).trace);
    var text := TranscriptText(entries);
    if lang != English {
      assert c[2] == TranslateCalled(text, lang);
    }
  }

  /** `user_input.lower() == 'exit'`. */
  predicate IsExit(input: string)
  {
    AsciiLower(input) == ExitCommand
  }

  /** `exit` is recognised in any mix of cases, and nothing else is. */
  lemma ExitInAnyCase(input: string)
    ensures IsExit(input) <==>
      && |input| == 4
      && (input[0] == 'e' || input[0] == 'E')
      && (input[1] == 'x' || input[1] == 'X')
      && (input[2] == 'i' || input[2] == 'I')
      && (input[3] == 't' || input[3] == 'T')
  {
  }

  /** One submission of the text field in `main`: `exit` in any case shows
      the goodbye, empty input does nothing, anything else is processed. */
  function HandleInput(input: string, env: Services): (trace: seq<Step>)
    ensures IsExit(input) ==> trace == [Shown(Goodbye)]
    ensures input == "" ==> trace == []
    ensures !IsExit(input) && input != "" ==>
      trace != [] && trace[0] == Shown(Processing) &&
      Calls(trace) == Calls(ProcessVideo(input, env).trace)
    // only input that is neither `exit` nor empty reaches any service
    ensures Calls(trace) != [] ==> !IsExit(input) && input != ""
  {
    if IsExit(input) then [Shown(Goodbye)]
    else if input != "" then
      CallsAppend([Shown(Processing)], ProcessVideo(input, env).trace);
      [Shown(Processing)] + ProcessVideo(input, env).trace
    else []
  }
}

/** Whole submissions of typical inputs, on services fixed only as far as
    each run needs them. */
module PipelineExamples {
  import opened Wrappers
  import opened VideoId
  import opened Pipeline

  /** Input `not a url`: no host, so no id; the page shows the processing
      notice and the extraction failure and calls nothing. */
  lemma NotAUrlRun(env: Services)
    requires env.parse("not a url") == Some(ParsedUrl(None, "not a url", ""))
    ensures HandleInput("not a url", env) == [Shown(Processing), Shown(ExtractionFailed)]
  {
  }

  /** A short link to a video without captions: the fetch raises, the
      error shows, the transcript and the summariser are never reached. */
  lemma NoCaptionsRun(url: string, env: Services)
    requires url != "" && !IsExit(url)
    requires env.parse(url) == Some(ParsedUrl(Some("youtu.be"), "/ABC123", ""))
    requires env.fetch("ABC123").None?
    ensures HandleInput(url, env) == [Shown(Processing), FetchCalled("ABC123"), Shown(ProcessingError)]
  {
  }

  /** `EXIT` and `Exit` both end the conversation without processing. */
  lemma ExitRun(env: Services)
    ensures HandleInput("exit", env) == [Shown(Goodbye)]
    ensures HandleInput("EXIT", env) == [Shown(Goodbye)]
    ensures HandleInput("Exit", env) == [Shown(Goodbye)]
  {
  }
}
