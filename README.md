# MediBridge: video-id extraction and pipeline gating

MediBridge is a small web demo. It takes a YouTube URL, fetches the video's
transcript, translates it to English when needed, and summarises it. Its own
logic lives in `MediBridge.py`, and this project models all of it:

- `get_video_id` reads a parsed URL and returns the video id, depending on
  the host and path shape.
- `process_youtube_video` decides which external step runs, in what order, and
  what is shown. The steps are transcript fetch, language detection,
  translation and summarisation.
- `main` checks for `exit` and for empty input.

Files:

- `wrappers.dfy`: `Option`.
- `strings.dfy`: the Python string operations used, written as sequence
  functions. These are `str.split`, `str.join`, the clamped slices `s[:n]` and
  `s[n:]`, and ASCII `str.lower`. The split/join round trips are proved here.
- `query.dfy`: the part of `parse_qs` that `get_video_id` relies on. It splits
  on `&`, then at the first `=`, and drops fields with no `=` or an empty value.
  `parse_qs(q)[key][0]` becomes `QueryValue`, and a lemma restates it in terms
  of the raw fields alone.
- `video_id.dfy`: `get_video_id` as `IdFromParts`/`ExtractId`, with one lemma
  per branch, a round trip per accepted URL shape, and concrete examples.
- `pipeline.dfy`: `process_youtube_video` and `main` as functions over a
  `Services` record of external calls. Each run returns the summary and a
  trace of the service calls made and the messages shown.

Assumptions about the inputs:

- `urlparse` is a parameter, `Services.parse`, returning a `ParsedUrl`. Its
  fields are the lower-cased hostname (or None), the path and the raw query.
  None means `urlparse` raised.
- The transcript API, `langdetect.detect`, `googletrans` and the BART
  summariser are parameters of `Services` too. Each returns None when the call
  raises.

What the code does on the edge cases:

- An unrecognised host or path returns None without raising.
- Only `urlparse` failing, or a `/watch` query with no `v`, goes through the
  `except` branch.
- In that case the page shows two messages: the extraction error, then
  "Failed to extract video ID.".
- An id that is the empty string (`youtu.be/`, `/embed/`) is treated like None.

## Model

| member | source | states |
|---|---|---|
| `VideoId.IdFromParts` | MediBridge.py:13-27 | only the `youtu.be`, `www.youtube.com` and `youtube.com` hosts ever give an id; only the `/watch` branch can raise |
| `VideoId.ShortLinkId` | MediBridge.py:16-17 | on `youtu.be` the id is the path without its first character; an empty path or `/` gives the empty id |
| `VideoId.WatchId` | MediBridge.py:18-20 | on a watch host with path exactly `/watch` the id is the first non-blank `v` value; with no `v` the lookup raises |
| `VideoId.EmbedId` | MediBridge.py:21-22 | on a watch host, a path starting `/embed/` gives the text after the prefix up to the next `/` (so no `/` in the id) |
| `VideoId.LegacyId` | MediBridge.py:23-24 | on a watch host, a path starting `/v/` gives the text after the prefix up to the next `/` |
| `VideoId.UnrecognisedUrl` | MediBridge.py:16-27 | any other host, or a watch host with another path shape (`/watch/` included), falls through to None without raising |
| `VideoId.ShapesDisjoint` | MediBridge.py:16-24 | the short-link host is not a watch host and `/watch`, `/embed/...`, `/v/...` exclude one another, so the branch order cannot change the outcome |
| `VideoId.ShortLinkRoundTrip` | MediBridge.py:16-17 | `youtu.be/<id>` gives back `<id>` |
| `VideoId.WatchRoundTrip` | MediBridge.py:18-20 | `/watch?v=<id>` followed by any further `&` fields gives back `<id>` when `<id>` has no `&` and is not empty |
| `VideoId.EmbedRoundTrip` | MediBridge.py:21-22 | `/embed/<id>` optionally followed by `/...` gives back `<id>` when `<id>` has no `/` |
| `VideoId.LegacyRoundTrip` | MediBridge.py:23-24 | `/v/<id>` optionally followed by `/...` gives back `<id>` when `<id>` has no `/` |
| `VideoId.WatchWithoutV` | MediBridge.py:19-20 | a `/watch` URL whose query has no `v=` field ends in the exception handler, not in an id |
| `VideoId.ExtractId` | MediBridge.py:14-27 | the `except` branch runs exactly when `urlparse` raises, or when a watch-host URL with path `/watch` has no query field binding `v` to a non-empty value |
| `VideoId.FirstSegmentUnique` | MediBridge.py:22 | the "text up to the next `/`" description of a segment determines it uniquely |
| `VideoIdExamples.ShortLinkExample` | MediBridge.py:16-17 | the components of `https://youtu.be/ABC123` give `ABC123` |
| `VideoIdExamples.WatchExample` | MediBridge.py:18-20 | the components of `https://www.youtube.com/watch?v=ABC123` give `ABC123` |
| `VideoIdExamples.WatchWithMoreFieldsExample` | MediBridge.py:18-20 | the components of `https://youtube.com/watch?v=ABC123&t=42s` give `ABC123` |
| `VideoIdExamples.EmbedExample` | MediBridge.py:21-22 | the components of `https://www.youtube.com/embed/ABC123` give `ABC123` |
| `VideoIdExamples.NotAUrlExample` | MediBridge.py:16-27 | the components of `not a url` (no host, the whole text as path) give no id, without raising |
| `Query.PairOfBinds` | MediBridge.py:20 | a query field is kept under name `key` exactly when it reads `key=value` with a non-empty value |
| `Query.PairsLookup` | MediBridge.py:20 | the first kept value for `key` is the value of the first field that binds `key`; there is none exactly when no field binds `key` |
| `Query.QueryValueSpec` | MediBridge.py:20 | `parse_qs(q)[key][0]` described on the `&`-separated fields of `q`, both directions |
| `Query.LeadingField` | MediBridge.py:20 | a query starting `key=value` yields `value` whatever fields follow |
| `Strings.Split` | MediBridge.py:22 | `str.split` never returns an empty list and no piece contains the separator |
| `Strings.SplitThenJoin` | MediBridge.py:22 | joining the pieces of a split with the separator restores the string |
| `Strings.JoinThenSplit` | MediBridge.py:42 | splitting a join of separator-free pieces restores the pieces |
| `Strings.SplitAfterPiece` | MediBridge.py:22 | a split cuts at the first separator and then splits the rest |
| `Strings.SplitHead` | MediBridge.py:22 | the first piece of a split is the longest separator-free prefix |
| `Strings.JoinAppend` | MediBridge.py:42 | appending a part to a join adds exactly one separator and the part |
| `Strings.Take` | MediBridge.py:21 | `s[:n]` is a prefix of `s` of length `min(n, len(s))` |
| `Strings.Drop` | MediBridge.py:17 | `s[n:]` is what follows the first `n` characters, or empty past the end |
| `Strings.TakeIsPrefix` | MediBridge.py:21 | `s[:len(p)] == p` holds exactly when `p` is a prefix of `s` |
| `Strings.IndexOf` | MediBridge.py:20 | the position found holds the character and none comes before it |
| `Query.PairOf` | MediBridge.py:20 | one field of `parse_qs`: `split('=', 1)`, dropped without `=` or with an empty value (characterised by `Query.PairOfBinds`) |
| `Query.Pairs` | MediBridge.py:20 | the kept name/value pairs of the fields, in order (characterised by `Query.PairsLookup`) |
| `Query.QueryValue` | MediBridge.py:20 | `parse_qs(q)[key][0]`, None for the KeyError (characterised by `Query.QueryValueSpec`) |
| `Strings.Join` | MediBridge.py:42 | `sep.join(parts)` (characterised by `Strings.SplitThenJoin`, `Strings.JoinThenSplit`, `Strings.JoinAppend`) |
| `Strings.AsciiLower` | MediBridge.py:74 | lower-casing keeps the length and lowers each character in place |
| `Pipeline.Texts` | MediBridge.py:36 | `[entry['text'] for entry in transcript]` (used through `Pipeline.TranscriptTextInOrder`) |
| `Pipeline.TranscriptText` | MediBridge.py:39-42 | `' '.join(transcriptions)`, shown and then passed on (characterised by `Pipeline.TranscriptTextInOrder`, `Pipeline.TranscriptTextSplits`) |
| `Pipeline.IsExit` | MediBridge.py:74 | `user_input.lower() == 'exit'` (characterised by `Pipeline.ExitInAnyCase`) |
| `Pipeline.ExitInAnyCase` | MediBridge.py:74 | `user_input.lower() == 'exit'` holds exactly for the four letters of `exit`, each in either case |
| `Pipeline.HandleInput` | MediBridge.py:73-78 | `exit` in any case shows only the goodbye; empty input does nothing; only other input reaches any service, after "Processing..." |
| `Pipeline.ProcessVideo` | MediBridge.py:30-63 | every run ends by showing the summary it returns or an error message; the extraction-error message appears first exactly when `get_video_id` raised |
| `Pipeline.UsableId` | MediBridge.py:33 | the truthiness test `if video_id:`, letting through only a found, non-empty id (its consequences are stated by `Pipeline.NoIdNoFetch` and `Pipeline.FetchFailure`) |
| `Pipeline.NoIdNoFetch` | MediBridge.py:31-63 | with no id or an empty id, the run shows "Failed to extract video ID." last, calls no service and returns None |
| `Pipeline.FetchFailure` | MediBridge.py:34-60 | a failed transcript fetch shows the error, shows no transcript, calls nothing else and returns None |
| `Pipeline.TranscriptShownFirst` | MediBridge.py:38-43 | after a successful fetch the joined transcript is shown right before detection is called, whatever happens next |
| `Pipeline.TranscriptTextInOrder` | MediBridge.py:36-42 | the transcript text is the entry texts in order with one space between neighbours |
| `Pipeline.TranscriptTextSplits` | MediBridge.py:42 | with space-free entry texts, the joined text splits back into exactly those texts |
| `Pipeline.Summarise` | MediBridge.py:50-57 | the summariser is called once on the given text; its result is returned and shown, or its failure shows the error |
| `Pipeline.DetectTranslateSummarise` | MediBridge.py:42-43 | detection is called on the joined text right after the steps already taken |
| `Pipeline.DetectFailsCalls` | MediBridge.py:43 | if detection raises, nothing after it is called and no summary is returned |
| `Pipeline.EnglishCalls` | MediBridge.py:45-51 | for `en` there is no translation and the summariser gets the text unchanged |
| `Pipeline.ForeignCalls` | MediBridge.py:45-51 | for any other language, translation from that language is called once and the summariser gets its result; a failed translation stops the run |
| `Pipeline.FetchedRunCalls` | MediBridge.py:35-51 | the exact call sequence of a run once the transcript is fetched: fetch, detect, then translate only for non-`en`, then summarise |
| `Pipeline.TranslateIffNotEnglish` | MediBridge.py:45-47 | translation is called if and only if the detected language is not `en`, and never twice |
| `PipelineExamples.NotAUrlRun` | MediBridge.py:76-78 | input `not a url` shows "Processing..." then "Failed to extract video ID." and calls nothing |
| `PipelineExamples.NoCaptionsRun` | MediBridge.py:34-60 | a short link to a video without captions calls only the fetch, then shows the error |
| `PipelineExamples.ExitRun` | MediBridge.py:74-75 | `exit`, `EXIT` and `Exit` show only the goodbye |

## Left out

- URL splitting itself (`urlparse`): port and user-information stripping and host lower-casing. `ParsedUrl` takes its result, and `Services.parse` stands for the call. `urlparse` decodes nothing, so `ParsedUrl.hostname` and `ParsedUrl.path` are the undecoded text, and the path is split as written, as the source does.
- Query decoding in `parse_qs`: `+` and `%XX` in names and values are not decoded. The `;` separator of Python before 3.9.2 is not modelled either; fields are split on `&` only.
- `Strings.AsciiLower`: models `str.lower` on ASCII letters only; non-ASCII lower-case mappings are not modelled. Only U+212A KELVIN SIGN lowers to an ASCII letter (`k`, not in `exit`), and `'İ'.lower()` is `i` followed by U+0307, so no input containing a non-ASCII character lowers to exactly `exit` and `Pipeline.IsExit` agrees with the source.
- Model and tokenizer loading and BART summarisation (MediBridge.py:9-10, 50-52): a pretrained network behind a library. `Services.summarize` stands for the whole of MediBridge.py:50-52, including the `"summarize: "` prefix, the 1024-token truncation, generation and decoding; `SummarizeCalled(text)` records only the text handed to that block. No summary-length bound is stated.
- The transcript fetch, language detection and translation (MediBridge.py:35, 43, 46-47): network services and a probabilistic classifier, taken as oracles that may fail.
- Streamlit page calls: page config, headers, subheaders and the text field. Only the messages relevant to the pipeline are recorded in the trace, and a caught exception's text is not recorded.
- Entry timing fields (`start`, `duration`) are carried in `Entry` but never read, as in the source.
