# Voice assistant on a Raspberry Pi: output filter, cycle and endpoint detector

This project models the core of a small offline voice assistant for a Raspberry Pi. Speech is recognised by Vosk. The answer comes from a local model run through `llama-cli`, and it is spoken by `espeak`. Three parts of the program are modelled:

- **The llama-cli output filter** (`call_llm` in `voice2llm_vosk.py`, and its copy in `gui_voice_llm.py`):
  - the program receives the merged stdout/stderr of `llama-cli`;
  - it splits the output into lines;
  - it drops every line that one of eight rules recognises as a log line (seed banner, `sampler params:`, `sampler chain:`, `llama_perf_…`, `name = value`, `name:` prefix, blank, punctuation only);
  - it joins the remaining lines with single spaces and trims the result.

  The seven regular expressions are interpreted by a small backtracking matcher that gives `re.match` its meaning (`Patterns.Matches`). Each rule is then proved equal to a plain condition on the line.
- **One recognise → ask → speak cycle.**
  - *Console version* (`main`): an empty transcript stops the cycle before `llama-cli` runs. A failing run or an empty answer stops it before `espeak` runs.
  - *Window version* (`VoiceLLMApp`): the window has an append-only transcript and a Record button. Every stage appends a message. Whatever `call_llm` returns is shown and spoken, including error text and empty answers. The button is enabled again on both normal ways out (no speech, or an exchange completed).

  External programs are represented by their argument vectors (`Commands.Effect`) and by the `(returncode, stdout)` pair a run gives back.
- **The timed end-of-utterance detector of `stt.py`.** This is a loop over polling events with integer-millisecond time:
  - with no speech heard, it stops with "no speech" once more than 3000 ms have passed since the start;
  - after speech, it stops with "silence after speech" once more than 1000 ms have passed since the last non-blank final or partial result.

  The class `Endpoint.Listener` keeps `startTime` and `lastVoice`. Its `Listen` loop is proved against the reference function `Endpoint.RunFrom`.

Modules:

| module | file | contents |
|---|---|---|
| `Wrappers` | `wrappers.dfy` | `Option` |
| `Text` | `text.dfy` | Python's `str.isspace` and ASCII `\w` character classes, `strip`/`lstrip`/`rstrip`, `splitlines`, `" ".join`, `str(int)` and its inverse |
| `Patterns` | `patterns.dfy` | regular expressions built from `\s*`, `\w+`, `[^\w]+`, literal characters and `$`, with `re.match` semantics |
| `Selection` | `selection.dfy` | keeping the elements a predicate does not drop, in order |
| `OutputFilter` | `output_filter.dfy` | the eight rules, `Filter`, the filtering loop `FilterOutput` and its properties |
| `Commands` | `commands.dfy` | the `llama-cli` and `espeak` argument vectors, run results, effects |
| `Console` | `console.dfy` | `call_llm` and `main` of `voice2llm_vosk.py` |
| `Gui` | `gui.dfy` | `call_llm` of `gui_voice_llm.py` and the `VoiceLlmApp` window |
| `Endpoint` | `endpoint.dfy` | the polling loop of `stt.py` |

Two behaviours of the code worth noting:

- Only an empty recognised string ends a cycle early (`if not recognized`, `if not text`). A whitespace-only transcript still reaches `llama-cli`.
- The window version never stops early after recognition. It shows and speaks `"[ERROR] llama-cli exit N"` on failure and speaks an empty answer as it is. Only the console version checks that the answer is non-empty before speaking.

## Model

| member | source | states |
|---|---|---|
| `Patterns.Matches` | voice2llm_vosk.py:78-92 | `re.match` of a pattern against a line: some way of matching the pattern against a prefix of the line exists. Any match of a non-empty line begins with a character the pattern can start with. Its meaning per construct is given by `StarTakesRun`, `PlusTakesRun` and `LiteralMatches`. |
| `OutputFilter.Dropped` | voice2llm_vosk.py:78-93 | The eight `continue` conditions of the loop, in the source's order. A line they let through is not blank and has a word character. `DroppedIff` gives the plain reading of each rule. |
| `Selection.Keep` | voice2llm_vosk.py:75-94 | The `filtered_lines` list: the elements no rule drops, appended in turn. It is never longer than the input. `KeepMembers`, `KeepPosition`, `KeepInOrder`, `KeepPrefix` and `KeepEmptyIff` give its contents and order. |
| `OutputFilter.Filter` | voice2llm_vosk.py:75-95 | The response of a successful run. It never starts or ends with whitespace. `FilterShape`, `FilterEmptyIff` and the example lemmas give its other properties, and `FilterOutput` is proved to compute it. |
| `OutputFilter.FilterOutput` | voice2llm_vosk.py:75-95 | The filtering loop returns exactly `Filter(output)`: the lines of `splitlines()` that no rule drops, in order, joined by single spaces and stripped. Its loop invariant keeps the kept-so-far list equal to `Kept` of the lines seen. |
| `OutputFilter.DroppedIff` | voice2llm_vosk.py:78-93 | A line is dropped by the eight `re.match`/`strip` rules if and only if one of eight plain conditions holds: a word run then ` seed:`, a leading `sampler params:`, `sampler chain:` or `llama_perf_`, a word run then `=` after optional spaces, a word run immediately followed by `:`, a blank line, or a non-empty line with no word character. |
| `OutputFilter.SeedRule` | voice2llm_vosk.py:78-79 | `^\s*\w+ seed:` matches iff, after leading whitespace, a non-empty word run is followed by ` seed:`. |
| `OutputFilter.LeadingKeyRule` | voice2llm_vosk.py:80-85 | `^\s*` followed by a literal key matches iff the line without its leading whitespace starts with the key. |
| `OutputFilter.AssignmentRule` | voice2llm_vosk.py:86-87 | `^\s*\w+\s*=` matches iff the word run after leading whitespace is non-empty and the next non-space character is `=`. |
| `OutputFilter.KeyValueRule` | voice2llm_vosk.py:88-89 | `^\s*\w+:` matches iff the word run after leading whitespace is non-empty and is immediately followed by `:`. |
| `OutputFilter.PunctuationRule` | voice2llm_vosk.py:92-93 | `^[^\w]+$` matches iff the line is non-empty and has no word character. |
| `OutputFilter.FilterShape` | voice2llm_vosk.py:95 | The filtered response contains no line-break character: it is one line. |
| `OutputFilter.FilterEmptyIff` | voice2llm_vosk.py:76-95 | The response is empty if and only if every line of the output is dropped. |
| `OutputFilter.StripKeepsLine` | voice2llm_vosk.py:78-93 | A line the rules keep is still kept once stripped: surrounding whitespace never decides a rule. |
| `OutputFilter.FilterIdempotentOnOneLine` | voice2llm_vosk.py:75-95 | Filtering a response again changes nothing when at most one line was kept. |
| `OutputFilter.FilterNotIdempotent` | voice2llm_vosk.py:86-95 | In general a second filtering pass is not the identity: `"abc"` and `"= 5"` are both kept, but their join `"abc = 5"` is dropped by the assignment rule. |
| `OutputFilter.SingleLineOutput` | voice2llm_vosk.py:76-95 | A single kept line without line breaks comes back stripped and otherwise unchanged. |
| `OutputFilter.SingleDroppedLineOutput` | voice2llm_vosk.py:76-95 | A single dropped line yields the empty response. |
| `OutputFilter.AnswerWithColonIsDropped` | voice2llm_vosk.py:88-89 | The genuine answer `"Dosage: 200mg twice daily."` is swallowed by the `name:` rule and the response is empty. |
| `OutputFilter.BannerAndCountersRemoved` | voice2llm_vosk.py:78-95 | `"sampler seed: 42"`, `"The treatment is ibuprofen."`, `"llama_perf_eval: 3ms"` as three lines filter to `"The treatment is ibuprofen."`. |
| `OutputFilter.SentenceKept` | voice2llm_vosk.py:78-94 | A line that opens with a word, a space and a second word is kept unless its initial letters could spell `sampler`, `llama_perf_` or `seed:`. |
| `OutputFilter.OnlyMiddleKept` | voice2llm_vosk.py:76-95 | Of three lines, when only the middle one is kept, the response is that line stripped. |
| `OutputFilter.BothLinesKept` | voice2llm_vosk.py:76-95 | Two kept lines come out joined by one space, then stripped. |
| `Selection.KeepInOrder` | voice2llm_vosk.py:76-94 | Of two kept lines, the earlier one is placed before the later one in the result: the original relative order is preserved. |
| `Selection.KeepMembers` | voice2llm_vosk.py:76-94 | A line is in the result iff it is in the input and not dropped. |
| `Selection.KeepPosition` | voice2llm_vosk.py:76-94 | A kept line appears in the result unmodified, right after the lines kept from before it. |
| `Selection.KeepPrefix` | voice2llm_vosk.py:76-94 | Filtering more lines only appends to what was kept from a prefix. |
| `Selection.KeepEmptyIff` | voice2llm_vosk.py:76-94 | Nothing is kept iff every line is dropped. |
| `Patterns.StarTakesRun` | voice2llm_vosk.py:78 | A `*` repetition of a character class followed by more pattern matches iff the rest matches after the maximal run of that class, because the class and the following pattern never start with the same character. |
| `Patterns.PlusTakesRun` | voice2llm_vosk.py:86 | A `+` repetition needs a non-empty run and then behaves as the `*` case. |
| `Patterns.LiteralMatches` | voice2llm_vosk.py:80 | A literal pattern matches iff the text starts with it. |
| `Patterns.SpaceRunIsLStrip` | voice2llm_vosk.py:78 | Skipping the `\s` run is `lstrip()`. |
| `Patterns.PaddedMatch` | voice2llm_vosk.py:78-89 | A `^\s*…` pattern without `$` that matches a line also matches it with more whitespace in front and anything behind. |
| `Text.SplitJoinRoundTrip` | voice2llm_vosk.py:76 | `splitlines()` recovers lines joined with `\n`, provided no line contains a break and the last is non-empty. |
| `Text.SplitLines` | voice2llm_vosk.py:76 | No piece of `splitlines()` contains a line boundary; an empty string gives no lines; text without a boundary is one line. |
| `Text.Strip` | voice2llm_vosk.py:90-95 | `str.strip()`: the result is empty or starts and ends with a non-whitespace character. `StripFrame` shows that only a blank prefix and a blank suffix are removed. |
| `Text.IntToDecimal` | gui_voice_llm.py:64 | `str()` of the exit code: never empty; `DecimalRoundTrip` shows it reads back as the same integer. |
| `Text.StripFrame` | voice2llm_vosk.py:90 | `s.strip()` is `s` without a blank prefix and a blank suffix. |
| `Text.StripEmptyIff` | voice2llm_vosk.py:90 | `not line.strip()` holds iff the line is all whitespace. |
| `Text.StripOfStripped` | voice2llm_vosk.py:95 | Stripping text that starts and ends with non-space characters changes nothing. |
| `Text.JoinSpace` | voice2llm_vosk.py:95 | `" ".join` of no lines is empty, of one line is that line, starts with the first line, and keeps lines free of line breaks. |
| `Text.DecimalRoundTrip` | gui_voice_llm.py:64 | The exit code printed by `str()` reads back as the same integer, negative codes included. |
| `Commands.LlmArgv` | voice2llm_vosk.py:59-65 | `llama-cli` is started with the executable first, and its options read back as `-m` the model file, `-p` the prompt and `-n` `"64"`. |
| `Commands.PromptIsOneArgument` | voice2llm_vosk.py:59-65 | Two prompts give the same argument vector iff they are equal: the prompt travels as one unchanged argument. |
| `Commands.SpeakArgv` | voice2llm_vosk.py:98-100 | `espeak` is started with `-s 140` and the text as its last argument. |
| `Commands.SpokenTextIsOneArgument` | gui_voice_llm.py:78-80 | Two texts give the same `espeak` vector iff they are equal. |
| `Console.CallLlm` | voice2llm_vosk.py:57-95 | A non-zero exit code gives no response and skips the filter; exit code 0 gives `Filter(stdout)`. |
| `Console.RunMain` | voice2llm_vosk.py:103-119 | Empty recognised text starts nothing. Otherwise `llama-cli` is started first with the recognised text as prompt. `espeak` is started, exactly once and with the response, iff the run succeeded and the response is non-empty. |
| `Gui.ErrorMessage` | gui_voice_llm.py:63-64 | The error reply is `"[ERROR] llama-cli exit "` followed by the exit code, from which the code reads back; it is never empty. |
| `Gui.CallLlm` | gui_voice_llm.py:57-77 | A non-zero exit code gives the error message; exit code 0 gives `Filter(stdout)`, the same string the console version returns. |
| `Gui.Render` | gui_voice_llm.py:114-122 | The contents of the text area after a list of `append_text` calls: always starts with the start banner. `RenderPrefix` and `VoiceLlmApp.AppendText` give how it grows. |
| `Gui.RenderPrefix` | gui_voice_llm.py:117-122 | The transcript only grows: appending messages keeps the earlier text as a prefix. |
| `Gui.VoiceLlmApp.constructor` | gui_voice_llm.py:114 | A new window shows only the start banner and its Record button is enabled. |
| `Gui.VoiceLlmApp.AppendText` | gui_voice_llm.py:117-122 | `append_text(msg)` adds exactly `msg + "\n\n"` at the end of the transcript. |
| `Gui.VoiceLlmApp.OnRecord` | gui_voice_llm.py:124-127 | Tapping Record disables the button. |
| `Gui.VoiceLlmApp.ProcessVoice` | gui_voice_llm.py:129-144 | For empty text the transcript gains the listening note and the warning, and nothing is started. Otherwise it gains, in order, the listening note, `"You: "+text`, the thinking note and `"Assistant: "+reply`, where reply is the error message or the filtered output. `llama-cli` and then `espeak` with that reply are started. Both ways the button ends enabled. |
| `Gui.VoiceLlmApp.Converse` | gui_voice_llm.py:137-143 | After recognition the exchange messages are appended and `espeak` is given the reply unchecked. |
| `Endpoint.PollDecision` | stt.py:40-49 | On an empty poll the loop stops with "no speech" iff no voice was heard and more than 3000 ms passed since the start. It stops with "silence after speech" iff voice was heard and more than 1000 ms passed since it. Exactly 3000 or 1000 ms continues, and at most one outcome applies. |
| `Endpoint.VoicedIff` | stt.py:55-60 | `Voiced`, the speech test of the loop: a frame counts as speech iff it is a final or partial result whose text has a non-whitespace character (`text.strip() != ""`); an empty poll never does. |
| `Endpoint.NextVoice` | stt.py:55-61 | A frame changes the last speech time only to its own time, and only if it is a frame; once speech has been heard the time is never cleared. |
| `Endpoint.RunFrom` | stt.py:33-61 | If the loop stops, the last event it consumed is an empty poll. If it does not stop, it consumes every event. `StopsAtTimeout` and `StopsOnlyOnEmptyPoll` show it stops exactly at the first empty poll whose check fires. |
| `Endpoint.Listener.constructor` | stt.py:20-21 | Listening starts at the given time with no voice heard. |
| `Endpoint.Listener.Listen` | stt.py:33-61 | The polling loop ends with the outcome, events consumed and last speech time that `RunFrom` gives. |
| `Endpoint.StopsOnlyOnEmptyPoll` | stt.py:35-50 | A stop happens on an empty poll and for the reason the timeout check gives at that moment. |
| `Endpoint.StopsAtTimeout` | stt.py:35-50 | An empty poll whose timeout check fires, given the last speech time left by the events before it, ends the loop there or earlier: the loop never runs past a timeout. |
| `Endpoint.NoSpeechAtStartupTimeout` | stt.py:40-44 | With no speech before an empty poll more than 3000 ms after the start, the loop ends with "no speech". |
| `Endpoint.FramesNeverStop` | stt.py:52-61 | A run of frames without empty polls is consumed entirely and never ends the loop. |
| `Endpoint.RunTracksLastVoice` | stt.py:52-61 | The last speech time is that of the last consumed frame whose final or partial text is not blank, and is unchanged if there was none. |
| `Endpoint.VoiceIsKept` | stt.py:40-61 | Once voice has been heard the last speech time is never cleared, and "no speech" can no longer be the outcome. |
| `Endpoint.NoSpeechMeansSilence` | stt.py:40-44 | A "no speech" stop means no frame before it had non-blank text. |

## Left out

- Audio capture (`sounddevice.RawInputStream`, the audio callback and its queue) and the Vosk recogniser are not modelled. Their outputs are inputs here: the recognised text in the cycle, and final/partial results as `Endpoint.Event`s.
- Actually running `llama-cli`, `espeak` and `aplay` is not modelled. Runs are given as `Commands.ProcessResult` values, and starting a program is the `Commands.Effect` it produces.
- `tts_coqui.py` is not part of this model. It is a library call and a shell command with no logic of its own.
- The startup existence checks on the model paths and their error dialog or exit are not modelled. They are file-system and UI work.
- Console printing and the GUI's Tk layout are not modelled: status lines, printing of the raw output on failure, fonts, colours, scrolling, the Exit button and `on_quit`.
- Gui.VoiceLlmApp.OnRecord: does not start `process_voice` on a thread. The thread's work is `ProcessVoice`, modelled as a separate call. Interleavings with the Tk event loop are not modelled.
- The emoji in the window's messages appear as the source files spell them (`" ^=^n  Listening..."`, `" ^= ^v Thinking..."`, `"Tap [ ^=^n  Record] to start...\n\n"`). The original characters are not reconstructed.
- Gui.VoiceLlmApp.ProcessVoice: a program that cannot be started (`espeak` is not among the startup checks at gui_voice_llm.py:22-29) or `llama-cli` output that cannot be decoded as text raises an exception in the program. The thread then ends before the button is enabled again, so the button stays disabled. The model treats every run as completed, and its `recordEnabled` holds on every path.
- Gui.VoiceLlmApp.ProcessVoice: does not state the append-only property itself. It states the exact message list instead; `Gui.RenderPrefix` shows that the text such a list renders to extends the old transcript.
- `\w` is ASCII letters, digits and `_`. Python's Unicode word characters (accented letters, other scripts) are not modelled. `\s`, `strip()` and `splitlines()` use Python's full whitespace and line-boundary sets.
- `Endpoint`: time is whole milliseconds instead of `time.time()` floats. The events are a finite sequence, so a loop that never stops ends with no reason once the events run out. `KeyboardInterrupt` is not modelled.
- The recogniser's `Reset` before each window cycle and the printing of recognised text in `stt.py` are not modelled.
