# AutoWhisper, modelled and proved

AutoWhisper is a dictation daemon: a hotkey opens the microphone, a local model transcribes, and the
text is cleaned up and typed. This project models the parts of it that keep state or run non-trivial
loops, and proves what they promise. Bytes are modelled as `char` with the C-locale character classes;
loops that edit a text in place are loops here too, proved against a specification about words, scripts,
hashes or settings.

| files | program | what is settled |
|---|---|---|
| `Ctype` `WordSplit` `WordEdits` `PhraseSearch` `Scan` `Passes` `DictionaryEntries` `SpokenCommands` `CommandRounds` `Normalizer` `Typography` `PassReading` `TranscriptPipeline` `SecondRun` | src/pipeline/transcript_pipeline.cpp | what four rewriting passes do to the words of any text, and, read off the texts before and after, to every character of it |
| `Fips180` `Sha256` `KnownDigest` | src/util/sha256.cpp | the buffered hasher equals the standard's one-shot definition for every cut of the message; its constants come from the primes, and "abc" has the published digest |
| `EditDistance` `RateWords` `WordReading` `WordErrorRate` | src/bench/wer.cpp | two rolling rows compute the cheapest edit script; the distance is a metric; the normaliser's words are exactly the words of the text |
| `Json` `LocalProtocol` `ServerLaws` | src/protocol/local_protocol.cpp, src/runtime/transcription.cpp | framing, what is answered to which request, and one response per line |
| `ResponseChecks` `Wire` `ChildProcesses` `FabricClient` | integrations/fabric/src/autowhisper_fabric/protocol.py | no stale answer is delivered, and a client that has lost step heals within one call, exactly if its request and the answer fit on the wire |
| `Hotkey` `HotkeyEvents` `HotkeyLimits` `KeyCombos` | src/hotkey/hotkey_common.cpp | the shape of the event log in every run, exactly when an input adds which event, and which configurations can start, stop and cancel |
| `MuteEpisode` `MuteSilence` `Daemon` `DaemonQueue` `DaemonSilence` `DaemonLoop` | src/pulseaudio/pulseaudio.cpp, src/daemon/daemon.cpp | all threads in every interleaving: mute flags are conserved, what is listed is muted until it is restored, no event is lost below the limit, the daemon agrees with the hotkeys, and exit is quiet |
| `TextLines` `Stripping` `ConfigLines` `SettingValues` `ConfigStore` `ConfigReading` | platform/macos/SettingsApp.swift, src/config/config.h | the settings editor is a lens, which values survive being written down, and what a file shows, name by name, next to what the daemon takes |
| `Compositor` | src/avatar/avatar_core.cpp, src/avatar/platform/avatar_x11.cpp | blending keeps colours at or below alpha, so the dark plate cannot overflow |
| `Sidecar` | src/settings/sidecar.cpp | printing and parsing is a round trip exactly for printable contents |

How the main results hang together:

- **Pipeline.** `Words` is the reference: the maximal runs of word characters. `WordsConcat` says when
  cutting a text cuts its word list; every edit is shown to happen between two such cuts, also where the
  cursor moves back over white space. From that, filler removal is a filter, a one-word dictionary entry
  is a pointwise map, a spoken command deletes only its own words, and normalisation only changes case.
  `ProcessWords` puts the four together for every dictionary, language and text. `CommandRounds` settles
  how the three rounds of spoken commands act on each other, and `SecondRun` when a second run of the
  whole pipeline changes nothing.
- **Reading.** `Typography`, `PassReading` and `WordReading` say the same once more without any function of
  the program: as a relation between the text before and the text after, in positions and characters.
  Each relation determines the text after, so that the theorems there are equivalences: `NormalizedExactly`,
  `ReadsExactly` for the whole of `process`, `WordsExactly` for the words that are counted.
  `HotkeyEvents`, `ServerLaws`, `MuteSilence`, `DaemonQueue`, `ConfigReading` and `KnownDigest` do it for
  the other machines.
- **Client.** `ChildProcesses.World` is everything outside the client: children of any kind that die,
  garble their stream or answer late, each with its own queue. The client's methods are executed in it.
  `Wire` has both messages of an exchange as bytes, with the limits of 1 MiB on either side; an orderly
  child answers through it, and `AnswersAreServed` says that this is what a run of the modelled server
  prints. `TranscribeFile` promises that a result answers the request of the same attempt, and, once
  children behave, that the call ends with what the engine makes of exactly this path, this language, the
  configured model and the id of the last request, if and only if that request and its answer fit,
  whatever state the client was in.
- **Daemon.** `MuteEpisode` is the delayed-mute protocol of two threads and the applications;
  `Daemon` adds the hotkey, click, tray and signal threads and the bounded queue as one step system with
  invariants over all runs; `DaemonLoop` is the daemon thread as code, with any number of steps of the
  other threads between its statements, and proves that whatever it does is such a run.

Findings:

- `transcribe_file` with a path that makes the request line longer than 1 MiB ends in a protocol error after
  two attempts, although the child behaves: the server's `request_too_large` carries no id
  (`Wire.LongRequestFails`). An answer line longer than 1 MiB, its line feed counted, ends the client's
  reader on both attempts (`Wire.LongAnswerFails`). The exact condition is `Wire.OutcomeExact`.
- A client that has given up a request to a child that answers after all stays behind: from then on every
  `capabilities` fails until the child is given up (`FabricClient.LocalServiceClient.Capabilities`).
  `ChildProcesses.BehindReachable` is a run into that state. A request to such a child is understood if and
  only if none before it was given up and it fits (`FabricClient.LocalServiceClient.RequestLocked`).
- A configuration can stop what it starts exactly as `HotkeyLimits.StopIff` says. In toggle mode a trigger
  made of modifiers starts and never stops (`ToggleModifiersOnly`), and it hides the triggers listed behind it
  from every key (`ToggleShadowed`). In push-to-talk, letting go of a modifier before the key leaves what was
  started running (`ReleaseMissed`); `ReleaseStops` is the exact condition.
- "newline New line." keeps a spoken command: the round that makes a clause of "New line" comes after the round
  that looks for it (`CommandRounds.LeftOver`). When that happens is settled for every text by `SurvivesIff`,
  and with it when a second pass changes anything by `IdempotentIff`.
- Processing twice is not processing once: "new  line" with two spaces becomes "New line", which a second run
  takes for a command (`SecondRun.TwoSpaces`); `ProcessTwice` is the exact condition.
- With a setting given more than once, saving writes the first line while loading reads the last one that says
  something, so a saved value may be lost (`ConfigStore.LostEdit`) or survive (`ConfigStore.KeptEdit`);
  `ConfigStore.DuplicateReadsBack` and `ConfigLines.ReadBack` are the exact conditions.
- The settings window and the daemon do not agree on what a file means that leaves the model to them: the
  window shows and saves "distil-small.en", "auto" and "bfloat16" where the daemon takes "distil-large-v3", "cuda"
  and "float16". Opening and saving without an edit changes the model (`ConfigReading.ModelSwapped`); for every
  other of the eighteen settings the two agree (`ConfigReading.MissingShown`, `ConfigReading.UneditedSave`).
- A comment at src/pipeline/transcript_pipeline.cpp:161 says that a longer phrase must match before its
  prefix; no command phrase is a prefix of another, so the order does not matter for that. The newline test
  at line 65 can never be decisive, since all white space on the left, newlines included, has just been
  passed over. The model follows the code.

## Model

| member | source | states |
|---|---|---|
| WordSplit.WordsConcat | src/pipeline/transcript_pipeline.cpp:14-16 | cutting a text where no run of word characters crosses the cut cuts its word list there |
| WordSplit.WordsOfLower | src/pipeline/transcript_pipeline.cpp:18-23 | lower-casing commutes with splitting into words, so matching on the lower-cased text finds the same words |
| WordSplit.WordOccurs | src/pipeline/transcript_pipeline.cpp:14-16 | every word of a text stands somewhere in it with a gap or an end on both sides |
| PhraseSearch.FindPhrase | src/pipeline/transcript_pipeline.cpp:27-40 | finds the first whole-phrase occurrence at or after a position, case aside; none means there is none |
| PhraseSearch.MatchSplits | src/pipeline/transcript_pipeline.cpp:33-36 | a match splits the word list around it: it never starts or ends inside a word |
| PhraseSearch.NoMatchNoWord | src/pipeline/transcript_pipeline.cpp:27-40 | a one-word phrase that was not found in a stretch is none of its words: the search overlooks nothing |
| PhraseSearch.EraseWordHole | src/pipeline/transcript_pipeline.cpp:52-69 | the text and cursor after closing a hole: trailing comma or semicolon and white space gone on both sides, one space if a word follows |
| PhraseSearch.HoleKeepsWords | src/pipeline/transcript_pipeline.cpp:48-69 | whatever stood in the hole, closing it keeps every word on both sides, merges none, and leaves the cursor at a word boundary |
| Scan.RewriteShrinks | src/pipeline/transcript_pipeline.cpp:118-134 | the text behind the cursor is a suffix of what it was and strictly shorter, even if the replacement brings in the phrase again |
| Scan.SplicedWords | src/pipeline/transcript_pipeline.cpp:131-132 | writing a replacement between two breaks inserts exactly its words |
| Scan.RewritePassWords | src/pipeline/transcript_pipeline.cpp:116-134 | a scan changes only blocks of words that spell its phrase; a one-word phrase is rewritten wherever it stands, as a pointwise map |
| Scan.RewritePassKeeps | src/pipeline/transcript_pipeline.cpp:118 | a text without the phrase is left as it is |
| Passes.RewriteMatch | src/pipeline/transcript_pipeline.cpp:119-132 | one turn of the loop: deletion entries close a hole, others are spliced in with a leading capital kept |
| Passes.ApplyEntry | src/pipeline/transcript_pipeline.cpp:116-134 | the loop for one entry ends for every entry and computes the scan |
| Passes.ApplyDictionary | src/pipeline/transcript_pipeline.cpp:113-137 | all entries in order, for every dictionary |
| Passes.DictionaryWords | src/pipeline/transcript_pipeline.cpp:113-137 | the pass only replaces occurrences of phrases by their replacements; with one-word phrases it is a pointwise map on the words |
| Passes.RemoveFillers | src/pipeline/transcript_pipeline.cpp:139-154 | six scans in order, for English, automatic or unset language only |
| Passes.FillersRemovedWords | src/pipeline/transcript_pipeline.cpp:44-46 | the words of the result are exactly the words of the text without the six fillers, case and order kept |
| Passes.FillersRemovedTwice | src/pipeline/transcript_pipeline.cpp:139-154 | removing fillers twice is removing them once, to the byte |
| Passes.FillerPassKeeps | src/pipeline/transcript_pipeline.cpp:145-153 | a text without fillers is returned unchanged |
| DictionaryEntries.ReadDictionary | src/pipeline/transcript_pipeline.cpp:73-84 | malformed entries are skipped, the others kept in order, and none has an empty phrase |
| DictionaryEntries.EntryReads | src/pipeline/transcript_pipeline.cpp:86-103 | "spoken => written" is read as the pair it shows, for any phrase without an arrow and any replacement or none |
| SpokenCommands.TryCommand | src/pipeline/transcript_pipeline.cpp:173-216 | a match is a command exactly when it forms its own clause; then the break replaces it and its trailing delimiter |
| SpokenCommands.BreakKeepsWords | src/pipeline/transcript_pipeline.cpp:200-216 | writing a break deletes exactly the words of the command, joins no others, and brings the cursor nearer the end |
| SpokenCommands.BreakLeavesNone | src/pipeline/transcript_pipeline.cpp:179-216 | writing a break creates no command before the cursor, although the cursor has moved back |
| SpokenCommands.CommandPassLaws | src/pipeline/transcript_pipeline.cpp:168-219 | one command: only its words are deleted, none of it is left, the text is unchanged exactly if there was none, and a second pass changes nothing |
| SpokenCommands.ApplyCommand | src/pipeline/transcript_pipeline.cpp:170-217 | the loop ends and computes the pass |
| SpokenCommands.ApplySpokenCommands | src/pipeline/transcript_pipeline.cpp:156-220 | the three commands in order |
| SpokenCommands.CommandsAppliedWords | src/pipeline/transcript_pipeline.cpp:156-220 | three rounds that delete command words only; a text without commands is unchanged |
| CommandRounds.SurvivesIff | src/pipeline/transcript_pipeline.cpp:156-220 | for every text and phrase, read off the text: a command is left after all three rounds if and only if its clause is opened, directly or through a chain of commands, by one of a later round |
| CommandRounds.IdempotentIff | src/pipeline/transcript_pipeline.cpp:156-220 | a second pass changes nothing if and only if no command is left in that way |
| CommandRounds.UnchangedIff | src/pipeline/transcript_pipeline.cpp:156-220 | a text is returned as it is if and only if no command stands in it; otherwise it gets shorter |
| CommandRounds.LeftOver | src/pipeline/transcript_pipeline.cpp:156-220 | in "newline New line." a command is left, and a second pass takes it out |
| SpokenCommands.DeletedWordsAreOld | src/pipeline/transcript_pipeline.cpp:156-220 | the pass invents no word |
| PassReading.ScanReads | src/pipeline/transcript_pipeline.cpp:116-134 | read off the texts: at each step the leftmost whole occurrence, case aside, goes; a deletion takes a trailing comma or semicolon and the white space with it and leaves one space before a word; a replacement is written with the capital of what it replaces; and the scan goes on behind it |
| PassReading.DictionaryReads | src/pipeline/transcript_pipeline.cpp:113-137 | the whole dictionary, entry after entry, is such a series of scans |
| PassReading.FillersRead | src/pipeline/transcript_pipeline.cpp:139-154 | so are the six fillers, as deletions |
| PassReading.ClauseIs | src/pipeline/transcript_pipeline.cpp:178-198 | a phrase forms its own clause exactly if on both sides, white space passed over, the text ends or a delimiter stands or, on the left, a line break |
| PassReading.BreakReads | src/pipeline/transcript_pipeline.cpp:200-216 | what one command leaves: its text, the white space around it and one delimiter behind it give way to its line break |
| PassReading.CommandsRead | src/pipeline/transcript_pipeline.cpp:156-220 | the three commands in order, each by the leftmost occurrence that is its own clause: "new paragraph" leaves two line breaks, "new line" and "newline" one |
| PassReading.AllScannedOnly | src/pipeline/transcript_pipeline.cpp:113-154 | a series of scans determines the text it ends with |
| PassReading.AllCommandsOnly | src/pipeline/transcript_pipeline.cpp:156-220 | and so do the rounds of commands |
| Normalizer.NormalizedIsNormal | src/pipeline/transcript_pipeline.cpp:222-268 | the result is in normal form: no tabs, single spaces, none at line edges or before closing punctuation, no trailing white space, sentences capitalised |
| Normalizer.FixedPoints | src/pipeline/transcript_pipeline.cpp:222-268 | a text is unchanged if and only if it is in normal form |
| Normalizer.NormalizeIdempotent | src/pipeline/transcript_pipeline.cpp:222-268 | normalising twice is normalising once, for every byte string |
| Normalizer.NormalizeKeepsInk | src/pipeline/transcript_pipeline.cpp:222-268 | the bytes other than white space stay, in order, up to letter case |
| Normalizer.NormalizeKeepsWords | src/pipeline/transcript_pipeline.cpp:228-243 | no word is merged, split, dropped or invented |
| Typography.MarksDetermine | src/pipeline/transcript_pipeline.cpp:222-268 | a text with single spaces is determined by its other characters and by where the spaces stand |
| Typography.NormalizedExactly | src/pipeline/transcript_pipeline.cpp:222-268 | for every text, the result is the one text whose characters, spaces and raised letters are as `TranscriptPipeline.Normalize` says, and no other |
| TranscriptPipeline.CollapseBlanks | src/pipeline/transcript_pipeline.cpp:226-243 | the first loop computes the collapsed text of which `Typography.NormalizedExactly` speaks |
| TranscriptPipeline.CapitalizeSentences | src/pipeline/transcript_pipeline.cpp:250-265 | the last loop, in place, computes the capitalised text |
| TranscriptPipeline.Normalize | src/pipeline/transcript_pipeline.cpp:222-268 | in characters: those of the result other than blanks are those of the text without its trailing white space, line breaks included, in order; a space stands between two of them exactly where blanks stood and neither side is a line edge or closing punctuation; a letter is raised exactly if it begins a sentence |
| TranscriptPipeline.Process | src/pipeline/transcript_pipeline.cpp:105-111 | the result is the text read as `PassReading` and `Typography` say: entries, fillers and commands replaced one occurrence after the other from the left, then the typography; each stage only where it is switched on |
| TranscriptPipeline.ReadsExactly | src/pipeline/transcript_pipeline.cpp:105-111 | for every dictionary, setting, language and text: the result of `process` is the one text that can be read in this way, and no other |
| TranscriptPipeline.ProcessWords | src/pipeline/transcript_pipeline.cpp:105-111 | for every dictionary, language and text: dictionary edits, then fillers filtered out, then command words deleted, up to case; and the result is in normal form |
| TranscriptPipeline.NoFillerSurvives | src/pipeline/transcript_pipeline.cpp:105-111 | with an empty dictionary and English rules no filler is in the result, and every word of it is a word of the input |
| TranscriptPipeline.CleanTextUntouched | src/pipeline/transcript_pipeline.cpp:105-111 | a normal text without fillers and commands passes through unchanged |
| SecondRun.CleanTextIff | src/pipeline/transcript_pipeline.cpp:105-111 | a normal text without fillers passes through unchanged if and only if no command stands in it, or commands are switched off |
| SecondRun.ProcessTwice | src/pipeline/transcript_pipeline.cpp:105-111 | with an empty dictionary, processing twice is processing once if and only if no command stands in the first result, or commands are switched off |
| SecondRun.TwoSpaces | src/pipeline/transcript_pipeline.cpp:105-111 | "new  line" with two spaces becomes "New line", and that is taken for a command by a second run |
| Fips180.PadIsLeast | src/util/sha256.cpp:117-121 | the number of zero bytes is the least that completes a block with the length behind them |
| Fips180.PadReadsBack | src/util/sha256.cpp:110-127 | below 2^61 bytes the padded message shows the message and its length in bits |
| Fips180.PadInjective | src/util/sha256.cpp:110-127 | below 2^61 bytes different messages have different paddings |
| Fips180.KFromPrimes | src/util/sha256.cpp:11-23 | the 64 constants are the first 32 bits of the fractions of the cube roots of the first 64 primes |
| Fips180.InitialFromPrimes | src/util/sha256.cpp:29-38 | the initial hash value is the fractions of the square roots of the first eight primes |
| Sha256.FillSchedule | src/util/sha256.cpp:41-50 | the array is the message schedule of section 6.2.2 of FIPS 180-4 |
| Sha256.RunRounds | src/util/sha256.cpp:52-70 | eight variables after 64 rounds are the working variables of section 6.2.2 |
| Sha256.Sha256.constructor | src/util/sha256.cpp:29-38 | a new hasher has absorbed nothing and holds the initial hash value of section 5.3.3 |
| Sha256.Sha256.ProcessBlock | src/util/sha256.cpp:40-80 | the state becomes its compression with the block |
| Sha256.Sha256.Update | src/util/sha256.cpp:82-108 | the hasher has absorbed the data too, whatever was buffered: state is the fold over complete blocks, buffer is the rest |
| Sha256.Sha256.PadBlock | src/util/sha256.cpp:113-121 | the padding loop ends, having absorbed 0x80 and the least number of zeros |
| Sha256.LengthBytes | src/util/sha256.cpp:123-126 | eight shifted bytes are the big-endian length |
| Sha256.Sha256.HexDigest | src/util/sha256.cpp:110-138 | the digest is the hexadecimal of the block fold over the padded message, for every sequence of updates |
| Sha256.Sha256Hex | src/util/sha256.cpp:140-144 | one-shot hashing |
| Sha256.Sha256FileHex | src/util/sha256.cpp:146-159 | hashing a file gives the digest of its content however it is cut into chunks; empty on an open or read error |
| Sha256.HexNamesHash | src/util/sha256.cpp:129-137 | 64 digits, and two messages share a digest exactly when they share a hash |
| Sha256.DigestReads | src/util/sha256.cpp:129-137 | the eight groups of eight digits, read as numbers, are the eight words of the hash in their order |
| KnownDigest.DigestOfAbc | tests/cpp/test_sha256.cpp:32-33 | the digest of "abc" is ba7816bf 8f01cfea 414140de 5dae2223 b00361a3 96177a9c b410ff61 f20015ad |
| EditDistance.Achieved | src/bench/wer.cpp:44-58 | some edit script has the cost the recurrence computes |
| EditDistance.NoneCheaper | src/bench/wer.cpp:44-58 | no edit script is cheaper than the recurrence |
| EditDistance.DistanceIsMinimal | src/bench/wer.cpp:44-58 | the recurrence is the least cost over all scripts of insertions, deletions and substitutions |
| EditDistance.DistanceZero | src/bench/wer.cpp:44-58 | the distance is 0 exactly for equal word lists |
| EditDistance.DistanceSymmetric | src/bench/wer.cpp:44-58 | the distance is symmetric |
| EditDistance.ThenTurns | src/bench/wer.cpp:44-58 | two scripts can be merged into one that costs no more than both |
| EditDistance.Triangle | src/bench/wer.cpp:44-58 | the triangle inequality |
| EditDistance.DistanceBounds | src/bench/wer.cpp:44-58 | the distance lies between the difference of the lengths and the larger length |
| WordErrorRate.NormalizeWords | src/bench/wer.cpp:8-36 | the words are those of the text: each the lower-cased characters from a letter to a letter, with nothing but letters, digits, high bytes and apostrophes in between, none left out and none cut short, in order |
| RateWords.WordsAreClean | src/bench/wer.cpp:12-19 | every word is non-empty, lower case, and without apostrophes at its edges, for every byte string |
| RateWords.NormalizeStable | src/bench/wer.cpp:8-36 | normalising the words joined by spaces gives the same words |
| WordReading.WordsExactly | src/bench/wer.cpp:8-36 | for every byte string, a list is the normaliser's if and only if it is the words of the text in this sense |
| WordReading.OneWord | src/bench/wer.cpp:21-33 | two letters are in one word if and only if only letters, digits, high bytes and apostrophes stand between them |
| WordReading.KeptInside | src/bench/wer.cpp:12-19 | a character is kept exactly if it is a letter or is such a character between letters: so an apostrophe exactly inside a word |
| WordErrorRate.FillRow | src/bench/wer.cpp:50-56 | a row of the table is computed from the row before it |
| WordErrorRate.Levenshtein | src/bench/wer.cpp:44-58 | the two rolling rows end with the distance |
| WordErrorRate.WordErrorRate | src/bench/wer.cpp:38-61 | the cost of the cheapest edit script between the words of the two texts, over the number of reference words; 0 or 1 for an empty reference |
| WordErrorRate.RateZero | src/bench/wer.cpp:42-60 | the rate is 0 exactly when both texts have the same words |
| WordErrorRate.RateIs | src/bench/wer.cpp:38-61 | the quotient is that of the cheapest script, said with scripts and without the recurrence |
| WordErrorRate.ZeroOnTexts | src/bench/wer.cpp:38-61 | the rate of two texts is 0 if and only if one list is the words of both |
| WordErrorRate.RateIsCheapest | src/bench/wer.cpp:60 | times the number of reference words, the rate is the cost of the cheapest script |
| WordErrorRate.RateBound | src/bench/wer.cpp:60 | for a non-empty reference the rate is at most max(1, hyp/ref), and at least the difference of the lengths over the reference |
| LocalProtocol.ReadBoundedLine | src/protocol/local_protocol.cpp:18-33 | reads up to the line feed, drops carriage returns, keeps at most 1 MiB and remembers that more came; no line only at the end |
| LocalProtocol.LinesRejoin | src/protocol/local_protocol.cpp:18-33 | the raw line, its line feed and what follows make up the input again: framing loses nothing |
| ServerLaws.LinesRead | src/protocol/local_protocol.cpp:182-193 | the lines that are served are those of the input, in order; a last line needs no line feed |
| ServerLaws.LineRead | src/protocol/local_protocol.cpp:18-33 | a line is read as it stands up to 1048576 bytes, and cut there and marked otherwise; carriage returns make no difference |
| LocalProtocol.ProtocolHandler.HandleRequest | src/protocol/local_protocol.cpp:112-177 | every check in order, the dispatch, and the shutdown flag set exactly by an accepted shutdown |
| LocalProtocol.ProtocolHandler.HandleLine | src/protocol/local_protocol.cpp:93-110 | too long, not JSON, and library errors each get their own error response |
| LocalProtocol.RunServer | src/protocol/local_protocol.cpp:182-193 | the output is the responses to the lines up to and including the first accepted shutdown |
| LocalProtocol.OneResponsePerLine | src/protocol/local_protocol.cpp:182-193 | one response per line, in order; nothing after the first accepted shutdown, everything if there is none |
| ServerLaws.Refusals | src/protocol/local_protocol.cpp:112-131 | a request that is not well formed gets the id, code and message of the first thing that is wrong with it |
| ServerLaws.Answers | src/protocol/local_protocol.cpp:132-151 | a well-formed request gets the answer of its method, literally and under its own id; an unknown method is named in the error |
| ServerLaws.Transcribes | src/protocol/local_protocol.cpp:153-177 | for every request to transcribe: the first bad parameter decides; with good ones the engine gets exactly the path, the id, the language and the model of the request, and its outcome is the answer |
| ServerLaws.ShutdownAsked | src/protocol/local_protocol.cpp:146-149 | the server stops exactly at a well-formed request for it |
| ResponseChecks.WrongIdRejected | integrations/fabric/src/autowhisper_fabric/protocol.py:165-204 | only a payload with the id of the request is ever taken for its answer or its error |
| ResponseChecks.DispatchShape | src/protocol/local_protocol.cpp:133-177 | every dispatched method gets one result or one structured error under the request's id; a transcription result is the engine's |
| ResponseChecks.ResultAccepted | integrations/fabric/src/autowhisper_fabric/protocol.py:207-233 | a result as the server writes it (src/runtime/transcription.cpp:75-91) passes the second check exactly when it carries the request's id |
| ResponseChecks.AnswersAreUnderstood | integrations/fabric/src/autowhisper_fabric/protocol.py:165-204 | every response of the server to a request of the client that reaches its handler is, for the client, its result or its structured error, never a protocol error; what does not fit on the wire is `Wire.OutcomeExact` |
| ResponseChecks.Transcription | integrations/fabric/src/autowhisper_fabric/protocol.py:246-261 | what a transcription comes to, in its arguments: a result if and only if path, language and model are within the server's limits and the engine, given exactly these and the id, returns one |
| ResponseChecks.TranscriptionAnswered | integrations/fabric/src/autowhisper_fabric/protocol.py:247-261 | the server's answer to the client's parameters is what the transcription comes to, whichever of them are left out |
| ResponseChecks.ResultFieldsHave | src/runtime/transcription.cpp:75-86 | a result is written with each of its fields under its own name |
| ResponseChecks.OptionalFieldsHave | src/runtime/transcription.cpp:87-91 | the five optional fields are there exactly if there is something to write, each with its own value |
| Wire.OutcomeExact | integrations/fabric/src/autowhisper_fabric/protocol.py:368-391 | a request of the client's own ends with the server's result or structured error if and only if request and answer lines are within their limits and can be printed and read; otherwise with an error that is retried |
| Wire.LongRequestFails | src/protocol/local_protocol.cpp:93-100 | a request line over 1 MiB is never answered, however well the child behaves |
| Wire.LongAnswerFails | integrations/fabric/src/autowhisper_fabric/protocol.py:374-390 | an answer line longer than 1 MiB, its line feed counted, reaches the client as a failed stream |
| Wire.LinesOfInput | src/protocol/local_protocol.cpp:18-33 | the server reads one line for each request written, whatever was written |
| Wire.AnswersAreServed | src/protocol/local_protocol.cpp:182-193 | on any requests without an accepted shutdown the output of the server's run is its response to each, in order |
| ChildProcesses.SayOk | integrations/fabric/src/autowhisper_fabric/protocol.py:368-391 | a line read from a child goes to the queue of its own generation, and every queued payload has been said by that child |
| ChildProcesses.WrittenStream | integrations/fabric/src/autowhisper_fabric/protocol.py:345-350 | a request that gets through adds its answer behind what an orderly child still has to deliver |
| ChildProcesses.AnswerOk | src/protocol/local_protocol.cpp:182-193 | an orderly child answers in order, which changes nothing in what it delivers |
| ChildProcesses.World.Get | integrations/fabric/src/autowhisper_fabric/protocol.py:352-357 | a wait yields the next item of this generation's queue or a timeout; a prompt child delivers what it owes |
| ChildProcesses.World.Spawn | integrations/fabric/src/autowhisper_fabric/protocol.py:298-320 | a new child gets a new generation with an empty queue |
| ChildProcesses.OwesNothing | integrations/fabric/src/autowhisper_fabric/protocol.py:331-366 | an orderly child that is listened to owes nothing if and only if no request to it has been given up |
| ChildProcesses.OwedIsStale | integrations/fabric/src/autowhisper_fabric/protocol.py:177-180 | the first thing a child still owes is never understood as the answer to the next request |
| ChildProcesses.BehindReachable | integrations/fabric/src/autowhisper_fabric/protocol.py:352-357 | a run in which the client gives up on `capabilities` and the child is orderly, prompt and one answer behind from then on |
| FabricClient.ReceivedAnswers | integrations/fabric/src/autowhisper_fabric/protocol.py:331-366 | what passed the checks was said by the child the request was written to, after it was written, in answer to it; given that ids are fresh and not forged |
| FabricClient.FinalExact | integrations/fabric/src/autowhisper_fabric/protocol.py:165-204 | an orderly child's answer is understood, and is the server's own, if and only if request and answer fit |
| FabricClient.TranscriptExact | integrations/fabric/src/autowhisper_fabric/protocol.py:256-261 | the answer to a transcription request passes both checks, and is the server's own, if and only if request and answer fit |
| FabricClient.LocalServiceClient.RequestLocked | integrations/fabric/src/autowhisper_fabric/protocol.py:331-366 | with a prompt child the reply is the server's result or error if and only if no earlier request to this child was given up and this one fits; a client that is behind, by however much, stays behind |
| FabricClient.LocalServiceClient.StopLocked | integrations/fabric/src/autowhisper_fabric/protocol.py:406-442 | afterwards no child is owned, whatever the polite shutdown came to |
| FabricClient.LocalServiceClient.EnsureStartedLocked | integrations/fabric/src/autowhisper_fabric/protocol.py:283-329 | success exactly if a child is owned; on failure none is; with well-behaved children it succeeds and a new child is in step |
| FabricClient.LocalServiceClient.Attempt | integrations/fabric/src/autowhisper_fabric/protocol.py:255-261 | a result of an attempt answers the request sent in that attempt |
| FabricClient.LocalServiceClient.Capabilities | integrations/fabric/src/autowhisper_fabric/protocol.py:271-277 | in step: the reply is what the request comes to, understood if and only if it fits; after a request that was given up to a child that answers after all: never understood, and still behind |
| FabricClient.LocalServiceClient.Close | integrations/fabric/src/autowhisper_fabric/protocol.py:279-281 | no child is owned afterwards |
| FabricClient.LocalServiceClient.TranscribeFile | integrations/fabric/src/autowhisper_fabric/protocol.py:246-269 | a result answers the request of the same attempt; after a transport or protocol error no child is owned; from any state, with other threads in between, once children behave the call ends within two attempts, understood if and only if its last request and the answer fit, and then with what the engine makes of exactly the resolved path, the language, the model and the id of that request |
| FabricClient.LocalServiceClient.SettleAndTranscribe | integrations/fabric/src/autowhisper_fabric/protocol.py:246-269 | the same for a run that begins before children behave |
| Hotkey.HotkeyManager.SetConfigLive | src/hotkey/hotkey_common.cpp:76-108 | the new configuration, with all input state dropped and nothing emitted |
| Hotkey.HotkeyManager.ResetInputState | src/hotkey/hotkey_common.cpp:119-125 | all input state dropped, configuration kept, nothing emitted |
| Hotkey.HotkeyManager.CheckAnyTrigger | src/hotkey/hotkey_common.cpp:127-138 | the first matching trigger |
| Hotkey.HotkeyManager.CheckAnyCancel | src/hotkey/hotkey_common.cpp:140-147 | whether some cancel combination with a key matches |
| Hotkey.HotkeyManager.ModifierPressed | src/hotkey/hotkey_common.cpp:168-183 | state and log after a modifier goes down; nothing while not running |
| Hotkey.HotkeyManager.ModifierReleased | src/hotkey/hotkey_common.cpp:185-201 | state and log after a modifier goes up |
| Hotkey.HotkeyManager.KeyPressed | src/hotkey/hotkey_common.cpp:203-246 | state and log after a key goes down: escape, cancel, then triggers by mode; when this is which event is `HotkeyEvents` |
| Hotkey.HotkeyManager.KeyReleased | src/hotkey/hotkey_common.cpp:248-261 | state and log after a key goes up |
| Hotkey.InvStep | src/hotkey/hotkey_common.cpp:76-261 | every input keeps the shape of the log and emits at most one event |
| Hotkey.LogShape | src/hotkey/hotkey_common.cpp:76-261 | in every run, with live re-configuration and resets, each STOP directly follows a START, and a pressed trigger means that the last event was START and the active trigger is a configured one |
| Hotkey.PressedRun | src/hotkey/hotkey_common.cpp:168-261 | in every run without re-configuration and resets the trigger is pressed exactly when the last event was START |
| HotkeyEvents.HeldRun | src/hotkey/hotkey_common.cpp:76-201 | in every run the configuration is the last one set, and the modifiers held are those pressed and not released since |
| HotkeyEvents.CancelLaw | src/hotkey/hotkey_common.cpp:203-223 | in every run, an input adds CANCEL if and only if it is a key press that is escape while escape cancels, or that matches a cancel combination with a key under the modifiers held; and then the trigger is no longer pressed |
| HotkeyEvents.StartStopLaw | src/hotkey/hotkey_common.cpp:168-261 | likewise exactly when START and STOP are added, and that nothing else ever is; the trigger is pressed after a START and until anything is emitted, re-configured or reset |
| HotkeyEvents.ActiveOf | src/hotkey/hotkey_common.cpp:127-138 | the combination that a START makes active is the first one that matches |
| HotkeyLimits.StartIff | src/hotkey/hotkey_common.cpp:168-246 | some run of a configuration emits START if and only if it has a trigger that can be reached: one of modifiers, or one whose own modifiers and key get past escape, the cancels and the triggers before it |
| HotkeyLimits.StopIff | src/hotkey/hotkey_common.cpp:168-261 | some run emits STOP if and only if the mode is toggle and a trigger with a key can be reached, or the mode is push-to-talk and any can |
| HotkeyEvents.CancelIff | src/hotkey/hotkey_common.cpp:203-223 | some run emits CANCEL if and only if escape cancels or a cancel combination has a key |
| HotkeyLimits.ToggleModifiersOnly | src/hotkey/hotkey_common.cpp:168-183 | in toggle mode the trigger "ctrl" starts and never stops |
| HotkeyLimits.ToggleShadowed | src/hotkey/hotkey_common.cpp:127-138 | with "ctrl" listed before "ctrl+a" toggle mode starts and never stops |
| HotkeyLimits.ReleaseStops | src/hotkey/hotkey_common.cpp:248-261 | in push-to-talk, releasing a key stops what a key has started if and only if exactly the combination's modifiers are held and the key is its key |
| HotkeyLimits.ReleaseMissed | src/hotkey/hotkey_common.cpp:185-261 | the modifier let go before the key: all keys are up, and there was no STOP |
| KeyCombos.ParseCombo | src/hotkey/hotkey_common.cpp:10-74 | rejected exactly if there is no part or a part other than the last is no modifier; otherwise the modifiers and the key, under canonical names |
| KeyCombos.AcceptedFires | src/hotkey/hotkey_common.cpp:53-71 | an accepted combination names modifiers that exist and a key that is none, and pressing that key matches it exactly when its own modifiers are held |
| KeyCombos.AcceptedStarts | src/hotkey/hotkey_common.cpp:53-71 | as the only trigger, without cancel combinations, an accepted combination can start if and only if it is not the escape key while escape cancels |
| MuteEpisode.DaemonKeepsInv | src/pulseaudio/pulseaudio.cpp:141-225 | every statement of a mute or unmute call keeps the account of muted streams and the timer protocol |
| MuteEpisode.TimerKeepsInv | src/pulseaudio/pulseaudio.cpp:174-185 | so does every statement of the timer thread |
| MuteEpisode.WorldKeepsInv | src/pulseaudio/pulseaudio.cpp:65-91 | so do streams that come and go |
| MuteEpisode.RunKeepsInv | src/pulseaudio/pulseaudio.cpp:141-225 | the invariant holds after every run |
| MuteEpisode.EpisodeConserves | src/pulseaudio/pulseaudio.cpp:195-225 | after any mutes and an unmute, in every interleaving: no pending timer can mute, the saved list is empty, every stream has the flag it came with; that they were muted in between is `MuteSilence.ListedIsMuted` |
| MuteEpisode.QuietStays | src/pulseaudio/pulseaudio.cpp:169-193 | a quiet state stays quiet until the daemon mutes again |
| MuteEpisode.OwnStreamsUntouched | src/pulseaudio/pulseaudio.cpp:80-84 | excluded streams always keep their flag |
| MuteEpisode.NoDeadlock | src/pulseaudio/pulseaudio.cpp:141-225 | while a call is pending the daemon thread or the timer it waits for can go on, and every step that either thread can take brings the call nearer to its end |
| MuteSilence.ListedIsMuted | src/pulseaudio/pulseaudio.cpp:141-193 | in every run: once a listing has been worked off, and until an unmute begins to restore, every stream that was present and not excluded when it was made, and still exists, is muted |
| Daemon.QueueStep | src/daemon/daemon.cpp:183-211 | every step keeps the bound, the order and the late-event count of the queue, and never clears the shutdown flag |
| Daemon.CallStep | src/daemon/daemon.cpp:213-307 | the daemon thread is in the mute manager only where a handler says so, and an unmute that has returned has restored everything |
| Daemon.SafeStep | src/daemon/daemon.cpp:133-381 | every step of every thread keeps all invariants together |
| Daemon.EveryRunSafe | src/daemon/daemon.cpp:133-153 | in every run the queue holds at most 100 events and is first in first out, at most one event is taken after shutdown was requested, and where `run` returns the microphone is off and all streams are restored |
| Daemon.ShutdownStays | src/daemon/daemon.cpp:319-327 | shutdown, once requested, stays requested |
| Daemon.DrainedAgrees | src/daemon/daemon.cpp:183-317 | without drop, click or tray quit, whenever the queue is drained: recording and microphone on exactly if the last hotkey event was START, otherwise idle with everything restored; without re-configuration or reset this is exactly the pressed trigger |
| DaemonSilence.RecordingIsSilent | src/daemon/daemon.cpp:213-226 | in every run: while a recording is on and its timer has done its work, the streams have been listed during this recording, and each that was not excluded and still exists is muted |
| DaemonSilence.DrainedIsSilent | src/daemon/daemon.cpp:183-317 | said of a drained queue without drop, click or tray quit: after START, with the timer done, the microphone is on and the other applications are silent |
| DaemonQueue.QueueLaw | src/daemon/daemon.cpp:183-317 | in every step: an event the hotkey machine emits goes to the end of the queue, or is dropped exactly if 100 wait there; a click offers one of its own; the daemon thread takes the oldest out and goes to the handler of its kind; nothing else touches the queue |
| DaemonQueue.NothingLost | src/daemon/daemon.cpp:309-317 | in every run without clicks and tray quit in which fewer than 100 events ever wait: what was taken and what waits are together what the hotkeys emitted, in order |
| DaemonLoop.AutoWhisperDaemon.OnHotkeyEvent | src/daemon/daemon.cpp:309-317 | an event is queued, or dropped if the queue is full |
| DaemonLoop.AutoWhisperDaemon.FinishCall | src/pulseaudio/pulseaudio.cpp:195-225 | a call of the mute manager returns, under every scheduling |
| DaemonLoop.AutoWhisperDaemon.HandleStart | src/daemon/daemon.cpp:213-226 | the statements of the handler, with other threads in between, are steps of the system and end between events |
| DaemonLoop.AutoWhisperDaemon.HandleStop | src/daemon/daemon.cpp:228-289 | likewise |
| DaemonLoop.AutoWhisperDaemon.HandleCancel | src/daemon/daemon.cpp:291-307 | likewise |
| DaemonLoop.AutoWhisperDaemon.ProcessEvents | src/daemon/daemon.cpp:183-211 | one round: reload, wait, take the oldest event, handle it |
| DaemonLoop.AutoWhisperDaemon.Run | src/daemon/daemon.cpp:133-153 | the loop and the cleanup; where it returns nothing records, no timer can mute and every application has its own flag |
| ConfigLines.AssignmentReads | platform/macos/SettingsApp.swift:151-152 | a line that was written reads as the key and value it was meant to give, and keeps its indentation |
| ConfigLines.OverwrittenValues | platform/macos/SettingsApp.swift:138-154 | the first value of the setting becomes the new one, its later values stay |
| ConfigLines.OverwrittenOthers | platform/macos/SettingsApp.swift:138-154 | the values of every other setting are unchanged |
| ConfigLines.EditReads | platform/macos/SettingsApp.swift:138-156 | both laws for whole texts, also where the setting has to be appended in a section of its own |
| ConfigLines.ReadBack | platform/macos/SettingsApp.swift:100-156 | an edit reads back if and only if the setting was given at most once or its last line already said so |
| ConfigLines.EditTwice | platform/macos/SettingsApp.swift:138-156 | a second edit of a setting overwrites the first exactly, found or appended |
| SettingValues.QuotedReads | platform/macos/SettingsApp.swift:88-90 | a quoted text reads back if and only if it has no apostrophe, no hash, and no double quote at an end |
| SettingValues.FlagReads | platform/macos/SettingsApp.swift:164 | flags read back |
| SettingValues.ArrayReads | platform/macos/SettingsApp.swift:95-98 | what a list reads back as, for every text of the field |
| SettingValues.ListReads | platform/macos/SettingsApp.swift:166-172 | a list reads back if and only if it is its trimmed items joined by a comma and a space, and no item holds what the quoting loses |
| ConfigStore.SavedValues | platform/macos/SettingsApp.swift:54-77 | after any of the edits of `save` each edited setting has its new value first and every other name is unchanged |
| ConfigStore.SaveReadsBack | platform/macos/SettingsApp.swift:52-136 | all eighteen edits are read back together, for values that can be written down and a text that gives no setting twice |
| ConfigStore.DuplicateReadsBack | platform/macos/SettingsApp.swift:52-136 | for every setting and any number of lines: a saved value is read back if and only if the last of the later lines that says something, if there is one, already said the same |
| ConfigStore.TwiceReadsBack | platform/macos/SettingsApp.swift:52-136 | what is loaded after saving into a text with two lines for a setting, whatever they say |
| ConfigStore.LostEdit | platform/macos/SettingsApp.swift:52-136 | the mode given twice, toggle last: push-to-talk is saved and toggle is loaded |
| ConfigStore.KeptEdit | platform/macos/SettingsApp.swift:52-136 | the volume given twice, the second time as no number: the edit is read back |
| ConfigReading.MissingShown | src/config/config.h:10-77 | a setting that the file does not give is shown by its default, written out, which is what the daemon takes if and only if it is none of model size, device and compute type |
| ConfigReading.TextGiven | platform/macos/SettingsApp.swift:113-133 | with `key = 'text'` under its section, names written out, behind whatever text: this setting shows the text, every other as before |
| ConfigReading.FlagGiven | platform/macos/SettingsApp.swift:113-133 | likewise for a flag, which is on exactly if it is written "true", in small letters or capitals |
| ConfigReading.NumberGiven | platform/macos/SettingsApp.swift:113-133 | likewise for a number; what is none changes nothing |
| ConfigReading.ListGiven | platform/macos/SettingsApp.swift:114-115 | likewise for a list, shown as one line |
| ConfigReading.UneditedSave | platform/macos/SettingsApp.swift:52-136 | loading and saving without an edit writes down every missing setting as shown; it changes what the daemon takes exactly for the three of the model |
| ConfigReading.ModelSwapped | platform/macos/SettingsApp.swift:52-83 | a file that leaves the model to the daemon names another one after a save without an edit |
| ConfigStore.ConfigStore.Parse | platform/macos/SettingsApp.swift:100-136 | the loop gives each setting the last of its values, and a number that cannot be read changes nothing |
| ConfigStore.ConfigStore.Replacing | platform/macos/SettingsApp.swift:138-156 | the loop overwrites the first matching line, or appends |
| ConfigStore.ConfigStore.Load | platform/macos/SettingsApp.swift:40-50 | draft and remembered text come from the file, or stay if it cannot be read |
| ConfigStore.ConfigStore.Save | platform/macos/SettingsApp.swift:52-86 | file and remembered text both become the edited text, or neither changes |
| Compositor.OverMonotone | src/avatar/avatar_core.cpp:78-94 | a brighter source over a brighter byte gives a brighter byte, at most 255 |
| Compositor.OverKeeps | src/avatar/avatar_core.cpp:87-93 | a blend keeps every colour byte at or below the alpha byte |
| Compositor.OverBetween | src/avatar/avatar_core.cpp:87-93 | each channel ends between what was there and the source |
| Compositor.AlphaGrows | src/avatar/avatar_core.cpp:91 | a blend never makes a pixel more transparent |
| Compositor.PaintedAllKeeps | src/avatar/avatar_core.cpp:78-151 | any sequence of blends keeps the whole frame premultiplied |
| Compositor.PixelIsLocal | src/avatar/avatar_core.cpp:81 | a pixel is the result of exactly the blends that hit it, in order |
| Compositor.SourceOver | src/avatar/avatar_core.cpp:87-93 | the four sums of the source, the alpha one without a colour, are the four channels of one blend |
| Compositor.Blend | src/avatar/avatar_core.cpp:78-94 | one pixel changes, inside the buffer, or none |
| Compositor.Fill | src/avatar/avatar_core.cpp:101-151 | the loop of a shape is the blends of its box, row by row |
| Compositor.Rasterize | src/avatar/avatar_core.cpp:229-404 | a cleared buffer and any shapes: the frame is their blends in order, and premultiplied |
| Compositor.PlateFits | src/avatar/platform/avatar_x11.cpp:112-118 | a channel at or below alpha plus its share of the plate stays a byte |
| Compositor.PlateRounds | src/avatar/platform/avatar_x11.cpp:114-116 | the share is the exact one, rounded to the nearest |
| Compositor.Plate | src/avatar/platform/avatar_x11.cpp:112-118 | every pixel of a premultiplied frame becomes its opaque composite, without overflow |
| Compositor.Frame | src/avatar/platform/avatar_x11.cpp:105-119 | what is drawn is always fit for the plate |
| Sidecar.StoiReads | src/settings/sidecar.cpp:89-94 | a printed int is read back |
| Sidecar.ParseSidecar | src/settings/sidecar.cpp:80-102 | lines, numbers, limits and the optional token, in order |
| Sidecar.RoundTrip | src/settings/sidecar.cpp:80-108 | printing and parsing gives the same contents if and only if the process id and port are in range and no field has a line break |

## Left out

- Passes.DictionaryWords: for phrases of several words it states an edit relation (only occurrences change, only into the replacement), not a function of the word list, because occurrences may overlap.
- FabricClient.LocalServiceClient.TranscribeFile: takes uuid4 strings to be distinct and not uttered before they are issued (`FreshIds`), and children not to forge the id of a request (`Honest`); a child may otherwise say anything. Its last clause is for calls during which the requests of the health check and of other threads fit on the wire; for its own requests the condition is exact.
- The resolution of a path against the working directory is a parameter of the client (`resolve`).
- FabricClient.ReceivedAnswers: rests on the same two assumptions; the client's part is the comparison of ids.
- Wire.OutcomeExact: takes the JSON libraries to read what they have printed, if they read it at all (`Lossless`). Characters stand for bytes; a server that cannot print its answer ends.
- SecondRun.ProcessTwice: is for an empty dictionary; entries are applied again to what they have produced, and nothing is claimed about that.
- SpokenCommands.CommandsAppliedWords: is about words; which commands are left is `CommandRounds.SurvivesIff`, and which line breaks are written is `PassReading.CommandsRead`.
- Timeouts, the text of error messages from the operating system and from stderr, the resolution of the executable, the service settings, and signals to the process group are nondeterministic or left out.
- JSON: text is parsed and printed by a library; requests and responses are values here, the parser is a parameter. The wording of library exceptions is reduced to one text.
- LocalProtocol.ProtocolHandler.HandleRequest: the engine behind the server is a parameter that returns a result or an exception; files are not opened.
- Sha256.Sha256.HexDigest: above 2^61 bytes the length field wraps around, as in the code; the standard does not define that case.
- WordErrorRate.WordErrorRate: the quotient is real, not a rounded double.
- MuteEpisode.EpisodeConserves: nobody but the manager changes a mute flag, stream indices are not used twice, and the server answers each call; the early returns for a disabled or unconnected manager are not modelled.
- The handle of the mute timer: a finished timer is assigned over without being joined; nothing is claimed about handles. The first cancellation in the manager's cleanup is merged with the one in its unmute.
- The daemon and the mute manager are step systems over values where other threads interleave; `DaemonLoop` is the daemon thread as a class, but the fields of the components it drives are values in it.
- DaemonLoop.AutoWhisperDaemon.Run: goes round at most `rounds` times, for every number, because the loop of the program need not end.
- Audio, silence trimming, transcription, injection, tray, feedback sounds: input and output, or easy members.
- Hotkey.HotkeyManager.SetConfigLive: gets parsed combinations; invalid ones have been skipped before.
- ConfigReading.MissingShown: the daemon's defaults are those of its structure; how its TOML library reads a file is not modelled, and 0.3 stands for the nearest float.
- ConfigStore.ConfigStore.Save: status texts are reduced to four values, and the write either happens or does not.
- ConfigStore.SaveReadsBack: number formatting and reading are parameters; a number counts as writable if its text is plain and reads back. Characters are Unicode scalars: grapheme clusters, carriage-return line-feed pairs among them, are not modelled.
- Compositor.OverKeeps: over reals, with the rounding to bytes; the rounding of floats in between is not modelled.
- Compositor.OverMonotone: over reals, likewise.
- Compositor.OverBetween: over reals, likewise.
- Compositor.AlphaGrows: over reals, likewise.
- Compositor.Rasterize: shapes are boxes with an arbitrary coverage of each pixel; which shapes are drawn for which state, the label font and the animation clock are not modelled.
- The avatar's state machine, character table and labels: easy members.
- The file name hash of the sidecar and the places where it is looked for: input and output.
- Configuration schema, its JSON forms, the model table, HTTP routes and user interfaces: wide, one field per branch.
