# aura_agent voice-assistant core in Dafny

This project models the core of a Portuguese voice assistant in Dafny and
proves properties of it. The assistant loops over four steps:

- It listens on the microphone until an utterance ends.
- It transcribes the utterance.
- It remembers the user's name when they say it.
- It asks a local language model for a reply and speaks the reply aloud.

The repository has three entry points: the modular `main.py` with its
`audio/`, `memory/` and `prompts/` packages, and the single-file `darian.py`
and `aura.py`. They share most of their logic, and the model follows their
structure:

| module | file | what it models |
|---|---|---|
| `Options` | options.dfy | `Option` and map lookup |
| `Text` | text.dfy | the parts of Python's `str` the core relies on: `isspace`, `\w`, `lower`, `capitalize`'s upper case, `strip`, `split()` and `join` |
| `Tts` | tts.dfy | the pause insertion `speak` applies before synthesis |
| `SystemPrompt` | prompt.dfy | `build_system_prompt` and the three base prompts |
| `Extract` | extract.dfy | `extract_user_facts` |
| `Dialogue` | dialogue.dfy | the conversation loop of `main` |
| `Signal` | signal.dfy | what both speech detectors share |
| `Stt` | stt.dfy | the streaming endpoint detector of `audio/stt.py` with its normalisation and transcript |
| `Darian` | darian.dfy | the older detector and normalisation of `darian.py` |

Sections of the repository modelled once but shared by several files:

- `build_system_prompt`: darian.py:35-42 and aura.py:33-40 repeat
  prompts/system_prompt.py:35-42. Only the base prompt differs, and the
  constants `DarianBase`, `DarianFullBase` and `AuraBase` hold the three bases.
- `extract_user_facts`: darian.py:215-241 and aura.py:131-157 repeat
  memory/extract.py:14-40.
- `speak`: darian.py:56-58 and aura.py:54-56 repeat audio/tts.py:25-26.
- The main loop: darian.py:253-284 and aura.py:168-199 repeat main.py:28-56.

How the model represents the system's parts:

- **Frames.** A detector sees one frame per block from the audio stream. A
  frame carries its samples, its energy (`np.linalg.norm(chunk) * 10`) and a
  timestamp in milliseconds taken once per frame. That timestamp stands in for
  the several `time.time()` calls of one pass.
- **Detector state.** Each detector is a class whose fields are the source's
  local variables. Two ghost fields record the history of frames and the index
  of the onset frame. `Valid` ties the recording, the timers and the
  speech flag to functions of that history, for example the pre-roll to
  `Tail(Chunks(frames), 6)`. In audio/stt.py it also ties the barge-in flag, and
  ties the onset timer only before the onset, since no later pass reads it. The
  `done` field is not tied to the history; the outcome of `Step` states when a
  pass ends listening.
- **Stopping.** `Listen` states when the detector stops. It stops on the first
  frame at which `Ends` holds. `Ends` is a function of the frames and the
  detector's fixed parameters: the threshold, and in darian.py the start time.
- **Outside services.** The speech recogniser, the language model and what
  `listen` hears are parameters. The SQLite fact store is a `map`.

Behaviour of the code that the model keeps as written:

- **Duplicated confirming block.** At the onset the pre-roll already holds the
  confirming block (audio/stt.py:66). The code then appends that block once
  more (audio/stt.py:83-85), so the recording contains it twice in a row.
  `Stt.RecordingRepeatsOnsetBlock` states this.
- **Strict comparisons.** Every timer and threshold test in the code is strict
  (`>`): audio/stt.py:72, 75, 94, 99 and 104, and darian.py:110, 117, 122 and 125.
  A run that lasts exactly 0.3 s does not confirm speech.
- **Silent recordings.** In audio/stt.py a silent recording is left unscaled,
  because the division is guarded by `max_val > 0` (audio/stt.py:114-116), and
  it is still transcribed. In darian.py it is divided by its zero peak (darian.py:135),
  which `Darian.Prepared.NotANumber` stands for.
- **Skipped timer check.** A quiet frame before the onset leaves the pass early
  with `continue` (audio/stt.py:86-88). That frame skips the duration check of
  the pass.

## Model

| member | source | states |
|---|---|---|
| Text.Lower | memory/extract.py:18 | lowering keeps whitespace whitespace and leaves no upper-case Latin-1 letter; an upper-case Latin-1 letter becomes the lower-case letter 32 code points above it, `Ÿ` becomes `ÿ`, and every other character is unchanged |
| Text.IsSpace | audio/stt.py:127 | the characters `str.isspace` accepts, which `strip()` and `split()` remove; `Text.Strip`, `Text.SplitKeepsNonSpace` and `Text.SplitSeparated` state their use |
| Text.IsWord | memory/extract.py:35 | the Latin-1 characters of the `\w` class; `Extract.Clean` states what the cleanup keeps with it |
| Text.Upper | memory/extract.py:36 | upper-casing keeps whitespace whitespace and leaves no lower-case Latin-1 letter; a lower-case Latin-1 letter becomes the upper-case letter 32 code points below it, `ÿ` becomes `Ÿ`, `µ` becomes `Μ`, and every other character is unchanged |
| Text.LowerString | memory/extract.py:18 | `lower()` keeps the length and lowers every character in place |
| Text.LowerStringIdempotent | main.py:33 | lowering an already lowered string changes nothing |
| Text.CaseInverse | memory/extract.py:18-36 | on cased Latin-1 letters, and on `Ÿ` and `ÿ`, upper and lower case undo each other |
| Text.StripStart | audio/stt.py:127 | the result is a suffix of the input, preceded only by whitespace and not starting with it; it is empty exactly when the input is all whitespace |
| Text.StripEnd | audio/stt.py:127 | the result is a prefix of the input, followed only by whitespace and not ending with it; it is empty exactly when the input is all whitespace |
| Text.Strip | audio/stt.py:127 | the result is the slice of the input after the leading whitespace, followed only by whitespace; it neither starts nor ends with whitespace and is empty exactly when the input is all whitespace |
| Text.StripIdentity | audio/stt.py:127 | a string without surrounding whitespace is left unchanged |
| Text.WordLength | memory/extract.py:36 | the leading run of non-whitespace ends at whitespace or at the end |
| Text.Split | memory/extract.py:36 | `split()` yields only non-empty words without whitespace, and nothing for an all-whitespace string |
| Text.NonSpace | memory/extract.py:36 | the characters that are not whitespace, in order, and no more of them than the input has |
| Text.SplitKeepsNonSpace | memory/extract.py:36 | the words of `split()` put together are exactly the input with its whitespace removed |
| Text.SplitSkipsSpaces | memory/extract.py:36 | leading whitespace never produces a word |
| Text.WordLengthBeforeSpace | memory/extract.py:36 | whitespace after a word does not change where the word ends |
| Text.SplitSeparated | memory/extract.py:36 | a run of whitespace separates words: the words of `a + spaces + b` are the words of `a` followed by those of `b` |
| Text.Join | memory/extract.py:36 | `" ".join`: the items with the separator between neighbours; `Text.SplitJoin`, `Text.JoinSingleSpaced` and `Text.JoinEmptyCons` state what it gives |
| Text.JoinEmptyCons | audio/stt.py:127 | joining with "" puts the first item in front of the joined rest |
| Text.SplitJoin | memory/extract.py:36 | splitting words joined by single spaces gives the words back |
| Text.JoinSingleSpaced | memory/extract.py:36 | joining words with " " gives a string with no outer whitespace, only plain spaces, and no two in a row |
| Tts.ReplaceChar | audio/tts.py:26 | `replace` of one character: the character alone becomes the replacement, text without it is unchanged, and no occurrence survives when the replacement does not contain it; with `Tts.ReplaceCharAppend` this fixes every result |
| Tts.Paused | audio/tts.py:26 | the two chained replacements in the source's order; `Tts.PausedIsPerCharacter`, `Tts.PausedLength`, `Tts.PausesFollowedBySpace` and `Tts.PausedWithoutPunctuation` state what they give |
| Tts.ReplaceCharAppend | audio/tts.py:26 | `replace` of one character distributes over concatenation |
| Tts.PausedIsPerCharacter | audio/tts.py:26 | the two chained replacements equal replacing every `,` by `, ` and every `.` by `. ` independently |
| Tts.PausedLength | audio/tts.py:26 | the spoken text is longer by exactly the number of commas and full stops |
| Tts.PerCharacterLength | audio/tts.py:26 | the per-character reference grows by one character per comma and full stop |
| Tts.PausesFollowedBySpace | audio/tts.py:26 | every comma and full stop of the spoken text is immediately followed by a space |
| Tts.PerCharacterFollowedBySpace | audio/tts.py:26 | the same, for the per-character reference |
| Tts.PausedWithoutPunctuation | audio/tts.py:26 | text without commas or full stops is spoken as it is |
| Tts.PerCharacterWithoutPunctuation | audio/tts.py:26 | the same, for the per-character reference |
| SystemPrompt.BuildSystemPrompt | prompts/system_prompt.py:35-42 | the prompt always starts with the base prompt |
| SystemPrompt.KnownNameRoundTrip | prompts/system_prompt.py:39-40 | reading the fact line back out of the prompt gives exactly the stored name, and nothing when no name is stored |
| SystemPrompt.PromptGrowsOnlyWithName | prompts/system_prompt.py:35-42 | the prompt is longer than the base exactly when a name is stored; otherwise it is the base itself |
| SystemPrompt.OnlyTheNameMatters | prompts/system_prompt.py:36-40 | stores that agree on the name give the same prompt |
| Extract.LineLength | memory/extract.py:21 | the greedy `.+` takes every character up to the first newline |
| Extract.Keywords | memory/extract.py:20-28 | the literal keyword of each of the seven patterns, in the order they are tried; `Extract.KeywordsLowerCase` states its properties |
| Extract.KeywordsLowerCase | memory/extract.py:18-28 | there are seven keywords, each already lower case so it can match the lowered text, and "o meu nome é" is tried before the "meu nome é" it ends with |
| Extract.Backtrack | memory/extract.py:21 | backtracking finds the last position up to `q` where `.+` can start, and none exists when it fails |
| Extract.GroupStart | memory/extract.py:21-27 | the group starts at the largest position admitted by the keyword, one or more whitespace characters and a non-newline; none exists when it fails |
| Extract.SearchFrom | memory/extract.py:31 | `re.search` finds the leftmost matching position, and no earlier one matches |
| Extract.SearchSkips | memory/extract.py:31 | the search moves past positions that cannot start the keyword |
| Extract.Group | memory/extract.py:31-33 | a captured group is non-empty and has no newline |
| Extract.Kept | memory/extract.py:35 | the characters `[\w\sÀ-ÿ]` accepts; `Extract.Clean` keeps exactly these |
| Extract.Clean | memory/extract.py:35 | the cleanup keeps only `\w`, whitespace and `À-ÿ`; a single character is kept exactly when it is of those classes; clean text is unchanged and punctuation reduces to whitespace |
| Extract.CleanCons | memory/extract.py:35 | the first character is kept or dropped on its own |
| Extract.CleanAppend | memory/extract.py:35 | the cleanup works character by character: cleaning a concatenation cleans each part, so with the single-character case it removes exactly the other characters, in order |
| Extract.Capitalize | memory/extract.py:36 | `capitalize` keeps the length, upper-cases the first character, lower-cases every other one, and keeps a word a word |
| Extract.CapitalizeAll | memory/extract.py:36 | every word is capitalised in place |
| Extract.TidyName | memory/extract.py:35-36 | clean, split, capitalise each word and join with single spaces; `Extract.TidyNameShape` and `Extract.TidyNameOfPunctuation` state what it gives |
| Extract.TidyNameShape | memory/extract.py:35-36 | the saved name is single-spaced, and its words are exactly the capitalised words of the cleaned group, in order |
| Extract.TidyNameOfPunctuation | memory/extract.py:35-36 | a group made only of punctuation and whitespace gives the empty name |
| Extract.FirstMatch | memory/extract.py:30-32 | gives the first pattern in list order that matches, and no earlier pattern matches; none matches when it gives nothing |
| Extract.FirstName | memory/extract.py:30-40 | trying the patterns from the `k`-th on and returning the tidied group of the first that matches; `Extract.FirstNameIsFirstMatch` states it |
| Extract.FirstNameIsFirstMatch | memory/extract.py:30-40 | trying the patterns in turn and returning on the first match gives the name of the first matching pattern |
| Extract.ExtractName | memory/extract.py:18-40 | the name of the first pattern that matches the lower-cased text; `Extract.ExtractNameSpec` and `Extract.FirstNameIsFirstMatch` state it |
| Extract.ExtractNameSpec | memory/extract.py:18-40 | a name is saved exactly when some pattern matches the lower-cased text, and it is the name of the first pattern in list order that matches |
| Extract.ExtractUserFacts | memory/extract.py:14-40 | the loop over the patterns returns the name `ExtractName` defines |
| Extract.Remember | memory/extract.py:38 | `save_fact("name", …)` sets the name and leaves every other key; nothing is saved when no name was extracted |
| Extract.FirstPatternWins | memory/extract.py:20-33 | in "Eu sou o Rui, chamo-me Ana." the earlier "eu sou o" loses to "chamo-me", which comes first in the list, and the name is "Ana" |
| Extract.PunctuationOnlySavesEmptyName | memory/extract.py:35-38 | "Chamo-me !" saves the empty name |
| Dialogue.Heard | main.py:30-31 | `if not user: continue`: nothing and the empty string are skipped; `Dialogue.Conversation.Turn` states it |
| Dialogue.IsExitWord | main.py:33 | the lowered input is one of "sair", "exit", "quit"; `Dialogue.ExitWordIgnoresCase` and `Dialogue.ExitWordsAreExact` state what it accepts |
| Dialogue.ExitWordIgnoresCase | main.py:33 | the exit test ignores case |
| Dialogue.ExitWordsAreExact | main.py:33 | only four-character inputs exit; "SAIR" and "Quit" do, " sair" and "sair." do not |
| Dialogue.Trim | main.py:52-53 | the trimmed history has at most 13 messages; it keeps the first message, followed by the most recent ones |
| Dialogue.TrimIdempotent | main.py:52-53 | trimming twice is trimming once |
| Dialogue.Sent | main.py:37-40 | the list sent to the model is the refreshed system message, the rest of the history in order, then the user message |
| Dialogue.SentPrompted | main.py:37-40 | after the user message is added and the system message refreshed, the history leads with the prompt built from the current facts and holds no other system message |
| Dialogue.ReplyPrompted | main.py:49-53 | adding the reply and trimming keeps that shape |
| Dialogue.Advance | main.py:29-56 | the effect of one turn on the history, the facts and the end flag: skipped input changes nothing, an exit word only sets the flag, any other input updates the facts by the extraction |
| Dialogue.AdvancePrompted | main.py:37-53 | every turn keeps the history led by the one system message, built from the current facts |
| Dialogue.Replay | main.py:28-56 | the effect of a sequence of turns, one after the other |
| Dialogue.ReplayPrompted | main.py:28-56 | every sequence of turns keeps the history led by the one system message, built from the current facts |
| Dialogue.ReplaySkipped | main.py:30-31 | any number of skipped turns leaves the state as it was |
| Dialogue.Conversation.constructor | main.py:23 | the history starts with just the system message for the stored facts |
| Dialogue.Conversation.Turn | main.py:29-56 | nothing heard skips the turn and an exit word ends the conversation, both leaving the history and facts alone; otherwise the facts are updated by the extraction, and a failed model call leaves the user's message in the history while a reply is appended and the history trimmed; the new state is `Advance` of the old one |
| Dialogue.Conversation.Run | main.py:28-56 | the loop stops at the first exit word, or when the input runs out; the history, facts and end flag are then `Replay` of the turns consumed, from the state on entry |
| Signal.RunStart | audio/stt.py:72-75 | gives the first frame of the run of equally classed frames that ends the history, and the frame before it is of the other class |
| Signal.RunStartTime | audio/stt.py:73-74 | a run start time exists exactly when the history ends in such a run |
| Signal.RunStartAppend | audio/stt.py:72-75 | one more frame resets, starts or keeps the run start time, as the onset and silence timers do |
| Signal.SustainedAppend | audio/stt.py:75 | the timer test on the new frame agrees with the run of the whole history |
| Signal.Sustained | audio/stt.py:75 | the `elif time.time() - start > limit` test on the run that ends the history; `Signal.SustainedAppend`, `Signal.SilenceTimer` and `Signal.SustainedNeedsTwoFrames` state how it behaves frame by frame |
| Signal.SilenceTimer | audio/stt.py:94-100 | after frame `k` one more frame clears, starts or keeps the silence timer, and the silence test on it agrees with the quiet run of the whole history |
| Signal.SustainedNeedsTwoFrames | audio/stt.py:73-75 | a timer never fires on the frame that started it |
| Signal.Tail | audio/stt.py:48-49 | the pre-roll holds at most six blocks |
| Signal.Admit | audio/stt.py:66-68 | `append` then `pop(0)` beyond capacity evicts the oldest block first |
| Signal.AdmitTail | audio/stt.py:65-68 | admitting each block into the pre-roll keeps exactly the last six blocks |
| Signal.Chunks | audio/stt.py:92 | one block per frame, in order |
| Signal.Concat | audio/stt.py:111 | `np.concatenate` of the blocks, also darian.py:128; `Signal.ConcatLength` and `Signal.ConcatAppend` state its length and how it splits |
| Signal.ChunksSnoc | audio/stt.py:92 | one more frame appends its block |
| Signal.ConcatLength | audio/stt.py:111 | the concatenation is as long as all the blocks together |
| Signal.ConcatAppend | audio/stt.py:111 | concatenation distributes over list concatenation |
| Signal.Peak | audio/stt.py:114 | the peak bounds every magnitude and is attained by some sample |
| Signal.PeakUnique | audio/stt.py:114 | any attained bound is the peak |
| Signal.Scale | audio/stt.py:116 | dividing keeps the length, and every result sample times the divisor is the input sample, so every magnitude is divided |
| Signal.ScaledSample | audio/stt.py:116 | each scaled sample is the original sample divided by the divisor |
| Signal.PeakScale | audio/stt.py:116 | dividing by a positive number divides the peak by it |
| Stt.Onset | audio/stt.py:71-79 | the confirming frame, if there is one, lies in the history |
| Stt.Confirms | audio/stt.py:72-75 | a loud run lasting more than 0.3 s ends the history; `Stt.OnsetSpec` states that the onset is the first history for which it holds |
| Stt.OnsetSpec | audio/stt.py:71-79 | the detector confirms speech at the first frame that ends a loud run lasting more than 0.3 s, and not without one |
| Stt.OnsetUnique | audio/stt.py:71-79 | a history has at most one onset |
| Stt.OnsetAppend | audio/stt.py:71-79 | once confirmed, the onset stays where it is |
| Stt.Recording | audio/stt.py:83-85 | the recording is the pre-roll, the confirming block once more, then every later block |
| Stt.RecordingRepeatsOnsetBlock | audio/stt.py:66-85 | the confirming block appears twice in a row in the recording |
| Stt.RecordingAppend | audio/stt.py:92 | after the onset each frame appends its block to the recording |
| Stt.OnsetTimer | audio/stt.py:64-79 | before the onset one more frame updates the onset timer, the onset test and the pre-roll as the whole-history definitions do |
| Stt.WaitingStep | audio/stt.py:64-88 | a frame before the onset keeps the waiting state, or confirms speech with the pre-roll and the frame's block as the recording |
| Stt.CapturingStep | audio/stt.py:90-100 | a frame after the onset keeps the capturing state, with the silence test read off the stored timer |
| Stt.Detector.constructor | audio/stt.py:47-54 | the state at the top of the loop: no frames, no speech, the barge-in flag as it was |
| Stt.Detector.Step | audio/stt.py:56-105 | one pass records the frame; speech once started stays started; the barge-in flag is set exactly from the onset; the pass ends listening after more than 0.7 s of silence since the onset or more than 6 s after it, and that is exactly when `Ends` holds |
| Stt.Detector.BeforeOnset | audio/stt.py:64-88 | a frame before the onset updates the pre-roll and timers; speech starts exactly when the frame confirms it, and a quiet frame skips the rest of the pass |
| Stt.Detector.AfterOnset | audio/stt.py:90-100 | a frame after the onset is recorded; the silence timer ends listening exactly when silence has lasted more than 0.7 s |
| Stt.Detect | audio/stt.py:56-105 | stepping over the frames stops on the first frame at which `Ends` holds, or runs out of frames |
| Stt.Listen | audio/stt.py:28-134 | `listen` returns on the first frame at which listening ends; the barge-in flag is raised exactly when speech was confirmed; the text is the trimmed transcript of the normalised recording, never blank at either end |
| Stt.Divisor | audio/stt.py:116 | the divisor is the peak when the peak is at least 0.3, and 0.3 otherwise |
| Stt.Normalize | audio/stt.py:113-116 | normalisation keeps the length; a recording with any sound is divided by `max(peak, 0.3)` sample by sample, and a silent one is left as it is |
| Stt.NormalizeSamples | audio/stt.py:116 | each sample of a recording with any sound becomes that sample divided by `max(peak, 0.3)` |
| Stt.NormalizeBounded | audio/stt.py:113-116 | every normalised sample lies in [-1, 1] and is amplified at most 1 / 0.3 times |
| Stt.NormalizePeak | audio/stt.py:113-116 | a recording at least as loud as 0.3 peaks at exactly 1; a quieter one is scaled by 1 / 0.3; a silent one and one already peaking at 1 are untouched, so normalising a loud recording twice is normalising it once |
| Stt.NormalizeFixed | audio/stt.py:113-116 | a recording that already peaks at exactly 1 is left unchanged |
| Stt.Transcribed | audio/stt.py:107-134 | no blocks give no text; any text is the stripped join of what the recogniser makes of the normalised concatenation of the blocks, and is not blank at either end |
| Stt.Ends | audio/stt.py:71-105 | listening ends once an onset exists and its trailing silence has lasted more than 0.7 s or more than 6 s have passed since it; `Stt.Listen` and `Stt.Detect` stop exactly at its first frame |
| Stt.TimeUp | audio/stt.py:102-104 | the 6 s ceiling after the onset time, never firing when that time is the falsy 0; `Stt.Ends` and `Stt.Detector.Step` use it |
| Stt.Transcript | audio/stt.py:127-131 | the text is the segments joined in order and stripped; there is no text exactly when that is all whitespace, and the text is never blank at either end |
| Stt.JoinAllSpace | audio/stt.py:127 | the joined text is blank exactly when every segment is |
| Stt.TranscriptNone | audio/stt.py:127-131 | nothing is heard exactly when every segment is blank |
| Darian.FirstLoudUnique | darian.py:109-111 | a history has at most one first loud frame |
| Darian.FirstLoud | darian.py:109-111 | frame `k` is loud and every frame before it quiet; `Darian.FirstLoudUnique` and `Darian.OnsetSpec` state its use |
| Darian.Onset | darian.py:109-111 | the frame that started speech, if any, lies in the history |
| Darian.OnsetSpec | darian.py:109-111 | speech starts at the first loud frame, and not while every frame is quiet |
| Darian.OnsetAppend | darian.py:109-111 | once started, the onset stays where it is |
| Darian.Ends | darian.py:109-126 | listening ends once an onset exists and its trailing silence has lasted more than 0.4 s or more than 15 s have passed since `listen` began; `Darian.EndsAt` restates it per frame and `Darian.Detect` stops exactly at its first frame |
| Darian.EndsAt | darian.py:115-126 | listening ends, given the onset, after more than 0.4 s of silence or more than 15 s after `listen` began |
| Darian.QuietNoEnd | darian.py:108-114 | before speech listening never ends |
| Darian.StopIsEnd | darian.py:104-126 | a pass's stop decision is `Ends` of the history so far |
| Darian.QuietStep | darian.py:104-114 | a loud frame before speech is the onset, a quiet one keeps the history quiet |
| Darian.SpeakingStep | darian.py:115-123 | after the onset one more frame updates the silence timer and test as the whole-history definitions do |
| Darian.Detector.constructor | darian.py:93-96 | no frames, no speech, the start time recorded |
| Darian.Detector.Step | darian.py:98-126 | one pass records the block; the first loud frame starts speech; listening ends after more than 0.4 s of silence, or after 15 s once speech started, and quiet frames before speech never end it |
| Darian.Detector.BeforeOnset | darian.py:104-114 | the block is recorded; speech starts exactly on a loud frame |
| Darian.Detector.AfterOnset | darian.py:115-123 | the block is recorded; the silence timer ends listening exactly when silence has lasted more than 0.4 s |
| Darian.Detect | darian.py:98-126 | stepping over the frames stops on the first frame at which `Ends` holds, or runs out of frames |
| Darian.Prepare | darian.py:128-135 | an empty recording gives nothing; an all-zero one gives not-a-number samples; otherwise the peak is positive and the recording is the concatenation divided by it |
| Darian.PreparePeak | darian.py:135 | a recording with any sound is scaled to peak exactly 1 |
| Darian.PrepareAgreesWithNormalize | darian.py:135 | on recordings at least as loud as 0.3 the older normalisation equals the newer one |
| Darian.Listen | darian.py:77-159 | `listen` returns on the first frame at which listening ends; the text is the trimmed transcript of the prepared recording of every block, never blank at either end |

## Left out

- Audio input: `sd.InputStream`, its callback and the queue are replaced by a
  finite sequence of frames. A `queue.Empty` timeout changes no state, so it is
  not modelled.
- `time.time()` is replaced by one timestamp per frame, in whole milliseconds.
- Frame energy: `np.linalg.norm(chunk) * 10` arrives as a given number with each
  frame.
- Samples are mathematical reals. The model has no float32 rounding, and no
  int16 conversion or WAV file (darian.py:137-141).
- `calibrate_noise` (audio/stt.py:136-163, darian.py:161-183) is not modelled. It
  averages the energies of a time window from the device, and the threshold is
  a parameter instead.
- `aura.py`'s `listen` (aura.py:75-99) records a fixed five seconds with
  `sd.rec`. It has no detector logic to model, only the device and the
  recogniser.
- The Whisper recogniser is the `transcribe` parameter. No property of it is
  assumed, including what it makes of not-a-number samples.
- The beep (audio/signals.py), gTTS and playsound are not modelled. The model
  has the text handed to `speak`.
- The Ollama HTTP call is the `llm` parameter of a turn. An exception is its
  `Failure` result.
- The SQLite fact store (memory/user_memory.py) is a `map<string, string>`, and
  `save_fact` is a map update.
- Console output (`print`) is not modelled.
- `STOP_TTS` has no reader in the source. audio/tts.py:17 only imports it, and
  `global STOP_TTS` (audio/stt.py:29, 76) rebinds the name inside `audio.stt`
  alone. The model keeps it as a detector field that nothing consumes.
- The endless loops become finite:
  - `main` runs over a finite script of turns.
  - `listen` runs over a finite list of frames. When the frames run out before
    an end is detected, the outcome is `Continue` and no text is returned.
- `inspect_memory.py` and `select_voice.py` are tools outside the assistant's
  loop, so they are not modelled.
- Text.Lower, Text.Upper and Text.IsWord are exact on Latin-1 only. Beyond
  U+00FF the only case mappings kept are `Ÿ` (U+0178) lowering to `ÿ` and `µ`
  upper-casing to `Μ` (U+039C). Every other character beyond U+00FF keeps its
  case, `Μ` included, and is not a word character. Python's `capitalize`
  turning `ß` into two characters is not modelled.
- Stt.Listen: audio/stt.py:107-109 returns None for an empty recording. After
  the loop ends the recording is never empty, so that branch is kept in
  `Stt.Transcribed` but never taken.
- Signal.Peak: `np.max` of an empty array raises an error. Here the peak of an
  empty signal is 0. `Darian.Prepare` excludes an empty recording before taking
  the peak. `Stt.Transcribed` excludes only an empty list of blocks, as
  audio/stt.py:107 does. A list made only of empty blocks would reach `np.max`
  of an empty array, where the source raises and the model transcribes the empty
  signal. The model does not exclude empty blocks, although the stream delivers
  blocks of 512 samples (audio/stt.py:44).
