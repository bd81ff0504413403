# Voice chat agent with lip sync — Dafny model

The system is a PyQt desktop chat agent. It streams a reply from a chat
model token by token. It cuts the stream into sentences at punctuation
tokens and sends each sentence to a text-to-speech worker. It plays the
finished sound files one after another, appending each sentence to the
agent's chat bubble as its sound starts. A separate lip-sync component
turns a sound file into timed mouth-shape cues (via the Rhubarb tool) and
picks the mouth image to draw on every timer tick.

This project models that core as pure Dafny functions over immutable
datatypes:

- `Text` (text.dfy): the pieces of Python string behaviour the core uses:
  `str.strip` with Python's whitespace set, `"".join`, and `str(int)` for
  non-negative integers.
- `Segmenter` (segmenter.dfy): the token handler that accumulates tokens in
  a partial sentence and cuts it at a terminator token.
- `Playback` (playback.dfy): the sound queue, the player's busy flag and the
  chat bubble's text, driven by "speech file ready" and "media status
  changed" events.
- `LipSync` (lipsync.dfy): the lip-sync player's state, its start guard,
  cue selection with the hold rule, and the mouth overlay choice.
- `Workers` (workers.dfy): the chat worker's history handling and token
  filtering, the speech worker's file name, and the lip-sync worker's
  output name, command line and result dispatch.
- `Agent` (agent.dfy): the main window's state as one machine over every
  event the window reacts to, with the invariant that every sentence cut
  from the reply is either waiting for speech, queued, or already shown,
  exactly once.

Things the program takes from the outside world are parameters: the chat
stream's chunks, the millisecond clock reading, the wall-clock time of a
timer tick, the Rhubarb process outcome, and the result of reading the
cue file.

Behaviour worth knowing, as the code does it:

- A sentence ends only when a whole token equals one of the seven
  terminators (three ASCII, four fullwidth, including the fullwidth
  comma). A token such as `"Hi."` does not end a sentence; the ASCII comma
  never does.
- Sentences are queued in the order their speech files finish, not in the
  order they were cut. Nothing reorders them.
- A lip-sync player counts as started only when its start time is set and
  non-zero (Python truthiness). `start` does not reset the held shape.
- Any mouth-shape value is held and reported. An overlay is drawn only for
  the nine shapes A–H and X.
- A failed Rhubarb run or an unreadable cue file yields an error signal.
  No retry or skip policy exists.
- Clear empties the list widget, which deletes the agent bubble, but it
  leaves the queue, the player and the running speech workers alone.
  The next file that starts tries to append its sentence to the deleted
  label, which raises. The same happens before the first Send, when no
  bubble exists at all. PyQt5 (5.5 and later) aborts the program on an
  exception that escapes a slot. The model therefore has a `halted`
  state: once halted, every later event changes nothing.

## Model

| member | source | states |
|---|---|---|
| Text.Strip | creat_qt_ui.py:159 | The stripped text is empty exactly when the input is all whitespace. Otherwise it begins and ends with non-whitespace, and it is never longer than the input. |
| Text.StripFrame | creat_qt_ui.py:159 | The input is whitespace, then the stripped text, then whitespace; stripping removes only whitespace, from the two ends. |
| Text.DecimalRoundTrip | workers.py:99-100 | Reading back the decimal text of a millisecond count gives that count. |
| Text.DecimalInjective | workers.py:99-100 | Different millisecond counts have different decimal texts. |
| Segmenter.TerminatorShape | creat_qt_ui.py:158 | Every terminator is a single non-whitespace character. |
| Segmenter.Feed | creat_qt_ui.py:153-161 | A sentence is emitted exactly when the token is a terminator. If so, the buffer is emptied and the sentence is the stripped buffer plus token. Otherwise the token is appended to the buffer. |
| Segmenter.FeedCutsSentence | creat_qt_ui.py:155-161 | An emitted sentence is non-empty, keeps the terminator as its last character, and is the accumulated text with only leading whitespace removed. |
| Segmenter.FeedAllShape | creat_qt_ui.py:153-161 | Over a token stream, one sentence is cut per terminator token. Each raw piece ends in a terminator, and each sentence is its raw piece stripped. |
| Segmenter.FeedAllConserves | creat_qt_ui.py:155-160 | No text is lost or reordered: the raw pieces followed by the leftover buffer equal the starting buffer followed by all tokens. |
| Segmenter.SentencesAreCut | creat_qt_ui.py:158-161 | Every sentence produced over a stream is the cut of its raw piece: stripped, non-empty, and ending in that piece's terminator. |
| Segmenter.FeedAllAppend | creat_qt_ui.py:153-161 | Feeding two token streams one after the other is the same as feeding their concatenation. |
| Segmenter.FirstPieceKeepsBuffer | creat_qt_ui.py:155-161 | When a stream contains a terminator, the text buffered before the stream is the front of the first piece cut. |
| Segmenter.LastTokenTerminates | creat_qt_ui.py:158-160 | When the last token is a terminator, the buffer is empty afterwards. |
| Segmenter.WholeTokensOnly | creat_qt_ui.py:158 | The token "Hi." does not end a sentence, but "Hi" followed by "." does. |
| Segmenter.CommaExample | creat_qt_ui.py:158 | The ASCII comma is not a terminator; the fullwidth comma is. |
| Segmenter.LeadingSpaceTrimmed | creat_qt_ui.py:159 | The token " world" followed by "." emits "world.". |
| Playback.PlayNext | creat_qt_ui.py:190-205 | An empty queue changes nothing. Otherwise the head entry is removed and starts playing, and its sentence is appended to the bubble. The played-then-queued order is preserved. |
| Playback.OnTtsDone | creat_qt_ui.py:177-184 | The new entry joins the end of the queue. While the player is busy, nothing else changes. When it is idle with an empty queue, the entry plays at once and its sentence is appended to the bubble. |
| Playback.OnMediaStatus | creat_qt_ui.py:186-205 | Only EndOfMedia does anything. With an empty queue it leaves the player idle. Otherwise exactly the head entry leaves the queue, starts playing, and its sentence is appended to the bubble. |
| Playback.StepKeepsIdleEmpty | creat_qt_ui.py:177-205 | One event keeps the invariant "an idle player has an empty queue". |
| Playback.RunKeepsIdleEmpty | creat_qt_ui.py:177-205 | Any event sequence keeps "an idle player has an empty queue", so a ready file never waits while nothing plays. |
| Playback.StepIsFifo | creat_qt_ui.py:179-193 | After one event, played-then-queued entries are the old ones plus the delivered file, in order. |
| Playback.RunIsFifo | creat_qt_ui.py:177-205 | Over any event sequence, entries start playing in exactly the order their files were delivered: none lost, duplicated or reordered. |
| Playback.StepShows | creat_qt_ui.py:193-196 | The bubble grows by exactly the sentences of the entries that started playing in the step. |
| Playback.RunShows | creat_qt_ui.py:190-205 | Over any event sequence, the bubble text is the old text followed by the sentences of the entries started, in starting order. |
| Playback.SpokenAppend | creat_qt_ui.py:196 | The bubble text of two runs of started entries is the concatenation of their texts. |
| Playback.StepStartsOnlyWhenFree | creat_qt_ui.py:183-188 | An event starts at most one entry. It does so only if the player was idle or the event is EndOfMedia. |
| Playback.CompletionOrder | creat_qt_ui.py:177-184 | If the second sentence's file is ready first, it is shown and played first. |
| LipSync.FirstCoverFrom | lipsync_player.py:66-69 | The search from a position returns the first later cue whose half-open interval contains the time, or reports that none does. |
| LipSync.FirstCover | lipsync_player.py:66-69 | The chosen cue is the first that contains the time. There is none exactly when no cue contains it. |
| LipSync.SelectShape | lipsync_player.py:64-70 | The shape is the value of the first cue containing the time; when no cue contains it, the held shape. |
| LipSync.NewPlayer | lipsync_player.py:26-50 | A new player shows the closed mouth "X" and is not started. |
| LipSync.Start | lipsync_player.py:55-58 | Starting records the start time and changes nothing else. A non-zero time makes the player started. |
| LipSync.UpdateMouth | lipsync_player.py:60-81 | An unstarted player does nothing. A started one selects the shape at elapsed time now minus start and holds it. It draws the prefix_shape.png overlay exactly when the shape is one of A–H or X. |
| LipSync.TicksHold | lipsync_player.py:60-70 | After any run of ticks, the held shape is the shape from folding the hold rule over the elapsed times. |
| LipSync.HeldAfterCons | lipsync_player.py:65-70 | The hold rule over a tick followed by more ticks continues from that tick's selected shape. |
| LipSync.OrderedPicksCover | lipsync_player.py:66-69 | With ordered, non-overlapping cues, any cue containing the time is the one selected. |
| LipSync.BoundaryPicksNext | lipsync_player.py:67 | At the exact end of one cue, where the next begins, the next cue's shape is selected. |
| LipSync.TimelineExample | lipsync_player.py:60-70 | Cues A on [0, 0.5) and B on [0.5, 1.2), started at 10.0, show A at 0.3, B at 0.5, and still B at 1.5. |
| Workers.Tokens | workers.py:79-83 | Every token is non-empty, and there are never more tokens than chunks. |
| Workers.TokensOne | workers.py:79-83 | A single chunk yields its content as one token when the content is present and non-empty, and no token otherwise. |
| Workers.TokensAppend | workers.py:79-83 | The tokens of two consecutive parts of a stream are the first part's tokens followed by the second's. Chunks are never merged, and stream order is kept. |
| Workers.RunChat | workers.py:69-86 | The request is the history plus the user message. The tokens are the kept chunks and the reply is their concatenation. The history ends with the user message then the assistant reply. |
| Workers.TokensCarryAllContent | workers.py:78-84 | The joined reply equals all chunk contents concatenated: dropping empty chunks loses no text. |
| Workers.TtsFilename | workers.py:99-100 | The file name encodes the millisecond timestamp so that it can be read back. |
| Workers.TtsFilenameCollides | workers.py:99-100 | Two speech workers get the same file name exactly when they read the same millisecond. |
| Workers.ReplaceAll | workers.py:30 | Text with no occurrence of the pattern is left unchanged. |
| Workers.ReplaceAllFirst | workers.py:30 | When a first occurrence exists, the text before it is kept, the occurrence is replaced, and replacement continues after it. |
| Workers.LipSyncJsonName | workers.py:30 | A name without ".wav" is used unchanged as the cue file name. |
| Workers.SpeechFileJsonName | workers.py:30 | For a speech file name, the cue file is "tts_files/temp_" + timestamp + "_lipsync.json". |
| Workers.RunLipSync | workers.py:27-55 | The command is the Rhubarb call with JSON output into the derived name. It finishes with the read cues exactly when the process ran, exited 0 and the file was read. A failure to run reports its message; a non-zero exit reports stderr; after a zero exit, a failed read reports the read's message. |
| Workers.FailedRunIgnoresFile | workers.py:43-45 | After a non-zero exit the outcome does not depend on the cue file. |
| Workers.SpeechFileLipSync | workers.py:27-52 | For a speech worker's file, Rhubarb is told to write tts_files/temp_ + timestamp + _lipsync.json. Reported cues are what reading exactly that file returned. |
| Agent.Initial | creat_qt_ui.py:87-95 | The window starts with an empty history, no partial sentence, no pending speech jobs, an empty queue, an idle player and nothing played. No agent bubble exists yet, and the program is running. |
| Agent.OnToken | creat_qt_ui.py:153-175 | A non-terminator token only grows the partial sentence. A terminator clears it, records the stripped sentence and starts one speech job for it. The new job gets the next worker identity, and the counter advances. The player and history are untouched. |
| Agent.FindJob | creat_qt_ui.py:180 | The lookup returns the position of the first pending job with the given id, the one `list.remove` removes. Otherwise it reports that no pending job has the id. |
| Agent.OnTtsDone | creat_qt_ui.py:177-196 | An id that is not pending changes nothing. If the player is busy or a bubble exists, the job leaves the pending list and its file and sentence go to the playback queue. If the player is idle and no bubble exists, showing the sentence raises and the program ends. The partial sentence, history and bubble are untouched. |
| Agent.OnMediaStatus | creat_qt_ui.py:186-196 | At EndOfMedia with a file queued and no bubble, the program ends. Otherwise the status goes to the playback machine and nothing else changes. |
| Agent.OnClearInput | creat_qt_ui.py:97-100 | The chat history is emptied and the agent bubble is deleted with the list. The partial sentence, pending jobs, queue and player are untouched. |
| Agent.OnSend | creat_qt_ui.py:102-121 | Blank input is ignored. Otherwise the stripped text joins the history as the user message, and a new empty agent bubble exists for later sentences. |
| Agent.OnReplyFinished | creat_qt_ui.py:163-167 | The assistant reply joins the history; nothing else changes. |
| Agent.Halt | creat_qt_ui.py:190-196 | The program's end after an exception escapes a slot: the state is marked ended and nothing else changes. |
| Agent.Step | creat_qt_ui.py:81-173 | Each event reaches its slot (Send, token, reply finished, Clear, speech file ready, media status), and a speech worker's report carries the file named after its clock reading. Once the program has ended, nothing changes. Only a file starting can end it, only a send creates a bubble, and only Clear deletes one. |
| Agent.ShowsOnlyIntoBubble | creat_qt_ui.py:183-196 | A step starts a sound file only while the agent bubble exists and the program runs. With no bubble, EndOfMedia ends the program exactly when a file is queued. |
| Agent.SendThenCut | creat_qt_ui.py:102-175 | From the start, after a send, a word and a terminator, exactly one speech worker runs, numbered 0, and nothing plays. |
| Agent.ReadyAfterClearHalts | creat_qt_ui.py:97-196 | If Clear comes while a speech worker runs and the player is idle, that worker's ready file ends the program. |
| Agent.ClearThenReadyHalts | creat_qt_ui.py:97-196 | Send "hi", tokens "a" and ".", Clear, then the speech file ready: the program ends. |
| Agent.InitialValid | creat_qt_ui.py:87-95 | The starting state satisfies the accounting invariant. |
| Agent.TtsDoneAccounted | creat_qt_ui.py:177-184 | A finished speech job moves its sentence from pending to queued or playing without losing or duplicating it. |
| Agent.MediaAccounted | creat_qt_ui.py:186-188 | The end of a sound file moves a sentence from queued to played without losing or duplicating it. |
| Agent.TokenAccounted | creat_qt_ui.py:153-175 | A cut sentence is recorded once and is pending exactly once. |
| Agent.StepKeepsFresh | creat_qt_ui.py:169-184 | Every event keeps running worker identities distinct and below the next identity handed out. |
| Agent.ReportFindsOwnWorker | creat_qt_ui.py:171-180 | With fresh identities, the worker a report finds is the only running worker with that identity. After the report, no running worker has it. |
| Agent.StepKeepsValid | creat_qt_ui.py:97-205 | Every event keeps the accounting invariant, fresh worker identities and "an idle player has an empty queue". |
| Agent.RunKeepsValid | creat_qt_ui.py:97-205 | Any event sequence keeps all three invariants. |
| Agent.PlayedAtMostOnce | creat_qt_ui.py:153-205 | From the starting state, no sentence is played more often than it was cut from the reply. |
| Agent.RunTokens | creat_qt_ui.py:153-161 | Over any token stream, the window's partial sentence and the sentences it sends to speech are exactly the segmenter's buffer and sentences. The player, history and bubble are untouched. |
| Agent.LeftoverStartsNextSentence | creat_qt_ui.py:97-167 | A partial sentence left when a reply ends survives Clear and Send. The next reply's tokens, whatever they are, are segmented from it. It is the front of the first piece cut, and that piece stripped is the first new sentence. |

## Left out

- Qt widgets, layout, scrolling and pixmap painting: only the bubble text
  and the chosen overlay image path are modelled.
- QMediaPlayer is a busy flag. It is set when a file starts and cleared
  by EndOfMedia when the queue is empty. Stalled, invalid or failed media
  (a status that never reaches EndOfMedia) are not modelled.
- Threads and signal delivery are an event sequence. Any interleaving is
  a different sequence, and every sequence is covered.
- Workers.RunChat: an exception from the chat completion call or its
  stream is not modelled. The worker has no `try`, so such a run leaves
  the history with only the user message and never reports a reply; the
  contract covers only streams that end normally.
- A speech worker whose synthesis raises never reports its file. The
  agent's event sequences cover this by omitting that worker's TtsDone
  event.
- The chat completion call, pyttsx3 and the Rhubarb process are external.
  Their outputs are inputs: the chunk stream, a finished speech job, and a
  process outcome.
- JSON parsing of the cue file is an input function from file name to
  cues or an error message.
- Timestamps are `real` seconds; the 10 ms timer cadence and the clock are
  inputs. The speech worker's millisecond timestamp is a `nat` input;
  floating-point rounding of `time.time() * 1000` is not modelled.
- Halting: the program's end after an exception in a slot is a frozen
  state. The queue pop that runs just before the failing label update is
  not modelled. The `AttributeError` before the first Send (no label yet)
  and the error on a deleted label are the same outcome.
- `print` calls, `deleteLater`, window titles and the `__main__` demo blocks
  are not modelled; they affect no state the core reads.
- The lip-sync worker's unused `lipsync_data` parameter is not modelled.
- The duplicated worker classes at the top of creat_qt_ui.py are the same
  code as workers.py. They are modelled once, from workers.py.
- The shared chat-history list is modelled in the window's state. The
  worker's user append is attributed to Send. Its assistant append is
  attributed to ReplyFinished.
- Speech worker objects are numbered in creation order. The lambda that
  binds each worker's own sentence and object (creat_qt_ui.py:171-173) is
  modelled by the number a TtsDone event carries.
- Agent.OnTtsDone: a report for a speech job that is not pending leaves the
  state unchanged. In the program this cannot arise, because each worker
  reports once and `list.remove` would raise.
- Workers.LipSyncJsonName: its own contract states only the no-".wav"
  case. Replacing each ".wav" with "_lipsync.json" is stated through
  Workers.ReplaceAllFirst and, for speech files, Workers.SpeechFileJsonName.
- Workers.ReplaceAll: its own contract states only the no-occurrence case.
  The first-occurrence behaviour is stated by Workers.ReplaceAllFirst.
