/** The three background workers: the chat worker that streams the
    assistant's reply, the speech worker that names its audio file after
    the clock, and the lip-sync worker that runs the cue extractor on an
    audio file. The chat stream, the clock reading, the extractor's exit
    status and the parsed cue file are inputs. */
module Workers {
  import opened Wrappers
  import opened Text
  import LipSync

  // ---------------------------------------------------------------------
  // Chat worker

  datatype Role = User | Assistant

  /** One entry of the role-tagged chat history. */
  datatype Message = Message(role: Role, content: string)

  /** The text a stream chunk adds to the reply when it is kept: its content
      if that is present and non-empty. */
  function Kept(chunk: Option<string>): seq<string> {
    match chunk
    case Some(w) => if w != "" then [w] else []
    case None => []
  }

  /** The tokens a stream of chunk contents yields: the non-empty contents,
      in stream order. */
  function Tokens(stream: seq<Option<string>>): (ts: seq<string>)
    ensures |ts| <= |stream|
    ensures forall i :: 0 <= i < |ts| ==> ts[i] != ""
  {
    if stream == [] then [] else Tokens(stream[..|stream| - 1]) + Kept(stream[|stream| - 1])
  }

  /** What one run of the chat worker does: the messages it sends, the
      tokens it emits one by one, the full reply it emits at the end, and the
      history it leaves behind. */
  datatype ChatRun = ChatRun(request: seq<Message>, tokens: seq<string>, reply: string, history: seq<Message>)

  /** `ChatWorker.run`: the user message joins the history before the
      request; each non-empty chunk is emitted as a token; the reply is the
      tokens joined and becomes the last history entry. */
  method RunChat(history: seq<Message>, newSentence: string, stream: seq<Option<string>>)
    returns (r: ChatRun)
    ensures r.request == history + [Message(User, newSentence)]
    ensures r.tokens == Tokens(stream)
    ensures r.reply == Concat(r.tokens)
    ensures r.history == history + [Message(User, newSentence), Message(Assistant, r.reply)]
  {
    var hist := history + [Message(User, newSentence)];
    var request := hist;
    var response: seq<string> := [];
    var i := 0;
    while i < |stream|
      invariant i <= |stream|
      invariant response == Tokens(stream[..i])
    {
      var newWord := stream[i];
      if newWord.Some? && newWord.value != "" {
        response := response + [newWord.value];
      }
      assert stream[..i + 1][..i] == stream[..i];
      i := i + 1;
    }
    assert stream[..i] == stream;
    var fullReply := Concat(response);
    hist := hist + [Message(Assistant, fullReply)];
    r := ChatRun(request, response, fullReply, hist);
  }

  /** The text of every chunk, with an absent content read as empty. */
  function AllContent(stream: seq<Option<string>>): string {
    if stream == [] then "" else AllContent(stream[..|stream| - 1]) + stream[|stream| - 1].GetOr("")
  }

  /** One chunk yields its kept content as its own token. */
  lemma TokensOne(chunk: Option<string>)
    ensures Tokens([chunk]) == Kept(chunk)
  {
    assert [chunk][..0] == [];
  }

  /** Tokens are produced chunk by chunk: the tokens of two stream parts
      are the tokens of the first followed by those of the second, so no
      two chunks are ever merged into one token. */
  lemma {:induction false} TokensAppend(a: seq<Option<string>>, b: seq<Option<string>>)
    ensures Tokens(a + b) == Tokens(a) + Tokens(b)
    decreases |b|
  {
    if b == [] {
      assert a + b == a;
    } else {
      var init := b[..|b| - 1];
      var last := b[|b| - 1];
      TokensAppend(a, init);
      assert (a + b)[..|a + b| - 1] == a + init;
      assert (a + b)[|a + b| - 1] == last;
      assert Tokens(a) + Tokens(init) + Kept(last) == Tokens(a) + (Tokens(init) + Kept(last));
    }
  }

  /** Skipping empty and absent chunks loses no text: the reply is all the
      streamed content, in order. */
  lemma {:induction false} TokensCarryAllContent(stream: seq<Option<string>>)
    ensures Concat(Tokens(stream)) == AllContent(stream)
    decreases |stream|
  {
    if stream != [] {
      var init := stream[..|stream| - 1];
      var last := stream[|stream| - 1];
      TokensCarryAllContent(init);
      ConcatAppend(Tokens(init), Kept(last));
      assert Concat(Kept(last)) == last.GetOr("") by {
        if Kept(last) != [] {
          assert Concat(Kept(last)) == last.value + Concat([]);
        }
      }
    }
  }

  // ---------------------------------------------------------------------
  // Speech worker

  const TtsPrefix: string := "tts_files/temp_"
  const WavSuffix: string := ".wav"

  /** `TTSWorker.run`: the audio file is named after the millisecond clock
      reading `timestampMs`. */
  function TtsFilename(timestampMs: nat): (name: string)
    ensures ParseTtsFilename(name) == Some(timestampMs)
  {
    var digits := Decimal(timestampMs);
    var name := TtsPrefix + digits + WavSuffix;
    assert name[..|TtsPrefix|] == TtsPrefix;
    assert name[|name| - |WavSuffix|..] == WavSuffix;
    assert name[|TtsPrefix|..|name| - |WavSuffix|] == digits;
    DecimalRoundTrip(timestampMs);
    name
  }

  /** The clock reading a speech file name was built from, if it is one. */
  function ParseTtsFilename(name: string): Option<nat> {
    if |name| < |TtsPrefix| + |WavSuffix| then None
    else if name[..|TtsPrefix|] != TtsPrefix || name[|name| - |WavSuffix|..] != WavSuffix then None
    else
      var digits := name[|TtsPrefix|..|name| - |WavSuffix|];
      if AllDigits(digits) then Some(ParseDecimal(digits)) else None
  }

  /** Two speech workers share a file name exactly when they read the same
      millisecond from the clock. */
  lemma TtsFilenameCollides(a: nat, b: nat)
    ensures TtsFilename(a) == TtsFilename(b) <==> a == b
  {
    if TtsFilename(a) == TtsFilename(b) {
      assert ParseTtsFilename(TtsFilename(a)) == Some(a);
    }
  }

  // ---------------------------------------------------------------------
  // Lip-sync worker

  /** `pat` occurs in `s` at position `i`. */
  predicate OccursAt(s: string, pat: string, i: nat) {
    i + |pat| <= |s| && s[i..i + |pat|] == pat
  }

  ghost predicate Contains(s: string, pat: string) {
    exists i: nat :: i <= |s| && OccursAt(s, pat, i)
  }

  /** An occurrence in `s[1..]` is an occurrence in `s`, one further on. */
  lemma ShiftOccurrence(s: string, pat: string, i: nat)
    requires s != [] && OccursAt(s[1..], pat, i)
    ensures OccursAt(s, pat, i + 1)
  {
    assert s[i + 1..i + 1 + |pat|] == s[1..][i..i + |pat|];
  }

  lemma ContainsTail(s: string, pat: string)
    requires s != [] && Contains(s[1..], pat)
    ensures Contains(s, pat)
  {
    var i: nat :| i <= |s[1..]| && OccursAt(s[1..], pat, i);
    ShiftOccurrence(s, pat, i);
  }

  /** `s.replace(pat, rep)`: every occurrence of `pat`, scanning left to
      right without overlaps, is replaced by `rep`. */
  function ReplaceAll(s: string, pat: string, rep: string): (r: string)
    requires pat != []
    ensures !Contains(s, pat) ==> r == s
    decreases |s|
  {
    if |s| < |pat| then s
    else if s[..|pat|] == pat then
      assert OccursAt(s, pat, 0);
      rep + ReplaceAll(s[|pat|..], pat, rep)
    else
      assert !Contains(s, pat) ==> !Contains(s[1..], pat) by {
        if Contains(s[1..], pat) {
          ContainsTail(s, pat);
        }
      }
      HeadTail(s);
      [s[0]] + ReplaceAll(s[1..], pat, rep)
  }

  /** When the first occurrence of `pat` in `a + pat + b` is the one after
      `a`, the text before it is kept and the scan resumes after it. */
  lemma {:induction false} ReplaceAllFirst(a: string, pat: string, rep: string, b: string)
    requires pat != []
    requires !Contains(a + pat[..|pat| - 1], pat)
    ensures ReplaceAll(a + pat + b, pat, rep) == a + rep + ReplaceAll(b, pat, rep)
    decreases |a|
  {
    if a == [] {
      MatchAtStart(pat, rep, b);
    } else {
      SkipBeforeMatch(a, pat, rep, b);
      ReplaceAllFirst(a[1..], pat, rep, b);
      ConsBack(a, rep, ReplaceAll(b, pat, rep), ReplaceAll(a[1..] + pat + b, pat, rep));
    }
  }

  /** An occurrence at the very start is replaced and the scan resumes
      after it. */
  lemma MatchAtStart(pat: string, rep: string, b: string)
    requires pat != []
    ensures ReplaceAll([] + pat + b, pat, rep) == [] + rep + ReplaceAll(b, pat, rep)
  {
    assert [] + pat + b == pat + b;
    ReplaceAllMatch(pat + b, pat, rep);
    assert (pat + b)[|pat|..] == b;
  }

  /** A character of `a` before the first occurrence is copied and the scan
      moves on, still with no earlier occurrence. */
  lemma SkipBeforeMatch(a: string, pat: string, rep: string, b: string)
    requires pat != [] && a != []
    requires !Contains(a + pat[..|pat| - 1], pat)
    ensures ReplaceAll(a + pat + b, pat, rep) == [a[0]] + ReplaceAll(a[1..] + pat + b, pat, rep)
    ensures !Contains(a[1..] + pat[..|pat| - 1], pat)
  {
    var s := a + pat + b;
    NoEarlyMatch(a, pat, b);
    ReplaceAllSkip(s, pat, rep);
    assert s[1..] == a[1..] + pat + b;
    NoMatchInTail(a, pat);
  }

  /** Dropping the first character of `a` keeps `a + pat[..|pat| - 1]` free
      of `pat`. */
  lemma NoMatchInTail(a: string, pat: string)
    requires pat != [] && a != []
    requires !Contains(a + pat[..|pat| - 1], pat)
    ensures !Contains(a[1..] + pat[..|pat| - 1], pat)
  {
    var x := a + pat[..|pat| - 1];
    assert x[1..] == a[1..] + pat[..|pat| - 1];
    if Contains(x[1..], pat) {
      ContainsTail(x, pat);
    }
  }

  lemma HeadTail(s: string)
    requires s != []
    ensures s == [s[0]] + s[1..]
  {
  }

  lemma ConsBack(a: string, x: string, z: string, y: string)
    requires a != [] && y == a[1..] + x + z
    ensures [a[0]] + y == a + x + z
  {
    assert [a[0]] + a[1..] == a;
  }

  lemma ReplaceAllMatch(s: string, pat: string, rep: string)
    requires pat != [] && |s| >= |pat| && s[..|pat|] == pat
    ensures ReplaceAll(s, pat, rep) == rep + ReplaceAll(s[|pat|..], pat, rep)
  {
  }

  lemma ReplaceAllSkip(s: string, pat: string, rep: string)
    requires pat != [] && |s| >= |pat| && s[..|pat|] != pat
    ensures ReplaceAll(s, pat, rep) == [s[0]] + ReplaceAll(s[1..], pat, rep)
  {
  }

  /** With no occurrence of `pat` in `a + pat[..|pat| - 1]`, a non-empty `a`
      does not start `a + pat + b` with `pat`. */
  lemma NoEarlyMatch(a: string, pat: string, b: string)
    requires pat != [] && a != []
    requires !Contains(a + pat[..|pat| - 1], pat)
    ensures |a + pat + b| >= |pat| && (a + pat + b)[..|pat|] != pat
  {
    var s := a + pat + b;
    var x := a + pat[..|pat| - 1];
    assert |x| >= |pat|;
    assert x[0..|pat|] == s[..|pat|];
    assert !OccursAt(x, pat, 0);
  }

  const LipSyncSuffix: string := "_lipsync.json"

  /** The cue file name for an audio file: every `.wav` in the name
      becomes `_lipsync.json`. */
  function LipSyncJsonName(wavFile: string): (jsonName: string)
    ensures !Contains(wavFile, WavSuffix) ==> jsonName == wavFile
  {
    ReplaceAll(wavFile, WavSuffix, LipSyncSuffix)
  }

  /** The speech worker's file for clock reading `timestampMs` gets the cue
      file `tts_files/temp_<timestampMs>_lipsync.json`. */
  lemma SpeechFileJsonName(timestampMs: nat)
    ensures LipSyncJsonName(TtsFilename(timestampMs))
         == TtsPrefix + Decimal(timestampMs) + LipSyncSuffix
  {
    var a := TtsPrefix + Decimal(timestampMs);
    NoWavBeforeSuffix(a);
    assert TtsFilename(timestampMs) == a + WavSuffix + "";
    ReplaceAllFirst(a, WavSuffix, LipSyncSuffix, "");
    assert a + LipSyncSuffix + "" == a + LipSyncSuffix;
  }

  /** `tts_files/temp_<digits>.wa` contains no `.wav`: its only `.` is three
      characters from the end. */
  lemma NoWavBeforeSuffix(a: string)
    requires |a| >= |TtsPrefix| && a[..|TtsPrefix|] == TtsPrefix && AllDigits(a[|TtsPrefix|..])
    ensures !Contains(a + WavSuffix[..|WavSuffix| - 1], WavSuffix)
  {
    var x := a + WavSuffix[..|WavSuffix| - 1];
    forall i: nat | i <= |x|
      ensures !OccursAt(x, WavSuffix, i)
    {
      if i + |WavSuffix| <= |x| {
        assert x[i] == a[i];
        if i < |TtsPrefix| {
          assert a[i] == TtsPrefix[i];
        } else {
          assert a[i] == a[|TtsPrefix|..][i - |TtsPrefix|];
        }
        assert x[i..i + |WavSuffix|][0] != WavSuffix[0];
      }
    }
  }

  /** How the extractor process ended: its exit status and error output. */
  datatype Completed = Completed(returncode: int, stderr: string)

  /** The two signals the worker can emit. */
  datatype LipSyncSignal = Finished(cues: seq<LipSync.Cue>) | Error(message: string)

  /** One run: the cue file name, the extractor command line, and the
      single signal emitted. */
  datatype LipSyncJob = LipSyncJob(jsonName: string, command: seq<string>, signal: LipSyncSignal)

  const RhubarbExe: string := ".\\Rhubarb-Lip-Sync\\rhubarb.exe"

  /** `LipSyncWorker.run`. `process` is how running the extractor went (or
      the message of the exception it raised); `readCues` is reading the
      `mouthCues` list from a file (or the message of the exception that
      reading, parsing or the key lookup raised). */
  function RunLipSync(
    wavFile: string,
    process: Result<Completed>,
    readCues: string -> Result<seq<LipSync.Cue>>): (r: LipSyncJob)
    ensures r.jsonName == LipSyncJsonName(wavFile)
    ensures r.command == [RhubarbExe, "-f", "json", wavFile, "-o", r.jsonName]
    ensures r.signal.Finished? <==>
              process.Ok? && process.value.returncode == 0 && readCues(r.jsonName).Ok?
    ensures r.signal.Finished? ==> r.signal.cues == readCues(r.jsonName).value
    ensures process.Err? ==> r.signal == Error(process.message)
    ensures process.Ok? && process.value.returncode != 0 ==> r.signal == Error(process.value.stderr)
    ensures process.Ok? && process.value.returncode == 0 && readCues(r.jsonName).Err? ==>
              r.signal == Error(readCues(r.jsonName).message)
  {
    var jsonName := LipSyncJsonName(wavFile);
    var command := [RhubarbExe, "-f", "json", wavFile, "-o", jsonName];
    var signal :=
      match process
      case Err(e) => Error(e)
      case Ok(done) =>
        if done.returncode != 0 then Error(done.stderr)
        else
          match readCues(jsonName)
          case Err(e) => Error(e)
          case Ok(cues) => Finished(cues);
    LipSyncJob(jsonName, command, signal)
  }

  /** A failed extractor run never looks at the cue file: whatever the file
      holds, the outcome is the same error. */
  lemma FailedRunIgnoresFile(
    wavFile: string,
    done: Completed,
    readA: string -> Result<seq<LipSync.Cue>>,
    readB: string -> Result<seq<LipSync.Cue>>)
    requires done.returncode != 0
    ensures RunLipSync(wavFile, Ok(done), readA) == RunLipSync(wavFile, Ok(done), readB)
  {
  }

  /** For a speech file, the extractor writes its cues next to it under the
      same timestamp, and the cues reported are the ones read back from
      exactly that file. */
  lemma SpeechFileLipSync(
    timestampMs: nat,
    process: Result<Completed>,
    readCues: string -> Result<seq<LipSync.Cue>>)
    ensures var cueFile := TtsPrefix + Decimal(timestampMs) + LipSyncSuffix;
            var job := RunLipSync(TtsFilename(timestampMs), process, readCues);
            && job.command == [RhubarbExe, "-f", "json", TtsFilename(timestampMs), "-o", cueFile]
            && (job.signal.Finished? ==> readCues(cueFile) == Ok(job.signal.cues))
  {
    SpeechFileJsonName(timestampMs);
  }
}
