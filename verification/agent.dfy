/** The agent window's main-thread state and the slots that change it:
    streamed tokens are cut into sentences and handed to speech workers,
    finished speech files join the playback queue, and the player plays
    them one at a time into the current agent bubble. Worker completions
    and player status changes arrive as an arbitrary sequence of events. */
module Agent {
  import opened Wrappers
  import opened Text
  import Segmenter
  import Playback
  import Workers

  /** A running speech worker and the sentence it speaks. */
  datatype TtsJob = TtsJob(id: nat, sentence: string)

  /** The chat history, the partial sentence, the running speech workers
      (with the identity the next one gets), the playback queue and player,
      every sentence handed to speech synthesis so far, in order, whether
      the agent bubble the player's text describes still exists in the
      list, and whether an exception in a slot has ended the program. */
  datatype AgentState = AgentState(
    history: seq<Workers.Message>,
    partial: string,
    jobs: seq<TtsJob>,
    nextJob: nat,
    player: Playback.Player,
    sent: seq<string>,
    hasBubble: bool,
    halted: bool)

  /** The window as constructed: everything empty, player idle, and no agent
      bubble yet (the bubble is made by the first send). */
  function Initial(): (a: AgentState)
    ensures a.partial == "" && a.jobs == [] && a.sent == []
    ensures a.player.queue == [] && !a.player.playing
    ensures !a.hasBubble && !a.halted
    ensures a.history == [] && a.player.played == [] && a.player.bubble == ""
  {
    AgentState([], "", [], 0, Playback.Player([], false, "", []), [], false, false)
  }

  /** What reaches the main thread. A speech worker reports the file it
      named after the millisecond clock reading it took. */
  datatype Event =
    | Send(input: string)
    | Token(token: string)
    | ReplyFinished(fullText: string)
    | ClearInput
    | TtsDone(job: nat, timestampMs: nat)
    | MediaStatusChanged(status: Playback.MediaStatus)

  /** `update_ai_response`: the token goes through the segmenter, and a
      finished sentence goes to a new speech worker. */
  function OnToken(a: AgentState, token: string): (r: AgentState)
    ensures !Segmenter.IsTerminator(token) ==> r == a.(partial := a.partial + token)
    ensures Segmenter.IsTerminator(token) ==>
              var sentence := Strip(a.partial + token);
              && Segmenter.CutFrom(a.partial + token, sentence)
              && r.partial == ""
              && r.sent == a.sent + [sentence]
              && r.jobs == a.jobs + [TtsJob(a.nextJob, sentence)]
              && r.nextJob == a.nextJob + 1
    ensures r.player == a.player && r.history == a.history
    ensures r.hasBubble == a.hasBubble && r.halted == a.halted
  {
    var fed := Segmenter.Feed(a.partial, token);
    match fed.sentence
    case None => a.(partial := fed.buffer)
    case Some(sentence) =>
      Segmenter.FeedCutsSentence(a.partial, token);
      a.(partial := fed.buffer,
         jobs := a.jobs + [TtsJob(a.nextJob, sentence)],
         nextJob := a.nextJob + 1,
         sent := a.sent + [sentence])
  }

  /** The position of the first running worker with identity `id`, if any,
      as `list.remove` finds it. */
  function FindJob(jobs: seq<TtsJob>, id: nat): (k: Option<nat>)
    ensures k.Some? ==> k.value < |jobs| && jobs[k.value].id == id
    ensures k.Some? ==> forall i :: 0 <= i < k.value ==> jobs[i].id != id
    ensures k.None? ==> forall i :: 0 <= i < |jobs| ==> jobs[i].id != id
  {
    if jobs == [] then None
    else if jobs[0].id == id then Some(0)
    else
      match FindJob(jobs[1..], id)
      case Some(k) => Some(k + 1)
      case None => None
  }

  /** The program after an uncaught exception in a slot: it has ended, and
      nothing changes any more. */
  function Halt(a: AgentState): (r: AgentState)
    ensures r.halted
    ensures r.(halted := a.halted) == a
  {
    a.(halted := true)
  }

  /** `on_tts_done` for worker `id`: the worker leaves the running list and
      its file and sentence join the playback queue. A worker reports once,
      so an identity that is not running delivers nothing. When the player
      is idle the file starts at once, and showing its sentence needs the
      agent bubble: without one, the label update raises and the program
      ends. */
  function OnTtsDone(a: AgentState, id: nat, filename: string): (r: AgentState)
    ensures FindJob(a.jobs, id).None? ==> r == a
    ensures FindJob(a.jobs, id).Some? && !a.player.playing && !a.hasBubble ==> r == Halt(a)
    ensures FindJob(a.jobs, id).Some? && (a.player.playing || a.hasBubble) ==>
              var k := FindJob(a.jobs, id).value;
              && r.jobs == a.jobs[..k] + a.jobs[k + 1..]
              && r.player == Playback.OnTtsDone(a.player, filename, a.jobs[k].sentence)
              && r.halted == a.halted
    ensures r.partial == a.partial && r.sent == a.sent && r.history == a.history
    ensures r.hasBubble == a.hasBubble && r.nextJob == a.nextJob
  {
    match FindJob(a.jobs, id)
    case None => a
    case Some(k) =>
      if !a.player.playing && !a.hasBubble then Halt(a)
      else
        a.(jobs := a.jobs[..k] + a.jobs[k + 1..],
           player := Playback.OnTtsDone(a.player, filename, a.jobs[k].sentence))
  }

  /** `on_media_status_changed`: at the end of a file the next queued file
      starts, and showing its sentence needs the agent bubble; without one
      the program ends. */
  function OnMediaStatus(a: AgentState, status: Playback.MediaStatus): (r: AgentState)
    ensures status == Playback.EndOfMedia && a.player.queue != [] && !a.hasBubble ==> r == Halt(a)
    ensures status != Playback.EndOfMedia || a.player.queue == [] || a.hasBubble ==>
              r == a.(player := Playback.OnMediaStatus(a.player, status))
  {
    if status == Playback.EndOfMedia && a.player.queue != [] && !a.hasBubble then Halt(a)
    else a.(player := Playback.OnMediaStatus(a.player, status))
  }

  /** `clear_input`: the chat history is emptied, and clearing the list
      widget deletes the agent bubble. The partial sentence, the running
      workers, the queue and the player go on as they are. */
  function OnClearInput(a: AgentState): (r: AgentState)
    ensures r.history == [] && !r.hasBubble
    ensures r.partial == a.partial && r.jobs == a.jobs && r.player == a.player && r.sent == a.sent
    ensures r.nextJob == a.nextJob && r.halted == a.halted
  {
    a.(history := [], hasBubble := false)
  }

  /** `record_conversation` with the text `input` in the entry box: blank
      input is ignored; otherwise (through `record_agent_response` and the
      start of the chat worker) the stripped message joins the history and a
      new, empty agent bubble becomes the one sentences are shown in. */
  function OnSend(a: AgentState, input: string): (r: AgentState)
    ensures AllSpace(input) ==> r == a
    ensures !AllSpace(input) ==>
              && r.history == a.history + [Workers.Message(Workers.User, Strip(input))]
              && r.player == a.player.(bubble := "")
              && r.hasBubble
              && Strip(input) != []
    ensures r.partial == a.partial && r.jobs == a.jobs && r.sent == a.sent
    ensures r.nextJob == a.nextJob && r.halted == a.halted
  {
    var text := Strip(input);
    if text == [] then a
    else
      a.(history := a.history + [Workers.Message(Workers.User, text)],
         player := a.player.(bubble := ""),
         hasBubble := true)
  }

  /** The end of the chat worker and `finish_ai_item`: the reply joins the
      history; the partial sentence is not flushed and the queue is not
      touched. */
  function OnReplyFinished(a: AgentState, fullText: string): (r: AgentState)
    ensures r.history == a.history + [Workers.Message(Workers.Assistant, fullText)]
    ensures r.partial == a.partial && r.jobs == a.jobs && r.player == a.player && r.sent == a.sent
    ensures r.hasBubble == a.hasBubble && r.nextJob == a.nextJob && r.halted == a.halted
  {
    a.(history := a.history + [Workers.Message(Workers.Assistant, fullText)])
  }

  /** The slot wiring: each event goes to its handler, a speech worker's
      report carries the file named after its clock reading, and once the
      program has ended nothing changes. Only a file starting can end the
      program, only a send makes a bubble, and only Clear deletes one. */
  function Step(a: AgentState, e: Event): (r: AgentState)
    ensures a.halted ==> r == a
    ensures !a.halted && e.Send? ==> r == OnSend(a, e.input)
    ensures !a.halted && e.Token? ==> r == OnToken(a, e.token)
    ensures !a.halted && e.ReplyFinished? ==> r == OnReplyFinished(a, e.fullText)
    ensures !a.halted && e == ClearInput ==> r == OnClearInput(a)
    ensures !a.halted && e.TtsDone? ==> r == OnTtsDone(a, e.job, Workers.TtsFilename(e.timestampMs))
    ensures !a.halted && e.MediaStatusChanged? ==> r == OnMediaStatus(a, e.status)
    ensures !a.halted && r.halted ==> e.TtsDone? || e.MediaStatusChanged?
    ensures !a.hasBubble && r.hasBubble ==> e.Send?
    ensures a.hasBubble && !r.hasBubble ==> e == ClearInput
  {
    if a.halted then a
    else
      match e
      case Send(m) => OnSend(a, m)
      case Token(t) => OnToken(a, t)
      case ReplyFinished(t) => OnReplyFinished(a, t)
      case ClearInput => OnClearInput(a)
      case TtsDone(id, ms) => OnTtsDone(a, id, Workers.TtsFilename(ms))
      case MediaStatusChanged(s) => OnMediaStatus(a, s)
  }

  function Run(a: AgentState, events: seq<Event>): AgentState
    decreases |events|
  {
    if events == [] then a else Run(Step(a, events[0]), events[1..])
  }

  lemma {:induction false} RunAppend(a: AgentState, xs: seq<Event>, ys: seq<Event>)
    ensures Run(a, xs + ys) == Run(Run(a, xs), ys)
    decreases |xs|
  {
    if xs == [] {
      assert xs + ys == ys;
    } else {
      assert (xs + ys)[0] == xs[0];
      assert (xs + ys)[1..] == xs[1..] + ys;
      RunAppend(Step(a, xs[0]), xs[1..], ys);
    }
  }

  // ---------------------------------------------------------------------
  // Sentences are shown only in a live bubble

  /** A sentence is shown (its file started) only while the agent bubble
      exists; and with no bubble, a file that would start ends the
      program instead. */
  lemma ShowsOnlyIntoBubble(a: AgentState, e: Event)
    ensures |Step(a, e).player.played| > |a.player.played| ==> a.hasBubble && !a.halted
    ensures !a.halted && !a.hasBubble && e == MediaStatusChanged(Playback.EndOfMedia) ==>
              (Step(a, e).halted <==> a.player.queue != [])
  {
    if !a.halted {
      match e
      case TtsDone(id, ms) =>
        var k := FindJob(a.jobs, id);
        if k.Some? && a.player.playing {
          var p := a.player;
          var q := Playback.OnTtsDone(p, Workers.TtsFilename(ms), a.jobs[k.value].sentence);
          assert q.played == p.played;
        }
      case MediaStatusChanged(s) =>
        if s == Playback.EndOfMedia && a.player.queue == [] {
          assert Playback.PlayNext(a.player.(playing := false)).played == a.player.played;
        }
      case _ =>
    }
  }

  lemma RunCons(a: AgentState, e: Event, rest: seq<Event>)
    ensures Run(a, [e] + rest) == Run(Step(a, e), rest)
  {
    assert ([e] + rest)[1..] == rest;
  }

  /** After a send, a token and a terminator, the first speech worker is
      running and nothing has been played. */
  lemma SendThenCut(input: string, word: string, terminator: string)
    requires !AllSpace(input)
    requires !Segmenter.IsTerminator(word) && Segmenter.IsTerminator(terminator)
    ensures var a := Run(Initial(), [Send(input), Token(word), Token(terminator)]);
            && |a.jobs| == 1 && a.jobs[0].id == 0
            && !a.player.playing && a.player.queue == [] && !a.halted
  {
    var a0 := Initial();
    var a1 := Step(a0, Send(input));
    var a2 := Step(a1, Token(word));
    var a3 := Step(a2, Token(terminator));
    assert a2.jobs == [] && a2.nextJob == 0;
    RunCons(a2, Token(terminator), []);
    RunCons(a1, Token(word), [Token(terminator)]);
    RunCons(a0, Send(input), [Token(word), Token(terminator)]);
  }

  /** Clearing the window while a worker runs and the player is idle: when
      that worker's file is ready, it would start with no bubble to show its
      sentence in, and the program ends. */
  lemma ReadyAfterClearHalts(a: AgentState, id: nat, ms: nat)
    requires !a.halted && !a.player.playing && FindJob(a.jobs, id).Some?
    ensures Run(a, [ClearInput, TtsDone(id, ms)]).halted
  {
    var a1 := Step(a, ClearInput);
    RunCons(a1, TtsDone(id, ms), []);
    RunCons(a, ClearInput, [TtsDone(id, ms)]);
  }

  /** The smallest such run: send, one sentence, clear, file ready. */
  lemma ClearThenReadyHalts()
    ensures Run(Initial(), [Send("hi"), Token("a"), Token("."), ClearInput, TtsDone(0, 7)]).halted
  {
    assert !AllSpace("hi") by { assert !IsSpace("hi"[0]); }
    assert !Segmenter.IsTerminator("a") && Segmenter.IsTerminator(".");
    SendThenCut("hi", "a", ".");
    var first := [Send("hi"), Token("a"), Token(".")];
    var a := Run(Initial(), first);
    assert FindJob(a.jobs, 0) == Some(0);
    ReadyAfterClearHalts(a, 0, 7);
    RunAppend(Initial(), first, [ClearInput, TtsDone(0, 7)]);
    assert first + [ClearInput, TtsDone(0, 7)]
        == [Send("hi"), Token("a"), Token("."), ClearInput, TtsDone(0, 7)];
  }

  // ---------------------------------------------------------------------
  // Every sentence is spoken at most once

  /** The sentences of `xs`, in order, read by `sentence`. */
  function Sentences<T>(xs: seq<T>, sentence: T -> string): (r: seq<string>)
    ensures |r| == |xs| && forall i :: 0 <= i < |xs| ==> r[i] == sentence(xs[i])
  {
    seq(|xs|, i requires 0 <= i < |xs| => sentence(xs[i]))
  }

  lemma SentencesAppend<T>(x: seq<T>, y: seq<T>, sentence: T -> string)
    ensures Sentences(x + y, sentence) == Sentences(x, sentence) + Sentences(y, sentence)
  {
  }

  function JobSentence(j: TtsJob): string {
    j.sentence
  }

  function EntrySentence(e: Playback.Entry): string {
    e.sentence
  }

  function JobSentences(jobs: seq<TtsJob>): seq<string> {
    Sentences(jobs, JobSentence)
  }

  function EntrySentences(entries: seq<Playback.Entry>): seq<string> {
    Sentences(entries, EntrySentence)
  }

  /** Where each sentence handed to synthesis is: with a running worker,
      waiting in the queue, or already played, and in exactly one of them. */
  predicate Accounted(a: AgentState) {
    multiset(a.sent)
      == multiset(JobSentences(a.jobs))
       + (multiset(EntrySentences(a.player.played)) + multiset(EntrySentences(a.player.queue)))
  }

  /** Every running worker has an identity below the next one handed out,
      and no two running workers share one: each `TTSWorker` is its own
      object, bound to its own sentence. */
  predicate FreshIds(a: AgentState) {
    && (forall i :: 0 <= i < |a.jobs| ==> a.jobs[i].id < a.nextJob)
    && (forall i, j :: 0 <= i < j < |a.jobs| ==> a.jobs[i].id != a.jobs[j].id)
  }

  /** The invariant of the window: every sentence is accounted for, worker
      identities are fresh, and an idle player has nothing waiting. */
  predicate Valid(a: AgentState) {
    Accounted(a) && FreshIds(a) && Playback.IdleMeansEmpty(a.player)
  }

  lemma InitialValid()
    ensures Valid(Initial())
  {
  }

  /** Two ways of splitting the same entries hold the same sentences. */
  lemma SameEntries(x: seq<Playback.Entry>, y: seq<Playback.Entry>, z: seq<Playback.Entry>, w: seq<Playback.Entry>)
    requires x + y == z + w
    ensures multiset(EntrySentences(x)) + multiset(EntrySentences(y))
         == multiset(EntrySentences(z)) + multiset(EntrySentences(w))
  {
    SentencesAppend(x, y, EntrySentence);
    SentencesAppend(z, w, EntrySentence);
    var ex, ey, ez, ew := EntrySentences(x), EntrySentences(y), EntrySentences(z), EntrySentences(w);
    assert ex + ey == ez + ew;
    assert multiset(ex + ey) == multiset(ex) + multiset(ey);
    assert multiset(ez + ew) == multiset(ez) + multiset(ew);
  }

  /** Removing the worker at position `k` removes exactly its sentence. */
  lemma RemoveJob(jobs: seq<TtsJob>, k: nat)
    requires k < |jobs|
    ensures multiset(JobSentences(jobs))
         == multiset(JobSentences(jobs[..k] + jobs[k + 1..])) + multiset{jobs[k].sentence}
  {
    SplitJobs(jobs, k);
    var x, z := JobSentences(jobs[..k]), JobSentences(jobs[k + 1..]);
    MultisetOfThree(x, [jobs[k].sentence], z);
  }

  lemma SplitJobs(jobs: seq<TtsJob>, k: nat)
    requires k < |jobs|
    ensures JobSentences(jobs)
         == JobSentences(jobs[..k]) + [jobs[k].sentence] + JobSentences(jobs[k + 1..])
    ensures JobSentences(jobs[..k] + jobs[k + 1..])
         == JobSentences(jobs[..k]) + JobSentences(jobs[k + 1..])
  {
    var pre, mid, post := jobs[..k], [jobs[k]], jobs[k + 1..];
    assert jobs == (pre + mid) + post;
    SentencesAppend(pre + mid, post, JobSentence);
    SentencesAppend(pre, mid, JobSentence);
    SentencesAppend(pre, post, JobSentence);
    assert JobSentences(mid) == [jobs[k].sentence];
  }

  lemma MultisetOfThree(x: seq<string>, y: seq<string>, z: seq<string>)
    ensures multiset(x + y + z) == multiset(x + z) + multiset(y)
  {
    assert multiset(x + y + z) == multiset(x) + multiset(y) + multiset(z);
    assert multiset(x + z) == multiset(x) + multiset(z);
  }

  /** A finished worker's sentence moves from the running list into the
      queue or straight to the player. */
  lemma TtsDoneAccounted(a: AgentState, id: nat, filename: string)
    requires Accounted(a)
    ensures Accounted(OnTtsDone(a, id, filename))
  {
    match FindJob(a.jobs, id)
    case None =>
    case Some(k) =>
      if a.player.playing || a.hasBubble {
        var s := a.jobs[k].sentence;
        var e := Playback.Entry(filename, s);
        var p := a.player;
        var q := Playback.OnTtsDone(p, filename, s);
        RemoveJob(a.jobs, k);
        SameEntries(q.played, q.queue, p.played + p.queue, [e]);
        SameEntries(p.played + p.queue, [], p.played, p.queue);
        assert EntrySentences([e]) == [s];
      }
  }

  /** The end of a file moves the next queued sentence to the player. */
  lemma MediaAccounted(a: AgentState, status: Playback.MediaStatus)
    requires Accounted(a)
    ensures Accounted(OnMediaStatus(a, status))
  {
    var p := a.player;
    var q := Playback.OnMediaStatus(p, status);
    SameEntries(q.played, q.queue, p.played, p.queue);
  }

  /** A new sentence goes to a new running worker. */
  lemma TokenAccounted(a: AgentState, token: string)
    requires Accounted(a)
    ensures Accounted(OnToken(a, token))
  {
    var r := OnToken(a, token);
    if Segmenter.IsTerminator(token) {
      var s := r.sent[|r.sent| - 1];
      SentencesAppend(a.jobs, [TtsJob(a.nextJob, s)], JobSentence);
      assert JobSentences([TtsJob(a.nextJob, s)]) == [s];
    }
  }

  /** Every event keeps the window valid. */
  lemma StepKeepsValid(a: AgentState, e: Event)
    requires Valid(a)
    ensures Valid(Step(a, e))
  {
    StepKeepsFresh(a, e);
    match e
    case Token(t) => TokenAccounted(a, t);
    case TtsDone(id, ms) => TtsDoneAccounted(a, id, Workers.TtsFilename(ms));
    case MediaStatusChanged(s) => MediaAccounted(a, s);
    case _ =>
  }

  /** Removing one running worker keeps the identities fresh. */
  lemma RemoveKeepsFresh(a: AgentState, k: nat, r: AgentState)
    requires FreshIds(a) && k < |a.jobs|
    requires r.jobs == a.jobs[..k] + a.jobs[k + 1..] && r.nextJob == a.nextJob
    ensures FreshIds(r)
  {
    forall i | 0 <= i < |r.jobs|
      ensures r.jobs[i] == a.jobs[if i < k then i else i + 1]
    {
    }
  }

  /** Every event keeps worker identities fresh: a new worker gets the next
      identity, and a finished one leaves. */
  lemma StepKeepsFresh(a: AgentState, e: Event)
    requires FreshIds(a)
    ensures FreshIds(Step(a, e))
  {
    if !a.halted {
      match e
      case Token(t) => TokenKeepsFresh(a, t);
      case TtsDone(id, ms) => TtsDoneKeepsFresh(a, id, Workers.TtsFilename(ms));
      case _ =>
    }
  }

  lemma TokenKeepsFresh(a: AgentState, token: string)
    requires FreshIds(a)
    ensures FreshIds(OnToken(a, token))
  {
    var r := OnToken(a, token);
    if Segmenter.IsTerminator(token) {
      assert forall i :: 0 <= i < |a.jobs| ==> r.jobs[i] == a.jobs[i];
      assert r.jobs[|a.jobs|].id == a.nextJob;
    }
  }

  lemma TtsDoneKeepsFresh(a: AgentState, id: nat, filename: string)
    requires FreshIds(a)
    ensures FreshIds(OnTtsDone(a, id, filename))
  {
    var r := OnTtsDone(a, id, filename);
    var k := FindJob(a.jobs, id);
    if k.Some? && (a.player.playing || a.hasBubble) {
      RemoveKeepsFresh(a, k.value, r);
    }
  }

  /** With fresh identities, the worker a report finds is the only one with
      that identity, so a report delivers its own worker's sentence, and
      after it no running worker has that identity any more. */
  lemma ReportFindsOwnWorker(a: AgentState, id: nat, ms: nat)
    requires FreshIds(a) && !a.halted
    ensures FindJob(a.jobs, id).Some? ==>
              forall i :: 0 <= i < |a.jobs| && a.jobs[i].id == id ==> i == FindJob(a.jobs, id).value
    ensures var r := Step(a, TtsDone(id, ms));
            !r.halted ==> FindJob(r.jobs, id).None?
  {
    var r := Step(a, TtsDone(id, ms));
    var k := FindJob(a.jobs, id);
    if k.Some? && !r.halted {
      RemoveKeepsFresh(a, k.value, r);
      forall i | 0 <= i < |r.jobs|
        ensures r.jobs[i].id != id
      {
        var j := if i < k.value then i else i + 1;
        assert r.jobs[i] == a.jobs[j];
      }
    }
  }

  lemma {:induction false} RunKeepsValid(a: AgentState, events: seq<Event>)
    requires Valid(a)
    ensures Valid(Run(a, events))
    decreases |events|
  {
    if events != [] {
      StepKeepsValid(a, events[0]);
      RunKeepsValid(Step(a, events[0]), events[1..]);
    }
  }

  /** At most once: from the window as constructed, whatever the order in
      which workers finish and files end, no sentence is played more often
      than it was sent to synthesis. */
  lemma PlayedAtMostOnce(events: seq<Event>)
    ensures var a := Run(Initial(), events);
            multiset(EntrySentences(a.player.played)) <= multiset(a.sent)
  {
    InitialValid();
    RunKeepsValid(Initial(), events);
  }

  // ---------------------------------------------------------------------
  // Leftover text carries over

  /** The tokens of a reply stream, as they reach the window. */
  function TokenEvents(tokens: seq<string>): (es: seq<Event>)
    ensures |es| == |tokens| && forall i :: 0 <= i < |tokens| ==> es[i] == Token(tokens[i])
  {
    seq(|tokens|, i requires 0 <= i < |tokens| => Token(tokens[i]))
  }

  /** The window segments a token stream exactly as the segmenter does: its
      partial sentence ends as the segmenter's buffer, and the sentences it
      hands to synthesis are the segmenter's sentences, in order. */
  lemma {:induction false} RunTokens(a: AgentState, tokens: seq<string>)
    requires !a.halted
    ensures var r := Run(a, TokenEvents(tokens));
            var f := Segmenter.FeedAll(a.partial, tokens);
            && r.partial == f.buffer
            && r.sent == a.sent + f.sentences
            && r.player == a.player && r.history == a.history
            && r.hasBubble == a.hasBubble && !r.halted
    decreases |tokens|
  {
    if tokens != [] {
      var es := TokenEvents(tokens);
      assert es[1..] == TokenEvents(tokens[1..]);
      var a1 := Step(a, es[0]);
      TokenFeeds(a, tokens[0]);
      RunTokens(a1, tokens[1..]);
      var step := Segmenter.Feed(a.partial, tokens[0]);
      var rest := Segmenter.FeedAll(step.buffer, tokens[1..]);
      if step.sentence.Some? {
        assert a.sent + [step.sentence.value] + rest.sentences
            == a.sent + ([step.sentence.value] + rest.sentences);
      }
    }
  }

  /** One token event is one step of the segmenter. */
  lemma TokenFeeds(a: AgentState, token: string)
    requires !a.halted
    ensures var r := Step(a, Token(token));
            var fed := Segmenter.Feed(a.partial, token);
            && r.partial == fed.buffer
            && r.sent == a.sent + (if fed.sentence.Some? then [fed.sentence.value] else [])
            && r.player == a.player && r.history == a.history
            && r.hasBubble == a.hasBubble && !r.halted
  {
  }

  /** Text left without a terminator at the end of a reply is neither
      flushed at the end of the stream nor dropped by clearing the window:
      the next reply's tokens are segmented starting from it, so it is the
      front of the first piece cut, whose strip is the first sentence. */
  lemma LeftoverStartsNextSentence(a: AgentState, fullText: string, input: string, tokens: seq<string>)
    requires !a.halted
    ensures var b := Run(a, [ReplyFinished(fullText), ClearInput, Send(input)] + TokenEvents(tokens));
            var f := Segmenter.FeedAll(a.partial, tokens);
            && b.sent == a.sent + f.sentences
            && b.partial == f.buffer
            && Concat(f.raw) + f.buffer == a.partial + Concat(tokens)
            && (Segmenter.CountTerminators(tokens) > 0 ==>
                  && f.raw != [] && a.partial <= f.raw[0]
                  && f.sentences != [] && f.sentences[0] == Strip(f.raw[0]))
  {
    var pre := [ReplyFinished(fullText), ClearInput, Send(input)];
    RunAppend(a, pre, TokenEvents(tokens));
    var a1 := Step(a, pre[0]);
    var a2 := Step(a1, pre[1]);
    var a3 := Step(a2, pre[2]);
    assert pre[1..][1..][1..] == [];
    assert Run(a, pre) == Run(a1, pre[1..]);
    assert Run(a1, pre[1..]) == Run(a2, pre[1..][1..]);
    assert Run(a2, pre[1..][1..]) == Run(a3, pre[1..][1..][1..]);
    assert a3.partial == a.partial && a3.sent == a.sent && !a3.halted;
    RunTokens(a3, tokens);
    Segmenter.FeedAllConserves(a.partial, tokens);
    var f := Segmenter.FeedAll(a.partial, tokens);
    if Segmenter.CountTerminators(tokens) > 0 {
      Segmenter.FeedAllShape(a.partial, tokens);
      Segmenter.FirstPieceKeepsBuffer(a.partial, tokens);
      Segmenter.StripEachAt(f.raw, 0);
    }
  }
}
