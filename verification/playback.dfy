/** The playback queue of the agent window: finished speech files wait in a
    first-in first-out queue, and the single media player plays them one at
    a time, each sentence being appended to the agent's chat bubble as its
    audio starts. The media player is abstracted as a busy flag: `play()`
    makes it busy, and it stays busy until it reports `EndOfMedia`. */
module Playback {

  /** One queued item: the synthesized audio file and its sentence. */
  datatype Entry = Entry(filename: string, sentence: string)

  /** The media statuses a media player reports. */
  datatype MediaStatus =
    | UnknownMediaStatus
    | NoMedia
    | LoadingMedia
    | LoadedMedia
    | StalledMedia
    | BufferingMedia
    | BufferedMedia
    | EndOfMedia
    | InvalidMedia

  /** The queue, whether the player is playing, the text of the current
      agent bubble, and every entry handed to the player so far, in order. */
  datatype Player = Player(queue: seq<Entry>, playing: bool, bubble: string, played: seq<Entry>)

  /** The sentences of `entries`, concatenated in order. */
  function Spoken(entries: seq<Entry>): string {
    if entries == [] then "" else entries[0].sentence + Spoken(entries[1..])
  }

  /** `play_next_in_queue`: on an empty queue nothing changes; otherwise
      exactly the head is removed, its sentence is appended to the bubble
      and its file is played. */
  function PlayNext(p: Player): (r: Player)
    ensures p.queue == [] ==> r == p
    ensures p.queue != [] ==>
              && [p.queue[0]] + r.queue == p.queue
              && r.played == p.played + [p.queue[0]]
              && r.bubble == p.bubble + p.queue[0].sentence
              && r.playing
    ensures r.played + r.queue == p.played + p.queue
  {
    if p.queue == [] then p
    else
      var head := p.queue[0];
      assert p.played + p.queue == p.played + [head] + p.queue[1..];
      Player(p.queue[1..], true, p.bubble + head.sentence, p.played + [head])
  }

  /** `on_tts_done`: the finished file joins the tail of the queue, and
      playback starts only when the player is idle. */
  function OnTtsDone(p: Player, filename: string, sentence: string): (r: Player)
    ensures r.played + r.queue == p.played + p.queue + [Entry(filename, sentence)]
    ensures p.playing ==> r == p.(queue := p.queue + [Entry(filename, sentence)])
    ensures !p.playing && p.queue == [] ==>
              && r.queue == [] && r.played == p.played + [Entry(filename, sentence)]
              && r.playing && r.bubble == p.bubble + sentence
  {
    var queued := p.(queue := p.queue + [Entry(filename, sentence)]);
    assert p.played + queued.queue == p.played + p.queue + [Entry(filename, sentence)];
    if p.playing then queued else PlayNext(queued)
  }

  /** `on_media_status_changed`: only `EndOfMedia` matters; it ends the
      current file and starts the next one, if any. */
  function OnMediaStatus(p: Player, status: MediaStatus): (r: Player)
    ensures status != EndOfMedia ==> r == p
    ensures status == EndOfMedia ==>
              && r.played + r.queue == p.played + p.queue
              && (r.playing <==> p.queue != [])
    ensures status == EndOfMedia && p.queue == [] ==> r == p.(playing := false)
    ensures status == EndOfMedia && p.queue != [] ==>
              && r.played == p.played + [p.queue[0]]
              && r.queue == p.queue[1..]
              && r.bubble == p.bubble + p.queue[0].sentence
  {
    if status == EndOfMedia then PlayNext(p.(playing := false)) else p
  }

  /** The events the queue reacts to, as they arrive on the main thread. */
  datatype Event = TtsDone(filename: string, sentence: string) | MediaStatusChanged(status: MediaStatus)

  function Step(p: Player, e: Event): Player {
    match e
    case TtsDone(f, s) => OnTtsDone(p, f, s)
    case MediaStatusChanged(st) => OnMediaStatus(p, st)
  }

  function Run(p: Player, events: seq<Event>): Player
    decreases |events|
  {
    if events == [] then p else Run(Step(p, events[0]), events[1..])
  }

  /** The entry an event delivers to the queue, if any. */
  function DeliveredBy(e: Event): seq<Entry> {
    match e
    case TtsDone(f, s) => [Entry(f, s)]
    case MediaStatusChanged(_) => []
  }

  /** The entries the events deliver, in delivery order. */
  function Delivered(events: seq<Event>): seq<Entry> {
    if events == [] then [] else DeliveredBy(events[0]) + Delivered(events[1..])
  }

  /** The queue invariant: an idle player has nothing waiting. */
  predicate IdleMeansEmpty(p: Player) {
    !p.playing ==> p.queue == []
  }

  /** Every event keeps the invariant. */
  lemma StepKeepsIdleEmpty(p: Player, e: Event)
    requires IdleMeansEmpty(p)
    ensures IdleMeansEmpty(Step(p, e))
  {
  }

  lemma {:induction false} RunKeepsIdleEmpty(p: Player, events: seq<Event>)
    requires IdleMeansEmpty(p)
    ensures IdleMeansEmpty(Run(p, events))
    decreases |events|
  {
    if events != [] {
      StepKeepsIdleEmpty(p, events[0]);
      RunKeepsIdleEmpty(Step(p, events[0]), events[1..]);
    }
  }

  lemma StepIsFifo(p: Player, e: Event)
    ensures Step(p, e).played + Step(p, e).queue == p.played + p.queue + DeliveredBy(e)
  {
  }

  lemma Assoc<T>(a: seq<T>, b: seq<T>, c: seq<T>)
    ensures (a + b) + c == a + (b + c)
  {
  }

  lemma Regroup<T>(a: seq<T>, b: seq<T>, c: seq<T>, d: seq<T>)
    ensures (a + b + c) + d == a + b + (c + d)
  {
  }

  /** First in, first out, each entry at most once: what has been played
      followed by what is waiting is exactly what was there before followed
      by the entries delivered, in delivery (synthesis completion) order. */
  lemma {:induction false} RunIsFifo(p: Player, events: seq<Event>)
    ensures Run(p, events).played + Run(p, events).queue
         == p.played + p.queue + Delivered(events)
    decreases |events|
  {
    if events != [] {
      var q := Step(p, events[0]);
      RunIsFifo(q, events[1..]);
      StepIsFifo(p, events[0]);
      Regroup(p.played, p.queue, DeliveredBy(events[0]), Delivered(events[1..]));
    }
  }

  /** One event plays at most one entry, and the bubble gains exactly the
      sentence of the entry played. */
  lemma StepShows(p: Player, e: Event) returns (started: seq<Entry>)
    ensures |started| <= 1
    ensures Step(p, e).played == p.played + started
    ensures Step(p, e).bubble == p.bubble + Spoken(started)
  {
    var q := Step(p, e);
    if q.played == p.played {
      started := [];
    } else {
      started := [q.played[|q.played| - 1]];
    }
  }

  /** The played log only grows, and the bubble shows its initial text
      followed by the sentences of the entries played since, in order. */
  lemma {:induction false} RunShows(p: Player, events: seq<Event>) returns (started: seq<Entry>)
    ensures Run(p, events).played == p.played + started
    ensures Run(p, events).bubble == p.bubble + Spoken(started)
    decreases |events|
  {
    if events == [] {
      started := [];
    } else {
      var first := StepShows(p, events[0]);
      var rest := RunShows(Step(p, events[0]), events[1..]);
      started := first + rest;
      SpokenAppend(first, rest);
      Assoc(p.played, first, rest);
      Assoc(p.bubble, Spoken(first), Spoken(rest));
    }
  }

  lemma {:induction false} SpokenAppend(a: seq<Entry>, b: seq<Entry>)
    ensures Spoken(a + b) == Spoken(a) + Spoken(b)
  {
    if a == [] {
      assert a + b == b;
    } else {
      assert (a + b)[1..] == a[1..] + b;
      SpokenAppend(a[1..], b);
    }
  }

  /** One player at a time: an event starts at most one file, and it starts
      one only when the player was idle or the event is the end of the file
      that was playing. */
  lemma StepStartsOnlyWhenFree(p: Player, e: Event)
    ensures |p.played| <= |Step(p, e).played| <= |p.played| + 1
    ensures |Step(p, e).played| == |p.played| + 1 ==>
              !p.playing || e == MediaStatusChanged(EndOfMedia)
  {
  }

  /** Playback follows synthesis completion order, not the order in which
      sentences were written: if the second sentence's audio is ready first,
      it is shown and played first. */
  lemma CompletionOrder(first: Entry, second: Entry)
    ensures Run(Player([], false, "", []),
                [TtsDone(second.filename, second.sentence),
                 TtsDone(first.filename, first.sentence),
                 MediaStatusChanged(EndOfMedia)]).played == [second, first]
    ensures Run(Player([], false, "", []),
                [TtsDone(second.filename, second.sentence),
                 TtsDone(first.filename, first.sentence),
                 MediaStatusChanged(EndOfMedia)]).bubble == second.sentence + first.sentence
  {
    var e0 := TtsDone(second.filename, second.sentence);
    var e1 := TtsDone(first.filename, first.sentence);
    var e2 := MediaStatusChanged(EndOfMedia);
    var p0 := Player([], false, "", []);
    var p1 := Step(p0, e0);
    var p2 := Step(p1, e1);
    var p3 := Step(p2, e2);
    assert p1.played == [second] && p1.playing && p1.queue == [];
    assert p2.played == [second] && p2.queue == [first];
    assert p3.played == [second, first];
    assert p1.bubble == second.sentence;
    assert p3.bubble == second.sentence + first.sentence;
    assert [e0, e1, e2][1..] == [e1, e2];
    assert [e1, e2][1..] == [e2];
    assert [e2][1..] == [];
    assert Run(p2, [e2]) == Run(p3, []);
    assert Run(p1, [e1, e2]) == Run(p2, [e2]);
    assert Run(p0, [e0, e1, e2]) == Run(p1, [e1, e2]);
  }
}
