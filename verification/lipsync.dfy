/** The lip-sync player: while a speech file plays, a timer samples the
    clock, finds the mouth-shape cue that covers the elapsed time and
    overlays that mouth image on the base portrait; between cues the last
    shape is held. Clock readings are inputs, and times are real numbers of
    seconds. */
module LipSync {
  import opened Wrappers

  /** One mouth cue of the timeline: shape `value` from `start` (inclusive)
      to `end` (exclusive). */
  datatype Cue = Cue(start: real, end: real, value: string)

  predicate Covers(c: Cue, t: real) {
    c.start <= t < c.end
  }

  /** Cue `i` is the first cue, in list order, that covers `t`. */
  predicate IsFirstCover(cues: seq<Cue>, t: real, i: nat) {
    && i < |cues|
    && Covers(cues[i], t)
    && forall j :: 0 <= j < i ==> !Covers(cues[j], t)
  }

  predicate NoCover(cues: seq<Cue>, t: real) {
    forall j :: 0 <= j < |cues| ==> !Covers(cues[j], t)
  }

  /** The scan of the cue list from position `k`, stopping at the first
      cue that covers `t`. */
  function FirstCoverFrom(cues: seq<Cue>, t: real, k: nat): (r: Option<nat>)
    requires k <= |cues|
    ensures r.Some? ==>
              && k <= r.value < |cues|
              && Covers(cues[r.value], t)
              && forall j :: k <= j < r.value ==> !Covers(cues[j], t)
    ensures r.None? ==> forall j :: k <= j < |cues| ==> !Covers(cues[j], t)
    decreases |cues| - k
  {
    if k == |cues| then None
    else if Covers(cues[k], t) then Some(k)
    else FirstCoverFrom(cues, t, k + 1)
  }

  /** The position of the first cue covering `t`, if any. */
  function FirstCover(cues: seq<Cue>, t: real): (r: Option<nat>)
    ensures r.Some? ==> IsFirstCover(cues, t, r.value)
    ensures r.None? <==> NoCover(cues, t)
  {
    FirstCoverFrom(cues, t, 0)
  }

  /** The shape shown at elapsed time `t` when `held` was shown before: the
      value of the first covering cue, or `held` when no cue covers `t`. */
  function SelectShape(cues: seq<Cue>, t: real, held: string): (shape: string)
    ensures forall i: nat :: IsFirstCover(cues, t, i) ==> shape == cues[i].value
    ensures NoCover(cues, t) ==> shape == held
  {
    match FirstCover(cues, t)
    case Some(k) =>
      assert forall i: nat :: IsFirstCover(cues, t, i) ==> i == k by {
        forall i: nat | IsFirstCover(cues, t, i)
          ensures i == k
        {
          FirstCoverUnique(cues, t, i, k);
        }
      }
      cues[k].value
    case None => held
  }

  /** At most one cue is the first to cover a given time. */
  lemma FirstCoverUnique(cues: seq<Cue>, t: real, i: nat, k: nat)
    requires IsFirstCover(cues, t, i) && IsFirstCover(cues, t, k)
    ensures i == k
  {
  }

  /** The shape codes that have a mouth image. */
  const MouthShapes: set<string> := {"A", "B", "C", "D", "E", "F", "G", "H", "X"}

  /** The mouth image prefix used when none is given. */
  const DefaultMouthPrefix: string := "./images/hank/hank"

  /** The file a shape's mouth image is loaded from. */
  function MouthImage(prefix: string, shape: string): string {
    prefix + "_" + shape + ".png"
  }

  /** The cue list, the mouth image prefix, the moment `start()` was called
      (absent before), and the last shape shown. */
  datatype LipSyncPlayer = LipSyncPlayer(
    cues: seq<Cue>,
    mouthPrefix: string,
    startTime: Option<real>,
    lastShape: string)

  /** A freshly built player: not started, mouth closed. */
  function NewPlayer(cues: seq<Cue>, mouthPrefix: string): (p: LipSyncPlayer)
    ensures p.cues == cues && p.mouthPrefix == mouthPrefix
    ensures p.lastShape == "X" && !Started(p)
  {
    LipSyncPlayer(cues, mouthPrefix, None, "X")
  }

  /** The timer callback acts only once a start time is recorded; a start
      time of exactly zero is falsy and counts as not started. */
  predicate Started(p: LipSyncPlayer) {
    p.startTime.Some? && p.startTime.value != 0.0
  }

  /** `start()` at clock reading `now`: records the start time and nothing
      else; in particular the held shape is not reset. */
  function Start(p: LipSyncPlayer, now: real): (r: LipSyncPlayer)
    ensures r.startTime == Some(now)
    ensures r.cues == p.cues && r.mouthPrefix == p.mouthPrefix && r.lastShape == p.lastShape
    ensures now != 0.0 ==> Started(r)
  {
    p.(startTime := Some(now))
  }

  /** What a tick draws: the base portrait, with the mouth image of the
      chosen shape on top when that shape has one. */
  datatype Frame = Frame(shape: string, overlay: Option<string>)

  datatype Tick = Tick(player: LipSyncPlayer, frame: Option<Frame>)

  /** `update_mouth` at clock reading `now`. */
  function UpdateMouth(p: LipSyncPlayer, now: real): (r: Tick)
    ensures !Started(p) ==> r == Tick(p, None)
    ensures Started(p) ==>
              var t := now - p.startTime.value;
              && r.player == p.(lastShape := r.player.lastShape)
              && (NoCover(p.cues, t) ==> r.player.lastShape == p.lastShape)
              && (forall i: nat :: IsFirstCover(p.cues, t, i) ==> r.player.lastShape == p.cues[i].value)
              && r.frame.Some?
              && r.frame.value.shape == r.player.lastShape
              && (r.frame.value.overlay.Some? <==> r.player.lastShape in MouthShapes)
              && (r.frame.value.overlay.Some? ==>
                    r.frame.value.overlay.value == MouthImage(p.mouthPrefix, r.player.lastShape))
  {
    if !Started(p) then Tick(p, None)
    else
      var t := now - p.startTime.value;
      var shape := SelectShape(p.cues, t, p.lastShape);
      var overlay := if shape in MouthShapes then Some(MouthImage(p.mouthPrefix, shape)) else None;
      Tick(p.(lastShape := shape), Some(Frame(shape, overlay)))
  }

  /** The timer firing at clock readings `nows`, in order. */
  function Ticks(p: LipSyncPlayer, nows: seq<real>): LipSyncPlayer
    decreases |nows|
  {
    if nows == [] then p else Ticks(UpdateMouth(p, nows[0]).player, nows[1..])
  }

  /** Reference for the hold rule: after samples at elapsed times `ts`, the
      shape shown is the one chosen at the latest sample some cue covers,
      or `init` when no sample was covered. */
  function HeldAfter(cues: seq<Cue>, ts: seq<real>, init: string): string
    decreases |ts|
  {
    if ts == [] then init
    else
      match FirstCover(cues, ts[|ts| - 1])
      case Some(i) => cues[i].value
      case None => HeldAfter(cues, ts[..|ts| - 1], init)
  }

  lemma {:induction false} HeldAfterCons(cues: seq<Cue>, t: real, ts: seq<real>, init: string)
    ensures HeldAfter(cues, [t] + ts, init) == HeldAfter(cues, ts, SelectShape(cues, t, init))
    decreases |ts|
  {
    if ts == [] {
      assert ([t] + ts)[..0] == [];
    } else {
      var all := [t] + ts;
      assert all[|all| - 1] == ts[|ts| - 1];
      assert all[..|all| - 1] == [t] + ts[..|ts| - 1];
      HeldAfterCons(cues, t, ts[..|ts| - 1], init);
    }
  }

  /** Elapsed times of the clock readings `nows` for a player started at
      `start`. */
  function Elapsed(nows: seq<real>, start: real): (ts: seq<real>)
    ensures |ts| == |nows|
    ensures forall i :: 0 <= i < |nows| ==> ts[i] == nows[i] - start
  {
    seq(|nows|, i requires 0 <= i < |nows| => nows[i] - start)
  }

  /** Hold semantics over a run of the timer: once started, the shape left
      after any number of ticks is the one chosen at the latest tick that
      fell inside a cue, and the previous shape when none did. */
  lemma {:induction false} TicksHold(p: LipSyncPlayer, nows: seq<real>)
    requires Started(p)
    ensures Ticks(p, nows).lastShape
         == HeldAfter(p.cues, Elapsed(nows, p.startTime.value), p.lastShape)
    decreases |nows|
  {
    if nows != [] {
      var q := UpdateMouth(p, nows[0]).player;
      HoldStep(p, nows);
      TicksHold(q, nows[1..]);
    }
  }

  /** The hold reference after the first tick continues from the shape
      that tick selected. */
  lemma HoldStep(p: LipSyncPlayer, nows: seq<real>)
    requires Started(p) && nows != []
    ensures var q := UpdateMouth(p, nows[0]).player;
            && Started(q) && q.cues == p.cues && q.startTime == p.startTime
            && HeldAfter(p.cues, Elapsed(nows, p.startTime.value), p.lastShape)
               == HeldAfter(q.cues, Elapsed(nows[1..], q.startTime.value), q.lastShape)
  {
    var start := p.startTime.value;
    TickHolds(p, nows[0]);
    ElapsedCons(nows, start);
    HeldAfterCons(p.cues, nows[0] - start, Elapsed(nows[1..], start), p.lastShape);
  }

  /** One tick of a started player keeps it started and holds the selected
      shape. */
  lemma TickHolds(p: LipSyncPlayer, now: real)
    requires Started(p)
    ensures var q := UpdateMouth(p, now).player;
            && Started(q) && q.cues == p.cues && q.startTime == p.startTime
            && q.lastShape == SelectShape(p.cues, now - p.startTime.value, p.lastShape)
  {
  }

  lemma ElapsedCons(nows: seq<real>, start: real)
    requires nows != []
    ensures Elapsed(nows, start) == [nows[0] - start] + Elapsed(nows[1..], start)
  {
  }

  /** Cues in time order that do not overlap, as the cue extractor emits
      them. */
  predicate Ordered(cues: seq<Cue>) {
    forall i, j :: 0 <= i < j < |cues| ==> cues[i].end <= cues[j].start
  }

  /** On an ordered timeline the cue covering `t` is the one chosen. */
  lemma OrderedPicksCover(cues: seq<Cue>, t: real, i: nat, held: string)
    requires Ordered(cues)
    requires i < |cues| && Covers(cues[i], t)
    ensures SelectShape(cues, t, held) == cues[i].value
  {
    assert IsFirstCover(cues, t, i);
  }

  /** On an ordered timeline, at the instant one cue ends and the next
      starts, the next cue is shown. */
  lemma BoundaryPicksNext(cues: seq<Cue>, i: nat, held: string)
    requires Ordered(cues)
    requires i + 1 < |cues|
    requires cues[i].end == cues[i + 1].start < cues[i + 1].end
    ensures SelectShape(cues, cues[i].end, held) == cues[i + 1].value
  {
    OrderedPicksCover(cues, cues[i].end, i + 1, held);
  }

  /** Two cues, A on [0, 0.5) and B on [0.5, 1.2), player started at clock
      10: at 0.3 s the mouth is A, at 0.5 s it is B, and at 1.5 s, past the
      last cue, B is held. */
  lemma TimelineExample()
    ensures var cues := [Cue(0.0, 0.5, "A"), Cue(0.5, 1.2, "B")];
            var p0 := Start(NewPlayer(cues, DefaultMouthPrefix), 10.0);
            var p1 := UpdateMouth(p0, 10.3).player;
            var p2 := UpdateMouth(p1, 10.5).player;
            var p3 := UpdateMouth(p2, 11.5).player;
            p1.lastShape == "A" && p2.lastShape == "B" && p3.lastShape == "B"
  {
    var cues := [Cue(0.0, 0.5, "A"), Cue(0.5, 1.2, "B")];
    assert IsFirstCover(cues, 0.3, 0);
    assert IsFirstCover(cues, 0.5, 1);
    assert NoCover(cues, 1.5);
  }
}
