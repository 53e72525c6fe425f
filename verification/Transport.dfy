/** The transport timeline of the granular engine (modules/RnboExport/rnbo_granular.cpp:349-351, 1644-1845). */
module Transport {

  // ---- lists of changes ----

  /** The times in a flat list of (beat, time) entries. */
  function BeatTimes(changes: seq<real>): (r: seq<real>)
    ensures |r| == |changes| / 2
    ensures forall e :: 0 <= e < |r| ==> r[e] == changes[2 * e + 1]
  {
    seq(|changes| / 2, e requires 0 <= e < |changes| / 2 => changes[2 * e + 1])
  }

  /** The times in a flat list of (numerator, denominator, time) entries. */
  function SignatureTimes(changes: seq<real>): (r: seq<real>)
    ensures |r| == |changes| / 3
    ensures forall e :: 0 <= e < |r| ==> r[e] == changes[3 * e + 2]
  {
    seq(|changes| / 3, e requires 0 <= e < |changes| / 3 => changes[3 * e + 2])
  }

  predicate Nondecreasing(times: seq<real>) {
    forall e, f :: 0 <= e < f < |times| ==> times[e] <= times[f]
  }

  /** The entry a forward scan stops at: from `from` on, as long as the next entry is not after t. */
  function Pick(times: seq<real>, from: nat, t: real): (e: nat)
    requires from < |times|
    ensures from <= e < |times|
    decreases |times| - from
  {
    if from + 1 < |times| && times[from + 1] <= t then Pick(times, from + 1, t) else from
  }

  /** In a sorted list that is the last change at or before t, or the first entry when every other is later. */
  lemma {:induction false} PickIsLast(times: seq<real>, from: nat, t: real)
    requires from < |times| && Nondecreasing(times)
    ensures var e := Pick(times, from, t);
      && (e > from ==> times[e] <= t)
      && forall f :: e < f < |times| ==> times[f] > t
    decreases |times| - from
  {
    if from + 1 < |times| && times[from + 1] <= t {
      PickIsLast(times, from + 1, t);
    }
  }

  lemma PickIs(times: seq<real>, t: real, e: nat)
    requires e < |times| && Nondecreasing(times) && (e == 0 || times[e] <= t)
    requires forall f :: e < f < |times| ==> times[f] > t
    ensures Pick(times, 0, t) == e
  {
    PickIsLast(times, 0, t);
    var p := Pick(times, 0, t);
    assert !(p > e);
    assert !(p < e);
  }

  /** A query at or after the last change selects the last entry. */
  lemma PickAtEnd(times: seq<real>, t: real)
    requires |times| > 0 && Nondecreasing(times) && times[|times| - 1] <= t
    ensures Pick(times, 0, t) == |times| - 1
  {
    PickIsLast(times, 0, t);
  }

  predicate BeatList(changes: seq<real>) {
    |changes| >= 2 && |changes| % 2 == 0 && Nondecreasing(BeatTimes(changes))
  }

  predicate SignatureList(changes: seq<real>) {
    |changes| >= 3 && |changes| % 3 == 0 && Nondecreasing(SignatureTimes(changes))
  }

  function LastTime(changes: seq<real>): real
    requires |changes| > 0
  {
    changes[|changes| - 1]
  }

  // ---- beat time as a value ----

  /** Milliseconds to beats at a tempo. */
  function MsToBeats(ms: real, tempo: real): real {
    ms * tempo * 0.008 / 480.0
  }

  function BeatTimeAt(changes: seq<real>, running: bool, tempo: real, t: real): real
    requires |changes| >= 2
  {
    var e := Pick(BeatTimes(changes), 0, t);
    if running then changes[2 * e] + MsToBeats(t - changes[2 * e + 1], tempo) else changes[2 * e]
  }

  /** A tempo counts beats per minute: from any entry on, a running clock moves on by d * tempo / 60000 in d
      milliseconds. */
  lemma BeatsPerMinute(ms: real, tempo: real)
    ensures MsToBeats(ms, tempo) == ms * tempo / 60000.0
    ensures tempo != 0.0 ==> MsToBeats(60000.0 / tempo, tempo) == 1.0
  {
    if tempo != 0.0 {
      assert 60000.0 / tempo * tempo == 60000.0;
    }
  }

  /** Every query, between changes too: the beat of the last entry at or before it, or of the first entry; and if
      the transport runs, the present tempo times the minutes since. */
  lemma BeatAtEveryQuery(changes: seq<real>, running: bool, tempo: real, t: real, e: nat)
    requires BeatList(changes) && 2 * e + 1 < |changes|
    requires e == 0 || changes[2 * e + 1] <= t
    requires forall f :: e < f < |changes| / 2 ==> changes[2 * f + 1] > t
    ensures BeatTimeAt(changes, running, tempo, t) ==
      changes[2 * e] + (if running then (t - changes[2 * e + 1]) * tempo / 60000.0 else 0.0)
  {
    PickIs(BeatTimes(changes), t, e);
    BeatsPerMinute(t - changes[2 * e + 1], tempo);
  }

  lemma SignatureAtEveryQuery(changes: seq<real>, t: real, e: nat)
    requires SignatureList(changes) && 3 * e + 2 < |changes|
    requires e == 0 || changes[3 * e + 2] <= t
    requires forall f :: e < f < |changes| / 3 ==> changes[3 * f + 2] > t
    ensures SignatureAt(changes, t) == (changes[3 * e], changes[3 * e + 1])
  {
    PickIs(SignatureTimes(changes), t, e);
  }

  /** What setTempo appends. */
  function WithChange(changes: seq<real>, beat: real, t: real): seq<real> {
    changes + [beat, t]
  }

  /** What the end of a block leaves: the last entry. */
  function Compacted(changes: seq<real>, stride: nat): seq<real>
    requires stride <= |changes|
  {
    if |changes| > stride then changes[|changes| - stride..] else changes
  }

  lemma ChangeKeepsList(changes: seq<real>, beat: real, t: real)
    requires BeatList(changes) && LastTime(changes) <= t
    ensures BeatList(WithChange(changes, beat, t)) && LastTime(WithChange(changes, beat, t)) == t
  {
    var before, after := BeatTimes(changes), BeatTimes(WithChange(changes, beat, t));
    assert forall e :: 0 <= e < |before| ==> after[e] == before[e];
    assert before[|before| - 1] == LastTime(changes);
  }

  /** At or after the last change the beat runs from the last entry. */
  lemma BeatFromLast(changes: seq<real>, running: bool, tempo: real, t: real)
    requires BeatList(changes) && LastTime(changes) <= t
    ensures BeatTimeAt(changes, running, tempo, t) ==
      changes[|changes| - 2] + (if running then MsToBeats(t - LastTime(changes), tempo) else 0.0)
  {
    PickAtEnd(BeatTimes(changes), t);
  }

  /** Compaction does not change the beat of any query at or after the last change. */
  lemma CompactionKeepsBeat(changes: seq<real>, running: bool, tempo: real, t: real)
    requires BeatList(changes) && LastTime(changes) <= t
    ensures BeatList(Compacted(changes, 2)) && LastTime(Compacted(changes, 2)) == LastTime(changes)
    ensures |Compacted(changes, 2)| == 2
    ensures BeatTimeAt(Compacted(changes, 2), running, tempo, t) == BeatTimeAt(changes, running, tempo, t)
  {
    BeatFromLast(changes, running, tempo, t);
    BeatFromLast(Compacted(changes, 2), running, tempo, t);
  }

  /** The same for the signature in force. */
  function SignatureAt(changes: seq<real>, t: real): (real, real)
    requires |changes| >= 3
  {
    var e := Pick(SignatureTimes(changes), 0, t);
    (changes[3 * e], changes[3 * e + 1])
  }

  lemma CompactionKeepsSignature(changes: seq<real>, t: real)
    requires SignatureList(changes) && LastTime(changes) <= t
    ensures SignatureList(Compacted(changes, 3)) && |Compacted(changes, 3)| == 3
    ensures SignatureAt(Compacted(changes, 3), t) == SignatureAt(changes, t)
  {
    PickAtEnd(SignatureTimes(changes), t);
    PickAtEnd(SignatureTimes(Compacted(changes, 3)), t);
  }

  lemma SignatureChanges(changes: seq<real>, numerator: real, denominator: real, t: real)
    requires SignatureList(changes) && LastTime(changes) <= t
    ensures var after := changes + [numerator, denominator, t];
      SignatureList(after) && SignatureAt(after, t) == (numerator, denominator)
  {
    var before, after := SignatureTimes(changes), SignatureTimes(changes + [numerator, denominator, t]);
    assert forall e :: 0 <= e < |before| ==> after[e] == before[e];
    assert before[|before| - 1] == LastTime(changes);
    PickAtEnd(after, t);
  }

  lemma {:induction false} PickIgnoresLater(times: seq<real>, from: nat, later: real, t: real)
    requires from < |times| && t < later
    ensures Pick(times + [later], from, t) == Pick(times, from, t)
    decreases |times| - from
  {
    if from + 1 < |times| && times[from + 1] <= t {
      PickIgnoresLater(times, from + 1, later, t);
    }
  }

  lemma SignatureBefore(changes: seq<real>, numerator: real, denominator: real, now: real, t: real)
    requires SignatureList(changes) && t < now
    ensures SignatureAt(changes + [numerator, denominator, now], t) == SignatureAt(changes, t)
  {
    assert SignatureTimes(changes + [numerator, denominator, now]) == SignatureTimes(changes) + [now];
    PickIgnoresLater(SignatureTimes(changes), 0, now, t);
  }

  lemma CompactedIsList(beats: seq<real>, signatures: seq<real>)
    requires BeatList(beats) && SignatureList(signatures)
    ensures BeatList(Compacted(beats, 2)) && SignatureList(Compacted(signatures, 3))
  {
    CompactionKeepsBeat(beats, false, 0.0, LastTime(beats));
    CompactionKeepsSignature(signatures, LastTime(signatures));
  }

  // ---- runs of tempo changes, stops, starts and ends of blocks ----

  datatype Clock = Clock(changes: seq<real>, tempo: real, running: bool)

  datatype ClockEvent = SetTempo(t: real, tempo: real) | SetState(t: real, running: bool) | Advance

  /** The beat the clock reports at time t. */
  function BeatOf(c: Clock, t: real): real
    requires |c.changes| >= 2
  {
    BeatTimeAt(c.changes, c.running, c.tempo, t)
  }

  function Apply(c: Clock, e: ClockEvent): (c': Clock)
    requires |c.changes| >= 2
    ensures |c'.changes| >= 2
  {
    match e
    case SetTempo(t, tempo) =>
      if c.tempo == tempo then c
      else c.(changes := WithChange(c.changes, BeatOf(c, t), t), tempo := tempo)
    case SetState(t, running) =>
      if c.running == running then c
      else if running then c.(running := true)
      else c.(changes := WithChange(c.changes, BeatTimeAt(c.changes, false, c.tempo, t), t), running := false)
    case Advance => c.(changes := Compacted(c.changes, 2))
  }

  function Run(c: Clock, es: seq<ClockEvent>): (r: Clock)
    requires |c.changes| >= 2
    ensures |r.changes| >= 2
    decreases |es|
  {
    if es == [] then c else Run(Apply(c, es[0]), es[1..])
  }

  /** When the event happens; the end of a block has no time of its own. */
  function TimeOf(e: ClockEvent, from: real): real {
    if e.Advance? then from else e.t
  }

  /** The events come in time order, none before `from` and none after `to`. */
  predicate InTime(from: real, es: seq<ClockEvent>, to: real)
    decreases |es|
  {
    if es == [] then from <= to else from <= TimeOf(es[0], from) && InTime(TimeOf(es[0], from), es[1..], to)
  }

  /** The integral of the tempo over the time the transport runs: the beats that pass from `from` to `to`. */
  function BeatsBetween(tempo: real, running: bool, from: real, es: seq<ClockEvent>, to: real): real
    decreases |es|
  {
    if es == [] then Passed(tempo, running, from, to)
    else
      var t := TimeOf(es[0], from);
      Passed(tempo, running, from, t) +
      BeatsBetween(if es[0].SetTempo? then es[0].tempo else tempo, if es[0].SetState? then es[0].running else running,
                   t, es[1..], to)
  }

  function Passed(tempo: real, running: bool, from: real, to: real): real {
    if running then MsToBeats(to - from, tempo) else 0.0
  }

  /** What a stop loses and a start adds: the beats that pass, at the present tempo, since the last recorded change. */
  function Jump(c: Clock, e: ClockEvent): real
    requires |c.changes| >= 2
  {
    if !e.SetState? || e.running == c.running then 0.0
    else if e.running then MsToBeats(e.t - LastTime(c.changes), c.tempo)
    else -MsToBeats(e.t - LastTime(c.changes), c.tempo)
  }

  function Jumps(c: Clock, es: seq<ClockEvent>): real
    requires |c.changes| >= 2
    decreases |es|
  {
    if es == [] then 0.0 else Jump(c, es[0]) + Jumps(Apply(c, es[0]), es[1..])
  }

  /** After the last change a running clock counts one beat in 60000 / tempo milliseconds, evenly. */
  lemma OneBeat(c: Clock, t: real, d: real)
    requires BeatList(c.changes) && LastTime(c.changes) <= t && d >= 0.0 && c.running && c.tempo > 0.0
    ensures BeatOf(c, t + 60000.0 / c.tempo) == BeatOf(c, t) + 1.0
    ensures BeatOf(c, t + d) == BeatOf(c, t) + d * c.tempo / 60000.0
  {
    BeatsPerMinute(60000.0 / c.tempo, c.tempo);
    BeatsPerMinute(d, c.tempo);
    BeatsAddUp(c, t, t + 60000.0 / c.tempo);
    BeatsAddUp(c, t, t + d);
  }

  lemma BeatsAddUp(c: Clock, t: real, later: real)
    requires BeatList(c.changes) && LastTime(c.changes) <= t <= later
    ensures BeatOf(c, later) == BeatOf(c, t) + Passed(c.tempo, c.running, t, later)
  {
    BeatFromLast(c.changes, c.running, c.tempo, t);
    BeatFromLast(c.changes, c.running, c.tempo, later);
  }

  /** A tempo change leaves the beat at its own instant where it was, and every later beat runs on from there. */
  lemma ChangeIsContinuous(c: Clock, t: real, tempo: real, later: real)
    requires BeatList(c.changes) && LastTime(c.changes) <= t <= later
    ensures var c' := Apply(c, SetTempo(t, tempo));
      && BeatList(c'.changes) && LastTime(c'.changes) <= t && c'.tempo == tempo && c'.running == c.running
      && BeatOf(c', later) == BeatOf(c, t) + Passed(tempo, c.running, t, later)
  {
    BeatsAddUp(c, t, later);
    if c.tempo != tempo {
      var beat := BeatOf(c, t);
      ChangeKeepsList(c.changes, beat, t);
      BeatFromLast(WithChange(c.changes, beat, t), c.running, tempo, later);
    }
  }

  /** At its own instant an event moves the beat by its jump and by nothing else. */
  lemma EventJumps(c: Clock, from: real, e: ClockEvent)
    requires BeatList(c.changes) && LastTime(c.changes) <= from <= TimeOf(e, from)
    ensures var c', t := Apply(c, e), TimeOf(e, from);
      && BeatList(c'.changes) && LastTime(c'.changes) <= t
      && c'.tempo == (if e.SetTempo? then e.tempo else c.tempo)
      && c'.running == (if e.SetState? then e.running else c.running)
      && BeatOf(c', t) == BeatOf(c, t) + Jump(c, e)
  {
    match e
    case SetTempo(t, tempo) => ChangeIsContinuous(c, t, tempo, t);
    case SetState(t, running) =>
      BeatFromLast(c.changes, true, c.tempo, t);
      BeatFromLast(c.changes, false, c.tempo, t);
      if c.running && !running {
        var beat := BeatTimeAt(c.changes, false, c.tempo, t);
        ChangeKeepsList(c.changes, beat, t);
        BeatFromLast(WithChange(c.changes, beat, t), false, c.tempo, t);
      }
    case Advance => CompactionKeepsBeat(c.changes, c.running, c.tempo, from);
  }

  /**
   Through any tempo changes, stops, starts and ends of blocks in time order, the beat at a later time is the beat
   at the start plus the integral of the tempo while the transport runs, plus what the stops lose and the starts
   add.
   */
  lemma {:induction false} BeatOverAnyRun(c: Clock, from: real, es: seq<ClockEvent>, to: real)
    requires BeatList(c.changes) && LastTime(c.changes) <= from && InTime(from, es, to)
    ensures var c' := Run(c, es);
      && BeatList(c'.changes) && LastTime(c'.changes) <= to
      && BeatOf(c', to) == BeatOf(c, from) + BeatsBetween(c.tempo, c.running, from, es, to) + Jumps(c, es)
    decreases |es|
  {
    if es == [] {
      BeatsAddUp(c, from, to);
    } else {
      var t := TimeOf(es[0], from);
      BeatsAddUp(c, from, t);
      EventJumps(c, from, es[0]);
      BeatOverAnyRun(Apply(c, es[0]), t, es[1..], to);
    }
  }

  /** None of these stops or starts the transport. */
  predicate Steady(es: seq<ClockEvent>) {
    forall i :: 0 <= i < |es| ==> !es[i].SetState?
  }

  lemma {:induction false} SteadyHasNoJumps(c: Clock, es: seq<ClockEvent>)
    requires |c.changes| >= 2 && Steady(es)
    ensures Jumps(c, es) == 0.0
    decreases |es|
  {
    if es != [] {
      SteadyHasNoJumps(Apply(c, es[0]), es[1..]);
    }
  }

  /**
   While the transport is neither stopped nor started, the beat at a later time is the beat at the start plus the
   integral of the tempo, through any tempo changes in time order and any ends of blocks between them.
   */
  lemma BeatIsTempoIntegral(c: Clock, from: real, es: seq<ClockEvent>, to: real)
    requires BeatList(c.changes) && LastTime(c.changes) <= from && InTime(from, es, to) && Steady(es)
    ensures var c' := Run(c, es);
      && BeatList(c'.changes) && LastTime(c'.changes) <= to
      && BeatOf(c', to) == BeatOf(c, from) + BeatsBetween(c.tempo, c.running, from, es, to)
  {
    BeatOverAnyRun(c, from, es, to);
    SteadyHasNoJumps(c, es);
  }

  // ---- stopping and starting ----

  /** Stopping reads the beat after it has already cleared the state, so it records the beat of the last change: the
      beat is continuous across a stop exactly when no beat has passed since then. */
  lemma StopIsContinuousIff(changes: seq<real>, tempo: real, t: real)
    requires BeatList(changes) && LastTime(changes) <= t
    ensures var stopped := WithChange(changes, BeatTimeAt(changes, false, tempo, t), t);
      BeatTimeAt(stopped, false, tempo, t) == BeatTimeAt(changes, true, tempo, t)
      <==> tempo == 0.0 || t == LastTime(changes)
  {
    BeatFromLast(changes, false, tempo, t);
    BeatFromLast(changes, true, tempo, t);
    var stopped := WithChange(changes, BeatTimeAt(changes, false, tempo, t), t);
    ChangeKeepsList(changes, BeatTimeAt(changes, false, tempo, t), t);
    BeatFromLast(stopped, false, tempo, t);
    var d := t - LastTime(changes);
    assert d * tempo == 0.0 <==> tempo == 0.0 || d == 0.0;
  }

  /** Starting records nothing, so the pause is counted as if the transport had run through it. */
  lemma StartCountsThePause(changes: seq<real>, tempo: real, t: real)
    requires BeatList(changes) && LastTime(changes) <= t
    ensures BeatTimeAt(changes, true, tempo, t) - BeatTimeAt(changes, false, tempo, t)
         == MsToBeats(t - LastTime(changes), tempo)
  {
    BeatFromLast(changes, true, tempo, t);
    BeatFromLast(changes, false, tempo, t);
  }

  // ---- the object ----

  class Timeline {
    var beatTimeChanges: seq<real>
    var timeSignatureChanges: seq<real>
    var tempo: array<real>
    var lastTempo: real
    var lastState: bool
    var tempoNeedsReset: bool
    var currentTime: real
    var sampleOffset: nat

    /** From the current sample on, the tempo signal carries the last tempo that was set. */
    ghost predicate Valid()
      reads this, tempo
    {
      && BeatList(beatTimeChanges) && SignatureList(timeSignatureChanges)
      && (tempo.Length > 0 ==> sampleOffset < tempo.Length)
      && (forall i :: sampleOffset <= i < tempo.Length ==> tempo[i] == lastTempo)
      && (!tempoNeedsReset ==> forall i :: 0 <= i < tempo.Length ==> tempo[i] == lastTempo)
    }

    constructor (vectorSize: nat)
      ensures Valid() && fresh(tempo)
      ensures beatTimeChanges == [0.0, 0.0] && timeSignatureChanges == [4.0, 4.0, 0.0]
      ensures lastTempo == 120.0 && !lastState && currentTime == 0.0
    {
      beatTimeChanges, timeSignatureChanges := [0.0, 0.0], [4.0, 4.0, 0.0];
      tempo := new real[vectorSize](_ => 120.0);
      lastTempo, lastState, tempoNeedsReset := 120.0, false, false;
      currentTime, sampleOffset := 0.0, 0;
    }

    method GetTempo() returns (r: real)
      requires Valid()
      ensures r == lastTempo
    {
      r := if tempo.Length > 0 then tempo[sampleOffset] else lastTempo;
    }

    method GetBeatTimeAtMsTime(time: real) returns (r: real)
      requires Valid()
      ensures r == BeatTimeAt(beatTimeChanges, lastState, lastTempo, time)
    {
      var i := 2;
      while i < |beatTimeChanges| && beatTimeChanges[i + 1] <= time
        invariant 2 <= i <= |beatTimeChanges| && i % 2 == 0
        invariant Pick(BeatTimes(beatTimeChanges), 0, time) == Pick(BeatTimes(beatTimeChanges), i / 2 - 1, time)
      {
        assert BeatTimes(beatTimeChanges)[i / 2] == beatTimeChanges[i + 1];
        i := i + 2;
      }
      i := i - 2;
      assert i + 2 < |beatTimeChanges| ==> BeatTimes(beatTimeChanges)[i / 2 + 1] == beatTimeChanges[i + 3];
      var beatTimeBase := beatTimeChanges[i];
      if !lastState {
        return beatTimeBase;
      }
      var beatTimeBaseMsTime := beatTimeChanges[i + 1];
      var diff := time - beatTimeBaseMsTime;
      var current := GetTempo();
      r := beatTimeBase + MsToBeats(diff, current);
    }

    method GetTimeSignatureAtMsTime(time: real) returns (r: (real, real))
      requires Valid()
      ensures r == SignatureAt(timeSignatureChanges, time)
    {
      var i := 3;
      while i < |timeSignatureChanges| && timeSignatureChanges[i + 2] <= time
        invariant 3 <= i <= |timeSignatureChanges| && i % 3 == 0
        invariant Pick(SignatureTimes(timeSignatureChanges), 0, time)
               == Pick(SignatureTimes(timeSignatureChanges), i / 3 - 1, time)
      {
        assert SignatureTimes(timeSignatureChanges)[i / 3] == timeSignatureChanges[i + 2];
        i := i + 3;
      }
      i := i - 3;
      assert i + 3 < |timeSignatureChanges| ==>
        SignatureTimes(timeSignatureChanges)[i / 3 + 1] == timeSignatureChanges[i + 5];
      r := (timeSignatureChanges[i], timeSignatureChanges[i + 1]);
    }

    method FillSignal(value: real, offset: nat)
      modifies tempo
      ensures forall i :: 0 <= i < tempo.Length ==> tempo[i] == if i >= offset then value else old(tempo[i])
    {
      var i := offset;
      while i < tempo.Length
        invariant offset <= i
        invariant forall k :: 0 <= k < tempo.Length ==> tempo[k] == if offset <= k < i then value else old(tempo[k])
      {
        tempo[i] := value;
        i := i + 1;
      }
    }

    /** The clock that module-level runs speak about. */
    ghost function AsClock(): Clock
      reads this
    {
      Clock(beatTimeChanges, lastTempo, lastState)
    }

    method SetTempo(newTempo: real) returns (changed: bool)
      requires Valid() && LastTime(beatTimeChanges) <= currentTime
      modifies this`beatTimeChanges, this`lastTempo, this`tempoNeedsReset, tempo
      ensures Valid() && lastTempo == newTempo && changed == (old(lastTempo) != newTempo)
      ensures forall i :: 0 <= i < tempo.Length && i < sampleOffset ==> tempo[i] == old(tempo[i])
      ensures AsClock() == Apply(old(AsClock()), ClockEvent.SetTempo(currentTime, newTempo))
      ensures beatTimeChanges == if changed
        then WithChange(old(beatTimeChanges),
                        BeatTimeAt(old(beatTimeChanges), lastState, old(lastTempo), currentTime), currentTime)
        else old(beatTimeChanges)
    {
      var current := GetTempo();
      if current == newTempo {
        return false;
      }
      var beat := GetBeatTimeAtMsTime(currentTime);
      ChangeKeepsList(beatTimeChanges, beat, currentTime);
      beatTimeChanges := WithChange(beatTimeChanges, beat, currentTime);
      FillSignal(newTempo, sampleOffset);
      lastTempo := newTempo;
      tempoNeedsReset := true;
      changed := true;
    }

    /** Stopping clears the running state first and then records the beat; starting records nothing. */
    method SetState(running: bool) returns (changed: bool)
      requires Valid() && LastTime(beatTimeChanges) <= currentTime
      modifies this`beatTimeChanges, this`lastState
      ensures Valid() && lastState == running && changed == (old(lastState) != running)
      ensures AsClock() == Apply(old(AsClock()), ClockEvent.SetState(currentTime, running))
      ensures beatTimeChanges == if changed && !running
        then WithChange(old(beatTimeChanges),
                        BeatTimeAt(old(beatTimeChanges), false, lastTempo, currentTime), currentTime)
        else old(beatTimeChanges)
    {
      changed := lastState != running;
      if changed {
        lastState := running;
        if !running {
          var beat := GetBeatTimeAtMsTime(currentTime);
          ChangeKeepsList(beatTimeChanges, beat, currentTime);
          beatTimeChanges := WithChange(beatTimeChanges, beat, currentTime);
        }
      }
    }

    /** The signature in force from now on is the new one; no earlier query changes. */
    method SetTimeSignature(numerator: real, denominator: real) returns (changed: bool)
      requires Valid() && LastTime(timeSignatureChanges) <= currentTime
      modifies this`timeSignatureChanges
      ensures Valid() && changed == (SignatureAt(old(timeSignatureChanges), currentTime) != (numerator, denominator))
      ensures timeSignatureChanges ==
        old(timeSignatureChanges) + (if changed then [numerator, denominator, currentTime] else [])
      ensures SignatureAt(timeSignatureChanges, currentTime) == (numerator, denominator)
      ensures forall t :: t < currentTime ==>
        SignatureAt(timeSignatureChanges, t) == SignatureAt(old(timeSignatureChanges), t)
    {
      var current := GetTimeSignatureAtMsTime(currentTime);
      changed := current != (numerator, denominator);
      if changed {
        ghost var before := timeSignatureChanges;
        SignatureChanges(before, numerator, denominator, currentTime);
        forall t | t < currentTime
          ensures SignatureAt(before + [numerator, denominator, currentTime], t) == SignatureAt(before, t)
        {
          SignatureBefore(before, numerator, denominator, currentTime, t);
        }
        timeSignatureChanges := timeSignatureChanges + [numerator, denominator, currentTime];
      }
    }

    /** The end of a block. */
    method Advance()
      requires Valid()
      modifies this`beatTimeChanges, this`timeSignatureChanges, this`tempoNeedsReset, tempo
      ensures Valid() && !tempoNeedsReset
      ensures AsClock() == Apply(old(AsClock()), ClockEvent.Advance)
      ensures timeSignatureChanges == Compacted(old(timeSignatureChanges), 3)
      ensures forall i :: 0 <= i < tempo.Length ==> tempo[i] == lastTempo
    {
      ResetTempo();
      CompactLists();
    }

    method ResetTempo()
      requires Valid()
      modifies this`tempoNeedsReset, tempo
      ensures Valid() && !tempoNeedsReset
    {
      if tempoNeedsReset {
        FillSignal(lastTempo, 0);
        tempoNeedsReset := false;
      }
    }

    method CompactLists()
      requires Valid()
      modifies this`beatTimeChanges, this`timeSignatureChanges
      ensures Valid()
      ensures beatTimeChanges == Compacted(old(beatTimeChanges), 2)
      ensures timeSignatureChanges == Compacted(old(timeSignatureChanges), 3)
    {
      CompactedIsList(beatTimeChanges, timeSignatureChanges);
      if |beatTimeChanges| > 2 {
        beatTimeChanges := beatTimeChanges[|beatTimeChanges| - 2..];
      }
      if |timeSignatureChanges| > 3 {
        timeSignatureChanges := timeSignatureChanges[|timeSignatureChanges| - 3..];
      }
    }
  }
}
