/**
 The real-time inference protocol as a transition system (source/dsp/onnx).

 Pipe holds what the two threads keep; SendAudio and ProcessOutput are the audio thread's two calls on
 it. World adds where each thread stands and what has happened since the last `prepare`. The events
 are the audio thread's two calls, one result pushed by the inference thread, that thread's return, and the
 statements of a model reload on the message thread. Block sizes may vary from block to block.
 */
module Protocol {
  import opened Samples
  import opened Rings

  /** `model(j, chunk)` is what inference number `j` leaves in the output tensor; `M` and `K` are
      `modelInputSize` and `maxModelCalcSize`, `cap` the capacity of both rings. */
  datatype Config = Config(M: nat, K: nat, cap: nat, model: (nat, seq<Sample>) -> seq<Sample>)

  ghost predicate ValidConfig(c: Config) {
    && c.M > 0 && c.cap > 0
    && forall j: nat, chunk :: |chunk| == c.M ==> |c.model(j, chunk)| == c.M
  }

  datatype Pipe = Pipe(
    inRing: Ring, outRing: Ring, init: bool, initSamples: nat, loading: bool, running: bool,
    inputData: seq<Sample>, counter: nat)
  {
    predicate Valid() {
      inRing.Valid() && outRing.Valid()
    }
  }

  /** Would this block, once pushed, start an inference? */
  predicate Launches(M: nat, p: Pipe, block: seq<Sample>)
    requires p.Valid()
  {
    !p.running && PushAll(p.inRing, block).count >= M && !p.loading
  }

  function SendAudio(M: nat, K: nat, p: Pipe, block: seq<Sample>): (p': Pipe)
    requires p.Valid()
    ensures p'.Valid() && |p'.inRing.slots| == |p.inRing.slots|
  {
    var pushed := PushAll(p.inRing, block);
    var samples := if p.init then p.initSamples + |block| else p.initSamples;
    var gate := p.init && samples < M + K;
    if Launches(M, p, block) then
      var (chunk, rest) := PopMany(pushed, M);
      p.(inRing := rest, inputData := chunk, running := true, initSamples := samples, init := gate)
    else
      p.(inRing := pushed, initSamples := samples, init := gate)
  }

  /** What processOutput does with a block of n samples when it counts `seen` samples in the output ring. */
  datatype Outcome = PassThrough | Miss | Play | DropAndPlay

  function Decide(p: Pipe, n: nat, seen: int): Outcome {
    if p.init then PassThrough
    else if seen < n then Miss
    else if p.counter > 0 && seen >= 2 * n then DropAndPlay
    else Play
  }

  /** The number of samples it pops, and the counter it leaves. */
  function Demand(outcome: Outcome, n: nat): nat {
    match outcome
    case Play => n
    case DropAndPlay => 2 * n
    case _ => 0
  }

  function Recount(outcome: Outcome, counter: nat): int {
    match outcome
    case Miss => counter + 1
    case DropAndPlay => counter - 1
    case _ => counter
  }

  /** The block it hands back, made of all the samples it popped. */
  function BlockOf(outcome: Outcome, block: seq<Sample>, taken: seq<Sample>): seq<Sample>
    requires |taken| == Demand(outcome, |block|)
  {
    match outcome
    case PassThrough => block
    case Miss => Silence(|block|)
    case Play => taken
    case DropAndPlay => taken[|block|..]
  }

  function ProcessOutput(p: Pipe, block: seq<Sample>, seen: int): (res: (Pipe, seq<Sample>))
    requires p.Valid()
    ensures res.0.Valid() && |res.0.outRing.slots| == |p.outRing.slots| && |res.1| == |block|
  {
    match Decide(p, |block|, seen)
    case PassThrough => (p, block)
    case Miss => (p.(counter := p.counter + 1), Silence(|block|))
    case Play =>
      var (out, ring) := PopMany(p.outRing, |block|);
      (p.(outRing := ring), out)
    case DropAndPlay =>
      var dropped := PopMany(p.outRing, |block|).1;
      var (out, ring) := PopMany(dropped, |block|);
      (p.(outRing := ring, counter := p.counter - 1), out)
  }

  datatype World = World(
    p: Pipe,
    // the inference thread has pushed `pos` results; the audio thread is between its two calls on `block`
    pos: nat, mid: bool, block: seq<Sample>,
    // since the last prepare: input as received and as the ring stores it, number of blocks, output
    raw: seq<Sample>, fed: seq<Sample>, blocks: nat, emitted: seq<Sample>,
    // inferences started, index of the block that started the last one, results pushed
    launches: nat, launchBlock: nat, stream: seq<Sample>,
    // ledger in samples: popped from the output ring; in blocks handled with the gate open; of those
    // silent; thrown away; and input received before the first block that found the gate open
    popped: nat, served: nat, missed: nat, dropped: nat, openStart: nat,
    // the read position inside the output ring's memory; and, when the block was sent, what that ring held and whether
    // an inference ran from then on
    readPos: nat, sentCount: nat, active: bool)

  /** What the two reads of the write position make of a count (see module SpscRing): its value, or the capacity
      less when the producer wrapped between them, or the capacity more when the producer stands on the end of a
      drained ring. */
  datatype Reading = Whole | Torn | Drained

  datatype Event =
    | Send(block: seq<Sample>) | Output(read: Reading)
    | PushResult | Finish
    | LoadBegin | LoadPrepare(memory: seq<Sample>) | LoadResetRing | LoadResetCounter | LoadEnd

  function Result(c: Config, w: World): seq<Sample>
    requires w.launches > 0
  {
    c.model(w.launches - 1, w.p.inputData)
  }

  /** The write position went past the end of the memory after the block was sent, pushed there by an inference that
      ran. */
  predicate MayTear(w: World) {
    var end, written := |w.p.outRing.slots|, w.readPos + w.p.outRing.count;
    w.active && w.readPos + w.sentCount <= end <= written < end + w.pos
  }

  /** The running inference pushed the sample that fills the memory, and nothing is left unread. */
  predicate MayBeDrained(w: World) {
    w.p.running && w.pos > 0 && w.p.outRing.count == 0 && w.readPos == 0
  }

  /** A reload begins with the thread idle. */
  predicate Enabled(c: Config, w: World, e: Event) {
    && w.p.Valid()
    && match e
       case Send(block) => !w.mid
       case Output(read) => w.mid && (read.Torn? ==> MayTear(w)) && (read.Drained? ==> MayBeDrained(w))
       case PushResult => w.p.running && w.launches > 0 && w.pos < |Result(c, w)|
       case Finish => w.p.running && w.launches > 0 && w.pos >= |Result(c, w)|
       case LoadBegin => !w.p.running && !w.p.loading
       case LoadPrepare(memory) => w.p.loading && !w.p.running && |memory| == c.cap > 0
       case LoadResetRing => w.p.loading
       case LoadResetCounter => w.p.loading
       case LoadEnd => w.p.loading
  }

  function Seen(w: World, read: Reading): int {
    match read
    case Whole => w.p.outRing.count
    case Torn => w.p.outRing.count - |w.p.outRing.slots|
    case Drained => w.p.outRing.count + |w.p.outRing.slots|
  }

  /** An answer behind the gate on a drained count: it plays slots that were not written since they were last read. */
  predicate DrainedWhileOpen(w: World, e: Event) {
    e.Output? && e.read.Drained? && !w.p.init
  }

  function SendStep(c: Config, w: World, block: seq<Sample>): World
    requires w.p.Valid()
  {
    Sent(w, block, SendAudio(c.M, c.K, w.p, block), Launches(c.M, w.p, block))
  }

  /** The history after a block was sent, `p` is the new state and `launch` whether an inference started. */
  function Sent(w: World, block: seq<Sample>, p: Pipe, launch: bool): World {
    w.(p := p, mid := true, block := block,
       pos := if launch then 0 else w.pos,
       raw := w.raw + block, fed := w.fed + CleanAll(block), blocks := w.blocks + 1,
       launches := if launch then w.launches + 1 else w.launches,
       launchBlock := if launch then w.blocks else w.launchBlock,
       openStart := if w.p.init && !p.init then |w.fed| else w.openStart,
       sentCount := w.p.outRing.count, active := p.running)
  }

  function OutputStep(w: World, read: Reading): World
    requires w.p.Valid()
  {
    var (p, out) := ProcessOutput(w.p, w.block, Seen(w, read));
    Answered(w, p, out, Decide(w.p, |w.block|, Seen(w, read)))
  }

  /** The history after the block was answered with `out`. */
  function Answered(w: World, p: Pipe, out: seq<Sample>, outcome: Outcome): World {
    var n := |w.block|;
    var w' := w.(p := p, mid := false, emitted := w.emitted + out);
    match outcome
    case PassThrough => w'
    case Miss => w'.(served := w.served + n, missed := w.missed + n)
    case Play => w'.(served := w.served + n, popped := w.popped + n, readPos := Advanced(w, n))
    case DropAndPlay =>
      w'.(served := w.served + n, popped := w.popped + 2 * n, dropped := w.dropped + n, readPos := Advanced(w, 2 * n))
  }

  /** The read position k samples on. */
  function Advanced(w: World, k: nat): nat {
    var end := |w.p.outRing.slots|;
    if end == 0 then 0 else (w.readPos + k) % end
  }

  /** The block the audio thread hands back in this step. */
  function Heard(w: World, read: Reading): seq<Sample>
    requires w.p.Valid()
  {
    ProcessOutput(w.p, w.block, Seen(w, read)).1
  }

  function Next(c: Config, w: World, e: Event): (w': World)
    requires Enabled(c, w, e)
    ensures w'.p.Valid()
  {
    match e
    case Send(block) => SendStep(c, w, block)
    case Output(read) => OutputStep(w, read)
    case PushResult =>
      var x := Result(c, w)[w.pos];
      PushedOne(w, Clean(x), Push(w.p.outRing, x))
    case Finish => w.(p := w.p.(running := false))
    case LoadBegin => w.(p := w.p.(loading := true))
    case LoadPrepare(memory) =>
      Prepared(w.p.(inRing := Ring(memory, 0), init := true, initSamples := 0), w.mid, w.block, w.readPos, w.sentCount)
    case LoadResetRing => 
      w.(p := w.p.(outRing := Ring(Silence(|w.p.outRing.slots|), 0)), readPos := 0, sentCount := 0)
    case LoadResetCounter => w.(p := w.p.(counter := 0))
    case LoadEnd => w.(p := w.p.(loading := false))
  }

  function PushedOne(w: World, x: Sample, ring: Ring): World {
    w.(p := w.p.(outRing := ring), pos := w.pos + 1, stream := w.stream + [x])
  }

  /** A history that starts here. */
  function Prepared(p: Pipe, mid: bool, block: seq<Sample>, readPos: nat, sentCount: nat): World {
    World(p, 0, mid, block, [], [], 0, [], 0, 0, [], 0, 0, 0, 0, 0, readPos, sentCount, false)
  }

  /** The state after OnnxProcessor::prepare; the rings' memory is whatever the host returned. */
  predicate Fresh(c: Config, w: World) {
    && |w.p.inRing.slots| == |w.p.outRing.slots| == c.cap && w.p.inRing.count == 0 == w.p.outRing.count
    && w == Prepared(Pipe(w.p.inRing, w.p.outRing, true, 0, false, false, w.p.inputData, 0), false, [], 0, 0)
  }

  lemma {:induction false} DropThenPlay(r: Ring, n: nat)
    requires r.Valid()
    ensures PopMany(r, 2 * n).1 == PopMany(PopMany(r, n).1, n).1
    ensures PopMany(r, 2 * n).0[n..] == PopMany(PopMany(r, n).1, n).0
  {
    PopManyAdds(r, n, n);
    SkipFront(PopMany(r, n).0, PopMany(PopMany(r, n).1, n).0);
  }

  lemma SkipFront(xs: seq<Sample>, ys: seq<Sample>)
    ensures (xs + ys)[|xs|..] == ys
  {
  }

  lemma ProcessOutputIs(p: Pipe, block: seq<Sample>, seen: int)
    requires p.Valid()
    ensures var outcome := Decide(p, |block|, seen);
      var (taken, ring) := PopMany(p.outRing, Demand(outcome, |block|));
      && Recount(outcome, p.counter) >= 0
      && ProcessOutput(p, block, seen)
         == (p.(outRing := ring, counter := Recount(outcome, p.counter)), BlockOf(outcome, block, taken))
  {
    match Decide(p, |block|, seen)
    case PassThrough => assert PopMany(p.outRing, 0).1 == p.outRing;
    case Miss => assert PopMany(p.outRing, 0).1 == p.outRing;
    case Play =>
    case DropAndPlay => DropThenPlay(p.outRing, |block|);
  }

  /** An answer in one formula: the pops its outcome demands, the new counter, and the block made of what was popped. */
  lemma AnswerIs(w: World, read: Reading)
    requires w.p.Valid()
    ensures var outcome := Decide(w.p, |w.block|, Seen(w, read));
      var (taken, ring) := PopMany(w.p.outRing, Demand(outcome, |w.block|));
      && Recount(outcome, w.p.counter) >= 0
      && OutputStep(w, read).p == w.p.(outRing := ring, counter := Recount(outcome, w.p.counter))
      && Heard(w, read) == BlockOf(outcome, w.block, taken)
  {
    ProcessOutputIs(w.p, w.block, Seen(w, read));
  }

  /** A silent answer, counted as a miss. */
  predicate Mutes(w: World, w': World, out: seq<Sample>) {
    out == Silence(|w.block|) && w'.p == w.p.(counter := w.p.counter + 1)
  }

  /** An answer that takes one block and plays it. */
  predicate PlaysOne(w: World, w': World, out: seq<Sample>)
    requires w.p.Valid()
  {
    var (taken, ring) := PopMany(w.p.outRing, |w.block|);
    out == taken && w'.p == w.p.(outRing := ring)
  }

  /** An answer that takes two blocks, plays the later one, and takes one off the counter. */
  predicate Repays(w: World, w': World, out: seq<Sample>)
    requires w.p.Valid()
  {
    var (taken, ring) := PopMany(w.p.outRing, 2 * |w.block|);
    && out == taken[|w.block|..]
    && w'.p.counter == w.p.counter - 1 && w'.p == w.p.(outRing := ring, counter := w'.p.counter)
  }

  /** The rule of every answer, whatever count it reads: dry as long as the gate is closed; behind it silent if less
      than a block is counted, a repayment if misses are counted and two blocks are there, and otherwise one block.
      */
  lemma AnswerRule(w: World, read: Reading)
    requires w.p.Valid()
    ensures var n, seen, w', out := |w.block|, Seen(w, read), OutputStep(w, read), Heard(w, read);
      if w.p.init then out == w.block && w'.p == w.p
      else
        && (Mutes(w, w', out) <==> seen < n)
        && (Repays(w, w', out) <==> w.p.counter > 0 && seen >= n && seen >= 2 * n)
        && (PlaysOne(w, w', out) && w'.p.counter == w.p.counter <==>
              seen >= n && (w.p.counter == 0 || seen < 2 * n))
  {
    AnswerIs(w, read);
  }

  predicate IsRun(c: Config, w: World, es: seq<Event>)
    decreases |es|
  {
    es == [] || (Enabled(c, w, es[0]) && IsRun(c, Next(c, w, es[0]), es[1..]))
  }

  function RunFrom(c: Config, w: World, es: seq<Event>): World
    requires IsRun(c, w, es)
    decreases |es|
  {
    if es == [] then w else RunFrom(c, Next(c, w, es[0]), es[1..])
  }

  /** Runs compose. */
  lemma {:induction false} RunAppend(c: Config, w: World, es: seq<Event>, fs: seq<Event>)
    requires IsRun(c, w, es)
    ensures IsRun(c, w, es + fs) <==> IsRun(c, RunFrom(c, w, es), fs)
    ensures IsRun(c, w, es + fs) ==> RunFrom(c, w, es + fs) == RunFrom(c, RunFrom(c, w, es), fs)
    decreases |es|
  {
    if es == [] {
      assert es + fs == fs;
    } else {
      assert (es + fs)[1..] == es[1..] + fs;
      RunAppend(c, Next(c, w, es[0]), es[1..], fs);
    }
  }
}
