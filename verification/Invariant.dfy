/**
 The exact invariant of the inference protocol and what follows from it in every reachable state: conservation
 across both rings and the end-to-end delay of every block, for block sizes that may vary.
 */
module Invariant {
  import opened Arithmetic
  import opened Samples
  import opened Rings
  import opened Protocol

  /** Samples M*j up to M*(j+1) of the input. */
  function Chunk(c: Config, fed: seq<Sample>, j: nat): seq<Sample>
    requires c.M * j + c.M <= |fed|
  {
    fed[c.M * j..c.M * j + c.M]
  }

  lemma ChunkBounds(c: Config, j: nat, launches: nat, len: nat)
    requires c.M > 0 && j < launches && c.M * launches <= len
    ensures c.M * j + c.M <= c.M * launches <= len
  {
    MulOrder(c.M, j, launches);
  }

  /** The reference signal: the cleaned results of the first `launches` inferences, one after the other. */
  ghost function ModelStream(c: Config, fed: seq<Sample>, launches: nat): (r: seq<Sample>)
    requires ValidConfig(c)
    requires c.M * launches <= |fed|
    ensures |r| == c.M * launches && AllClean(r)
  {
    if launches == 0 then [] else
      ChunkBounds(c, launches - 1, launches, |fed|);
      assert c.M * launches == c.M * (launches - 1) + c.M;
      ModelStream(c, fed, launches - 1) + CleanAll(c.model(launches - 1, Chunk(c, fed, launches - 1)))
  }

  /** Sample i of chunk j of the stream is sample i of the result on chunk j of the input. */
  lemma {:induction false} StreamAt(c: Config, fed: seq<Sample>, launches: nat, j: nat, i: nat)
    requires ValidConfig(c) && c.M * launches <= |fed|
    requires j < launches && i < c.M
    ensures c.M * j + c.M <= c.M * launches
    ensures ModelStream(c, fed, launches)[c.M * j + i] == Clean(c.model(j, Chunk(c, fed, j))[i])
  {
    ChunkBounds(c, j, launches, |fed|);
    ChunkBounds(c, launches - 1, launches, |fed|);
    assert c.M * launches == c.M * (launches - 1) + c.M;
    if j < launches - 1 {
      StreamAt(c, fed, launches - 1, j, i);
    }
  }

  lemma ChunkIsStable(c: Config, fed: seq<Sample>, more: seq<Sample>, j: nat)
    requires c.M * j + c.M <= |fed|
    ensures Chunk(c, fed + more, j) == Chunk(c, fed, j)
  {
  }

  /** Later input never changes the stream. */
  lemma {:induction false} StreamIsStable(c: Config, fed: seq<Sample>, more: seq<Sample>, launches: nat)
    requires ValidConfig(c) && c.M * launches <= |fed|
    ensures ModelStream(c, fed + more, launches) == ModelStream(c, fed, launches)
  {
    if launches > 0 {
      ChunkBounds(c, launches - 1, launches, |fed|);
      StreamIsStable(c, fed, more, launches - 1);
      ChunkIsStable(c, fed, more, launches - 1);
    }
  }

  /** A longer stream extends a shorter one. */
  lemma StreamGrows(c: Config, fed: seq<Sample>, launches: nat)
    requires ValidConfig(c) && launches > 0 && c.M * launches <= |fed|
    ensures c.M * launches == c.M * (launches - 1) + c.M
    ensures ModelStream(c, fed, launches)[..c.M * (launches - 1)] == ModelStream(c, fed, launches - 1)
  {
    assert c.M * launches == c.M * (launches - 1) + c.M;
  }

  /** How much of the stream the inference thread has pushed. */
  function PushedCount(c: Config, w: World): int {
    if w.p.running then c.M * (w.launches - 1) + w.pos else c.M * w.launches
  }

  /** Results still to be pushed by the running inference. */
  function InFlight(c: Config, w: World): int {
    if w.p.running then c.M - w.pos else 0
  }

  /** Samples received and not yet popped from the output ring. */
  function Backlog(w: World): int {
    |w.fed| - w.popped
  }

  /** The delay of the signal once the gate is open: its start, one block longer per miss, shorter per dropped block. */
  function Delay(w: World): int {
    w.openStart + w.missed - w.dropped
  }

  ghost predicate InputSide(c: Config, w: World)
    requires ValidConfig(c)
  {
    && w.p.inRing.Valid() && |w.p.inRing.slots| == c.cap
    && w.fed == CleanAll(w.raw)
    && c.M * w.launches <= |w.fed|
    && w.p.inRing.Unread() == w.fed[c.M * w.launches..]
    && (w.p.running ==>
          && w.launches > 0 && w.pos <= c.M
          && c.M * (w.launches - 1) + c.M == c.M * w.launches
          && w.p.inputData == Chunk(c, w.fed, w.launches - 1))
  }

  ghost predicate OutputSide(c: Config, w: World)
    requires ValidConfig(c) && InputSide(c, w)
  {
    && w.p.outRing.Valid() && |w.p.outRing.slots| == c.cap
    && w.stream == ModelStream(c, w.fed, w.launches)[..PushedCount(c, w)]
    && w.popped <= |w.stream|
    && w.p.outRing.Unread() == w.stream[w.popped..]
  }

  ghost predicate Ledger(c: Config, w: World) {
    && w.popped + w.missed == w.served + w.dropped
    && Backlog(w) < c.cap
    && (w.p.init ==>
          && w.p.initSamples == |w.fed| < c.M + c.K
          && w.served == w.missed == w.dropped == 0 && w.p.counter == 0)
    && (!w.p.init ==> |w.fed| == w.openStart + w.served + (if w.mid then |w.block| else 0))
  }

  ghost predicate Inv(c: Config, w: World)
    requires ValidConfig(c)
  {
    InputSide(c, w) && OutputSide(c, w) && Ledger(c, w)
  }

  /** The events of the two threads, and the end of a load whose other statements are done. */
  predicate ThreadEvent(e: Event) {
    e.Send? || e.Output? || e.PushResult? || e.Finish? || e.LoadEnd?
  }

  /** One of them other than an answer behind the gate on a drained count; module Laps speaks about those. */
  predicate RunningEvent(w: World, e: Event) {
    ThreadEvent(e) && !DrainedWhileOpen(w, e)
  }

  /** The guard: an arriving block still fits beside everything the system holds. */
  predicate HasRoom(c: Config, w: World, e: Event) {
    e.Send? ==> Backlog(w) + |e.block| < c.cap
  }

  /** A run of the two threads, in which no reload begins, every block finds room, and no drained count is acted on. */
  predicate RoomyRun(c: Config, w: World, es: seq<Event>)
    decreases |es|
  {
    es == [] ||
    (RunningEvent(w, es[0]) && Enabled(c, w, es[0]) && HasRoom(c, w, es[0]) && RoomyRun(c, Next(c, w, es[0]), es[1..]))
  }

  lemma {:induction false} RoomyRunIsRun(c: Config, w: World, es: seq<Event>)
    requires RoomyRun(c, w, es)
    ensures IsRun(c, w, es)
    decreases |es|
  {
    if es != [] {
      RoomyRunIsRun(c, Next(c, w, es[0]), es[1..]);
    }
  }

  // ---- each event keeps the invariant ----

  /** A prepared state satisfies the invariant. */
  lemma InvFresh(c: Config, w: World)
    requires ValidConfig(c) && Fresh(c, w) && c.M + c.K > 0
    ensures Inv(c, w) && GateFollowsInput(c, w)
  {
  }

  /** SendAudio on what is unread: append the block, and hand the oldest M samples to an idle thread. */
  predicate SendRelation(M: nat, p: Pipe, block: seq<Sample>, p': Pipe, launch: bool)
    requires p.Valid()
  {
    var all := p.inRing.Unread() + CleanAll(block);
    && p'.Valid() && |p'.inRing.slots| == |p.inRing.slots|
    && p' == p.(inRing := p'.inRing, inputData := p'.inputData, running := p.running || launch,
                init := p'.init, initSamples := p'.initSamples)
    && (launch <==> !p.running && !p.loading && |all| >= M)
    && if launch then p'.inputData == CleanAll(all[..M]) && p'.inRing.Unread() == all[M..]
       else p'.inputData == p.inputData && p'.inRing.Unread() == all
  }

  lemma SendPipe(M: nat, K: nat, p: Pipe, block: seq<Sample>)
    requires p.Valid() && p.inRing.count + |block| < |p.inRing.slots|
    ensures SendRelation(M, p, block, SendAudio(M, K, p, block), Launches(M, p, block))
  {
    PushAllFits(p.inRing, block);
    var pushed := PushAll(p.inRing, block);
    assert |pushed.Unread()| == pushed.count;
    if Launches(M, p, block) {
      PopManyMeaning(pushed, M);
    }
  }

  lemma ChunkArrives(c: Config, w: World, block: seq<Sample>)
    requires ValidConfig(c) && InputSide(c, w)
    ensures var start, fed := c.M * w.launches, w.fed + CleanAll(block);
      && w.p.inRing.Unread() + CleanAll(block) == fed[start..]
      && CleanAll(w.raw + block) == fed
      && c.M * (w.launches + 1) == start + c.M
      && (start + c.M <= |fed| ==>
            fed[start..][..c.M] == Chunk(c, fed, w.launches) == CleanAll(fed[start..][..c.M])
            && fed[start..][c.M..] == fed[start + c.M..])
  {
    var start, fed := c.M * w.launches, w.fed + CleanAll(block);
    CleanAllAppend(w.raw, block);
    DropOfAppend(w.fed, CleanAll(block), start);
    if start + c.M <= |fed| {
      SliceOfDrop(fed, start, c.M);
      CleanIsIdempotent(fed[start..start + c.M]);
    }
  }

  lemma SentInput(c: Config, w: World, block: seq<Sample>, p': Pipe, launch: bool)
    requires ValidConfig(c) && InputSide(c, w) && w.p.Valid()
    requires SendRelation(c.M, w.p, block, p', launch)
    ensures InputSide(c, Sent(w, block, p', launch))
    ensures launch <==> !w.p.running && !w.p.loading && |w.fed| + |block| >= c.M * w.launches + c.M
  {
    ChunkArrives(c, w, block);
    if !launch && w.p.running {
      ChunkBounds(c, w.launches - 1, w.launches, |w.fed|);
      ChunkIsStable(c, w.fed, CleanAll(block), w.launches - 1);
    }
  }

  lemma SentOutput(c: Config, w: World, block: seq<Sample>, p': Pipe, launch: bool)
    requires ValidConfig(c) && Inv(c, w)
    requires SendRelation(c.M, w.p, block, p', launch) && InputSide(c, Sent(w, block, p', launch))
    ensures OutputSide(c, Sent(w, block, p', launch))
  {
    StreamIsStable(c, w.fed, CleanAll(block), w.launches);
    if launch {
      StreamGrows(c, w.fed + CleanAll(block), w.launches + 1);
    }
  }

  lemma SendKeepsInv(c: Config, w: World, block: seq<Sample>)
    requires ValidConfig(c) && Inv(c, w)
    requires !w.mid && Backlog(w) + |block| < c.cap
    ensures Inv(c, SendStep(c, w, block))
    ensures Launches(c.M, w.p, block) <==> !w.p.running && !w.p.loading && |w.fed| + |block| >= c.M * w.launches + c.M
  {
    SystemTotal(c, w);
    SendPipe(c.M, c.K, w.p, block);
    var p', launch := SendAudio(c.M, c.K, w.p, block), Launches(c.M, w.p, block);
    SentInput(c, w, block, p', launch);
    SentOutput(c, w, block, p', launch);
  }

  /** ProcessOutput on what is unread: what it hands out and what it leaves, in each of its four outcomes. */
  predicate OutputRelation(p: Pipe, block: seq<Sample>, outcome: Outcome, p': Pipe, out: seq<Sample>)
    requires p.Valid()
  {
    var n, all := |block|, p.outRing.Unread();
    && p'.Valid() && |p'.outRing.slots| == |p.outRing.slots|
    && p' == p.(outRing := p'.outRing, counter := p'.counter)
    && match outcome
       case PassThrough => out == block && p' == p
       case Miss => out == Silence(n) && p'.outRing == p.outRing && p'.counter == p.counter + 1
       case Play => n <= |all| && out == all[..n] && p'.outRing.Unread() == all[n..] && p'.counter == p.counter
       case DropAndPlay =>
         2 * n <= |all| && out == all[n..2 * n] && p'.outRing.Unread() == all[2 * n..] && p'.counter == p.counter - 1
  }

  lemma OutputPipe(p: Pipe, block: seq<Sample>, seen: int)
    requires p.Valid() && (p.init || seen <= p.outRing.count) && AllClean(p.outRing.Unread())
    ensures var (p', out) := ProcessOutput(p, block, seen);
      OutputRelation(p, block, Decide(p, |block|, seen), p', out)
  {
    var n, all := |block|, p.outRing.Unread();
    match Decide(p, n, seen)
    case PassThrough =>
    case Miss =>
    case Play =>
      PopManyMeaning(p.outRing, n);
      CleanIsIdempotent(all[..n]);
    case DropAndPlay =>
      PopManyMeaning(p.outRing, n);
      var ring := PopMany(p.outRing, n).1;
      assert ring.Unread() == all[n..];
      PopManyMeaning(ring, n);
      assert all[n..][..n] == all[n..2 * n];
      assert all[n..][n..] == all[2 * n..];
      CleanIsIdempotent(all[n..2 * n]);
  }

  /** Popping k samples moves the window over the stream. */
  lemma PoppedOutputSide(c: Config, w: World, w': World, k: nat)
    requires ValidConfig(c) && Inv(c, w) && InputSide(c, w')
    requires w'.fed == w.fed && w'.launches == w.launches && w'.stream == w.stream && w'.pos == w.pos
    requires w'.p.running == w.p.running && w'.popped == w.popped + k && k <= |w.p.outRing.Unread()|
    requires w'.p.outRing.Valid() && |w'.p.outRing.slots| == c.cap
    requires w'.p.outRing.Unread() == w.p.outRing.Unread()[k..]
    ensures OutputSide(c, w')
  {
    assert w.stream[w.popped..][k..] == w.stream[w.popped + k..];
  }

  lemma AnsweredLedger(c: Config, w: World, outcome: Outcome, p': Pipe, out: seq<Sample>)
    requires Ledger(c, w) && w.mid && w.p.Valid()
    requires outcome.PassThrough? <==> w.p.init
    requires OutputRelation(w.p, w.block, outcome, p', out)
    ensures Ledger(c, Answered(w, p', out, outcome))
  {
  }

  lemma AnsweredInput(c: Config, w: World, outcome: Outcome, p': Pipe, out: seq<Sample>)
    requires ValidConfig(c) && InputSide(c, w) && w.p.Valid()
    requires OutputRelation(w.p, w.block, outcome, p', out)
    ensures InputSide(c, Answered(w, p', out, outcome))
  {
  }

  lemma AnsweredKeepsInv(c: Config, w: World, outcome: Outcome, p': Pipe, out: seq<Sample>)
    requires ValidConfig(c) && Inv(c, w) && w.mid
    requires outcome.PassThrough? <==> w.p.init
    requires OutputRelation(w.p, w.block, outcome, p', out)
    ensures Inv(c, Answered(w, p', out, outcome))
  {
    AnsweredInput(c, w, outcome, p', out);
    AnsweredLedger(c, w, outcome, p', out);
    var k := match outcome case Play => |w.block| case DropAndPlay => 2 * |w.block| case _ => 0;
    assert w.p.outRing.Unread()[0..] == w.p.outRing.Unread();
    PoppedOutputSide(c, w, Answered(w, p', out, outcome), k);
  }

  lemma OutputKeepsInv(c: Config, w: World, read: Reading)
    requires ValidConfig(c) && Inv(c, w) && w.mid && !DrainedWhileOpen(w, Output(read))
    ensures Inv(c, OutputStep(w, read))
  {
    OutputPipe(w.p, w.block, Seen(w, read));
    var (p', out) := ProcessOutput(w.p, w.block, Seen(w, read));
    AnsweredKeepsInv(c, w, Decide(w.p, |w.block|, Seen(w, read)), p', out);
  }

  lemma PushedOneKeepsInv(c: Config, w: World, x: Sample, ring: Ring)
    requires ValidConfig(c) && Inv(c, w)
    requires w.p.running && w.pos < c.M && x == ModelStream(c, w.fed, w.launches)[PushedCount(c, w)]
    requires ring.Valid() && |ring.slots| == c.cap && ring.Unread() == w.p.outRing.Unread() + [x]
    ensures Inv(c, PushedOne(w, x, ring))
  {
    TakeOneMore(ModelStream(c, w.fed, w.launches), PushedCount(c, w));
    DropOfAppend(w.stream, [x], w.popped);
  }

  lemma ResultIsStream(c: Config, w: World)
    requires ValidConfig(c) && Inv(c, w) && Enabled(c, w, PushResult)
    ensures w.pos < c.M && 0 <= PushedCount(c, w) < c.M * w.launches
    ensures Clean(Result(c, w)[w.pos]) == ModelStream(c, w.fed, w.launches)[PushedCount(c, w)]
  {
    StreamAt(c, w.fed, w.launches, w.launches - 1, w.pos);
  }

  lemma RoomForResult(c: Config, w: World)
    requires ValidConfig(c) && Inv(c, w) && w.p.running && w.pos < c.M
    ensures w.p.outRing.count + 1 < c.cap
  {
    SystemTotal(c, w);
  }

  lemma PushKeepsInv(c: Config, w: World)
    requires ValidConfig(c) && Inv(c, w) && Enabled(c, w, PushResult)
    ensures Inv(c, Next(c, w, PushResult))
  {
    var x := Result(c, w)[w.pos];
    ResultIsStream(c, w);
    RoomForResult(c, w);
    PushMeaning(w.p.outRing, x);
    PushedOneKeepsInv(c, w, Clean(x), Push(w.p.outRing, x));
  }

  lemma FinishKeepsInv(c: Config, w: World)
    requires ValidConfig(c) && Inv(c, w) && Enabled(c, w, Finish)
    ensures Inv(c, Next(c, w, Finish))
  {
  }

  lemma LoadEndKeepsInv(c: Config, w: World)
    requires ValidConfig(c) && Inv(c, w) && Enabled(c, w, LoadEnd)
    ensures Inv(c, Next(c, w, LoadEnd))
  {
  }

  lemma NextKeepsInv(c: Config, w: World, e: Event)
    requires ValidConfig(c) && Inv(c, w)
    requires RunningEvent(w, e) && Enabled(c, w, e) && HasRoom(c, w, e)
    ensures Inv(c, Next(c, w, e))
  {
    match e
    case Send(block) => SendKeepsInv(c, w, block);
    case Output(read) => OutputKeepsInv(c, w, read);
    case PushResult => PushKeepsInv(c, w);
    case Finish => FinishKeepsInv(c, w);
    case LoadEnd => LoadEndKeepsInv(c, w);
  }

  lemma {:induction false} RunKeepsInv(c: Config, w: World, es: seq<Event>)
    requires ValidConfig(c) && Inv(c, w) && RoomyRun(c, w, es)
    ensures IsRun(c, w, es) && Inv(c, RunFrom(c, w, es))
    decreases |es|
  {
    if es != [] {
      NextKeepsInv(c, w, es[0]);
      RunKeepsInv(c, Next(c, w, es[0]), es[1..]);
    }
  }

  // ---- the gate ----

  /** The gate is open once M + K samples have arrived. */
  predicate GateFollowsInput(c: Config, w: World) {
    w.p.init <==> |w.fed| < c.M + c.K
  }

  lemma NextKeepsGate(c: Config, w: World, e: Event)
    requires ValidConfig(c) && Inv(c, w) && RunningEvent(w, e) && Enabled(c, w, e)
    requires GateFollowsInput(c, w)
    ensures GateFollowsInput(c, Next(c, w, e))
  {
    if e.Output? {
      AnswerIs(w, e.read);
    }
  }

  /** For blocks of any sizes, the gate opens with the block that brings the number of samples received to M + K. */
  lemma {:induction false} GateOpensWithTheInput(c: Config, w: World, es: seq<Event>)
    requires ValidConfig(c) && Inv(c, w) && GateFollowsInput(c, w) && RoomyRun(c, w, es)
    ensures IsRun(c, w, es) && GateFollowsInput(c, RunFrom(c, w, es))
    decreases |es|
  {
    if es != [] {
      NextKeepsInv(c, w, es[0]);
      NextKeepsGate(c, w, es[0]);
      GateOpensWithTheInput(c, Next(c, w, es[0]), es[1..]);
    }
  }

  // ---- what it means ----

  /** Every sample received is in the input ring, in the running inference, in the output ring, or popped. */
  lemma SystemTotal(c: Config, w: World)
    requires ValidConfig(c) && Inv(c, w)
    ensures w.p.inRing.count + InFlight(c, w) + w.p.outRing.count == Backlog(w)
    ensures InFlight(c, w) >= 0
  {
    assert w.p.inRing.count == |w.p.inRing.Unread()|;
    assert w.p.outRing.count == |w.p.outRing.Unread()|;
  }

  /** Conservation, in every state the two threads can reach from a prepared one: nothing is lost or duplicated, and
      between blocks the system holds exactly the delay. */
  lemma {:induction false} Conservation(c: Config, w0: World, es: seq<Event>)
    requires ValidConfig(c) && Inv(c, w0) && RoomyRun(c, w0, es)
    ensures IsRun(c, w0, es)
    ensures var w := RunFrom(c, w0, es);
      && w.p.inRing.count + InFlight(c, w) + w.p.outRing.count == Backlog(w) < c.cap
      && (!w.p.init && !w.mid ==> Backlog(w) == Delay(w))
  {
    RunKeepsInv(c, w0, es);
    SystemTotal(c, RunFrom(c, w0, es));
  }

  /** These samples are the model's signal from index `from` on. */
  ghost predicate IsStream(c: Config, w: World, from: int, out: seq<Sample>)
    requires ValidConfig(c) && c.M * w.launches <= |w.fed|
  {
    && 0 <= from && from + |out| <= c.M * w.launches
    && out == ModelStream(c, w.fed, w.launches)[from..from + |out|]
  }

  /** The block that starts at time t: passed through while the gate is closed, silent on a miss, and otherwise the
      model's signal delayed by exactly Delay, counted after the block. */
  ghost predicate BlockIs(c: Config, w: World, outcome: Outcome, w': World, out: seq<Sample>)
    requires ValidConfig(c) && c.M * w.launches <= |w.fed|
  {
    var n, t := |w.block|, |w.fed| - |w.block|;
    match outcome
    case PassThrough => out == w.block
    case Miss => out == Silence(n) && Delay(w') == Delay(w) + n && w'.p.counter == w.p.counter + 1
    case _ => |out| == n && IsStream(c, w, t - Delay(w'), out)
  }

  /** A stretch of the unread results is a stretch of the stream. */
  lemma UnreadIsStream(c: Config, w: World, skip: nat, n: nat)
    requires ValidConfig(c) && Inv(c, w)
    requires skip + n <= |w.p.outRing.Unread()|
    ensures w.popped + skip + n <= c.M * w.launches
    ensures w.p.outRing.Unread()[skip..skip + n]
         == ModelStream(c, w.fed, w.launches)[w.popped + skip..w.popped + skip + n]
  {
    StreamLength(c, w);
    SliceOfWindow(ModelStream(c, w.fed, w.launches), PushedCount(c, w), w.popped, skip, n);
  }

  lemma StreamLength(c: Config, w: World)
    requires ValidConfig(c) && Inv(c, w)
    ensures |w.stream| == PushedCount(c, w) <= c.M * w.launches
  {
  }

  /** What was popped before this block is the delay behind the block's start. */
  lemma PoppedBehindBlock(c: Config, w: World)
    requires Ledger(c, w) && w.mid && !w.p.init
    ensures |w.fed| - |w.block| - Delay(w) == w.popped
  {
  }

  lemma UnreadBlockIs(c: Config, w: World, skip: nat, out: seq<Sample>, from: int)
    requires ValidConfig(c) && Inv(c, w) && w.mid && !w.p.init
    requires from == |w.fed| - |w.block| - Delay(w) + skip
    requires skip + |out| <= |w.p.outRing.Unread()| && out == w.p.outRing.Unread()[skip..skip + |out|]
    ensures IsStream(c, w, from, out)
  {
    PoppedBehindBlock(c, w);
    UnreadIsStream(c, w, skip, |out|);
  }

  lemma AnsweredBlockIs(c: Config, w: World, outcome: Outcome, p': Pipe, out: seq<Sample>)
    requires ValidConfig(c) && Inv(c, w) && w.mid
    requires outcome.PassThrough? <==> w.p.init
    requires OutputRelation(w.p, w.block, outcome, p', out)
    ensures BlockIs(c, w, outcome, Answered(w, p', out, outcome), out)
  {
    var n := |w.block|;
    var from := |w.fed| - n - Delay(Answered(w, p', out, outcome));
    match outcome
    case PassThrough =>
    case Miss =>
    case Play =>
      assert out == w.p.outRing.Unread()[0..|out|];
      UnreadBlockIs(c, w, 0, out, from);
    case DropAndPlay => UnreadBlockIs(c, w, n, out, from);
  }

  ghost predicate AnswersAsPromised(c: Config, w: World, read: Reading)
    requires ValidConfig(c) && w.p.Valid()
  {
    && c.M * w.launches <= |w.fed|
    && BlockIs(c, w, Decide(w.p, |w.block|, Seen(w, read)), OutputStep(w, read), Heard(w, read))
  }

  lemma InvAnswersAsPromised(c: Config, w: World, read: Reading)
    requires ValidConfig(c) && Inv(c, w) && w.mid && !DrainedWhileOpen(w, Output(read))
    ensures AnswersAsPromised(c, w, read)
  {
    OutputPipe(w.p, w.block, Seen(w, read));
    var (p', out) := ProcessOutput(w.p, w.block, Seen(w, read));
    AnsweredBlockIs(c, w, Decide(w.p, |w.block|, Seen(w, read)), p', out);
  }

  /** End-to-end delay, for every state reachable from a prepared or reloaded one and every block, whatever the block
      sizes. */
  lemma {:induction false} EndToEndDelay(c: Config, w0: World, es: seq<Event>, read: Reading)
    requires ValidConfig(c) && Inv(c, w0) && RoomyRun(c, w0, es)
    ensures IsRun(c, w0, es)
    ensures var w := RunFrom(c, w0, es);
      Enabled(c, w, Output(read)) && !DrainedWhileOpen(w, Output(read)) ==> AnswersAsPromised(c, w, read)
  {
    RunKeepsInv(c, w0, es);
    if RunFrom(c, w0, es).mid && !DrainedWhileOpen(RunFrom(c, w0, es), Output(read)) {
      InvAnswersAsPromised(c, RunFrom(c, w0, es), read);
    }
  }

  /**
   A repaid miss restores the delay exactly when the block that is thrown away is as long as the one that was missed:
   the counter counts blocks, the delay is in samples. (The program reports one fixed latency.)
   */
  lemma RepayRestoresDelay(c: Config, w: World)
    requires ValidConfig(c) && Inv(c, w) && w.mid && !w.p.init
    requires w.p.counter == 1 && w.p.outRing.count >= 2 * |w.block|
    ensures var w' := OutputStep(w, Whole);
      w'.p.counter == 0 && (Delay(w') == w'.openStart <==> |w.block| == w.missed - w.dropped)
  {
    OutputPipe(w.p, w.block, Seen(w, Whole));
  }
}
