/**
 The two objects of the pipeline (source/dsp/onnx/InferenceThread.cpp, OnnxProcessor.cpp). Every method is proved
 against the functions of module Protocol, for any block length and any state of the rings.
 */
module OnnxObjects {
  import opened Samples
  import opened Rings
  import opened Protocol
  import Latency

  lemma PushAllStep(r: Ring, xs: seq<Sample>, i: nat)
    requires r.Valid() && i < |xs|
    ensures PushAll(r, xs[..i + 1]) == Push(PushAll(r, xs[..i]), xs[i])
  {
    assert xs[..i + 1][..i] == xs[..i];
  }

  /** `running` stands for JUCE's thread flag, which clears when `run` returns; the session is a parameter of `Run`. */
  class InferenceThread {
    const modelInputSize: nat
    const maxModelCalcSize: nat
    const receiveRingBuffer: RingBuffer
    const onnxInputData: array<Sample>
    var init: bool
    var initSamples: nat
    var loadingModel: bool
    var running: bool

    constructor (sampleRate: nat)
      requires sampleRate > 0
      ensures Valid() && fresh(Repr()) && modelInputSize == 16384 && maxModelCalcSize == 4096
      ensures init && initSamples == 0 && !loadingModel && !running && receiveRingBuffer.Model().count == 0
    {
      modelInputSize, maxModelCalcSize := 16384, 4096;
      receiveRingBuffer := new RingBuffer(sampleRate);
      onnxInputData := new Sample[16384](_ => ZERO);
      init, initSamples, loadingModel, running := true, 0, false, false;
    }

    ghost function Repr(): set<object>
      reads this, receiveRingBuffer
    {
      {this, receiveRingBuffer, receiveRingBuffer.buffer, onnxInputData}
    }

    ghost predicate Valid()
      reads this, receiveRingBuffer
    {
      && receiveRingBuffer.Valid()
      && onnxInputData.Length == modelInputSize
      && onnxInputData != receiveRingBuffer.buffer
    }

    /** The protocol state, given the processor's part of it. */
    ghost function State(out: Ring, counter: nat): (p: Pipe)
      requires Valid()
      reads this, receiveRingBuffer, receiveRingBuffer.buffer, onnxInputData
    {
      Pipe(receiveRingBuffer.Model(), out, init, initSamples, loadingModel, running, onnxInputData[..], counter)
    }

    method Prepare(sampleRate: nat)
      requires Valid() && sampleRate > 0
      modifies this, receiveRingBuffer
      ensures Valid() && fresh(receiveRingBuffer.buffer) && receiveRingBuffer.buffer.Length == sampleRate
      ensures receiveRingBuffer.Model().count == 0 && init && initSamples == 0
      ensures loadingModel == old(loadingModel) && running == old(running)
    {
      receiveRingBuffer.Initialise(sampleRate);
      init := true;
      initSamples := 0;
    }

    method PushBlock(buffer: array<Sample>)
      requires Valid() && buffer !in Repr()
      modifies this`initSamples, receiveRingBuffer, receiveRingBuffer.buffer
      ensures Valid() && receiveRingBuffer.buffer == old(receiveRingBuffer.buffer)
      ensures receiveRingBuffer.Model() == PushAll(old(receiveRingBuffer.Model()), buffer[..])
      ensures initSamples == old(initSamples) + (if init then buffer.Length else 0)
    {
      for sample := 0 to buffer.Length
        invariant Valid() && receiveRingBuffer.buffer == old(receiveRingBuffer.buffer)
        invariant receiveRingBuffer.Model() == PushAll(old(receiveRingBuffer.Model()), buffer[..sample])
        invariant initSamples == old(initSamples) + (if init then sample else 0)
      {
        PushAllStep(old(receiveRingBuffer.Model()), buffer[..], sample);
        assert buffer[..][..sample] == buffer[..sample] && buffer[..][..sample + 1] == buffer[..sample + 1];
        receiveRingBuffer.PushSample(buffer[sample]);
        if init {
          initSamples := initSamples + 1;
        }
      }
      assert buffer[..buffer.Length] == buffer[..];
    }

    method TakeChunk()
      requires Valid()
      modifies receiveRingBuffer, onnxInputData
      ensures Valid() && receiveRingBuffer.buffer == old(receiveRingBuffer.buffer)
      ensures (onnxInputData[..], receiveRingBuffer.Model()) == PopMany(old(receiveRingBuffer.Model()), modelInputSize)
    {
      for i := 0 to onnxInputData.Length
        invariant Valid() && receiveRingBuffer.buffer == old(receiveRingBuffer.buffer)
        invariant (onnxInputData[..i], receiveRingBuffer.Model()) == PopMany(old(receiveRingBuffer.Model()), i)
      {
        var sample := receiveRingBuffer.PopSample();
        onnxInputData[i] := sample;
        assert onnxInputData[..i + 1] == onnxInputData[..i] + [sample];
      }
      assert onnxInputData[..onnxInputData.Length] == onnxInputData[..];
    }

    method SendAudio(buffer: array<Sample>)
      requires Valid() && buffer !in Repr()
      modifies this, receiveRingBuffer, receiveRingBuffer.buffer, onnxInputData
      ensures Valid() && receiveRingBuffer.buffer == old(receiveRingBuffer.buffer)
      ensures forall out: Ring, counter: nat :: out.Valid() ==>
        State(out, counter)
        == Protocol.SendAudio(modelInputSize, maxModelCalcSize, old(State(out, counter)), buffer[..])
    {
      PushBlock(buffer);
      var available := receiveRingBuffer.GetAvailableSamples();
      if !running && available >= modelInputSize && !loadingModel {
        TakeChunk();
        running := true;
      }
      if init && initSamples >= modelInputSize + maxModelCalcSize {
        init := false;
      }
    }
  }

  class OnnxProcessor {
    const inferenceThread: InferenceThread
    const receiveRingBuffer: RingBuffer
    var latencyInSamples: int
    var inferenceCounter: nat

    constructor (sampleRate: nat)
      requires sampleRate > 0
      ensures Valid() && fresh(Repr()) && inferenceCounter == 0
      ensures inferenceThread.modelInputSize == 16384 && inferenceThread.maxModelCalcSize == 4096
    {
      inferenceThread := new InferenceThread(sampleRate);
      receiveRingBuffer := new RingBuffer(sampleRate);
      latencyInSamples, inferenceCounter := 0, 0;
    }

    ghost function Repr(): set<object>
      reads this, inferenceThread, inferenceThread.receiveRingBuffer, receiveRingBuffer
    {
      {this, receiveRingBuffer, receiveRingBuffer.buffer} + inferenceThread.Repr()
    }

    ghost predicate Valid()
      reads this, inferenceThread, inferenceThread.receiveRingBuffer, receiveRingBuffer
    {
      && inferenceThread.Valid() && receiveRingBuffer.Valid()
      && inferenceThread.receiveRingBuffer != receiveRingBuffer
      && receiveRingBuffer.buffer !in inferenceThread.Repr()
    }

    ghost function State(): (p: Pipe)
      requires Valid()
      reads this, inferenceThread, inferenceThread.receiveRingBuffer, inferenceThread.receiveRingBuffer.buffer
      reads inferenceThread.onnxInputData, receiveRingBuffer, receiveRingBuffer.buffer
      ensures p.Valid()
    {
      inferenceThread.State(receiveRingBuffer.Model(), inferenceCounter)
    }

    /** Called with the inference thread idle. */
    method Prepare(fl: real -> real, sampleRate: nat, maximumBlockSize: nat)
      requires Valid() && !inferenceThread.running
      requires sampleRate > 0 && 0 < maximumBlockSize < 8000000 && Latency.RoundsLikeBinary32(fl)
      requires inferenceThread.modelInputSize == 16384 && inferenceThread.maxModelCalcSize == 4096
      modifies this, receiveRingBuffer, inferenceThread, inferenceThread.receiveRingBuffer
      ensures Valid()
      ensures var p := State();
        && |p.inRing.slots| == |p.outRing.slots| == sampleRate && p.inRing.count == 0
        && p == Pipe(p.inRing, Ring(p.outRing.slots, 0), true, 0,
                     old(inferenceThread.loadingModel), false, p.inputData, 0)
      ensures latencyInSamples == Latency.Reported(20480, maximumBlockSize)
    {
      receiveRingBuffer.Initialise(sampleRate);
      inferenceThread.Prepare(sampleRate);
      inferenceCounter := 0;
      latencyInSamples := Latency.CalculateLatency(
        fl, inferenceThread.modelInputSize + inferenceThread.maxModelCalcSize, maximumBlockSize);
    }

    /** Pops a block that nobody hears. */
    method DropBlock(numSamples: nat)
      requires Valid()
      modifies receiveRingBuffer
      ensures Valid() && receiveRingBuffer.buffer == old(receiveRingBuffer.buffer)
      ensures receiveRingBuffer.Model() == PopMany(old(receiveRingBuffer.Model()), numSamples).1
    {
      for i := 0 to numSamples
        invariant Valid() && receiveRingBuffer.buffer == old(receiveRingBuffer.buffer)
        invariant receiveRingBuffer.Model() == PopMany(old(receiveRingBuffer.Model()), i).1
      {
        var _ := receiveRingBuffer.PopSample();
      }
    }

    method PlayBlock(buffer: array<Sample>)
      requires Valid() && buffer !in Repr()
      modifies receiveRingBuffer, buffer
      ensures Valid() && receiveRingBuffer.buffer == old(receiveRingBuffer.buffer)
      ensures (buffer[..], receiveRingBuffer.Model()) == PopMany(old(receiveRingBuffer.Model()), buffer.Length)
    {
      for sample := 0 to buffer.Length
        invariant Valid() && receiveRingBuffer.buffer == old(receiveRingBuffer.buffer)
        invariant (buffer[..sample], receiveRingBuffer.Model()) == PopMany(old(receiveRingBuffer.Model()), sample)
      {
        var x := receiveRingBuffer.PopSample();
        buffer[sample] := x;
        assert buffer[..sample + 1] == buffer[..sample] + [x];
      }
      assert buffer[..buffer.Length] == buffer[..];
    }

    method MuteBlock(buffer: array<Sample>)
      modifies buffer
      ensures buffer[..] == Silence(buffer.Length)
    {
      for sample := 0 to buffer.Length
        invariant forall k :: 0 <= k < sample ==> buffer[k] == ZERO
      {
        buffer[sample] := ZERO;
      }
    }

    /** A block is available: repay a miss if another one is, then play. */
    method PlayAvailable(buffer: array<Sample>, availableSamples: nat)
      requires Valid() && buffer !in Repr()
      modifies this`inferenceCounter, receiveRingBuffer, buffer
      ensures Valid() && receiveRingBuffer.buffer == old(receiveRingBuffer.buffer)
      ensures var repays := old(inferenceCounter) > 0 && availableSamples >= 2 * buffer.Length;
        && inferenceCounter == old(inferenceCounter) - (if repays then 1 else 0)
        && (buffer[..], receiveRingBuffer.Model()) == PopMany(
             if repays then PopMany(old(receiveRingBuffer.Model()), buffer.Length).1
             else old(receiveRingBuffer.Model()),
             buffer.Length)
    {
      if inferenceCounter > 0 {
        if availableSamples >= 2 * buffer.Length {
          DropBlock(buffer.Length);
          inferenceCounter := inferenceCounter - 1;
        }
      }
      PlayBlock(buffer);
    }

    method ProcessOutput(buffer: array<Sample>)
      requires Valid() && buffer !in Repr()
      modifies this`inferenceCounter, receiveRingBuffer, buffer
      ensures Valid() && receiveRingBuffer.buffer == old(receiveRingBuffer.buffer)
      ensures var answer := Protocol.ProcessOutput(old(State()), old(buffer[..]), old(receiveRingBuffer.Model().count));
        State() == answer.0 && buffer[..] == answer.1
      ensures var n, count, misses := buffer.Length, old(receiveRingBuffer.Model().count), old(inferenceCounter);
        inferenceCounter ==
          if inferenceThread.init then misses
          else if count < n then misses + 1
          else if misses > 0 && count >= 2 * n then misses - 1
          else misses
    {
      var numSamples := buffer.Length;
      var availableSamples := receiveRingBuffer.GetAvailableSamples();
      if !inferenceThread.init {
        if availableSamples >= numSamples {
          PlayAvailable(buffer, availableSamples);
        } else {
          inferenceCounter := inferenceCounter + 1;
          MuteBlock(buffer);
        }
      }
      assert State() == old(State()).(outRing := receiveRingBuffer.Model(), counter := inferenceCounter);
    }

    /** One host callback: the protocol's Send and then its Output, with an exact count. */
    method ProcessBlock(buffer: array<Sample>)
      requires Valid() && buffer !in Repr()
      modifies this`inferenceCounter, receiveRingBuffer, buffer, inferenceThread
      modifies inferenceThread.receiveRingBuffer, inferenceThread.receiveRingBuffer.buffer
      modifies inferenceThread.onnxInputData
      ensures Valid()
      ensures var sent := Protocol.SendAudio(
          inferenceThread.modelInputSize, inferenceThread.maxModelCalcSize, old(State()), old(buffer[..]));
        (State(), buffer[..]) == Protocol.ProcessOutput(sent, old(buffer[..]), sent.outRing.count)
    {
      ghost var out := receiveRingBuffer.Model();
      inferenceThread.SendAudio(buffer);
      assert State() == inferenceThread.State(out, inferenceCounter);
      ProcessOutput(buffer);
    }

    /** The callback through which the inference thread delivers its results. */
    method OnNewProcessedBuffer(results: array<Sample>)
      requires Valid() && results !in Repr()
      modifies receiveRingBuffer, receiveRingBuffer.buffer
      ensures Valid() && receiveRingBuffer.buffer == old(receiveRingBuffer.buffer)
      ensures State() == old(State()).(outRing := PushAll(old(receiveRingBuffer.Model()), results[..]))
    {
      for sample := 0 to results.Length
        invariant Valid() && receiveRingBuffer.buffer == old(receiveRingBuffer.buffer)
        invariant receiveRingBuffer.Model() == PushAll(old(receiveRingBuffer.Model()), results[..sample])
      {
        PushAllStep(old(receiveRingBuffer.Model()), results[..], sample);
        assert results[..][..sample] == results[..sample] && results[..][..sample + 1] == results[..sample + 1];
        receiveRingBuffer.PushSample(results[sample]);
      }
      assert results[..results.Length] == results[..];
    }

    method OnModelLoaded()
      requires Valid()
      modifies this`inferenceCounter, receiveRingBuffer, receiveRingBuffer.buffer
      ensures Valid() && receiveRingBuffer.buffer == old(receiveRingBuffer.buffer)
      ensures State() == old(State()).(outRing := Ring(Silence(receiveRingBuffer.buffer.Length), 0), counter := 0)
    {
      receiveRingBuffer.Reset();
      inferenceCounter := 0;
    }

    /** A reload that no host callback interrupts, begun with the inference thread idle: afterwards the state is
        fresh. */
    method LoadModel(sampleRate: nat)
      requires Valid() && sampleRate > 0 && !inferenceThread.running
      modifies this`inferenceCounter, receiveRingBuffer, receiveRingBuffer.buffer
      modifies inferenceThread, inferenceThread.receiveRingBuffer
      ensures Valid()
      ensures var p := State();
        && |p.inRing.slots| == sampleRate && p.inRing.count == 0
        && p == Pipe(p.inRing, Ring(Silence(old(receiveRingBuffer.buffer.Length)), 0), true, 0,
                     false, false, p.inputData, 0)
    {
      inferenceThread.loadingModel := true;
      inferenceThread.Prepare(sampleRate);
      OnModelLoaded();
      inferenceThread.loadingModel := false;
    }
  }

  /** The delivery callback is the run of one PushResult event per result. */
  function Pushes(k: nat): seq<Event> {
    if k == 0 then [] else [PushResult] + Pushes(k - 1)
  }

  lemma {:induction false} CallbackIsPushEvents(c: Config, w: World, k: nat)
    requires w.p.Valid() && w.p.running && w.launches > 0 && w.pos + k == |Result(c, w)|
    ensures IsRun(c, w, Pushes(k))
    ensures RunFrom(c, w, Pushes(k)).p == w.p.(outRing := PushAll(w.p.outRing, Result(c, w)[w.pos..]))
    decreases k
  {
    if k > 0 {
      var xs := Result(c, w)[w.pos..];
      assert Pushes(k)[1..] == Pushes(k - 1);
      var w' := Next(c, w, PushResult);
      CallbackIsPushEvents(c, w', k - 1);
      assert Result(c, w')[w'.pos..] == xs[1..];
      PushAllFirst(w.p.outRing, xs);
    }
  }
}
