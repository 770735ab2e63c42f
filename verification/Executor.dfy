/**
 The executor: a dispatcher's outputs become a stream of protocol events for a consumer that may stop
 at any of them.
 */
module Executor {
  import opened Text
  import opened Errors

  type Part = Str

  datatype Output = Output(artifactId: Str, parts: seq<Part>, lastChunk: bool)

  /** What the dispatcher yields in turn. */
  datatype Emission = Produced(output: Output) | Fault

  datatype TaskState = Working | Completed | Failed | Canceled

  /** What the executor yields: an event, or an error. */
  datatype Yielded =
    | Submitted
    | Status(state: TaskState)
    | Artifact(id: Str, append: bool, parts: seq<Part>, lastChunk: bool)
    | Failure(error: Error)

  datatype Context = Context(hasMessage: bool, hasStoredTask: bool)

  // ---------- the whole stream ----------

  /** The outputs before the dispatcher's end or its first fault. */
  function Outputs(emissions: seq<Emission>): (outputs: seq<Output>)
    ensures |outputs| <= |emissions|
    ensures forall i | 0 <= i < |outputs| :: emissions[i] == Produced(outputs[i])
    ensures |outputs| < |emissions| ==> emissions[|outputs|].Fault?
  {
    if emissions == [] || emissions[0].Fault? then [] else [emissions[0].output] + Outputs(emissions[1..])
  }

  /**
   The artifact ids handed out so far, by the dispatcher's own keys; `gen(k)` is the k-th id that the
   library makes up.
   */
  function Ids(outputs: seq<Output>, gen: nat -> Str): map<Str, Str> {
    if outputs == [] then map[]
    else
      var ids, output := Ids(outputs[..|outputs| - 1], gen), outputs[|outputs| - 1];
      if output.parts == [] || output.artifactId in ids then ids
      else ids[output.artifactId := NewId(output, ids, gen)]
  }

  function NewId(output: Output, ids: map<Str, Str>, gen: nat -> Str): Str {
    if output.artifactId != [] then output.artifactId else gen(|ids|)
  }

  function EventOf(output: Output, ids: map<Str, Str>, gen: nat -> Str): Yielded {
    if output.artifactId in ids then Artifact(ids[output.artifactId], true, output.parts, output.lastChunk)
    else Artifact(NewId(output, ids, gen), false, output.parts, output.lastChunk)
  }

  function ArtifactEvents(outputs: seq<Output>, gen: nat -> Str): seq<Yielded> {
    if outputs == [] then []
    else
      var init, output := outputs[..|outputs| - 1], outputs[|outputs| - 1];
      ArtifactEvents(init, gen) + if output.parts == [] then [] else [EventOf(output, Ids(init, gen), gen)]
  }

  function Opening(ctx: Context): seq<Yielded> {
    (if ctx.hasStoredTask then [] else [Submitted]) + [Status(Working)]
  }

  /** What a consumer that never stops receives. */
  function Stream(ctx: Context, emissions: seq<Emission>, gen: nat -> Str): seq<Yielded> {
    if !ctx.hasMessage then [Failure(MessageRequired)]
    else
      var outputs := Outputs(emissions);
      Opening(ctx) + ArtifactEvents(outputs, gen) + [Status(if |outputs| < |emissions| then Failed else Completed)]
  }

  // ---------- a consumer that stops ----------

  /**
   `received` is what a consumer sees of a stream: all of it, or what comes up to the first event after
   which it wants no more.
   */
  ghost predicate SeenOf(decide: seq<Yielded> -> bool, stream: seq<Yielded>, received: seq<Yielded>) {
    && received <= stream
    && (forall k | 0 < k < |received| :: decide(stream[..k]))
    && (|received| < |stream| ==> received != [] && !decide(received))
  }

  lemma SeenOnce(decide: seq<Yielded> -> bool, stream: seq<Yielded>, received: seq<Yielded>, other: seq<Yielded>)
    requires SeenOf(decide, stream, received) && SeenOf(decide, stream, other)
    ensures received == other
  {
    assert received == stream[..|received|] && other == stream[..|other|];
  }

  /** The yield function and what has come through it; it must not be called once it has returned false. */
  class Consumer {
    const decide: seq<Yielded> -> bool
    var received: seq<Yielded>
    var stopped: bool

    constructor (decide: seq<Yielded> -> bool)
      ensures this.decide == decide && received == [] && !stopped
    {
      this.decide, received, stopped := decide, [], false;
    }

    method Yield(event: Yielded) returns (more: bool)
      requires !stopped
      modifies this
      ensures received == old(received) + [event]
      ensures more == decide(received) && stopped == !more
    {
      received := received + [event];
      more := decide(received);
      stopped := !more;
    }
  }

  /** The dispatcher's next emission adds an output, or ends the outputs. */
  lemma {:induction false} NextOutput(emissions: seq<Emission>, outputs: seq<Output>)
    requires outputs <= Outputs(emissions)
    ensures |outputs| <= |emissions|
    ensures |outputs| == |emissions| ==> outputs == Outputs(emissions)
    ensures |outputs| < |emissions| && emissions[|outputs|].Fault? ==> outputs == Outputs(emissions)
    ensures |outputs| < |emissions| && emissions[|outputs|].Produced? ==>
              outputs + [emissions[|outputs|].output] <= Outputs(emissions)
  {
    var all := Outputs(emissions);
    hide Outputs;
    if |outputs| < |all| {
      assert emissions[|outputs|] == Produced(all[|outputs|]);
      assert outputs + [all[|outputs|]] == all[..|outputs| + 1];
    } else {
      assert outputs == all;
    }
  }

  lemma {:induction false} EventsPrefix(outputs: seq<Output>, n: nat, gen: nat -> Str)
    requires n <= |outputs|
    ensures ArtifactEvents(outputs[..n], gen) <= ArtifactEvents(outputs, gen)
    decreases |outputs|
  {
    if n < |outputs| {
      var init := outputs[..|outputs| - 1];
      EventsPrefix(init, n, gen);
      assert init[..n] == outputs[..n];
    } else {
      assert outputs[..n] == outputs;
    }
  }

  /** What has been yielded after some outputs of a dispatcher that is still going on. */
  function SoFar(ctx: Context, outputs: seq<Output>, gen: nat -> Str): seq<Yielded> {
    Opening(ctx) + ArtifactEvents(outputs, gen)
  }

  lemma SoFarOneMore(outputs: seq<Output>, output: Output, ctx: Context, gen: nat -> Str)
    ensures Ids(outputs + [output], gen) ==
            if output.parts == [] || output.artifactId in Ids(outputs, gen) then Ids(outputs, gen)
            else Ids(outputs, gen)[output.artifactId := NewId(output, Ids(outputs, gen), gen)]
    ensures SoFar(ctx, outputs + [output], gen) ==
            if output.parts == [] then SoFar(ctx, outputs, gen)
            else SoFar(ctx, outputs, gen) + [EventOf(output, Ids(outputs, gen), gen)]
  {
    assert (outputs + [output])[..|outputs|] == outputs;
  }

  /** It is the beginning of the whole stream, and all of it but the last event when the dispatcher is done. */
  lemma {:induction false} StreamSoFar(ctx: Context, emissions: seq<Emission>, outputs: seq<Output>, gen: nat -> Str)
    requires ctx.hasMessage && outputs <= Outputs(emissions)
    ensures SoFar(ctx, outputs, gen) < Stream(ctx, emissions, gen)
    ensures outputs == Outputs(emissions) ==>
              Stream(ctx, emissions, gen)
              == SoFar(ctx, outputs, gen) + [Status(if |outputs| < |emissions| then Failed else Completed)]
  {
    var all := Outputs(emissions);
    assert all[..|outputs|] == outputs;
    EventsPrefix(all, |outputs|, gen);
  }

  /** The consumer has asked for more after each event so far. */
  ghost predicate Wants(decide: seq<Yielded> -> bool, received: seq<Yielded>) {
    forall k | 0 < k <= |received| :: decide(received[..k])
  }

  lemma OneMoreSeen(decide: seq<Yielded> -> bool, stream: seq<Yielded>, received: seq<Yielded>, event: Yielded)
    requires Wants(decide, received) && received + [event] <= stream
    ensures decide(received + [event]) ==> Wants(decide, received + [event])
    ensures !decide(received + [event]) || received + [event] == stream ==> SeenOf(decide, stream, received + [event])
  {
    var r := received + [event];
    assert forall k | 0 < k <= |received| :: r[..k] == received[..k] == stream[..k];
    assert r[..|r|] == r;
  }

  /** The consumer sees the whole stream, or exactly the part up to where it stopped, and is never called again. */
  method Execute(ctx: Context, emissions: seq<Emission>, gen: nat -> Str, consumer: Consumer)
    requires consumer.received == [] && !consumer.stopped
    modifies consumer
    ensures SeenOf(consumer.decide, Stream(ctx, emissions, gen), consumer.received)
  {
    ghost var stream, decide := Stream(ctx, emissions, gen), consumer.decide;
    assert Wants(decide, []);
    if !ctx.hasMessage {
      OneMoreSeen(decide, stream, [], Failure(MessageRequired));
      var _ := consumer.Yield(Failure(MessageRequired));
      return;
    }
    assert Ids([], gen) == map[] && SoFar(ctx, [], gen) == Opening(ctx);
    StreamSoFar(ctx, emissions, [], gen);
    hide Outputs, Stream, Ids, SoFar, ArtifactEvents, Wants, SeenOf;
    if !ctx.hasStoredTask {
      OneMoreSeen(decide, stream, [], Submitted);
      var more := consumer.Yield(Submitted);
      if !more {
        return;
      }
    }
    OneMoreSeen(decide, stream, consumer.received, Status(Working));
    var more := consumer.Yield(Status(Working));
    if !more {
      return;
    }
    var artifacts: map<Str, Str> := map[];
    var generated := 0;
    ghost var outputs: seq<Output> := [];
    for i := 0 to |emissions|
      invariant |outputs| == i && outputs <= Outputs(emissions)
      invariant artifacts == Ids(outputs, gen) && generated == |artifacts|
      invariant consumer.received == SoFar(ctx, outputs, gen)
      invariant !consumer.stopped && Wants(decide, consumer.received)
    {
      NextOutput(emissions, outputs);
      if emissions[i].Fault? {
        StreamSoFar(ctx, emissions, outputs, gen);
        OneMoreSeen(decide, stream, consumer.received, Status(Failed));
        var _ := consumer.Yield(Status(Failed));
        return;
      }
      var output := emissions[i].output;
      StreamSoFar(ctx, emissions, outputs + [output], gen);
      SoFarOneMore(outputs, output, ctx, gen);
      if |output.parts| > 0 {
        var artifactKey := output.artifactId;
        var event: Yielded;
        if artifactKey !in artifacts {
          event := Artifact(gen(generated), false, output.parts, false);
          generated := generated + 1;
          if output.artifactId != [] {
            event := event.(id := output.artifactId);
          }
          artifacts := artifacts[artifactKey := event.id];
        } else {
          event := Artifact(artifacts[artifactKey], true, output.parts, false);
        }
        event := event.(lastChunk := output.lastChunk);
        OneMoreSeen(decide, stream, consumer.received, event);
        more := consumer.Yield(event);
        if !more {
          return;
        }
      }
      outputs := outputs + [output];
    }
    NextOutput(emissions, outputs);
    StreamSoFar(ctx, emissions, outputs, gen);
    OneMoreSeen(decide, stream, consumer.received, Status(Completed));
    var _ := consumer.Yield(Status(Completed));
  }

  /** One event, or one error, whatever the dispatcher says. */
  method Cancel(fault: bool, consumer: Consumer)
    requires consumer.received == [] && !consumer.stopped
    modifies consumer
    ensures consumer.received == [if fault then Failure(InternalError) else Status(Canceled)]
  {
    if fault {
      var _ := consumer.Yield(Failure(InternalError));
      return;
    }
    var _ := consumer.Yield(Status(Canceled));
  }
}
