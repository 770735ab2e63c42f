/** What can be said of the executor's event stream: its grammar, and that it carries every artifact whole. */
module ExecutorStream {
  import opened Text
  import opened Errors
  import opened Executor

  // ---------- the grammar ----------

  datatype Phase = Fresh | Accepted | Running | Over

  /** The events that may come in each phase. */
  function Advance(ctx: Context, phase: Phase, event: Yielded): Option<Phase> {
    match phase
    case Fresh =>
      if !ctx.hasMessage then (if event == Failure(MessageRequired) then Some(Over) else None)
      else if !ctx.hasStoredTask then (if event == Submitted then Some(Accepted) else None)
      else if event == Status(Working) then Some(Running)
      else None
    case Accepted => if event == Status(Working) then Some(Running) else None
    case Running =>
      if event.Artifact? then Some(Running)
      else if event == Status(Completed) || event == Status(Failed) then Some(Over)
      else None
    case Over => None
  }

  function Follow(ctx: Context, events: seq<Yielded>): Option<Phase> {
    if events == [] then Some(Fresh)
    else
      match Follow(ctx, events[..|events| - 1])
      case None => None
      case Some(phase) => Advance(ctx, phase, events[|events| - 1])
  }

  lemma FollowOneMore(ctx: Context, events: seq<Yielded>, event: Yielded)
    ensures Follow(ctx, events + [event]) ==
            match Follow(ctx, events) case None => None case Some(phase) => Advance(ctx, phase, event)
  {
    assert (events + [event])[..|events|] == events;
  }

  lemma FollowOpening(ctx: Context)
    requires ctx.hasMessage
    ensures Follow(ctx, Opening(ctx)) == Some(Running)
  {
    FollowOneMore(ctx, [], Opening(ctx)[0]);
    assert [] + [Opening(ctx)[0]] == [Opening(ctx)[0]];
    if !ctx.hasStoredTask {
      FollowOneMore(ctx, [Submitted], Status(Working));
    }
  }

  lemma {:induction false} FollowArtifacts(ctx: Context, outputs: seq<Output>, gen: nat -> Str)
    requires ctx.hasMessage
    ensures Follow(ctx, SoFar(ctx, outputs, gen)) == Some(Running)
  {
    hide Follow, Opening;
    if outputs == [] {
      FollowOpening(ctx);
      assert SoFar(ctx, outputs, gen) == Opening(ctx);
    } else {
      var init, output := outputs[..|outputs| - 1], outputs[|outputs| - 1];
      FollowArtifacts(ctx, init, gen);
      assert outputs == init + [output];
      SoFarOneMore(init, output, ctx, gen);
      FollowOneMore(ctx, SoFar(ctx, init, gen), EventOf(output, Ids(init, gen), gen));
    }
  }

  lemma FollowStream(ctx: Context, emissions: seq<Emission>, gen: nat -> Str)
    ensures Follow(ctx, Stream(ctx, emissions, gen)) == Some(Over)
  {
    if ctx.hasMessage {
      var outputs := Outputs(emissions);
      var last := Status(if |outputs| < |emissions| then Failed else Completed);
      FollowArtifacts(ctx, outputs, gen);
      FollowOneMore(ctx, SoFar(ctx, outputs, gen), last);
    } else {
      FollowOneMore(ctx, [], Failure(MessageRequired));
    }
  }

  /** What may be followed to the end is followed all along, and it is not over before the end. */
  lemma {:induction false} FollowPrefix(ctx: Context, events: seq<Yielded>, n: nat)
    requires n <= |events| && Follow(ctx, events).Some?
    ensures Follow(ctx, events[..n]).Some?
    ensures n < |events| ==> Follow(ctx, events[..n]) != Some(Over)
    decreases |events|
  {
    if n < |events| {
      var init := events[..|events| - 1];
      FollowPrefix(ctx, init, n);
      assert init[..n] == events[..n];
    } else {
      assert events[..n] == events;
    }
  }

  /**
   Whatever a consumer sees is allowed by the grammar, and it has seen everything exactly when it
   has seen the event that ends the stream.
   */
  lemma Grammar(ctx: Context, emissions: seq<Emission>, gen: nat -> Str, decide: seq<Yielded> -> bool,
          received: seq<Yielded>)
    requires SeenOf(decide, Stream(ctx, emissions, gen), received)
    ensures Follow(ctx, received).Some?
    ensures Follow(ctx, received) == Some(Over) <==> received == Stream(ctx, emissions, gen)
  {
    hide Stream;
    var stream := Stream(ctx, emissions, gen);
    FollowStream(ctx, emissions, gen);
    FollowPrefix(ctx, stream, |received|);
    assert stream[..|received|] == received;
  }

  /** Completed is the last event exactly when the dispatcher never failed. */
  lemma EndsAsDispatched(ctx: Context, emissions: seq<Emission>, gen: nat -> Str)
    requires ctx.hasMessage
    ensures
      var stream := Stream(ctx, emissions, gen);
      var last := stream[|stream| - 1];
      && (last == Status(Completed) || last == Status(Failed))
      && (last == Status(Failed) <==> exists i | 0 <= i < |emissions| :: emissions[i].Fault?)
  {
  }

  // ---------- the chunks ----------

  /** The outputs that carry parts. */
  function Chunks(outputs: seq<Output>): seq<Output> {
    if outputs == [] then []
    else
      var init, output := outputs[..|outputs| - 1], outputs[|outputs| - 1];
      Chunks(init) + if output.parts == [] then [] else [output]
  }

  predicate HasKey(chunks: seq<Output>, key: Str) {
    exists k | 0 <= k < |chunks| :: chunks[k].artifactId == key
  }

  lemma HasKeyMore(chunks: seq<Output>, output: Output, key: Str)
    ensures HasKey(chunks + [output], key) <==> HasKey(chunks, key) || output.artifactId == key
  {
    var more := chunks + [output];
    assert more[|chunks|] == output;
    if k :| 0 <= k < |chunks| && chunks[k].artifactId == key {
      assert more[k].artifactId == key;
    }
  }

  lemma {:induction false} IdsHold(outputs: seq<Output>, gen: nat -> Str, key: Str)
    ensures key in Ids(outputs, gen) <==> HasKey(Chunks(outputs), key)
    ensures key in Ids(outputs, gen) && key != [] ==> Ids(outputs, gen)[key] == key
  {
    if outputs != [] {
      var init, output := outputs[..|outputs| - 1], outputs[|outputs| - 1];
      IdsHold(init, gen, key);
      HasKeyMore(Chunks(init), output, key);
      assert Chunks(init) + [] == Chunks(init);
    }
  }

  /**
   One artifact event for each output with parts, in order, with its parts and its mark of the last
   chunk, under the id of its key; it appends exactly when the key has been seen before.
   */
  lemma {:induction false} EventsMirrorChunks(outputs: seq<Output>, gen: nat -> Str)
    ensures |ArtifactEvents(outputs, gen)| == |Chunks(outputs)|
    ensures forall k | 0 <= k < |Chunks(outputs)| ::
              var event, chunk := ArtifactEvents(outputs, gen)[k], Chunks(outputs)[k];
              && event.Artifact? && event.parts == chunk.parts && event.lastChunk == chunk.lastChunk
              && (event.append <==> HasKey(Chunks(outputs)[..k], chunk.artifactId))
              && chunk.artifactId in Ids(outputs, gen) && event.id == Ids(outputs, gen)[chunk.artifactId]
  {
    if outputs != [] {
      var init, output := outputs[..|outputs| - 1], outputs[|outputs| - 1];
      EventsMirrorChunks(init, gen);
      IdsHold(init, gen, output.artifactId);
      hide HasKey;
      var chunks, events := Chunks(outputs), ArtifactEvents(outputs, gen);
      assert chunks[..|Chunks(init)|] == Chunks(init);
      forall k | 0 <= k < |Chunks(init)|
        ensures chunks[k] == Chunks(init)[k] && events[k] == ArtifactEvents(init, gen)[k]
            && chunks[..k] == Chunks(init)[..k]
      {
      }
    }
  }

  // ---------- the whole stream, event by event ----------

  function KeysOf(chunks: seq<Output>): set<Str> {
    set k | 0 <= k < |chunks| :: chunks[k].artifactId
  }

  /** The place of the first chunk without an artifact id, if there is one. */
  function FirstUnnamed(chunks: seq<Output>): (n: nat)
    ensures n <= |chunks| && forall k | 0 <= k < n :: chunks[k].artifactId != []
    ensures n < |chunks| ==> chunks[n].artifactId == []
  {
    if chunks == [] || chunks[0].artifactId == [] then 0 else 1 + FirstUnnamed(chunks[1..])
  }

  lemma FirstIs(chunks: seq<Output>, n: nat)
    requires n <= |chunks| && forall k | 0 <= k < n :: chunks[k].artifactId != []
    requires n < |chunks| ==> chunks[n].artifactId == []
    ensures FirstUnnamed(chunks) == n
  {
    hide FirstUnnamed;
    var _ := FirstUnnamed(chunks);
  }

  lemma FirstStays(chunks: seq<Output>, output: Output)
    ensures FirstUnnamed(chunks + [output])
         == if FirstUnnamed(chunks) < |chunks| || output.artifactId == [] then FirstUnnamed(chunks) else |chunks| + 1
  {
    hide FirstUnnamed;
    var more, n := chunks + [output], FirstUnnamed(chunks);
    FirstIs(more, if n < |chunks| || output.artifactId == [] then n else |chunks| + 1);
  }

  lemma OneMoreKey(chunks: seq<Output>, output: Output)
    ensures KeysOf(chunks + [output]) == KeysOf(chunks) + {output.artifactId}
  {
    var more := chunks + [output];
    assert more[|chunks|] == output;
    forall key
      ensures key in KeysOf(more) <==> key in KeysOf(chunks) || key == output.artifactId
    {
      if key in KeysOf(chunks) {
        var k :| 0 <= k < |chunks| && chunks[k].artifactId == key;
        assert more[k].artifactId == key;
      }
    }
  }

  /** The id that the library makes up once it has made one up for each key before the first chunk without one. */
  function MadeUp(chunks: seq<Output>, gen: nat -> Str): Str {
    gen(|KeysOf(chunks[..FirstUnnamed(chunks)])|)
  }

  /** A chunk keeps the artifact id that it has; those without one share the id made up for the first of them. */
  function IdOf(chunks: seq<Output>, k: nat, gen: nat -> Str): Str
    requires k < |chunks|
  {
    if chunks[k].artifactId != [] then chunks[k].artifactId else MadeUp(chunks, gen)
  }

  lemma MadeUpStays(chunks: seq<Output>, output: Output, gen: nat -> Str)
    ensures FirstUnnamed(chunks) < |chunks| ==> MadeUp(chunks + [output], gen) == MadeUp(chunks, gen)
    ensures FirstUnnamed(chunks) == |chunks| && output.artifactId == [] ==>
              MadeUp(chunks + [output], gen) == gen(|KeysOf(chunks)|)
  {
    hide KeysOf, FirstUnnamed;
    FirstStays(chunks, output);
    var n := FirstUnnamed(chunks);
    assert (chunks + [output])[..n] == chunks[..n] && chunks[..|chunks|] == chunks;
  }

  /** What the ids are, in terms of the chunks. */
  ghost predicate HandedOut(ids: map<Str, Str>, chunks: seq<Output>, gen: nat -> Str) {
    && ids.Keys == KeysOf(chunks)
    && ([] in ids <==> FirstUnnamed(chunks) < |chunks|)
    && ([] in ids ==> ids[[]] == MadeUp(chunks, gen))
  }

  lemma HandsOut(ids: map<Str, Str>, chunks: seq<Output>, output: Output, gen: nat -> Str)
    requires HandedOut(ids, chunks, gen)
    ensures HandedOut(if output.artifactId in ids then ids else ids[output.artifactId := NewId(output, ids, gen)],
                      chunks + [output], gen)
  {
    hide KeysOf, FirstUnnamed, MadeUp;
    assert |ids| == |ids.Keys|;
    FirstStays(chunks, output);
    OneMoreKey(chunks, output);
    MadeUpStays(chunks, output, gen);
  }

  /** Ids are handed out to the keys that have come with parts, one at a time. */
  lemma {:induction false} IdsHandedOut(outputs: seq<Output>, gen: nat -> Str)
    ensures HandedOut(Ids(outputs, gen), Chunks(outputs), gen)
  {
    hide HandedOut, Chunks;
    if outputs == [] {
      NoChunks(gen);
    } else {
      var init, output := outputs[..|outputs| - 1], outputs[|outputs| - 1];
      assert outputs == init + [output];
      IdsHandedOut(init, gen);
      EventsOneMore(init, output, gen);
      ChunksOneMore(init, output);
      HandsOut(Ids(init, gen), Chunks(init), output, gen);
    }
  }

  lemma NoChunks(gen: nat -> Str)
    ensures HandedOut(Ids([], gen), Chunks([]), gen)
  {
  }

  lemma ChunksOneMore(outputs: seq<Output>, output: Output)
    ensures Chunks(outputs + [output]) == if output.parts == [] then Chunks(outputs) else Chunks(outputs) + [output]
  {
    assert (outputs + [output])[..|outputs|] == outputs;
  }

  /** The event for each chunk, with nothing left open. */
  lemma ArtifactEventIs(outputs: seq<Output>, gen: nat -> Str, k: nat)
    requires k < |Chunks(outputs)|
    ensures |ArtifactEvents(outputs, gen)| == |Chunks(outputs)|
    ensures
      var chunk := Chunks(outputs)[k];
      ArtifactEvents(outputs, gen)[k]
      == Artifact(IdOf(Chunks(outputs), k, gen), HasKey(Chunks(outputs)[..k], chunk.artifactId), chunk.parts,
                  chunk.lastChunk)
  {
    hide Ids, ArtifactEvents, Chunks, FirstUnnamed, KeysOf;
    EventsMirrorChunks(outputs, gen);
    IdsHandedOut(outputs, gen);
    IdsHold(outputs, gen, Chunks(outputs)[k].artifactId);
  }

  /**
   The stream from its first event to its last: Submitted unless the task is stored, Working, one event
   for each output with parts, and Failed exactly when the dispatcher failed, else Completed.
   */
  lemma StreamIs(ctx: Context, emissions: seq<Emission>, gen: nat -> Str)
    ensures
      var stream, chunks := Stream(ctx, emissions, gen), Chunks(Outputs(emissions));
      var start := if ctx.hasStoredTask then 1 else 2;
      if !ctx.hasMessage then stream == [Failure(MessageRequired)]
      else
        && |stream| == start + |chunks| + 1
        && (!ctx.hasStoredTask ==> stream[0] == Submitted) && stream[start - 1] == Status(Working)
        && (forall k | 0 <= k < |chunks| ::
              stream[start + k]
              == Artifact(IdOf(chunks, k, gen), HasKey(chunks[..k], chunks[k].artifactId), chunks[k].parts,
                          chunks[k].lastChunk))
        && stream[start + |chunks|]
           == Status(if exists i | 0 <= i < |emissions| :: emissions[i].Fault? then Failed else Completed)
  {
    hide Chunks, IdOf, HasKey, ArtifactEvents;
    if ctx.hasMessage {
      var chunks, outputs := Chunks(Outputs(emissions)), Outputs(emissions);
      EventsMirrorChunks(outputs, gen);
      forall k | 0 <= k < |chunks|
        ensures ArtifactEvents(outputs, gen)[k]
                == Artifact(IdOf(chunks, k, gen), HasKey(chunks[..k], chunks[k].artifactId), chunks[k].parts,
                            chunks[k].lastChunk)
      {
        ArtifactEventIs(outputs, gen, k);
      }
    }
  }

  // ---------- reassembly ----------

  /** What a client makes of artifact events: a fresh artifact replaces, an appended one is added to what is there. */
  function Reassembled(events: seq<Yielded>): map<Str, seq<Part>> {
    if events == [] then map[]
    else
      var before, event := Reassembled(events[..|events| - 1]), events[|events| - 1];
      if !event.Artifact? then before
      else if event.append && event.id in before then before[event.id := before[event.id] + event.parts]
      else before[event.id := event.parts]
  }

  /** All parts that the dispatcher produced for a key, in order. */
  function PartsOf(outputs: seq<Output>, key: Str): seq<Part> {
    if outputs == [] then []
    else
      var init, output := outputs[..|outputs| - 1], outputs[|outputs| - 1];
      PartsOf(init, key) + if output.artifactId == key then output.parts else []
  }

  /** The id made up for the outputs without one is not the id of another artifact. */
  predicate Clear(ids: map<Str, Str>) {
    [] in ids && ids[[]] != [] ==> ids[[]] !in ids
  }

  /** Which is to say that different keys have different ids. */
  lemma ClearMeansOwnIds(outputs: seq<Output>, gen: nat -> Str)
    ensures
      var ids := Ids(outputs, gen);
      Clear(ids) <==> forall a, b | a in ids && b in ids && a != b :: ids[a] != ids[b]
  {
    var ids := Ids(outputs, gen);
    forall key | key in ids && key != []
      ensures ids[key] == key
    {
      IdsHold(outputs, gen, key);
    }
  }

  /** Each key with parts has an id, each artifact is that of a key, and it has the parts of its key. */
  ghost predicate Whole(outputs: seq<Output>, ids: map<Str, Str>, artifacts: map<Str, seq<Part>>) {
    && (forall key :: key in ids <==> PartsOf(outputs, key) != [])
    && (forall key | key in ids :: ids[key] in artifacts && artifacts[ids[key]] == PartsOf(outputs, key))
    && (forall id | id in artifacts :: exists key | key in ids :: ids[key] == id)
  }

  lemma ReassembledOneMore(events: seq<Yielded>, event: Yielded)
    ensures Reassembled(events + [event]) ==
            if !event.Artifact? then Reassembled(events)
            else if event.append && event.id in Reassembled(events) then
              Reassembled(events)[event.id := Reassembled(events)[event.id] + event.parts]
            else Reassembled(events)[event.id := event.parts]
  {
    assert (events + [event])[..|events|] == events;
  }

  lemma NewKey(outputs: seq<Output>, output: Output, ids: map<Str, Str>, artifacts: map<Str, seq<Part>>, id: Str)
    requires Whole(outputs, ids, artifacts) && output.parts != []
    requires output.artifactId !in ids && forall key | key in ids :: ids[key] != id
    ensures Whole(outputs + [output], ids[output.artifactId := id], artifacts[id := output.parts])
  {
    hide PartsOf;
    PartsGrow(outputs, output);
    var key, ids', artifacts' := output.artifactId, ids[output.artifactId := id], artifacts[id := output.parts];
    assert ids'[key] == id;
    assert forall x | x in artifacts && x != id :: exists k | k in ids :: ids[k] == x && ids'[k] == x;
  }

  lemma KnownKey(outputs: seq<Output>, output: Output, ids: map<Str, Str>, artifacts: map<Str, seq<Part>>)
    requires Whole(outputs, ids, artifacts) && output.parts != []
    requires output.artifactId in ids
    requires forall key | key in ids && key != output.artifactId :: ids[key] != ids[output.artifactId]
    ensures
      var id := ids[output.artifactId];
      Whole(outputs + [output], ids, artifacts[id := artifacts[id] + output.parts])
  {
    hide PartsOf;
    PartsGrow(outputs, output);
  }

  lemma PartsGrow(outputs: seq<Output>, output: Output)
    ensures forall key ::
              PartsOf(outputs + [output], key)
              == if output.artifactId == key then PartsOf(outputs, key) + output.parts else PartsOf(outputs, key)
  {
    forall key
      ensures PartsOf(outputs + [output], key)
              == if output.artifactId == key then PartsOf(outputs, key) + output.parts else PartsOf(outputs, key)
    {
      PartsOneMore(outputs, output, key);
    }
  }

  lemma WholeOneMore(outputs: seq<Output>, output: Output, gen: nat -> Str)
    requires Whole(outputs, Ids(outputs, gen), Reassembled(ArtifactEvents(outputs, gen)))
    requires Clear(Ids(outputs + [output], gen)) && output.parts != []
    ensures Whole(outputs + [output], Ids(outputs + [output], gen),
        Reassembled(ArtifactEvents(outputs + [output], gen)))
  {
    hide Ids, ArtifactEvents, Reassembled, Clear, Whole;
    var ids, events := Ids(outputs, gen), ArtifactEvents(outputs, gen);
    EventsOneMore(outputs, output, gen);
    ReassembledOneMore(events, EventOf(output, ids, gen));
    ClearMeansOwnIds(outputs + [output], gen);
    if output.artifactId in ids {
      KnownArtifact(outputs, ids, Reassembled(events), output.artifactId);
      KnownKey(outputs, output, ids, Reassembled(events));
    } else {
      var ids' := Ids(outputs + [output], gen);
      assert forall key | key in ids :: ids'[key] == ids[key] && ids'[key] != ids'[output.artifactId];
      NewKey(outputs, output, ids, Reassembled(events), NewId(output, ids, gen));
    }
  }

  lemma KnownArtifact(outputs: seq<Output>, ids: map<Str, Str>, artifacts: map<Str, seq<Part>>, key: Str)
    requires Whole(outputs, ids, artifacts) && key in ids
    ensures ids[key] in artifacts
  {
  }

  lemma PartsOneMore(outputs: seq<Output>, output: Output, key: Str)
    ensures PartsOf(outputs + [output], key)
              == if output.artifactId == key then PartsOf(outputs, key) + output.parts else PartsOf(outputs, key)
  {
    assert PartsOf(outputs, key) + [] == PartsOf(outputs, key);
    assert (outputs + [output])[..|outputs|] == outputs;
  }

  lemma EventsOneMore(outputs: seq<Output>, output: Output, gen: nat -> Str)
    ensures Ids(outputs + [output], gen) ==
            if output.parts == [] || output.artifactId in Ids(outputs, gen) then Ids(outputs, gen)
            else Ids(outputs, gen)[output.artifactId := NewId(output, Ids(outputs, gen), gen)]
    ensures ArtifactEvents(outputs + [output], gen) ==
            if output.parts == [] then ArtifactEvents(outputs, gen)
            else ArtifactEvents(outputs, gen) + [EventOf(output, Ids(outputs, gen), gen)]
  {
    assert (outputs + [output])[..|outputs|] == outputs;
  }

  /** Ids are only ever added. */
  lemma ClearBefore(outputs: seq<Output>, output: Output, gen: nat -> Str)
    requires Clear(Ids(outputs + [output], gen))
    ensures Clear(Ids(outputs, gen))
  {
    hide Ids;
    EventsOneMore(outputs, output, gen);
  }

  /**
   Putting the artifact events together again gives, under the id of each key, all the parts that the
   dispatcher produced for that key, in order, however the keys were interleaved; and nothing else.
   */
  lemma {:induction false} ReassemblyIsWhole(outputs: seq<Output>, gen: nat -> Str)
    requires Clear(Ids(outputs, gen))
    ensures Whole(outputs, Ids(outputs, gen), Reassembled(ArtifactEvents(outputs, gen)))
  {
    if outputs != [] {
      var init, output := outputs[..|outputs| - 1], outputs[|outputs| - 1];
      assert outputs == init + [output];
      ClearBefore(init, output, gen);
      ReassemblyIsWhole(init, gen);
      if output.parts != [] {
        WholeOneMore(init, output, gen);
      } else {
        EmptyOutput(init, output, gen);
      }
    }
  }

  lemma EmptyOutput(outputs: seq<Output>, output: Output, gen: nat -> Str)
    requires Whole(outputs, Ids(outputs, gen), Reassembled(ArtifactEvents(outputs, gen)))
    requires output.parts == []
    ensures Whole(outputs + [output], Ids(outputs + [output], gen),
        Reassembled(ArtifactEvents(outputs + [output], gen)))
  {
    hide Ids, ArtifactEvents, Reassembled;
    EventsOneMore(outputs, output, gen);
    PartsGrow(outputs, output);
    assert forall key :: PartsOf(outputs, key) + [] == PartsOf(outputs, key);
  }

  lemma OpeningHasNone(ctx: Context)
    ensures Reassembled(Opening(ctx)) == map[]
  {
    ReassembledOneMore([], Opening(ctx)[0]);
    assert [] + [Opening(ctx)[0]] == [Opening(ctx)[0]];
    if !ctx.hasStoredTask {
      ReassembledOneMore([Submitted], Status(Working));
    }
  }

  lemma NothingYet(ctx: Context, gen: nat -> Str)
    ensures SoFar(ctx, [], gen) == Opening(ctx)
    ensures Reassembled(ArtifactEvents([], gen)) == map[]
  {
  }

  lemma {:induction false} OnlyArtifactsCount(ctx: Context, outputs: seq<Output>, gen: nat -> Str)
    ensures Reassembled(SoFar(ctx, outputs, gen)) == Reassembled(ArtifactEvents(outputs, gen))
  {
    hide SoFar, Reassembled, ArtifactEvents, Opening;
    if outputs == [] {
      NothingYet(ctx, gen);
      OpeningHasNone(ctx);
    } else {
      var init, output := outputs[..|outputs| - 1], outputs[|outputs| - 1];
      assert outputs == init + [output];
      OnlyArtifactsCount(ctx, init, gen);
      EventsOneMore(init, output, gen);
      SoFarOneMore(init, output, ctx, gen);
      var event := EventOf(output, Ids(init, gen), gen);
      ReassembledOneMore(SoFar(ctx, init, gen), event);
      ReassembledOneMore(ArtifactEvents(init, gen), event);
    }
  }

  /** The same for the whole stream of an uninterrupted run, up to the dispatcher's end or first fault. */
  lemma ArtifactsArriveWhole(ctx: Context, emissions: seq<Emission>, gen: nat -> Str)
    requires ctx.hasMessage && Clear(Ids(Outputs(emissions), gen))
    ensures Whole(Outputs(emissions), Ids(Outputs(emissions), gen), Reassembled(Stream(ctx, emissions, gen)))
  {
    var outputs := Outputs(emissions);
    var last := Status(if |outputs| < |emissions| then Failed else Completed);
    hide Reassembled, Opening;
    OnlyArtifactsCount(ctx, outputs, gen);
    ReassembledOneMore(SoFar(ctx, outputs, gen), last);
    ReassemblyIsWhole(outputs, gen);
  }

  // ---------- reassembly for a consumer that stops ----------

  /** Earlier outputs have the same ids as far as they have any, and the first of the parts. */
  lemma {:induction false} Beginning(outputs: seq<Output>, n: nat, gen: nat -> Str)
    requires n <= |outputs|
    ensures Clear(Ids(outputs, gen)) ==> Clear(Ids(outputs[..n], gen))
    ensures forall key | key in Ids(outputs[..n], gen) ::
              key in Ids(outputs, gen) && Ids(outputs, gen)[key] == Ids(outputs[..n], gen)[key]
    ensures forall key :: PartsOf(outputs[..n], key) <= PartsOf(outputs, key)
    decreases |outputs|
  {
    hide Ids, PartsOf, Clear;
    if n < |outputs| {
      var init, output := outputs[..|outputs| - 1], outputs[|outputs| - 1];
      Beginning(init, n, gen);
      assert init[..n] == outputs[..n] && outputs == init + [output];
      EventsOneMore(init, output, gen);
      PartsGrow(init, output);
      if Clear(Ids(outputs, gen)) {
        ClearBefore(init, output, gen);
      }
    } else {
      assert outputs[..n] == outputs;
    }
  }

  lemma BeforeArtifacts(ctx: Context, received: seq<Yielded>)
    requires received < Opening(ctx)
    ensures Reassembled(received) == map[]
  {
    if received != [] {
      assert received == [] + [Submitted];
      ReassembledOneMore([], Submitted);
    }
  }

  /** Every part of the stream before its last event has the artifacts of the first of the outputs. */
  lemma {:induction false} ArtifactsOfBeginning(ctx: Context, outputs: seq<Output>, gen: nat -> Str,
      received: seq<Yielded>) returns (n: nat)
    requires received <= SoFar(ctx, outputs, gen)
    ensures n <= |outputs| && Reassembled(received) == Reassembled(ArtifactEvents(outputs[..n], gen))
    decreases |outputs|
  {
    hide SoFar, Reassembled, ArtifactEvents, Opening, Ids;
    if received == SoFar(ctx, outputs, gen) {
      OnlyArtifactsCount(ctx, outputs, gen);
      assert outputs[..|outputs|] == outputs;
      return |outputs|;
    }
    NothingYet(ctx, gen);
    if outputs == [] {
      BeforeArtifacts(ctx, received);
      assert outputs[..0] == [];
      return 0;
    }
    var init, output := outputs[..|outputs| - 1], outputs[|outputs| - 1];
    assert outputs == init + [output];
    SoFarOneMore(init, output, ctx, gen);
    n := ArtifactsOfBeginning(ctx, init, gen, received);
    assert init[..n] == outputs[..n];
  }

  /**
   A consumer that stops holds, whole, the artifacts of the first `n` outputs: under the id of each key
   it has the first of the parts that the dispatcher produces for that key, and it has nothing else.
   */
  lemma ArtifactsArriveInOrder(ctx: Context, emissions: seq<Emission>, gen: nat -> Str, decide: seq<Yielded> -> bool,
      received: seq<Yielded>) returns (n: nat)
    requires ctx.hasMessage && Clear(Ids(Outputs(emissions), gen))
    requires SeenOf(decide, Stream(ctx, emissions, gen), received)
    ensures n <= |Outputs(emissions)|
    ensures
      var outputs, artifacts := Outputs(emissions), Reassembled(received);
      && Whole(outputs[..n], Ids(outputs[..n], gen), artifacts)
      && forall id | id in artifacts ::
           exists key | key in Ids(outputs, gen) ::
             Ids(outputs, gen)[key] == id && artifacts[id] <= PartsOf(outputs, key)
  {
    hide Stream, SoFar, Outputs, Ids, Reassembled, PartsOf, Clear, ArtifactEvents;
    var outputs := Outputs(emissions);
    StreamSoFar(ctx, emissions, outputs, gen);
    if received == Stream(ctx, emissions, gen) {
      n := |outputs|;
      assert outputs[..n] == outputs;
      ArtifactsArriveWhole(ctx, emissions, gen);
    } else {
      n := ArtifactsOfBeginning(ctx, outputs, gen, received);
      Beginning(outputs, n, gen);
      ReassemblyIsWhole(outputs[..n], gen);
    }
    Beginning(outputs, n, gen);
    forall id | id in Reassembled(received)
      ensures exists key | key in Ids(outputs, gen) ::
                Ids(outputs, gen)[key] == id && Reassembled(received)[id] <= PartsOf(outputs, key)
    {
      var key :| key in Ids(outputs[..n], gen) && Ids(outputs[..n], gen)[key] == id;
      assert key in Ids(outputs, gen);
    }
  }

  // ---------- a shared id ----------

  /** The first chunk of a key makes an event that does not append. */
  lemma FirstOfKey(outputs: seq<Output>, gen: nat -> Str, key: Str) returns (k: nat)
    requires key in Ids(outputs, gen)
    ensures k < |Chunks(outputs)| && k < |ArtifactEvents(outputs, gen)|
    ensures Chunks(outputs)[k].artifactId == key && !HasKey(Chunks(outputs)[..k], key)
    ensures ArtifactEvents(outputs, gen)[k].Artifact? && !ArtifactEvents(outputs, gen)[k].append
    ensures ArtifactEvents(outputs, gen)[k].id == Ids(outputs, gen)[key]
  {
    hide Ids, ArtifactEvents, Chunks;
    IdsHold(outputs, gen, key);
    k := FirstWithKey(Chunks(outputs), key);
    EventsMirrorChunks(outputs, gen);
  }

  lemma FirstWithKey(chunks: seq<Output>, key: Str) returns (k: nat)
    requires HasKey(chunks, key)
    ensures k < |chunks| && chunks[k].artifactId == key && !HasKey(chunks[..k], key)
  {
    k := 0;
    while chunks[k].artifactId != key
      invariant k < |chunks| && !HasKey(chunks[..k], key)
      invariant exists j | k <= j < |chunks| :: chunks[j].artifactId == key
      decreases |chunks| - k
    {
      k := k + 1;
    }
  }

  /** Once an id has been used, every event that carries it appends. */
  ghost predicate NeverReplaces(events: seq<Yielded>) {
    forall j, k | 0 <= j < k < |events| && events[j].Artifact? && events[k].Artifact? && events[j].id == events[k].id ::
      events[k].append
  }

  /** A client's artifacts are never replaced exactly when the made-up id is no other artifact's. */
  lemma ClearMeansNeverReplaced(outputs: seq<Output>, gen: nat -> Str)
    ensures Clear(Ids(outputs, gen)) <==> NeverReplaces(ArtifactEvents(outputs, gen))
  {
    hide Ids, ArtifactEvents, Chunks, Clear;
    var ids, events, chunks := Ids(outputs, gen), ArtifactEvents(outputs, gen), Chunks(outputs);
    ClearMeansOwnIds(outputs, gen);
    EventsMirrorChunks(outputs, gen);
    if Clear(ids) {
      forall j, k | 0 <= j < k < |events| && events[j].id == events[k].id
        ensures events[k].append
      {
        assert chunks[j].artifactId == chunks[k].artifactId;
        assert chunks[..k][j] == chunks[j];
      }
    } else {
      var a, b :| a in ids && b in ids && a != b && ids[a] == ids[b];
      var j := FirstOfKey(outputs, gen, a);
      var k := FirstOfKey(outputs, gen, b);
      assert events[j].id == events[k].id && !events[j].append && !events[k].append;
    }
  }

  /** A key has an id once parts have been produced for it. */
  lemma {:induction false} KeysWithParts(outputs: seq<Output>, gen: nat -> Str, key: Str)
    ensures key in Ids(outputs, gen) <==> PartsOf(outputs, key) != []
  {
    if outputs != [] {
      KeysWithParts(outputs[..|outputs| - 1], gen, key);
    }
  }

  /** The keys without an explicit id and with the explicit id `id` are handed out the same id. */
  predicate Shared(ids: map<Str, Str>, id: Str) {
    id != [] && [] in ids && ids[[]] == id && id in ids
  }

  lemma SharedOneMore(outputs: seq<Output>, output: Output, gen: nat -> Str, id: Str)
    requires output.parts != [] && Shared(Ids(outputs + [output], gen), id)
    requires Shared(Ids(outputs, gen), id) ==> Loses(outputs, gen, id)
    ensures Loses(outputs + [output], gen, id)
  {
    hide Ids, ArtifactEvents, Reassembled, PartsOf;
    var ids, events := Ids(outputs, gen), ArtifactEvents(outputs, gen);
    EventsOneMore(outputs, output, gen);
    ReassembledOneMore(events, EventOf(output, ids, gen));
    PartsGrow(outputs, output);
    KeysWithParts(outputs, gen, []);
    KeysWithParts(outputs, gen, id);
    IdsHold(outputs, gen, output.artifactId);
    IdsHold(outputs + [output], gen, id);
  }

  /** Under `id` there are fewer parts than were produced for the two keys that share it. */
  ghost predicate Loses(outputs: seq<Output>, gen: nat -> Str, id: Str) {
    var artifacts := Reassembled(ArtifactEvents(outputs, gen));
    id in artifacts && |artifacts[id]| < |PartsOf(outputs, [])| + |PartsOf(outputs, id)|
  }

  lemma {:induction false} SharedLoses(outputs: seq<Output>, gen: nat -> Str, id: Str)
    requires Shared(Ids(outputs, gen), id)
    ensures Loses(outputs, gen, id)
  {
    if outputs != [] {
      var init, output := outputs[..|outputs| - 1], outputs[|outputs| - 1];
      assert outputs == init + [output];
      if Shared(Ids(init, gen), id) {
        SharedLoses(init, gen, id);
      }
      if output.parts != [] {
        SharedOneMore(init, output, gen, id);
      } else {
        EmptyLoses(init, output, gen, id);
      }
    }
  }

  lemma EmptyLoses(outputs: seq<Output>, output: Output, gen: nat -> Str, id: Str)
    requires output.parts == [] && Shared(Ids(outputs + [output], gen), id)
    requires Shared(Ids(outputs, gen), id) ==> Loses(outputs, gen, id)
    ensures Loses(outputs + [output], gen, id)
  {
    hide Ids, ArtifactEvents, Reassembled, PartsOf;
    EventsOneMore(outputs, output, gen);
    PartsGrow(outputs, output);
  }

  /**
   In every stream in which the made-up id is also another artifact's, parts are lost: both keys end
   up under one id, and it holds fewer parts than the dispatcher produced for them.
   */
  lemma SharedIdLosesParts(outputs: seq<Output>, gen: nat -> Str)
    requires !Clear(Ids(outputs, gen))
    ensures
      var ids, artifacts := Ids(outputs, gen), Reassembled(ArtifactEvents(outputs, gen));
      && [] in ids && ids[[]] in ids && ids[[]] != []
      && ids[ids[[]]] == ids[[]] && ids[[]] in artifacts
      && |artifacts[ids[[]]]| < |PartsOf(outputs, [])| + |PartsOf(outputs, ids[[]])|
  {
    hide Ids, ArtifactEvents, Reassembled, PartsOf;
    var id := Ids(outputs, gen)[[]];
    IdsHold(outputs, gen, id);
    SharedLoses(outputs, gen, id);
  }
}
