/**
 The statistic that counts messages by stream, and how it agrees with the counts by type.
 */
module StreamMessages {
  import opened Options
  import opened Sums
  import opened CountTables
  import opened Source
  import opened Stats
  import opened Levels
  import FillMachine
  import opened FillInvariant
  import opened FillSteps
  import opened FillActions
  import opened Messages

  predicate ToStream(src: Source, i: int) {
    && i in src.messages && src.messages[i].recipient in src.recipients
    && src.recipients[src.messages[i].recipient].kind == STREAM
    && src.recipients[src.messages[i].recipient].typeId in src.streams
  }

  function StreamOf(src: Source, i: int): int
    requires ToStream(src, i)
  {
    src.recipients[src.messages[i].recipient].typeId
  }

  /** No message was sent to a stream before it was created. */
  ghost predicate StreamsCreated(src: Source) {
    forall i :: i in src.messages && ToStream(src, i) ==> src.streams[StreamOf(src, i)].created <= src.messages[i].sent
  }

  /** The message goes to the stream, to a stream of the realm, or to any stream. */
  predicate GoesTo(src: Source, i: int, b: Bucket) {
    ToStream(src, i)
    && match b
       case OfStream(r, s) => StreamOf(src, i) == s && src.streams[s].realm == r
       case OfRealm(r) => src.streams[StreamOf(src, i)].realm == r
       case Installation => true
       case OfUser(_, _) => false
  }

  /** The messages sent within a window to the stream, to the streams of the realm, or to any stream. */
  ghost function SentToStreams(src: Source, b: Bucket, start: int, end: int): set<int> {
    set i | i in src.messages && start <= src.messages[i].sent < end && GoesTo(src, i, b)
  }

  /** Those of them to streams created before the end of the window whose sender is a bot, or is not. */
  ghost function BotsToStreams(src: Source, b: Bucket, isBot: bool, start: int, end: int): set<int>
    requires ForeignKeys(src)
  {
    set i | i in SentToStreams(src, b, start, end) && src.streams[StreamOf(src, i)].created < end
            && src.users[src.messages[i].sender].isBot == isBot
  }

  lemma CountedInStream(src: Source, p: string, start: int, end: int, b: Bucket, i: int)
    requires ForeignKeys(src) && StreamsCreated(src)
    ensures i in SentToStreams(src, b, start, end)
       <==> (i in StreamEntries(src, p, start, end)
           && Inside(Selection(b, None))(StreamEntries(src, p, start, end)[i].group))
  {}

  lemma StreamTotal(src: Source, p: string, start: int, end: int, b: Bucket)
    requires ForeignKeys(src) && StreamsCreated(src)
    ensures Sum(Where(GroupBy(StreamEntries(src, p, start, end)), Inside(Selection(b, None))))
         == |SentToStreams(src, b, start, end)|
  {
    hide SentToStreams, Inside, ForeignKeys, StreamsCreated;
    forall i
      ensures i in SentToStreams(src, b, start, end)
         <==> (i in StreamEntries(src, p, start, end)
             && Inside(Selection(b, None))(StreamEntries(src, p, start, end)[i].group))
    {
      CountedInStream(src, p, start, end, b, i);
    }
    OnesTotal(StreamEntries(src, p, start, end), Inside(Selection(b, None)), SentToStreams(src, b, start, end));
  }

  lemma StreamBotTotal(src: Source, p: string, start: int, end: int, b: Bucket, isBot: bool)
    requires ForeignKeys(src)
    ensures Sum(Where(GroupBy(StreamEntries(src, p, start, end)),
              Inside(Selection(b, Some(Some(BoolLabel(isBot)))))))
         == |BotsToStreams(src, b, isBot, start, end)|
  {
    var sel := Selection(b, Some(Some(BoolLabel(isBot))));
    forall i
      ensures i in BotsToStreams(src, b, isBot, start, end)
         <==> (i in StreamEntries(src, p, start, end) && Inside(sel)(StreamEntries(src, p, start, end)[i].group))
    {}
    OnesTotal(StreamEntries(src, p, start, end), Inside(sel), BotsToStreams(src, b, isBot, start, end));
  }

  lemma PulledStreamBotCount(env: Env, src: Source, stat: Stat, t: int, b: Bucket, isBot: bool)
    requires ForeignKeys(src)
    ensures Sum(Where(IdealPull(env, stat, CountStreamMessages, src, t),
              Inside(Selection(b, Some(Some(BoolLabel(isBot)))))))
         == |BotsToStreams(src, b, isBot, t - stat.interval, t)|
  {
    hide BotsToStreams, Inside, ForeignKeys, StreamEntries, Where;
    StreamBotTotal(src, stat.property, t - stat.interval, t, b, isBot);
  }

  lemma PulledStreamCount(env: Env, src: Source, stat: Stat, t: int, b: Bucket)
    requires ForeignKeys(src) && StreamsCreated(src)
    ensures Sum(Where(IdealPull(env, stat, CountStreamMessages, src, t), Inside(Selection(b, None))))
         == |SentToStreams(src, b, t - stat.interval, t)|
  {
    hide SentToStreams, Inside, ForeignKeys, StreamsCreated, StreamEntries, Where;
    StreamTotal(src, stat.property, t - stat.interval, t, b);
  }

  /** A filled slot of the by-stream statistic holds, for every stream, for every realm and for the
      installation, the number of messages sent to it or to its streams. */
  lemma StoredStreamCount(env: Env, src: Source, history: seq<FillMachine.Action>, p: string, t: int, b: Bucket)
    requires ValidEnv(env) && ForeignKeys(src) && StreamsCreated(FillMachine.After(env, src, history).src) && !b.OfUser?
    requires p in env.registry && env.registry[p].collector == Pulls(CountStreamMessages)
    requires Filled(env, env.registry[p], t, t)
    requires DependenciesReach(env, FillMachine.After(env, src, history), [p], t)
    ensures TotalAt(Slot(FillMachine.After(env, src, history).rows, p, t), Selection(b, None))
         == |SentToStreams(FillMachine.After(env, src, history).src, b, t - env.registry[p].interval, t)|
  {
    hide TotalAt, Where, Inside, SentToStreams, StreamsCreated, ValidEnv, Ready, FillMachine.After, DependenciesReach,
         IdealPull, ForeignKeys, Filled;
    var sys := FillMachine.After(env, src, history);
    assert p in [p];
    Reached(env, src, history, [p], p, t);
    StoredTotal(env, sys, env.registry[p], t, Selection(b, None));
    PulledStreamCount(env, sys.src, env.registry[p], t, b);
  }

  /** And subgroup by subgroup, whenever the streams were created, the number sent by bots or by humans to
      streams created before the end time. */
  lemma StoredStreamBotCount(env: Env, src: Source, history: seq<FillMachine.Action>, p: string, t: int, b: Bucket,
                             isBot: bool)
    requires ValidEnv(env) && ForeignKeys(src) && !b.OfUser?
    requires p in env.registry && env.registry[p].collector == Pulls(CountStreamMessages)
    requires Filled(env, env.registry[p], t, t)
    requires DependenciesReach(env, FillMachine.After(env, src, history), [p], t)
    ensures ForeignKeys(FillMachine.After(env, src, history).src)
    ensures TotalAt(Slot(FillMachine.After(env, src, history).rows, p, t), Selection(b, Some(Some(BoolLabel(isBot)))))
         == |BotsToStreams(FillMachine.After(env, src, history).src, b, isBot, t - env.registry[p].interval, t)|
  {
    hide TotalAt, Where, Inside, BotsToStreams, ValidEnv, Ready, FillMachine.After, DependenciesReach,
         IdealPull, ForeignKeys, Filled;
    var sys := FillMachine.After(env, src, history);
    assert p in [p];
    Reached(env, src, history, [p], p, t);
    StoredTotal(env, sys, env.registry[p], t, Selection(b, Some(Some(BoolLabel(isBot)))));
    PulledStreamBotCount(env, sys.src, env.registry[p], t, b, isBot);
  }

  /** The messages of one true type sent within a window by anyone. */
  ghost function OfType(src: Source, start: int, end: int, kind: string): set<int>
    requires ForeignKeys(src)
  {
    set i | i in SentBy(src, Installation, start, end) && TrueType(src, i) == kind
  }

  lemma StreamTypes(src: Source, start: int, end: int, i: int)
    requires ForeignKeys(src)
    ensures i in SentToStreams(src, Installation, start, end)
       <==> (i in OfType(src, start, end, "public_stream") || i in OfType(src, start, end, "private_stream"))
    ensures !(i in OfType(src, start, end, "public_stream") && i in OfType(src, start, end, "private_stream"))
  {
    assert "private_message"[2] == 'i' && "huddle_message"[2] == 'd' && "private_stream"[2] == 'i'
        && "public_stream"[2] == 'b';
    assert |"private_message"| == 15 && |"private_stream"| == 14;
    if i in src.messages { assert KnownRecipient(src, src.recipients[src.messages[i].recipient]); }
  }

  lemma StreamTypesSplit(src: Source, start: int, end: int)
    requires ForeignKeys(src)
    ensures |SentToStreams(src, Installation, start, end)|
         == |OfType(src, start, end, "public_stream")| + |OfType(src, start, end, "private_stream")|
  {
    hide SentToStreams, OfType, ForeignKeys;
    var open, closed := OfType(src, start, end, "public_stream"), OfType(src, start, end, "private_stream");
    forall i ensures i in SentToStreams(src, Installation, start, end) <==> (i in open || i in closed)
             ensures !(i in open && i in closed)
    {
      StreamTypes(src, start, end, i);
    }
    assert open !! closed;
    assert SentToStreams(src, Installation, start, end) == open + closed;
  }

  /** Two statistics that share nothing but the messages agree: over the installation, the messages counted
      by stream are those counted under the two stream types. */
  lemma StreamConservation(env: Env, src: Source, history: seq<FillMachine.Action>, streams: string, types: string,
                           t: int)
    requires ValidEnv(env) && ForeignKeys(src) && StreamsCreated(FillMachine.After(env, src, history).src)
    requires streams in env.registry && env.registry[streams].collector == Pulls(CountStreamMessages)
    requires types in env.registry && env.registry[types].collector == Pulls(CountMessageTypes)
    requires env.registry[streams].interval == env.registry[types].interval
    requires Filled(env, env.registry[streams], t, t) && Filled(env, env.registry[types], t, t)
    requires DependenciesReach(env, FillMachine.After(env, src, history), [streams], t)
    requires DependenciesReach(env, FillMachine.After(env, src, history), [types], t)
    ensures TotalAt(Slot(FillMachine.After(env, src, history).rows, streams, t), Selection(Installation, None))
         == TotalAt(Slot(FillMachine.After(env, src, history).rows, types, t),
                    Selection(Installation, Some(Some(TextLabel("public_stream")))))
          + TotalAt(Slot(FillMachine.After(env, src, history).rows, types, t),
                    Selection(Installation, Some(Some(TextLabel("private_stream")))))
  {
    hide TotalAt, SentToStreams, SentBy, TrueType, StreamsCreated, ValidEnv, FillMachine.After, DependenciesReach,
         ForeignKeys, Filled;
    var start := t - env.registry[types].interval;
    StoredStreamCount(env, src, history, streams, t, Installation);
    StoredTypeCount(env, src, history, types, t, Installation, "public_stream");
    StoredTypeCount(env, src, history, types, t, Installation, "private_stream");
    StreamTypesSplit(FillMachine.After(env, src, history).src, start, t);
  }
}
