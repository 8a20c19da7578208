/**
 Three statistics count the same messages three ways: by hour and sender kind, by client,
 and by message type.  Their totals agree at every level.
 */
module Messages {
  import opened Options
  import opened Sums
  import opened Times
  import opened CountTables
  import opened Source
  import opened Stats
  import opened Levels
  import FillMachine
  import opened FillInvariant
  import opened FillSteps
  import opened FillInserts
  import opened FillActions

  /** No message was sent before its sender joined. */
  ghost predicate SendersJoined(src: Source) {
    forall i :: i in src.messages && src.messages[i].sender in src.users ==>
      src.users[src.messages[i].sender].joined <= src.messages[i].sent
  }

  /** The message comes from the user, from a user of the realm, or from anyone. */
  predicate From(src: Source, m: Message, b: Bucket) {
    m.sender in src.users
    && match b
       case OfUser(r, u) => m.sender == u && src.users[u].realm == r
       case OfRealm(r) => src.users[m.sender].realm == r
       case Installation => true
       case OfStream(_, _) => false
  }

  /** The messages sent within a window by the bucket's user, realm or installation. */
  ghost function SentBy(src: Source, b: Bucket, start: int, end: int): set<int> {
    set i | i in src.messages && start <= src.messages[i].sent < end && From(src, src.messages[i], b)
  }

  /** Those of them whose sender had joined before the end of the window, and is a bot, or is not. */
  ghost function SentByBots(src: Source, b: Bucket, isBot: bool, start: int, end: int): set<int> {
    set i | i in SentBy(src, b, start, end) && src.users[src.messages[i].sender].joined < end
            && src.users[src.messages[i].sender].isBot == isBot
  }

  /** Those of them whose sender had joined before the end of the window, sent with one client. */
  ghost function SentWith(src: Source, b: Bucket, client: int, start: int, end: int): set<int> {
    set i | i in SentBy(src, b, start, end) && src.users[src.messages[i].sender].joined < end
            && src.messages[i].client == client
  }

  /** The kind of audience a message was really sent to, from its own recipient alone. */
  ghost function TrueType(src: Source, i: int): string
    requires ForeignKeys(src) && i in src.messages
  {
    var r := src.recipients[src.messages[i].recipient];
    assert KnownRecipient(src, r);
    if r.kind == PERSONAL then "private_message"
    else if r.kind == HUDDLE then (if src.huddles[r.typeId].groupSize <= 2 then "private_message" else "huddle_message")
    else if src.streams[r.typeId].inviteOnly then "private_stream"
    else "public_stream"
  }

  /** The CASE expression is right although type_id is joined against streams and huddles
      whatever the recipient's kind. */
  lemma MessageTypeIsTrue(src: Source, i: int)
    requires ForeignKeys(src) && i in src.messages
    ensures src.messages[i].sender in src.users && MessageType(TypeGroupOf(src, i)) == TrueType(src, i)
  {
    assert KnownRecipient(src, src.recipients[src.messages[i].recipient]);
  }

  // ------------------------------------------------------------ base totals

  lemma OnesTotal<K, G>(entries: map<K, Entry<G>>, pred: G -> bool, chosen: set<K>)
    requires forall k :: k in entries ==> entries[k].value == 1
    requires forall k :: k in chosen <==> k in entries && pred(entries[k].group)
    ensures Sum(Where(GroupBy(entries), pred)) == |chosen|
  {
    GroupByWhere(entries, pred);
    SumOnes(Falling(entries, pred));
    assert Falling(entries, pred).Keys == chosen;
    assert |Falling(entries, pred)| == |Falling(entries, pred).Keys|;
  }

  lemma CountedTotal(src: Source, p: string, start: int, end: int, grouping: Grouping, b: Bucket)
    requires ForeignKeys(src) && SendersJoined(src)
    ensures Sum(Where(GroupBy(MessageEntries(src, p, start, end, grouping)), Inside(Selection(b, None))))
         == |SentBy(src, b, start, end)|
  {
    OnesTotal(MessageEntries(src, p, start, end, grouping), Inside(Selection(b, None)), SentBy(src, b, start, end));
  }

  lemma BotTotal(src: Source, p: string, start: int, end: int, b: Bucket, isBot: bool)
    requires ForeignKeys(src)
    ensures Sum(Where(GroupBy(MessageEntries(src, p, start, end, BySenderIsBot)),
              Inside(Selection(b, Some(Some(BoolLabel(isBot)))))))
         == |SentByBots(src, b, isBot, start, end)|
  {
    OnesTotal(MessageEntries(src, p, start, end, BySenderIsBot), Inside(Selection(b, Some(Some(BoolLabel(isBot))))),
              SentByBots(src, b, isBot, start, end));
  }

  lemma ClientTotal(src: Source, p: string, start: int, end: int, b: Bucket, client: int)
    requires ForeignKeys(src)
    ensures Sum(Where(GroupBy(MessageEntries(src, p, start, end, ByClient)),
              Inside(Selection(b, Some(Some(IdLabel(client)))))))
         == |SentWith(src, b, client, start, end)|
  {
    OnesTotal(MessageEntries(src, p, start, end, ByClient), Inside(Selection(b, Some(Some(IdLabel(client))))),
              SentWith(src, b, client, start, end));
  }

  lemma TypedTotal(src: Source, p: string, start: int, end: int, b: Bucket)
    requires ForeignKeys(src)
    ensures Sum(Where(Roll(GroupBy(TypeEntries(src, start, end)), TypeKey(p, end)), Inside(Selection(b, None))))
         == |SentBy(src, b, start, end)|
  {
    var entries := TypeEntries(src, start, end);
    RollGroupBy(entries, TypeKey(p, end));
    OnesTotal(Retag(entries, TypeKey(p, end)), Inside(Selection(b, None)), SentBy(src, b, start, end));
  }

  lemma TypeOfMessage(src: Source, p: string, start: int, end: int, b: Bucket, kind: string, i: int)
    requires ForeignKeys(src)
    ensures i in SentBy(src, b, start, end) && TrueType(src, i) == kind <==>
              && i in Retag(TypeEntries(src, start, end), TypeKey(p, end))
              && var group := Retag(TypeEntries(src, start, end), TypeKey(p, end))[i].group;
                 Inside(Selection(b, Some(Some(TextLabel(kind)))))(group)
  {
    hide TrueType, MessageType;
    if i in src.messages { MessageTypeIsTrue(src, i); }
  }

  /** The messages of one type: grouping twice counts each once, under its true type. */
  lemma TypeTotal(src: Source, p: string, start: int, end: int, b: Bucket, kind: string)
    requires ForeignKeys(src)
    ensures Sum(Where(Roll(GroupBy(TypeEntries(src, start, end)), TypeKey(p, end)),
              Inside(Selection(b, Some(Some(TextLabel(kind)))))))
         == |set i | i in SentBy(src, b, start, end) && TrueType(src, i) == kind|
  {
    hide TrueType, ForeignKeys, Inside;
    var entries := TypeEntries(src, start, end);
    var chosen := set i | i in SentBy(src, b, start, end) && TrueType(src, i) == kind;
    forall i
      ensures i in chosen
           <==> (i in Retag(entries, TypeKey(p, end))
               && Inside(Selection(b, Some(Some(TextLabel(kind)))))(Retag(entries, TypeKey(p, end))[i].group))
    {
      TypeOfMessage(src, p, start, end, b, kind, i);
    }
    RollGroupBy(entries, TypeKey(p, end));
    OnesTotal(Retag(entries, TypeKey(p, end)), Inside(Selection(b, Some(Some(TextLabel(kind))))), chosen);
  }

  // ---------------------------------------------------------- stored totals

  ghost predicate CountsMessages(stat: Stat) {
    stat.collector == Pulls(CountMessageTypes) || (stat.collector.Pulls? && stat.collector.query.CountMessages?)
  }

  lemma StoredTotal(env: Env, sys: FillMachine.System, stat: Stat, t: int, sel: Selection)
    requires Ready(env, sys, stat) && stat.collector.Pulls? && Filled(env, stat, t, t)
    requires sel.bucket.Home() == OutputOf(stat.collector.query) || sel.bucket.OfRealm? || sel.bucket == Installation
    requires FillMachine.LastSuccessfulFill(stat, sys.fill).Some?
    requires t <= FillMachine.LastSuccessfulFill(stat, sys.fill).value
    ensures TotalAt(Slot(sys.rows, stat.property, t), sel)
         == Sum(Where(IdealPull(env, stat, stat.collector.query, sys.src, t), Inside(sel)))
  {
    hide Ready, IdealPull, Complete, TotalAt, Where, Inside;
    FilledSlot(env, sys, stat, t);
    BaseShaped(env, stat, stat.collector.query, sys.src, t);
    CompleteTotal(stat, IdealPull(env, stat, stat.collector.query, sys.src, t), stat.property, t, sel);
  }

  lemma PulledCount(env: Env, src: Source, stat: Stat, t: int, b: Bucket)
    requires ForeignKeys(src) && SendersJoined(src) && CountsMessages(stat)
    ensures Sum(Where(IdealPull(env, stat, stat.collector.query, src, t), Inside(Selection(b, None))))
         == |SentBy(src, b, t - stat.interval, t)|
  {
    hide Where, Inside, SentBy, ForeignKeys, SendersJoined, MessageEntries, TypeEntries, IdealActives;
    match stat.collector.query
    case CountMessages(grouping) => CountedTotal(src, stat.property, t - stat.interval, t, grouping, b);
    case CountMessageTypes => TypedTotal(src, stat.property, t - stat.interval, t, b);
  }

  lemma PulledTypeCount(env: Env, src: Source, stat: Stat, t: int, b: Bucket, kind: string)
    requires ForeignKeys(src) && stat.collector == Pulls(CountMessageTypes)
    ensures Sum(Where(IdealPull(env, stat, CountMessageTypes, src, t),
              Inside(Selection(b, Some(Some(TextLabel(kind)))))))
         == |set i | i in SentBy(src, b, t - stat.interval, t) && TrueType(src, i) == kind|
  {
    hide Where, Inside, SentBy, ForeignKeys, TypeEntries, IdealActives, TrueType;
    TypeTotal(src, stat.property, t - stat.interval, t, b, kind);
  }

  /** A filled slot of a message-counting statistic holds, for every user, every realm and the
      installation, the number of messages sent within its interval. */
  lemma StoredCount(env: Env, sys: FillMachine.System, stat: Stat, t: int, b: Bucket)
    requires Ready(env, sys, stat) && ForeignKeys(sys.src) && SendersJoined(sys.src)
    requires CountsMessages(stat) && Filled(env, stat, t, t) && !b.OfStream?
    requires FillMachine.LastSuccessfulFill(stat, sys.fill).Some?
    requires t <= FillMachine.LastSuccessfulFill(stat, sys.fill).value
    ensures TotalAt(Slot(sys.rows, stat.property, t), Selection(b, None)) == |SentBy(sys.src, b, t - stat.interval, t)|
  {
    hide Ready, TotalAt, Where, Inside, SentBy, IdealPull, ForeignKeys, SendersJoined, Filled;
    StoredTotal(env, sys, stat, t, Selection(b, None));
    PulledCount(env, sys.src, stat, t, b);
  }

  /** The message-type statistic, type by type: at every level, the messages of that true type. */
  lemma StoredTypeCount(env: Env, src: Source, history: seq<FillMachine.Action>, p: string, t: int, b: Bucket,
                        kind: string)
    requires ValidEnv(env) && ForeignKeys(src) && !b.OfStream?
    requires p in env.registry && env.registry[p].collector == Pulls(CountMessageTypes)
    requires Filled(env, env.registry[p], t, t)
    requires DependenciesReach(env, FillMachine.After(env, src, history), [p], t)
    ensures ForeignKeys(FillMachine.After(env, src, history).src)
    ensures TotalAt(Slot(FillMachine.After(env, src, history).rows, p, t), Selection(b, Some(Some(TextLabel(kind)))))
         == |set i | i in SentBy(FillMachine.After(env, src, history).src, b, t - env.registry[p].interval, t)
                     && TrueType(FillMachine.After(env, src, history).src, i) == kind|
  {
    hide TotalAt, Where, Inside, SentBy, TrueType, ValidEnv, Ready, FillMachine.After, DependenciesReach, IdealPull,
         ForeignKeys, Filled;
    var sys := FillMachine.After(env, src, history);
    var stat := env.registry[p];
    assert p in [p];
    Reached(env, src, history, [p], p, t);
    StoredTotal(env, sys, stat, t, Selection(b, Some(Some(TextLabel(kind)))));
    PulledTypeCount(env, sys.src, stat, t, b, kind);
  }

  lemma PulledBotCount(env: Env, src: Source, stat: Stat, t: int, b: Bucket, isBot: bool)
    requires ForeignKeys(src)
    ensures Sum(Where(IdealPull(env, stat, CountMessages(BySenderIsBot), src, t),
              Inside(Selection(b, Some(Some(BoolLabel(isBot)))))))
         == |SentByBots(src, b, isBot, t - stat.interval, t)|
  {
    hide Where, Inside, SentByBots, ForeignKeys, MessageEntries, IdealActives;
    BotTotal(src, stat.property, t - stat.interval, t, b, isBot);
  }

  lemma PulledClientCount(env: Env, src: Source, stat: Stat, t: int, b: Bucket, client: int)
    requires ForeignKeys(src)
    ensures Sum(Where(IdealPull(env, stat, CountMessages(ByClient), src, t),
              Inside(Selection(b, Some(Some(IdLabel(client)))))))
         == |SentWith(src, b, client, t - stat.interval, t)|
  {
    hide Where, Inside, SentWith, ForeignKeys, MessageEntries, IdealActives;
    ClientTotal(src, stat.property, t - stat.interval, t, b, client);
  }

  /** messages_sent by is_bot, subgroup by subgroup: at every level, the messages of bots or of humans
      who had joined before the end time. */
  lemma StoredBotCount(env: Env, src: Source, history: seq<FillMachine.Action>, p: string, t: int, b: Bucket,
                       isBot: bool)
    requires ValidEnv(env) && ForeignKeys(src) && !b.OfStream?
    requires p in env.registry && env.registry[p].collector == Pulls(CountMessages(BySenderIsBot))
    requires Filled(env, env.registry[p], t, t)
    requires DependenciesReach(env, FillMachine.After(env, src, history), [p], t)
    ensures ForeignKeys(FillMachine.After(env, src, history).src)
    ensures TotalAt(Slot(FillMachine.After(env, src, history).rows, p, t), Selection(b, Some(Some(BoolLabel(isBot)))))
         == |SentByBots(FillMachine.After(env, src, history).src, b, isBot, t - env.registry[p].interval, t)|
  {
    hide TotalAt, Where, Inside, SentByBots, ValidEnv, Ready, FillMachine.After, DependenciesReach,
         IdealPull, ForeignKeys, Filled;
    var sys := FillMachine.After(env, src, history);
    assert p in [p];
    Reached(env, src, history, [p], p, t);
    StoredTotal(env, sys, env.registry[p], t, Selection(b, Some(Some(BoolLabel(isBot)))));
    PulledBotCount(env, sys.src, env.registry[p], t, b, isBot);
  }

  /** messages_sent by client, subgroup by subgroup: at every level, the messages sent with that client by
      users who had joined before the end time. */
  lemma StoredClientCount(env: Env, src: Source, history: seq<FillMachine.Action>, p: string, t: int, b: Bucket,
                          client: int)
    requires ValidEnv(env) && ForeignKeys(src) && !b.OfStream?
    requires p in env.registry && env.registry[p].collector == Pulls(CountMessages(ByClient))
    requires Filled(env, env.registry[p], t, t)
    requires DependenciesReach(env, FillMachine.After(env, src, history), [p], t)
    ensures ForeignKeys(FillMachine.After(env, src, history).src)
    ensures TotalAt(Slot(FillMachine.After(env, src, history).rows, p, t), Selection(b, Some(Some(IdLabel(client)))))
         == |SentWith(FillMachine.After(env, src, history).src, b, client, t - env.registry[p].interval, t)|
  {
    hide TotalAt, Where, Inside, SentWith, ValidEnv, Ready, FillMachine.After, DependenciesReach,
         IdealPull, ForeignKeys, Filled;
    var sys := FillMachine.After(env, src, history);
    assert p in [p];
    Reached(env, src, history, [p], p, t);
    StoredTotal(env, sys, env.registry[p], t, Selection(b, Some(Some(IdLabel(client)))));
    PulledClientCount(env, sys.src, env.registry[p], t, b, client);
  }

  // ------------------------------------------------------------ a whole day

  lemma SentSplit(src: Source, b: Bucket, start: int, mid: int, end: int)
    requires start <= mid <= end
    ensures |SentBy(src, b, start, end)| == |SentBy(src, b, start, mid)| + |SentBy(src, b, mid, end)|
  {
    var early, late := SentBy(src, b, start, mid), SentBy(src, b, mid, end);
    assert early !! late;
    assert SentBy(src, b, start, end) == early + late;
  }

  /** The totals of the n hourly slots ending at end. */
  ghost function HourTotals(rows: Rows, p: string, b: Bucket, end: int, n: nat): int
    decreases n
  {
    if n == 0 then 0
    else TotalAt(Slot(rows, p, end), Selection(b, None)) + HourTotals(rows, p, b, end - HOUR, n - 1)
  }

  lemma {:induction false} HoursAddUp(env: Env, sys: FillMachine.System, stat: Stat, b: Bucket, end: int, n: nat)
    requires Ready(env, sys, stat) && ForeignKeys(sys.src) && SendersJoined(sys.src)
    requires CountsMessages(stat) && stat.frequency == Hourly && stat.interval == HOUR && !b.OfStream?
    requires Aligned(Hourly, end) && env.epoch + n * HOUR <= end
    requires n > 0 ==>
               FillMachine.LastSuccessfulFill(stat, sys.fill).Some?
                   && end <= FillMachine.LastSuccessfulFill(stat, sys.fill).value
    ensures HourTotals(sys.rows, stat.property, b, end, n) == |SentBy(sys.src, b, end - n * HOUR, end)|
    decreases n
  {
    hide Ready, ForeignKeys, SendersJoined, TotalAt;
    if n == 0 {
      assert SentBy(sys.src, b, end, end) == {};
    } else {
      AlignedStep(Hourly, end);
      StoredCount(env, sys, stat, end, b);
      HoursAddUp(env, sys, stat, b, end - HOUR, n - 1);
      SentSplit(sys.src, b, end - n * HOUR, end - HOUR, end);
    }
  }

  /** Cross-stat conservation: once the three statistics are filled to the end of a day, the 24
      hourly totals, the by-client total and the by-type total all equal the number of messages
      sent that day, for every user, every realm and the installation. */
  lemma DayConservation(env: Env, src: Source, history: seq<FillMachine.Action>,
                        hourly: string, client: string, kind: string, day: int, b: Bucket)
    requires ValidEnv(env) && ForeignKeys(src) && SendersJoined(FillMachine.After(env, src, history).src)
    requires !b.OfStream?
    requires hourly in env.registry && CountsMessages(env.registry[hourly])
    requires env.registry[hourly].frequency == Hourly && env.registry[hourly].interval == HOUR
    requires client in env.registry && CountsMessages(env.registry[client])
    requires env.registry[client].frequency == Daily && env.registry[client].interval == DAY
    requires kind in env.registry && CountsMessages(env.registry[kind])
    requires env.registry[kind].frequency == Daily && env.registry[kind].interval == DAY
    requires Aligned(Daily, day) && env.epoch < day
    requires DependenciesReach(env, FillMachine.After(env, src, history), [hourly, client, kind], day)
    ensures HourTotals(FillMachine.After(env, src, history).rows, hourly, b, day, 24)
         == TotalAt(Slot(FillMachine.After(env, src, history).rows, client, day), Selection(b, None))
         == TotalAt(Slot(FillMachine.After(env, src, history).rows, kind, day), Selection(b, None))
         == |SentBy(FillMachine.After(env, src, history).src, b, day - DAY, day)|
  {
    hide Ready, SendersJoined, TotalAt, SentBy, HourTotals, ForeignKeys, DependenciesReach, FillMachine.After,
         WellFormed;
    var sys := FillMachine.After(env, src, history);
    var all := [hourly, client, kind];
    Reached(env, src, history, all, hourly, day);
    Reached(env, src, history, all, client, day);
    Reached(env, src, history, all, kind, day);
    AlignedDayIsAligned(Hourly, day);
    AlignedApart(Daily, env.epoch, day);
    HoursAddUp(env, sys, env.registry[hourly], b, day, 24);
    StoredCount(env, sys, env.registry[client], day, b);
    StoredCount(env, sys, env.registry[kind], day, b);
  }
}
