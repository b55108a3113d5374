/**
 * The long-lasting-session turn handler: one inbound utterance becomes one
 * Dialogflow CX DetectIntent request, either fresh or reviving the state of
 * the caller's newest stored snapshot; after the engine replies, the turn
 * either appends a snapshot to the caller's Sync map, keyed by the ISO
 * timestamp of the write, or, on the page 'End Session', deletes the map.
 */
module LongLastingSession {
  import opened Wrappers
  import opened Lex
  import opened IsoTime
  import opened Sync

  /** The display name of the terminal page. */
  const END_SESSION: string := "End Session"

  type Params = map<string, string>

  datatype Page = Page(name: string, displayName: string)

  datatype TextMessage = TextMessage(text: seq<string>)

  /** A response message; only text messages carry `text`. */
  datatype ResponseMessage = ResponseMessage(text: Option<TextMessage>)

  /** The part of the engine's `queryResult` that the handler reads. */
  datatype QueryResult = QueryResult(responseMessages: seq<ResponseMessage>, parameters: Params, currentPage: Page)

  datatype EngineError = EngineError(message: string)

  /** The stored snapshot (`payloadSync`); `None` in the replies stands for
      JavaScript's `undefined`. */
  datatype Payload = Payload(virtualAgentReply: seq<Option<string>>, parameters: Params, currentPage: Page, sessionID: string)

  /** The function's environment: Dialogflow CX agent coordinates, language,
      the Sync service sid used for reads and deletes, and the Sync service
      name used for writes. */
  datatype Context = Context(
    projectId: string, location: string, agentId: string, languageCode: string,
    syncSid: nat, syncServiceName: string)

  /** The inbound event; an absent or empty `dialogflow_session_id` is `None` or `Some("")`. */
  datatype Event = Event(phone: string, utterance: string, sessionId: Option<string>)

  /** The session path built from the agent coordinates and the session id. */
  datatype SessionPath = SessionPath(projectId: string, location: string, agentId: string, sessionId: string)

  datatype QueryInput = QueryInput(text: string, languageCode: string)

  datatype QueryParams = QueryParams(parameters: Option<Params>, currentPage: Option<string>, analyzeQueryTextSentiment: bool)

  datatype Request = Request(session: SessionPath, queryInput: QueryInput, queryParams: QueryParams)

  /** The request the handler builds, or the TypeError of reading `data` of
      the missing first item of an empty listing. */
  datatype Resolution = Resolved(request: Request) | IndexError

  datatype TurnError = Engine(engineError: EngineError) | Store(apiError: ApiError)

  /** `callback(null, queryResult)` with `session_id` set, `callback(error)`,
      or a rejection of the handler itself before any callback. */
  datatype TurnOutcome = Replied(result: QueryResult, sessionId: string) | Failed(error: TurnError) | Crashed

  /** The caller's map name: the phone number without its leading '+'. */
  function CallerKey(phone: string): (k: string)
    ensures |phone| > 0 ==> phone == [phone[0]] + k
    ensures |phone| == 0 ==> k == ""
  {
    if |phone| == 0 then "" else phone[1..]
  }

  /** `event.dialogflow_session_id` is truthy: present and not the empty string. */
  function HasSessionId(e: Event): (b: bool)
    ensures !b <==> e.sessionId == None || e.sessionId == Some("")
  {
    e.sessionId.Some? && e.sessionId.value != ""
  }

  /** The Sync sid in the context names the first service bearing the
      configured service name, so reads, deletes and writes reach one service. */
  predicate ConsistentContext(s: Store<Payload>, ctx: Context)
  {
    && ctx.syncSid < |s|
    && Named(s, ctx.syncServiceName) != []
    && Named(s, ctx.syncServiceName)[0].sid == ctx.syncSid
  }

  /** The engine reports the page that ends the conversation. */
  function IsTerminal(result: QueryResult): (b: bool)
    ensures b <==> result.currentPage.displayName == "End Session"
  {
    result.currentPage.displayName == END_SESSION
  }

  /** The request of a turn that revives nothing. */
  function FreshRequest(ctx: Context, sessionId: string, query: string): (r: Request)
    ensures r.session.sessionId == sessionId && r.session.projectId == ctx.projectId
    ensures r.session.location == ctx.location && r.session.agentId == ctx.agentId
    ensures r.queryInput.text == query && r.queryInput.languageCode == ctx.languageCode
    ensures r.queryParams.parameters == None && r.queryParams.currentPage == None
    ensures r.queryParams.analyzeQueryTextSentiment
  {
    Request(
      SessionPath(ctx.projectId, ctx.location, ctx.agentId, sessionId),
      QueryInput(query, ctx.languageCode),
      QueryParams(None, None, true))
  }

  /** The request of a turn that revives a stored snapshot: the fresh request
      with the snapshot's parameters and page name added. */
  function RevivalRequest(ctx: Context, sessionId: string, query: string, snapshot: Payload): (r: Request)
    ensures r.session == FreshRequest(ctx, sessionId, query).session
    ensures r.queryInput == FreshRequest(ctx, sessionId, query).queryInput
    ensures r.queryParams.parameters == Some(snapshot.parameters)
    ensures r.queryParams.currentPage == Some(snapshot.currentPage.name)
    ensures r.queryParams.analyzeQueryTextSentiment
  {
    Request(
      SessionPath(ctx.projectId, ctx.location, ctx.agentId, sessionId),
      QueryInput(query, ctx.languageCode),
      QueryParams(Some(snapshot.parameters), Some(snapshot.currentPage.name), true))
  }

  function FirstText(t: TextMessage): Option<string>
  {
    if |t.text| > 0 then Some(t.text[0]) else None
  }

  /** The first text of each message that has a text field, in message order. */
  function TextReplies(messages: seq<ResponseMessage>): (r: seq<Option<string>>)
    ensures |r| <= |messages|
  {
    if messages == [] then []
    else
      var last := messages[|messages| - 1];
      TextReplies(messages[..|messages| - 1]) + (if last.text.Some? then [FirstText(last.text.value)] else [])
  }

  lemma {:induction false} TextRepliesAppend(a: seq<ResponseMessage>, b: seq<ResponseMessage>)
    ensures TextReplies(a + b) == TextReplies(a) + TextReplies(b)
    decreases |b|
  {
    if b != [] {
      var init := b[..|b| - 1];
      assert (a + b)[..|a + b| - 1] == a + init;
      TextRepliesAppend(a, init);
    } else {
      assert a + b == a;
    }
  }

  /** When every message has text, the replies are the messages' first texts, one for one. */
  lemma {:induction false} TextRepliesAllText(messages: seq<ResponseMessage>)
    requires forall i :: 0 <= i < |messages| ==> messages[i].text.Some?
    ensures |TextReplies(messages)| == |messages|
    ensures forall i :: 0 <= i < |messages| ==> TextReplies(messages)[i] == FirstText(messages[i].text.value)
  {
    if messages != [] {
      TextRepliesAllText(messages[..|messages| - 1]);
    }
  }

  /** Messages without text contribute nothing. */
  lemma {:induction false} TextRepliesNoText(messages: seq<ResponseMessage>)
    requires forall i :: 0 <= i < |messages| ==> messages[i].text.None?
    ensures TextReplies(messages) == []
  {
    if messages != [] {
      TextRepliesNoText(messages[..|messages| - 1]);
    }
  }

  /** The handler's loop over `responseMessages`, pushing `text.text[0]` of each text message. */
  method CollectReplies(messages: seq<ResponseMessage>) returns (replies: seq<Option<string>>)
    ensures replies == TextReplies(messages)
  {
    replies := [];
    var index := 0;
    while index < |messages|
      invariant 0 <= index <= |messages|
      invariant replies == TextReplies(messages[..index])
    {
      assert messages[..index + 1][..index] == messages[..index];
      if messages[index].text.Some? {
        replies := replies + [FirstText(messages[index].text.value)];
      }
      index := index + 1;
    }
    assert messages[..|messages|] == messages;
  }

  /** The payload a non-terminal turn stores: the replies, and what revival needs. */
  function SnapshotOf(result: QueryResult, sessionId: string): (p: Payload)
    ensures p.parameters == result.parameters && p.currentPage == result.currentPage
    ensures p.sessionID == sessionId
    ensures p.virtualAgentReply == TextReplies(result.responseMessages)
    ensures |p.virtualAgentReply| <= |result.responseMessages|
  {
    Payload(TextReplies(result.responseMessages), result.parameters, result.currentPage, sessionId)
  }

  /** The items of a map, or none when the map is absent. */
  function ItemsOf(s: Store<Payload>, sid: nat, name: string): map<string, Payload>
  {
    if MapOf(s, sid, name).Some? then MapOf(s, sid, name).value else map[]
  }

  /** `updateSync`: fetch-or-create the service by name, fetch-or-create the
      map in it, then create the item. */
  method UpdateSync(store: SyncStore<Payload>, key: string, payload: Payload, mapUniqueName: string, syncServiceName: string)
    returns (r: Result<MapItem<Payload>, ApiError>)
    requires store.Valid()
    modifies store
    ensures store.Valid()
    ensures var s0 := old(store.services);
            var created := Named(s0, syncServiceName) == [];
            var s1 := if created then s0 + [Service(|s0|, syncServiceName, map[])] else s0;
            var sid := if created then |s0| else Named(s0, syncServiceName)[0].sid;
            var m := ItemsOf(s1, sid, mapUniqueName);
            && sid < |s1|
            && (key in m ==> r == Failure(ItemAlreadyExists) && store.services == s1)
            && (key !in m ==>
                  r == Success(MapItem(key, payload))
                  && store.services == PutMap(s1, sid, mapUniqueName, m[key := payload]))
  {
    var syncservice := store.FetchSyncService(syncServiceName);
    ghost var s1 := store.services;
    var _ := store.FetchSyncMap(syncservice.sid, mapUniqueName);
    r := store.CreateOrUpdateMapItem(syncservice.sid, mapUniqueName, key, payload);
    PutMapTwice(s1, syncservice.sid, mapUniqueName, map[], map[key := payload]);
  }

  /** `exports.handler`: one conversation turn. The engine's reply and the
      clock are inputs; `minted` is the random id a turn without a session id gets. */
  method Handler(store: SyncStore<Payload>, ctx: Context, event: Event, minted: string,
                 engine: Result<QueryResult, EngineError>, now: Instant)
    returns (sessionId: string, resolution: Resolution, outcome: TurnOutcome)
    requires store.Valid() && ValidInstant(now)
    requires ConsistentContext(store.services, ctx)
    modifies store
    ensures store.Valid() && ConsistentContext(store.services, ctx)
    // the session id: kept when the turn carries one, otherwise the minted one
    ensures sessionId == if HasSessionId(event) then event.sessionId.value else minted
    // the request
    ensures HasSessionId(event) ==> resolution == Resolved(FreshRequest(ctx, sessionId, event.utterance))
    ensures !HasSessionId(event) && MapOf(old(store.services), ctx.syncSid, CallerKey(event.phone)).None? ==>
              resolution == Resolved(FreshRequest(ctx, sessionId, event.utterance))
    ensures !HasSessionId(event) && MapOf(old(store.services), ctx.syncSid, CallerKey(event.phone)) == Some(map[]) ==>
              resolution == IndexError
    ensures !HasSessionId(event) && MapOf(old(store.services), ctx.syncSid, CallerKey(event.phone)).Some? ==>
              var m := MapOf(old(store.services), ctx.syncSid, CallerKey(event.phone)).value;
              m != map[] ==> resolution == Resolved(RevivalRequest(ctx, sessionId, event.utterance, m[Greatest(m.Keys)]))
    ensures resolution.Resolved? ==>
              && resolution.request.session.sessionId == sessionId
              && resolution.request.queryInput == QueryInput(event.utterance, ctx.languageCode)
              && resolution.request.queryParams.analyzeQueryTextSentiment
    // failures before any store write
    ensures resolution == IndexError ==> outcome == Crashed && store.services == old(store.services)
    ensures resolution.Resolved? && engine.Failure? ==>
              outcome == Failed(Engine(engine.error)) && store.services == old(store.services)
    // a non-terminal turn appends one snapshot under the timestamp key
    ensures resolution.Resolved? && engine.Success? && !IsTerminal(engine.value) ==>
              var caller := CallerKey(event.phone);
              var m := ItemsOf(old(store.services), ctx.syncSid, caller);
              var key := ToIsoString(now);
              && (key in m ==> outcome == Failed(Store(ItemAlreadyExists)) && store.services == old(store.services))
              && (key !in m ==>
                    && outcome == Replied(engine.value, sessionId)
                    && store.services == PutMap(old(store.services), ctx.syncSid, caller, m[key := SnapshotOf(engine.value, sessionId)]))
    // a terminal turn deletes the caller's map
    ensures resolution.Resolved? && engine.Success? && IsTerminal(engine.value) ==>
              var caller := CallerKey(event.phone);
              && (MapOf(old(store.services), ctx.syncSid, caller).Some? ==>
                    outcome == Replied(engine.value, sessionId)
                    && store.services == DropMap(old(store.services), ctx.syncSid, caller))
              && (MapOf(old(store.services), ctx.syncSid, caller).None? ==>
                    outcome == Failed(Store(NotFound)) && store.services == old(store.services))
              && MapOf(store.services, ctx.syncSid, caller).None?
  {
    var caller := CallerKey(event.phone);
    ConsistencyKept(store.services, ctx, caller);
    var query := event.utterance;
    var request: Option<Request> := None;
    sessionId := if HasSessionId(event) then event.sessionId.value else "";
    if !HasSessionId(event) {
      sessionId := minted;
      var syncResult := store.FetchLastMapItem(ctx.syncSid, caller);
      if !syncResult.MapDoesNotExist? {
        if |syncResult.items| == 0 {
          // syncResult[0] is undefined: reading its data throws outside the try
          resolution, outcome := IndexError, Crashed;
          return;
        }
        request := Some(RevivalRequest(ctx, sessionId, query, syncResult.items[0].data));
      }
    }
    if request.None? {
      request := Some(FreshRequest(ctx, sessionId, query));
    }
    resolution := Resolved(request.value);

    match engine
    case Failure(e) =>
      outcome := Failed(Engine(e));
    case Success(result) =>
      if result.currentPage.displayName != END_SESSION {
        var responseMessages := CollectReplies(result.responseMessages);
        var payloadSync := Payload(responseMessages, result.parameters, result.currentPage, sessionId);
        var written := UpdateSync(store, ToIsoString(now), payloadSync, caller, ctx.syncServiceName);
        outcome := if written.Success? then Replied(result, sessionId) else Failed(Store(written.error));
      } else {
        var deleted := store.DeleteMap(ctx.syncSid, caller);
        outcome := if deleted.Success? then Replied(result, sessionId) else Failed(Store(deleted.error));
      }
  }

  /** `k` is the ISO key of an instant, with a four-digit year, strictly before `now`. */
  predicate WrittenBefore(k: string, stamps: map<string, Instant>, now: Instant)
  {
    && k in stamps
    && ValidInstant(stamps[k])
    && 0 <= stamps[k].year <= 9999
    && Before(stamps[k], now)
    && k == ToIsoString(stamps[k])
  }

  /** Keys written at earlier instants all sort before the key of a later write. */
  lemma EarlierKeysBelow(m: map<string, Payload>, stamps: map<string, Instant>, now: Instant)
    requires ValidInstant(now) && 0 <= now.year <= 9999
    requires forall k :: k in m ==> WrittenBefore(k, stamps, now)
    ensures forall k :: k in m ==> Less(k, ToIsoString(now))
  {
    forall k | k in m
      ensures Less(k, ToIsoString(now))
    {
      IsoMonotonic(stamps[k], now);
    }
  }

  /** Writing a map or deleting it leaves the context consistent. */
  lemma ConsistencyKept(s: Store<Payload>, ctx: Context, caller: string)
    requires ConsistentContext(s, ctx)
    ensures forall items :: ConsistentContext(PutMap(s, ctx.syncSid, caller, items), ctx)
    ensures ConsistentContext(DropMap(s, ctx.syncSid, caller), ctx)
  {
    forall items: map<string, Payload>
      ensures ConsistentContext(PutMap(s, ctx.syncSid, caller, items), ctx)
    {
      NamedSameIdentities(s, PutMap(s, ctx.syncSid, caller, items), ctx.syncServiceName);
    }
    NamedSameIdentities(s, DropMap(s, ctx.syncSid, caller), ctx.syncServiceName);
  }

  /** When every stored key of the caller was written at an earlier instant,
      the snapshot a non-terminal turn writes is what the newest listing returns. */
  lemma WrittenSnapshotIsNewest(s: Store<Payload>, ctx: Context, caller: string, stamps: map<string, Instant>,
                                now: Instant, snapshot: Payload)
    requires ctx.syncSid < |s|
    requires ValidInstant(now) && 0 <= now.year <= 9999
    requires forall k :: k in ItemsOf(s, ctx.syncSid, caller) ==> WrittenBefore(k, stamps, now)
    ensures var m := ItemsOf(s, ctx.syncSid, caller);
            var after := PutMap(s, ctx.syncSid, caller, m[ToIsoString(now) := snapshot]);
            ListNewest(after, ctx.syncSid, caller) == Success([MapItem(ToIsoString(now), snapshot)])
  {
    var m := ItemsOf(s, ctx.syncSid, caller);
    EarlierKeysBelow(m, stamps, now);
    NewestAfterAdding(s, ctx.syncSid, caller, m, ToIsoString(now), snapshot);
  }

  /** The same, read back by the next turn's lookup: the caller's map is present,
      not empty, and its greatest key holds the snapshot just written. */
  lemma WrittenSnapshotIsRevived(s: Store<Payload>, ctx: Context, caller: string, stamps: map<string, Instant>,
                                 now: Instant, snapshot: Payload)
    requires ctx.syncSid < |s|
    requires ValidInstant(now) && 0 <= now.year <= 9999
    requires forall k :: k in ItemsOf(s, ctx.syncSid, caller) ==> WrittenBefore(k, stamps, now)
    ensures var m := ItemsOf(s, ctx.syncSid, caller);
            var after := PutMap(s, ctx.syncSid, caller, m[ToIsoString(now) := snapshot]);
            && MapOf(after, ctx.syncSid, caller).Some?
            && var w := MapOf(after, ctx.syncSid, caller).value;
            && w != map[] && w[Greatest(w.Keys)] == snapshot
  {
    var m := ItemsOf(s, ctx.syncSid, caller);
    var w := m[ToIsoString(now) := snapshot];
    EarlierKeysBelow(m, stamps, now);
    assert w.Keys == m.Keys + {ToIsoString(now)};
    GreatestAfterAdding(m.Keys, ToIsoString(now));
  }

  /** Revival round trip over two turns of one caller: a non-terminal turn
      stores its snapshot; a later turn without a session id then revives
      exactly the first turn's parameters and current page name, under its own
      fresh session id. */
  method ReviveAfterWrite(store: SyncStore<Payload>, ctx: Context, first: Event, second: Event,
                          minted1: string, minted2: string, reply: QueryResult,
                          engine2: Result<QueryResult, EngineError>,
                          stamps: map<string, Instant>, now1: Instant, now2: Instant)
    returns (outcome1: TurnOutcome, sessionId2: string, resolution2: Resolution, outcome2: TurnOutcome)
    requires store.Valid() && ConsistentContext(store.services, ctx)
    requires ValidInstant(now1) && 0 <= now1.year <= 9999 && ValidInstant(now2)
    requires forall k :: k in ItemsOf(store.services, ctx.syncSid, CallerKey(first.phone)) ==> WrittenBefore(k, stamps, now1)
    requires !IsTerminal(reply)
    requires second.phone == first.phone && !HasSessionId(second)
    modifies store
    ensures sessionId2 == minted2
    ensures outcome1.Replied? ==>
              && resolution2.Resolved?
              && resolution2.request.queryParams
                 == QueryParams(Some(reply.parameters), Some(reply.currentPage.name), true)
              && resolution2.request.session.sessionId == minted2
  {
    var caller := CallerKey(first.phone);
    ghost var s0 := store.services;
    var sessionId1, resolution1;
    sessionId1, resolution1, outcome1 := Handler(store, ctx, first, minted1, Success(reply), now1);
    ghost var snapshot := SnapshotOf(reply, sessionId1);
    ghost var s1 := store.services;
    if outcome1.Replied? {
      WrittenSnapshotIsRevived(s0, ctx, caller, stamps, now1, snapshot);
    }
    sessionId2, resolution2, outcome2 := Handler(store, ctx, second, minted2, engine2, now2);
    if outcome1.Replied? {
      ghost var w := MapOf(s1, ctx.syncSid, caller).value;
      assert resolution2 == Resolved(RevivalRequest(ctx, sessionId2, second.utterance, w[Greatest(w.Keys)]));
    }
  }



  /** After a terminal turn, looking the caller up finds no map. */
  lemma NoMapAfterTermination(s: Store<Payload>, ctx: Context, caller: string)
    requires ctx.syncSid < |s|
    ensures ListNewest(DropMap(s, ctx.syncSid, caller), ctx.syncSid, caller) == Failure(NotFound)
  {
  }
}
