# Long-lasting Dialogflow CX sessions over Twilio Sync

This project is a Dafny model of the long-lasting-session mechanism of a Twilio Functions
integration with Dialogflow CX. The mechanism keeps a caller's dialogue state in a Twilio Sync
map so that a later conversation can revive it.

- **Turn handler** (`detectIntentLongLastingSession.js`, module `LongLastingSession`).
  A turn that arrives without a session id gets a minted one. It then looks up the newest item
  of the caller's Sync map, which is named after the phone number without its leading `+`.
  If the map exists, the DetectIntent request revives the stored `parameters` and
  `currentPage.name`; otherwise the request is a fresh one. After the engine replies:
  - on any page other than `End Session`, the turn appends one snapshot to the caller's map,
    keyed by the ISO timestamp of the write (`updateSync`);
  - on `End Session`, it deletes the caller's map.
- **Sync helpers** (`sync.js`, module `Sync`). The store is a class, `Sync.SyncStore`. It holds
  services in creation order. Each service has a friendly name and holds maps by unique name.
  Each map is a dictionary from item key to item data. Every helper is a method that reads or
  changes that state: fetch-or-create a service or map, list the newest item, fetch, remove and
  create items, and delete a map. Twilio's not-found code 20404 becomes the sentinels
  'Map does not exist' and 'Map Item Not Found' exactly where the helpers catch it.
- **Key order** (modules `Lex` and `IsoTime`). "Newest" means the greatest key in lexicographic
  order. Keys are `Date.prototype.toISOString()` strings. For four-digit years, a later instant
  gives a greater key, so the last write is the item listed first in descending order.

Where the code and the mechanism's stated intent differ, the model follows the code:
- `deleteMap` on an absent map rejects, so a terminal turn for a caller without a map fails.
- A map that exists but is empty makes the handler throw while reading `syncResult[0].data`.
  This happens outside the `try`, so the handler crashes without calling back. The empty map
  is not treated as "no session".
- `createOrupdateMapItem` issues the same `create` on both branches. A create on a key that
  already exists is modelled as a failure (`ItemAlreadyExists`), not as an overwrite. So a
  second write in the same millisecond fails the turn.
- A stored snapshot is revived from `parameters` and `currentPage.name` without checking them.
  There is no fallback to a fresh session for incomplete snapshots. The model's snapshot type
  always carries both fields, because the handler is the only writer.

## Model

| member | source | states |
|---|---|---|
| `LongLastingSession.Handler` | detectIntentLongLastingSession.js:9-132 | A turn's session id is kept if the event has one, otherwise the minted id is used. With an id, the store is not read and the request is the fresh form. Otherwise: an absent map gives the fresh form; an empty map crashes the turn; a non-empty map gives the revival form, carrying the greatest-key item's `parameters` and `currentPage.name`. Every request uses the turn's session id and the utterance, and asks for sentiment. An engine failure fails the turn with the store unchanged. A non-terminal page adds exactly the snapshot under the ISO key of `now`, or fails on an existing key with the store unchanged. `End Session` removes the caller's map, or fails when there is none. A reply always echoes the session id. Afterwards the context is still consistent, so turns chain. |
| `LongLastingSession.UpdateSync` | detectIntentLongLastingSession.js:144-160 | Finds the first service with that name, or creates it. Finds the map in it, or creates it. Then creates the item: the map afterwards holds the old items plus `key → payload`, or the call fails with the store left after the two fetch-or-creates. |
| `LongLastingSession.CollectReplies` | detectIntentLongLastingSession.js:90-101 | The loop's result equals `TextReplies` of the response messages: `text[0]` of each text-bearing message, in order. |
| `LongLastingSession.TextRepliesAppend` | detectIntentLongLastingSession.js:90-101 | The reply list of concatenated messages is the concatenation of their reply lists, so order is kept. |
| `LongLastingSession.TextRepliesAllText` | detectIntentLongLastingSession.js:96-99 | When every message has text, reply i is the first text of message i. |
| `LongLastingSession.TextRepliesNoText` | detectIntentLongLastingSession.js:96 | Messages without a text field contribute no reply. |
| `LongLastingSession.CallerKey` | detectIntentLongLastingSession.js:10 | The map name is the phone number with its first character removed, or empty for an empty number. |
| `LongLastingSession.EarlierKeysBelow` | detectIntentLongLastingSession.js:115-117 | Keys that are ISO strings of earlier instants all sort before the key of the current write. |
| `LongLastingSession.WrittenSnapshotIsNewest` | detectIntentLongLastingSession.js:103-121 | When every stored key of the caller was written at an earlier instant, the snapshot a non-terminal turn writes is exactly what the newest listing then returns. |
| `LongLastingSession.WrittenSnapshotIsRevived` | detectIntentLongLastingSession.js:31-52 | After that write, the next lookup finds the caller's map present and not empty, and its greatest key holds the snapshot just written. |
| `LongLastingSession.ReviveAfterWrite` | detectIntentLongLastingSession.js:26-121 | Two turns of one caller: if a non-terminal first turn replies, a second turn without a session id gets the revival request. That request carries exactly the first turn's `parameters` and `currentPage.name` and the second turn's minted session id. |
| `LongLastingSession.ConsistencyKept` | detectIntentLongLastingSession.js:116-124 | Writing or deleting the caller's map keeps the context consistent: the Sync sid still names the first service bearing the configured name. |
| `LongLastingSession.FreshRequest` | detectIntentLongLastingSession.js:59-78 | The fresh request addresses the turn's session under the configured project, location and agent. It sends the utterance in the configured language and asks for sentiment, with no parameters and no page. |
| `LongLastingSession.RevivalRequest` | detectIntentLongLastingSession.js:37-55 | The revival request is the fresh request, with the same session and query input, plus the snapshot's `parameters` and `currentPage.name`; sentiment is on. |
| `LongLastingSession.SnapshotOf` | detectIntentLongLastingSession.js:103-114 | The stored payload carries the engine's `parameters`, `currentPage` and the turn's session id. Its reply list is `TextReplies` of the response messages, at most one per message. |
| `LongLastingSession.TextReplies` | detectIntentLongLastingSession.js:90-101 | A turn yields at most one reply per response message. |
| `LongLastingSession.HasSessionId` | detectIntentLongLastingSession.js:26 | A turn lacks a session id exactly when the field is absent or the empty string, JavaScript's falsy cases for a string. |
| `LongLastingSession.IsTerminal` | detectIntentLongLastingSession.js:86 | A turn is terminal exactly when the page's display name is `End Session`. |
| `LongLastingSession.NoMapAfterTermination` | detectIntentLongLastingSession.js:122-125 | After the caller's map is deleted, the newest listing rejects with not-found, so the next lookup is 'Map does not exist'. |
| `Sync.SyncStore.FetchSyncService` | sync.js:14-47 | Returns the first service named `name` and changes nothing. If none exists, it appends exactly one new empty service with that name. Afterwards the returned service is the first named match, so a second call creates nothing. |
| `Sync.SyncStore.FetchSyncMap` | sync.js:57-89 | An unknown service rejects. Otherwise map `uniqueName` exists afterwards. It is added empty only if it was absent, and every other map and item is unchanged. |
| `Sync.SyncStore.FetchLastMapItem` | sync.js:98-114 | Returns 'Map does not exist' exactly when the map is absent (code 20404). Otherwise returns the newest listing, and changes nothing. |
| `Sync.ListNewest` | sync.js:102-105 | A descending listing with limit 1 rejects with not-found exactly when the map is absent. Otherwise it holds at most one item: none for an empty map, else the item with the greatest key and its data. |
| `Sync.NewestAfterAdding` | sync.js:102-105 | After an item is added under a key greater than every existing key, the newest listing is exactly that item. |
| `Sync.SyncStore.DeleteMap` | sync.js:122-129 | An existing map is removed with all its items and the call resolves to true. An absent map rejects with not-found and changes nothing. Either way, the map is absent afterwards. |
| `Sync.SyncStore.FetchMapItem` | sync.js:139-156 | Returns the item under `key` exactly when the service, map and key exist, otherwise 'Map Item Not Found'. It changes nothing. |
| `Sync.SyncStore.RemoveMapItem` | sync.js:168-185 | Removes only the item under `key` and resolves to true. If the key is missing, resolves to 'Map Item Not Found' and changes nothing. |
| `Sync.SyncStore.RemoveAllMapItems` | sync.js:194-213 | Removes every listed key, leaving the map present and empty. Listing an absent map yields 'Map Item Not Found' and changes nothing. |
| `Sync.SyncStore.CreateMapItem` | sync.js:230-233 | `create` rejects with not-found when the map is absent and with `ItemAlreadyExists` when the key is taken. Otherwise the map gains `key → data` and nothing else changes. |
| `Sync.SyncStore.CreateOrUpdateMapItem` | sync.js:225-245 | Both branches issue the same create, so the outcome and new state are exactly those of `CreateMapItem`. The update branch merges nothing. |
| `Sync.Named` | sync.js:22-26 | The filter keeps exactly the services whose friendly name matches. |
| `Sync.NamedFirst` | sync.js:35-38 | The filter's first element is the first service in list order that bears the name. |
| `Sync.NamedSameIdentities` | sync.js:22-26 | Changing only the maps of services leaves the filter's result with the same length and the same sids. |
| `Sync.PutMap` | sync.js:72-74 | Setting one map of one service leaves every other (service, map) pair as it was, and every service keeps its sid and friendly name. |
| `Sync.DropMap` | sync.js:124 | Removing one map of one service leaves every other (service, map) pair as it was, and every service keeps its sid and friendly name. |
| `Lex.LessFirstDifference` | sync.js:105 | `a` sorts before `b` exactly when, at the first position where they differ, `a` has the smaller character, or `a` is a proper prefix of `b`. |
| `Lex.Greatest` | sync.js:105 | The first item of a descending listing has a key that every other key sorts below. |
| `Lex.GreatestUnique` | sync.js:105 | At most one key is greatest, so "newest" is well defined. |
| `Lex.GreatestExists` | sync.js:105 | Every non-empty key set has a greatest key. |
| `Lex.LessTransitive` | sync.js:105 | The key order is transitive. |
| `Lex.LessTotal` | sync.js:105 | Any two distinct keys are ordered one way or the other. |
| `Lex.LessIrreflexive` | sync.js:105 | No key sorts before itself. |
| `Lex.GreatestAfterAdding` | detectIntentLongLastingSession.js:115-117 | A key greater than all existing keys becomes the greatest once added. |
| `IsoTime.ToIsoString` | detectIntentLongLastingSession.js:117 | The key is the year part followed by `-MM-DDTHH:mm:ss.sssZ`. The year part is four digits for years 0 to 9999, otherwise a sign and six digits, so keys are 24 or 27 characters long. |
| `IsoTime.IsoMonotonic` | detectIntentLongLastingSession.js:117 | For years 0 to 9999, a strictly later instant gives a lexicographically greater `toISOString()` key. |
| `IsoTime.IsoOrderBreaksAfterYear9999` | detectIntentLongLastingSession.js:117 | From year 10000 the key gets a leading `+`, and the first instant of year 10000 sorts before the last instant of year 9999. |
| `IsoTime.PadLess` | detectIntentLongLastingSession.js:117 | Zero-padded numerals of one width sort as the numbers do. |

## Left out

- `sampleOutboundScript.js` is not part of this model. It reads a CSV file and fires Twilio Studio executions, which is I/O only.
- Credential and client setup (the service-account key path, the `SessionsClient` and the Twilio client) is environment plumbing and is not modelled.
- The Dialogflow CX `detectIntent` call is not modelled. Its reply, or its failure, is an input to `Handler`. The model does not relate that reply to the request sent.
- Session path formatting by `projectLocationAgentSessionPath` is a library helper. The path is the `SessionPath` value holding its four components.
- `Math.random` is replaced by the `minted` parameter, which may be any string. The clock is the `now` parameter, a broken-down UTC instant. Month lengths and the exact edges of the `Date` range are not modelled.
- The diagnostic payload fields `customerIntent`, `sentimentAnalysisScore`, `sentimentAnalysisMagnitude` (read from the misspelt `magniture`) and `confidence` are left out, because revival does not read them. Lines 106-110 of `detectIntentLongLastingSession.js` dereference `queryResult.sentimentAnalysisResult.score`, `.magniture` and `queryResult.match.confidence`. A reply whose `sentimentAnalysisResult` or `match` is null therefore throws inside the `try`: the turn calls back with the error and writes no snapshot. The model assumes both objects are present.
- Concurrency is left out. `removeAllMapItems` does not await its removals; the model runs them one after another. Turns of one caller that race on the same map are not modelled.
- Twilio error codes other than 20404 are left out. `create` on an existing key is modelled as an opaque failure, not as an overwrite.
- Service sids are modelled as creation indices, and maps are addressed by unique name only, as every call in the source does. Map sids and other resource fields are not modelled.
- `fetchSyncService` returns the service record. `fetchSyncMap` returns the map's unique name instead of the SDK's map object.
- Twilio Sync's lexicographic key order is modelled as code-point order. The ISO keys are ASCII, so the choice does not matter.
- The server-side sort of a descending listing is modelled by its result, the greatest key (`Lex.Greatest`). It is not modelled as an algorithm.
- Handler: requires that the context's Sync sid names the first service bearing the configured service name. Reads and deletes use that sid, while writes use the service found by name. The behaviour when the two name different services is not modelled.
- Handler: the mutation of `event.dialogflow_session_id` becomes the `sessionId` result. Setting `queryResult.session_id` becomes the `sessionId` field of `Replied`.
