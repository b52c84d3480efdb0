# WebSocket data dashboard, modelled in Dafny

The dashboard lets a user keep a list of WebSocket servers and pick one as
active. It connects to that server, reconnects after an unexpected close,
logs what arrives and exports the data messages as CSV. It exists in two
revisions, and both are modelled:

- **The module revision (`JS/`).**
  - `websocket.js`: the connection manager.
  - `main.js`: the server list, selection, save, delete and CSV export.
  - `ui.js`: the message log, its filter, the export extraction and the
    button and status fields.
- **The single-file revision (`script.js`).** The same features as closure
  variables updated by event handlers, with its own selection, save,
  delete, connection and log rules.

How the model is built:

- **Browser sockets** are values: every socket created is kept in a
  sequence together with its URL and readyState. Handlers of an old socket
  can still fire after the variable `ws` has moved on, so the old sockets
  stay visible.
- **Transport events** (open, message, close, error, the peer starting to
  close) and **timer firings** are methods that the environment calls.
- **JSON payloads** are already parsed: an object is its own fields in
  enumeration order, each value as `String(v)`, `Boolean(v)` and whether
  converting it to a primitive throws.
- **Exported records** are kept in `Object.keys` order: array-index keys
  first, by number, then the other keys in the order they were assigned.
- **The DOM log** is its sequence of entries. Each entry is its class, what
  it shows and whether it is hidden.
- **The URL regex** is a hand-written recognizer. It is proved equal to the
  grammar the regex denotes.

Modules, one per file:

| module (file) | what it models |
|---|---|
| `Basics` (basics.dfy) | `Option`, `parseInt` results, `join`, `split`, `includes`, ASCII case mapping, `trim` |
| `WsUrl` (wsurl.dfy) | `isValidWebSocketUrl` |
| `JsonValue` (json.dfy) | parsed payloads |
| `Transport` (transport.dfy) | the browser `WebSocket` |
| `WebSocketClient` (websocket.dfy) | `JS/websocket.js` |
| `ServerList` (servers.dfy) | the list operations both revisions share |
| `Dashboard` (dashboard.dfy) | `JS/main.js` state and handlers |
| `Csv` (csv.dfy) | `convertToCSV` |
| `UiLog` (ui_log.dfy) | the log of `JS/ui.js` |
| `UiState` (ui_state.dfy) | `updateButtonState` and `updateConnectionStatus` |
| `LegacyScript` (legacy.dfy) | `script.js` |

Where a description and the code disagree, the model follows the code:

- **`configure`** uses `Object.assign`. A callback the caller does not
  name keeps its previous value; it is not reset to a no-op.
- **Exporting an object payload** gives back its keys and values as
  displayed. A key with surrounding white space, or with a `:` followed
  somewhere by a character other than `:`, comes back changed, as
  `KeyOfLabel` computes: only the first `:` is removed before the trim.
  A field keyed `Timestamp` replaces the timestamp's value.

## Model

| member | source | states |
|---|---|---|
| WsUrl.RecognizerMatchesGrammar | JS/websocket.js:80-83 | the recognizer accepts a string exactly when the URL pattern (scheme, `://`, host, optional port, optional path) matches it |
| WsUrl.ValidImpliesGrammar | JS/websocket.js:80-83 | every accepted URL splits into scheme, `://`, host, port and path as the pattern requires |
| WsUrl.GrammarImpliesValid | JS/websocket.js:80-83 | every decomposition the pattern allows is accepted |
| WsUrl.AcceptedUrlChars | JS/websocket.js:81 | an accepted URL consists only of the pattern's characters: no `%` and no space |
| WsUrl.IsValidWebSocketUrl | JS/websocket.js:80-83 | the recognizer itself: an accepted URL starts with `ws://` or `wss://`, and RecognizerMatchesGrammar shows it accepts exactly what the pattern matches |
| WsUrl.PortUnbounded | JS/websocket.js:81 | `(?::\d+)?` bounds neither the length nor the value of the port: every host, digit string and path make an accepted URL |
| WsUrl.PortAboveRangeAccepted | JS/websocket.js:81 | `ws://host:99999/a` is accepted although its port is above 65535 |
| WebSocketClient.AssignTwice | JS/websocket.js:15-17 | two configure calls equal one in which the later call wins on every slot both name |
| WebSocketClient.AssignNothing | JS/websocket.js:15-17 | configure with no callbacks changes nothing |
| WebSocketClient.ConnectionState | JS/websocket.js:69-78 | no socket reads as closed; otherwise the socket's readyState is reported |
| WebSocketClient.StateReflectsTransport | JS/websocket.js:69-78 | when only the current socket may be live, the reported state is open or connecting exactly when some socket is live |
| WebSocketClient.Manager.constructor | JS/websocket.js:3-13 | no socket, no retry, not manually disconnected, empty URL, the no-op callbacks |
| WebSocketClient.Manager.Configure | JS/websocket.js:15-17 | the callbacks become Object.assign of the old ones and the options; nothing else changes |
| WebSocketClient.Manager.Connect | JS/websocket.js:19-29 | a live socket makes connect do nothing; otherwise the URL is remembered and the manual flag and the retry are cleared, then a new connecting socket for url becomes ws, or, when the WebSocket constructor rejects url, ws and the sockets stay as they were; callbacks and calls are unchanged and no other socket becomes live |
| WebSocketClient.Manager.Disconnect | JS/websocket.js:60-67 | with a socket: the manual flag is set, the retry is cancelled and close() is called on it, with nothing else changed; without one nothing changes |
| WebSocketClient.Manager.TransportOpen | JS/websocket.js:31-35 | the socket becomes open, the retry is cancelled, and onOpen is called |
| WebSocketClient.Manager.TransportMessage | JS/websocket.js:37-44 | a parsed payload goes to onMessage; a parse failure, or an onMessage that throws, sends the parse-error text to onError |
| WebSocketClient.Manager.TransportError | JS/websocket.js:54-57 | onError receives the fixed error text; nothing else changes |
| WebSocketClient.Manager.TransportClosing | JS/websocket.js:71-75 | the open socket becomes closing, which getConnectionState then reports; no callback runs and nothing else changes |
| WebSocketClient.Manager.ScheduleRetry | JS/websocket.js:49-51 | a retry is set exactly when the close was not manual and none is pending; there is never more than one |
| WebSocketClient.Manager.TransportClose | JS/websocket.js:46-52 | as written: the socket is closed, ws is cleared whichever socket closed, onClose is called, and the retry rule applies |
| WebSocketClient.Manager.TransportCloseGuarded | JS/websocket.js:46-52 | corrected: only the close of the socket ws holds clears ws, so at most one socket is ever live |
| WebSocketClient.Manager.TimerFire | JS/websocket.js:50 | a pending retry runs connect on the remembered URL and leaves exactly the state connect leaves, callbacks, calls and the handle counter included; with a live socket it does nothing and stays armed |
| WebSocketClient.ManualDisconnectScenario | JS/websocket.js:60-67 | connect, open and disconnect, then the close: the state is closed and no retry is pending |
| WebSocketClient.UnexpectedCloseScenario | JS/websocket.js:46-52 | an abnormal close leaves one retry; when it fires there is exactly one new attempt, to the same URL, and nothing stays pending |
| WebSocketClient.StaleCloseTrace | JS/websocket.js:46-48 | the old socket's late close reports closed while the new socket is live, and the retry then opens a third socket beside it |
| WebSocketClient.StaleCloseGuardedTrace | JS/websocket.js:46-48 | with the corrected handler the state stays connecting, only the current socket is live, and the retry opens nothing |
| WebSocketClient.RejectedConnectScenario | JS/websocket.js:24-29 | a URL the validator accepts but the constructor rejects: no socket is made, the state stays closed and no retry is pending, while currentUrl already names that URL |
| ServerList.UrlUsedElsewhere | JS/main.js:55-57 | true exactly when some entry other than the excepted index has the URL |
| ServerList.RemoveAt | JS/main.js:93 | splice(k, 1): one entry fewer; entries before k stay, entries after k move down one |
| ServerList.AppendKeepsUrlsUnique | JS/main.js:66-71 | appending a URL that no entry has keeps URLs unique |
| ServerList.ReplaceKeepsUrlsUnique | JS/main.js:55-62 | replacing entry k with a URL no other entry has keeps URLs unique |
| ServerList.RemoveKeepsUrlsUnique | JS/main.js:93 | removing an entry keeps URLs unique |
| ServerList.RemoveAtKeepsOrder | JS/main.js:93 | the remaining entries, with the removed one put back at k, are the original list |
| Dashboard.RepairActiveId | JS/main.js:391-398 | a stored id that names an entry is kept and a missing id stays null; any other id becomes 0, or null for an empty list |
| Dashboard.SelectionTarget | JS/main.js:24-26 | an id is accepted exactly when it is a number naming an entry |
| Dashboard.Save | JS/main.js:41-74 | empty name, invalid URL and duplicate URL are rejected with nothing changed; an edit replaces only the active entry; an add appends and makes the new entry active |
| Dashboard.SaveKeepsUrlsUnique | JS/main.js:54-71 | after any save no two entries share a URL, if none did before |
| Dashboard.SaveKeepsEntriesValid | JS/main.js:42-53 | every entry keeps a non-empty name and a valid URL |
| Dashboard.SaveKeepsActiveValid | JS/main.js:62-72 | the active id still names an entry or is null |
| Dashboard.DeleteRemovesActive | JS/main.js:82-102 | without an active entry nothing happens; otherwise exactly the active entry goes, the rest keep their order, uniqueness and validity, and the first entry (or null) becomes active |
| Dashboard.App.Initialize | JS/main.js:391-398 | the stored list with the repaired stored id |
| Dashboard.App.BeginAdd | JS/main.js:227-230 | the form adds |
| Dashboard.App.BeginEdit | JS/main.js:232-240 | the form edits even with no active server; it is shown only with one |
| Dashboard.App.HandleServerSelection | JS/main.js:24-39 | an invalid id or the current one changes nothing; a new id becomes active, and an open connection is first disconnected, leaving exactly the state disconnect leaves |
| Dashboard.App.SaveServer | JS/main.js:41-80 | the list, the active id and the outcome are those of Save on the trimmed inputs; URLs stay unique |
| Dashboard.App.HandleDeleteConfirmation | JS/main.js:82-102 | the list and id are those of Delete; a connection that is not closed is disconnected, leaving exactly the state disconnect leaves, neither open nor connecting |
| Dashboard.App.ConnectToActiveServer | JS/main.js:104-113 | with an active entry, the manager is left exactly as connect leaves it for that entry's URL: a new connecting socket, or none when the constructor rejects the URL; without one nothing changes |
| Dashboard.App.ToggleConnection | JS/main.js:192-200 | an open socket is disconnected with the state disconnect leaves; otherwise connect runs on the active entry's URL, which also makes a second socket beside one still closing; no active entry, or a connecting socket, changes nothing |
| Basics.TrimRemovesOnlyOuterSpace | JS/main.js:42-43 | trim removes white space at both ends and nothing else |
| Basics.TrimIdempotent | JS/main.js:42-43 | trimming twice is trimming once |
| Csv.ConvertToCsv | JS/main.js:152-175 | the loops compute the CSV text; empty input gives the empty string |
| Csv.CollectKeys | JS/main.js:157-162 | the nested forEach leaves exactly the header in the key set |
| Csv.QuoteFields | JS/main.js:167-170 | the map gives the quoted field of each header key, in header order |
| Csv.ParseFirstField | JS/main.js:169-171 | a quoted field followed by the end of the line or by `;` reads back as its value, then the rest of the line |
| Csv.HeaderKeys | JS/main.js:157-164 | the header lists each key of each item exactly once, only those keys, in first-seen order |
| Csv.HeaderIsDedup | JS/main.js:157-162 | the header is the list of all keys with repeats dropped |
| Csv.DedupFacts | JS/main.js:157-162 | dropping repeats gives a list without repeats, with the same members, in first-seen order |
| Csv.AllKeysMembers | JS/main.js:157-160 | a key is collected exactly when some item has it |
| Csv.AddKeysConcat | JS/main.js:158-160 | adding keys in two batches is adding them in one |
| Csv.HeaderLineSplits | JS/main.js:164 | splitting the header line at `;` gives the header back when no key contains `;` |
| Csv.FieldValue | JS/main.js:168 | a missing key gives `""`; otherwise the item's value for it |
| Csv.Fields | JS/main.js:167-170 | one quoted field per header key |
| Csv.ReadEscaped | JS/main.js:169 | reading a quoted field undoes the doubling of `"` |
| Csv.ParseQuotedList | JS/main.js:171 | a `;`-joined list of quoted fields reads back as its values |
| Csv.RowRoundTrip | JS/main.js:166-172 | every row reads back as the item's values under the header, with `""` for missing keys, so it has as many fields as the header |
| Csv.EscapeAvoids | JS/main.js:169 | escaping adds no character other than `"` |
| Csv.RowAvoidsNewline | JS/main.js:166-172 | a row has no newline when no key or value has one |
| Csv.HeaderKeysAvoidNewline | JS/main.js:157-162 | without newlines in the data no header key has one |
| Csv.HeaderAvoidsNewline | JS/main.js:164 | without newlines in the data the header line has none |
| Csv.RowsAvoidNewline | JS/main.js:166-172 | without newlines in the data no row has one |
| Csv.CsvLines | JS/main.js:174 | without newlines in the data the text has exactly one line more than there are items: the header first, then the rows in order |
| UiLog.ShownFields | JS/ui.js:107-108 | every field except `ts`, in order |
| UiLog.DataItems | JS/ui.js:98-113 | the timestamp item first, then a `key:` item for every shown field, in order |
| UiLog.MakeEntry | JS/ui.js:95-119 | where addMessageToLog does not throw: an object logged as data becomes a data list; anything else becomes the text of the `<pre>`, which is `""` for null; the entry is visible |
| UiLog.DropOldest | JS/ui.js:123-126 | the loop keeps the first min(n, 50) entries, so the oldest go first and the rest keep their order |
| UiLog.MessageLog.AddMessageToLog | JS/ui.js:92-127 | an unloaded view changes nothing; it throws, changing nothing, exactly for a null payload logged as data, an object logged as data whose truthy `ts` or some shown value cannot be converted to a primitive, or an object in a `<pre>` whose `String` throws; otherwise the new entry goes first and at most 50 are kept |
| UiLog.FullLogScenario | JS/ui.js:121-126 | adding to a full log keeps 50 entries: the new one, then the 49 newest old ones in their order |
| UiLog.ApplyFilter | JS/ui.js:217-228 | every entry keeps its content and is hidden exactly when the rule does not show it |
| UiLog.MessageLog.FilterLog | JS/ui.js:212-229 | the entries of a loaded view are shown or hidden by the rule, with nothing else changed |
| UiLog.MessageLog.GetLogData | JS/ui.js:188-210 | no records while the log is not in the page; otherwise the records LogData gives, one per data entry (LogDataPrepend and DataEntryRoundTrip say which, in what order) |
| UiLog.EmptySearchShowsAll | JS/ui.js:217-218 | the empty search shows every entry |
| UiLog.ShownIffOccurs | JS/ui.js:220-226 | a non-empty search shows an entry exactly when the lower-cased search occurs in its lower-cased text |
| UiLog.SearchCaseInsensitive | JS/ui.js:215 | the case of the search string does not matter |
| Basics.ContainsIff | JS/ui.js:222 | includes is true exactly when the needle occurs at some position |
| Basics.ToLowerIdempotent | JS/ui.js:215 | lowering twice is lowering once |
| UiLog.LogDataPrepend | JS/ui.js:188-210 | a new entry adds its record, if it is data, at the end of the export and leaves the rest as it was; other entries add nothing |
| UiLog.LogDataCount | JS/ui.js:190-209 | the export has exactly one record per data entry |
| UiLog.DataEntryRoundTrip | JS/ui.js:191-204 | the record read from a data entry holds exactly the timestamp under `Timestamp` and every shown field except one keyed `__proto__`, with its value, in `Object.keys` order: array-index keys first by number, then `Timestamp`, then the other keys in payload order |
| UiLog.DataEntryRoundTripKeepsAll | JS/ui.js:191-204 | a payload without a `__proto__` field comes back with every shown field in `Object.keys` order; without array-index keys as well, the record is `Timestamp` followed by the shown fields in payload order |
| UiLog.IndexKeyBeforeTimestamp | JS/ui.js:193-201 | a payload whose one field has an array-index key, such as `{"5": v}`, is exported as that field first and `Timestamp` second |
| UiLog.ProtoFieldDropped | JS/ui.js:201 | a payload whose only field is `__proto__` exports the timestamp alone, since assigning a string to `data.__proto__` adds no field |
| UiLog.DataEntryRecord | JS/ui.js:191-204 | the record of a data entry is assembled from the keys and values read from its items |
| UiLog.StampedShownFields | JS/ui.js:199-202 | with distinct plain keys, assigning the timestamp pair and then the shown fields keeps exactly those pairs except a `__proto__` one, in `Object.keys` order |
| UiLog.DataItemsReadBack | JS/ui.js:194-202 | reading the labels of a data list gives `Timestamp` and the shown keys back |
| UiLog.LabelsReadBack | JS/ui.js:199 | a plain key reads back from its `key:` label |
| UiLog.KeyOfOwnLabel | JS/ui.js:199 | removing the colon from a label and trimming it gives a plain key back |
| UiLog.TimestampLabel | JS/ui.js:199 | the timestamp label reads back as `Timestamp` |
| UiLog.AssembleDistinct | JS/ui.js:193-201 | with distinct keys, assigning data[key] one pair at a time builds a record of exactly those pairs except a `__proto__` one, with the array indices first in ascending numeric order and the other keys in assignment order |
| UiLog.KeyOrderUnique | JS/main.js:159 | that order is fully determined: two records with the same pairs, both in key order and with the other keys in the same order, are equal |
| UiLog.KeyOrderPlain | JS/main.js:159 | without array-index keys, `Object.keys` order is assignment order |
| UiLog.IndexValueInjective | JS/ui.js:201 | two array-index keys with the same number are the same key |
| UiLog.SetFieldNewKey | JS/ui.js:201 | assigning a key the record lacks adds exactly its pair and keeps the record in key order: a key that is not an array index goes last, an array index joins the indices by number and leaves the other keys as they were; assigning `__proto__` adds nothing |
| UiLog.InsertIndexOrdered | JS/ui.js:201 | a new array index placed by its number keeps the record in key order |
| UiLog.ShownFieldsDistinct | JS/ui.js:107-108 | distinct payload keys give distinct shown keys |
| UiState.UpdateButtonState | JS/ui.js:72-90 | edit and delete are disabled exactly without a selected server; a closing socket leaves the toggle button as it was |
| UiState.ToggleEnabledIff | JS/ui.js:74-86 | outside closing, the toggle button can be pressed exactly when the socket is open, or when it is closed and a server is selected |
| UiState.ToggleOffersDisconnectIff | JS/ui.js:74-86 | outside closing, the button offers to disconnect exactly when the socket is open, whatever it showed before |
| UiState.UpdateButtonStateIdempotent | JS/ui.js:72-90 | refreshing twice with the same inputs is refreshing once |
| UiState.ClosingAfterOpenKeepsDisconnect | JS/ui.js:72-89 | after open then closing, the button still offers to disconnect and can be pressed |
| UiState.StatusClass | JS/ui.js:61-70 | the class is always one of connected, connecting, error, disconnected |
| UiState.StatusClassIff | JS/ui.js:64-67 | connected, connecting and error each come from exactly one text; every other text is disconnected |
| UiState.UpdateConnectionStatus | JS/ui.js:61-70 | the label shows the status text itself |
| LegacyScript.AsParsed | script.js:314-317 | selectServer given the index as a number reads that number; given null it reads NaN |
| LegacyScript.PopulatedActive | script.js:182-207 | null exactly for an empty list; otherwise the id if it names an entry, else 0 |
| LegacyScript.PopulatedActiveIdempotent | script.js:200-206 | repairing a repaired index changes nothing |
| LegacyScript.DeletedActive | script.js:341-343 | null exactly for an empty list; an index still in range stays; the result always names an entry |
| LegacyScript.DeleteSelectsNeighbour | script.js:336-343 | after a delete the index names the entry that followed, or the previous one when the last was deleted, or null |
| LegacyScript.OnlyCurrentLiveAtMostOne | script.js:366-370 | when only the current socket may be live, at most one socket is live |
| LegacyScript.CloseIfOpen | script.js:455-460 | only an open socket is closed; every other socket is untouched |
| LegacyScript.CloseIfOpenLeavesNothingOpen | script.js:455-460 | afterwards nothing is open, and a connecting socket is still live |
| LegacyScript.LegacyApp.constructor | script.js:29-56 | the stored list, the repaired index shown in the dropdown, no socket and no retry |
| LegacyScript.LegacyApp.PopulateServerSelect | script.js:179-212 | repairs the index and shows it in the dropdown; nothing else changes |
| LegacyScript.LegacyApp.SelectServer | script.js:218-251 | the index as populate would repair it; an empty list disconnects and stops; a live socket is disconnected (only when open) and a connect is deferred |
| LegacyScript.LegacyApp.ChooseInDropdown | script.js:486-488 | the chosen entry becomes active and is shown; an open socket is closed, setting the manual flag and cancelling the retry; a connect is deferred exactly when a socket was live |
| LegacyScript.LegacyApp.OpenAddServerModal | script.js:257-263 | the form adds |
| LegacyScript.LegacyApp.OpenEditServerModal | script.js:269-279 | the form edits exactly when a server is selected |
| LegacyScript.LegacyApp.SaveServerDetails | script.js:285-296 | an empty trimmed name or an invalid trimmed URL changes nothing; there is no duplicate check |
| LegacyScript.LegacyApp.StoreServer | script.js:298-318 | an edit without a selected server throws and changes nothing; an edit replaces the active entry; an add appends, makes it active and leaves the dropdown on the old entry; an open socket is closed, setting the manual flag and cancelling the retry; a connect is deferred exactly when a socket was live |
| LegacyScript.LegacyApp.DeleteSelectedServer | script.js:326-350 | confirmed with a selection: the entry is spliced out, the index adjusted and shown, an open socket closed; a reconnect is deferred unless the open socket was closed because it was the one shown |
| LegacyScript.LegacyApp.ConnectWebSocket | script.js:358-391 | the retry is always cancelled first; a live socket or no active server leaves the connection as it was; otherwise the manual flag is reset and a connecting socket for the active URL becomes ws, or, when the constructor rejects the URL, ws stays as it was |
| LegacyScript.LegacyApp.DisconnectWebSocket | script.js:454-465 | only an open socket is closed, and only then are the manual flag set and the retry cancelled |
| LegacyScript.LegacyApp.ToggleConnection | script.js:470-476 | an open socket is closed, setting the manual flag and cancelling the retry; otherwise the state is exactly what connectWebSocket leaves, including the URL of the new socket |
| LegacyScript.LegacyApp.TransportOpen | script.js:394-403 | the socket that opens is the current one; the retry is cancelled |
| LegacyScript.LegacyApp.TransportClosing | script.js:454-460 | the open socket becomes closing, which disconnectWebSocket then leaves alone; nothing else changes |
| LegacyScript.LegacyApp.TransportClose | script.js:421-437 | ws keeps its value; a retry is scheduled unless the close was manual or one is pending |
| LegacyScript.LegacyApp.TransportMessage | script.js:406-418 | the payload is logged as data, or the parse error when JSON.parse threw, the payload is null, or it is an object with an own `hasOwnProperty` field or with a truthy `ts` or shown value that cannot be converted |
| LegacyScript.LegacyApp.RetryFire | script.js:432-435 | the state is exactly what connectWebSocket leaves: the interval cancelled, and with no live socket and an active server the manual flag reset and a socket for the active URL made; no active server, or a live socket, leaves the connection as it was |
| LegacyScript.LegacyApp.DeferredConnectFire | script.js:246-248 | one deferred connect fewer, and the state connectWebSocket leaves, as for RetryFire |
| LegacyScript.LegacyApp.SelectServerClosingLive | script.js:243-249 | corrected: the index and the dropdown as in SelectServer; a live socket is closed whether open or connecting, as a manual disconnect, so no socket is live when the connect is deferred; without a live socket both flags stay |
| LegacyScript.LegacyApp.CloseLive | script.js:454-465 | corrected close: an open or connecting socket is closed as a manual disconnect |
| LegacyScript.SelectWhileConnectingTrace | script.js:243-249 | choosing another server while connecting: the socket that opens is for the old server while the new one is active |
| LegacyScript.SelectWhileConnectingFixedTrace | script.js:243-249 | with the corrected selection the socket that opens is for the selected server |
| LegacyScript.Unit | script.js:118-120 | a unit is added exactly for temperatura, umidade and nivel |
| LegacyScript.Capitalise | script.js:122 | the same length, the first character upper-cased, the rest unchanged |
| LegacyScript.CapitaliseIdempotent | script.js:122 | capitalising twice is capitalising once |
| LegacyScript.LegacyLabelled | script.js:112-124 | each shown field once, in order, labelled with its capitalised key and followed by its unit |
| LegacyScript.LabelledAlike | script.js:112-124 | for keys already capitalised and without unit, both revisions label the shown fields alike |
| LegacyScript.LegacyItems | script.js:102-126 | the timestamp item first, then one item per shown field |
| LegacyScript.LegacyItemsAgainstModern | script.js:112-124 | against the list of JS/ui.js: the same items in the same order, with capitalised keys and units added; without either, the two lists are equal |
| LegacyScript.LegacyEntry | script.js:99-132 | where addMessageToLog does not throw: an object logged as data becomes a data list; anything else becomes the text of the `<pre>`, `""` for null |
| LegacyScript.MessageEntry | script.js:406-418 | the parse error is logged exactly when JSON.parse threw, the payload is null, or it is an object with an own `hasOwnProperty` field (whose value `message.hasOwnProperty(key)` then calls) or with a truthy `ts` or a shown value that cannot be converted (`new Date`, `+=` and the template throw on it); otherwise the payload's entry |
| LegacyScript.LegacyLog.AddMessageToLog | script.js:98-141 | it throws, changing nothing, exactly where the JS/ui.js version does and for an object logged as data with an own `hasOwnProperty` field; otherwise the new entry goes first and at most 50 are kept |
| LegacyScript.LegacyLog.OnMessage | script.js:406-418 | exactly one entry is logged, newest first, under the 50-entry cap |

## Left out

- **JS/storage.js** is not part of this model. It only wraps localStorage and `JSON.parse` / `parseInt`. The stored list and the parsed stored id are parameters, and writes to storage are not modelled.
- **DOM work is not modelled:** element creation, `innerHTML`, modals, the sidebar, toasts, `console` output, and the informational log lines the handlers write. Only the state they change and the outcomes they return are modelled.
- **WebSocketClient.Manager.Connect and LegacyScript.LegacyApp.ConnectWebSocket:** whether the `WebSocket` constructor throws for a URL is a parameter, `rejected`, since the URL parser is not modelled. Nothing ties two calls with the same URL to the same answer. The exception itself ends the handler that called connect, which in every caller is the last step, so it is not returned.
- **Timing:** the real `WebSocket`, the network, and the 5000 ms and 500 ms timers are not modelled.
  - Events and timer firings are methods the environment may call in any order their preconditions allow.
  - The 500 ms delay is only a count of pending deferred connects.
- **`JSON.parse` and `parseInt`** are not modelled; their results are inputs.
  - A payload is an object (its own enumerable fields in order, arrays included), null, or a primitive.
  - The payload's fields are given in `for...in` order, so array-index keys are expected first; the model does not reorder them. The record getLogData builds is ordered by the model itself.
  - Repeated keys: `JSON.parse` keeps the last, so a parsed object never has two fields with one key. The datatype allows it; then `Lookup` reads the first and `ShownFields` shows each.
  - Which values make conversion to a primitive throw (an own `toString` field, or an array holding such a value) is given with the value as a flag, not computed.
- **Case mapping:** `toLowerCase` and `toUpperCase` map ASCII letters only. Other characters are left unchanged.
- **`toLocaleString`:** the timestamp formatting is a function parameter.
- **`innerHTML` parsing:** a key or value containing markup would be parsed as HTML. The model takes the label and value texts as written.
- **Inherited properties in export:** in `convertToCSV`, a header key that names a property of `Object.prototype` (such as `toString`) reads that property. The model reads only the item's own keys.
- **className:** both log functions are given a single class name, and `classList.contains` is equality with it.
- **Throwing callbacks:** a callback that throws is modelled only for onMessage, where the try around it catches the exception.
- **Plumbing is not modelled:** the clear-log buttons, export and navigation (`exportData`, `loadView`, `navigateToView`), status-label writes inside script.js, its `updateButtonState`, and listener wiring other than the dropdown change of script.js and the toggle buttons of both revisions.
- **LegacyScript.LegacyApp transport errors:** script.js's onerror changes only the status label and the log, so it is not a method.
- **WebSocketClient.Manager.TransportClose:** keeps "only the current socket is live" only when the closing socket is the current one. That is the defect listed below.
- **UiLog.DataEntryRoundTrip:** stated only for distinct plain keys (no `:`, no surrounding white space, not `Timestamp`). For other keys getLogData may change the key, as `KeyOfLabel` computes (a key with white space around its text, or whose text from its first `:` on is not all `:`, comes back changed: `a:b` comes back as `ab:`, while `a:` comes back unchanged), and a `Timestamp` field replaces the timestamp's value. A `__proto__` key is covered: it is dropped.
- **Csv.CsvLines:** stated only for data without newlines, and **Csv.HeaderLineSplits** only for keys without `;`. Such characters make the text ambiguous.
- **LegacyScript.LegacyApp.SaveServerDetails, StoreServer, DeleteSelectedServer and ChooseInDropdown** call the as-written SelectServer, so that they match the code. The corrected SelectServerClosingLive is proved on its own and in its trace.

## Findings

| source | as written | input that shows it | evidently intended | confidence | as-written member | corrected member |
|---|---|---|---|---|---|---|
| JS/websocket.js:46-48 | onclose sets `ws = null` whichever socket closes | connect, open, disconnect, then connect again while the first socket is still closing; the first socket's close then arrives | clear `ws` only when the socket that closed is the one it holds | not executed; high | WebSocketClient.Manager.TransportClose, WebSocketClient.StaleCloseTrace | WebSocketClient.Manager.TransportCloseGuarded, WebSocketClient.StaleCloseGuardedTrace |
| script.js:243-249 | a CONNECTING socket is passed to disconnectWebSocket, which closes only OPEN sockets; the deferred connectWebSocket then returns early because the socket is live | two servers; connect to the first and choose the second before the socket opens | close the live socket whatever its state, so the deferred connect reaches the new server | not executed; medium | LegacyScript.LegacyApp.SelectServer, LegacyScript.SelectWhileConnectingTrace | LegacyScript.LegacyApp.SelectServerClosingLive, LegacyScript.SelectWhileConnectingFixedTrace |

In the first finding, the stale close reports the state as closed while
the new socket is live. The retry it schedules then opens a third socket
beside the second. The corrected handler keeps at most one socket live.

In the second finding, the socket that opens is for the first server
while the second is active.
