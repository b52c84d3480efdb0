/** The single-file dashboard script.js, an older revision of the same
    application: closure variables updated by event handlers, with the
    server list, the selected index, one WebSocket at a time with a retry
    interval, and a message log capped at 50 entries. */
module LegacyScript {
  import opened Basics
  import opened JsonValue
  import opened Transport
  import opened ServerList
  import WsUrl
  import UiLog

  // -----------------------------------------------------------------------
  // The selected index

  /** The value activeServerId holds, given to selectServer as a number
      (parseInt of a number is that number, parseInt(null) is NaN). */
  function AsParsed(a: Option<nat>): (r: ParsedInt)
    ensures r.Int? <==> a.Some?
    ensures a.Some? ==> r.n == a.value
  {
    if a.Some? then Int(a.value) else NaN
  }

  /** servers[id] is an entry. */
  predicate Names(count: nat, id: ParsedInt) {
    id.Int? && 0 <= id.n < count
  }

  /** The index populateServerSelect leaves active, and selectServer too:
      null for an empty list, the id when it names an entry, otherwise the
      first entry. */
  function PopulatedActive(count: nat, id: ParsedInt): (r: Option<nat>)
    ensures r.None? <==> count == 0
    ensures r.Some? ==> r.value < count
    ensures count > 0 ==> r == Some(if Names(count, id) then id.n else 0)
  {
    if count == 0 then None
    else if Names(count, id) then Some(id.n)
    else Some(0)
  }

  /** Repairing an index that is already repaired changes nothing: the
      populateServerSelect that follows every change keeps the index the
      change chose. */
  lemma PopulatedActiveIdempotent(count: nat, id: ParsedInt)
    ensures PopulatedActive(count, AsParsed(PopulatedActive(count, id))) == PopulatedActive(count, id)
  {
  }

  /** The adjustment deleteSelectedServer makes after servers.splice:
      an index past the new end moves to the last entry, or to null when
      the list is now empty. */
  function DeletedActive(count: nat, a: nat): (r: Option<nat>)
    ensures r.None? <==> count == 0
    ensures r.Some? ==> r.value < count
    ensures a < count ==> r == Some(a)
  {
    if a >= count then (if count > 0 then Some(count - 1) else None) else Some(a)
  }

  /** Deleting an entry that is not the last leaves the index on the entry
      that followed it; deleting the last moves it back one. */
  lemma DeleteSelectsNeighbour(servers: seq<Server>, a: nat)
    requires a < |servers|
    ensures var rest := RemoveAt(servers, a);
      var r := DeletedActive(|rest|, a);
      && (a + 1 < |servers| ==> r == Some(a) && rest[a] == servers[a + 1])
      && (a + 1 == |servers| && a > 0 ==> r == Some(a - 1) && rest[a - 1] == servers[a - 1])
      && (|servers| == 1 ==> r == None)
  {
  }

  // -----------------------------------------------------------------------
  // Sockets

  /** Only one socket is ever live when only the current one may be. */
  lemma OnlyCurrentLiveAtMostOne(sockets: seq<Socket>, ws: Option<nat>)
    requires OnlyCurrentLive(sockets, ws)
    ensures forall i, j :: 0 <= i < |sockets| && 0 <= j < |sockets| && Live(sockets[i]) && Live(sockets[j]) ==> i == j
  {
  }

  /** ws && ws.readyState === WebSocket.OPEN. */
  predicate OpenAt(sockets: seq<Socket>, ws: Option<nat>)
    requires ws.Some? ==> ws.value < |sockets|
  {
    ws.Some? && sockets[ws.value].state == Open
  }

  /** ws && (OPEN || CONNECTING). */
  predicate LiveAt(sockets: seq<Socket>, ws: Option<nat>)
    requires ws.Some? ==> ws.value < |sockets|
  {
    ws.Some? && Live(sockets[ws.value])
  }

  /** The sockets after disconnectWebSocket: ws.close() on an open socket,
      nothing otherwise. */
  function CloseIfOpen(sockets: seq<Socket>, ws: Option<nat>): (r: seq<Socket>)
    requires ws.Some? ==> ws.value < |sockets|
    ensures |r| == |sockets|
    ensures !OpenAt(sockets, ws) ==> r == sockets
    ensures OpenAt(sockets, ws) ==> r[ws.value].state == Closing && r[ws.value].url == sockets[ws.value].url
    ensures forall i :: 0 <= i < |sockets| && Some(i) != ws ==> r[i] == sockets[i]
  {
    if OpenAt(sockets, ws) then sockets[ws.value := CloseCalled(sockets[ws.value])] else sockets
  }

  /** Closing the open socket leaves no socket live. */
  lemma CloseIfOpenLeavesNothingOpen(sockets: seq<Socket>, ws: Option<nat>)
    requires ws.Some? ==> ws.value < |sockets|
    requires OnlyCurrentLive(sockets, ws)
    ensures OnlyCurrentLive(CloseIfOpen(sockets, ws), ws)
    ensures !OpenAt(CloseIfOpen(sockets, ws), ws)
    ensures LiveAt(CloseIfOpen(sockets, ws), ws) <==> ws.Some? && sockets[ws.value].state == Connecting
  {
  }

  // -----------------------------------------------------------------------
  // Log entries

  /** The unit shown after the values of three known keys. */
  function Unit(key: string): (u: string)
    ensures u != "" <==> key == "temperatura" || key == "umidade" || key == "nivel"
  {
    if key == "temperatura" then " °C"
    else if key == "umidade" then " %"
    else if key == "nivel" then " m"
    else ""
  }

  /** The key with its first character upper-cased. */
  function Capitalise(key: string): (r: string)
    ensures |r| == |key|
    ensures |key| > 0 ==> r[0] == UpperChar(key[0]) && r[1..] == key[1..]
  {
    if |key| == 0 then "" else [UpperChar(key[0])] + key[1..]
  }

  /** Capitalising twice is capitalising once. */
  lemma CapitaliseIdempotent(key: string)
    ensures Capitalise(Capitalise(key)) == Capitalise(key)
  {
    if |key| > 0 {
      var c := Capitalise(key);
      assert UpperChar(UpperChar(key[0])) == UpperChar(key[0]);
      assert Capitalise(c) == [UpperChar(c[0])] + c[1..];
      assert c == [c[0]] + c[1..];
    }
  }

  /** Each shown field as script.js labels it: the capitalised key with a
      colon, and the value followed by its unit. */
  function LegacyLabelled(sf: seq<(string, string)>): (r: seq<(string, string)>)
    ensures |r| == |sf|
    ensures forall i :: 0 <= i < |sf| ==> r[i] == (Capitalise(sf[i].0) + ":", sf[i].1 + Unit(sf[i].0))
  {
    seq(|sf|, i requires 0 <= i < |sf| => (Capitalise(sf[i].0) + ":", sf[i].1 + Unit(sf[i].0)))
  }

  /** The items of a data list in script.js: the timestamp first, then for
      every shown field its capitalised key and its value with the unit. */
  function LegacyItems(fields: seq<(string, Value)>, locale: Value -> string): (r: seq<(string, string)>)
    ensures |r| == 1 + |UiLog.ShownFields(fields)|
    ensures r[0] == ("Timestamp:", UiLog.TimestampText(fields, locale))
    ensures r[1..] == LegacyLabelled(UiLog.ShownFields(fields))
  {
    [("Timestamp:", UiLog.TimestampText(fields, locale))] + LegacyLabelled(UiLog.ShownFields(fields))
  }

  /** For keys that are already capitalised and have no unit, both
      revisions label the shown fields alike. */
  lemma LabelledAlike(sf: seq<(string, string)>)
    requires forall i :: 0 <= i < |sf| ==> Capitalise(sf[i].0) == sf[i].0 && Unit(sf[i].0) == ""
    ensures LegacyLabelled(sf) == UiLog.Labelled(sf)
  {
    forall i | 0 <= i < |sf| ensures LegacyLabelled(sf)[i] == UiLog.Labelled(sf)[i] {
      assert sf[i].1 + "" == sf[i].1;
    }
  }

  /** Against the data list of JS/ui.js: the same items in the same order,
      the same timestamp, each key capitalised and each known value with
      its unit; for keys that are already capitalised and have no unit,
      the two lists are the same. */
  lemma LegacyItemsAgainstModern(fields: seq<(string, Value)>, locale: Value -> string)
    ensures var l, m, sf := LegacyItems(fields, locale), UiLog.DataItems(fields, locale), UiLog.ShownFields(fields);
      && |l| == |m| && l[0] == m[0]
      && (forall i :: 0 <= i < |sf| ==>
            m[i + 1] == (sf[i].0 + ":", sf[i].1)
            && l[i + 1] == (Capitalise(sf[i].0) + ":", m[i + 1].1 + Unit(sf[i].0)))
      && ((forall i :: 0 <= i < |sf| ==> Capitalise(sf[i].0) == sf[i].0 && Unit(sf[i].0) == "") ==> l == m)
  {
    var l, m, sf := LegacyItems(fields, locale), UiLog.DataItems(fields, locale), UiLog.ShownFields(fields);
    forall i | 0 <= i < |sf|
      ensures m[i + 1] == (sf[i].0 + ":", sf[i].1)
      ensures l[i + 1] == (Capitalise(sf[i].0) + ":", m[i + 1].1 + Unit(sf[i].0))
    {
      assert m[i + 1] == m[1..][i] && l[i + 1] == l[1..][i];
    }
    if forall i :: 0 <= i < |sf| ==> Capitalise(sf[i].0) == sf[i].0 && Unit(sf[i].0) == "" {
      LabelledAlike(sf);
      assert l == [l[0]] + l[1..] && m == [m[0]] + m[1..];
    }
  }

  /** The object has an own field named key. */
  predicate HasOwnField(fields: seq<(string, Value)>, key: string) {
    exists i :: 0 <= i < |fields| && fields[i].0 == key
  }

  /** addMessageToLog of script.js throws before adding anything where
      that of JS/ui.js does (a null payload logged as data, a timestamp or
      a shown value that cannot be converted: `value += ' °C'` converts
      as the template does), and for an object logged as data with an own
      field named hasOwnProperty, because
      message.hasOwnProperty(key) then calls that field's value, which no
      JSON value makes a function; the loop reaches the call at the
      latest on that field itself, as it is not ts. */
  predicate LegacyThrowsOnAdd(m: UiLog.LogMessage, className: string) {
    || UiLog.ThrowsOnAdd(m, className)
    || (className == "data-message" && m.Payload? && m.data.Object?
        && HasOwnField(m.data.fields, "hasOwnProperty"))
  }

  /** The entry addMessageToLog builds in script.js. */
  function LegacyEntry(m: UiLog.LogMessage, className: string, locale: Value -> string): (e: UiLog.Entry)
    requires !LegacyThrowsOnAdd(m, className)
    ensures e.className == className && !e.hidden
    ensures e.body.Items? <==> className == "data-message" && m.Payload? && m.data.Object?
    ensures e.body.Text? ==> e.body.text == UiLog.MessageText(m)
  {
    if className == "data-message" && m.Payload? && m.data.Object? then
      UiLog.Entry(className, UiLog.Items(LegacyItems(m.data.fields, locale)), false)
    else
      UiLog.Entry(className, UiLog.Text(UiLog.MessageText(m)), false)
  }

  /** The entry onmessage logs: the parsed payload as data, or the parse
      error text when JSON.parse threw or addMessageToLog threw inside the
      same try (a null payload, an object with an own hasOwnProperty
      field, or one whose timestamp or a shown value cannot be
      converted). */
  function MessageEntry(raw: string, parsed: Option<Json>, locale: Value -> string): (e: UiLog.Entry)
    ensures e.className == "error-message" <==>
      || parsed.None? || parsed == Some(Null)
      || (parsed.value.Object?
          && (HasOwnField(parsed.value.fields, "hasOwnProperty") || UiLog.ConversionThrows(parsed.value.fields)))
    ensures e.className == "error-message" ==> e.body == UiLog.Text("Erro ao parsear mensagem: " + raw)
    ensures e.className != "error-message" ==>
      e == LegacyEntry(UiLog.Payload(parsed.value), "data-message", locale)
  {
    if parsed.Some? && !LegacyThrowsOnAdd(UiLog.Payload(parsed.value), "data-message") then
      LegacyEntry(UiLog.Payload(parsed.value), "data-message", locale)
    else LegacyEntry(UiLog.Say("Erro ao parsear mensagem: " + raw), "error-message", locale)
  }

  /** The log element of script.js. */
  class LegacyLog {
    /** The entries in display order, newest first. */
    var entries: seq<UiLog.Entry>

    ghost predicate Valid()
      reads this
    {
      |entries| <= UiLog.MaxMessages
    }

    constructor ()
      ensures Valid() && entries == []
    {
      entries := [];
    }

    /** addMessageToLog(message, className). threw reports the TypeError
        raised before anything is added (LegacyThrowsOnAdd). */
    method AddMessageToLog(message: UiLog.LogMessage, className: string, locale: Value -> string) returns (threw: bool)
      requires Valid()
      modifies this
      ensures Valid()
      ensures threw <==> LegacyThrowsOnAdd(message, className)
      ensures threw ==> entries == old(entries)
      ensures !threw ==>
        var added := [LegacyEntry(message, className, locale)] + old(entries);
        entries == added[..Min(|added|, UiLog.MaxMessages)]
    {
      if LegacyThrowsOnAdd(message, className) {
        return true;
      }
      entries := [LegacyEntry(message, className, locale)] + entries;
      entries := UiLog.DropOldest(entries);
      threw := false;
    }

    /** The onmessage handler: the try around JSON.parse and
        addMessageToLog, and its catch. parsed is what JSON.parse made of
        raw (None: it threw). */
    method OnMessage(raw: string, parsed: Option<Json>, locale: Value -> string)
      requires Valid()
      modifies this
      ensures Valid()
      ensures var added := [MessageEntry(raw, parsed, locale)] + old(entries);
        entries == added[..Min(|added|, UiLog.MaxMessages)]
    {
      var threw := true;
      if parsed.Some? {
        threw := AddMessageToLog(UiLog.Payload(parsed.value), "data-message", locale);
      }
      if threw {
        threw := AddMessageToLog(UiLog.Say("Erro ao parsear mensagem: " + raw), "error-message", locale);
      }
    }
  }

  // -----------------------------------------------------------------------
  // The application

  datatype SaveOutcome = EmptyName | InvalidUrl | NothingToEdit | Edited | Added

  class LegacyApp {
    var servers: seq<Server>
    var activeServerId: Option<nat>
    /** serverSelect.value: the index the dropdown shows, None for the
        placeholder option of an empty list. */
    var selectValue: Option<nat>
    var isEditingServer: bool
    /** Every WebSocket created, oldest first; ws is the index of the one
        the variable holds. */
    var sockets: seq<Socket>
    var ws: Option<nat>
    /** reconnectInterval is set: a retry is scheduled. */
    var reconnectPending: bool
    var isManuallyDisconnected: bool
    /** The setTimeout(connectWebSocket, 500) calls of selectServer that
        have not run yet. */
    var deferredConnects: nat
    const log: LegacyLog

    /** The list and the index agree: null exactly for an empty list. */
    ghost predicate ServersValid()
      reads this
    {
      && (activeServerId.None? <==> |servers| == 0)
      && (activeServerId.Some? ==> activeServerId.value < |servers|)
      && (selectValue.None? <==> |servers| == 0)
      && (selectValue.Some? ==> selectValue.value < |servers|)
    }

    /** Only the socket in ws may be live, and after a manual disconnect
        no retry is scheduled. */
    ghost predicate ConnValid()
      reads this
    {
      && (ws.Some? ==> ws.value < |sockets|)
      && OnlyCurrentLive(sockets, ws)
      && (isManuallyDisconnected ==> !reconnectPending)
    }

    ghost predicate Valid()
      reads this, log
    {
      ServersValid() && ConnValid() && log.Valid()
    }

    predicate IsOpen()
      reads this
      requires ws.Some? ==> ws.value < |sockets|
    {
      OpenAt(sockets, ws)
    }

    predicate Busy()
      reads this
      requires ws.Some? ==> ws.value < |sockets|
    {
      LiveAt(sockets, ws)
    }

    /** The start-up code: the stored list and the parsed stored index,
        then populateServerSelect. */
    constructor (stored: seq<Server>, storedId: ParsedInt, log: LegacyLog)
      requires log.Valid()
      ensures Valid()
      ensures servers == stored && activeServerId == PopulatedActive(|stored|, storedId)
      ensures selectValue == activeServerId && !isEditingServer
      ensures sockets == [] && ws == None && !reconnectPending && !isManuallyDisconnected
      ensures deferredConnects == 0 && this.log == log
    {
      servers := stored;
      activeServerId := PopulatedActive(|stored|, storedId);
      selectValue := activeServerId;
      isEditingServer := false;
      sockets := [];
      ws := None;
      reconnectPending := false;
      isManuallyDisconnected := false;
      deferredConnects := 0;
      this.log := log;
    }

    /** populateServerSelect(): the dropdown rebuilt and the index
        repaired. */
    method PopulateServerSelect()
      requires ConnValid()
      modifies this
      ensures ServersValid() && ConnValid()
      ensures activeServerId == PopulatedActive(|servers|, AsParsed(old(activeServerId)))
      ensures selectValue == activeServerId
      ensures servers == old(servers) && isEditingServer == old(isEditingServer)
      ensures sockets == old(sockets) && ws == old(ws) && reconnectPending == old(reconnectPending)
      ensures isManuallyDisconnected == old(isManuallyDisconnected) && deferredConnects == old(deferredConnects)
    {
      activeServerId := PopulatedActive(|servers|, AsParsed(activeServerId));
      selectValue := activeServerId;
    }

    /** disconnectWebSocket(): only an open socket is closed, and only
        then is the manual flag set and the retry cancelled. */
    method DisconnectWebSocket()
      requires ConnValid()
      modifies this
      ensures ConnValid()
      ensures !old(IsOpen()) ==> unchanged(this)
      ensures old(IsOpen()) ==> isManuallyDisconnected && !reconnectPending
      ensures sockets == CloseIfOpen(old(sockets), old(ws)) && ws == old(ws)
      ensures servers == old(servers) && activeServerId == old(activeServerId) && selectValue == old(selectValue)
      ensures isEditingServer == old(isEditingServer) && deferredConnects == old(deferredConnects)
    {
      if IsOpen() {
        isManuallyDisconnected := true;
        reconnectPending := false;
        sockets := CloseIfOpen(sockets, ws);
      }
      CloseIfOpenLeavesNothingOpen(old(sockets), ws);
    }

    /** The state connectWebSocket() leaves. The retry is cancelled first,
        whatever follows; a live socket, or no active server, stops it
        there; otherwise the manual flag is reset and the WebSocket
        constructor either makes a connecting socket for the active
        server's URL, which ws then holds, or, rejected, throws and leaves
        ws as it was. Nothing outside the connection changes. */
    twostate predicate ConnectRan(rejected: bool)
      reads this
    {
      && !reconnectPending
      && servers == old(servers) && activeServerId == old(activeServerId) && selectValue == old(selectValue)
      && isEditingServer == old(isEditingServer)
      && (old(ws).Some? ==> old(ws).value < |old(sockets)|)
      && (old(LiveAt(sockets, ws)) || old(activeServerId).None? ==>
            sockets == old(sockets) && ws == old(ws) && isManuallyDisconnected == old(isManuallyDisconnected))
      && (!old(LiveAt(sockets, ws)) && old(activeServerId).Some? ==>
            && !isManuallyDisconnected
            && old(activeServerId).value < |old(servers)|
            && sockets == old(sockets)
                 + (if rejected then [] else [Socket(old(servers)[old(activeServerId).value].url, Connecting)])
            && ws == (if rejected then old(ws) else Some(|old(sockets)|)))
    }

    /** connectWebSocket(). rejected says whether the browser's WebSocket
        constructor throws for the active server's URL. */
    method ConnectWebSocket(rejected: bool)
      requires Valid()
      modifies this
      ensures Valid()
      ensures ConnectRan(rejected)
      ensures deferredConnects == old(deferredConnects)
    {
      reconnectPending := false;
      if Busy() {
        return;
      }
      if activeServerId.None? {
        return;
      }
      isManuallyDisconnected := false;
      if rejected {
        return;
      }
      sockets := sockets + [Socket(servers[activeServerId.value].url, Connecting)];
      ws := Some(|sockets| - 1);
    }

    /** selectServer(idString): an id that names an entry becomes active,
        any other becomes 0, or null for an empty list (which also
        disconnects and stops there). A live socket is then disconnected
        and a connect deferred. */
    method SelectServer(id: ParsedInt)
      requires Valid()
      modifies this
      ensures Valid()
      ensures activeServerId == PopulatedActive(|servers|, id)
      ensures selectValue == (if Names(|servers|, id) then old(selectValue) else activeServerId)
      ensures servers == old(servers) && isEditingServer == old(isEditingServer)
      ensures var disconnects := |old(servers)| == 0 || old(Busy());
        && sockets == (if disconnects then CloseIfOpen(old(sockets), old(ws)) else old(sockets))
        && ws == old(ws)
        && isManuallyDisconnected == (old(isManuallyDisconnected) || (disconnects && old(IsOpen())))
        && reconnectPending == (old(reconnectPending) && !(disconnects && old(IsOpen())))
      ensures deferredConnects == old(deferredConnects) + (if |servers| > 0 && old(Busy()) then 1 else 0)
    {
      if !Names(|servers|, id) {
        if |servers| > 0 {
          activeServerId := Some(0);
          selectValue := Some(0);
        } else {
          activeServerId := None;
          DisconnectWebSocket();
          return;
        }
      } else {
        activeServerId := Some(id.n);
      }
      if Busy() {
        DisconnectWebSocket();
        deferredConnects := deferredConnects + 1;
      }
    }

    /** selectServer as evidently intended: a live socket is closed
        whether it is open or still connecting, so that the deferred
        connect reaches the newly selected server. */
    method SelectServerClosingLive(id: ParsedInt)
      requires Valid()
      modifies this
      ensures Valid()
      ensures activeServerId == PopulatedActive(|servers|, id)
      ensures selectValue == (if Names(|servers|, id) then old(selectValue) else activeServerId)
      ensures servers == old(servers) && isEditingServer == old(isEditingServer) && ws == old(ws)
      ensures !Busy()
      ensures old(Busy()) ==> isManuallyDisconnected && !reconnectPending
      ensures !old(Busy()) ==>
        isManuallyDisconnected == old(isManuallyDisconnected) && reconnectPending == old(reconnectPending)
      ensures sockets == (if old(Busy()) then old(sockets)[old(ws).value := CloseCalled(old(sockets)[old(ws).value])] else old(sockets))
      ensures deferredConnects == old(deferredConnects) + (if |servers| > 0 && old(Busy()) then 1 else 0)
    {
      if !Names(|servers|, id) {
        if |servers| > 0 {
          activeServerId := Some(0);
          selectValue := Some(0);
        } else {
          activeServerId := None;
          CloseLive();
          return;
        }
      } else {
        activeServerId := Some(id.n);
      }
      if Busy() {
        CloseLive();
        deferredConnects := deferredConnects + 1;
      }
    }

    /** ws.close() on the current socket when it is open or connecting, as
        a manual disconnect. */
    method CloseLive()
      requires ConnValid()
      modifies this
      ensures ConnValid() && !Busy()
      ensures !old(Busy()) ==> unchanged(this)
      ensures old(Busy()) ==>
        && isManuallyDisconnected && !reconnectPending
        && sockets == old(sockets)[old(ws).value := CloseCalled(old(sockets)[old(ws).value])]
      ensures ws == old(ws) && servers == old(servers) && activeServerId == old(activeServerId)
      ensures selectValue == old(selectValue) && isEditingServer == old(isEditingServer)
      ensures deferredConnects == old(deferredConnects)
    {
      if Busy() {
        isManuallyDisconnected := true;
        reconnectPending := false;
        sockets := sockets[ws.value := CloseCalled(sockets[ws.value])];
      }
    }

    /** The dropdown's change event: the user picks entry k, which the
        dropdown then shows, and selectServer runs on it. */
    method ChooseInDropdown(k: nat)
      requires Valid() && k < |servers|
      modifies this
      ensures Valid()
      ensures activeServerId == Some(k) && selectValue == Some(k)
      ensures servers == old(servers) && isEditingServer == old(isEditingServer)
      ensures sockets == (if old(Busy()) then CloseIfOpen(old(sockets), old(ws)) else old(sockets))
      ensures ws == old(ws)
      ensures isManuallyDisconnected == (old(isManuallyDisconnected) || old(IsOpen()))
      ensures reconnectPending == (old(reconnectPending) && !old(IsOpen()))
      ensures deferredConnects == old(deferredConnects) + (if old(Busy()) then 1 else 0)
    {
      selectValue := Some(k);
      SelectServer(Int(k));
    }

    /** openAddServerModal(). */
    method OpenAddServerModal()
      modifies this
      ensures !isEditingServer
      ensures servers == old(servers) && activeServerId == old(activeServerId) && selectValue == old(selectValue)
      ensures sockets == old(sockets) && ws == old(ws) && reconnectPending == old(reconnectPending)
      ensures isManuallyDisconnected == old(isManuallyDisconnected) && deferredConnects == old(deferredConnects)
    {
      isEditingServer := false;
    }

    /** openEditServerModal(): edit mode only with a server selected. */
    method OpenEditServerModal() returns (shown: bool)
      requires ServersValid()
      modifies this
      ensures shown <==> old(activeServerId).Some?
      ensures shown ==> isEditingServer
      ensures !shown ==> unchanged(this)
      ensures servers == old(servers) && activeServerId == old(activeServerId) && selectValue == old(selectValue)
      ensures sockets == old(sockets) && ws == old(ws) && reconnectPending == old(reconnectPending)
      ensures isManuallyDisconnected == old(isManuallyDisconnected) && deferredConnects == old(deferredConnects)
    {
      shown := activeServerId.Some?;
      if shown {
        isEditingServer := true;
      }
    }

    /** saveServerDetails(): trims both inputs and rejects an empty name or
        an invalid URL; there is no duplicate check. The rest is
        StoreServer. */
    method SaveServerDetails(nameInput: string, urlInput: string) returns (outcome: SaveOutcome)
      requires Valid()
      modifies this
      ensures Valid()
      ensures var name, url := Trim(nameInput), Trim(urlInput);
        && (outcome == EmptyName <==> name == "")
        && (outcome == InvalidUrl <==> name != "" && !WsUrl.IsValidWebSocketUrl(url))
        && (outcome != EmptyName && outcome != InvalidUrl ==> StoredAs(Server(name, url), outcome))
      ensures outcome == EmptyName || outcome == InvalidUrl ==> unchanged(this)
    {
      var name := Trim(nameInput);
      var url := Trim(urlInput);
      if name == "" {
        return EmptyName;
      }
      if !WsUrl.IsValidWebSocketUrl(url) {
        return InvalidUrl;
      }
      outcome := StoreServer(Server(name, url));
    }

    /** What StoreServer did with s, outcome being what it reported. */
    twostate predicate StoredAs(s: Server, outcome: SaveOutcome)
      reads this
    {
      && (outcome == NothingToEdit <==> old(isEditingServer) && old(activeServerId).None?)
      && (outcome == NothingToEdit ==> unchanged(this))
      && (outcome == Edited ==>
            && old(isEditingServer) && old(activeServerId).Some?
            && old(activeServerId).value < |old(servers)|
            && servers == old(servers)[old(activeServerId).value := s]
            && activeServerId == old(activeServerId) && selectValue == activeServerId)
      && (outcome == Added ==>
            && !old(isEditingServer)
            && servers == old(servers) + [s]
            && activeServerId == Some(|old(servers)|)
            && selectValue == Some(if old(activeServerId).Some? then old(activeServerId).value else 0))
      && (outcome == Edited || outcome == Added ==>
            && isEditingServer == old(isEditingServer)
            && ws == old(ws)
            && (old(ws).Some? ==> old(ws).value < |old(sockets)|)
            && sockets == (if old(LiveAt(sockets, ws)) then CloseIfOpen(old(sockets), old(ws)) else old(sockets))
            && isManuallyDisconnected == (old(isManuallyDisconnected) || old(OpenAt(sockets, ws)))
            && reconnectPending == (old(reconnectPending) && !old(OpenAt(sockets, ws)))
            && deferredConnects == old(deferredConnects) + (if old(LiveAt(sockets, ws)) then 1 else 0))
    }

    /** The validated part of saveServerDetails. Edit mode overwrites the
        active entry (servers[null].name throws when none is active); add
        mode appends. The dropdown is rebuilt, then the edited entry or the
        new one is selected; after an add the dropdown still shows the
        entry that was active before, after an edit it shows the active
        one. */
    method StoreServer(s: Server) returns (outcome: SaveOutcome)
      requires Valid()
      modifies this
      ensures Valid()
      ensures outcome == NothingToEdit || outcome == Edited || outcome == Added
      ensures StoredAs(s, outcome)
    {
      if isEditingServer {
        if activeServerId.None? {
          return NothingToEdit;
        }
        servers := servers[activeServerId.value := s];
        outcome := Edited;
      } else {
        servers := servers + [s];
        outcome := Added;
      }
      PopulateServerSelect();
      if !isEditingServer {
        SelectServer(Int(|servers| - 1));
      } else {
        SelectServer(AsParsed(activeServerId));
      }
    }

    /** deleteSelectedServer(), confirmed saying how the user answered
        confirm(). An open socket is closed first when the dropdown shows
        the active entry; the entry is spliced out, the index adjusted and
        the dropdown rebuilt; selectServer then runs on the new index. */
    method DeleteSelectedServer(confirmed: bool) returns (deleted: bool)
      requires Valid()
      modifies this
      ensures Valid()
      ensures deleted <==> old(activeServerId).Some? && confirmed
      ensures !deleted ==> unchanged(this)
      ensures deleted ==>
        var a := old(activeServerId).value;
        && servers == RemoveAt(old(servers), a)
        && activeServerId == DeletedActive(|servers|, a)
        && selectValue == activeServerId
        && isEditingServer == old(isEditingServer)
        && sockets == CloseIfOpen(old(sockets), old(ws)) && ws == old(ws)
        && isManuallyDisconnected == (old(isManuallyDisconnected) || old(IsOpen()))
        && reconnectPending == (old(reconnectPending) && !old(IsOpen()))
        && deferredConnects == old(deferredConnects)
             + (if |servers| > 0 && old(Busy()) && !(old(IsOpen()) && old(selectValue) == Some(a)) then 1 else 0)
    {
      if activeServerId.None? || !confirmed {
        return false;
      }
      var a := activeServerId.value;
      if IsOpen() && selectValue == Some(a) {
        DisconnectWebSocket();
      }
      servers := RemoveAt(servers, a);
      if a >= |servers| {
        activeServerId := if |servers| > 0 then Some(|servers| - 1) else None;
      }
      PopulateServerSelect();
      SelectServer(AsParsed(activeServerId));
      deleted := true;
    }

    /** The toggle button's click: disconnect an open socket, connect
        otherwise (rejected as for ConnectWebSocket). */
    method ToggleConnection(rejected: bool)
      requires Valid()
      modifies this
      ensures Valid()
      ensures old(IsOpen()) ==>
        && sockets == CloseIfOpen(old(sockets), old(ws)) && ws == old(ws)
        && isManuallyDisconnected && !reconnectPending
      ensures !old(IsOpen()) ==> ConnectRan(rejected)
      ensures servers == old(servers) && activeServerId == old(activeServerId) && selectValue == old(selectValue)
      ensures isEditingServer == old(isEditingServer) && deferredConnects == old(deferredConnects)
    {
      if IsOpen() {
        DisconnectWebSocket();
      } else {
        ConnectWebSocket(rejected);
      }
    }

    /** Socket s opens (its onopen handler): the retry is cancelled. */
    method TransportOpen(s: nat)
      requires Valid()
      requires s < |sockets| && sockets[s].state == Connecting
      modifies this
      ensures Valid()
      ensures old(ws) == Some(s)
      ensures sockets == old(sockets)[s := Socket(old(sockets)[s].url, Open)] && ws == old(ws)
      ensures !reconnectPending && isManuallyDisconnected == old(isManuallyDisconnected)
      ensures servers == old(servers) && activeServerId == old(activeServerId) && selectValue == old(selectValue)
      ensures isEditingServer == old(isEditingServer) && deferredConnects == old(deferredConnects)
    {
      sockets := sockets[s := sockets[s].(state := Open)];
      reconnectPending := false;
    }

    /** The peer starts the closing handshake on open socket s; no
        handler runs. */
    method TransportClosing(s: nat)
      requires Valid()
      requires s < |sockets| && sockets[s].state == Open
      modifies this
      ensures Valid()
      ensures sockets == old(sockets)[s := Socket(old(sockets)[s].url, Closing)] && ws == old(ws)
      ensures reconnectPending == old(reconnectPending) && isManuallyDisconnected == old(isManuallyDisconnected)
      ensures servers == old(servers) && activeServerId == old(activeServerId) && selectValue == old(selectValue)
      ensures isEditingServer == old(isEditingServer) && deferredConnects == old(deferredConnects)
    {
      sockets := sockets[s := sockets[s].(state := Closing)];
    }

    /** Socket s closes (its onclose handler), the current one or an older
        one: ws keeps its value, and a retry is scheduled unless the close
        was manual or one is already scheduled. */
    method TransportClose(s: nat)
      requires Valid()
      requires s < |sockets| && sockets[s].state != Closed
      modifies this
      ensures Valid()
      ensures sockets == old(sockets)[s := Socket(old(sockets)[s].url, Closed)] && ws == old(ws)
      ensures reconnectPending == (old(reconnectPending) || !old(isManuallyDisconnected))
      ensures isManuallyDisconnected == old(isManuallyDisconnected)
      ensures servers == old(servers) && activeServerId == old(activeServerId) && selectValue == old(selectValue)
      ensures isEditingServer == old(isEditingServer) && deferredConnects == old(deferredConnects)
    {
      sockets := sockets[s := sockets[s].(state := Closed)];
      if !isManuallyDisconnected && !reconnectPending {
        reconnectPending := true;
      }
    }

    /** A message arrives on open socket s (its onmessage handler). */
    method TransportMessage(s: nat, raw: string, parsed: Option<Json>, locale: Value -> string)
      requires Valid()
      requires s < |sockets| && sockets[s].state == Open
      modifies log
      ensures Valid()
      ensures var added := [MessageEntry(raw, parsed, locale)] + old(log.entries);
        log.entries == added[..Min(|added|, UiLog.MaxMessages)]
    {
      log.OnMessage(raw, parsed, locale);
    }

    /** The retry interval fires: connectWebSocket(), which cancels the
        interval whatever it finds (rejected as for ConnectWebSocket). */
    method RetryFire(rejected: bool)
      requires Valid() && reconnectPending
      modifies this
      ensures Valid()
      ensures ConnectRan(rejected)
      ensures deferredConnects == old(deferredConnects)
    {
      ConnectWebSocket(rejected);
    }

    /** A deferred connect of selectServer runs: connectWebSocket()
        (rejected as for ConnectWebSocket). */
    method DeferredConnectFire(rejected: bool)
      requires Valid() && deferredConnects > 0
      modifies this
      ensures Valid()
      ensures deferredConnects == old(deferredConnects) - 1
      ensures ConnectRan(rejected)
    {
      deferredConnects := deferredConnects - 1;
      ConnectWebSocket(rejected);
    }
  }

  /** script.js as written: connect to the first of two servers, choose
      the second while the socket is still connecting, let the deferred
      connect run and the socket open. The open socket is for the first
      server while the second is active. */
  method SelectWhileConnectingTrace(urlA: string, urlB: string) returns (openUrl: string, activeUrl: string)
    requires urlA != urlB
    ensures openUrl == urlA && activeUrl == urlB && openUrl != activeUrl
  {
    var log := new LegacyLog();
    var app := new LegacyApp([Server("A", urlA), Server("B", urlB)], Int(0), log);
    app.ConnectWebSocket(false);
    assert app.sockets == [Socket(urlA, Connecting)] && app.ws == Some(0);
    app.ChooseInDropdown(1);
    assert app.sockets == [Socket(urlA, Connecting)] && app.deferredConnects == 1;
    app.DeferredConnectFire(false);
    assert app.sockets == [Socket(urlA, Connecting)];
    app.TransportOpen(0);
    openUrl := app.sockets[app.ws.value].url;
    activeUrl := app.servers[app.activeServerId.value].url;
  }

  /** The same steps with the corrected selection: the connecting socket
      is closed, and the deferred connect opens one for the second
      server. */
  method SelectWhileConnectingFixedTrace(urlA: string, urlB: string) returns (openUrl: string, activeUrl: string)
    requires urlA != urlB
    ensures openUrl == urlB && activeUrl == urlB
  {
    var log := new LegacyLog();
    var app := new LegacyApp([Server("A", urlA), Server("B", urlB)], Int(0), log);
    app.ConnectWebSocket(false);
    assert app.sockets == [Socket(urlA, Connecting)] && app.ws == Some(0);
    app.selectValue := Some(1);
    app.SelectServerClosingLive(Int(1));
    assert app.deferredConnects == 1 && app.activeServerId == Some(1);
    app.DeferredConnectFire(false);
    assert app.ws == Some(1) && app.sockets[1] == Socket(urlB, Connecting);
    app.TransportOpen(1);
    openUrl := app.sockets[app.ws.value].url;
    activeUrl := app.servers[app.activeServerId.value].url;
  }
}
