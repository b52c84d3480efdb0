/** The server management of JS/main.js: the application state (the
    server list, the index of the active server and whether the server
    form is editing or adding) and the handlers that change it. Each
    handler is stated against a function of the old state, and the
    properties the handlers promise are lemmas about those functions.
    The connection is the manager of JS/websocket.js. */
module Dashboard {
  import opened Basics
  import opened ServerList
  import opened WsUrl
  import opened Transport
  import opened WebSocketClient

  // -----------------------------------------------------------------------
  // The handlers as functions of the state

  /** The repair initializeApp applies to the stored active id. stored is
      what storage.getActiveServerId returned: None for a missing key,
      otherwise the result of parseInt. An id that names an entry is kept
      and a missing one stays missing; any other id becomes 0, or null
      when the list is empty. */
  function RepairActiveId(count: nat, stored: Option<ParsedInt>): (r: Option<nat>)
    ensures r.Some? ==> r.value < count
    ensures stored.None? ==> r.None?
    ensures stored.Some? && stored.value.Int? && 0 <= stored.value.n < count ==> r == Some(stored.value.n)
    ensures stored.Some? && !(stored.value.Int? && 0 <= stored.value.n < count) ==>
      (r.Some? <==> count > 0) && (r.Some? ==> r.value == 0)
  {
    match stored
    case None => None
    case Some(id) =>
      if id.Int? && 0 <= id.n < count then Some(id.n)
      else if count > 0 then Some(0) else None
  }

  /** The id handleServerSelection accepts: parseInt's result when it is a
      number naming an entry, and nothing for NaN, a negative number or
      one past the end. */
  function SelectionTarget(count: nat, id: ParsedInt): (r: Option<nat>)
    ensures r.Some? <==> id.Int? && 0 <= id.n < count
    ensures r.Some? ==> r.value == id.n && r.value < count
  {
    if id.Int? && 0 <= id.n < count then Some(id.n) else None
  }

  datatype SaveOutcome = EmptyName | InvalidUrl | DuplicateUrl | Updated | Added

  datatype SaveResult = SaveResult(outcome: SaveOutcome, servers: seq<Server>, active: Option<nat>)

  predicate Rejected(o: SaveOutcome) { o == EmptyName || o == InvalidUrl || o == DuplicateUrl }

  /** saveServer on the trimmed form inputs name and url. In edit mode the
      URL may be the edited entry's own; in add mode it may be no entry's.
      With no active entry an edit assigns servers[null], which leaves the
      array's elements as they were. */
  function Save(servers: seq<Server>, active: Option<nat>, editing: bool, name: string, url: string): (r: SaveResult)
    requires active.Some? ==> active.value < |servers|
    ensures
      && (r.outcome == EmptyName <==> name == "")
      && (r.outcome == InvalidUrl <==> name != "" && !IsValidWebSocketUrl(url))
      && (r.outcome == DuplicateUrl <==>
            name != "" && IsValidWebSocketUrl(url) && UrlUsedElsewhere(servers, url, if editing then active else None))
      && (Rejected(r.outcome) ==> r.servers == servers && r.active == active)
      && (r.outcome == Added <==> !Rejected(r.outcome) && !editing)
      && (r.outcome == Added ==> r.servers == servers + [Server(name, url)] && r.active == Some(|servers|))
      && (r.outcome == Updated ==>
            && r.active == active && |r.servers| == |servers|
            && (forall i :: 0 <= i < |servers| && active != Some(i) ==> r.servers[i] == servers[i])
            && (active.Some? ==> r.servers[active.value] == Server(name, url)))
  {
    if name == "" then SaveResult(EmptyName, servers, active)
    else if !IsValidWebSocketUrl(url) then SaveResult(InvalidUrl, servers, active)
    else if editing then
      if UrlUsedElsewhere(servers, url, active) then SaveResult(DuplicateUrl, servers, active)
      else if active.Some? then SaveResult(Updated, servers[active.value := Server(name, url)], active)
      else SaveResult(Updated, servers, active)
    else if UrlUsedElsewhere(servers, url, None) then SaveResult(DuplicateUrl, servers, active)
    else SaveResult(Added, servers + [Server(name, url)], Some(|servers|))
  }

  /** saveServer never lets two entries share a URL. */
  lemma SaveKeepsUrlsUnique(servers: seq<Server>, active: Option<nat>, editing: bool, name: string, url: string)
    requires active.Some? ==> active.value < |servers|
    requires NoDuplicateUrls(servers)
    ensures NoDuplicateUrls(Save(servers, active, editing, name, url).servers)
  {
    var r := Save(servers, active, editing, name, url);
    var s := Server(name, url);
    if r.outcome == Added {
      AppendKeepsUrlsUnique(servers, s);
    } else if r.outcome == Updated && active.Some? {
      ReplaceKeepsUrlsUnique(servers, active.value, s);
      assert r.servers == servers[active.value := s];
    }
  }

  predicate AllUrlsValid(servers: seq<Server>) {
    forall i :: 0 <= i < |servers| ==> IsValidWebSocketUrl(servers[i].url) && servers[i].name != ""
  }

  /** Every entry saveServer writes has a non-empty name and a URL the
      validator accepts, so a list that held only such entries still does,
      and the active id still names an entry or is null. */
  lemma SaveKeepsEntriesValid(servers: seq<Server>, active: Option<nat>, editing: bool, name: string, url: string)
    requires active.Some? ==> active.value < |servers|
    ensures var r := Save(servers, active, editing, name, url);
      && (AllUrlsValid(servers) ==> AllUrlsValid(r.servers))
  {
    var r := Save(servers, active, editing, name, url);
    var s := Server(name, url);
    if AllUrlsValid(servers) {
      if r.outcome == Added {
        assert r.servers == servers + [s];
        forall i | 0 <= i < |r.servers|
          ensures IsValidWebSocketUrl(r.servers[i].url) && r.servers[i].name != ""
        {
          if i < |servers| {
            assert r.servers[i] == servers[i];
          }
        }
      } else if r.outcome == Updated && active.Some? {
        assert r.servers == servers[active.value := s];
      }
    }
  }

  /** After saveServer the active id still names an entry or is null. */
  lemma SaveKeepsActiveValid(servers: seq<Server>, active: Option<nat>, editing: bool, name: string, url: string)
    requires active.Some? ==> active.value < |servers|
    ensures var r := Save(servers, active, editing, name, url);
      r.active.Some? ==> r.active.value < |r.servers|
  {
    var r := Save(servers, active, editing, name, url);
    if r.outcome == Updated {
      assert |r.servers| == |servers|;
    }
  }

  datatype DeleteResult = NothingSelected | Deleted(servers: seq<Server>, active: Option<nat>)

  /** handleDeleteConfirmation: with no active entry nothing happens;
      otherwise the active entry is spliced out and the first entry, if
      any, becomes active. */
  function Delete(servers: seq<Server>, active: Option<nat>): (r: DeleteResult)
    requires active.Some? ==> active.value < |servers|
  {
    if active.None? then NothingSelected
    else Deleted(RemoveAt(servers, active.value), if |servers| > 1 then Some(0) else None)
  }

  /** A delete removes exactly the active entry, keeps the order of the
      rest, keeps URLs unique and leaves the first entry (or nothing)
      active. */
  lemma DeleteRemovesActive(servers: seq<Server>, active: Option<nat>)
    requires active.Some? ==> active.value < |servers|
    ensures var r := Delete(servers, active);
      && (r.NothingSelected? <==> active.None?)
      && (r.Deleted? ==>
            && |r.servers| == |servers| - 1
            && r.servers[..active.value] + [servers[active.value]] + r.servers[active.value..] == servers
            && (NoDuplicateUrls(servers) ==> NoDuplicateUrls(r.servers))
            && (AllUrlsValid(servers) ==> AllUrlsValid(r.servers))
            && (r.active.Some? <==> |r.servers| > 0)
            && (r.active.Some? ==> r.active.value == 0))
  {
    if active.Some? {
      var k := active.value;
      RemoveAtKeepsOrder(servers, k);
      if NoDuplicateUrls(servers) {
        RemoveKeepsUrlsUnique(servers, k);
      }
      var r := RemoveAt(servers, k);
      if AllUrlsValid(servers) {
        forall i | 0 <= i < |r| ensures IsValidWebSocketUrl(r[i].url) && r[i].name != "" {
          assert r[i] == servers[if i < k then i else i + 1];
        }
      }
    }
  }

  // -----------------------------------------------------------------------
  // The application state

  class App {
    var servers: seq<Server>
    /** Index of the active server, or null. */
    var activeServerId: Option<nat>
    var isEditingServer: bool
    /** The connection manager of JS/websocket.js. */
    const conn: Manager

    ghost predicate Valid()
      reads this, conn
    {
      && (activeServerId.Some? ==> activeServerId.value < |servers|)
      && conn.Valid()
    }

    /** initializeApp: the stored list and the repaired stored id. */
    constructor Initialize(stored: seq<Server>, storedId: Option<ParsedInt>, manager: Manager)
      requires manager.Valid()
      ensures Valid()
      ensures servers == stored && activeServerId == RepairActiveId(|stored|, storedId)
      ensures !isEditingServer && conn == manager
    {
      servers := stored;
      activeServerId := RepairActiveId(|stored|, storedId);
      isEditingServer := false;
      conn := manager;
    }

    /** The add button: the form adds. */
    method BeginAdd()
      requires Valid()
      modifies this
      ensures Valid()
      ensures !isEditingServer && servers == old(servers) && activeServerId == old(activeServerId)
    {
      isEditingServer := false;
    }

    /** The edit button: the form edits, even when no server is active, in
        which case the form is not opened. */
    method BeginEdit() returns (formShown: bool)
      requires Valid()
      modifies this
      ensures Valid()
      ensures isEditingServer && servers == old(servers) && activeServerId == old(activeServerId)
      ensures formShown <==> activeServerId.Some?
    {
      isEditingServer := true;
      formShown := activeServerId.Some?;
    }

    /** handleServerSelection(idString), given parseInt's result. */
    method HandleServerSelection(id: ParsedInt)
      requires Valid()
      modifies this, conn
      ensures Valid()
      ensures servers == old(servers) && isEditingServer == old(isEditingServer)
      ensures var t := SelectionTarget(|old(servers)|, id);
        if t.None? || t == old(activeServerId) then
          activeServerId == old(activeServerId) && unchanged(conn)
        else
          && activeServerId == t
          && (old(conn.GetConnectionState()) != Open ==> unchanged(conn))
          && (old(conn.GetConnectionState()) == Open ==>
                conn.Disconnected() && conn.GetConnectionState() == Closing)
    {
      var t := SelectionTarget(|servers|, id);
      if t.None? {
        return;
      }
      if t != activeServerId {
        if conn.GetConnectionState() == Open {
          conn.Disconnect();
        }
        activeServerId := t;
      }
    }

    /** saveServer() on the values of the two form inputs. */
    method SaveServer(nameInput: string, urlInput: string) returns (outcome: SaveOutcome)
      requires Valid()
      modifies this
      ensures Valid()
      ensures var r := Save(old(servers), old(activeServerId), old(isEditingServer), Trim(nameInput), Trim(urlInput));
        outcome == r.outcome && servers == r.servers && activeServerId == r.active
      ensures isEditingServer == old(isEditingServer)
      ensures old(NoDuplicateUrls(servers)) ==> NoDuplicateUrls(servers)
    {
      var name, url := Trim(nameInput), Trim(urlInput);
      var r := Save(servers, activeServerId, isEditingServer, name, url);
      if NoDuplicateUrls(servers) {
        SaveKeepsUrlsUnique(servers, activeServerId, isEditingServer, name, url);
      }
      SaveKeepsActiveValid(servers, activeServerId, isEditingServer, name, url);
      servers, activeServerId, outcome := r.servers, r.active, r.outcome;
    }

    /** handleDeleteConfirmation(): a connection that is not closed is
        disconnected before the active entry is removed. */
    method HandleDeleteConfirmation() returns (deleted: bool)
      requires Valid()
      modifies this, conn
      ensures Valid()
      ensures deleted <==> old(activeServerId).Some?
      ensures var r := Delete(old(servers), old(activeServerId));
        if r.NothingSelected? then
          servers == old(servers) && activeServerId == None && unchanged(conn)
        else
          && servers == r.servers && activeServerId == r.active
          && (old(conn.GetConnectionState()) == Closed ==> unchanged(conn))
          && (old(conn.GetConnectionState()) != Closed ==>
                conn.Disconnected()
                && conn.GetConnectionState() != Open && conn.GetConnectionState() != Connecting)
      ensures isEditingServer == old(isEditingServer)
      ensures old(NoDuplicateUrls(servers)) ==> NoDuplicateUrls(servers)
    {
      if activeServerId.None? {
        return false;
      }
      DeleteRemovesActive(servers, activeServerId);
      if conn.GetConnectionState() != Closed {
        conn.Disconnect();
      }
      var r := Delete(servers, activeServerId);
      servers, activeServerId := r.servers, r.active;
      deleted := true;
    }

    /** connectToActiveServer(): connect to the active entry's URL, if
        there is an active entry. rejected says whether the WebSocket
        constructor throws for that URL (see Manager.Connect). */
    method ConnectToActiveServer(rejected: bool) returns (started: bool)
      requires Valid()
      modifies conn
      ensures Valid()
      ensures started <==> activeServerId.Some?
      ensures !started ==> unchanged(conn)
      ensures started && old(conn.Busy()) ==> unchanged(conn)
      ensures started && !old(conn.Busy()) ==>
        && conn.ConnectStarted(servers[activeServerId.value].url, rejected)
        && (!rejected ==> conn.GetConnectionState() == Connecting)
    {
      if activeServerId.None? {
        return false;
      }
      conn.Connect(servers[activeServerId.value].url, rejected);
      started := true;
    }

    /** The toggle button's click handler: disconnect when the socket is
        open, otherwise connectToActiveServer(). A socket that is still
        closing is not open, so a second one is connected beside it. */
    method ToggleConnection(rejected: bool)
      requires Valid()
      modifies conn
      ensures Valid()
      ensures old(conn.GetConnectionState()) == Open ==> conn.Disconnected()
      ensures old(conn.GetConnectionState()) != Open ==>
        && (activeServerId.None? || old(conn.Busy()) ==> unchanged(conn))
        && (activeServerId.Some? && !old(conn.Busy()) ==>
              conn.ConnectStarted(servers[activeServerId.value].url, rejected))
    {
      if conn.GetConnectionState() == Open {
        conn.Disconnect();
      } else {
        var _ := ConnectToActiveServer(rejected);
      }
    }
  }
}
