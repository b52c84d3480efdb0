/** The saved server list shared by both revisions of the dashboard: a
    sequence of named WebSocket endpoints, addressed by index. */
module ServerList {
  import opened Basics

  datatype Server = Server(name: string, url: string)

  /** No two entries share a URL. */
  predicate NoDuplicateUrls(servers: seq<Server>) {
    forall i, j :: 0 <= i < j < |servers| ==> servers[i].url != servers[j].url
  }

  /** The duplicate-URL test of a save: some entry other than the excepted index has this URL. With except
      None every entry is considered. */
  function UrlUsedElsewhere(servers: seq<Server>, url: string, except: Option<nat>): (r: bool)
    ensures r <==> exists i :: 0 <= i < |servers| && servers[i].url == url && except != Some(i)
    decreases |servers|
  {
    if |servers| == 0 then false
    else
      var last := |servers| - 1;
      var front := servers[..last];
      var r := UrlUsedElsewhere(front, url, except);
      assert forall i :: 0 <= i < last ==> front[i] == servers[i];
      r || (servers[last].url == url && except != Some(last))
  }

  /** servers.splice(k, 1) on an array: the entry at k is removed. */
  function RemoveAt(servers: seq<Server>, k: nat): (r: seq<Server>)
    requires k < |servers|
    ensures |r| == |servers| - 1
    ensures forall i :: 0 <= i < k ==> r[i] == servers[i]
    ensures forall i :: k <= i < |r| ==> r[i] == servers[i + 1]
  {
    servers[..k] + servers[k + 1..]
  }

  /** Appending a server whose URL is not in the list keeps URLs unique. */
  lemma AppendKeepsUrlsUnique(servers: seq<Server>, s: Server)
    requires NoDuplicateUrls(servers)
    requires !UrlUsedElsewhere(servers, s.url, None)
    ensures NoDuplicateUrls(servers + [s])
  {
    var r := servers + [s];
    forall i, j | 0 <= i < j < |r| ensures r[i].url != r[j].url {
      if j == |servers| {
        assert r[i] == servers[i];
      }
    }
  }

  /** Replacing entry k by a server whose URL no other entry has keeps
      URLs unique. */
  lemma ReplaceKeepsUrlsUnique(servers: seq<Server>, k: nat, s: Server)
    requires k < |servers|
    requires NoDuplicateUrls(servers)
    requires !UrlUsedElsewhere(servers, s.url, Some(k))
    ensures NoDuplicateUrls(servers[k := s])
  {
    var r := servers[k := s];
    forall i, j | 0 <= i < j < |r| ensures r[i].url != r[j].url {
      if i == k {
        assert servers[j].url == r[j].url;
      } else if j == k {
        assert servers[i].url == r[i].url;
      }
    }
  }

  /** Removing an entry keeps URLs unique. */
  lemma RemoveKeepsUrlsUnique(servers: seq<Server>, k: nat)
    requires k < |servers|
    requires NoDuplicateUrls(servers)
    ensures NoDuplicateUrls(RemoveAt(servers, k))
  {
    var r := RemoveAt(servers, k);
    forall i, j | 0 <= i < j < |r| ensures r[i].url != r[j].url {
      var i' := if i < k then i else i + 1;
      var j' := if j < k then j else j + 1;
      assert r[i] == servers[i'] && r[j] == servers[j'] && i' < j';
    }
  }

  /** Removing an entry keeps the others in their relative order: what is
      left, with the removed entry put back, is the original list. */
  lemma RemoveAtKeepsOrder(servers: seq<Server>, k: nat)
    requires k < |servers|
    ensures RemoveAt(servers, k)[..k] + [servers[k]] + RemoveAt(servers, k)[k..] == servers
  {
    var r := RemoveAt(servers, k);
    assert r[..k] == servers[..k];
    assert r[k..] == servers[k + 1..];
  }
}
