/** The selected MCP servers of a workflow node, normalised against the
    configured servers: ids are kept, and a server name saved by an older
    version is replaced by the id of the one server with that name, while a
    name two servers share is dropped. The implementation is not part of
    this model and its tests fix only those three cases; what happens to an
    entry that is neither an id nor a name, to a repeated entry and to an
    entry that is both an id and another server's name is reconstructed. */
module McpServerIds {
  import opened Wrappers

  datatype ServerConfig = ServerConfig(id: string, name: string, url: string)

  predicate IsServerId(servers: seq<ServerConfig>, s: string) {
    exists i :: 0 <= i < |servers| && servers[i].id == s
  }

  /** The ids of the servers with a given name, in configuration order. */
  function IdsNamed(servers: seq<ServerConfig>, name: string): (r: seq<string>)
    ensures |r| <= |servers|
    ensures forall j :: 0 <= j < |r| ==> IsServerId(servers, r[j])
    ensures |r| == 0 <==> forall i :: 0 <= i < |servers| ==> servers[i].name != name
  {
    if |servers| == 0 then []
    else
      var rest := IdsNamed(servers[1..], name);
      assert forall j :: 0 <= j < |rest| ==> IsServerId(servers, rest[j]) by {
        forall j | 0 <= j < |rest|
          ensures IsServerId(servers, rest[j])
        {
          var i :| 0 <= i < |servers[1..]| && servers[1..][i].id == rest[j];
          assert servers[i + 1].id == rest[j];
        }
      }
      if servers[0].name == name then [servers[0].id] + rest else rest
  }

  /** One selected entry: an id stays, a name held by exactly one server
      becomes its id, anything else is dropped. */
  function NormalizeOne(servers: seq<ServerConfig>, entry: string): (r: Option<string>)
    ensures r.Some? ==> IsServerId(servers, r.value)
    ensures IsServerId(servers, entry) ==> r == Some(entry)
    ensures !IsServerId(servers, entry) && |IdsNamed(servers, entry)| == 1 ==> r == Some(IdsNamed(servers, entry)[0])
    ensures !IsServerId(servers, entry) && |IdsNamed(servers, entry)| != 1 ==> r.None?
  {
    if IsServerId(servers, entry) then Some(entry)
    else
      var named := IdsNamed(servers, entry);
      if |named| == 1 then Some(named[0]) else None
  }

  /** `normalizeSelectedMcpServerIds`, entry by entry in order. */
  function Normalize(entries: seq<string>, servers: seq<ServerConfig>): (r: seq<string>)
    ensures |r| <= |entries|
    ensures forall j :: 0 <= j < |r| ==> IsServerId(servers, r[j])
    decreases |entries|
  {
    if |entries| == 0 then []
    else
      var init := Normalize(entries[..|entries| - 1], servers);
      match NormalizeOne(servers, entries[|entries| - 1])
      case Some(id) => init + [id]
      case None => init
  }

  /** Normalising a list is normalising its parts: the order of the
      entries is kept. */
  lemma {:induction false} NormalizeAppend(a: seq<string>, b: seq<string>, servers: seq<ServerConfig>)
    ensures Normalize(a + b, servers) == Normalize(a, servers) + Normalize(b, servers)
    decreases |b|
  {
    if |b| == 0 {
      assert a + b == a;
    } else {
      assert (a + b)[..|a + b| - 1] == a + b[..|b| - 1];
      assert (a + b)[|a + b| - 1] == b[|b| - 1];
      NormalizeAppend(a, b[..|b| - 1], servers);
    }
  }

  /** Entries that are all configured ids come back unchanged, in their
      order. */
  lemma {:induction false} IdsKept(entries: seq<string>, servers: seq<ServerConfig>)
    requires forall j :: 0 <= j < |entries| ==> IsServerId(servers, entries[j])
    ensures Normalize(entries, servers) == entries
    decreases |entries|
  {
    if |entries| > 0 {
      IdsKept(entries[..|entries| - 1], servers);
      assert entries[..|entries| - 1] + [entries[|entries| - 1]] == entries;
    }
  }

  /** A name that is not an id and is held by exactly one server is
      replaced by that server's id. */
  lemma UniqueNameMapped(servers: seq<ServerConfig>, k: nat)
    requires k < |servers|
    requires !IsServerId(servers, servers[k].name)
    requires forall i :: 0 <= i < |servers| && i != k ==> servers[i].name != servers[k].name
    ensures Normalize([servers[k].name], servers) == [servers[k].id]
  {
    UniqueNamed(servers, k);
    assert [servers[k].name][..0] == [];
  }

  lemma {:induction false} UniqueNamed(servers: seq<ServerConfig>, k: nat)
    requires k < |servers|
    requires forall i :: 0 <= i < |servers| && i != k ==> servers[i].name != servers[k].name
    ensures IdsNamed(servers, servers[k].name) == [servers[k].id]
  {
    var name := servers[k].name;
    if k == 0 {
      assert forall i :: 0 <= i < |servers[1..]| ==> servers[1..][i].name != name by {
        forall i | 0 <= i < |servers[1..]|
          ensures servers[1..][i].name != name
        {
          assert servers[1..][i] == servers[i + 1];
        }
      }
    } else {
      assert servers[1..][k - 1] == servers[k];
      forall i | 0 <= i < |servers[1..]| && i != k - 1
        ensures servers[1..][i].name != name
      {
        assert servers[1..][i] == servers[i + 1];
      }
      UniqueNamed(servers[1..], k - 1);
    }
  }

  /** A name that is not an id and is held by two servers is dropped. */
  lemma AmbiguousNameDropped(servers: seq<ServerConfig>, name: string)
    requires !IsServerId(servers, name)
    requires |IdsNamed(servers, name)| >= 2
    ensures Normalize([name], servers) == []
  {
    assert [name][..0] == [];
  }

  /** The cases of the tests: two servers `Alpha` and `Beta`; ids kept in
      the given order, and the name `Alpha` mapped to its id. */
  lemma ConfiguredServers()
    ensures var servers := [ServerConfig("alpha_id", "Alpha", "https://alpha.example/mcp"),
                            ServerConfig("beta_id", "Beta", "https://beta.example/mcp")];
            && Normalize(["beta_id", "alpha_id"], servers) == ["beta_id", "alpha_id"]
            && Normalize(["Alpha"], servers) == ["alpha_id"]
  {
    var servers := [ServerConfig("alpha_id", "Alpha", "https://alpha.example/mcp"),
                    ServerConfig("beta_id", "Beta", "https://beta.example/mcp")];
    assert servers[0].id == "alpha_id" && servers[1].id == "beta_id";
    IdsKept(["beta_id", "alpha_id"], servers);
    assert !IsServerId(servers, "Alpha") by {
      assert "alpha_id"[0] != "Alpha"[0] && "beta_id"[0] != "Alpha"[0];
    }
    assert "Beta" != "Alpha" by { assert "Beta"[0] != "Alpha"[0]; }
    UniqueNameMapped(servers, 0);
  }

  /** Two servers both named `Duplicate`: the name is dropped. */
  lemma DuplicateServers()
    ensures var servers := [ServerConfig("first_id", "Duplicate", "https://first.example/mcp"),
                            ServerConfig("second_id", "Duplicate", "https://second.example/mcp")];
            Normalize(["Duplicate"], servers) == []
  {
    var servers := [ServerConfig("first_id", "Duplicate", "https://first.example/mcp"),
                    ServerConfig("second_id", "Duplicate", "https://second.example/mcp")];
    assert !IsServerId(servers, "Duplicate") by {
      assert "first_id"[0] != "Duplicate"[0] && "second_id"[0] != "Duplicate"[0];
    }
    assert servers[1..][1..] == [];
    assert IdsNamed(servers, "Duplicate") == ["first_id", "second_id"];
    AmbiguousNameDropped(servers, "Duplicate");
  }
}
