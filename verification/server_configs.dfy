// Server configurations in the state store: one record per server and one index of
// server ids.
module ServerConfigs {
  import opened Common
  import opened BackupCatalog

  // A missing index document and an empty index read the same. Of a configuration
  // only what backups remember of it matters here.
  class ConfigStore {
    var configs: map<string, SourceConfig>
    var index: seq<string>
    ghost var faults: nat   // store calls that failed

    // Whether a store call succeeds.
    method Call() returns (ok: bool)
      modifies this`faults
      ensures faults == old(faults) + (if ok then 0 else 1)
    {
      ok := *;
      if !ok { faults := faults + 1; }
    }

    // A missing record is an error to the caller too.
    method GetServerConfig(server: string) returns (config: Option<SourceConfig>)
      modifies this`faults
      ensures faults == old(faults) || (faults == old(faults) + 1 && config == None)
      ensures faults == old(faults) ==> config == if server in configs then Some(configs[server]) else None
    {
      var ok := Call();
      config := if ok && server in configs then Some(configs[server]) else None;
    }

    // The record goes first, so a failure can leave an id in the index without one.
    method DeleteServerConfig(server: string) returns (ok: bool)
      modifies this
      ensures ok ==> configs == old(configs) - {server} && index == Minus(old(index), server)
      ensures !ok ==> (configs == old(configs) || configs == old(configs) - {server}) && index == old(index)
      ensures faults == old(faults) + (if ok then 0 else 1)
    {
      ok := Call();
      if !ok { return; }
      configs := configs - {server};
      ok := Call();
      if !ok { return; }
      var kept := [];
      for i := 0 to |index|
        invariant ok && configs == old(configs) - {server} && index == old(index) && faults == old(faults)
        invariant kept == Minus(old(index)[..i], server)
      {
        assert index[..i + 1] == index[..i] + [index[i]];
        MinusConcat(index[..i], [index[i]], server);
        if index[i] != server { kept := kept + [index[i]]; }
      }
      assert index[..|index|] == index;
      ok := Call();
      if ok { index := kept; }
    }
  }
}
