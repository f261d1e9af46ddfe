// The backup catalog kept in the state store: one record per snapshot, one index
// of snapshot ids per server, and one global index of record keys. Every
// operation is a series of store calls, each of which may fail with no effect.
module BackupCatalog {
  import opened Common

  datatype RecordKey = RecordKey(server: string, snapshot: string)

  datatype SourceConfig = SourceConfig(
    region: string, zone: string, machineType: string, diskSizeGB: int,
    minecraftVersion: string, modpack: Option<string>)

  // `details` stands for the reported figures, which no operation inspects.
  datatype Backup = Backup(
    id: string, server: string, snapshot: string, prefix: string, status: string, details: string,
    deletedAt: Option<int>, retentionUntil: Option<int>, source: Option<SourceConfig>)

  // A missing index document and an empty index read the same.
  datatype Catalog = Catalog(
    records: map<RecordKey, Backup>, byServer: map<string, seq<string>>, global: seq<RecordKey>)

  datatype Stamp = Stamp(deletedAt: int, until: int, source: Option<SourceConfig>)

  const EMPTY := Catalog(map[], map[], [])

  function KeyOf(b: Backup): RecordKey { RecordKey(b.server, b.snapshot) }

  function RecordId(server: string, snapshot: string): string { server + ":" + snapshot }

  function SnapshotsOf(c: Catalog, s: string): seq<string> {
    if s in c.byServer then c.byServer[s] else []
  }

  // ---- What the operations do to the documents ----

  function WithRecord(c: Catalog, b: Backup): Catalog { c.(records := c.records[KeyOf(b) := b]) }

  function WithSnapshot(c: Catalog, b: Backup): Catalog {
    if b.snapshot in SnapshotsOf(c, b.server) then c
    else c.(byServer := c.byServer[b.server := SnapshotsOf(c, b.server) + [b.snapshot]])
  }

  function WithGlobal(c: Catalog, b: Backup): Catalog { c.(global := AddOnce(c.global, KeyOf(b))) }

  ghost predicate UpsertOutcome(c: Catalog, b: Backup, c': Catalog, ok: bool) {
    var c1 := WithRecord(c, b);
    var c2 := WithSnapshot(c1, b);
    if ok then c' == WithGlobal(c2, b) else c' == c || c' == c1 || c' == c2
  }

  function ServerKeys(c: Catalog, s: string): seq<RecordKey> {
    seq(|SnapshotsOf(c, s)|, i requires 0 <= i < |SnapshotsOf(c, s)| => RecordKey(s, SnapshotsOf(c, s)[i]))
  }

  // The per-server list always rewrites the id, the global one only an empty id.
  function ServerView(s: string, b: Backup): Backup { b.(id := RecordId(s, b.snapshot)) }

  function GlobalView(k: RecordKey, b: Backup): Backup {
    if b.id == "" then b.(id := RecordId(k.server, k.snapshot)) else b
  }

  function ListByServer(c: Catalog, s: string, errs: seq<bool>): seq<Backup>
    requires |errs| == |SnapshotsOf(c, s)|
  {
    var items := Fetch(c.records, ServerKeys(c, s), errs);
    seq(|items|, i requires 0 <= i < |items| => ServerView(s, items[i].1))
  }

  function ListAll(c: Catalog, errs: seq<bool>): seq<Backup>
    requires |errs| == |c.global|
  {
    var items := Fetch(c.records, c.global, errs);
    seq(|items|, i requires 0 <= i < |items| => GlobalView(items[i].0, items[i].1))
  }

  // The two lists as read without errors.
  function Backups(c: Catalog): seq<Backup> { ListAll(c, NoErrors(|c.global|)) }

  function BackupsOf(c: Catalog, s: string): seq<Backup> { ListByServer(c, s, NoErrors(|SnapshotsOf(c, s)|)) }

  function Stamped(b: Backup, st: Stamp): Backup {
    b.(deletedAt := Some(st.deletedAt), retentionUntil := Some(st.until),
       source := if st.source.Some? then st.source else b.source)
  }

  function StampAll(records: map<RecordKey, Backup>, s: string, bs: seq<Backup>, st: Stamp): map<RecordKey, Backup> {
    if bs == [] then records
    else
      var b := bs[|bs| - 1];
      StampAll(records, s, bs[..|bs| - 1], st)[RecordKey(s, b.snapshot) := Stamped(b, st)]
  }

  ghost predicate MarkOutcome(c: Catalog, s: string, st: Stamp, errs: seq<bool>, c': Catalog, ok: bool) {
    && |errs| == |SnapshotsOf(c, s)|
    && var listed := ListByServer(c, s, errs);
       exists n: nat | n <= |listed| ::
         && c' == c.(records := StampAll(c.records, s, listed[..n], st))
         && (ok ==> n == |listed|)
  }

  function RecordKeys(s: string, bs: seq<Backup>): seq<RecordKey> {
    seq(|bs|, i requires 0 <= i < |bs| => RecordKey(s, bs[i].snapshot))
  }

  function KeySet(ks: seq<RecordKey>): set<RecordKey> { set k | k in ks }

  function Without(global: seq<RecordKey>, gone: set<RecordKey>): seq<RecordKey> {
    if global == [] then []
    else (if global[0] in gone then [] else [global[0]]) + Without(global[1..], gone)
  }

  lemma {:induction false} WithoutConcat(a: seq<RecordKey>, b: seq<RecordKey>, gone: set<RecordKey>)
    ensures Without(a + b, gone) == Without(a, gone) + Without(b, gone)
  {
    if a == [] {
      assert a + b == b;
    } else {
      assert (a + b)[1..] == a[1..] + b;
      WithoutConcat(a[1..], b, gone);
    }
  }

  function DropRecords(c: Catalog, ks: seq<RecordKey>): Catalog { c.(records := c.records - KeySet(ks)) }

  function DropServer(c: Catalog, s: string): Catalog { c.(byServer := c.byServer - {s}) }

  function DropGlobal(c: Catalog, ks: seq<RecordKey>): Catalog { c.(global := Without(c.global, KeySet(ks))) }

  ghost predicate DeleteOutcome(c: Catalog, s: string, errs: seq<bool>, c': Catalog, ok: bool) {
    && |errs| == |SnapshotsOf(c, s)|
    && var keys := RecordKeys(s, ListByServer(c, s, errs));
       var c1 := DropServer(DropRecords(c, keys), s);
       if ok then c' == DropGlobal(c1, keys)
       else c' == c1 || exists n: nat | n <= |keys| :: c' == DropRecords(c, keys[..n])
  }

  // ---- The operations ----

  // `faults` counts the store calls that failed, `itemFaults` the items of bulk
  // reads that came back with an error.
  class DaprDB {
    var cat: Catalog
    ghost var faults: nat
    ghost var itemFaults: nat

    constructor ()
      ensures cat == EMPTY && faults == 0 && itemFaults == 0
    {
      cat, faults, itemFaults := EMPTY, 0, 0;
    }

    // Whether a store call succeeds.
    method Call() returns (ok: bool)
      modifies this`faults
      ensures faults == old(faults) + (if ok then 0 else 1)
    {
      ok := *;
      if !ok { faults := faults + 1; }
    }

    method SaveRecord(k: RecordKey, b: Backup) returns (ok: bool)
      modifies this`cat, this`faults
      ensures cat == if ok then old(cat).(records := old(cat).records[k := b]) else old(cat)
      ensures faults == old(faults) + (if ok then 0 else 1)
    {
      ok := Call();
      if ok { cat := cat.(records := cat.records[k := b]); }
    }

    method DeleteRecord(k: RecordKey) returns (ok: bool)
      modifies this`cat, this`faults
      ensures cat == if ok then old(cat).(records := old(cat).records - {k}) else old(cat)
      ensures faults == old(faults) + (if ok then 0 else 1)
    {
      ok := Call();
      if ok { cat := cat.(records := cat.records - {k}); }
    }

    method GetServerIndex(s: string) returns (ok: bool, snapshots: seq<string>)
      modifies this`faults
      ensures ok ==> snapshots == SnapshotsOf(cat, s)
      ensures faults == old(faults) + (if ok then 0 else 1)
    {
      ok := Call();
      snapshots := if ok then SnapshotsOf(cat, s) else [];
    }

    method SaveServerIndex(s: string, snapshots: seq<string>) returns (ok: bool)
      modifies this`cat, this`faults
      ensures cat == if ok then old(cat).(byServer := old(cat).byServer[s := snapshots]) else old(cat)
      ensures faults == old(faults) + (if ok then 0 else 1)
    {
      ok := Call();
      if ok { cat := cat.(byServer := cat.byServer[s := snapshots]); }
    }

    method DeleteServerIndex(s: string) returns (ok: bool)
      modifies this`cat, this`faults
      ensures cat == if ok then DropServer(old(cat), s) else old(cat)
      ensures faults == old(faults) + (if ok then 0 else 1)
    {
      ok := Call();
      if ok { cat := DropServer(cat, s); }
    }

    method GetGlobalIndex() returns (ok: bool, keys: seq<RecordKey>)
      modifies this`faults
      ensures ok ==> keys == cat.global
      ensures faults == old(faults) + (if ok then 0 else 1)
    {
      ok := Call();
      keys := if ok then cat.global else [];
    }

    method SaveGlobalIndex(keys: seq<RecordKey>) returns (ok: bool)
      modifies this`cat, this`faults
      ensures cat == if ok then old(cat).(global := keys) else old(cat)
      ensures faults == old(faults) + (if ok then 0 else 1)
    {
      ok := Call();
      if ok { cat := cat.(global := keys); }
    }

    method GetBulk(keys: seq<RecordKey>) returns (ok: bool, items: seq<(RecordKey, Backup)>, ghost errs: seq<bool>)
      modifies this`faults, this`itemFaults
      ensures |errs| == |keys|
      ensures ok ==> items == Fetch(cat.records, keys, errs)
      ensures faults == old(faults) + (if ok then 0 else 1)
      ensures itemFaults >= old(itemFaults) && (itemFaults == old(itemFaults) ==> errs == NoErrors(|keys|))
    {
      ok := Call();
      items, errs := [], [];
      var i := |keys|;
      while i > 0
        invariant 0 <= i <= |keys| && |errs| == |keys| - i
        invariant items == Fetch(cat.records, keys[i..], errs)
        invariant faults == old(faults) + (if ok then 0 else 1)
        invariant itemFaults >= old(itemFaults) && (itemFaults == old(itemFaults) ==> errs == NoErrors(|errs|))
      {
        i := i - 1;
        var failed: bool := *;
        if keys[i] in cat.records && !failed {
          items := [(keys[i], cat.records[keys[i]])] + items;
        }
        if failed { itemFaults := itemFaults + 1; }
        errs := [failed] + errs;
        assert keys[i..][1..] == keys[i + 1..];
      }
    }

    method UpsertBackup(b: Backup) returns (ok: bool)
      modifies this`cat, this`faults
      ensures UpsertOutcome(old(cat), b, cat, ok)
      ensures faults == old(faults) + (if ok then 0 else 1)
    {
      ok := SaveRecord(KeyOf(b), b);
      if !ok { return; }
      var snapshots, keys, found;
      ok, snapshots := GetServerIndex(b.server);
      if !ok { return; }
      found := Contains(snapshots, b.snapshot);
      if !found {
        ok := SaveServerIndex(b.server, snapshots + [b.snapshot]);
        if !ok { return; }
      }
      ok, keys := GetGlobalIndex();
      if !ok { return; }
      found := Contains(keys, KeyOf(b));
      if !found {
        ok := SaveGlobalIndex(keys + [KeyOf(b)]);
      }
    }

    method ListBackupsByServer(s: string) returns (ok: bool, bs: seq<Backup>, ghost errs: seq<bool>)
      modifies this`faults, this`itemFaults
      ensures |errs| == |SnapshotsOf(cat, s)|
      ensures ok ==> bs == ListByServer(cat, s, errs)
      ensures faults == old(faults) + (if ok then 0 else 1)
      ensures itemFaults >= old(itemFaults) && (itemFaults == old(itemFaults) ==> errs == NoErrors(|errs|))
    {
      bs, errs := [], NoErrors(|SnapshotsOf(cat, s)|);
      var snapshots, items;
      ok, snapshots := GetServerIndex(s);
      if !ok || snapshots == [] { return; }
      var keys := seq(|snapshots|, i requires 0 <= i < |snapshots| => RecordKey(s, snapshots[i]));
      assert keys == ServerKeys(cat, s);
      ok, items, errs := GetBulk(keys);
      bs := seq(|items|, i requires 0 <= i < |items| => ServerView(s, items[i].1));
    }

    method ListBackups() returns (ok: bool, bs: seq<Backup>, ghost errs: seq<bool>)
      modifies this`faults, this`itemFaults
      ensures |errs| == |cat.global|
      ensures ok ==> bs == ListAll(cat, errs)
      ensures faults == old(faults) + (if ok then 0 else 1)
      ensures itemFaults >= old(itemFaults) && (itemFaults == old(itemFaults) ==> errs == NoErrors(|errs|))
    {
      bs, errs := [], NoErrors(|cat.global|);
      var keys, items;
      ok, keys := GetGlobalIndex();
      if !ok || keys == [] { return; }
      ok, items, errs := GetBulk(keys);
      bs := seq(|items|, i requires 0 <= i < |items| => GlobalView(items[i].0, items[i].1));
    }

    method MarkServerBackupsDeleted(s: string, st: Stamp) returns (ok: bool, ghost errs: seq<bool>)
      modifies this
      ensures MarkOutcome(old(cat), s, st, errs, cat, ok)
      ensures faults == old(faults) + (if ok then 0 else 1)
      ensures itemFaults >= old(itemFaults) && (itemFaults == old(itemFaults) ==> errs == NoErrors(|errs|))
    {
      var bs;
      ok, bs, errs := ListBackupsByServer(s);
      ghost var listed := ListByServer(cat, s, errs);
      assert listed[..0] == [];
      if !ok { return; }
      for i := 0 to |bs|
        invariant ok && bs == listed && faults == old(faults)
        invariant itemFaults >= old(itemFaults) && (itemFaults == old(itemFaults) ==> errs == NoErrors(|errs|))
        invariant cat == old(cat).(records := StampAll(old(cat).records, s, listed[..i], st))
      {
        assert listed[..i + 1][..i] == listed[..i];
        var b := bs[i].(deletedAt := Some(st.deletedAt), retentionUntil := Some(st.until));
        if st.source.Some? { b := b.(source := st.source); }
        ok := SaveRecord(RecordKey(s, bs[i].snapshot), b);
        if !ok { return; }
      }
      assert listed[..|listed|] == listed;
    }

    method DeleteServerBackups(s: string) returns (ok: bool, ghost errs: seq<bool>)
      modifies this
      ensures DeleteOutcome(old(cat), s, errs, cat, ok)
      ensures faults == old(faults) + (if ok then 0 else 1)
      ensures itemFaults >= old(itemFaults) && (itemFaults == old(itemFaults) ==> errs == NoErrors(|errs|))
    {
      var bs;
      ok, bs, errs := ListBackupsByServer(s);
      if !ok {
        assert DropRecords(cat, RecordKeys(s, ListByServer(cat, s, errs))[..0]) == cat;
        return;
      }
      var keys := RecordKeys(s, bs);
      ghost var n;
      ok, n := DeleteRecords(keys);
      if !ok { return; }
      assert keys[..|keys|] == keys;
      ok := DeleteServerIndex(s);
      if !ok { return; }
      ok := ForgetKeys(keys);
    }

    // Deletes the records in order; n is how far it got.
    method DeleteRecords(keys: seq<RecordKey>) returns (ok: bool, ghost n: nat)
      modifies this`cat, this`faults
      ensures n <= |keys| && cat == DropRecords(old(cat), keys[..n]) && (ok ==> n == |keys|)
      ensures faults == old(faults) + (if ok then 0 else 1)
    {
      ok, n := true, 0;
      assert DropRecords(cat, keys[..0]) == cat;
      for i := 0 to |keys|
        invariant ok && n == i && faults == old(faults) && cat == DropRecords(old(cat), keys[..i])
      {
        assert KeySet(keys[..i + 1]) == KeySet(keys[..i]) + {keys[i]};
        ok := DeleteRecord(keys[i]);
        if !ok { return; }
        n := i + 1;
      }
    }

    // Rewrites the global index without the given keys.
    method ForgetKeys(keys: seq<RecordKey>) returns (ok: bool)
      modifies this`cat, this`faults
      ensures cat == if ok then DropGlobal(old(cat), keys) else old(cat)
      ensures faults == old(faults) + (if ok then 0 else 1)
    {
      var global;
      ok, global := GetGlobalIndex();
      if !ok { return; }
      var remaining := [];
      for i := 0 to |global|
        invariant ok && cat == old(cat) && faults == old(faults)
        invariant remaining == Without(global[..i], KeySet(keys))
      {
        assert global[..i + 1] == global[..i] + [global[i]];
        WithoutConcat(global[..i], [global[i]], KeySet(keys));
        if global[i] !in KeySet(keys) { remaining := remaining + [global[i]]; }
      }
      assert global[..|global|] == global;
      ok := SaveGlobalIndex(remaining);
    }
  }
}
