// What the catalog operations keep, over whole runs and across failures.
module BackupCatalogLaws {
  import opened Common
  import opened BackupCatalog

  datatype Op = Upsert(backup: Backup) | Mark(server: string, stamp: Stamp) | Delete(server: string)

  // One operation of a run: what was asked, whether it returned nil, and the
  // documents it left behind.
  datatype Event = Event(op: Op, ok: bool, after: Catalog)

  // Any store call and any item of a bulk read may fail.
  ghost predicate Step(c: Catalog, e: Event) {
    match e.op
    case Upsert(b) => UpsertOutcome(c, b, e.after, e.ok)
    case Mark(s, st) => exists errs: seq<bool> :: MarkOutcome(c, s, st, errs, e.after, e.ok)
    case Delete(s) => exists errs: seq<bool> :: DeleteOutcome(c, s, errs, e.after, e.ok)
  }

  // As Step, but no single item of a bulk read fails.
  ghost predicate CleanStep(c: Catalog, e: Event) {
    match e.op
    case Upsert(b) => UpsertOutcome(c, b, e.after, e.ok)
    case Mark(s, st) => MarkOutcome(c, s, st, NoErrors(|SnapshotsOf(c, s)|), e.after, e.ok)
    case Delete(s) => DeleteOutcome(c, s, NoErrors(|SnapshotsOf(c, s)|), e.after, e.ok)
  }

  ghost predicate Run(c: Catalog, es: seq<Event>)
    decreases |es|
  {
    es == [] || (Step(c, es[0]) && Run(es[0].after, es[1..]))
  }

  ghost predicate CleanRun(c: Catalog, es: seq<Event>)
    decreases |es|
  {
    es == [] || (CleanStep(c, es[0]) && CleanRun(es[0].after, es[1..]))
  }

  function Final(c: Catalog, es: seq<Event>): Catalog { if es == [] then c else es[|es| - 1].after }

  // ---- Reading ----

  ghost predicate Keyed(c: Catalog) { forall k | k in c.records :: KeyOf(c.records[k]) == k }

  // Every backup listed for a server is one of its records.
  lemma ListedIsRecord(c: Catalog, s: string, errs: seq<bool>, i: nat)
    requires Keyed(c) && |errs| == |SnapshotsOf(c, s)| && i < |ListByServer(c, s, errs)|
    ensures var b := ListByServer(c, s, errs)[i];
            b.snapshot in SnapshotsOf(c, s) && RecordKey(s, b.snapshot) in c.records
            && b == ServerView(s, c.records[RecordKey(s, b.snapshot)])
            && b == c.records[RecordKey(s, b.snapshot)].(id := s + ":" + b.snapshot)
  {
    FetchIsSound(c.records, ServerKeys(c, s), errs);
    var (k, b) := Fetch(c.records, ServerKeys(c, s), errs)[i];
    var q :| 0 <= q < |SnapshotsOf(c, s)| && ServerKeys(c, s)[q] == k;
  }

  // Read without item errors, the list covers every record the index names.
  lemma RecordIsListed(c: Catalog, s: string, snapshot: string)
    requires Keyed(c) && snapshot in SnapshotsOf(c, s) && RecordKey(s, snapshot) in c.records
    ensures RecordKey(s, snapshot) in RecordKeys(s, BackupsOf(c, s))
  {
    var k := RecordKey(s, snapshot);
    var errs := NoErrors(|SnapshotsOf(c, s)|);
    FetchIsSound(c.records, ServerKeys(c, s), errs);
    var q :| 0 <= q < |SnapshotsOf(c, s)| && SnapshotsOf(c, s)[q] == snapshot;
    assert ServerKeys(c, s)[q] == k;
    var items := Fetch(c.records, ServerKeys(c, s), errs);
    var i :| 0 <= i < |items| && items[i] == (k, c.records[k]);
    assert RecordKeys(s, BackupsOf(c, s))[i] == k;
  }

  // ---- Stamping ----

  // Stamping touches exactly the listed keys.
  lemma {:induction false} StampAllEffect(records: map<RecordKey, Backup>, s: string, bs: seq<Backup>, st: Stamp)
    requires forall i | 0 <= i < |bs| :: var k := RecordKey(s, bs[i].snapshot);
               k in records && bs[i] == ServerView(s, records[k])
    ensures var r := StampAll(records, s, bs, st);
            r.Keys == records.Keys
            && forall k | k in records :: r[k] ==
                 if k in RecordKeys(s, bs) then Stamped(ServerView(s, records[k]), st) else records[k]
  {
    if bs == [] {
    } else {
      var n := |bs| - 1;
      StampAllEffect(records, s, bs[..n], st);
      assert RecordKeys(s, bs) == RecordKeys(s, bs[..n]) + [RecordKey(s, bs[n].snapshot)];
    }
  }

  // The record b' is b with this stamp and the id it is listed under.
  ghost predicate StampedWith(b: Backup, b': Backup, st: Stamp) {
    && b'.deletedAt == Some(st.deletedAt) && b'.retentionUntil == Some(st.until)
    && (st.source.Some? ==> b'.source == st.source) && (st.source.None? ==> b'.source == b.source)
    && b'.id == b.server + ":" + b.snapshot && b'.server == b.server && b'.snapshot == b.snapshot
    && b'.prefix == b.prefix && b'.status == b.status && b'.details == b.details
  }

  // However far it gets, marking keeps keys and indexes and stamps only records
  // of that server, with the stamp asked for.
  lemma MarkEffect(c: Catalog, s: string, st: Stamp, errs: seq<bool>, c': Catalog, ok: bool)
    requires Keyed(c) && MarkOutcome(c, s, st, errs, c', ok)
    ensures Keyed(c') && c'.byServer == c.byServer && c'.global == c.global && c'.records.Keys == c.records.Keys
    ensures forall k | k in c.records :: c'.records[k] == c.records[k]
              || (k.server == s && c'.records[k] == Stamped(ServerView(s, c.records[k]), st))
    ensures ok ==> forall k | k in c.records && k in RecordKeys(s, ListByServer(c, s, errs)) ::
              c'.records[k] == Stamped(ServerView(s, c.records[k]), st)
    ensures forall k | k in c.records && k.server == s ::
              c'.records[k] == Stamped(ServerView(s, c.records[k]), st) ==> StampedWith(c.records[k], c'.records[k], st)
  {
    var listed := ListByServer(c, s, errs);
    var n: nat :| n <= |listed| && c' == c.(records := StampAll(c.records, s, listed[..n], st))
      && (ok ==> n == |listed|);
    forall i | 0 <= i < n ensures var k := RecordKey(s, listed[..n][i].snapshot);
      k in c.records && listed[..n][i] == ServerView(s, c.records[k])
    {
      ListedIsRecord(c, s, errs, i);
    }
    StampAllEffect(c.records, s, listed[..n], st);
    if ok { assert listed[..n] == listed; }
  }

  // ---- Faults: what every run of reports and stampings keeps ----

  // Global index within the per-server indexes within the records, no duplicates.
  ghost predicate Nested(c: Catalog) {
    && Keyed(c)
    && NoDup(c.global)
    && (forall s | s in c.byServer :: NoDup(c.byServer[s]))
    && (forall i | 0 <= i < |c.global| :: c.global[i].snapshot in SnapshotsOf(c, c.global[i].server))
    && (forall s, n | n in SnapshotsOf(c, s) :: RecordKey(s, n) in c.records)
  }

  ghost predicate Present(c: Catalog, k: RecordKey) {
    k in c.records && k.snapshot in SnapshotsOf(c, k.server) && k in c.global
  }

  lemma {:induction false} RecordKeepsNested(c: Catalog, b: Backup)
    requires Nested(c)
    ensures Nested(WithRecord(c, b)) && KeyOf(b) in WithRecord(c, b).records
  {}

  lemma {:induction false} SnapshotKeepsNested(c: Catalog, b: Backup)
    requires Nested(c) && KeyOf(b) in c.records
    ensures Nested(WithSnapshot(c, b)) && b.snapshot in SnapshotsOf(WithSnapshot(c, b), b.server)
  {}

  lemma {:induction false} GlobalKeepsNested(c: Catalog, b: Backup)
    requires Nested(c) && b.snapshot in SnapshotsOf(c, b.server)
    ensures Nested(WithGlobal(c, b))
  {}

  lemma {:induction false} UpsertKeepsNested(c: Catalog, b: Backup, c': Catalog, ok: bool)
    requires Nested(c) && UpsertOutcome(c, b, c', ok)
    ensures Nested(c')
  {
    var c1 := WithRecord(c, b);
    RecordKeepsNested(c, b);
    SnapshotKeepsNested(c1, b);
    GlobalKeepsNested(WithSnapshot(c1, b), b);
  }

  // From any state whatever, a report that returns nil is in all three places.
  lemma {:induction false} AcknowledgedIsPresent(c: Catalog, b: Backup, c': Catalog)
    requires UpsertOutcome(c, b, c', true)
    ensures Present(c', KeyOf(b)) && c'.records[KeyOf(b)] == b
  {}

  lemma {:induction false} FaultyRunNested(c: Catalog, es: seq<Event>)
    requires Nested(c) && Run(c, es) && forall i | 0 <= i < |es| :: !es[i].op.Delete?
    ensures forall i | 0 <= i < |es| :: Nested(es[i].after)
    decreases |es|
  {
    if es == [] {
    } else {
      var e := es[0];
      match e.op {
        case Upsert(b) => UpsertKeepsNested(c, b, e.after, e.ok);
        case Mark(s, st) =>
          var errs: seq<bool> :| MarkOutcome(c, s, st, errs, e.after, e.ok);
          MarkEffect(c, s, st, errs, e.after, e.ok);
          assert forall t :: SnapshotsOf(e.after, t) == SnapshotsOf(c, t);
      }
      FaultyRunNested(e.after, es[1..]);
      assert forall i | 0 < i < |es| :: es[i] == es[1..][i - 1];
    }
  }

  // ---- Without faults: the three documents denote one plain map ----

  function Project(global: seq<RecordKey>, s: string): seq<string> {
    if global == [] then []
    else (if global[0].server == s then [global[0].snapshot] else []) + Project(global[1..], s)
  }

  // What the first key contributes.
  function Head(k: RecordKey, s: string): seq<string> { if k.server == s then [k.snapshot] else [] }

  lemma ProjectPrepend(k: RecordKey, rest: seq<RecordKey>, s: string)
    ensures Project([k] + rest, s) == Head(k, s) + Project(rest, s)
  {
    assert ([k] + rest)[0] == k && ([k] + rest)[1..] == rest;
  }

  lemma Reassociate(x: seq<string>, y: seq<string>, z: seq<string>)
    ensures x + (y + z) == x + y + z
  {}

  lemma {:induction false} ProjectConcat(a: seq<RecordKey>, b: seq<RecordKey>, s: string)
    ensures Project(a + b, s) == Project(a, s) + Project(b, s)
  {
    if a == [] {
      assert a + b == b;
    } else {
      ProjectConcat(a[1..], b, s);
      ProjectPrepend(a[0], a[1..], s);
      ProjectPrepend(a[0], a[1..] + b, s);
      assert [a[0]] + a[1..] == a && [a[0]] + (a[1..] + b) == a + b;
      Reassociate(Head(a[0], s), Project(a[1..], s), Project(b, s));
    }
  }

  lemma {:induction false} ProjectMembers(global: seq<RecordKey>, s: string)
    ensures forall n :: n in Project(global, s) <==> RecordKey(s, n) in global
  {
    if global == [] {
    } else {
      ProjectMembers(global[1..], s);
      assert forall n :: RecordKey(s, n) in global <==> RecordKey(s, n) == global[0] || RecordKey(s, n) in global[1..];
    }
  }

  // The global index lists each record once, and every per-server index is its
  // restriction to that server, in the same order.
  ghost predicate Aligned(c: Catalog) {
    && Keyed(c)
    && NoDup(c.global)
    && KeySet(c.global) == c.records.Keys
    && forall s :: SnapshotsOf(c, s) == Project(c.global, s)
  }

  // The operations on a plain map.
  function Plain(m: map<RecordKey, Backup>, op: Op): map<RecordKey, Backup> {
    match op
    case Upsert(b) => m[KeyOf(b) := b]
    case Mark(s, st) => map k | k in m :: if k.server == s then Stamped(ServerView(s, m[k]), st) else m[k]
    case Delete(s) => map k | k in m && k.server != s :: m[k]
  }

  function PlainRun(m: map<RecordKey, Backup>, es: seq<Event>): map<RecordKey, Backup>
    decreases |es|
  {
    if es == [] then m else PlainRun(Plain(m, es[0].op), es[1..])
  }

  lemma {:induction false} AddOnceKeys(global: seq<RecordKey>, k: RecordKey)
    requires NoDup(global)
    ensures NoDup(AddOnce(global, k)) && KeySet(AddOnce(global, k)) == KeySet(global) + {k}
  {}

  lemma {:induction false} ProjectAddOnce(global: seq<RecordKey>, k: RecordKey, s: string)
    ensures Project(AddOnce(global, k), s) == if k.server == s
            then AddOnce(Project(global, s), k.snapshot) else Project(global, s)
  {
    ProjectMembers(global, k.server);
    ProjectConcat(global, [k], s);
    ProjectOne(k, s);
  }

  lemma {:induction false} UpsertAligned(c: Catalog, b: Backup, c': Catalog)
    requires Aligned(c) && UpsertOutcome(c, b, c', true)
    ensures Aligned(c') && c'.records == Plain(c.records, Upsert(b))
  {
    assert c'.global == AddOnce(c.global, KeyOf(b));
    AddOnceKeys(c.global, KeyOf(b));
    forall s ensures SnapshotsOf(c', s) == Project(c'.global, s) {
      ProjectAddOnce(c.global, KeyOf(b), s);
      SnapshotAdded(c, b, s);
      assert SnapshotsOf(c', s) == SnapshotsOf(WithSnapshot(c, b), s);
    }
  }

  lemma SnapshotAdded(c: Catalog, b: Backup, s: string)
    ensures SnapshotsOf(WithSnapshot(c, b), s) == if b.server == s
            then AddOnce(SnapshotsOf(c, s), b.snapshot) else SnapshotsOf(c, s)
  {}

  lemma ProjectOne(k: RecordKey, s: string)
    ensures Project([k], s) == if k.server == s then [k.snapshot] else []
  {
    assert [k][1..] == [];
  }

  // In an aligned catalog the keys listed for a server are all its record keys.
  lemma AlignedListing(c: Catalog, s: string)
    requires Aligned(c)
    ensures RecordKeys(s, BackupsOf(c, s)) == ServerKeys(c, s)
    ensures forall k: RecordKey | k.server == s :: k in c.records <==> k in ServerKeys(c, s)
  {
    ProjectMembers(c.global, s);
    forall i | 0 <= i < |ServerKeys(c, s)| ensures ServerKeys(c, s)[i] in c.records {
      assert SnapshotsOf(c, s)[i] in Project(c.global, s);
    }
    FetchTotal(c.records, ServerKeys(c, s));
    forall k: RecordKey | k.server == s && k in c.records ensures k in ServerKeys(c, s) {
      assert k in KeySet(c.global) && k.snapshot in SnapshotsOf(c, s);
      var i :| 0 <= i < |SnapshotsOf(c, s)| && SnapshotsOf(c, s)[i] == k.snapshot;
      assert ServerKeys(c, s)[i] == k;
    }
  }

  lemma MarkAligned(c: Catalog, s: string, st: Stamp, c': Catalog)
    requires Aligned(c) && MarkOutcome(c, s, st, NoErrors(|SnapshotsOf(c, s)|), c', true)
    ensures Aligned(c') && c'.records == Plain(c.records, Mark(s, st))
  {
    MarkEffect(c, s, st, NoErrors(|SnapshotsOf(c, s)|), c', true);
    AlignedListing(c, s);
    assert forall t :: SnapshotsOf(c', t) == SnapshotsOf(c, t);
  }

  lemma {:induction false} WithoutEffect(global: seq<RecordKey>, gone: set<RecordKey>)
    ensures KeySet(Without(global, gone)) == KeySet(global) - gone
    ensures NoDup(global) ==> NoDup(Without(global, gone))
    ensures forall s | (forall k | k in gone :: k.server != s) ::
              Project(Without(global, gone), s) == Project(global, s)
  {
    WithoutKeys(global, gone);
    if NoDup(global) { WithoutNoDup(global, gone); }
    forall s | (forall k | k in gone :: k.server != s) ensures Project(Without(global, gone), s) == Project(global, s) {
      WithoutProject(global, gone, s);
    }
  }

  lemma {:induction false} WithoutHead(global: seq<RecordKey>, gone: set<RecordKey>)
    requires global != []
    ensures var rest := Without(global[1..], gone);
            Without(global, gone) == if global[0] in gone then rest else [global[0]] + rest
  {}

  lemma {:induction false} WithoutKeys(global: seq<RecordKey>, gone: set<RecordKey>)
    ensures KeySet(Without(global, gone)) == KeySet(global) - gone
  {
    if global == [] {
    } else {
      var rest := Without(global[1..], gone);
      WithoutHead(global, gone);
      WithoutKeys(global[1..], gone);
      assert KeySet(global) == KeySet(global[1..]) + {global[0]};
      if global[0] !in gone { assert KeySet([global[0]] + rest) == KeySet(rest) + {global[0]}; }
    }
  }

  lemma NoDupPrepend(k: RecordKey, rest: seq<RecordKey>)
    requires NoDup(rest) && k !in rest
    ensures NoDup([k] + rest)
  {
    var all := [k] + rest;
    assert forall i | 0 < i < |all| :: all[i] == rest[i - 1] && rest[i - 1] in rest;
  }

  lemma {:induction false} WithoutNoDup(global: seq<RecordKey>, gone: set<RecordKey>)
    requires NoDup(global)
    ensures NoDup(Without(global, gone))
  {
    if global == [] {
    } else {
      WithoutHead(global, gone);
      WithoutNoDup(global[1..], gone);
      WithoutKeys(global[1..], gone);
      var rest := Without(global[1..], gone);
      forall k | k in rest ensures k != global[0] {
        assert k in KeySet(rest) && k in KeySet(global[1..]);
        var i :| 0 <= i < |global[1..]| && global[1..][i] == k;
        assert global[i + 1] == k;
      }
      NoDupPrepend(global[0], rest);
    }
  }

  lemma {:induction false} WithoutProject(global: seq<RecordKey>, gone: set<RecordKey>, s: string)
    requires forall k | k in gone :: k.server != s
    ensures Project(Without(global, gone), s) == Project(global, s)
  {
    if global == [] {
    } else {
      WithoutHead(global, gone);
      WithoutProject(global[1..], gone, s);
      if global[0] !in gone { assert ([global[0]] + Without(global[1..], gone))[1..] == Without(global[1..], gone); }
    }
  }

  lemma {:induction false} DeleteAligned(c: Catalog, s: string, c': Catalog)
    requires Aligned(c) && DeleteOutcome(c, s, NoErrors(|SnapshotsOf(c, s)|), c', true)
    ensures Aligned(c') && c'.records == Plain(c.records, Delete(s))
  {
    var gone := KeySet(ServerKeys(c, s));
    DeletedFromAligned(c, s, c');
    WithoutEffect(c.global, gone);
    forall t ensures SnapshotsOf(c', t) == Project(c'.global, t) {
      if t == s {
        assert forall k | k in KeySet(c'.global) :: k.server != s;
        ProjectNothing(c'.global, s);
      } else {
        DroppedOther(c, s, t);
      }
    }
  }

  lemma DroppedOther(c: Catalog, s: string, t: string)
    requires t != s
    ensures SnapshotsOf(DropServer(c, s), t) == SnapshotsOf(c, t)
  {}

  lemma {:induction false} DeletedFromAligned(c: Catalog, s: string, c': Catalog)
    requires Aligned(c) && DeleteOutcome(c, s, NoErrors(|SnapshotsOf(c, s)|), c', true)
    ensures var gone := KeySet(ServerKeys(c, s));
            && c' == Catalog(c.records - gone, c.byServer - {s}, Without(c.global, gone))
            && forall k | k in c.records :: k in gone <==> k.server == s
    ensures forall k | k in KeySet(ServerKeys(c, s)) :: k.server == s
  {
    AlignedListing(c, s);
  }

  lemma {:induction false} ProjectNothing(global: seq<RecordKey>, s: string)
    requires forall k | k in KeySet(global) :: k.server != s
    ensures Project(global, s) == []
  {
    ProjectMembers(global, s);
    forall n ensures n !in Project(global, s) {
      assert RecordKey(s, n) !in KeySet(global);
    }
    HasMember(Project(global, s));
  }

  lemma {:induction false} SuccessfulStepIsPlain(c: Catalog, e: Event)
    requires Aligned(c) && CleanStep(c, e) && e.ok
    ensures Aligned(e.after) && e.after.records == Plain(c.records, e.op)
  {
    match e.op
    case Upsert(b) => UpsertAligned(c, b, e.after);
    case Mark(s, st) => MarkAligned(c, s, st, e.after);
    case Delete(s) => DeleteAligned(c, s, e.after);
  }

  // Any run of successful operations refines the plain map.
  lemma {:induction false} SuccessfulRunIsPlain(c: Catalog, es: seq<Event>)
    requires Aligned(c) && CleanRun(c, es) && forall i | 0 <= i < |es| :: es[i].ok
    ensures Aligned(Final(c, es)) && Final(c, es).records == PlainRun(c.records, es)
    decreases |es|
  {
    if es == [] {
    } else {
      SuccessfulStepIsPlain(c, es[0]);
      SuccessfulRunIsPlain(es[0].after, es[1..]);
      assert Final(c, es) == Final(es[0].after, es[1..]);
    }
  }

  // ---- The two lists of an aligned catalog ----

  function Select(bs: seq<Backup>, s: string): seq<Backup> {
    if bs == [] then [] else (if bs[0].server == s then [bs[0]] else []) + Select(bs[1..], s)
  }

  function PlainViews(c: Catalog, keys: seq<RecordKey>): seq<Backup>
    requires forall i | 0 <= i < |keys| :: keys[i] in c.records
  {
    seq(|keys|, i requires 0 <= i < |keys| => GlobalView(keys[i], c.records[keys[i]]))
  }

  // ListBackups returns every record exactly once, in index order.
  lemma ListsEveryRecordOnce(c: Catalog)
    requires Aligned(c)
    ensures forall i | 0 <= i < |c.global| :: c.global[i] in c.records
    ensures Backups(c) == PlainViews(c, c.global)
    ensures NoDup(c.global) && KeySet(c.global) == c.records.Keys
  {
    assert forall i | 0 <= i < |c.global| :: c.global[i] in KeySet(c.global);
    FetchTotal(c.records, c.global);
  }

  lemma {:induction false} SelectViews(c: Catalog, keys: seq<RecordKey>, s: string)
    requires Keyed(c) && forall i | 0 <= i < |keys| :: keys[i] in c.records
    ensures |Select(PlainViews(c, keys), s)| == |Project(keys, s)|
    ensures forall i | 0 <= i < |Project(keys, s)| :: var k := RecordKey(s, Project(keys, s)[i]);
              k in c.records && Select(PlainViews(c, keys), s)[i] == GlobalView(k, c.records[k])
  {
    if keys == [] {
    } else {
      var views, rest := PlainViews(c, keys), PlainViews(c, keys[1..]);
      assert views[1..] == rest && views[0] == GlobalView(keys[0], c.records[keys[0]]);
      SelectViews(c, keys[1..], s);
      assert views[0].server == keys[0].server by { assert KeyOf(c.records[keys[0]]) == keys[0]; }
      ProjectPrepend(keys[0], keys[1..], s);
      assert keys == [keys[0]] + keys[1..];
      SelectHead(views, s);
    }
  }

  lemma SelectHead(bs: seq<Backup>, s: string)
    requires bs != []
    ensures Select(bs, s) == if bs[0].server == s then [bs[0]] + Select(bs[1..], s) else Select(bs[1..], s)
  {}

  ghost predicate CanonicalIds(c: Catalog, s: string) {
    forall k | k in c.records && k.server == s :: c.records[k].id in {"", RecordId(k.server, k.snapshot)}
  }

  // The per-server list is the global list restricted to that server, in the same
  // order; the two carry the same ids exactly when the stored ids are canonical.
  lemma ListsAgree(c: Catalog, s: string)
    requires Aligned(c)
    ensures var own, all := BackupsOf(c, s), Select(Backups(c), s);
            && |own| == |all|
            && (forall i | 0 <= i < |own| :: own[i] == ServerView(s, all[i]))
            && (own == all <==> CanonicalIds(c, s))
  {
    ListsEveryRecordOnce(c);
    SelectViews(c, c.global, s);
    AlignedListing(c, s);
    FetchTotal(c.records, ServerKeys(c, s));
    var own, all := BackupsOf(c, s), Select(Backups(c), s);
    forall i | 0 <= i < |own|
      ensures own[i] == ServerView(s, all[i])
      ensures var k := ServerKeys(c, s)[i];
              own[i] == all[i] <==> c.records[k].id in {"", RecordId(k.server, k.snapshot)}
    {
      assert KeyOf(c.records[ServerKeys(c, s)[i]]) == ServerKeys(c, s)[i];
    }
    if own == all {
      forall k | k in c.records && k.server == s ensures c.records[k].id in {"", RecordId(k.server, k.snapshot)} {
        var i :| 0 <= i < |ServerKeys(c, s)| && ServerKeys(c, s)[i] == k;
      }
    }
  }

  // ---- Deleting a server's backups, interrupted and retried ----

  // Every record of the server can be found through its index.
  ghost predicate Covered(c: Catalog, s: string) {
    forall k | k in c.records && k.server == s :: k.snapshot in SnapshotsOf(c, s)
  }

  ghost predicate NoRecordOf(c: Catalog, s: string) { forall k | k in c.records :: k.server != s }

  // The record is stored, and the server's index names it at a position whose
  // item did not fail.
  ghost predicate Reached(c: Catalog, s: string, errs: seq<bool>, k: RecordKey)
    requires |errs| == |SnapshotsOf(c, s)|
  {
    k in c.records && Unfailed(SnapshotsOf(c, s), errs, k.snapshot)
  }

  lemma {:induction false} ReachedByKey(c: Catalog, s: string, errs: seq<bool>, k: RecordKey)
    requires |errs| == |SnapshotsOf(c, s)|
    ensures Unfailed(ServerKeys(c, s), errs, k) <==> k.server == s && Unfailed(SnapshotsOf(c, s), errs, k.snapshot)
  {
    if k.server == s && Unfailed(SnapshotsOf(c, s), errs, k.snapshot) {
      var i :| 0 <= i < |errs| && SnapshotsOf(c, s)[i] == k.snapshot && !errs[i];
      assert ServerKeys(c, s)[i] == k;
    }
  }

  // A deletion finds exactly the records it can reach.
  lemma {:induction false} ListedIffReached(c: Catalog, s: string, errs: seq<bool>, k: RecordKey)
    requires Keyed(c) && |errs| == |SnapshotsOf(c, s)|
    ensures k in RecordKeys(s, ListByServer(c, s, errs)) <==> k.server == s && Reached(c, s, errs, k)
  {
    var items := Fetch(c.records, ServerKeys(c, s), errs);
    var keys := RecordKeys(s, ListByServer(c, s, errs));
    FetchIsSound(c.records, ServerKeys(c, s), errs);
    ReachedByKey(c, s, errs, k);
    forall i | 0 <= i < |items| ensures keys[i] == items[i].0 {
      var (q, b) := items[i];
      assert KeyOf(c.records[q]) == q;
      var j :| 0 <= j < |errs| && ServerKeys(c, s)[j] == q;
    }
    if k.server == s && Reached(c, s, errs, k) {
      var i :| 0 <= i < |errs| && ServerKeys(c, s)[i] == k && !errs[i];
      var j :| 0 <= j < |items| && items[j] == (k, c.records[k]);
    }
  }

  lemma ListedKeys(c: Catalog, s: string, errs: seq<bool>)
    requires Keyed(c) && |errs| == |SnapshotsOf(c, s)|
    ensures forall i | 0 <= i < |RecordKeys(s, ListByServer(c, s, errs))| ::
              var k := RecordKeys(s, ListByServer(c, s, errs))[i];
              k.server == s && k in c.records && k.snapshot in SnapshotsOf(c, s)
  {
    forall i | 0 <= i < |ListByServer(c, s, errs)|
      ensures ListByServer(c, s, errs)[i].snapshot in SnapshotsOf(c, s)
      ensures RecordKey(s, ListByServer(c, s, errs)[i].snapshot) in c.records
    {
      ListedIsRecord(c, s, errs, i);
    }
  }

  // However far it gets and whatever items fail, deletion only removes, and only
  // from the server it was asked for.
  lemma DeleteTouchesOneServer(c: Catalog, s: string, errs: seq<bool>, c': Catalog, ok: bool)
    requires Keyed(c) && DeleteOutcome(c, s, errs, c', ok)
    ensures Keyed(c') && c'.records.Keys <= c.records.Keys
    ensures forall k | k in c'.records :: c'.records[k] == c.records[k]
    ensures forall k | k in c.records && k.server != s :: k in c'.records
    ensures forall t | t != s ::
            SnapshotsOf(c', t) == SnapshotsOf(c, t)
            && Project(c'.global, t) == Project(c.global, t)
    ensures forall k | k in c'.records :: k in c.global ==> k in c'.global
  {
    ListedKeys(c, s, errs);
    var keys := RecordKeys(s, ListByServer(c, s, errs));
    assert forall k | k in KeySet(keys) :: k.server == s;
    WithoutEffect(c.global, KeySet(keys));
    if ok {
      assert forall k | k in c'.records && k in KeySet(c.global) :: k in KeySet(c'.global);
    }
  }

  // What the global list shows of one server, key by key.
  function Shown(c: Catalog, global: seq<RecordKey>, s: string): seq<Backup> {
    if global == [] then []
    else
      (if global[0].server == s && global[0] in c.records then [GlobalView(global[0], c.records[global[0]])] else [])
      + Shown(c, global[1..], s)
  }

  lemma {:induction false} SelectIsShown(c: Catalog, global: seq<RecordKey>, s: string)
    requires Keyed(c)
    ensures var items := Fetch(c.records, global, NoErrors(|global|));
            Select(seq(|items|, i requires 0 <= i < |items| => GlobalView(items[i].0, items[i].1)), s)
              == Shown(c, global, s)
  {
    if global == [] {
    } else {
      assert NoErrors(|global|)[1..] == NoErrors(|global[1..]|);
      var items, rest := Fetch(c.records, global, NoErrors(|global|)), Fetch(c.records, global[1..],
        NoErrors(|global[1..]|));
      SelectIsShown(c, global[1..], s);
      var views := seq(|items|, i requires 0 <= i < |items| => GlobalView(items[i].0, items[i].1));
      var restViews := seq(|rest|, i requires 0 <= i < |rest| => GlobalView(rest[i].0, rest[i].1));
      if global[0] in c.records {
        assert items == [(global[0], c.records[global[0]])] + rest && items[1..] == rest;
        assert views[0] == GlobalView(global[0], c.records[global[0]]) && views[1..] == restViews;
      } else {
        assert items == rest && views == restViews;
      }
    }
  }

  lemma {:induction false} ShownFromProject(c: Catalog, global: seq<RecordKey>, c': Catalog, global': seq<RecordKey>,
                                            s: string)
    requires Project(global, s) == Project(global', s)
    requires forall k: RecordKey | k.server == s ::
             (k in c.records <==> k in c'.records)
             && (k in c.records ==> c.records[k] == c'.records[k])
    ensures Shown(c, global, s) == Shown(c', global', s)
    decreases |global| + |global'|
  {
    if global != [] && global[0].server != s {
      ShownFromProject(c, global[1..], c', global', s);
    } else if global' != [] && global'[0].server != s {
      ShownFromProject(c, global, c', global'[1..], s);
    } else if global != [] {
      assert Project(global, s)[0] == Project(global', s)[0] && Project(global, s)[1..] == Project(global', s)[1..];
      ShownFromProject(c, global[1..], c', global'[1..], s);
    }
  }

  // At no point of a deletion does either list change for another server.
  lemma OtherServersUnchanged(c: Catalog, s: string, errs: seq<bool>, c': Catalog, ok: bool, t: string)
    requires Keyed(c) && DeleteOutcome(c, s, errs, c', ok) && t != s
    ensures BackupsOf(c', t) == BackupsOf(c, t)
    ensures Select(Backups(c'), t) == Select(Backups(c), t)
  {
    DeleteTouchesOneServer(c, s, errs, c', ok);
    assert ServerKeys(c', t) == ServerKeys(c, t);
    FetchDependsOnKeys(c.records, c'.records, ServerKeys(c, t), NoErrors(|SnapshotsOf(c, t)|));
    SelectIsShown(c, c.global, t);
    SelectIsShown(c', c'.global, t);
    ShownFromProject(c, c.global, c', c'.global, t);
  }

  // A deletion that read its list cleanly keeps the remaining records findable.
  lemma DeleteKeepsCovered(c: Catalog, s: string, c': Catalog, ok: bool)
    requires Keyed(c) && Covered(c, s) && DeleteOutcome(c, s, NoErrors(|SnapshotsOf(c, s)|), c', ok)
    ensures Covered(c', s)
  {
    DeleteTouchesOneServer(c, s, NoErrors(|SnapshotsOf(c, s)|), c', ok);
    forall k | k in c'.records && k.server == s ensures k.snapshot in SnapshotsOf(c', s) {
      RecordIsListed(c, s, k.snapshot);
      assert k == RecordKey(s, k.snapshot);
    }
  }

  // A deletion that returns nil leaves no record of the server exactly when it
  // reached them all, and no key in the global index exactly when it reached the
  // record of every one of them.
  lemma {:induction false} DeleteEmptiesIffReached(c: Catalog, s: string, errs: seq<bool>, c': Catalog)
    requires Keyed(c) && DeleteOutcome(c, s, errs, c', true)
    ensures NoRecordOf(c', s) <==> forall k | k in c.records && k.server == s :: Reached(c, s, errs, k)
    ensures NoKeyOf(c', s) <==> forall k | k in c.global && k.server == s :: Reached(c, s, errs, k)
  {
    var keys := RecordKeys(s, ListByServer(c, s, errs));
    forall k ensures k in KeySet(keys) <==> k.server == s && Reached(c, s, errs, k) {
      ListedIffReached(c, s, errs, k);
    }
    WithoutEffect(c.global, KeySet(keys));
    forall k ensures k in c'.records <==> k in c.records && k !in KeySet(keys) {}
    forall k ensures k in c'.global <==> k in c.global && k !in KeySet(keys) {
      assert k in c'.global <==> k in KeySet(c'.global);
    }
    AllLeft(c.records.Keys, c'.records.Keys, KeySet(keys), s);
    AllLeft(KeySet(c.global), KeySet(c'.global), KeySet(keys), s);
  }

  // What is left of a set when the given keys of one server are taken out.
  lemma {:induction false} AllLeft(before: set<RecordKey>, after: set<RecordKey>, gone: set<RecordKey>, s: string)
    requires after == before - gone
    ensures (forall k | k in after :: k.server != s) <==> forall k | k in before && k.server == s :: k in gone
  {}

  // The global index holds no key of the server.
  ghost predicate NoKeyOf(c: Catalog, s: string) { forall k | k in c.global :: k.server != s }

  lemma {:induction false} CleanReached(c: Catalog, s: string)
    ensures forall k :: Reached(c, s, NoErrors(|SnapshotsOf(c, s)|), k) <==>
              k in c.records && k.snapshot in SnapshotsOf(c, s)
  {
    forall k | k in c.records && k.snapshot in SnapshotsOf(c, s)
      ensures Reached(c, s, NoErrors(|SnapshotsOf(c, s)|), k)
    {
      var i :| 0 <= i < |SnapshotsOf(c, s)| && SnapshotsOf(c, s)[i] == k.snapshot;
      assert !NoErrors(|SnapshotsOf(c, s)|)[i];
    }
  }

  // Read without item errors: no record is left exactly when the server's index
  // covered them all ...
  lemma {:induction false} CleanDeleteEmptiesIffCovered(c: Catalog, s: string, c': Catalog)
    requires Keyed(c) && DeleteOutcome(c, s, NoErrors(|SnapshotsOf(c, s)|), c', true)
    ensures NoRecordOf(c', s) <==> Covered(c, s)
  {
    DeleteEmptiesIffReached(c, s, NoErrors(|SnapshotsOf(c, s)|), c');
    CleanReached(c, s);
  }

  // ... and no key is left in the global index exactly when every key of the
  // server there still had its record and its place in the server's index.
  lemma {:induction false} CleanDeleteForgetsIff(c: Catalog, s: string, c': Catalog)
    requires Keyed(c) && DeleteOutcome(c, s, NoErrors(|SnapshotsOf(c, s)|), c', true)
    ensures NoKeyOf(c', s) <==>
              forall k | k in c.global && k.server == s :: k in c.records && k.snapshot in SnapshotsOf(c, s)
  {
    DeleteEmptiesIffReached(c, s, NoErrors(|SnapshotsOf(c, s)|), c');
    CleanReached(c, s);
  }

  // A key without a record that the global index holds.
  ghost predicate Dangling(c: Catalog, k: RecordKey) { k in c.global && k !in c.records }

  // It stays, whatever runs and fails, until its snapshot is reported again.
  lemma {:induction false} DanglingStays(c: Catalog, es: seq<Event>, k: RecordKey)
    requires Keyed(c) && Dangling(c, k) && Run(c, es)
    requires forall i | 0 <= i < |es| :: es[i].op.Upsert? ==> KeyOf(es[i].op.backup) != k
    ensures Dangling(Final(c, es), k)
    decreases |es|
  {
    if es == [] {
    } else {
      DanglingKept(c, es[0], k);
      DanglingStays(es[0].after, es[1..], k);
      assert Final(c, es) == Final(es[0].after, es[1..]);
    }
  }

  lemma {:induction false} DanglingKept(c: Catalog, e: Event, k: RecordKey)
    requires Keyed(c) && Dangling(c, k) && Step(c, e) && (e.op.Upsert? ==> KeyOf(e.op.backup) != k)
    ensures Keyed(e.after) && Dangling(e.after, k)
  {
    match e.op
    case Upsert(b) =>
    case Mark(s, st) =>
      var errs: seq<bool> :| MarkOutcome(c, s, st, errs, e.after, e.ok);
      MarkEffect(c, s, st, errs, e.after, e.ok);
    case Delete(s) =>
      var errs: seq<bool> :| DeleteOutcome(c, s, errs, e.after, e.ok);
      DeleteTouchesOneServer(c, s, errs, e.after, e.ok);
      ListedIffReached(c, s, errs, k);
      var keys := RecordKeys(s, ListByServer(c, s, errs));
      WithoutEffect(c.global, KeySet(keys));
      assert k in KeySet(c.global) - KeySet(keys);
  }

  // What may come between two attempts to delete s: anything, however it ends, but a
  // report of s itself must complete.
  ghost predicate Between(c: Catalog, e: Event, s: string) {
    Step(c, e) && e.op != Delete(s) && (e.op.Upsert? && e.op.backup.server == s ==> e.ok)
  }

  lemma OthersKeepCovered(c: Catalog, e: Event, s: string)
    requires Keyed(c) && Covered(c, s) && Between(c, e, s)
    ensures Keyed(e.after) && Covered(e.after, s)
  {
    match e.op
    case Upsert(b) => UpsertKeepsCovered(c, b, e.after, e.ok, s);
    case Mark(t, st) =>
      var errs: seq<bool> :| MarkOutcome(c, t, st, errs, e.after, e.ok);
      MarkEffect(c, t, st, errs, e.after, e.ok);
      assert SnapshotsOf(e.after, s) == SnapshotsOf(c, s);
    case Delete(t) =>
      var errs: seq<bool> :| DeleteOutcome(c, t, errs, e.after, e.ok);
      DeleteTouchesOneServer(c, t, errs, e.after, e.ok);
  }

  lemma UpsertKeepsCovered(c: Catalog, b: Backup, c': Catalog, ok: bool, s: string)
    requires Keyed(c) && Covered(c, s) && UpsertOutcome(c, b, c', ok) && (b.server == s ==> ok)
    ensures Keyed(c') && Covered(c', s)
  {
    if b.server == s {
      AcknowledgedIsPresent(c, b, c');
      assert forall n | n in SnapshotsOf(c, s) :: n in SnapshotsOf(c', s);
    } else {
      assert SnapshotsOf(c', s) == SnapshotsOf(c, s);
    }
  }

  // Attempts to delete s, each failing anywhere, amid anything else.
  ghost predicate DeletionRun(c: Catalog, es: seq<Event>, s: string)
    decreases |es|
  {
    es == [] || (
      && (if es[0].op == Delete(s) then CleanStep(c, es[0]) else Between(c, es[0], s))
      && DeletionRun(es[0].after, es[1..], s))
  }

  lemma {:induction false} DeletionRunCovered(c: Catalog, es: seq<Event>, s: string)
    requires Keyed(c) && Covered(c, s) && DeletionRun(c, es, s)
    ensures Keyed(Final(c, es)) && Covered(Final(c, es), s)
    ensures es != [] && es[|es| - 1].ok && es[|es| - 1].op == Delete(s) ==> NoRecordOf(Final(c, es), s)
    decreases |es|
  {
    if es == [] {
    } else {
      var e := es[0];
      if e.op == Delete(s) {
        DeleteTouchesOneServer(c, s, NoErrors(|SnapshotsOf(c, s)|), e.after, e.ok);
        DeleteKeepsCovered(c, s, e.after, e.ok);
        if e.ok { CleanDeleteEmptiesIffCovered(c, s, e.after); }
      } else {
        OthersKeepCovered(c, e, s);
      }
      DeletionRunCovered(e.after, es[1..], s);
      assert Final(c, es) == Final(e.after, es[1..]);
    }
  }

  // Once a retried deletion returns nil, neither list shows the server.
  lemma RetriedDeletionEmptiesBothLists(c: Catalog, es: seq<Event>, s: string)
    requires Keyed(c) && Covered(c, s) && DeletionRun(c, es, s)
    requires es != [] && es[|es| - 1].ok && es[|es| - 1].op == Delete(s)
    ensures BackupsOf(Final(c, es), s) == [] && Select(Backups(Final(c, es)), s) == []
  {
    DeletionRunCovered(c, es, s);
    var f := Final(c, es);
    FetchNothing(f.records, ServerKeys(f, s), NoErrors(|SnapshotsOf(f, s)|));
    SelectIsShown(f, f.global, s);
    ShownNothing(f, f.global, s);
  }

  lemma {:induction false} ShownNothing(c: Catalog, global: seq<RecordKey>, s: string)
    requires NoRecordOf(c, s)
    ensures Shown(c, global, s) == []
  {
    if global == [] {
    } else {
      ShownNothing(c, global[1..], s);
    }
  }

  // ---- Where the guarantees end ----

  // One failed item of the bulk read: the deletion returns nil, and the global
  // list goes on showing the record that the server's own list has lost.
  lemma ItemErrorLeavesRecord(b: Backup)
    ensures var c := WithGlobal(WithSnapshot(WithRecord(EMPTY, b), b), b);
            var c' := DropServer(c, b.server);
            && DeleteOutcome(c, b.server, [true], c', true)
            && BackupsOf(c', b.server) == [] && Backups(c') == [GlobalView(KeyOf(b), b)]
  {
    var c := WithGlobal(WithSnapshot(WithRecord(EMPTY, b), b), b);
    var c' := DropServer(c, b.server);
    assert |SnapshotsOf(c, b.server)| == 1;
    FetchNothing(c.records, ServerKeys(c, b.server), [true]);
    var none: seq<RecordKey> := RecordKeys(b.server, []);
    assert DropRecords(c, none) == c;
    assert Without(c.global, KeySet(none)) == c.global;
    assert c'.global == [KeyOf(b)] && NoErrors(1) == [false];
    assert Fetch(c'.records, [KeyOf(b)], [false]) == [(KeyOf(b), b)] + Fetch(c'.records, [], []) == [(KeyOf(b), b)];
  }

  // The shortest such history: a deletion stops once the record is gone, before
  // the server's index is; its retry returns nil and leaves the key behind, until
  // the snapshot is reported again. If that report stops after its first write, the
  // global list shows it and the server's own list does not.
  lemma RetryLeavesDanglingKey(b: Backup)
    ensures var c := WithGlobal(WithSnapshot(WithRecord(EMPTY, b), b), b);
            var c1 := DropRecords(c, [KeyOf(b)]);
            var c2 := DropServer(c1, b.server);
            var c3 := WithRecord(c2, b);
            && DeleteOutcome(c, b.server, [false], c1, false)
            && DeleteOutcome(c1, b.server, [false], c2, true)
            && UpsertOutcome(c2, b, c3, false)
            && Dangling(c2, KeyOf(b)) && !NoKeyOf(c2, b.server)
            && Backups(c3) == [GlobalView(KeyOf(b), b)] && BackupsOf(c3, b.server) == []
  {
    var c := WithGlobal(WithSnapshot(WithRecord(EMPTY, b), b), b);
    assert ServerKeys(c, b.server) == [KeyOf(b)];
    assert Fetch(c.records, [KeyOf(b)], [false]) == [(KeyOf(b), b)] + Fetch(c.records, [], []) == [(KeyOf(b), b)];
    var keys := RecordKeys(b.server, ListByServer(c, b.server, [false]));
    assert keys == [KeyOf(b)] == keys[..1];
    var c1 := DropRecords(c, [KeyOf(b)]);
    var c2 := DropServer(c1, b.server);
    FetchNothing(c1.records, ServerKeys(c1, b.server), [false]);
    var none: seq<RecordKey> := RecordKeys(b.server, []);
    assert DropRecords(c1, none) == c1;
    assert Without(c1.global, KeySet(none)) == c1.global;
    var c3 := WithRecord(c2, b);
    assert c3.global == [KeyOf(b)] && NoErrors(1) == [false];
    assert Fetch(c3.records, [KeyOf(b)], [false]) == [(KeyOf(b), b)] + Fetch(c3.records, [], []) == [(KeyOf(b), b)];
  }
}
