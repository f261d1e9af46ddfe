// The retention sweep over the catalog and the backup bucket, and what it can
// remove in runs of creations, backup reports, destroys and sweeps.
module BackupRetention {
  import opened Common
  import opened BackupCatalog
  import opened BackupCatalogLaws

  datatype CleanupResult = CleanupResult(scanned: nat, cleaned: nat, failed: nat, objectsDeleted: nat)

  // Where a server's backups live in the bucket.
  function Prefix(s: string): string { "servers/" + s + "/restic/" }

  ghost predicate Expirable(b: Backup) { b.server != "" && b.deletedAt.Some? && b.retentionUntil.Some? }

  // Per server with stamped backups: are all the stamped ones expired?
  function Deletions(bs: seq<Backup>, now: int): map<string, bool> {
    if bs == [] then map[]
    else
      var m, b := Deletions(bs[..|bs| - 1], now), bs[|bs| - 1];
      if b.server == "" || b.deletedAt.None? || b.retentionUntil.None? then m
      else m[b.server := (b.server !in m || m[b.server]) && !(b.retentionUntil.value > now)]
  }

  function Eligible(bs: seq<Backup>, now: int): set<string> {
    var m := Deletions(bs, now); set s | s in m && m[s]
  }

  // A server is swept exactly when it has a stamped backup and none of its
  // stamped backups is still retained.
  lemma {:induction false} EligibleIff(bs: seq<Backup>, now: int, s: string)
    ensures s in Deletions(bs, now) <==> exists i | 0 <= i < |bs| :: Expirable(bs[i]) && bs[i].server == s
    ensures s in Eligible(bs, now) <==>
              && (exists i | 0 <= i < |bs| :: Expirable(bs[i]) && bs[i].server == s)
              && (forall i | 0 <= i < |bs| && Expirable(bs[i]) && bs[i].server == s ::
                   bs[i].retentionUntil.value <= now)
  {
    if bs == [] {
    } else {
      var n := |bs| - 1;
      EligibleIff(bs[..n], now, s);
      assert forall i | 0 <= i < n :: bs[i] == bs[..n][i];
      assert (exists i | 0 <= i < |bs| :: Expirable(bs[i]) && bs[i].server == s) <==>
             (Expirable(bs[n]) && bs[n].server == s) || exists i | 0 <= i < n ::
               Expirable(bs[..n][i])
               && bs[..n][i].server == s;
    }
  }

  // The same in terms of the fields.
  lemma {:induction false} EligibleByFields(bs: seq<Backup>, now: int, s: string)
    ensures s in Eligible(bs, now) <==>
              && s != ""
              && (exists i | 0 <= i < |bs| ::
                   bs[i].server == s && bs[i].deletedAt.Some? && bs[i].retentionUntil.Some?)
              && (forall i | 0 <= i < |bs| ::
                   bs[i].server == s && bs[i].deletedAt.Some? && bs[i].retentionUntil.Some? ==>
                     bs[i].retentionUntil.value <= now)
  {
    EligibleIff(bs, now, s);
    assert forall i | 0 <= i < |bs| && bs[i].server == s && s != "" ::
        Expirable(bs[i]) <==> bs[i].deletedAt.Some? && bs[i].retentionUntil.Some?;
  }

  // Only what eligible servers own may have gone; everyone else's documents and
  // every surviving record are as they were.
  ghost predicate SweepOutcome(c: Catalog, objects: set<string>, eligible: set<string>, c': Catalog,
                               objects': set<string>) {
    && Keyed(c')
    && (forall k | k in c'.records ::
      k in c.records && c'.records[k] == c.records[k]
      && (k in c.global ==> k in c'.global))
    && (forall k | k in c.records && k !in c'.records :: k.server in eligible)
    && (forall t | t !in eligible ::
      SnapshotsOf(c', t) == SnapshotsOf(c, t)
      && Project(c'.global, t) == Project(c.global, t))
    && objects' <= objects
    && (forall o | o in objects && o !in objects' :: exists s | s in eligible :: Prefix(s) <= o)
  }

  ghost predicate Emptied(c: Catalog, objects: set<string>, s: string) {
    NoRecordOf(c, s) && forall o | o in objects :: !(Prefix(s) <= o)
  }

  // A sweep that has dealt with the servers in `done`: `clean` while no item of a
  // bulk read failed, `spotless` while no server failed.
  ghost predicate Progress(c: Catalog, objects: set<string>, eligible: set<string>, done: set<string>,
                           clean: bool, spotless: bool, c': Catalog, objects': set<string>) {
    && SweepOutcome(c, objects, eligible, c', objects')
    && (clean ==> forall t | Covered(c, t) :: Covered(c', t))
    && (clean && spotless ==> forall t | t in done && Covered(c, t) :: Emptied(c', objects', t))
  }

  lemma SweepOneMore(c: Catalog, objects: set<string>, eligible: set<string>, c1: Catalog, o1: set<string>,
                     s: string, errs: seq<bool>, c2: Catalog, ok: bool)
    requires SweepOutcome(c, objects, eligible, c1, o1) && s in eligible
    requires DeleteOutcome(c1, s, errs, c2, ok)
    ensures SweepOutcome(c, objects, eligible, c2, o1)
  {
    DeleteTouchesOneServer(c1, s, errs, c2, ok);
  }

  lemma SweepStart(c: Catalog, objects: set<string>, eligible: set<string>)
    requires Keyed(c)
    ensures Progress(c, objects, eligible, {}, true, true, c, objects)
  {}

  lemma TakeOne(eligible: set<string>, todo: set<string>, s: string)
    requires s in todo
    ensures s in eligible ==> s !in eligible - todo && eligible - (todo - {s}) == (eligible - todo) + {s}
    ensures s !in eligible ==> eligible - (todo - {s}) == eligible - todo
  {}

  class Bucket {
    var objects: set<string>
    ghost var faults: nat     // bucket calls that failed
    ghost var vanished: nat   // listed objects that were gone when their turn came

    constructor ()
      ensures objects == {} && faults == 0 && vanished == 0
    {
      objects, faults, vanished := {}, 0, 0;
    }

    // One object; another hand may have been there before.
    method DeleteObject(o: string) returns (ok: bool, present: bool)
      requires o in objects
      modifies this
      ensures objects == if ok then old(objects) - {o} else old(objects)
      ensures faults == old(faults) + (if ok then 0 else 1)
      ensures vanished == old(vanished) + (if ok && !present then 1 else 0)
    {
      ok, present := *, *;
      if ok { objects := objects - {o}; }
      if !ok { faults := faults + 1; }
      if ok && !present { vanished := vanished + 1; }
    }

    // Lists and deletes object by object; an error leaves the rest, if there is any.
    method DeletePrefix(prefix: string) returns (ok: bool, deleted: nat)
      modifies this
      ensures objects <= old(objects) && forall o | o in old(objects) && o !in objects :: prefix <= o
      ensures ok ==> forall o | o in objects :: !(prefix <= o)
      ensures faults == old(faults) + (if ok then 0 else 1)
      ensures vanished >= old(vanished) && deleted + (vanished - old(vanished)) == |old(objects)| - |objects|
    {
      ok, deleted := true, 0;
      var todo := set o | o in objects && prefix <= o;
      while todo != {}
        invariant ok && todo <= objects <= old(objects) && faults == old(faults)
        invariant forall o | o in old(objects) && o !in objects :: prefix <= o
        invariant forall o | o in objects && prefix <= o :: o in todo
        invariant vanished >= old(vanished) && deleted + (vanished - old(vanished)) == |old(objects)| - |objects|
        decreases todo
      {
        var o :| o in todo;
        var present;
        ok, present := DeleteObject(o);
        if !ok { return; }
        todo := todo - {o};
        if present { deleted := deleted + 1; }
      }
      var exhausted: bool := *;
      if !exhausted {
        faults := faults + 1;
        ok := false;
      }
    }
  }

  class BackupCleanupService {
    const db: DaprDB
    const bucket: Bucket

    constructor (db: DaprDB, bucket: Bucket)
      ensures this.db == db && this.bucket == bucket
    {
      this.db, this.bucket := db, bucket;
    }

    // Store and bucket calls that failed.
    ghost function Faults(): nat
      reads db, bucket
    {
      db.faults + bucket.faults
    }

    // No more objects are counted than went; unless a bucket call failed or an
    // object went by another hand, exactly those.
    ghost predicate Counted(objects: set<string>, faults: nat, vanished: nat, deleted: nat)
      reads bucket
    {
      && bucket.faults >= faults && bucket.vanished >= vanished && deleted <= |objects| - |bucket.objects|
      && (bucket.faults == faults ==> deleted + (bucket.vanished - vanished) == |objects| - |bucket.objects|)
    }

    // Per server with stamped backups, whether all the stamped ones are expired.
    method GroupDeletions(bs: seq<Backup>, now: int) returns (servers: map<string, bool>)
      ensures servers == Deletions(bs, now)
    {
      servers := map[];
      for i := 0 to |bs|
        invariant servers == Deletions(bs[..i], now)
      {
        assert bs[..i + 1][..i] == bs[..i];
        var b := bs[i];
        if b.server == "" || b.deletedAt.None? || b.retentionUntil.None? { continue; }
        if b.server !in servers { servers := servers[b.server := true]; }
        if b.retentionUntil.value > now { servers := servers[b.server := false]; }
      }
      assert bs[..|bs|] == bs;
    }

    // One server: the objects first, then the catalog.
    method SweepServer(s: string, ghost c: Catalog, ghost objects: set<string>, ghost eligible: set<string>,
                       ghost done: set<string>, ghost clean: bool, ghost spotless: bool)
      returns (cleaned: bool, deleted: nat, ghost stillClean: bool)
      requires s in eligible && Progress(c, objects, eligible, done, clean, spotless, db.cat, bucket.objects)
      modifies db, bucket
      ensures Progress(c, objects, eligible, done + {s}, stillClean, spotless && cleaned, db.cat, bucket.objects)
      ensures Faults() == old(Faults()) + (if cleaned then 0 else 1)
      ensures db.itemFaults >= old(db.itemFaults)
      ensures clean && db.itemFaults == old(db.itemFaults) ==> stillClean
      ensures Counted(old(bucket.objects), old(bucket.faults), old(bucket.vanished), deleted)
    {
      ghost var c1 := db.cat;
      cleaned, deleted := bucket.DeletePrefix(Prefix(s));
      stillClean := clean;
      if !cleaned { return false, 0, clean; }
      ghost var errs;
      cleaned, errs := db.DeleteServerBackups(s);
      SweepOneMore(c, objects, eligible, c1, bucket.objects, s, errs, db.cat, cleaned);
      DeleteTouchesOneServer(c1, s, errs, db.cat, cleaned);
      if errs == NoErrors(|SnapshotsOf(c1, s)|) {
        CoveredAfterDelete(c1, s, db.cat, cleaned);
      } else {
        stillClean := false;
      }
    }

    static function Expired(servers: map<string, bool>): set<string> { set s | s in servers && servers[s] }

    // The map is ranged over in an order of Go's choosing.
    method SweepServers(servers: map<string, bool>, ghost eligible: set<string>)
      returns (cleaned: nat, failed: nat, objectsDeleted: nat, ghost clean: bool)
      requires Keyed(db.cat) && eligible == Expired(servers)
      modifies db, bucket
      ensures Progress(old(db.cat), old(bucket.objects), eligible, eligible, clean, failed == 0, db.cat, bucket.objects)
      ensures cleaned + failed == |eligible| && Faults() == old(Faults()) + failed
      ensures db.itemFaults >= old(db.itemFaults) && (db.itemFaults == old(db.itemFaults) ==> clean)
      ensures Counted(old(bucket.objects), old(bucket.faults), old(bucket.vanished), objectsDeleted)
    {
      cleaned, failed, objectsDeleted, clean := 0, 0, 0, true;
      ghost var c, objects, bucketFaults, vanished := db.cat, bucket.objects, bucket.faults, bucket.vanished;
      ghost var done: set<string> := {};
      var todo := servers.Keys;
      SweepStart(c, objects, eligible);
      assert eligible - todo == {};
      while todo != {}
        invariant todo <= servers.Keys && done == eligible - todo
        invariant cleaned + failed == |done| && Faults() == old(Faults()) + failed
        invariant db.itemFaults >= old(db.itemFaults) && (db.itemFaults == old(db.itemFaults) ==> clean)
        invariant Progress(c, objects, eligible, done, clean, failed == 0, db.cat, bucket.objects)
        invariant Counted(objects, bucketFaults, vanished, objectsDeleted)
        decreases todo
      {
        var s :| s in todo;
        TakeOne(eligible, todo, s);
        todo := todo - {s};
        if servers[s] {
          var ok, deleted;
          ok, deleted, clean := SweepServer(s, c, objects, eligible, done, clean, failed == 0);
          done := done + {s};
          objectsDeleted := objectsDeleted + deleted;
          if ok { cleaned := cleaned + 1; } else { failed := failed + 1; }
        }
      }
      assert eligible - {} == eligible;
    }

    // `clean` tells that no single item of a bulk read failed. Without any fault
    // every eligible server whose records its index covers is emptied.
    method RunSweep(now: int) returns (ok: bool, result: CleanupResult, ghost eligible: set<string>, ghost clean: bool)
      requires Keyed(db.cat)
      modifies db, bucket
      ensures Progress(old(db.cat), old(bucket.objects), eligible, eligible, clean, result.failed == 0,
                       db.cat, bucket.objects)
      ensures if ok then clean ==> eligible == Eligible(Backups(old(db.cat)), now) else eligible == {}
      ensures ok ==> result.cleaned + result.failed == |eligible| <= result.scanned
      ensures ok && clean ==> result.scanned == |Deletions(Backups(old(db.cat)), now)|
      ensures Counted(old(bucket.objects), old(bucket.faults), old(bucket.vanished), result.objectsDeleted)
      ensures Faults() == old(Faults()) + (if ok then result.failed else 1)
      ensures db.itemFaults == old(db.itemFaults) ==> clean
      ensures Faults() == old(Faults()) && db.itemFaults == old(db.itemFaults) ==>
                forall s | s in Eligible(Backups(old(db.cat)), now) && Covered(old(db.cat), s) ::
                  Emptied(db.cat, bucket.objects, s)
    {
      result, eligible, clean := CleanupResult(0, 0, 0, 0), {}, true;
      var bs;
      ghost var errs, readable;
      ok, bs, errs := db.ListBackups();
      if !ok { return; }
      readable := errs == NoErrors(|db.cat.global|);
      var servers := GroupDeletions(bs, now);
      eligible := Eligible(bs, now);
      Subset(eligible, servers.Keys);
      var cleaned, failed, objectsDeleted;
      cleaned, failed, objectsDeleted, clean := SweepServers(servers, eligible);
      clean := clean && readable;
      result := CleanupResult(|servers|, cleaned, failed, objectsDeleted);
    }
  }

  lemma Subset<T>(a: set<T>, b: set<T>)
    requires a <= b
    ensures |a| <= |b|
  {
    assert b == a + (b - a);
  }

  lemma CoveredAfterDelete(c: Catalog, s: string, c': Catalog, ok: bool)
    requires Keyed(c) && DeleteOutcome(c, s, NoErrors(|SnapshotsOf(c, s)|), c', ok)
    ensures forall t | Covered(c, t) :: Covered(c', t)
    ensures ok && Covered(c, s) ==> NoRecordOf(c', s)
  {
    DeleteTouchesOneServer(c, s, NoErrors(|SnapshotsOf(c, s)|), c', ok);
    if Covered(c, s) {
      DeleteKeepsCovered(c, s, c', ok);
      if ok { CleanDeleteEmptiesIffCovered(c, s, c'); }
    }
  }

  // ---- Bucket prefixes ----

  lemma PrefixesDisjoint(s: string, t: string, o: string)
    requires '/' !in s && '/' !in t && Prefix(s) <= o && Prefix(t) <= o
    ensures s == t
  {
    SlashAt(s, o);
    SlashAt(t, o);
    assert |s| == |t|;
    forall i | 0 <= i < |s| ensures s[i] == t[i] {
      assert Prefix(s)[8 + i] == o[8 + i] == Prefix(t)[8 + i];
    }
  }

  lemma {:induction false} SlashAt(s: string, o: string)
    requires '/' !in s && Prefix(s) <= o
    ensures |o| > 8 + |s| && o[8 + |s|] == '/' && forall i | 8 <= i < 8 + |s| :: o[i] != '/'
  {}

  predicate Under(o: string, s: string) { Prefix(s) <= o }

  // Under a server's prefix are the names servers/<id>/restic/<rest>.
  lemma {:induction false} UnderIff(o: string, s: string)
    ensures Under(o, s) <==> exists rest :: o == "servers/" + s + "/restic/" + rest
  {
    if Under(o, s) { assert o == "servers/" + s + "/restic/" + o[|Prefix(s)|..]; }
    forall rest: string | o == "servers/" + s + "/restic/" + rest ensures Under(o, s) {
      assert o[..|Prefix(s)|] == "servers/" + s + "/restic/";
    }
  }

  // Prefixes of two servers have an object name in common exactly when one of them
  // continues the other.
  lemma {:induction false} PrefixesMeetIff(s: string, t: string)
    ensures (exists o :: Under(o, s) && Under(o, t)) <==> Prefix(s) <= Prefix(t) || Prefix(t) <= Prefix(s)
  {
    assert Under(Prefix(s), s) && Under(Prefix(t), t);
    forall o | Under(o, s) && Under(o, t) ensures Prefix(s) <= Prefix(t) || Prefix(t) <= Prefix(s) {
      if |Prefix(s)| <= |Prefix(t)| {
        assert o[..|Prefix(t)|][..|Prefix(s)|] == o[..|Prefix(s)|];
      } else {
        assert o[..|Prefix(s)|][..|Prefix(t)|] == o[..|Prefix(t)|];
      }
    }
  }

  // With '/' in an id the prefixes nest, and one sweep would take both servers.
  lemma {:induction false} SlashNestsPrefixes(s: string, t: string)
    ensures Prefix(s) <= Prefix(s + "/restic/" + t)
  {}

  // ---- Whole runs ----

  datatype World = World(cat: Catalog, configs: set<string>, born: set<string>, objects: set<string>)

  datatype Action =
    | Create(server: string)
    | Report(backup: Backup)
    | PutObject(name: string)
    | Destroy(server: string, stamp: Stamp)
    | Sweep(now: int)

  datatype Move = Move(action: Action, after: World)

  // Reports and destroys are free of faults; a sweep may fail at any store or
  // bucket call. A report is accepted while the server has a configuration, and
  // carries no stamp. A destroy that is under way needs no configuration any more.
  // Server ids are fresh and hold no '/'.
  ghost predicate Step(w: World, e: Move) {
    var w' := e.after;
    match e.action
    case Create(s) => s !in w.born && '/' !in s && s != "" && w' == w.(configs := w.configs + {s}, born := w.born + {s})
    case Report(b) =>
      && b.deletedAt.None? && b.retentionUntil.None?
      && (if b.server in w.configs then UpsertOutcome(w.cat, b, w'.cat, true) && w' == w.(cat := w'.cat) else w' == w)
    case PutObject(o) => w' == w.(objects := w.objects + {o})
    case Destroy(s, st) =>
      && s in w.born
      && MarkOutcome(w.cat, s, st, NoErrors(|SnapshotsOf(w.cat, s)|), w'.cat, true)
      && w' == w.(configs := w.configs - {s}, cat := w'.cat)
    case Sweep(now) =>
      && SweepOutcome(w.cat, w.objects, Eligible(Backups(w.cat), now), w'.cat, w'.objects)
      && (forall s | Covered(w.cat, s) :: Covered(w'.cat, s))
      && w' == w.(cat := w'.cat, objects := w'.objects)
  }

  ghost predicate Run(w: World, es: seq<Move>)
    decreases |es|
  {
    es == [] || (Step(w, es[0]) && Run(es[0].after, es[1..]))
  }

  // Records of configured servers are unstamped, all others are stamped, and
  // every record can be found through both indexes.
  ghost predicate Inv(w: World) {
    && Keyed(w.cat)
    && w.configs <= w.born
    && (forall s | s in w.born :: '/' !in s && s != "")
    && (forall s :: Covered(w.cat, s))
    && (forall k | k in w.cat.records ::
         var b := w.cat.records[k];
         && k in w.cat.global && k.server in w.born
         && (if k.server in w.configs then b.deletedAt.None? && b.retentionUntil.None?
             else b.deletedAt.Some? && b.retentionUntil.Some?))
  }

  const START := World(EMPTY, {}, {}, {})

  lemma ReportKeepsInv(w: World, b: Backup, w': World)
    requires Inv(w) && Step(w, Move(Report(b), w'))
    ensures Inv(w')
  {
    if b.server in w.configs {
      AcknowledgedIsPresent(w.cat, b, w'.cat);
      assert forall s | s != b.server :: SnapshotsOf(w'.cat, s) == SnapshotsOf(w.cat, s);
      assert forall n | n in SnapshotsOf(w.cat, b.server) :: n in SnapshotsOf(w'.cat, b.server);
      forall s ensures Covered(w'.cat, s) { assert Covered(w.cat, s); }
    }
  }

  lemma DestroyKeepsInv(w: World, s: string, st: Stamp, w': World)
    requires Inv(w) && Step(w, Move(Destroy(s, st), w'))
    ensures Inv(w')
  {
    MarkEffect(w.cat, s, st, NoErrors(|SnapshotsOf(w.cat, s)|), w'.cat, true);
    assert forall t :: SnapshotsOf(w'.cat, t) == SnapshotsOf(w.cat, t);
    assert Covered(w.cat, s);
    forall k | k in w.cat.records && k.server == s ensures k in RecordKeys(s, BackupsOf(w.cat, s)) {
      RecordIsListed(w.cat, s, k.snapshot);
      assert k == RecordKey(s, k.snapshot);
    }
    forall t ensures Covered(w'.cat, t) { assert Covered(w.cat, t); }
  }

  lemma StepKeepsInv(w: World, e: Move)
    requires Inv(w) && Step(w, e)
    ensures Inv(e.after)
  {
    match e.action
    case Create(s) =>
    case Report(b) => ReportKeepsInv(w, b, e.after);
    case PutObject(o) =>
    case Destroy(s, st) => DestroyKeepsInv(w, s, st, e.after);
    case Sweep(now) =>
      forall s ensures Covered(e.after.cat, s) { assert Covered(w.cat, s); }
  }

  // An eligible server has lost its configuration, and every one of its records
  // is stamped with a time that has come.
  ghost predicate Expired(w: World, s: string, now: int) {
    s in w.born && s !in w.configs && AllDue(w.cat, s, now)
  }

  // Whatever there is of the server is stamped, and its time has come.
  ghost predicate AllDue(c: Catalog, s: string, now: int) {
    forall k | k in c.records && k.server == s ::
      && c.records[k].deletedAt.Some? && c.records[k].retentionUntil.Some?
      && c.records[k].retentionUntil.value <= now
  }

  // The two ways between the global list and the records.
  lemma GlobalListIsRecords(c: Catalog)
    requires Keyed(c)
    ensures forall i | 0 <= i < |Backups(c)| ::
              KeyOf(Backups(c)[i]) in c.records
                && Backups(c)[i] == GlobalView(KeyOf(Backups(c)[i]), c.records[KeyOf(Backups(c)[i])])
    ensures forall k | k in c.records && k in c.global :: GlobalView(k, c.records[k]) in Backups(c)
  {
    FetchIsSound(c.records, c.global, NoErrors(|c.global|));
    var items := Fetch(c.records, c.global, NoErrors(|c.global|));
    forall i | 0 <= i < |items| ensures items[i] == (KeyOf(Backups(c)[i]), c.records[items[i].0]) {
      var (k, b) := items[i];
      assert KeyOf(c.records[k]) == k;
    }
    forall k | k in c.records && k in c.global ensures GlobalView(k, c.records[k]) in Backups(c) {
      var q :| 0 <= q < |c.global| && c.global[q] == k;
      var j :| 0 <= j < |items| && items[j] == (k, c.records[k]);
      assert Backups(c)[j] == GlobalView(k, c.records[k]);
    }
  }

  // A backup of the global list is a record as it is stored, its id filled in if empty.
  lemma GlobalListShows(c: Catalog, i: nat)
    requires Keyed(c) && i < |Backups(c)|
    ensures var b := Backups(c)[i]; var k := RecordKey(b.server, b.snapshot);
            && k in c.records && k in c.global
            && b == c.records[k].(id := if c.records[k].id == "" then b.server + ":" + b.snapshot else c.records[k].id)
  {
    FetchIsSound(c.records, c.global, NoErrors(|c.global|));
    var (k, r) := Fetch(c.records, c.global, NoErrors(|c.global|))[i];
    assert KeyOf(c.records[k]) == k;
  }

  lemma {:induction false} EligibleIsExpired(w: World, s: string, now: int)
    requires Inv(w) && s in Eligible(Backups(w.cat), now)
    ensures Expired(w, s, now)
  {
    var bs := Backups(w.cat);
    EligibleIff(bs, now, s);
    GlobalListIsRecords(w.cat);
    var i :| 0 <= i < |bs| && Expirable(bs[i]) && bs[i].server == s;
    assert KeyOf(bs[i]) in w.cat.records;
    forall k | k in w.cat.records && k.server == s ensures w.cat.records[k].retentionUntil.value <= now {
      assert KeyOf(w.cat.records[k]) == k;
      var j :| 0 <= j < |bs| && bs[j] == GlobalView(k, w.cat.records[k]);
      assert Expirable(bs[j]);
    }
  }

  // The server's index names its records, and so does the global index.
  ghost predicate Findable(c: Catalog, s: string) {
    Covered(c, s) && forall k | k in c.records && k.server == s :: k in c.global
  }

  // No listed backup of the server is retained any more.
  lemma {:induction false} ListedIsDue(c: Catalog, s: string, now: int, i: nat)
    requires Keyed(c) && AllDue(c, s, now) && i < |Backups(c)| && Backups(c)[i].server == s
    ensures Backups(c)[i].retentionUntil.Some? && Backups(c)[i].retentionUntil.value <= now
  {
    GlobalListShows(c, i);
  }

  // A record that the global index names is listed, stamped if it is.
  lemma {:induction false} StampedIsListed(c: Catalog, k: RecordKey)
    requires Keyed(c) && k in c.records && k in c.global && k.server != ""
    requires c.records[k].deletedAt.Some? && c.records[k].retentionUntil.Some?
    ensures exists i | 0 <= i < |Backups(c)| :: Expirable(Backups(c)[i]) && Backups(c)[i].server == k.server
  {
    GlobalListIsRecords(c);
    var i :| 0 <= i < |Backups(c)| && Backups(c)[i] == GlobalView(k, c.records[k]);
    assert KeyOf(c.records[k]) == k && Expirable(Backups(c)[i]);
  }

  lemma {:induction false} DueIsEligible(c: Catalog, s: string, now: int)
    requires Keyed(c) && Findable(c, s) && AllDue(c, s, now) && s != "" && !NoRecordOf(c, s)
    ensures s in Eligible(Backups(c), now)
  {
    EligibleIff(Backups(c), now, s);
    var k :| k in c.records && k.server == s;
    StampedIsListed(c, k);
    forall i | 0 <= i < |Backups(c)| && Backups(c)[i].server == s ensures Backups(c)[i].retentionUntil.Some?
      && Backups(c)[i].retentionUntil.value <= now
    {
      ListedIsDue(c, s, now, i);
    }
  }

  // A sweep in which nothing fails takes all of it.
  lemma {:induction false} DueIsSwept(c: Catalog, objects: set<string>, s: string, now: int, c': Catalog,
                                      objects': set<string>)
    requires Keyed(c) && Findable(c, s) && AllDue(c, s, now) && s != ""
    requires var eligible := Eligible(Backups(c), now);
             Progress(c, objects, eligible, eligible, true, true, c', objects')
    ensures NoRecordOf(c', s) && (NoRecordOf(c, s) || Emptied(c', objects', s))
  {
    if !NoRecordOf(c, s) {
      DueIsEligible(c, s, now);
      assert Emptied(c', objects', s);
    }
  }

  // In a run the eligible servers are just the expired ones that have left a record,
  // and such a sweep takes everything of every expired server.
  lemma EligibleIffExpired(w: World, s: string, now: int)
    requires Inv(w)
    ensures s in Eligible(Backups(w.cat), now) <==> Expired(w, s, now) && !NoRecordOf(w.cat, s)
  {
    if s in Eligible(Backups(w.cat), now) {
      EligibleIsExpired(w, s, now);
      EligibleHasRecord(w.cat, now, s);
    } else if Expired(w, s, now) && !NoRecordOf(w.cat, s) {
      assert Covered(w.cat, s);
      DueIsEligible(w.cat, s, now);
    }
  }

  lemma ExpiredIsSwept(w: World, s: string, now: int, c': Catalog, objects': set<string>)
    requires Inv(w) && Expired(w, s, now)
    requires var eligible := Eligible(Backups(w.cat), now);
             Progress(w.cat, w.objects, eligible, eligible, true, true, c', objects')
    ensures Step(w, Move(Sweep(now), w.(cat := c', objects := objects')))
    ensures NoRecordOf(c', s) && (NoRecordOf(w.cat, s) || Emptied(c', objects', s))
  {
    assert Covered(w.cat, s);
    CleanSweepIsStep(w, now, true, c', objects');
    DueIsSwept(w.cat, w.objects, s, now, c', objects');
  }

  // What one sweep of a run may take away.
  ghost predicate SafeSweep(w: World, now: int, w': World) {
    && (forall k | k in w.cat.records && k !in w'.cat.records :: Expired(w, k.server, now))
    && (forall o, t | o in w.objects && '/' !in t && Prefix(t) <= o :: o in w'.objects || Expired(w, t, now))
    && (forall o | o in w.objects && o !in w'.objects :: exists t | t in w.born :: Prefix(t) <= o)
    && (forall t | !Expired(w, t, now) :: BackupsOf(w'.cat, t) == BackupsOf(w.cat, t)
         && Select(Backups(w'.cat), t) == Select(Backups(w.cat), t))
  }

  lemma SweepIsSafe(w: World, now: int, w': World)
    requires Inv(w) && Step(w, Move(Sweep(now), w'))
    ensures SafeSweep(w, now, w')
  {
    var eligible := Eligible(Backups(w.cat), now);
    forall s | s in eligible ensures Expired(w, s, now) { EligibleIsExpired(w, s, now); }
    forall o, t | o in w.objects && '/' !in t && Prefix(t) <= o && o !in w'.objects ensures Expired(w, t, now) {
      var s :| s in eligible && Prefix(s) <= o;
      PrefixesDisjoint(s, t, o);
    }
    forall t | !Expired(w, t, now)
      ensures BackupsOf(w'.cat, t) == BackupsOf(w.cat, t) && Select(Backups(w'.cat), t) == Select(Backups(w.cat), t)
    {
      assert t !in eligible && ServerKeys(w'.cat, t) == ServerKeys(w.cat, t);
      FetchDependsOnKeys(w.cat.records, w'.cat.records, ServerKeys(w.cat, t), NoErrors(|SnapshotsOf(w.cat, t)|));
      SelectIsShown(w.cat, w.cat.global, t);
      SelectIsShown(w'.cat, w'.cat.global, t);
      ShownFromProject(w.cat, w.cat.global, w'.cat, w'.cat.global, t);
    }
  }

  function Before(w: World, es: seq<Move>, i: nat): World
    requires i < |es|
  {
    if i == 0 then w else es[i - 1].after
  }

  // In every run from the empty world, every sweep is safe.
  lemma {:induction false} EverySweepIsSafe(w: World, es: seq<Move>)
    requires Inv(w) && Run(w, es)
    ensures forall i | 0 <= i < |es| && es[i].action.Sweep? ::
              SafeSweep(Before(w, es, i), es[i].action.now, es[i].after)
    decreases |es|
  {
    if es == [] {
    } else {
      StepKeepsInv(w, es[0]);
      if es[0].action.Sweep? { SweepIsSafe(w, es[0].action.now, es[0].after); }
      EverySweepIsSafe(es[0].after, es[1..]);
      forall i | 0 < i < |es| && es[i].action.Sweep?
        ensures SafeSweep(Before(w, es, i), es[i].action.now, es[i].after)
      {
        assert es[i] == es[1..][i - 1] && Before(w, es, i) == Before(es[0].after, es[1..], i - 1);
      }
    }
  }

  lemma SweepsFromStart(es: seq<Move>)
    requires Run(START, es)
    ensures forall i | 0 <= i < |es| && es[i].action.Sweep? ::
              SafeSweep(Before(START, es, i), es[i].action.now, es[i].after)
  {
    EverySweepIsSafe(START, es);
  }

  // A sweep that read its lists without item errors is a step of a run, whatever
  // calls failed.
  lemma {:induction false} CleanSweepIsStep(w: World, now: int, spotless: bool, c': Catalog, objects': set<string>)
    requires var eligible := Eligible(Backups(w.cat), now);
             Progress(w.cat, w.objects, eligible, eligible, true, spotless, c', objects')
    ensures Step(w, Move(Sweep(now), w.(cat := c', objects := objects')))
  {}

  // ---- When an eligible server has nothing else to lose ----

  // Whatever is listed of an eligible server is stamped and expired.
  ghost predicate OnlyExpired(bs: seq<Backup>, s: string, now: int) {
    s in Eligible(bs, now) ==>
      forall i | 0 <= i < |bs| && bs[i].server == s :: Expirable(bs[i]) && bs[i].retentionUntil.value <= now
  }

  // Of the listed backups of the server all are stamped, or none.
  ghost predicate Uniform(bs: seq<Backup>, s: string) {
    forall i, j | 0 <= i < |bs| && 0 <= j < |bs| && bs[i].server == s && bs[j].server == s ::
      Expirable(bs[i]) ==> Expirable(bs[j])
  }

  function LatestUntil(bs: seq<Backup>): int {
    if bs == [] then 0
    else
      var rest := LatestUntil(bs[1..]);
      if bs[0].retentionUntil.Some? && bs[0].retentionUntil.value > rest then bs[0].retentionUntil.value else rest
  }

  lemma {:induction false} LatestIsLatest(bs: seq<Backup>)
    ensures forall i | 0 <= i < |bs| && bs[i].retentionUntil.Some? :: bs[i].retentionUntil.value <= LatestUntil(bs)
  {
    if bs == [] {
    } else {
      LatestIsLatest(bs[1..]);
      assert forall i | 0 < i < |bs| :: bs[i] == bs[1..][i - 1];
    }
  }

  // At every time a sweep takes only expired backups of a server exactly when its
  // listed backups are stamped all or none.
  lemma {:induction false} OnlyExpiredIffUniform(bs: seq<Backup>, s: string)
    ensures (forall now :: OnlyExpired(bs, s, now)) <==> Uniform(bs, s)
  {
    if Uniform(bs, s) {
      forall now ensures OnlyExpired(bs, s, now) { EligibleIff(bs, now, s); }
    } else {
      var i, j :| 0 <= i < |bs| && 0 <= j < |bs| && bs[i].server == s && bs[j].server == s
                  && Expirable(bs[i]) && !Expirable(bs[j]);
      var now := LatestUntil(bs);
      LatestIsLatest(bs);
      EligibleIff(bs, now, s);
      assert s in Eligible(bs, now) && !OnlyExpired(bs, s, now);
    }
  }

  // The same for all servers at once.
  lemma {:induction false} SweepsAreFairIffUniform(bs: seq<Backup>)
    ensures (forall s, now :: OnlyExpired(bs, s, now)) <==> forall s :: Uniform(bs, s)
  {
    forall s ensures (forall now :: OnlyExpired(bs, s, now)) <==> Uniform(bs, s) { OnlyExpiredIffUniform(bs, s); }
    if forall s :: Uniform(bs, s) {
      forall s, now ensures OnlyExpired(bs, s, now) { assert Uniform(bs, s); }
    } else {
      var s :| !Uniform(bs, s);
      assert !(forall now :: OnlyExpired(bs, s, now));
    }
  }

  // The stamping of a server's backups that stopped after n of them.
  function StampedPart(c: Catalog, s: string, st: Stamp, n: nat): Catalog
    requires n <= |BackupsOf(c, s)|
  {
    c.(records := StampAll(c.records, s, BackupsOf(c, s)[..n], st))
  }

  ghost predicate Unstamped(c: Catalog, s: string) {
    forall k | k in c.records && k.server == s :: c.records[k].deletedAt.None?
  }

  // Exactly the first n keys of the server carry the stamp then.
  lemma {:induction false} StampedPartEffect(c: Catalog, s: string, st: Stamp, n: nat)
    requires Aligned(c) && n <= |BackupsOf(c, s)|
    ensures |ServerKeys(c, s)| == |BackupsOf(c, s)| && NoDup(ServerKeys(c, s))
    ensures var c' := StampedPart(c, s, st, n);
            && MarkOutcome(c, s, st, NoErrors(|SnapshotsOf(c, s)|), c', n == |BackupsOf(c, s)|)
            && Keyed(c') && c'.global == c.global && c'.byServer == c.byServer && c'.records.Keys == c.records.Keys
            && forall k | k in c.records :: c'.records[k] ==
                 if k in ServerKeys(c, s)[..n] then Stamped(ServerView(s, c.records[k]), st) else c.records[k]
  {
    var listed, c' := BackupsOf(c, s), StampedPart(c, s, st, n);
    AlignedListing(c, s);
    ProjectNoDup(c.global, s);
    assert RecordKeys(s, listed[..n]) == ServerKeys(c, s)[..n];
    MarkEffect(c, s, st, NoErrors(|SnapshotsOf(c, s)|), c', n == |listed|);
    forall i | 0 <= i < n ensures var k := RecordKey(s, listed[..n][i].snapshot);
      k in c.records && listed[..n][i] == ServerView(s, c.records[k])
    {
      ListedIsRecord(c, s, NoErrors(|SnapshotsOf(c, s)|), i);
    }
    StampAllEffect(c.records, s, listed[..n], st);
  }

  lemma {:induction false} ProjectNoDup(global: seq<RecordKey>, s: string)
    requires NoDup(global)
    ensures NoDup(Project(global, s))
  {
    if global == [] {
    } else {
      ProjectNoDup(global[1..], s);
      ProjectMembers(global[1..], s);
      assert forall i | 0 < i < |global| :: global[i] != global[0];
    }
  }

  ghost predicate Lists(bs: seq<Backup>, k: RecordKey) { exists i | 0 <= i < |bs| :: KeyOf(bs[i]) == k }

  // What the global list shows of the server then.
  lemma {:induction false} StampedPartListing(c: Catalog, s: string, st: Stamp, n: nat)
    requires Aligned(c) && s != "" && Unstamped(c, s) && n <= |BackupsOf(c, s)|
    ensures var bs, keys := Backups(StampedPart(c, s, st, n)), ServerKeys(c, s);
            && |keys| == |BackupsOf(c, s)| && NoDup(keys)
            && (forall q | 0 <= q < |keys| :: keys[q].server == s && Lists(bs, keys[q]))
            && (forall i | 0 <= i < |bs| && bs[i].server == s :: KeyOf(bs[i]) in keys)
            && (forall i | 0 <= i < |bs| && bs[i].server == s :: Expirable(bs[i]) <==> KeyOf(bs[i]) in keys[..n])
            && (forall i | 0 <= i < |bs| && bs[i].server == s && Expirable(bs[i]) ::
                 bs[i].retentionUntil == Some(st.until))
  {
    var bs, keys := Backups(StampedPart(c, s, st, n)), ServerKeys(c, s);
    StampedPartEffect(c, s, st, n);
    forall q | 0 <= q < |keys| ensures keys[q].server == s && Lists(bs, keys[q]) {
      StampedPartShown(c, s, st, n, keys[q]);
    }
    forall i | 0 <= i < |bs| && bs[i].server == s
      ensures KeyOf(bs[i]) in keys && (Expirable(bs[i]) <==> KeyOf(bs[i]) in keys[..n])
      ensures Expirable(bs[i]) ==> bs[i].retentionUntil == Some(st.until)
    {
      StampedPartEntry(c, s, st, n, i);
    }
  }

  lemma {:induction false} StampedPartShown(c: Catalog, s: string, st: Stamp, n: nat, k: RecordKey)
    requires Aligned(c) && n <= |BackupsOf(c, s)| && k in ServerKeys(c, s)
    ensures k.server == s && Lists(Backups(StampedPart(c, s, st, n)), k)
  {
    var c' := StampedPart(c, s, st, n);
    StampedPartEffect(c, s, st, n);
    AlignedListing(c, s);
    ShownAs(c', k);
    var bs := Backups(c');
    var i :| 0 <= i < |bs| && bs[i] == GlobalView(k, c'.records[k]);
    assert KeyOf(bs[i]) == KeyOf(c'.records[k]) == k;
  }

  lemma {:induction false} StampedPartEntry(c: Catalog, s: string, st: Stamp, n: nat, i: nat)
    requires Aligned(c) && s != "" && Unstamped(c, s) && n <= |BackupsOf(c, s)|
    requires var bs := Backups(StampedPart(c, s, st, n)); i < |bs| && bs[i].server == s
    ensures var b := Backups(StampedPart(c, s, st, n))[i];
            && |ServerKeys(c, s)| == |BackupsOf(c, s)|
            && KeyOf(b) in ServerKeys(c, s) && (Expirable(b) <==> KeyOf(b) in ServerKeys(c, s)[..n])
            && (Expirable(b) ==> b.retentionUntil == Some(st.until))
  {
    var c' := StampedPart(c, s, st, n);
    StampedPartEffect(c, s, st, n);
    AlignedListing(c, s);
    GlobalListIsRecords(c');
    var b := Backups(c')[i];
    assert KeyOf(b) in c.records && b == GlobalView(KeyOf(b), c'.records[KeyOf(b)]);
  }

  // A stamping that was never started or has ended leaves a server uniform, and
  // only such a one does.
  lemma {:induction false} HaltedStampingUniformIff(c: Catalog, s: string, st: Stamp, n: nat)
    requires Aligned(c) && s != "" && Unstamped(c, s) && n <= |BackupsOf(c, s)|
    ensures Uniform(Backups(StampedPart(c, s, st, n)), s) <==> n == 0 || n == |BackupsOf(c, s)|
  {
    var bs, keys := Backups(StampedPart(c, s, st, n)), ServerKeys(c, s);
    StampedPartListing(c, s, st, n);
    if 0 < n < |keys| {
      assert keys[..n][0] == keys[0];
      assert forall q | 0 <= q < n :: keys[..n][q] != keys[n];
      assert Lists(bs, keys[0]) && Lists(bs, keys[n]);
      var i, j :| 0 <= i < |bs| && 0 <= j < |bs| && KeyOf(bs[i]) == keys[0] && KeyOf(bs[j]) == keys[n];
      assert Expirable(bs[i]) && !Expirable(bs[j]);
    } else {
      assert n == |keys| ==> keys[..n] == keys;
    }
  }

  lemma {:induction false} ShownAs(c: Catalog, k: RecordKey)
    requires Keyed(c) && k in c.records && KeySet(c.global) == c.records.Keys
    ensures GlobalView(k, c.records[k]) in Backups(c)
  {
    assert k in KeySet(c.global);
    GlobalListIsRecords(c);
  }

  // So a destroy whose stamping stopped in between loses backups it never stamped:
  // once the stamped ones have expired, every sweep in which nothing fails takes
  // the others along.
  lemma {:induction false} UnstampedRecordIsSwept(c: Catalog, s: string, st: Stamp, n: nat, now: int,
                                                  objects: set<string>,
                                                  c2: Catalog, objects2: set<string>)
    requires Aligned(c) && s != "" && Unstamped(c, s) && 0 < n < |BackupsOf(c, s)| && st.until <= now
    requires var c1 := StampedPart(c, s, st, n); var eligible := Eligible(Backups(c1), now);
             Progress(c1, objects, eligible, eligible, true, true, c2, objects2)
    ensures var c1 := StampedPart(c, s, st, n);
            && MarkOutcome(c, s, st, NoErrors(|SnapshotsOf(c, s)|), c1, false)
            && (forall configs, born ::
                 Step(World(c1, configs, born, objects), Move(Sweep(now), World(c2, configs, born, objects2))))
            && exists k :: k in c1.records && k.server == s && c1.records[k].deletedAt.None? && k !in c2.records
  {
    var c1, keys := StampedPart(c, s, st, n), ServerKeys(c, s);
    HaltedIsEligible(c, s, st, n, now);
    StampedPartCovered(c, s, st, n);
    SweptEmpty(c1, objects, Eligible(Backups(c1), now), c2, objects2, s);
    forall configs, born
      ensures Step(World(c1, configs, born, objects), Move(Sweep(now), World(c2, configs, born, objects2)))
    {
      CleanSweepIsStep(World(c1, configs, born, objects), now, true, c2, objects2);
    }
    UnstampedKey(c, s, st, n);
    assert keys[n] !in c2.records;
  }

  lemma {:induction false} SweptEmpty(c: Catalog, objects: set<string>, eligible: set<string>,
                                      c': Catalog, objects': set<string>, s: string)
    requires Progress(c, objects, eligible, eligible, true, true, c', objects') && s in eligible && Covered(c, s)
    ensures NoRecordOf(c', s)
  {
    assert Emptied(c', objects', s);
  }

  lemma {:induction false} UnstampedKey(c: Catalog, s: string, st: Stamp, n: nat)
    requires Aligned(c) && Unstamped(c, s) && n < |BackupsOf(c, s)|
    ensures var c1 := StampedPart(c, s, st, n);
            && MarkOutcome(c, s, st, NoErrors(|SnapshotsOf(c, s)|), c1, false)
            && |ServerKeys(c, s)| == |BackupsOf(c, s)|
            && ServerKeys(c, s)[n].server == s && ServerKeys(c, s)[n] in c1.records
            && c1.records[ServerKeys(c, s)[n]].deletedAt.None?
  {
    var keys := ServerKeys(c, s);
    StampedPartEffect(c, s, st, n);
    AlignedListing(c, s);
    assert keys[n] in keys;
    assert forall i | 0 <= i < n :: keys[..n][i] != keys[n];
  }

  // Two reports are enough to get there: a stamping can then stop in between.
  lemma {:induction false} TwoReports(a: Backup, b: Backup, c1: Catalog, c2: Catalog)
    requires a.server == b.server && a.snapshot != b.snapshot && a.deletedAt.None? && b.deletedAt.None?
    requires UpsertOutcome(EMPTY, a, c1, true) && UpsertOutcome(c1, b, c2, true)
    ensures Aligned(c2) && Unstamped(c2, a.server) && |BackupsOf(c2, a.server)| == 2
  {
    assert Aligned(EMPTY);
    UpsertAligned(EMPTY, a, c1);
    UpsertAligned(c1, b, c2);
    AlignedListing(c2, a.server);
    assert SnapshotsOf(c2, a.server) == [a.snapshot, b.snapshot];
    assert |RecordKeys(a.server, BackupsOf(c2, a.server))| == 2;
  }

  lemma {:induction false} StampedPartCovered(c: Catalog, s: string, st: Stamp, n: nat)
    requires Aligned(c) && n <= |BackupsOf(c, s)|
    ensures Covered(StampedPart(c, s, st, n), s)
  {
    StampedPartEffect(c, s, st, n);
    AlignedListing(c, s);
    forall k | k in c.records && k.server == s ensures k.snapshot in SnapshotsOf(c, s) {
      assert k in ServerKeys(c, s);
    }
  }

  lemma {:induction false} HaltedIsEligible(c: Catalog, s: string, st: Stamp, n: nat, now: int)
    requires Aligned(c) && s != "" && Unstamped(c, s) && 0 < n <= |BackupsOf(c, s)| && st.until <= now
    ensures s in Eligible(Backups(StampedPart(c, s, st, n)), now)
  {
    var bs, keys := Backups(StampedPart(c, s, st, n)), ServerKeys(c, s);
    StampedPartListing(c, s, st, n);
    assert keys[..n][0] == keys[0] && Lists(bs, keys[0]);
    var i :| 0 <= i < |bs| && KeyOf(bs[i]) == keys[0];
    ExpiredIsEligible(bs, s, st.until, now, i);
  }

  lemma {:induction false} ExpiredIsEligible(bs: seq<Backup>, s: string, until: int, now: int, i: nat)
    requires i < |bs| && Expirable(bs[i]) && bs[i].server == s && until <= now
    requires forall j | 0 <= j < |bs| && bs[j].server == s && Expirable(bs[j]) :: bs[j].retentionUntil == Some(until)
    ensures s in Eligible(bs, now)
  {
    EligibleIff(bs, now, s);
  }

  // ---- A destroy that stopped halfway ----

  // The server has lost its configuration, but nothing it left was stamped.
  ghost predicate Orphaned(w: World, s: string) {
    && Keyed(w.cat) && w.configs <= w.born && (forall t | t in w.born :: '/' !in t)
    && (forall k | k in w.cat.records :: k.server in w.born)
    && s in w.born && s !in w.configs && s != "" && Unstamped(w.cat, s) && Findable(w.cat, s)
  }

  // What the server left is as it was.
  ghost predicate Retained(w: World, s: string, w': World) {
    && (forall k | k in w.cat.records && k.server == s :: k in w'.cat.records && w'.cat.records[k] == w.cat.records[k])
    && (forall o | o in w.objects && Prefix(s) <= o :: o in w'.objects)
  }

  predicate Destroys(e: Move, s: string) { e.action.Destroy? && e.action.server == s }

  // Whoever is eligible has a record.
  lemma {:induction false} EligibleHasRecord(c: Catalog, now: int, s: string)
    requires Keyed(c) && s in Eligible(Backups(c), now)
    ensures exists k :: k in c.records && k.server == s && c.records[k].deletedAt.Some?
  {
    EligibleIff(Backups(c), now, s);
    GlobalListIsRecords(c);
    var i :| 0 <= i < |Backups(c)| && Expirable(Backups(c)[i]) && Backups(c)[i].server == s;
    assert KeyOf(Backups(c)[i]) in c.records;
  }

  lemma {:induction false} SweepRetains(w: World, now: int, w': World, s: string)
    requires Orphaned(w, s) && Step(w, Move(Sweep(now), w'))
    ensures Orphaned(w', s) && Retained(w, s, w')
  {
    var eligible := Eligible(Backups(w.cat), now);
    if s in eligible { EligibleHasRecord(w.cat, now, s); }
    forall o | o in w.objects && Prefix(s) <= o ensures o in w'.objects {
      if o !in w'.objects {
        var t :| t in eligible && Prefix(t) <= o;
        EligibleHasRecord(w.cat, now, t);
        PrefixesDisjoint(s, t, o);
      }
    }
  }

  lemma {:induction false} StepRetains(w: World, e: Move, s: string)
    requires Orphaned(w, s) && Step(w, e) && !Destroys(e, s)
    ensures Orphaned(e.after, s) && Retained(w, s, e.after)
  {
    match e.action
    case Create(_) =>
    case Report(b) => if b.server in w.configs { AcknowledgedIsPresent(w.cat, b, e.after.cat); }
    case PutObject(_) =>
    case Destroy(t, st) => MarkEffect(w.cat, t, st, NoErrors(|SnapshotsOf(w.cat, t)|), e.after.cat, true);
    case Sweep(now) => SweepRetains(w, now, e.after, s);
  }

  // As long as the server is not destroyed again, no run takes anything it left.
  lemma {:induction false} OrphanRetained(w: World, es: seq<Move>, s: string)
    requires Orphaned(w, s) && Run(w, es) && forall i | 0 <= i < |es| :: !Destroys(es[i], s)
    ensures forall i | 0 <= i < |es| :: Orphaned(es[i].after, s) && Retained(w, s, es[i].after)
    decreases |es|
  {
    if es == [] {
    } else {
      StepRetains(w, es[0], s);
      assert forall i | 0 <= i < |es[1..]| :: es[1..][i] == es[i + 1];
      OrphanRetained(es[0].after, es[1..], s);
      forall i | 0 <= i < |es| ensures Orphaned(es[i].after, s) && Retained(w, s, es[i].after) {
        if i > 0 { assert es[i] == es[1..][i - 1]; }
      }
    }
  }

  // A destroy without a fault stamps all that can be found, and the first sweep after
  // the retention time in which nothing fails takes it.
  lemma {:induction false} DestroyedIsSwept(w: World, s: string, st: Stamp, w1: World, now: int,
                                            c2: Catalog, objects2: set<string>)
    requires Keyed(w.cat) && Findable(w.cat, s) && s != "" && st.until <= now
    requires Step(w, Move(Destroy(s, st), w1))
    requires var eligible := Eligible(Backups(w1.cat), now);
             Progress(w1.cat, w1.objects, eligible, eligible, true, true, c2, objects2)
    ensures Step(w1, Move(Sweep(now), w1.(cat := c2, objects := objects2)))
    ensures NoRecordOf(c2, s) && (NoRecordOf(w.cat, s) || Emptied(c2, objects2, s))
  {
    DestroyStampsAll(w, s, st, w1);
    CleanSweepIsStep(w1, now, true, c2, objects2);
    DueIsSwept(w1.cat, w1.objects, s, now, c2, objects2);
  }

  lemma {:induction false} DestroyStampsAll(w: World, s: string, st: Stamp, w1: World)
    requires Keyed(w.cat) && Findable(w.cat, s) && Step(w, Move(Destroy(s, st), w1))
    ensures Keyed(w1.cat) && Findable(w1.cat, s) && AllDue(w1.cat, s, st.until)
    ensures w1.cat.records.Keys == w.cat.records.Keys
  {
    MarkEffect(w.cat, s, st, NoErrors(|SnapshotsOf(w.cat, s)|), w1.cat, true);
    assert SnapshotsOf(w1.cat, s) == SnapshotsOf(w.cat, s);
    forall k | k in w.cat.records && k.server == s ensures k in RecordKeys(s, BackupsOf(w.cat, s)) {
      RecordIsListed(w.cat, s, k.snapshot);
      assert k == RecordKey(s, k.snapshot);
    }
  }

  // So what a halfway destroy left is kept through every run and goes with the next
  // destroy.
  lemma {:induction false} OrphanUntilDestroyed(w: World, es: seq<Move>, s: string, st: Stamp, w1: World, now: int,
                                                c2: Catalog, objects2: set<string>)
    requires Orphaned(w, s) && Run(w, es) && forall i | 0 <= i < |es| :: !Destroys(es[i], s)
    requires Step(Last(w, es), Move(Destroy(s, st), w1)) && st.until <= now
    requires var eligible := Eligible(Backups(w1.cat), now);
             Progress(w1.cat, w1.objects, eligible, eligible, true, true, c2, objects2)
    ensures Retained(w, s, Last(w, es)) && NoRecordOf(c2, s) && (NoRecordOf(w.cat, s) || Emptied(c2, objects2, s))
  {
    OrphanRetained(w, es, s);
    DestroyedIsSwept(Last(w, es), s, st, w1, now, c2, objects2);
  }

  function Last(w: World, es: seq<Move>): World { if es == [] then w else es[|es| - 1].after }
}
