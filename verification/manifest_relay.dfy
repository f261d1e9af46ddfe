// The agent's relay of backup manifests to the controller: at least once towards
// the controller, once in its catalog.
module ManifestRelay {
  import opened Common
  import opened BackupCatalog
  import opened BackupCatalogLaws
  import opened BackupManifest
  import BackupRetention

  datatype Manifest = Manifest(server: string, snapshot: string, prefix: string, status: string, details: string)

  // What a file in the manifest directory holds.
  datatype File = Parsable(manifest: Manifest) | Garbage

  datatype Answer = Acknowledged | HttpError(code: int) | Unreachable

  // The record of a report, with the configuration the server has then.
  function ToBackup(m: Manifest, config: SourceConfig): Backup {
    Backup(RecordId(m.server, m.snapshot), m.server, m.snapshot, m.prefix, m.status, m.details, None, None,
           Some(config))
  }

  // What a record says of the report, and that it carries no stamp.
  ghost predicate ReportOf(m: Manifest, b: Backup) {
    && b.id == m.server + ":" + m.snapshot && b.server == m.server && b.snapshot == m.snapshot
    && b.prefix == m.prefix && b.status == m.status && b.details == m.details
    && b.deletedAt == None && b.retentionUntil == None && b.source.Some?
  }

  function KeyFor(m: Manifest): RecordKey { RecordKey(m.server, m.snapshot) }

  predicate Complete(m: Manifest) { m.server != "" && m.snapshot != "" && m.prefix != "" }

  // The controller's own checks on a report; failing one answers 400.
  predicate Acceptable(m: Manifest) {
    m.prefix == BackupRetention.Prefix(m.server) && m.status in {"COMPLETED", "FAILED"}
  }

  // What the relay can deliver.
  predicate Deliverable(file: File) { file.Parsable? && Complete(file.manifest) && Acceptable(file.manifest) }

  predicate IsPermanentRejection(a: Answer) { a == HttpError(400) }

  // The keys of the records ListBackups shows, in order.
  function ListedKeys(c: Catalog): seq<RecordKey> {
    seq(|Backups(c)|, i requires 0 <= i < |Backups(c)| => KeyOf(Backups(c)[i]))
  }

  // The record of this key is shown, and no record is shown twice.
  ghost predicate ListedOnce(c: Catalog, k: RecordKey) {
    k in ListedKeys(c) && NoDup(ListedKeys(c))
  }

  lemma {:induction false} PresentIsListedOnce(c: Catalog, k: RecordKey)
    requires Nested(c) && Present(c, k)
    ensures ListedOnce(c, k)
  {
    forall i | 0 <= i < |c.global| ensures c.global[i] in c.records {
      assert RecordKey(c.global[i].server, c.global[i].snapshot) == c.global[i];
    }
    FetchTotal(c.records, c.global);
    assert ListedKeys(c) == c.global;
  }

  // A manifest and the name it was written under.
  datatype Written = Written(name: string, file: File)

  // What the agent holds of its manifests, and those whose report was acknowledged.
  datatype Shelf = Shelf(queued: map<string, File>, quarantined: map<Aside, File>, acked: set<Written>)

  predicate Holds<K(==), V(==)>(m: map<K, V>, k: K, v: V) { k in m && m[k] == v }

  predicate IsAside(s: Shelf, w: Written) {
    Holds(s.quarantined, Invalid(w.name), w.file) || Holds(s.quarantined, Rejected(w.name), w.file)
  }

  // The manifest is still there, or its report was acknowledged.
  predicate Accounted(s: Shelf, w: Written) {
    Holds(s.queued, w.name, w.file) || IsAside(s, w) || w in s.acked
  }

  // Every acknowledged manifest has its record in a nested catalog.
  ghost predicate Catalogued(c: Catalog, acked: set<Written>) {
    Nested(c) && forall w | w in acked :: w.file.Parsable? && Present(c, KeyFor(w.file.manifest))
  }

  lemma CataloguedOnAck(c: Catalog, acked: set<Written>, w: Written)
    requires Catalogued(c, acked) && w.file.Parsable? && Present(c, KeyFor(w.file.manifest))
    ensures Catalogued(c, acked + {w})
  {}

  // Why a file may be set aside.
  ghost predicate Justified(w: Written, misread: set<string>) {
    w.name in misread || w.file.Garbage? || !Complete(w.file.manifest) || !Acceptable(w.file.manifest)
  }

  // Every manifest ever written is queued, quarantined or acknowledged, with its
  // content; nothing else is, and what is quarantined is so rightly.
  ghost predicate Conserved(s: Shelf, saved: set<Written>, misread: set<string>) {
    && (forall w | w in saved :: Accounted(s, w))
    && s.acked <= saved
    && (forall f | f in s.queued :: Written(f, s.queued[f]) in saved)
    && (forall a | a in s.quarantined ::
         Written(a.name, s.quarantined[a]) in saved && Justified(Written(a.name, s.quarantined[a]), misread))
  }

  // No two contents were written under one name.
  ghost predicate OneContent(saved: set<Written>) {
    forall w, v | w in saved && v in saved && w.name == v.name :: w == v
  }

  function Support(m: multiset<string>): set<string> { set f | f in m }

  function Dequeued(s: Shelf, f: string): Shelf { s.(queued := s.queued - {f}) }

  function SetAsideAs(s: Shelf, a: Aside): Shelf
    requires a.name in s.queued
  {
    Dequeued(s, a.name).(quarantined := s.quarantined[a := s.queued[a.name]])
  }

  lemma {:induction false} ConservedOnAck(s: Shelf, saved: set<Written>, misread: set<string>, f: string)
    requires Conserved(s, saved, misread) && f in s.queued
    ensures var s' := s.(acked := s.acked + {Written(f, s.queued[f])});
            && Conserved(s', saved, misread) && Conserved(Dequeued(s', f), saved, misread)
            && Advanced(s, s') && Advanced(s, Dequeued(s', f))
  {
    var s' := s.(acked := s.acked + {Written(f, s.queued[f])});
    forall w | w in saved ensures Accounted(s', w) && Accounted(Dequeued(s', f), w) {
      assert Accounted(s, w);
    }
  }

  // Setting a file aside loses nothing exactly if what was there under its new name
  // is accounted for elsewhere.
  lemma {:induction false} ConservedOnQuarantine(s: Shelf, saved: set<Written>, misread: set<string>, a: Aside)
    requires Conserved(s, saved, misread) && a.name in s.queued
    requires Justified(Written(a.name, s.queued[a.name]), misread)
    ensures Conserved(SetAsideAs(s, a), saved, misread) <==>
              a !in s.quarantined || Accounted(SetAsideAs(s, a), Written(a.name, s.quarantined[a]))
  {
    var s' := SetAsideAs(s, a);
    if a !in s.quarantined || Accounted(s', Written(a.name, s.quarantined[a])) {
      forall w | w in saved ensures Accounted(s', w) { assert Accounted(s, w); }
    }
  }

  lemma {:induction false} SameContentAside(s: Shelf, saved: set<Written>, misread: set<string>, a: Aside)
    requires Conserved(s, saved, misread) && a.name in s.queued && OneContent(saved)
    ensures a in s.quarantined ==> Accounted(SetAsideAs(s, a), Written(a.name, s.quarantined[a]))
    ensures Advanced(s, SetAsideAs(s, a))
  {
    assert Written(a.name, s.queued[a.name]) in saved;
    if a in s.quarantined { assert Written(a.name, s.quarantined[a]) in saved; }
  }

  // What was queued still is, or was acknowledged or set aside, and that stays so.
  ghost predicate Advanced(s: Shelf, s': Shelf) {
    && (forall f | f in s.queued :: Accounted(s', Written(f, s.queued[f])))
    && (forall a | a in s.quarantined :: Holds(s'.quarantined, a, s.quarantined[a]))
    && s.acked <= s'.acked
  }

  // A file that could be delivered was acknowledged, any other one set aside.
  ghost predicate Settled(w: Written, s: Shelf) { if Deliverable(w.file) then w in s.acked else IsAside(s, w) }

  // Of the files in q, those outside `left` are settled, and the queue holds the rest
  // and nothing else but what has arrived.
  ghost predicate Drained(q: map<string, File>, left: set<string>, arrived: set<Written>, s: Shelf) {
    && (forall f | f in left :: f in q && Holds(s.queued, f, q[f]))
    && (forall f | f in s.queued :: f in left || Written(f, s.queued[f]) in arrived)
    && forall f | f in q && f !in left :: Settled(Written(f, q[f]), s)
  }

  lemma {:induction false} DrainedOneMore(q: map<string, File>, left: set<string>, arrived: set<Written>, f: string,
                                          s: Shelf, s': Shelf)
    requires f in left && Drained(q, left, arrived, s)
    requires Advanced(s, s') && s'.queued == s.queued - {f} && Settled(Written(f, s.queued[f]), s')
    ensures Drained(q, left - {f}, arrived, s')
  {
    forall x | x in q && x !in left - {f} ensures Settled(Written(x, q[x]), s') {
      if x != f { assert Settled(Written(x, q[x]), s); }
    }
  }

  // Arrivals take nothing away.
  ghost predicate Grown(s: Shelf, arrived: set<Written>, s': Shelf) {
    && s'.quarantined == s.quarantined && s'.acked == s.acked
    && (forall f | f in s.queued :: Holds(s'.queued, f, s.queued[f]))
    && forall f | f in s'.queued :: f in s.queued || Written(f, s'.queued[f]) in arrived
  }

  lemma {:induction false} DrainedGrows(q: map<string, File>, left: set<string>, arrived: set<Written>, s: Shelf,
                                        more: set<Written>, s': Shelf)
    requires Grown(s, more, s')
    ensures Advanced(s, s') && (Drained(q, left, arrived, s) ==> Drained(q, left, arrived + more, s'))
  {
    if Drained(q, left, arrived, s) {
      forall f | f in s'.queued ensures f in left || Written(f, s'.queued[f]) in arrived + more {
        if f in s.queued { assert Holds(s'.queued, f, s.queued[f]); }
      }
      forall f | f in q && f !in left ensures Settled(Written(f, q[f]), s') {
        assert Settled(Written(f, q[f]), s);
      }
    }
  }

  lemma AdvancedSelf(s: Shelf)
    ensures Advanced(s, s)
  {}

  lemma {:induction false} AdvancedTwice(s: Shelf, s': Shelf, s'': Shelf)
    requires Advanced(s, s') && Advanced(s', s'')
    ensures Advanced(s, s'')
  {
    forall f | f in s.queued ensures Accounted(s'', Written(f, s.queued[f])) {
      assert Accounted(s', Written(f, s.queued[f]));
    }
  }

  lemma {:induction false} ConservedOnMisread(s: Shelf, saved: set<Written>, misread: set<string>, f: string)
    requires Conserved(s, saved, misread)
    ensures Conserved(s, saved, misread + {f})
  {
    forall a | a in s.quarantined ensures Justified(Written(a.name, s.quarantined[a]), misread + {f}) {
      assert Justified(Written(a.name, s.quarantined[a]), misread);
    }
  }

  // Writing a manifest, over whatever has its name.
  function WrittenTo(s: Shelf, w: Written): Shelf { s.(queued := s.queued[w.name := w.file]) }

  // It loses nothing exactly if its name is not queued, or holds the same content, or
  // content that is accounted for elsewhere.
  ghost predicate Overwritable(s: Shelf, w: Written) {
    w.name in s.queued ==>
      var was := Written(w.name, s.queued[w.name]); was == w || was in s.acked || IsAside(s, was)
  }

  lemma {:induction false} ConservedOnSave(s: Shelf, saved: set<Written>, misread: set<string>, w: Written)
    requires Conserved(s, saved, misread)
    ensures Conserved(WrittenTo(s, w), saved + {w}, misread) <==> Overwritable(s, w)
    ensures OneContent(saved + {w}) ==> Overwritable(s, w)
  {
    var s' := WrittenTo(s, w);
    if w.name in s.queued { assert Written(w.name, s.queued[w.name]) in saved; }
    if Overwritable(s, w) {
      forall v | v in saved + {w} ensures Accounted(s', v) { assert v in saved ==> Accounted(s, v); }
    } else {
      assert !Accounted(s', Written(w.name, s.queued[w.name]));
    }
  }

  // Two manifests written one after the other are both kept exactly if they do not
  // share a name, or are the same: a name per second is not enough.
  lemma {:induction false} TwoSavesKeptIff(w: Written, v: Written)
    ensures Conserved(WrittenTo(WrittenTo(Shelf(map[], map[], {}), w), v), {w, v}, {})
            <==> (w.name == v.name ==> w == v)
  {
    var s := WrittenTo(Shelf(map[], map[], {}), w);
    ConservedOnSave(s, {w}, {}, v);
    assert {w} + {v} == {w, v};
  }

  class MachineAgent {
    const db: DaprDB                      // the controller's store
    const mayWrite: Written -> bool       // what the backup hook may write
    var queued: map<string, File>         // manifest-*.json
    var quarantined: map<Aside, File>     // renamed to *.invalid or *.rejected
    ghost var saved: set<Written>         // every manifest ever written
    ghost var acked: set<Written>         // those whose report was acknowledged
    ghost var faults: nat                 // what went wrong outside the store
    ghost var failedReads: multiset<string>     // of which, reads of a file
    ghost var failedRenames: multiset<string>   // of which, renames of a file

    // Whether a file operation or a request succeeds.
    method Call() returns (ok: bool)
      modifies this`faults
      ensures faults == old(faults) + (if ok then 0 else 1)
    {
      ok := *;
      if !ok { faults := faults + 1; }
    }

    ghost function Faults(): nat
      reads this, db
    {
      faults + db.faults
    }

    ghost function View(): Shelf
      reads this
    {
      Shelf(queued, quarantined, acked)
    }

    // Nothing is lost.
    ghost predicate Kept()
      reads this
    {
      Conserved(View(), saved, Support(failedReads))
    }

    // The hook never uses a name for two contents.
    ghost predicate Distinct() { forall w, v | mayWrite(w) && mayWrite(v) && w.name == v.name :: w == v }

    // Nothing is lost, and what was acknowledged is in the catalog.
    ghost predicate Valid()
      reads this, db
    {
      Kept() && Distinct() && (forall w | w in saved :: mayWrite(w)) && Catalogued(db.cat, acked)
    }

    constructor (db: DaprDB, mayWrite: Written -> bool)
      requires Nested(db.cat)
      ensures Kept() && (Distinct() ==> Valid()) && this.db == db && this.mayWrite == mayWrite && saved == {}
    {
      this.db, this.mayWrite := db, mayWrite;
      queued, quarantined, saved, acked, faults := map[], map[], {}, {}, 0;
      failedReads, failedRenames := multiset{}, multiset{};
    }

    // However often a report was delivered, its snapshot is listed once.
    lemma AcknowledgedListedOnce(w: Written)
      requires Valid() && w in acked
      ensures ListedOnce(db.cat, RecordKey(w.file.manifest.server, w.file.manifest.snapshot))
    {
      PresentIsListedOnce(db.cat, KeyFor(w.file.manifest));
    }

    // What could have been delivered is quarantined only if a read of it failed.
    lemma QuarantinedForCause(a: Aside)
      requires Kept() && a in quarantined
      ensures Deliverable(quarantined[a]) ==> a.name in failedReads
    {
      assert Justified(Written(a.name, View().quarantined[a]), Support(failedReads));
    }

    lemma NothingMisread()
      requires Kept() && failedReads == multiset{}
      ensures forall a | a in quarantined :: !Deliverable(quarantined[a])
    {
      forall a | a in quarantined ensures !Deliverable(quarantined[a]) { QuarantinedForCause(a); }
    }

    // The backup hook writes one file per backup, named by its time. Nothing is lost
    // as long as no name is used for two contents, and before that exactly if what is
    // overwritten is accounted for elsewhere.
    method Save(time: Instant, file: File) returns (ok: bool)
      requires Kept()
      modifies this`queued, this`saved, this`faults
      ensures saved == if ok then old(saved) + {Written(Filename(time), file)} else old(saved)
      ensures View() == if ok then WrittenTo(old(View()), Written(Filename(time), file)) else old(View())
      ensures faults == old(faults) + (if ok then 0 else 1)
      ensures Kept() <==> !ok || Overwritable(old(View()), Written(Filename(time), file))
      ensures old(Valid()) && mayWrite(Written(Filename(time), file)) ==>
                Valid() && Grown(old(View()), {Written(Filename(time), file)}, View())
    {
      var name := Filename(time);
      ghost var s, w := View(), Written(name, file);
      ConservedOnSave(s, saved, Support(failedReads), w);
      if Valid() && mayWrite(w) { GrownOnSave(s, saved, Support(failedReads), w); }
      ok := Call();
      if ok {
        queued, saved := queued[name := file], saved + {w};
        assert View() == WrittenTo(s, w);
      } else {
        assert View() == s;
      }
    }

    // The controller's end of a report: what fails before the checks is anything
    // but a 400, and nothing but the catalog update touches the store.
    method HandleBackupReport(m: Manifest) returns (a: Answer, ghost b: Backup)
      modifies this`faults, db
      ensures ReportOf(m, b)
      ensures a == Acknowledged ==> UpsertOutcome(old(db.cat), b, db.cat, true)
      ensures a == Acknowledged ==>
                Present(db.cat, RecordKey(m.server, m.snapshot))
                && db.cat.records[RecordKey(m.server, m.snapshot)] == b
      ensures db.cat == old(db.cat) || exists ok :: UpsertOutcome(old(db.cat), b, db.cat, ok)
      ensures a == HttpError(400) ==> !Acceptable(m)
      ensures Acceptable(m) <==>
                m.prefix == "servers/" + m.server + "/restic/" && (m.status == "COMPLETED" || m.status == "FAILED")
      ensures Faults() >= old(Faults())
      ensures Faults() == old(Faults()) ==> a == if Acceptable(m) then Acknowledged else HttpError(400)
    {
      var config: SourceConfig := *;
      b := ToBackup(m, config);
      var passed := Call();
      if !passed {
        var early: int := *;
        return HttpError(if early >= 300 && early != 400 then early else 500), b;
      }
      if !Acceptable(m) { return HttpError(400), b; }
      ghost var c := db.cat;
      var ok := db.UpsertBackup(ToBackup(m, config));
      if ok { AcknowledgedIsPresent(c, b, db.cat); }
      a := if ok then Acknowledged else HttpError(500);
    }

    // The answer may be lost on the way back.
    method SubmitBackupReport(m: Manifest) returns (a: Answer, ghost b: Backup)
      modifies this`faults, db
      ensures ReportOf(m, b)
      ensures a == Acknowledged ==> UpsertOutcome(old(db.cat), b, db.cat, true)
      ensures db.cat == old(db.cat) || exists ok :: UpsertOutcome(old(db.cat), b, db.cat, ok)
      ensures IsPermanentRejection(a) ==> !Acceptable(m)
      ensures Faults() >= old(Faults())
      ensures Faults() == old(Faults()) ==> a == if Acceptable(m) then Acknowledged else HttpError(400)
    {
      var reached := Call();
      if !reached {
        ghost var config: SourceConfig := *;
        return Unreachable, ToBackup(m, config);
      }
      a, b := HandleBackupReport(m);
      var answered := Call();
      if !answered { a := Unreachable; }
    }

    // A failed rename leaves the file queued; another one replaces what was set aside
    // under the same name before.
    method Quarantine(a: Aside)
      requires Kept() && OneContent(saved)
      requires a.name in queued && Justified(Written(a.name, queued[a.name]), Support(failedReads))
      modifies this`queued, this`quarantined, this`faults, this`failedRenames
      ensures Kept() && Advanced(old(View()), View()) && Renamed(old(View()), old(failedRenames), a)
      ensures faults == old(faults) + (if failedRenames == old(failedRenames) then 0 else 1)
    {
      ghost var s := View();
      OneMore(failedRenames, a.name);
      AdvancedSelf(s);
      SameContentAside(s, saved, Support(failedReads), a);
      ConservedOnQuarantine(s, saved, Support(failedReads), a);
      var ok := Call();
      if ok {
        quarantined := quarantined[a := queued[a.name]];
        queued := queued - {a.name};
        assert View() == SetAsideAs(s, a);
      } else {
        failedRenames := failedRenames + multiset{a.name};
        assert View() == s;
      }
    }

    // The rename succeeded, or failed and changed nothing.
    ghost predicate Renamed(s: Shelf, renames: multiset<string>, a: Aside)
      requires a.name in s.queued
      reads this
    {
      || (failedRenames == renames && View() == SetAsideAs(s, a))
      || (failedRenames == renames + multiset{a.name} && View() == s)
    }

    // The report was acknowledged: the file may go.
    method Acknowledge(f: string)
      requires Kept() && f in queued
      modifies this`queued, this`acked, this`faults
      ensures Kept() && acked == old(acked) + {Written(f, old(queued)[f])} && Advanced(old(View()), View())
      ensures queued == old(queued) || queued == old(queued) - {f}
      ensures faults >= old(faults) && (faults == old(faults) ==> queued == old(queued) - {f})
    {
      ConservedOnAck(View(), saved, Support(failedReads), f);
      acked := acked + {Written(f, queued[f])};
      var removed := Call();
      if removed { queued := queued - {f}; }
    }

    // A deliverable file is never set aside by the relay.
    method Relay(f: string, m: Manifest)
      requires Valid() && f in queued && queued[f] == Parsable(m) && Complete(m)
      modifies this`queued, this`quarantined, this`acked, this`faults, this`failedRenames, db
      ensures Valid() && Advanced(old(View()), View())
      ensures queued == old(queued) || queued == old(queued) - {f}
      ensures quarantined == old(quarantined)
              || (!Acceptable(m) && queued == old(queued) - {f}
                  && quarantined == old(quarantined)[Rejected(f) := Parsable(m)])
      ensures failedRenames == old(failedRenames) || failedRenames == old(failedRenames) + multiset{f}
      ensures Faults() >= old(Faults()) + |failedRenames| - |old(failedRenames)|
      ensures Faults() == old(Faults()) ==>
                queued == old(queued) - {f} && Settled(Written(f, Parsable(m)), View())
    {
      ghost var c := db.cat;
      var a;
      ghost var b;
      a, b := SubmitBackupReport(m);
      CatalogKeeps(c, b, db.cat, acked);
      if a == Acknowledged {
        AcknowledgedIsPresent(c, b, db.cat);
        CataloguedOnAck(db.cat, acked, Written(f, queued[f]));
        Acknowledge(f);
      } else if IsPermanentRejection(a) {
        Quarantine(Rejected(f));
      }
    }

    // Loads the file, and sets it aside if it is unreadable or incomplete.
    method Load(f: string) returns (relayed: Option<Manifest>)
      requires Kept() && OneContent(saved) && f in queued
      modifies this`queued, this`quarantined, this`faults, this`failedReads, this`failedRenames
      ensures Kept() && Advanced(old(View()), View())
      ensures failedReads == old(failedReads) || failedReads == old(failedReads) + multiset{f}
      ensures faults == old(faults) + |failedReads| - |old(failedReads)| + |failedRenames| - |old(failedRenames)|
      ensures relayed.Some? <==>
                failedReads == old(failedReads) && old(queued)[f].Parsable? && Complete(old(queued)[f].manifest)
      ensures relayed.Some? ==> old(queued)[f] == Parsable(relayed.value)
      ensures relayed.Some? ==> relayed.value.server != "" && relayed.value.snapshot != "" && relayed.value.prefix != ""
      ensures relayed.None? && failedReads == old(failedReads) && old(queued)[f].Parsable? ==>
                var m := old(queued)[f].manifest; m.server == "" || m.snapshot == "" || m.prefix == ""
      ensures relayed.Some? ==> View() == old(View()) && failedRenames == old(failedRenames)
      ensures relayed.None? ==>
                Renamed(old(View()), old(failedRenames),
                        if failedReads == old(failedReads) && old(queued)[f].Parsable? then Rejected(f) else Invalid(f))
    {
      relayed := None;
      OneMore(failedReads, f);
      var readable := Call();
      if !readable || queued[f].Garbage? {
        if !readable {
          ConservedOnMisread(View(), saved, Support(failedReads), f);
          failedReads := failedReads + multiset{f};
        }
        Quarantine(Invalid(f));
      } else if !Complete(queued[f].manifest) {
        Quarantine(Rejected(f));
      } else {
        relayed := Some(queued[f].manifest);
      }
    }

    // One file of a tick. If nothing goes wrong it is settled; a deliverable one is
    // set aside exactly if it could not be read and the rename succeeded.
    method ProcessFile(f: string)
      requires Valid() && f in queued
      modifies this, db
      ensures Valid() && saved == old(saved) && Advanced(old(View()), View())
      ensures queued == old(queued) || queued == old(queued) - {f}
      ensures forall a: Aside | a.name != f :: a in quarantined <==> a in old(quarantined)
      ensures failedReads == old(failedReads) || failedReads == old(failedReads) + multiset{f}
      ensures failedRenames == old(failedRenames) || failedRenames == old(failedRenames) + multiset{f}
      ensures Deliverable(old(queued)[f]) && Invalid(f) !in old(quarantined) ==>
                (Invalid(f) in quarantined <==> failedReads != old(failedReads) && failedRenames == old(failedRenames))
      ensures Faults() >= old(Faults()) + |failedReads| - |old(failedReads)| + |failedRenames| - |old(failedRenames)|
      ensures Faults() == old(Faults()) ==>
                queued == old(queued) - {f} && Settled(Written(f, old(queued)[f]), View())
    {
      OneMore(failedReads, f);
      OneMore(failedRenames, f);
      var loaded := Load(f);
      if loaded.Some? {
        Relay(f, loaded.value);
      }
    }

    // Someone else's report or stamping reaches the store; it may fail anywhere.
    method OtherReport(b: Backup)
      requires Valid()
      modifies db
      ensures Valid() && db.faults >= old(db.faults)
    {
      ghost var c := db.cat;
      var ok := db.UpsertBackup(b);
      OthersKeepCatalogued(c, Event(Upsert(b), ok, db.cat), acked);
    }

    method OtherStamping(s: string, st: Stamp)
      requires Valid()
      modifies db
      ensures Valid() && db.faults >= old(db.faults)
    {
      ghost var c := db.cat;
      var ok;
      ghost var errs;
      ok, errs := db.MarkServerBackupsDeleted(s, st);
      OthersKeepCatalogued(c, Event(Mark(s, st), ok, db.cat), acked);
    }

    // Manifests arrive and others act on the store, in any number and order.
    method OthersAct() returns (ghost arrived: set<Written>)
      requires Valid()
      modifies this`queued, this`saved, this`faults, db
      ensures Valid() && old(saved) <= saved && Grown(old(View()), arrived, View()) && Faults() >= old(Faults())
    {
      arrived := {};
      var n: nat := *;
      while n > 0
        invariant Valid() && old(saved) <= saved && Grown(old(View()), arrived, View()) && Faults() >= old(Faults())
      {
        ghost var before := View();
        var time: Instant, file: File := *, *;
        var s: string, st: Stamp, b: Backup := *, *, *;
        if {
          case mayWrite(Written(Filename(time), file)) =>
            var ok := Save(time, file);
            GrownTwice(old(View()), arrived, before, {Written(Filename(time), file)}, View());
            arrived := arrived + {Written(Filename(time), file)};
          case true => OtherStamping(s, st);
          case true => OtherReport(b);
        }
        n := n - 1;
      }
    }

    // A tick that began at `start` is under way.
    ghost predicate UnderWay(start: Shelf, left: set<string>, arrived: set<Written>, misreads: multiset<string>,
                             renames: multiset<string>, calm: bool)
      reads this
    {
      InTick(start, left, arrived, View(), misreads, failedReads, renames, failedRenames, calm)
    }

    method BetweenFiles(ghost start: Shelf, ghost left: set<string>, ghost arrived: set<Written>,
                        ghost misreads: multiset<string>, ghost renames: multiset<string>, ghost calm: bool)
      returns (ghost arrived': set<Written>)
      requires Valid() && UnderWay(start, left, arrived, misreads, renames, calm)
      modifies this`queued, this`saved, this`faults, db
      ensures Valid() && old(saved) <= saved && Faults() >= old(Faults())
      ensures UnderWay(start, left, arrived', misreads, renames, calm)
    {
      ghost var s := View();
      arrived' := OthersAct();
      DrainedGrows(start.queued, left, arrived, s, arrived', View());
      AdvancedTwice(start, s, View());
      forall f | f in left ensures Holds(queued, f, start.queued[f]) { assert Holds(s.queued, f, start.queued[f]); }
      arrived' := arrived + arrived';
    }

    method NextFile(f: string, ghost start: Shelf, ghost left: set<string>, ghost arrived: set<Written>,
                    ghost misreads: multiset<string>, ghost renames: multiset<string>, ghost calm: bool)
      requires Valid() && UnderWay(start, left, arrived, misreads, renames, calm) && f in left
      modifies this, db
      ensures Valid() && old(saved) <= saved
      ensures UnderWay(start, left - {f}, arrived, misreads, renames, calm && Faults() == old(Faults()))
      ensures Faults() >= old(Faults()) + |failedReads| - |old(failedReads)| + |failedRenames| - |old(failedRenames)|
      ensures |failedReads| >= |old(failedReads)| && |failedRenames| >= |old(failedRenames)|
    {
      ghost var s, misreads', renames' := View(), failedReads, failedRenames;
      OneMore(misreads', f);
      OneMore(renames', f);
      ProcessFile(f);
      InTickOneMore(start, left, arrived, f, s, View(), misreads, misreads', failedReads,
                    renames, renames', failedRenames, calm, Faults() == old(Faults()));
    }

    // One tick, with arrivals and steps of others between its files. A file leaves the
    // queue only acknowledged or quarantined. If nothing goes wrong the queue is empty
    // but for what has arrived, and just what could be delivered was; what could have
    // been is set aside exactly where a read failed and the rename did not.
    method ProcessBackupManifests() returns (ghost arrived: set<Written>)
      requires Valid()
      modifies this, db
      ensures Valid() && old(saved) <= saved && Advanced(old(View()), View())
      ensures Faults() == old(Faults()) ==> Drained(old(queued), {}, arrived, View())
      ensures SetAside(old(View()), {}, quarantined, old(failedReads), failedReads, old(failedRenames), failedRenames)
      ensures Faults() >= old(Faults()) + |failedReads| - |old(failedReads)| && |failedReads| >= |old(failedReads)|
    {
      ghost var start, misreads, renames := View(), failedReads, failedRenames;
      var matches := queued.Keys;
      AdvancedSelf(start);
      arrived := {};
      while matches != {}
        invariant Valid() && old(saved) <= saved
        invariant UnderWay(start, matches, arrived, misreads, renames, Faults() == old(Faults()))
        invariant Faults() >= old(Faults()) + |failedReads| - |misreads| + |failedRenames| - |renames|
        invariant |failedReads| >= |misreads| && |failedRenames| >= |renames|
        decreases matches
      {
        var f :| f in matches;
        ghost var calm := Faults() == old(Faults());
        arrived := BetweenFiles(start, matches, arrived, misreads, renames, calm);
        NextFile(f, start, matches, arrived, misreads, renames, calm);
        matches := matches - {f};
      }
    }

    method OneEvent(event: Happening)
      requires Valid() && (event.Arrival? ==> mayWrite(Written(Filename(event.time), event.file)))
      modifies this, db
      ensures Valid() && old(acked) <= acked && old(saved) <= saved
      ensures Faults() == old(Faults()) ==> Arrived(event) <= saved
      ensures |failedReads| >= |old(failedReads)|
      ensures Faults() >= old(Faults()) + |failedReads| - |old(failedReads)|
    {
      match event
      case Arrival(time, file) => var ok := Save(time, file);
      case Tick =>
        ghost var arrived;
        arrived := ProcessBackupManifests();
      case Reported(b) => OtherReport(b);
      case Stamping(s, st) => OtherStamping(s, st);
    }

    // Whole runs: manifests arrive, ticks pass, and others report and stamp backups, in
    // any order. At the end nothing is lost: Valid() accounts for every manifest
    // written. No more reads failed than things went wrong, so that without faults
    // nothing that could be delivered is quarantined.
    method Run(events: seq<Happening>)
      requires Valid() && forall w | w in Arrivals(events) :: mayWrite(w)
      modifies this, db
      ensures Valid() && old(acked) <= acked && old(saved) <= saved
      ensures Faults() == old(Faults()) ==> Arrivals(events) <= saved
      ensures Faults() >= old(Faults()) + |failedReads| - |old(failedReads)|
      ensures failedReads == multiset{} ==> forall a | a in quarantined :: !Deliverable(quarantined[a])
    {
      ghost var before, a := saved, acked;
      for n := 0 to |events|
        invariant Valid() && a <= acked && before <= saved && |failedReads| >= |old(failedReads)|
        invariant Faults() == old(Faults()) ==> Arrivals(events[..n]) <= saved
        invariant Faults() >= old(Faults()) + |failedReads| - |old(failedReads)|
      {
        ArrivalsGrow(events, n);
        OneEvent(events[n]);
      }
      assert events[..|events|] == events;
      if failedReads == multiset{} { NothingMisread(); }
    }
  }

  lemma {:induction false} GrownOnSave(s: Shelf, saved: set<Written>, misread: set<string>, w: Written)
    requires Conserved(s, saved, misread) && OneContent(saved + {w})
    ensures Grown(s, {w}, WrittenTo(s, w))
  {
    forall f | f in s.queued ensures Holds(WrittenTo(s, w).queued, f, s.queued[f]) {
      assert Written(f, s.queued[f]) in saved;
    }
  }

  lemma {:induction false} GrownTwice(s: Shelf, a: set<Written>, s': Shelf, b: set<Written>, s'': Shelf)
    requires Grown(s, a, s') && Grown(s', b, s'')
    ensures Grown(s, a + b, s'')
  {
    forall f | f in s''.queued ensures f in s.queued || Written(f, s''.queued[f]) in a + b {
      if f in s'.queued { assert Holds(s''.queued, f, s'.queued[f]); }
    }
  }

  lemma {:induction false} OneMore(m: multiset<string>, f: string)
    ensures Support(m + multiset{f}) == Support(m) + {f} && m + multiset{f} != m
    ensures |m + multiset{f}| == |m| + 1
  {
    assert (m + multiset{f})[f] == m[f] + 1;
  }

  // Of the files queued at s, those outside `left` have had their turn: a deliverable
  // one not set aside before is so now exactly if a read of it failed and no rename did.
  ghost predicate SetAside(s: Shelf, left: set<string>, quarantined: map<Aside, File>,
                           failedReads: multiset<string>, failedReads': multiset<string>,
                           failedRenames: multiset<string>, failedRenames': multiset<string>)
  {
    forall f | f in s.queued ::
      if f in left then
        && failedReads'[f] == failedReads[f] && failedRenames'[f] == failedRenames[f]
        && (Invalid(f) in quarantined <==> Invalid(f) in s.quarantined)
      else Deliverable(s.queued[f]) && Invalid(f) !in s.quarantined ==>
        (Invalid(f) in quarantined <==> failedReads'[f] > failedReads[f] && failedRenames'[f] == failedRenames[f])
  }

  lemma {:induction false} SetAsideOneMore(s: Shelf, left: set<string>, f: string,
                                           r': map<Aside, File>, r'': map<Aside, File>,
                                           d: multiset<string>, d': multiset<string>, d'': multiset<string>,
                                           n: multiset<string>, n': multiset<string>, n'': multiset<string>)
    requires f in left && f in s.queued && SetAside(s, left, r', d, d', n, n')
    requires forall a: Aside | a.name != f :: a in r'' <==> a in r'
    requires d'' == d' || d'' == d' + multiset{f}
    requires n'' == n' || n'' == n' + multiset{f}
    requires Deliverable(s.queued[f]) && Invalid(f) !in r' ==> (Invalid(f) in r'' <==> d'' != d' && n'' == n')
    ensures SetAside(s, left - {f}, r'', d, d'', n, n'')
  {
    OneMore(d', f);
    OneMore(n', f);
  }

  // A tick that began at `start` and has `left` to go; `calm` as long as nothing has
  // gone wrong.
  ghost predicate InTick(start: Shelf, left: set<string>, arrived: set<Written>, s: Shelf,
                         misreads: multiset<string>, failedReads: multiset<string>,
                         renames: multiset<string>, failedRenames: multiset<string>, calm: bool)
  {
    && Advanced(start, s)
    && (forall f | f in left :: f in start.queued && Holds(s.queued, f, start.queued[f]))
    && SetAside(start, left, s.quarantined, misreads, failedReads, renames, failedRenames)
    && (calm ==> Drained(start.queued, left, arrived, s))
  }

  // One file more, dealt with as ProcessFile does.
  lemma {:induction false} InTickOneMore(start: Shelf, left: set<string>, arrived: set<Written>, f: string,
                                         s: Shelf, s': Shelf,
                                         d: multiset<string>, d': multiset<string>, d'': multiset<string>,
                                         n: multiset<string>, n': multiset<string>, n'': multiset<string>,
                                         calm: bool, still: bool)
    requires InTick(start, left, arrived, s, d, d', n, n', calm) && f in left && Advanced(s, s')
    requires s'.queued == s.queued || s'.queued == s.queued - {f}
    requires forall a: Aside | a.name != f :: a in s'.quarantined <==> a in s.quarantined
    requires d'' == d' || d'' == d' + multiset{f}
    requires n'' == n' || n'' == n' + multiset{f}
    requires Deliverable(s.queued[f]) && Invalid(f) !in s.quarantined ==>
               (Invalid(f) in s'.quarantined <==> d'' != d' && n'' == n')
    requires still ==> s'.queued == s.queued - {f} && Settled(Written(f, s.queued[f]), s')
    ensures InTick(start, left - {f}, arrived, s', d, d'', n, n'', calm && still)
  {
    AdvancedTwice(start, s, s');
    SetAsideOneMore(start, left, f, s.quarantined, s'.quarantined, d, d', d'', n, n', n'');
    if calm && still { DrainedOneMore(start.queued, left, arrived, f, s, s'); }
  }

  // What happens to one agent's manifests and the catalog.
  datatype Happening =
    | Arrival(time: Instant, file: File)
    | Tick
    | Reported(backup: Backup)                 // by another agent
    | Stamping(server: string, stamp: Stamp)   // by a destroy

  function Arrived(event: Happening): set<Written> {
    if event.Arrival? then {Written(Filename(event.time), event.file)} else {}
  }

  // The manifests that arrive.
  function Arrivals(events: seq<Happening>): set<Written> {
    if events == [] then {} else Arrivals(events[..|events| - 1]) + Arrived(events[|events| - 1])
  }

  lemma {:induction false} ArrivalsGrow(events: seq<Happening>, n: nat)
    requires n < |events|
    ensures Arrivals(events[..n + 1]) == Arrivals(events[..n]) + Arrived(events[n])
    ensures Arrivals(events[..n + 1]) <= Arrivals(events)
  {
    assert events[..n + 1][..n] == events[..n];
    if n + 1 == |events| {
      assert events[..n + 1] == events;
    } else {
      var front := events[..|events| - 1];
      ArrivalsGrow(front, n);
      assert front[..n + 1] == events[..n + 1];
    }
  }

  // What others report and stamp loses nothing of what was acknowledged either.
  lemma {:induction false} OthersKeepCatalogued(c: Catalog, e: Event, acked: set<Written>)
    requires Catalogued(c, acked) && Step(c, e) && !e.op.Delete?
    ensures Catalogued(e.after, acked)
  {
    match e.op
    case Upsert(b) => CatalogKeeps(c, b, e.after, acked);
    case Mark(s, st) =>
      var errs: seq<bool> :| MarkOutcome(c, s, st, errs, e.after, e.ok);
      MarkEffect(c, s, st, errs, e.after, e.ok);
      assert forall t :: SnapshotsOf(e.after, t) == SnapshotsOf(c, t);
      forall w | w in acked ensures Present(e.after, KeyFor(w.file.manifest)) {
        assert Present(c, KeyFor(w.file.manifest));
      }
  }

  // A report, however it ends, loses nothing of what was acknowledged.
  lemma {:induction false} CatalogKeeps(c: Catalog, b: Backup, c': Catalog, acked: set<Written>)
    requires Catalogued(c, acked) && (c' == c || exists ok :: UpsertOutcome(c, b, c', ok))
    ensures Catalogued(c', acked)
  {
    if c' != c {
      var ok :| UpsertOutcome(c, b, c', ok);
      UpsertKeepsNested(c, b, c', ok);
      assert forall s | s != b.server :: SnapshotsOf(c', s) == SnapshotsOf(c, s);
      assert forall n | n in SnapshotsOf(c, b.server) :: n in SnapshotsOf(c', b.server);
      forall w | w in acked ensures Present(c', KeyFor(w.file.manifest)) {
        assert Present(c, KeyFor(w.file.manifest));
      }
    }
  }
}
