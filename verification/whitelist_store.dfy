// Whitelist entries in the state store: one record per instance and player, and
// one index of player ids per instance.
module WhitelistStore {
  import opened Common

  datatype Entry = Entry(username: string, uuid: string, addedAt: int, addedBy: string)
  datatype EntryKey = EntryKey(name: string, uuid: string)
  datatype Store = Store(entries: map<EntryKey, Entry>, index: map<string, seq<string>>)

  function IndexOf(c: Store, inst: string): seq<string> { if inst in c.index then c.index[inst] else [] }

  function Keys(inst: string, uuids: seq<string>): seq<EntryKey> {
    seq(|uuids|, i requires 0 <= i < |uuids| => EntryKey(inst, uuids[i]))
  }

  function Uuids(es: seq<Entry>): seq<string> { seq(|es|, i requires 0 <= i < |es| => es[i].uuid) }

  function Values(items: seq<(EntryKey, Entry)>): seq<Entry> {
    seq(|items|, i requires 0 <= i < |items| => items[i].1)
  }

  function Read(c: Store, inst: string, errs: seq<bool>): seq<Entry>
    requires |errs| == |IndexOf(c, inst)|
  {
    Values(Fetch(c.entries, Keys(inst, IndexOf(c, inst)), errs))
  }

  // The list as read without item errors.
  function Entries(c: Store, inst: string): seq<Entry> { Read(c, inst, NoErrors(|IndexOf(c, inst)|)) }

  // ---- What the operations do to the documents ----

  function WithEntry(c: Store, inst: string, e: Entry): Store { c.(entries := c.entries[EntryKey(inst, e.uuid) := e]) }

  function WithoutEntry(c: Store, inst: string, uuid: string): Store {
    c.(entries := c.entries - {EntryKey(inst, uuid)})
  }

  function WithIndex(c: Store, inst: string, uuids: seq<string>): Store { c.(index := c.index[inst := uuids]) }

  function SaveAll(c: Store, inst: string, es: seq<Entry>): Store {
    if es == [] then c else WithEntry(SaveAll(c, inst, es[..|es| - 1]), inst, es[|es| - 1])
  }

  ghost predicate AddOutcome(c: Store, inst: string, e: Entry, c': Store, ok: bool) {
    var c1 := WithEntry(c, inst, e);
    if ok then c' == if e.uuid in IndexOf(c, inst) then c1 else WithIndex(c1, inst, IndexOf(c, inst) + [e.uuid])
    else c' == c || c' == c1
  }

  ghost predicate RemoveOutcome(c: Store, inst: string, uuid: string, c': Store, ok: bool) {
    var c1 := WithoutEntry(c, inst, uuid);
    if ok then c' == WithIndex(c1, inst, Minus(IndexOf(c, inst), uuid)) else c' == c || c' == c1
  }

  // Deleting the old entries is best effort: `gone` is what it achieved.
  ghost predicate SetOutcome(c: Store, inst: string, es: seq<Entry>, gone: set<string>, c': Store, ok: bool) {
    && (forall u | u in gone :: u in IndexOf(c, inst))
    && var c1 := c.(entries := c.entries - set u | u in gone :: EntryKey(inst, u));
       if ok then c' == WithIndex(SaveAll(c1, inst, es), inst, Uuids(es))
       else c' == c || exists n: nat | n <= |es| :: c' == SaveAll(c1, inst, es[..n])
  }

  // `faults` counts the store calls that failed, `itemFaults` the items of bulk
  // reads that came back with an error.
  class DaprDB {
    var c: Store
    ghost var faults: nat
    ghost var itemFaults: nat

    // Whether a store call succeeds.
    method Call() returns (ok: bool)
      modifies this`faults
      ensures faults == old(faults) + (if ok then 0 else 1)
    {
      ok := *;
      if !ok { faults := faults + 1; }
    }

    method SaveEntry(inst: string, e: Entry) returns (ok: bool)
      modifies this`c, this`faults
      ensures faults == old(faults) + (if ok then 0 else 1)
      ensures c == if ok then WithEntry(old(c), inst, e) else old(c)
    {
      ok := Call();
      if ok { c := WithEntry(c, inst, e); }
    }

    method DeleteEntry(inst: string, uuid: string) returns (ok: bool)
      modifies this`c, this`faults
      ensures faults == old(faults) + (if ok then 0 else 1)
      ensures c == if ok then WithoutEntry(old(c), inst, uuid) else old(c)
    {
      ok := Call();
      if ok { c := WithoutEntry(c, inst, uuid); }
    }

    method GetWhitelistIndex(inst: string) returns (ok: bool, uuids: seq<string>)
      modifies this`faults
      ensures ok ==> uuids == IndexOf(c, inst)
      ensures faults == old(faults) + (if ok then 0 else 1)
    {
      ok := Call();
      uuids := if ok then IndexOf(c, inst) else [];
    }

    method SaveWhitelistIndex(inst: string, uuids: seq<string>) returns (ok: bool)
      modifies this`c, this`faults
      ensures faults == old(faults) + (if ok then 0 else 1)
      ensures c == if ok then WithIndex(old(c), inst, uuids) else old(c)
    {
      ok := Call();
      if ok { c := WithIndex(c, inst, uuids); }
    }

    method GetWhitelistEntries(inst: string) returns (ok: bool, es: seq<Entry>, ghost errs: seq<bool>)
      modifies this`faults, this`itemFaults
      ensures |errs| == |IndexOf(c, inst)|
      ensures ok ==> es == Read(c, inst, errs)
      ensures faults == old(faults) + (if ok then 0 else 1)
      ensures itemFaults >= old(itemFaults) && (itemFaults == old(itemFaults) ==> errs == NoErrors(|errs|))
    {
      var uuids;
      es, errs := [], NoErrors(|IndexOf(c, inst)|);
      ok, uuids := GetWhitelistIndex(inst);
      if !ok || uuids == [] { return; }
      ok := Call();
      if !ok { return; }
      var keys, items, i := Keys(inst, uuids), [], |uuids|;
      errs := [];
      while i > 0
        invariant 0 <= i <= |keys| && |errs| == |keys| - i
        invariant items == Fetch(c.entries, keys[i..], errs) && faults == old(faults)
        invariant itemFaults >= old(itemFaults) && (itemFaults == old(itemFaults) ==> errs == NoErrors(|errs|))
      {
        i := i - 1;
        var failed: bool := *;
        assert keys[i..][1..] == keys[i + 1..];
        if keys[i] in c.entries && !failed { items := [(keys[i], c.entries[keys[i]])] + items; }
        if failed { itemFaults := itemFaults + 1; }
        errs := [failed] + errs;
      }
      es := Values(items);
    }

    method AddWhitelistEntry(inst: string, e: Entry) returns (ok: bool)
      modifies this`c, this`faults
      ensures AddOutcome(old(c), inst, e, c, ok)
      ensures faults == old(faults) + (if ok then 0 else 1)
    {
      ok := SaveEntry(inst, e);
      if !ok { return; }
      var uuids;
      ok, uuids := GetWhitelistIndex(inst);
      if !ok { return; }
      var found := Contains(uuids, e.uuid);
      if found { return true; }
      ok := SaveWhitelistIndex(inst, uuids + [e.uuid]);
    }

    method RemoveWhitelistEntry(inst: string, uuid: string) returns (ok: bool)
      modifies this`c, this`faults
      ensures RemoveOutcome(old(c), inst, uuid, c, ok)
      ensures faults == old(faults) + (if ok then 0 else 1)
    {
      ok := DeleteEntry(inst, uuid);
      if !ok { return; }
      var uuids;
      ok, uuids := GetWhitelistIndex(inst);
      if !ok { return; }
      var kept := [];
      for i := 0 to |uuids|
        invariant kept == Minus(uuids[..i], uuid)
        invariant c == WithoutEntry(old(c), inst, uuid) && ok && faults == old(faults)
      {
        assert uuids[..i + 1] == uuids[..i] + [uuids[i]];
        MinusConcat(uuids[..i], [uuids[i]], uuid);
        if uuids[i] != uuid { kept := kept + [uuids[i]]; }
      }
      assert uuids[..|uuids|] == uuids;
      ok := SaveWhitelistIndex(inst, kept);
    }

    method SetWhitelistEntries(inst: string, es: seq<Entry>) returns (ok: bool, ghost gone: set<string>)
      modifies this`c, this`faults
      ensures SetOutcome(old(c), inst, es, gone, c, ok)
      ensures !ok ==> faults > old(faults)
      ensures faults == old(faults) ==> forall u | u in IndexOf(old(c), inst) :: u in gone
    {
      var uuids;
      gone := {};
      ok, uuids := GetWhitelistIndex(inst);
      if !ok { return; }
      for i := 0 to |uuids|
        invariant forall u | u in gone :: u in uuids
        invariant faults >= old(faults) && (faults == old(faults) ==> forall j | 0 <= j < i :: uuids[j] in gone)
        invariant c == old(c).(entries := old(c).entries - set u | u in gone :: EntryKey(inst, u))
      {
        var deleted := DeleteEntry(inst, uuids[i]);
        if deleted { gone := gone + {uuids[i]}; }
      }
      ghost var c1 := c;
      assert es[..0] == [];
      for i := 0 to |es|
        invariant ok && c == SaveAll(c1, inst, es[..i])
        invariant faults >= old(faults) && (faults == old(faults) ==> forall j | 0 <= j < |uuids| :: uuids[j] in gone)
      {
        assert es[..i + 1][..i] == es[..i];
        ok := SaveEntry(inst, es[i]);
        if !ok { return; }
      }
      assert es[..|es|] == es;
      ok := SaveWhitelistIndex(inst, Uuids(es));
    }
  }

  // ---- An insertion-ordered map of players ----

  function PlainAdd(es: seq<Entry>, e: Entry): seq<Entry> {
    if es == [] then [e] else if es[0].uuid == e.uuid then [e] + es[1..] else [es[0]] + PlainAdd(es[1..], e)
  }

  function PlainRemove(es: seq<Entry>, uuid: string): seq<Entry> {
    if es == [] then [] else (if es[0].uuid == uuid then [] else [es[0]]) + PlainRemove(es[1..], uuid)
  }

  // Indexes hold distinct ids, each with its record.
  ghost predicate InstanceInv(c: Store, inst: string) {
    && NoDup(IndexOf(c, inst))
    && forall u | u in IndexOf(c, inst) :: EntryKey(inst, u) in c.entries && c.entries[EntryKey(inst, u)].uuid == u
  }

  ghost predicate Inv(c: Store) { forall inst :: InstanceInv(c, inst) }

  // The entries of a list of ids, in order.
  function Lookup(c: Store, inst: string, uuids: seq<string>): seq<Entry>
    requires forall i | 0 <= i < |uuids| :: EntryKey(inst, uuids[i]) in c.entries
  {
    seq(|uuids|, i requires 0 <= i < |uuids| => c.entries[EntryKey(inst, uuids[i])])
  }

  lemma EntriesAreLookup(c: Store, inst: string)
    requires forall i | 0 <= i < |IndexOf(c, inst)| :: EntryKey(inst, IndexOf(c, inst)[i]) in c.entries
    ensures Entries(c, inst) == Lookup(c, inst, IndexOf(c, inst))
  {
    FetchTotal(c.entries, Keys(inst, IndexOf(c, inst)));
  }

  // Nothing of another instance changes.
  ghost predicate Untouched(c: Store, c': Store, inst: string) {
    forall other | other != inst :: IndexOf(c', other) == IndexOf(c, other)
      && forall u :: var k := EntryKey(other, u);
           (k in c'.entries <==> k in c.entries) && (k in c.entries ==> c'.entries[k] == c.entries[k])
  }

  lemma OthersRead(c: Store, c': Store, inst: string, other: string)
    requires Untouched(c, c', inst) && other != inst
    ensures Entries(c', other) == Entries(c, other)
  {
    FetchDependsOnKeys(c.entries, c'.entries, Keys(other, IndexOf(c, other)), NoErrors(|IndexOf(c, other)|));
  }

  lemma InvFromInstance(c: Store, c': Store, inst: string)
    requires Inv(c) && Untouched(c, c', inst) && InstanceInv(c', inst)
    ensures Inv(c')
  {
    forall other ensures InstanceInv(c', other) {
      assert InstanceInv(c, other);
    }
  }

  lemma {:induction false} LookupAfterAdd(c: Store, inst: string, uuids: seq<string>, e: Entry)
    requires NoDup(uuids)
    requires forall i | 0 <= i < |uuids| ::
             EntryKey(inst, uuids[i]) in c.entries
             && c.entries[EntryKey(inst, uuids[i])].uuid == uuids[i]
    ensures var c1 := WithEntry(c, inst, e);
            Lookup(c1, inst, if e.uuid in uuids then uuids else uuids + [e.uuid]) == PlainAdd(Lookup(c, inst, uuids), e)
  {
    var c1 := WithEntry(c, inst, e);
    if uuids == [] {
    } else {
      assert Lookup(c, inst, uuids)[1..] == Lookup(c, inst, uuids[1..]);
      if uuids[0] == e.uuid {
        assert Lookup(c1, inst, uuids) == [e] + Lookup(c, inst, uuids[1..]);
      } else {
        LookupAfterAdd(c, inst, uuids[1..], e);
        assert (uuids + [e.uuid])[1..] == uuids[1..] + [e.uuid];
      }
    }
  }

  lemma AddRefines(c: Store, inst: string, e: Entry, c': Store)
    requires Inv(c) && AddOutcome(c, inst, e, c', true)
    ensures Inv(c') && Untouched(c, c', inst)
    ensures Entries(c', inst) == PlainAdd(Entries(c, inst), e)
  {
    var uuids := IndexOf(c, inst);
    assert InstanceInv(c, inst);
    assert IndexOf(c', inst) == if e.uuid in uuids then uuids else uuids + [e.uuid];
    InvFromInstance(c, c', inst);
    EntriesAreLookup(c, inst);
    EntriesAreLookup(c', inst);
    LookupAfterAdd(c, inst, uuids, e);
  }

  lemma {:induction false} MinusMembers(uuids: seq<string>, uuid: string)
    requires NoDup(uuids)
    ensures forall u :: u in Minus(uuids, uuid) <==> u in uuids && u != uuid
    ensures NoDup(Minus(uuids, uuid))
  {
    if uuids == [] {
    } else {
      MinusMembers(uuids[1..], uuid);
      var rest := Minus(uuids[1..], uuid);
      assert uuids == [uuids[0]] + uuids[1..];
      if uuids[0] == uuid {
        assert Minus(uuids, uuid) == rest;
      } else {
        assert Minus(uuids, uuid) == [uuids[0]] + rest;
        assert forall i | 0 < i < |uuids| :: uuids[0] != uuids[i];
        assert uuids[0] !in rest;
      }
    }
  }

  lemma {:induction false} LookupAfterRemove(c: Store, inst: string, uuids: seq<string>, uuid: string)
    requires forall i | 0 <= i < |uuids| ::
             EntryKey(inst, uuids[i]) in c.entries
             && c.entries[EntryKey(inst, uuids[i])].uuid == uuids[i]
    requires forall i | 0 <= i < |Minus(uuids, uuid)| ::
             Minus(uuids, uuid)[i] != uuid
             && EntryKey(inst, Minus(uuids, uuid)[i]) in c.entries
    ensures Lookup(WithoutEntry(c, inst, uuid), inst, Minus(uuids, uuid)) == PlainRemove(Lookup(c, inst, uuids), uuid)
  {
    if uuids == [] {
    } else {
      assert Lookup(c, inst, uuids)[1..] == Lookup(c, inst, uuids[1..]);
      if uuids[0] == uuid {
        assert Minus(uuids, uuid) == Minus(uuids[1..], uuid);
      } else {
        assert Minus(uuids, uuid)[1..] == Minus(uuids[1..], uuid);
      }
      LookupAfterRemove(c, inst, uuids[1..], uuid);
    }
  }

  lemma RemoveRefines(c: Store, inst: string, uuid: string, c': Store)
    requires Inv(c) && RemoveOutcome(c, inst, uuid, c', true)
    ensures Inv(c') && Untouched(c, c', inst)
    ensures Entries(c', inst) == PlainRemove(Entries(c, inst), uuid)
    ensures EntryKey(inst, uuid) !in c'.entries
  {
    assert InstanceInv(c, inst);
    MinusMembers(IndexOf(c, inst), uuid);
    assert forall u | u in IndexOf(c', inst) :: EntryKey(inst, u) in c.entries && u != uuid;
    InvFromInstance(c, c', inst);
    EntriesAreLookup(c, inst);
    EntriesAreLookup(c', inst);
    LookupAfterRemove(c, inst, IndexOf(c, inst), uuid);
  }

  function Latest(es: seq<Entry>, uuid: string): (e: Entry)
    requires uuid in Uuids(es)
    ensures e in es && e.uuid == uuid
  {
    var n := |es| - 1;
    if es[n].uuid == uuid then es[n]
    else
      assert Uuids(es) == Uuids(es[..n]) + [es[n].uuid];
      Latest(es[..n], uuid)
  }

  // After the saves, a player's record is the last entry given for that player.
  lemma {:induction false} SaveAllEffect(c: Store, inst: string, es: seq<Entry>)
    ensures var c' := SaveAll(c, inst, es); c'.index == c.index
    ensures var c' := SaveAll(c, inst, es); forall k: EntryKey ::
              if k.name == inst && k.uuid in Uuids(es) then k in c'.entries && c'.entries[k] == Latest(es, k.uuid)
              else (k in c'.entries <==> k in c.entries) && (k in c.entries ==> c'.entries[k] == c.entries[k])
  {
    if es == [] {
    } else {
      var n := |es| - 1;
      SaveAllEffect(c, inst, es[..n]);
      assert Uuids(es) == Uuids(es[..n]) + [es[n].uuid];
    }
  }

  // What a replaced list reads back as.
  lemma {:induction false} SetShape(c: Store, inst: string, es: seq<Entry>, gone: set<string>, c': Store)
    requires SetOutcome(c, inst, es, gone, c', true)
    ensures Untouched(c, c', inst) && IndexOf(c', inst) == Uuids(es)
    ensures |Entries(c', inst)| == |es|
    ensures forall i | 0 <= i < |es| ::
              && es[i].uuid in Uuids(es) && EntryKey(inst, es[i].uuid) in c'.entries
              && Entries(c', inst)[i] == c'.entries[EntryKey(inst, es[i].uuid)] == Latest(es, es[i].uuid)
    ensures forall u | u in gone && u !in Uuids(es) :: EntryKey(inst, u) !in c'.entries
  {
    var c1 := c.(entries := c.entries - set u | u in gone :: EntryKey(inst, u));
    SaveAllEffect(c1, inst, es);
    forall i | 0 <= i < |es|
      ensures es[i].uuid in Uuids(es) && EntryKey(inst, es[i].uuid) in c'.entries
      ensures c'.entries[EntryKey(inst, es[i].uuid)] == Latest(es, es[i].uuid)
    {
      assert Uuids(es)[i] in Uuids(es);
    }
    EntriesAreLookup(c', inst);
  }

  ghost predicate OneEntryPerPlayer(es: seq<Entry>) {
    forall i, j | 0 <= i < j < |es| :: es[i].uuid == es[j].uuid ==> es[i] == es[j]
  }

  // Replacing the whole list reads back as given exactly when no player comes
  // with two different entries, whatever became of the old records.
  lemma {:induction false} SetReadsBack(c: Store, inst: string, es: seq<Entry>, gone: set<string>, c': Store)
    requires SetOutcome(c, inst, es, gone, c', true)
    ensures Entries(c', inst) == es <==> OneEntryPerPlayer(es)
    ensures forall u | u in gone && u !in Uuids(es) :: EntryKey(inst, u) !in c'.entries
  {
    SetShape(c, inst, es, gone, c');
    var got := Entries(c', inst);
    if OneEntryPerPlayer(es) {
      forall i | 0 <= i < |es| ensures got[i] == es[i] {
        var k :| 0 <= k < |es| && es[k] == got[i];
      }
    } else {
      var i, j :| 0 <= i < j < |es| && es[i].uuid == es[j].uuid && es[i] != es[j];
      assert got[i] == got[j];
    }
  }

  lemma {:induction false} SetRefines(c: Store, inst: string, es: seq<Entry>, gone: set<string>, c': Store)
    requires Inv(c) && SetOutcome(c, inst, es, gone, c', true) && NoDup(Uuids(es))
    ensures Inv(c') && Untouched(c, c', inst) && Entries(c', inst) == es
  {
    SetShape(c, inst, es, gone, c');
    forall i, j | 0 <= i < j < |es| ensures es[i].uuid != es[j].uuid {
      assert Uuids(es)[i] != Uuids(es)[j];
    }
    SetReadsBack(c, inst, es, gone, c');
    forall u | u in Uuids(es) ensures EntryKey(inst, u) in c'.entries && c'.entries[EntryKey(inst, u)].uuid == u {
      var i :| 0 <= i < |es| && Uuids(es)[i] == u;
    }
    InvFromInstance(c, c', inst);
  }

  // ---- Runs of operations that return nil ----

  datatype Op =
    | Add(name: string, entry: Entry)
    | Remove(name: string, uuid: string)
    | Set(name: string, entries: seq<Entry>)

  datatype Event = Event(op: Op, after: Store)

  ghost predicate Run(c: Store, es: seq<Event>)
    decreases |es|
  {
    es == [] || (
      && (match es[0].op
          case Add(inst, e) => AddOutcome(c, inst, e, es[0].after, true)
          case Remove(inst, u) => RemoveOutcome(c, inst, u, es[0].after, true)
          case Set(inst, l) =>
            NoDup(Uuids(l))
            && exists gone: set<string> :: SetOutcome(c, inst, l, gone, es[0].after, true))
      && Run(es[0].after, es[1..]))
  }

  function Final(c: Store, es: seq<Event>): Store { if es == [] then c else es[|es| - 1].after }

  // The same run on one instance's ordered map.
  function PlainRun(l: seq<Entry>, es: seq<Event>, inst: string): seq<Entry>
    decreases |es|
  {
    if es == [] then l
    else
      var next := if es[0].op.name != inst then l else
        match es[0].op
        case Add(_, e) => PlainAdd(l, e)
        case Remove(_, u) => PlainRemove(l, u)
        case Set(_, l') => l';
      PlainRun(next, es[1..], inst)
  }

  // Every instance reads as its ordered map, though deletions inside a Set may
  // silently fail.
  lemma {:induction false} RunRefinesOrderedMap(c: Store, es: seq<Event>, inst: string)
    requires Inv(c) && Run(c, es)
    ensures Inv(Final(c, es)) && Entries(Final(c, es), inst) == PlainRun(Entries(c, inst), es, inst)
    decreases |es|
  {
    if es == [] {
    } else {
      var e := es[0];
      match e.op {
        case Add(name, entry) => AddRefines(c, name, entry, e.after);
        case Remove(name, u) => RemoveRefines(c, name, u, e.after);
        case Set(name, l) =>
          var gone: set<string> :| SetOutcome(c, name, l, gone, e.after, true);
          SetRefines(c, name, l, gone, e.after);
      }
      if e.op.name != inst { OthersRead(c, e.after, e.op.name, inst); }
      RunRefinesOrderedMap(e.after, es[1..], inst);
      assert Final(c, es) == Final(e.after, es[1..]);
    }
  }
}
