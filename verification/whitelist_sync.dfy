// The agent's reconciliation of the Minecraft whitelist with the controller's.
module WhitelistSync {
  import opened Common

  datatype ControllerEntry = ControllerEntry(username: string, uuid: string)
  datatype MinecraftEntry = MinecraftEntry(uuid: string, name: string)

  // Controller entries by player id; the last of several wins.
  function ById(es: seq<ControllerEntry>): map<string, string> {
    if es == [] then map[] else ById(es[..|es| - 1])[es[|es| - 1].uuid := es[|es| - 1].username]
  }

  ghost predicate Listed(es: seq<ControllerEntry>, u: string) { exists i | 0 <= i < |es| :: es[i].uuid == u }

  // The last entry of this player gives this user name.
  ghost predicate LastName(es: seq<ControllerEntry>, u: string, name: string) {
    exists i | 0 <= i < |es| :: es[i] == ControllerEntry(name, u) && forall j | i < j < |es| :: es[j].uuid != u
  }

  lemma {:induction false} ByIdIsLastName(es: seq<ControllerEntry>, u: string)
    ensures u in ById(es) <==> Listed(es, u)
    ensures u in ById(es) ==> LastName(es, u, ById(es)[u])
  {
    if es == [] {
    } else {
      var n := |es| - 1;
      ByIdIsLastName(es[..n], u);
      assert forall i | 0 <= i < n :: es[i] == es[..n][i];
      if es[n].uuid == u {
        assert es[n] == ControllerEntry(ById(es)[u], u);
      } else if u in ById(es) {
        var i :| 0 <= i < n && es[..n][i] == ControllerEntry(ById(es)[u], u)
          && forall j | i < j < n :: es[..n][j].uuid != u;
        assert es[i] == ControllerEntry(ById(es)[u], u);
      }
    }
  }

  // ---- The outcome, as a function of the two lists ----

  function Missing(want: map<string, string>, have: map<string, string>): set<string> { want.Keys - have.Keys }

  function Surplus(want: map<string, string>, have: map<string, string>): set<string> { have.Keys - want.Keys }

  function WithAdded(want: map<string, string>, have: map<string, string>, added: set<string>): map<string, string>
    requires added <= want.Keys
  {
    have + map u | u in added :: want[u]
  }

  function SurplusNames(want: map<string, string>, have: map<string, string>): set<string> {
    set u | u in Surplus(want, have) :: have[u]
  }

  // Removal by name takes every player of that name.
  function WithoutNames(players: map<string, string>, names: set<string>): map<string, string> {
    map u | u in players && players[u] !in names :: players[u]
  }

  function Synced(want: map<string, string>, have: map<string, string>): map<string, string> {
    WithoutNames(WithAdded(want, have, Missing(want, have)), SurplusNames(want, have))
  }

  // What adding names in turn does: the server looks each of them up itself.
  function Adds(resolve: string -> string, players: map<string, string>, names: seq<string>): map<string, string> {
    if names == [] then players
    else Adds(resolve, players, names[..|names| - 1])[resolve(names[|names| - 1]) := names[|names| - 1]]
  }

  // Every name that has to be added is looked up as the player it stands for.
  ghost predicate Resolves(resolve: string -> string, want: map<string, string>, have: map<string, string>) {
    forall u | u in want && u !in have :: resolve(want[u]) == u
  }

  class Minecraft {
    var players: map<string, string>       // whitelist.json: player id to name
    var enabled: bool
    const resolve: string -> string        // the server's own lookup of a name
    ghost var faults: nat                  // commands and reads that failed

    constructor (players: map<string, string>, enabled: bool, resolve: string -> string)
      ensures this.players == players && this.enabled == enabled && this.resolve == resolve && faults == 0
    {
      this.players, this.enabled, this.resolve, faults := players, enabled, resolve, 0;
    }

    // Whether an RCON command succeeds.
    method Command() returns (ok: bool)
      modifies this`faults
      ensures faults == old(faults) + (if ok then 0 else 1)
    {
      ok := *;
      if !ok { faults := faults + 1; }
    }

    method ReadWhitelist() returns (list: seq<MinecraftEntry>)
      ensures NoDup(list)
      ensures forall e :: e in list <==> e.uuid in players && players[e.uuid] == e.name
    {
      list := [];
      var todo := players.Keys;
      while todo != {}
        invariant todo <= players.Keys && NoDup(list)
        invariant forall e :: e in list <==> e.uuid in players && e.uuid !in todo && players[e.uuid] == e.name
        decreases todo
      {
        var u :| u in todo;
        list, todo := list + [MinecraftEntry(u, players[u])], todo - {u};
      }
    }

    method WhitelistAdd(name: string) returns (ok: bool)
      modifies this`players, this`faults
      ensures players == if ok then old(players)[resolve(name) := name] else old(players)
      ensures faults == old(faults) + (if ok then 0 else 1)
    {
      ok := Command();
      if ok { players := players[resolve(name) := name]; }
    }

    method WhitelistRemove(name: string) returns (ok: bool)
      modifies this`players, this`faults
      ensures players == if ok then WithoutNames(old(players), {name}) else old(players)
      ensures faults == old(faults) + (if ok then 0 else 1)
    {
      ok := Command();
      if ok { players := WithoutNames(players, {name}); }
    }

    method SetEnabled(on: bool) returns (ok: bool)
      modifies this`enabled, this`faults
      ensures enabled == if ok then on else old(enabled)
      ensures faults == old(faults) + (if ok then 0 else 1)
    {
      ok := Command();
      if ok { enabled := on; }
    }
  }

  method IndexEntries(es: seq<ControllerEntry>) returns (want: map<string, string>)
    ensures want == ById(es)
  {
    want := map[];
    for i := 0 to |es|
      invariant want == ById(es[..i])
    {
      assert es[..i + 1][..i] == es[..i];
      want := want[es[i].uuid := es[i].username];
    }
    assert es[..|es|] == es;
  }

  method PresentIds(list: seq<MinecraftEntry>, ghost have: map<string, string>) returns (present: set<string>)
    requires forall e :: e in list <==> e.uuid in have && have[e.uuid] == e.name
    ensures present == have.Keys
  {
    present := {};
    for i := 0 to |list|
      invariant present <= have.Keys
      invariant forall e | e in list[..i] :: e.uuid in present
    {
      assert list[i] in list;
      assert list[..i + 1] == list[..i] + [list[i]];
      present := present + {list[i].uuid};
    }
    assert list[..|list|] == list;
    forall u | u in have ensures u in present {
      assert MinecraftEntry(u, have[u]) in list;
    }
  }

  function NamesOf(want: map<string, string>, ids: set<string>): set<string>
    requires ids <= want.Keys
  {
    set u | u in ids :: want[u]
  }

  // Adds were issued for the players in `added`, `failed` of them in vain; `done` are
  // the names of the others.
  ghost predicate Issued(want: map<string, string>, added: set<string>, done: seq<string>, failed: int) {
    && added <= want.Keys && failed >= 0 && |done| + failed == |added|
    && forall i | 0 <= i < |done| :: done[i] in NamesOf(want, added)
  }

  lemma {:induction false} IssuedOneMore(want: map<string, string>, added: set<string>, done: seq<string>,
                                         failed: int, u: string)
    requires Issued(want, added, done, failed) && u in want && u !in added
    ensures Issued(want, added + {u}, done, failed + 1) && Issued(want, added + {u}, done + [want[u]], failed)
  {
    assert NamesOf(want, added + {u}) == NamesOf(want, added) + {want[u]};
    var done' := done + [want[u]];
    assert forall i | 0 <= i < |done'| :: done'[i] == if i < |done| then done[i] else want[u];
  }

  lemma {:induction false} AddsOneMore(resolve: string -> string, players: map<string, string>, done: seq<string>,
                                       name: string)
    ensures Adds(resolve, players, done + [name]) == Adds(resolve, players, done)[resolve(name) := name]
  {
    assert (done + [name])[..|done|] == done;
  }

  lemma {:induction false} WithOneMore(want: map<string, string>, have: map<string, string>, added: set<string>,
                                       u: string)
    requires added <= want.Keys && u in want
    ensures WithAdded(want, have, added)[u := want[u]] == WithAdded(want, have, added + {u})
  {}

  lemma {:induction false} WithNone(want: map<string, string>, have: map<string, string>)
    ensures WithAdded(want, have, {}) == have
  {}

  lemma {:induction false} TakeOne(all: set<string>, todo: set<string>, u: string)
    requires u in todo
    ensures all - (todo - {u}) == if u in all then (all - todo) + {u} else all - todo
    ensures u !in all - todo
  {}

  // Adding under way, `failed` times in vain: what was issued, and what the whitelist
  // has become of it.
  ghost predicate Adding(want: map<string, string>, have: map<string, string>, resolve: string -> string,
                         added: set<string>, done: seq<string>, failed: int, players: map<string, string>) {
    && Issued(want, added, done, failed) && players == Adds(resolve, have, done)
    && (failed == 0 && Resolves(resolve, want, have) ==> players == WithAdded(want, have, added))
  }

  lemma AddingNone(want: map<string, string>, have: map<string, string>, resolve: string -> string)
    ensures Adding(want, have, resolve, {}, [], 0, have)
  {
    WithNone(want, have);
  }

  lemma {:induction false} AddingOneMore(want: map<string, string>, have: map<string, string>,
                                         resolve: string -> string, added: set<string>, done: seq<string>, failed: int,
                                         players: map<string, string>, u: string)
    requires Adding(want, have, resolve, added, done, failed, players) && u in Missing(want, have) && u !in added
    ensures Adding(want, have, resolve, added + {u}, done, failed + 1, players)
    ensures Adding(want, have, resolve, added + {u}, done + [want[u]], failed, players[resolve(want[u]) := want[u]])
  {
    WithOneMore(want, have, added, u);
    IssuedOneMore(want, added, done, failed, u);
    AddsOneMore(resolve, have, done, want[u]);
  }

  // The name of one wanted player is added unless that player is present.
  method AddOne(mc: Minecraft, want: map<string, string>, ghost have: map<string, string>, present: set<string>,
                u: string, ghost todo: set<string>, ghost added: set<string>, ghost done: seq<string>,
                ghost faults: nat)
    returns (ghost added': set<string>, ghost done': seq<string>)
    requires present == have.Keys && u in todo && todo <= want.Keys && added == Missing(want, have) - todo
    requires Adding(want, have, mc.resolve, added, done, mc.faults - faults, mc.players)
    modifies mc`players, mc`faults
    ensures mc.faults >= old(mc.faults) && added' == Missing(want, have) - (todo - {u})
    ensures Adding(want, have, mc.resolve, added', done', mc.faults - faults, mc.players)
  {
    TakeOne(Missing(want, have), todo, u);
    added', done' := added, done;
    if u !in present {
      AddingOneMore(want, have, mc.resolve, added, done, mc.faults - faults, mc.players, u);
      var ok := mc.WhitelistAdd(want[u]);
      added' := added + {u};
      if ok { done' := done + [want[u]]; }
    }
  }

  // `present` are the ids of the players the whitelist had.
  method AddAbsent(mc: Minecraft, want: map<string, string>, ghost have: map<string, string>, present: set<string>)
    returns (ghost added: set<string>, ghost done: seq<string>)
    requires mc.players == have && present == have.Keys
    modifies mc`players, mc`faults
    ensures added == Missing(want, have) && mc.faults >= old(mc.faults)
    ensures Adding(want, have, mc.resolve, added, done, mc.faults - old(mc.faults), mc.players)
  {
    ghost var faults := mc.faults;
    added, done := {}, [];
    var todo := want.Keys;
    AddingNone(want, have, mc.resolve);
    while todo != {}
      invariant todo <= want.Keys && added == Missing(want, have) - todo && mc.faults >= faults
      invariant Adding(want, have, mc.resolve, added, done, mc.faults - faults, mc.players)
      decreases todo
    {
      var u :| u in todo;
      added, done := AddOne(mc, want, have, present, u, todo, added, done, faults);
      todo := todo - {u};
    }
  }

  // Maps are ranged over in an order of Go's choosing. `done` are the names whose
  // add succeeded, in turn; a failed one is only logged.
  method AddMissing(mc: Minecraft, want: map<string, string>, list: seq<MinecraftEntry>)
    returns (ghost added: set<string>, ghost done: seq<string>)
    requires forall e :: e in list <==> e.uuid in mc.players && mc.players[e.uuid] == e.name
    modifies mc`players, mc`faults
    ensures added == Missing(want, old(mc.players)) && mc.faults >= old(mc.faults)
    ensures Issued(want, added, done, mc.faults - old(mc.faults))
    ensures mc.players == Adds(mc.resolve, old(mc.players), done)
    ensures mc.faults == old(mc.faults) && Resolves(mc.resolve, want, old(mc.players)) ==>
              mc.players == WithAdded(want, old(mc.players), added)
  {
    var present := PresentIds(list, mc.players);
    added, done := AddAbsent(mc, want, mc.players, present);
  }

  // `gone` are the names whose removal succeeded.
  method RemoveSurplus(mc: Minecraft, want: map<string, string>, list: seq<MinecraftEntry>,
                       ghost have: map<string, string>)
    returns (ghost removed: set<string>, ghost gone: set<string>)
    requires forall e :: e in list <==> e.uuid in have && have[e.uuid] == e.name
    modifies mc`players, mc`faults
    ensures removed == Surplus(want, have) && gone <= SurplusNames(want, have)
    ensures mc.players == WithoutNames(old(mc.players), gone)
    ensures mc.faults >= old(mc.faults) && (mc.faults == old(mc.faults) ==> gone == SurplusNames(want, have))
  {
    removed, gone := {}, {};
    ghost var names: set<string> := {};
    for i := 0 to |list|
      invariant removed == set e | e in list[..i] && e.uuid !in want :: e.uuid
      invariant names == set e | e in list[..i] && e.uuid !in want :: e.name
      invariant gone <= names && mc.faults >= old(mc.faults) && (mc.faults == old(mc.faults) ==> gone == names)
      invariant mc.players == WithoutNames(old(mc.players), gone)
    {
      assert list[..i + 1] == list[..i] + [list[i]];
      if list[i].uuid !in want {
        var ok := mc.WhitelistRemove(list[i].name);
        removed, names := removed + {list[i].uuid}, names + {list[i].name};
        if ok { gone := gone + {list[i].name}; }
      }
    }
    RemovedAll(want, have, list, removed, names);
  }

  // One pass of the reconciliation, whatever fails. If nothing does and the names are
  // looked up as meant, the whitelist is the one Synced() says.
  method SyncWhitelist(mc: Minecraft, entries: Option<seq<ControllerEntry>>, enabled: bool)
    returns (ok: bool, ghost added: set<string>, ghost removed: set<string>, ghost done: seq<string>,
      ghost gone: set<string>)
    modifies mc`players, mc`enabled, mc`faults
    ensures !ok ==> mc.players == old(mc.players) && mc.enabled == old(mc.enabled) && added == removed == {}
    ensures ok ==> entries.Some? && added == Missing(ById(entries.value), old(mc.players))
                   && removed == Surplus(ById(entries.value), old(mc.players))
    ensures ok ==> mc.players == WithoutNames(Adds(mc.resolve, old(mc.players), done), gone)
    ensures ok ==> |done| <= |added| && gone <= SurplusNames(ById(entries.value), old(mc.players))
    ensures ok ==> forall i | 0 <= i < |done| :: done[i] in NamesOf(ById(entries.value), added)
    ensures ok ==> forall u :: u in added <==> Listed(entries.value, u) && u !in old(mc.players)
    ensures ok ==> forall u :: u in removed <==> u in old(mc.players) && !Listed(entries.value, u)
    ensures ok ==> forall i | 0 <= i < |done| :: exists u :: u in added && LastName(entries.value, u, done[i])
    ensures ok ==> forall name | name in gone :: exists u :: u in removed && old(mc.players)[u] == name
    ensures ok && mc.faults == old(mc.faults) ==>
              |done| == |added| && forall u | u in removed :: old(mc.players)[u] in gone
    ensures mc.faults >= old(mc.faults)
    ensures mc.faults == old(mc.faults) ==> ok == entries.Some? && (ok ==> mc.enabled == enabled)
    ensures ok && mc.faults == old(mc.faults) && Resolves(mc.resolve, ById(entries.value), old(mc.players)) ==>
              mc.players == Synced(ById(entries.value), old(mc.players))
  {
    ok, added, removed, done, gone := false, {}, {}, [], {};
    if entries.None? { return; }
    var readable := mc.Command();
    if !readable { return; }
    var list := mc.ReadWhitelist();
    ghost var have := mc.players;
    var want := IndexEntries(entries.value);
    added, done := AddMissing(mc, want, list);
    removed, gone := RemoveSurplus(mc, want, list, have);
    forall u ensures u in want <==> Listed(entries.value, u) { ByIdIsLastName(entries.value, u); }
    forall i | 0 <= i < |done| ensures exists u :: u in added && LastName(entries.value, u, done[i]) {
      var u :| u in added && want[u] == done[i];
      ByIdIsLastName(entries.value, u);
    }
    if mc.enabled != enabled {
      var switched := mc.SetEnabled(enabled);
    }
    ok := true;
  }

  lemma RemovedAll(want: map<string, string>, have: map<string, string>, list: seq<MinecraftEntry>,
                   removed: set<string>, names: set<string>)
    requires forall e :: e in list <==> e.uuid in have && have[e.uuid] == e.name
    requires removed == set e | e in list[..|list|] && e.uuid !in want :: e.uuid
    requires names == set e | e in list[..|list|] && e.uuid !in want :: e.name
    ensures removed == Surplus(want, have) && names == SurplusNames(want, have)
  {
    assert list[..|list|] == list;
    forall u | u in Surplus(want, have) ensures u in removed && have[u] in names {
      assert MinecraftEntry(u, have[u]) in list;
    }
  }

  // ---- When the two whitelists meet ----

  // The name under which a wanted player is on the list once the adds are done.
  function KeptName(want: map<string, string>, have: map<string, string>, u: string): string
    requires u in want
  {
    if u in have then have[u] else want[u]
  }

  // No surplus player goes by the name of a wanted one.
  ghost predicate NoClash(want: map<string, string>, have: map<string, string>) {
    forall u, v | u in Surplus(want, have) && v in want :: have[u] != KeptName(want, have, v)
  }

  // The player ids agree after the sync exactly when no surplus player shares a
  // name with a wanted one.
  lemma {:induction false} SyncedIffNoClash(want: map<string, string>, have: map<string, string>)
    ensures Synced(want, have).Keys == want.Keys <==> NoClash(want, have)
  {}

  // Then, and only then, a second sync has nothing to add or remove.
  lemma {:induction false} SecondSyncIdleIffNoClash(want: map<string, string>, have: map<string, string>)
    ensures var again := Synced(want, have);
            Missing(want, again) == {} && Surplus(want, again) == {} <==> NoClash(want, have)
  {}

  // A simpler sufficient condition: surplus names occur nowhere else.
  lemma {:induction false} UniqueSurplusNamesSuffice(want: map<string, string>, have: map<string, string>)
    requires forall u, v | u in Surplus(want, have) && v in want :: have[u] != want[v]
    requires forall u, v | u in Surplus(want, have) && v in have && u != v :: have[u] != have[v]
    ensures NoClash(want, have) && Synced(want, have).Keys == want.Keys
  {}
}
