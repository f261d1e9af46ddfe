// Rendering of the server cloud-config: one ReplaceAll per table entry, in the
// unspecified order in which a Go map is ranged over, against the substitution
// of all placeholders at once.
module CloudConfig {

  // A template is a list of literal texts and placeholders; Hole(i) is the
  // placeholder of table entry i.
  datatype Piece = Text(text: string) | Hole(entry: nat)

  datatype Entry = Entry(name: string, value: string)

  function Placeholder(e: Entry): string { "${" + e.name + "}" }

  // The result of strings.ReplaceAll: leftmost, non-overlapping, one pass.
  function ReplaceAll(s: string, pattern: string, replacement: string): string
    requires pattern != []
    decreases |s|
  {
    if |s| < |pattern| then s
    else if s[..|pattern|] == pattern then replacement + ReplaceAll(s[|pattern|..], pattern, replacement)
    else [s[0]] + ReplaceAll(s[1..], pattern, replacement)
  }

  ghost predicate MatchAt(s: string, key: string, p: nat) {
    p + |key| <= |s| && forall i | 0 <= i < |key| :: s[p + i] == key[i]
  }

  // ---- What a sound template and table look like ----

  ghost predicate ValidName(name: string) {
    '$' !in name && '}' !in name
  }

  ghost predicate ValidTable(table: seq<Entry>) {
    && (forall i | 0 <= i < |table| :: ValidName(table[i].name))
    && (forall i, j | 0 <= i < j < |table| :: table[i].name != table[j].name)
  }

  // Literal text may hold '$' but neither "${" nor a final '$'.
  ghost predicate CleanText(s: string) {
    && (forall p | 0 <= p < |s| - 1 :: s[p] == '$' ==> s[p + 1] != '{')
    && (s != [] ==> s[|s| - 1] != '$')
  }

  ghost predicate CleanTemplate(ps: seq<Piece>, n: nat) {
    forall i | 0 <= i < |ps| :: if ps[i].Text? then CleanText(ps[i].text) else ps[i].entry < n
  }

  // Text after v can complete an occurrence of key that begins inside v.
  ghost predicate Produces(v: string, key: string) {
    || (exists p: nat :: MatchAt(v, key, p))
    || (exists p: nat :: p < |v| && |v| - p < |key| && v[p..] == key[..|v| - p])
  }

  ghost predicate SafeTable(table: seq<Entry>) {
    forall k, j | 0 <= k < |table| && 0 <= j < |table| && k != j ::
      table[j].value == Placeholder(table[j]) || !Produces(table[k].value, Placeholder(table[j]))
  }

  // ---- Simultaneous substitution, and substitution of some entries only ----

  function Expand(p: Piece, table: seq<Entry>, done: set<nat>): string
    requires p.Hole? ==> p.entry < |table|
  {
    match p
    case Text(t) => t
    case Hole(i) => if i in done then table[i].value else Placeholder(table[i])
  }

  function Flatten(ps: seq<Piece>, table: seq<Entry>, done: set<nat>): string
    requires forall i | 0 <= i < |ps| :: ps[i].Hole? ==> ps[i].entry < |table|
  {
    if ps == [] then "" else Expand(ps[0], table, done) + Flatten(ps[1..], table, done)
  }

  function AllEntries(table: seq<Entry>): (r: set<nat>)
    ensures forall i: nat :: i in r <==> i < |table|
  {
    if table == [] then {} else AllEntries(table[..|table| - 1]) + {|table| - 1}
  }

  // ---- ReplaceAll over a concatenation ----

  lemma {:induction false} ShiftMatch(s: string, key: string, p: nat)
    requires s != []
    ensures MatchAt(s[1..], key, p) == MatchAt(s, key, p + 1)
  {}

  lemma {:induction false} SkipHead(s: string, key: string, v: string)
    requires key != [] && s != [] && !MatchAt(s, key, 0)
    ensures ReplaceAll(s, key, v) == [s[0]] + ReplaceAll(s[1..], key, v)
  {}

  lemma {:induction false} PassThrough(u: string, r: string, key: string, v: string)
    requires key != []
    requires forall p: nat | p < |u| :: !MatchAt(u + r, key, p)
    ensures ReplaceAll(u + r, key, v) == u + ReplaceAll(r, key, v)
  {
    if u == [] {
      assert u + r == r;
    } else {
      SkipHead(u + r, key, v);
      assert (u + r)[1..] == u[1..] + r;
      forall p: nat | p < |u[1..]| ensures !MatchAt(u[1..] + r, key, p) {
        ShiftMatch(u + r, key, p);
      }
      PassThrough(u[1..], r, key, v);
      assert [u[0]] + (u[1..] + ReplaceAll(r, key, v)) == u + ReplaceAll(r, key, v);
    }
  }

  lemma {:induction false} ReplaceHead(r: string, key: string, v: string)
    requires key != []
    ensures ReplaceAll(key + r, key, v) == v + ReplaceAll(r, key, v)
  {}

  lemma {:induction false} ReplaceSame(s: string, key: string)
    requires key != []
    ensures ReplaceAll(s, key, key) == s
    decreases |s|
  {
    if |s| >= |key| {
      if s[..|key|] == key { ReplaceSame(s[|key|..], key); } else { ReplaceSame(s[1..], key); }
    }
  }

  // ---- Where a placeholder can occur ----

  lemma NoMatchInText(t: string, r: string, e: Entry, p: nat)
    requires CleanText(t) && p < |t|
    ensures !MatchAt(t + r, Placeholder(e), p)
  {
    var key := Placeholder(e);
    assert key[0] == '$' && key[1] == '{';
  }

  lemma NoMatchInOther(o: Entry, r: string, e: Entry, p: nat)
    requires ValidName(o.name) && ValidName(e.name) && o.name != e.name && p < |Placeholder(o)|
    ensures !MatchAt(Placeholder(o) + r, Placeholder(e), p)
  {
    var s, key := Placeholder(o) + r, Placeholder(e);
    assert key[0] == '$' && key[1] == '{' && key[|key| - 1] == '}';
    if p == 0 {
      if |o.name| < |e.name| {
        assert s[2 + |o.name|] == '}' && key[2 + |o.name|] == e.name[|o.name|];
      } else if |o.name| > |e.name| {
        assert s[2 + |e.name|] == o.name[|e.name|] && key[2 + |e.name|] == '}';
      } else {
        var i :| 0 <= i < |e.name| && o.name[i] != e.name[i];
        assert s[2 + i] == o.name[i] && key[2 + i] == e.name[i];
      }
    } else if p > 1 && p < 2 + |o.name| {
      assert s[p] == o.name[p - 2];
    }
  }

  lemma NoMatchInValue(v: string, r: string, key: string, p: nat)
    requires !Produces(v, key) && p < |v|
    ensures !MatchAt(v + r, key, p)
  {
    if p + |key| <= |v| {
      assert !MatchAt(v, key, p);
      var i :| 0 <= i < |key| && v[p + i] != key[i];
      assert (v + r)[p + i] == v[p + i];
    } else {
      assert v[p..] != key[..|v| - p];
      var i :| 0 <= i < |v| - p && v[p..][i] != key[..|v| - p][i];
      assert (v + r)[p + i] == v[p..][i] && key[..|v| - p][i] == key[i];
    }
  }

  // One ReplaceAll substitutes exactly entry i, whatever was substituted before.
  lemma {:induction false} ReplaceOne(ps: seq<Piece>, table: seq<Entry>, done: set<nat>, i: nat)
    requires ValidTable(table) && CleanTemplate(ps, |table|) && i < |table| && i !in done
    requires forall q | 0 <= q < |ps| && ps[q].Hole? && ps[q].entry in done ::
               !Produces(table[ps[q].entry].value, Placeholder(table[i]))
    ensures ReplaceAll(Flatten(ps, table, done), Placeholder(table[i]), table[i].value)
            == Flatten(ps, table, done + {i})
  {
    if ps == [] {
    } else {
      var key := Placeholder(table[i]);
      var u, r := Expand(ps[0], table, done), Flatten(ps[1..], table, done);
      ReplaceOne(ps[1..], table, done, i);
      if ps[0] == Hole(i) {
        ReplaceHead(r, key, table[i].value);
      } else {
        forall p: nat | p < |u| ensures !MatchAt(u + r, key, p) {
          match ps[0]
          case Text(t) => NoMatchInText(t, r, table[i], p);
          case Hole(m) =>
            if m in done { NoMatchInValue(u, r, key, p); }
            else { NoMatchInOther(table[m], r, table[i], p); }
        }
        PassThrough(u, r, key, table[i].value);
      }
    }
  }

  // An entry whose value is its own placeholder changes nothing either way.
  lemma {:induction false} SelfEntry(ps: seq<Piece>, table: seq<Entry>, done: set<nat>, i: nat)
    requires CleanTemplate(ps, |table|) && i < |table| && table[i].value == Placeholder(table[i])
    ensures Flatten(ps, table, done) == Flatten(ps, table, done + {i})
  {
    if ps == [] {
    } else {
      SelfEntry(ps[1..], table, done, i);
    }
  }

  lemma ReplaceStep(ps: seq<Piece>, table: seq<Entry>, done: set<nat>, i: nat)
    requires ValidTable(table) && SafeTable(table) && CleanTemplate(ps, |table|)
    requires i < |table| && i !in done
    ensures ReplaceAll(Flatten(ps, table, done), Placeholder(table[i]), table[i].value)
            == Flatten(ps, table, done + {i})
  {
    if table[i].value == Placeholder(table[i]) {
      ReplaceSame(Flatten(ps, table, done), Placeholder(table[i]));
      SelfEntry(ps, table, done, i);
    } else {
      ReplaceOne(ps, table, done, i);
    }
  }

  // ---- Safe tables are exactly the order-independent ones ----

  function RenderInOrder(s: string, table: seq<Entry>, order: seq<nat>): string
    requires forall q | 0 <= q < |order| :: order[q] < |table|
    decreases order
  {
    if order == [] then s
    else
      var e := table[order[0]];
      RenderInOrder(ReplaceAll(s, Placeholder(e), e.value), table, order[1..])
  }

  function Members(order: seq<nat>): set<nat> { set i | i in order }

  ghost predicate IsOrder(order: seq<nat>, n: nat) {
    && (forall q | 0 <= q < |order| :: order[q] < n)
    && (forall i: nat | i < n :: i in order)
    && (forall a, b | 0 <= a < b < |order| :: order[a] != order[b])
  }

  ghost predicate OrderIndependent(table: seq<Entry>) {
    forall ps: seq<Piece>, order: seq<nat> | CleanTemplate(ps, |table|) && IsOrder(order, |table|) ::
      RenderInOrder(Flatten(ps, table, {}), table, order) == Flatten(ps, table, AllEntries(table))
  }

  lemma {:induction false} MembersTail(order: seq<nat>)
    requires order != []
    ensures Members(order) == {order[0]} + Members(order[1..])
  {}

  lemma {:induction false} SafeInOrder(ps: seq<Piece>, table: seq<Entry>, done: set<nat>, order: seq<nat>)
    requires ValidTable(table) && SafeTable(table) && CleanTemplate(ps, |table|)
    requires forall q | 0 <= q < |order| :: order[q] < |table| && order[q] !in done
    requires forall a, b | 0 <= a < b < |order| :: order[a] != order[b]
    ensures RenderInOrder(Flatten(ps, table, done), table, order)
            == Flatten(ps, table, done + Members(order))
    decreases order
  {
    if order == [] {
      assert done + Members(order) == done;
    } else {
      var i := order[0];
      ReplaceStep(ps, table, done, i);
      MembersTail(order);
      SafeInOrder(ps, table, done + {i}, order[1..]);
      assert done + {i} + Members(order[1..]) == done + Members(order);
    }
  }

  lemma {:induction false} ReplaceHeadChanges(s: string, key: string, v: string)
    requires key != [] && v != key && |s| >= |key| && s[..|key|] == key
    ensures ReplaceAll(s, key, v) != s
  {
    var rest := ReplaceAll(s[|key|..], key, v);
    ReplaceLength(s[|key|..], key, v);
    assert ReplaceAll(s, key, v) == v + rest;
    if |v| == |key| { assert (v + rest)[..|key|] == v; }
  }

  lemma {:induction false} ReplaceTail(s: string, key: string, v: string)
    requires key != [] && |s| >= |key| && s[..|key|] != key
    ensures ReplaceAll(s, key, v) == [s[0]] + ReplaceAll(s[1..], key, v)
    ensures ReplaceAll(s, key, v) == s ==> ReplaceAll(s[1..], key, v) == s[1..]
  {
    assert ([s[0]] + ReplaceAll(s[1..], key, v))[1..] == ReplaceAll(s[1..], key, v);
  }

  lemma {:induction false} MatchInTail(s: string, key: string, p: nat)
    requires key != [] && MatchAt(s, key, p) && s[..|key|] != key
    ensures p > 0 && MatchAt(s[1..], key, p - 1)
  {
    MatchAtFront(s, key);
    forall i | 0 <= i < |key| ensures s[1..][p - 1 + i] == key[i] { assert s[p + i] == key[i]; }
  }

  lemma MatchAtFront(s: string, key: string)
    ensures MatchAt(s, key, 0) <==> |s| >= |key| && s[..|key|] == key
  {
    if |s| >= |key| {
      forall i | 0 <= i < |key| ensures s[..|key|][i] == s[0 + i] {}
    }
  }

  // A key that occurs and is replaced by something else changes the text.
  lemma {:induction false} ReplaceChanges(s: string, key: string, v: string, p: nat)
    requires key != [] && v != key && MatchAt(s, key, p)
    ensures ReplaceAll(s, key, v) != s
    decreases |s|
  {
    if s[..|key|] == key {
      ReplaceHeadChanges(s, key, v);
    } else {
      MatchInTail(s, key, p);
      ReplaceChanges(s[1..], key, v, p - 1);
      ReplaceTail(s, key, v);
    }
  }

  lemma {:induction false} ReplaceLength(s: string, key: string, v: string)
    requires key != []
    ensures |v| >= |key| ==> |ReplaceAll(s, key, v)| >= |s|
    ensures |v| <= |key| ==> |ReplaceAll(s, key, v)| <= |s|
    decreases |s|
  {
    if |s| >= |key| {
      if s[..|key|] == key { ReplaceLength(s[|key|..], key, v); } else { ReplaceLength(s[1..], key, v); }
    }
  }

  // The literal text that completes what value v begins.
  lemma Completion(v: string, e: Entry) returns (t: string, p: nat)
    requires ValidName(e.name) && Produces(v, Placeholder(e))
    ensures CleanText(t) && MatchAt(v + t, Placeholder(e), p)
  {
    var key := Placeholder(e);
    if q: nat :| MatchAt(v, key, q) {
      t, p := "", q;
      assert v + t == v;
    } else {
      p :| p < |v| && |v| - p < |key| && v[p..] == key[..|v| - p];
      var n := |v| - p;
      t := key[n..];
      TailIsClean(e, n);
      assert (v + t)[p..] == v[p..] + t;
      assert key == key[..n] + key[n..];
    }
  }

  lemma TailIsClean(e: Entry, n: nat)
    requires ValidName(e.name) && 0 < n <= |Placeholder(e)|
    ensures CleanText(Placeholder(e)[n..])
  {
    var key := Placeholder(e);
    assert forall i | 0 < i < |key| :: key[i] != '$';
    assert forall i | 0 <= i < |key[n..]| :: key[n..][i] == key[n + i];
  }

  lemma {:induction false} OthersKeep(ps: seq<Piece>, table: seq<Entry>, order: seq<nat>)
    requires ValidTable(table) && CleanTemplate(ps, |table|)
    requires forall q | 0 <= q < |order| :: order[q] < |table|
    requires forall q | 0 <= q < |ps| && ps[q].Hole? :: ps[q].entry !in order
    ensures RenderInOrder(Flatten(ps, table, {}), table, order) == Flatten(ps, table, {})
    decreases order
  {
    if order == [] {
    } else {
      var i := order[0];
      assert order == [i] + order[1..];
      ReplaceOne(ps, table, {}, i);
      Unused(ps, table, {}, i);
      OthersKeep(ps, table, order[1..]);
    }
  }

  lemma {:induction false} Unused(ps: seq<Piece>, table: seq<Entry>, done: set<nat>, i: nat)
    requires CleanTemplate(ps, |table|)
    requires forall q | 0 <= q < |ps| && ps[q].Hole? :: ps[q].entry != i
    ensures Flatten(ps, table, done + {i}) == Flatten(ps, table, done)
  {
    if ps == [] {
    } else {
      Unused(ps[1..], table, done, i);
    }
  }

  function Others(n: nat, k: nat, j: nat): (o: seq<nat>)
    ensures forall q | 0 <= q < |o| :: o[q] < n && o[q] != k && o[q] != j
    ensures forall i: nat | i < n && i != k && i != j :: i in o
    ensures forall a, b | 0 <= a < b < |o| :: o[a] != o[b]
  {
    if n == 0 then [] else if n - 1 == k || n - 1 == j then Others(n - 1, k, j) else Others(n - 1, k, j) + [n - 1]
  }

  lemma {:induction false} RenderConcat(s: string, table: seq<Entry>, a: seq<nat>, b: seq<nat>)
    requires forall q | 0 <= q < |a| :: a[q] < |table|
    requires forall q | 0 <= q < |b| :: b[q] < |table|
    ensures RenderInOrder(s, table, a + b) == RenderInOrder(RenderInOrder(s, table, a), table, b)
    decreases a
  {
    if a == [] {
      assert a + b == b;
    } else {
      assert (a + b)[1..] == a[1..] + b;
      RenderConcat(ReplaceAll(s, Placeholder(table[a[0]]), table[a[0]].value), table, a[1..], b);
    }
  }

  lemma {:induction false} ProducingPairDepends(table: seq<Entry>, k: nat, j: nat)
    returns (ps: seq<Piece>, order: seq<nat>)
    requires ValidTable(table) && k < |table| && j < |table| && k != j
    requires table[j].value != Placeholder(table[j]) && Produces(table[k].value, Placeholder(table[j]))
    ensures CleanTemplate(ps, |table|) && IsOrder(order, |table|)
    ensures RenderInOrder(Flatten(ps, table, {}), table, order) != Flatten(ps, table, AllEntries(table))
  {
    var t, p := Completion(table[k].value, table[j]);
    ps := [Hole(k), Text(t)];
    order := Others(|table|, k, j) + [k, j];
    OrderWithLast(|table|, k, j);
    KThenJ(table, k, j, t);
    FlattenTwo(table, AllEntries(table), k, t);
    ReplaceChanges(table[k].value + t, Placeholder(table[j]), table[j].value, p);
  }

  // Entry k filled in, and then entry j, whatever the other entries do before.
  lemma {:induction false} KThenJ(table: seq<Entry>, k: nat, j: nat, t: string)
    requires ValidTable(table) && k < |table| && j < |table| && k != j && CleanText(t)
    ensures RenderInOrder(Flatten([Hole(k), Text(t)], table, {}), table, Others(|table|, k, j) + [k, j])
            == ReplaceAll(table[k].value + t, Placeholder(table[j]), table[j].value)
  {
    var ps, others := [Hole(k), Text(t)], Others(|table|, k, j);
    var start := Flatten(ps, table, {});
    OthersKeep(ps, table, others);
    RenderConcat(start, table, others, [k, j]);
    RenderTwo(start, table, k, j);
    ReplaceOne(ps, table, {}, k);
    FlattenTwo(table, {} + {k}, k, t);
  }

  lemma {:induction false} OrderWithLast(n: nat, k: nat, j: nat)
    requires k < n && j < n && k != j
    ensures IsOrder(Others(n, k, j) + [k, j], n)
  {}

  lemma FlattenTwo(table: seq<Entry>, done: set<nat>, k: nat, t: string)
    requires k < |table| && k in done
    ensures Flatten([Hole(k), Text(t)], table, done) == table[k].value + t
  {
    var ps := [Hole(k), Text(t)];
    assert ps[1..] == [Text(t)];
    assert [Text(t)][1..] == [];
    assert Flatten([Text(t)], table, done) == t + Flatten([], table, done) == t;
  }

  lemma RenderTwo(s: string, table: seq<Entry>, k: nat, j: nat)
    requires k < |table| && j < |table|
    ensures RenderInOrder(s, table, [k, j])
            == ReplaceAll(ReplaceAll(s, Placeholder(table[k]), table[k].value), Placeholder(table[j]), table[j].value)
  {
    assert [k, j] == [k] + [j];
    RenderConcat(s, table, [k], [j]);
    RenderLast(s, table, k);
    RenderLast(RenderInOrder(s, table, [k]), table, j);
  }

  lemma {:induction false} OrderCovers(order: seq<nat>, table: seq<Entry>)
    requires IsOrder(order, |table|)
    ensures Members(order) == AllEntries(table)
  {}

  lemma {:induction false} SafeRenders(ps: seq<Piece>, table: seq<Entry>, order: seq<nat>)
    requires ValidTable(table) && SafeTable(table)
    requires CleanTemplate(ps, |table|) && IsOrder(order, |table|)
    ensures RenderInOrder(Flatten(ps, table, {}), table, order) == Flatten(ps, table, AllEntries(table))
  {
    SafeInOrder(ps, table, {}, order);
    OrderCovers(order, table);
    assert {} + AllEntries(table) == AllEntries(table);
  }

  // The replacement loop: the map is ranged over in an order of Go's choosing.
  // Nothing is asked of the table; with a safe one the order does not show.
  method RenderCloudConfig(template: string, table: seq<Entry>) returns (result: string, ghost order: seq<nat>)
    ensures IsOrder(order, |table|) && result == RenderInOrder(template, table, order)
    ensures ValidTable(table) && SafeTable(table) ==>
              forall ps | CleanTemplate(ps, |table|) && template == Flatten(ps, table, {}) ::
                result == Flatten(ps, table, AllEntries(table))
  {
    result, order := template, [];
    var todo := AllEntries(table);
    while todo != {}
      invariant todo <= AllEntries(table)
      invariant forall q | 0 <= q < |order| :: order[q] < |table| && order[q] !in todo
      invariant forall i | i in AllEntries(table) :: i in todo || i in order
      invariant forall a, b | 0 <= a < b < |order| :: order[a] != order[b]
      invariant result == RenderInOrder(template, table, order)
      decreases todo
    {
      var i :| i in todo;
      RenderConcat(template, table, order, [i]);
      RenderLast(result, table, i);
      result := ReplaceAll(result, Placeholder(table[i]), table[i].value);
      todo, order := todo - {i}, order + [i];
    }
    if ValidTable(table) && SafeTable(table) {
      forall ps | CleanTemplate(ps, |table|) && template == Flatten(ps, table, {})
        ensures result == Flatten(ps, table, AllEntries(table))
      {
        SafeRenders(ps, table, order);
      }
    }
  }

  lemma RenderLast(s: string, table: seq<Entry>, i: nat)
    requires i < |table|
    ensures RenderInOrder(s, table, [i]) == ReplaceAll(s, Placeholder(table[i]), table[i].value)
  {
    assert [i][1..] == [];
  }

  // Every order of replacement gives the simultaneous substitution for every
  // clean template exactly when no value can produce another entry's placeholder.
  lemma OrderIndependentIffSafe(table: seq<Entry>)
    requires ValidTable(table)
    ensures OrderIndependent(table) <==> SafeTable(table)
  {
    if SafeTable(table) {
      forall ps: seq<Piece>, order: seq<nat> | CleanTemplate(ps, |table|) && IsOrder(order, |table|)
        ensures RenderInOrder(Flatten(ps, table, {}), table, order) == Flatten(ps, table, AllEntries(table))
      {
        SafeRenders(ps, table, order);
      }
    } else {
      var k: nat, j: nat :| k < |table| && j < |table| && k != j
        && table[j].value != Placeholder(table[j]) && Produces(table[k].value, Placeholder(table[j]));
      var ps, order := ProducingPairDepends(table, k, j);
    }
  }

  // Values without '$' are enough.
  lemma DollarFreeIsSafe(table: seq<Entry>)
    requires forall i | 0 <= i < |table| :: '$' !in table[i].value
    ensures SafeTable(table)
  {
    forall k, j | 0 <= k < |table| && 0 <= j < |table| && k != j
      ensures !Produces(table[k].value, Placeholder(table[j]))
    {
      var v, key := table[k].value, Placeholder(table[j]);
      assert key[0] == '$';
      forall p: nat | p < |v| && |v| - p < |key| ensures v[p..] != key[..|v| - p] {
        assert v[p..][0] == v[p] && key[..|v| - p][0] == key[0];
      }
    }
  }

  // ---- The replacement table of the program ----

  const NAMES: seq<string> := [
    "restoreWriteFiles", "afterRestore", "requiresRestore", "startCommand", "minecraftArgs",
    "region", "gcpProject", "environment", "instanceName", "backupBucket", "serverId",
    "backupRetentionDays", "resticPassword", "machineAgentImage", "backupImage", "backupInterval",
    "pruneResticRetention", "backupServiceEnable", "rconPassword", "controllerUrl", "agentToken",
    "imageRegistryHost"]

  // Tells the names apart by length and one character.
  function TableIndex(s: string): nat {
    match |s|
    case 6 => 5
    case 8 => 10
    case 10 => if s[0] == 'g' then 6 else 20
    case 11 => if s[0] == 'e' then 7 else 14
    case 12 =>
      if s[0] == 'a' then 1 else if s[0] == 's' then 3 else if s[0] == 'i' then 8 else if s[0] == 'b' then 9 else 18
    case 13 => if s[0] == 'm' then 4 else 19
    case 14 => if s[0] == 'r' then 12 else 15
    case 15 => 2
    case 17 => if s[0] == 'r' then 0 else if s[0] == 'm' then 13 else 21
    case 19 => if s[6] == 'R' then 11 else 17
    case 20 => 16
    case _ => |NAMES|
  }

  lemma NameFits(i: nat)
    requires i < |NAMES|
    ensures TableIndex(NAMES[i]) == i && ValidName(NAMES[i])
  {
    if i < 6 {
      NameFits0(i);
    } else if i < 12 {
      NameFits6(i);
    } else if i < 17 {
      NameFits12(i);
    } else {
      NameFits17(i);
    }
  }

  lemma NameFits0(i: nat)
    requires 0 <= i < 6
    ensures TableIndex(NAMES[i]) == i && ValidName(NAMES[i])
  {
    match i {
      case 0 => assert NAMES[i] == "restoreWriteFiles";
      case 1 => assert NAMES[i] == "afterRestore";
      case 2 => assert NAMES[i] == "requiresRestore";
      case 3 => assert NAMES[i] == "startCommand";
      case 4 => assert NAMES[i] == "minecraftArgs";
      case 5 => assert NAMES[i] == "region";
    }
  }

  lemma NameFits6(i: nat)
    requires 6 <= i < 12
    ensures TableIndex(NAMES[i]) == i && ValidName(NAMES[i])
  {
    match i {
      case 6 => assert NAMES[i] == "gcpProject";
      case 7 => assert NAMES[i] == "environment";
      case 8 => assert NAMES[i] == "instanceName";
      case 9 => assert NAMES[i] == "backupBucket";
      case 10 => assert NAMES[i] == "serverId";
      case 11 => assert NAMES[i] == "backupRetentionDays";
    }
  }

  lemma NameFits12(i: nat)
    requires 12 <= i < 17
    ensures TableIndex(NAMES[i]) == i && ValidName(NAMES[i])
  {
    match i {
      case 12 => assert NAMES[i] == "resticPassword";
      case 13 => assert NAMES[i] == "machineAgentImage";
      case 14 => assert NAMES[i] == "backupImage";
      case 15 => assert NAMES[i] == "backupInterval";
      case 16 => assert NAMES[i] == "pruneResticRetention";
    }
  }

  lemma NameFits17(i: nat)
    requires 17 <= i < 22
    ensures TableIndex(NAMES[i]) == i && ValidName(NAMES[i])
  {
    match i {
      case 17 => assert NAMES[i] == "backupServiceEnable";
      case 18 => assert NAMES[i] == "rconPassword";
      case 19 => assert NAMES[i] == "controllerUrl";
      case 20 => assert NAMES[i] == "agentToken";
      case 21 => assert NAMES[i] == "imageRegistryHost";
    }
  }

  // The 22 names of the program make a valid table whatever their values are.
  lemma SourceTableValid(table: seq<Entry>)
    requires |table| == |NAMES| && forall i | 0 <= i < |NAMES| :: table[i].name == NAMES[i]
    ensures ValidTable(table)
  {
    forall i | 0 <= i < |table| ensures TableIndex(table[i].name) == i && ValidName(table[i].name) {
      NameFits(i);
    }
  }
}
