// Additions to one index document that overlap: each reads the document, and writes
// back what it read with its own id appended, whatever was written in between.
module IndexUpdates {
  import opened Common

  // `copies` holds what the additions under way have read, `begun` every id there was
  // or that an addition has read for.
  datatype World<K> = World(index: seq<K>, copies: map<K, seq<K>>, begun: set<K>)

  datatype Step<K> = Read(id: K) | Write(id: K)

  // Each addition is of a new id, reads once, and then writes once.
  predicate Enabled<K(==)>(w: World<K>, s: Step<K>) {
    match s
    case Read(k) => k !in w.begun
    case Write(k) => k in w.copies
  }

  function Apply<K(==)>(w: World<K>, s: Step<K>): World<K> {
    match s
    case Read(k) => w.(copies := w.copies[k := w.index], begun := w.begun + {k})
    case Write(k) => if k !in w.copies then w else World(AddOnce(w.copies[k], k), w.copies - {k}, w.begun)
  }

  function Run<K(==)>(w: World<K>, steps: seq<Step<K>>): World<K>
    decreases |steps|
  {
    if steps == [] then w else Run(Apply(w, steps[0]), steps[1..])
  }

  predicate AllEnabled<K(==)>(w: World<K>, steps: seq<Step<K>>)
    decreases |steps|
  {
    steps == [] || (Enabled(w, steps[0]) && AllEnabled(Apply(w, steps[0]), steps[1..]))
  }

  function Start<K>(index: seq<K>): World<K> { World(index, map[], set k | k in index) }

  // Every write finds the document as its addition had read it.
  predicate Undisturbed<K(==)>(w: World<K>, steps: seq<Step<K>>)
    decreases |steps|
  {
    steps == [] || (
      && (steps[0].Write? && steps[0].id in w.copies ==> w.copies[steps[0].id] == w.index)
      && Undisturbed(Apply(w, steps[0]), steps[1..]))
  }

  // Everything that was in the document, or was written to it, is there.
  ghost predicate NothingLost<K(!new)>(index: seq<K>, steps: seq<Step<K>>, index': seq<K>) {
    && (forall k | k in index :: k in index')
    && forall k | Write(k) in steps :: k in index'
  }

  // Ids under way are nowhere yet; and whoever has read an older document has not seen
  // its present last id.
  ghost predicate Inv<K(!new)>(w: World<K>) {
    && w.copies.Keys <= w.begun && (forall k | k in w.index :: k in w.begun)
    && (forall c, k | c in w.copies && k in w.copies[c] :: k in w.begun)
    && (forall c | c in w.copies :: c !in w.index)
    && (forall c, d | c in w.copies && d in w.copies :: c !in w.copies[d])
    && (forall c | c in w.copies ::
         w.copies[c] == w.index || (w.index != [] && w.index[|w.index| - 1] !in w.copies[c]))
  }

  lemma {:induction false} StepKeepsInv<K(!new)>(w: World<K>, s: Step<K>)
    requires Inv(w) && Enabled(w, s)
    ensures Inv(Apply(w, s))
  {
    if s.Write? {
      assert w.copies[s.id] + [s.id] == Apply(w, s).index;
    }
  }

  // Undisturbed writes only append, and only what was under way or not begun.
  lemma {:induction false} UndisturbedAppends<K(!new)>(w: World<K>, steps: seq<Step<K>>)
    requires Inv(w) && AllEnabled(w, steps) && Undisturbed(w, steps)
    ensures w.index <= Run(w, steps).index
    ensures forall k | Write(k) in steps :: k in Run(w, steps).index
    ensures forall k | k in Run(w, steps).index && k in w.begun && k !in w.copies :: k in w.index
    decreases |steps|
  {
    if steps == [] {
    } else {
      var w1 := Apply(w, steps[0]);
      StepKeepsInv(w, steps[0]);
      UndisturbedAppends(w1, steps[1..]);
      if steps[0].Write? { assert w1.index == w.index + [steps[0].id] && steps[0].id in w1.index; }
      forall k | Write(k) in steps ensures k in Run(w, steps).index {
        if steps[0] != Write(k) { assert Write(k) in steps[1..]; }
      }
    }
  }

  // In the document, in what an addition has read of it, or written later.
  ghost predicate Known<K>(w: World<K>, steps: seq<Step<K>>, k: K) {
    k in w.index || Write(k) in steps || exists c :: c in w.copies && k in w.copies[c]
  }

  // The last disturbed write loses the last id that it finds, for good.
  lemma {:induction false} DisturbedLoses<K(!new)>(w: World<K>, steps: seq<Step<K>>) returns (lost: K)
    requires Inv(w) && AllEnabled(w, steps) && !Undisturbed(w, steps)
    ensures Known(w, steps, lost) && lost !in Run(w, steps).index
    decreases |steps|
  {
    var s := steps[0];
    var w1 := Apply(w, s);
    StepKeepsInv(w, s);
    if Undisturbed(w1, steps[1..]) {
      lost := w.index[|w.index| - 1];
      UndisturbedAppends(w1, steps[1..]);
    } else {
      lost := DisturbedLoses(w1, steps[1..]);
      KnownBefore(w, steps, lost);
    }
  }

  lemma {:induction false} KnownBefore<K(!new)>(w: World<K>, steps: seq<Step<K>>, k: K)
    requires steps != [] && Enabled(w, steps[0]) && Known(Apply(w, steps[0]), steps[1..], k)
    ensures Known(w, steps, k)
  {
    assert forall x | x in steps[1..] :: x in steps;
    assert steps[0] in steps;
  }

  // However additions overlap, nothing is lost exactly if every one of them writes to
  // the document that it had read.
  lemma {:induction false} NothingLostIffUndisturbed<K(!new)>(index: seq<K>, steps: seq<Step<K>>)
    requires AllEnabled(Start(index), steps)
    ensures NothingLost(index, steps, Run(Start(index), steps).index) <==> Undisturbed(Start(index), steps)
  {
    if Undisturbed(Start(index), steps) {
      UndisturbedAppends(Start(index), steps);
    } else {
      var lost := DisturbedLoses(Start(index), steps);
    }
  }

  // The shortest overlap: of two additions that both read before either writes, the
  // first is lost although both succeed.
  lemma {:induction false} OverlapLosesFirst<K>(index: seq<K>, a: K, b: K)
    requires a != b && a !in index && b !in index
    ensures var steps := [Read(a), Read(b), Write(a), Write(b)];
            AllEnabled(Start(index), steps) && Run(Start(index), steps).index == index + [b]
  {
    var w, steps := Start(index), [Read(a), Read(b), Write(a), Write(b)];
    var w1 := Apply(w, steps[0]);
    var w2 := Apply(w1, steps[1]);
    var w3 := Apply(w2, steps[2]);
    assert steps[1..] == [Read(b), Write(a), Write(b)] && [Read(b), Write(a), Write(b)][1..] == [Write(a), Write(b)];
    assert [Write(a), Write(b)][1..] == [Write(b)] && [Write(b)][1..] == [];
    assert Run(w3, [Write(b)]) == Apply(w3, Write(b)) && AllEnabled(w3, [Write(b)]);
    assert Run(w2, [Write(a), Write(b)]) == Apply(w3, Write(b)) && AllEnabled(w2, [Write(a), Write(b)]);
  }
}
