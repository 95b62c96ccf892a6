/** Which places of a list were chosen, in order. */
module Places {
  /** `at` lists exactly the places in `chosen`, each once and in order. */
  ghost predicate IsInOrder(at: seq<nat>, chosen: set<nat>) {
    (forall j, k :: 0 <= j < k < |at| ==> at[j] < at[k]) && (forall i :: i in at <==> i in chosen)
  }

  lemma InOrderGrows(at: seq<nat>, chosen: set<nat>, n: nat)
    requires IsInOrder(at, chosen) && forall i :: i in chosen ==> i < n
    ensures IsInOrder(at + [n], chosen + {n})
  {
    forall j, k | 0 <= j < k < |at + [n]| ensures (at + [n])[j] < (at + [n])[k] { assert at[j] in at; }
  }

  /** There is only one such list. */
  lemma {:induction false} InOrderIsUnique(a: seq<nat>, b: seq<nat>, chosen: set<nat>)
    requires IsInOrder(a, chosen) && IsInOrder(b, chosen)
    ensures a == b
  {
    assert (a != [] ==> a[0] in chosen) && (b != [] ==> b[0] in chosen);
    if a != [] && b != [] {
      LastIsGreatest(a, chosen);
      LastIsGreatest(b, chosen);
      var x := a[|a| - 1];
      assert x == b[|b| - 1];
      InOrderIsUnique(a[..|a| - 1], b[..|b| - 1], chosen - {x});
      assert a == a[..|a| - 1] + [x] && b == b[..|b| - 1] + [x];
    }
  }

  lemma LastIsGreatest(a: seq<nat>, chosen: set<nat>)
    requires IsInOrder(a, chosen) && a != []
    ensures var x := a[|a| - 1]; x in chosen && (forall i :: i in chosen ==> i <= x) && IsInOrder(a[..|a| - 1], chosen - {x})
  {
    var init, x := a[..|a| - 1], a[|a| - 1];
    assert a == init + [x];
    forall i | i in chosen ensures i <= x { assert i in a; }
    forall i ensures i in init <==> i in chosen - {x} { assert i in a <==> i in init || i == x; }
  }
}
