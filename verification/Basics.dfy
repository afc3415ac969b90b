/** Types and small definitions shared by all components. */
module Basics {
  datatype Option<+T> = None | Some(value: T)

  datatype Callsign = Callsign(text: string)

  /** `s` lists every element of `st` exactly once, in some order (`QHash::keys`, set iteration). */
  ghost predicate Lists<T(!new)>(s: seq<T>, st: set<T>) {
    && (forall i, j | 0 <= i < j < |s| :: s[i] != s[j])
    && (forall x :: x in s <==> x in st)
  }

  lemma ListsGrow<T(!new)>(s: seq<T>, st: set<T>, x: T)
    requires Lists(s, st) && x !in st
    ensures Lists(s + [x], st + {x})
  {
    forall y ensures y in s + [x] <==> y in st + {x} {}
    forall i, j | 0 <= i < j < |s + [x]| ensures (s + [x])[i] != (s + [x])[j] {
      if j == |s| {
        assert s[i] in s;
      }
    }
  }

  /** Lists the elements of a set in an order the caller must not rely on. */
  method ListOf<T(==,!new)>(st: set<T>) returns (s: seq<T>)
    ensures Lists(s, st)
  {
    s := [];
    var rest := st;
    while rest != {}
      invariant rest <= st
      invariant Lists(s, st - rest)
      decreases rest
    {
      var x :| x in rest;
      ListsGrow(s, st - rest, x);
      rest := rest - {x};
      assert st - rest == (st - (rest + {x})) + {x};
      s := s + [x];
    }
    assert st - rest == st;
  }
}
