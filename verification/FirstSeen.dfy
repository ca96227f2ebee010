/** Order-preserving removal of repeats: the `seen` set and output slice that several of the
    repository's loops keep. */
module FirstSeen {

  function Elements<T>(items: seq<T>): set<T> {
    set t | t in items
  }

  lemma Regroup<T>(a: seq<T>, b: seq<T>, c: seq<T>)
    ensures a + (b + c) == (a + b) + c
    ensures b == [] ==> a + b == a
  {
  }

  lemma ElementsCons<T>(x: T, items: seq<T>)
    ensures Elements([x] + items) == {x} + Elements(items)
  {
    forall t | t in {x} + Elements(items)
      ensures t in [x] + items
    {
      assert t == x ==> ([x] + items)[0] == t;
    }
  }

  lemma ElementsSnoc<T>(items: seq<T>, x: T)
    ensures Elements(items + [x]) == Elements(items) + {x}
  {
    forall t | t in Elements(items) + {x}
      ensures t in items + [x]
    {
      assert t == x ==> (items + [x])[|items|] == t;
    }
  }

  lemma ElementsAppend<T>(a: seq<T>, b: seq<T>)
    ensures Elements(a + b) == Elements(a) + Elements(b)
  {
  }

  /** The items not in `seen`, each kept where it first occurs. */
  function Firsts<T(==)>(items: seq<T>, seen: set<T>): (kept: seq<T>)
    ensures Elements(kept) == Elements(items) - seen
  {
    if items == [] then []
    else
      ElementsCons(items[0], items[1..]);
      assert items == [items[0]] + items[1..];
      if items[0] in seen then Firsts(items[1..], seen)
      else
        var kept := Firsts(items[1..], seen + {items[0]});
        ElementsCons(items[0], kept);
        [items[0]] + kept
  }

  ghost predicate NoRepeats<T>(items: seq<T>) {
    forall i, j | 0 <= i < j < |items| :: items[i] != items[j]
  }

  lemma {:induction false} FirstsNoRepeats<T>(items: seq<T>, seen: set<T>)
    ensures NoRepeats(Firsts(items, seen))
  {
    if items != [] {
      FirstsNoRepeats(items[1..], seen);
      FirstsNoRepeats(items[1..], seen + {items[0]});
      var kept := Firsts(items[1..], seen + {items[0]});
      assert forall t | t in kept :: t in Elements(kept);
    }
  }

  lemma {:induction false} FirstsAppend<T>(a: seq<T>, b: seq<T>, seen: set<T>)
    ensures Firsts(a + b, seen) == Firsts(a, seen) + Firsts(b, seen + Elements(a))
  {
    if a == [] {
      assert a + b == b;
      assert seen + Elements(a) == seen;
    } else {
      assert (a + b)[1..] == a[1..] + b;
      assert (a + b)[0] == a[0];
      var seen' := if a[0] in seen then seen else seen + {a[0]};
      FirstsAppend(a[1..], b, seen');
      assert Elements(a) == {a[0]} + Elements(a[1..]);
      assert seen' + Elements(a[1..]) == seen + Elements(a);
    }
  }

  lemma FirstsSnoc<T>(items: seq<T>, x: T, seen: set<T>)
    ensures Firsts(items + [x], seen) ==
            Firsts(items, seen) + (if x in Elements(Firsts(items, seen)) + seen then [] else [x])
  {
    FirstsAppend(items, [x], seen);
    assert [x][1..] == [];
  }

  /** Removing repeats twice, with a smaller set first, is removing them once. */
  lemma {:induction false} FirstsTwice<T>(items: seq<T>, inner: set<T>, outer: set<T>)
    requires inner <= outer
    ensures Firsts(Firsts(items, inner), outer) == Firsts(items, outer)
  {
    if items != [] {
      var x := items[0];
      if x in inner {
        FirstsTwice(items[1..], inner, outer);
      } else {
        var kept := Firsts(items[1..], inner + {x});
        assert ([x] + kept)[1..] == kept;
        if x in outer {
          FirstsTwice(items[1..], inner + {x}, outer);
        } else {
          FirstsTwice(items[1..], inner + {x}, outer + {x});
        }
      }
    }
  }
}
