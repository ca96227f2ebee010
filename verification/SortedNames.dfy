/** sort.Strings: names in byte order. */
module SortedNames {
  import opened FirstSeen

  /** a <= b in byte order. */
  predicate Before(a: string, b: string)
    decreases |a|
  {
    a == "" || (b != "" && (a[0] < b[0] || (a[0] == b[0] && Before(a[1..], b[1..]))))
  }

  lemma {:induction false} BeforeIsTotal(a: string, b: string)
    ensures Before(a, b) || Before(b, a)
    ensures Before(a, b) && Before(b, a) ==> a == b
    decreases |a|
  {
    if a != "" && b != "" {
      BeforeIsTotal(a[1..], b[1..]);
      assert a == [a[0]] + a[1..] && b == [b[0]] + b[1..];
    }
  }

  /** The first byte at which they differ is smaller in `a`. */
  predicate Smaller(a: string, b: string, i: nat) {
    i < |a| && i < |b| && a[..i] == b[..i] && a[i] < b[i]
  }

  /** A prefix comes first; otherwise the first byte that differs decides. */
  lemma BeforeExactly(a: string, b: string)
    ensures Before(a, b) <==> a <= b || exists i :: Smaller(a, b, i)
  {
    hide Before, Smaller;
    if Before(a, b) && !(a <= b) {
      var i := BeforeDiffers(a, b);
    }
    if a <= b {
      PrefixBefore(a, b);
    }
    if i :| Smaller(a, b, i) {
      SmallerBefore(a, b, i);
    }
  }

  lemma {:induction false} BeforeDiffers(a: string, b: string) returns (i: nat)
    requires Before(a, b) && !(a <= b)
    ensures Smaller(a, b, i)
    decreases |a|
  {
    i := 0;
    if a[0] == b[0] {
      i := BeforeDiffers(a[1..], b[1..]);
      assert a[..i + 1] == [a[0]] + a[1..][..i] && b[..i + 1] == [b[0]] + b[1..][..i];
      i := i + 1;
    }
  }

  lemma {:induction false} PrefixBefore(a: string, b: string)
    requires a <= b
    ensures Before(a, b)
    decreases |a|
  {
    if a != "" {
      PrefixBefore(a[1..], b[1..]);
    }
  }

  lemma {:induction false} SmallerBefore(a: string, b: string, i: nat)
    requires Smaller(a, b, i)
    ensures Before(a, b)
    decreases |a|
  {
    if i > 0 {
      assert a[0] == a[..i][0] == b[..i][0] == b[0];
      assert a[1..][..i - 1] == a[..i][1..] && b[1..][..i - 1] == b[..i][1..];
      SmallerBefore(a[1..], b[1..], i - 1);
    }
  }

  lemma {:induction false} BeforeIsTransitive(a: string, b: string, c: string)
    requires Before(a, b) && Before(b, c)
    ensures Before(a, c)
    decreases |a|
  {
    if a != "" && a[0] == b[0] == c[0] {
      BeforeIsTransitive(a[1..], b[1..], c[1..]);
    }
  }

  predicate IsSorted(names: seq<string>) {
    forall i, j | 0 <= i < j < |names| :: Before(names[i], names[j])
  }

  function Insert(name: string, names: seq<string>): seq<string> {
    if names == [] || Before(name, names[0]) then [name] + names
    else [names[0]] + Insert(name, names[1..])
  }

  function Sorted(names: seq<string>): seq<string> {
    if names == [] then [] else Insert(names[0], Sorted(names[1..]))
  }

  lemma {:induction false} InsertSorts(name: string, names: seq<string>)
    requires IsSorted(names)
    ensures IsSorted(Insert(name, names)) && multiset(Insert(name, names)) == multiset(names) + multiset{name}
  {
    if names == [] {
    } else if Before(name, names[0]) {
      forall j | 0 < j < |names|
        ensures Before(name, names[j])
      {
        BeforeIsTransitive(name, names[0], names[j]);
      }
    } else {
      var rest := Insert(name, names[1..]);
      InsertSorts(name, names[1..]);
      BeforeIsTotal(name, names[0]);
      assert names == [names[0]] + names[1..];
      forall j | 0 <= j < |rest|
        ensures Before(names[0], rest[j])
      {
        assert rest[j] in multiset(rest);
        assert rest[j] == name || rest[j] in names[1..];
      }
    }
  }

  /** The names, in order. */
  lemma {:induction false} SortedSorts(names: seq<string>)
    ensures IsSorted(Sorted(names)) && multiset(Sorted(names)) == multiset(names)
  {
    if names != [] {
      SortedSorts(names[1..]);
      InsertSorts(names[0], Sorted(names[1..]));
      assert names == [names[0]] + names[1..];
    }
  }

  /** However it is found, there is only one sorted list of the same names. */
  lemma {:induction false} SortedIsUnique(a: seq<string>, b: seq<string>)
    requires IsSorted(a) && IsSorted(b) && multiset(a) == multiset(b)
    ensures a == b
  {
    assert |multiset(a)| == |multiset(b)|;
    if a != [] {
      SameFirst(a, b);
      TailsAlike(a, b);
      hide Before;
      assert a == [a[0]] + a[1..] && b == [b[0]] + b[1..];
      SortedIsUnique(a[1..], b[1..]);
    }
  }

  lemma TailsAlike(a: seq<string>, b: seq<string>)
    requires a != [] && b != [] && a[0] == b[0] && multiset(a) == multiset(b)
    ensures multiset(a[1..]) == multiset(b[1..])
  {
    assert a == [a[0]] + a[1..] && b == [b[0]] + b[1..];
    assert multiset(a[1..]) == multiset(a) - multiset{a[0]};
    assert multiset(b[1..]) == multiset(b) - multiset{b[0]};
  }

  lemma SameFirst(a: seq<string>, b: seq<string>)
    requires IsSorted(a) && IsSorted(b) && multiset(a) == multiset(b) && a != [] && b != []
    ensures a[0] == b[0]
  {
    assert a[0] in multiset(a) && b[0] in multiset(b);
    FirstIsLeast(a, b[0]);
    FirstIsLeast(b, a[0]);
    BeforeIsTotal(a[0], b[0]);
  }

  lemma FirstIsLeast(names: seq<string>, name: string)
    requires IsSorted(names) && name in names
    ensures Before(names[0], name)
  {
    var i :| 0 <= i < |names| && names[i] == name;
    BeforeIsTotal(name, name);
  }

  /** Sorting keeps the names, each as often. */
  lemma SortedKeeps(names: seq<string>)
    ensures Elements(Sorted(names)) == Elements(names)
    ensures |Sorted(names)| == |names|
    ensures NoRepeats(names) ==> NoRepeats(Sorted(names))
  {
    SortedSorts(names);
    var sorted := Sorted(names);
    assert |multiset(sorted)| == |multiset(names)|;
    forall n
      ensures n in sorted <==> n in names
    {
      assert n in sorted <==> n in multiset(sorted);
      assert n in names <==> n in multiset(names);
    }
    if NoRepeats(names) {
      OnceEach(names);
      forall i, j | 0 <= i < j < |sorted|
        ensures sorted[i] != sorted[j]
      {
        TwicePresent(sorted, i, j);
        assert sorted[i] in multiset(names);
      }
    }
  }

  lemma {:induction false} OnceEach(names: seq<string>)
    requires NoRepeats(names)
    ensures forall n | n in names :: multiset(names)[n] == 1
  {
    if names != [] {
      OnceEach(names[1..]);
      assert names == [names[0]] + names[1..];
      assert names[0] !in names[1..];
    }
  }

  lemma TwicePresent(names: seq<string>, i: nat, j: nat)
    requires i < j < |names|
    ensures names[i] == names[j] ==> multiset(names)[names[i]] >= 2
  {
    assert names == names[..j] + [names[j]] + names[j + 1..];
    assert names[i] in names[..j] by { assert names[..j][i] == names[i]; }
    assert names[i] in multiset(names[..j]);
  }
}
