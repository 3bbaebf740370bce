/** Definitions shared by the component models: optional values and sums over finite sets. */
module Common {

  datatype Option<+T> = None | Some(value: T)

  const UINT64 := 0x1_0000_0000_0000_0000

  function Min(a: int, b: int): int { if a <= b then a else b }

  function Max(a: int, b: int): int { if a >= b then a else b }

  /** A counter map in which a missing key reads as zero. */
  function Get(m: map<string, nat>, k: string): nat { if k in m then m[k] else 0 }

  /** The sum of `f` over a finite set. */
  ghost function Sum<T(!new)>(s: set<T>, f: T -> int): int {
    if s == {} then 0 else
      var x :| x in s;
      f(x) + Sum(s - {x}, f)
  }

  lemma {:induction false} SumRemove<T(!new)>(s: set<T>, x: T, f: T -> int)
    requires x in s
    ensures Sum(s, f) == f(x) + Sum(s - {x}, f)
    decreases s
  {
    var y :| y in s && Sum(s, f) == f(y) + Sum(s - {y}, f);
    if y != x {
      SumRemove(s - {y}, x, f);
      SumRemove(s - {x}, y, f);
      assert s - {y} - {x} == s - {x} - {y};
    }
  }

  lemma SumInsert<T(!new)>(s: set<T>, x: T, f: T -> int)
    requires x !in s
    ensures Sum(s + {x}, f) == f(x) + Sum(s, f)
  {
    SumRemove(s + {x}, x, f);
    assert s + {x} - {x} == s;
  }

  lemma {:induction false} SumSame<T(!new)>(s: set<T>, f: T -> int, g: T -> int)
    requires forall x | x in s :: f(x) == g(x)
    ensures Sum(s, f) == Sum(s, g)
    decreases s
  {
    if s != {} {
      var x :| x in s;
      SumRemove(s, x, f);
      SumRemove(s, x, g);
      SumSame(s - {x}, f, g);
    }
  }

  lemma {:induction false} SumPlus<T(!new)>(s: set<T>, f: T -> int, g: T -> int, h: T -> int)
    requires forall x | x in s :: h(x) == f(x) + g(x)
    ensures Sum(s, h) == Sum(s, f) + Sum(s, g)
    decreases s
  {
    if s != {} {
      var x :| x in s;
      SumRemove(s, x, f);
      SumRemove(s, x, g);
      SumRemove(s, x, h);
      SumPlus(s - {x}, f, g, h);
    }
  }

  /** Elements where `f` is zero do not matter. */
  lemma {:induction false} SumWiden<T(!new)>(s: set<T>, t: set<T>, f: T -> int)
    requires s <= t
    requires forall x | x in t - s :: f(x) == 0
    ensures Sum(s, f) == Sum(t, f)
    decreases t
  {
    if x :| x in t && x !in s {
      SumRemove(t, x, f);
      SumWiden(s, t - {x}, f);
    } else {
      assert s == t;
    }
  }

  lemma {:induction false} SumDisjoint<T(!new)>(s: set<T>, t: set<T>, f: T -> int)
    requires s !! t
    ensures Sum(s + t, f) == Sum(s, f) + Sum(t, f)
    decreases t
  {
    if t == {} {
      assert s + t == s;
    } else {
      var x :| x in t;
      SumRemove(t, x, f);
      SumRemove(s + t, x, f);
      assert s + t - {x} == s + (t - {x});
      SumDisjoint(s, t - {x}, f);
    }
  }

  /** Summing over indices equals summing over their images under an injection. */
  lemma {:induction false} SumReindex<A(!new), B(!new)>(s: set<A>, t: set<B>, key: A -> B, f: A -> int, g: B -> int)
    requires forall a, b | a in s && b in s && key(a) == key(b) :: a == b
    requires forall a | a in s :: key(a) in t && f(a) == g(key(a))
    requires forall y | y in t :: exists a :: a in s && key(a) == y
    ensures Sum(s, f) == Sum(t, g)
    decreases s
  {
    if s != {} {
      var a :| a in s;
      SumRemove(s, a, f);
      SumRemove(t, key(a), g);
      forall y | y in t - {key(a)} ensures exists b :: b in s - {a} && key(b) == y {
        var b :| b in s && key(b) == y;
        assert b in s - {a} && key(b) == y;
      }
      SumReindex(s - {a}, t - {key(a)}, key, f, g);
    }
  }

  /** Taking one position out of a sequence takes one element out of its multiset. */
  lemma MultisetWithout<T>(s: seq<T>, k: nat)
    requires k < |s|
    ensures multiset(s) == multiset(s[..k] + s[k + 1..]) + multiset{s[k]}
  {
    assert s == s[..k] + [s[k]] + s[k + 1..];
  }

  lemma MultisetWith<T>(s: seq<T>, k: nat, x: T)
    requires k <= |s|
    ensures multiset(s[..k] + [x] + s[k..]) == multiset(s) + multiset{x}
  {
    assert s == s[..k] + s[k..];
  }

  lemma MultisetCancel<T>(a: multiset<T>, b: multiset<T>, x: T)
    requires a + multiset{x} == b + multiset{x}
    ensures a == b
  {
    assert a == (a + multiset{x}) - multiset{x};
    assert b == (b + multiset{x}) - multiset{x};
  }
}
