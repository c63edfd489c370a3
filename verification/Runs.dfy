/** Optional values, and runs of any partial step function and how they compose. */
module Runs {
  datatype Option<T> = None | Some(value: T)

  lemma Assoc<T>(a: seq<T>, b: seq<T>, c: seq<T>)
    ensures (a + b) + c == a + (b + c)
  {
  }

  ghost predicate Path<S(!new), E(!new)>(next: (S, E) -> Option<S>, s: S, es: seq<E>, s': S)
    decreases |es|
  {
    if es == [] then s == s'
    else next(s, es[0]).Some? && Path(next, next(s, es[0]).value, es[1..], s')
  }

  lemma Single<S(!new), E(!new)>(next: (S, E) -> Option<S>, s: S, e: E, s': S)
    requires next(s, e) == Some(s')
    ensures Path(next, s, [e], s')
  {
    assert [e][1..] == [];
  }

  lemma {:induction false} Concat<S(!new), E(!new)>(next: (S, E) -> Option<S>,
                                                    s: S, es: seq<E>, s1: S, fs: seq<E>, s2: S)
    requires Path(next, s, es, s1) && Path(next, s1, fs, s2)
    ensures Path(next, s, es + fs, s2)
    decreases |es|
  {
    if es == [] {
      assert es + fs == fs;
    } else {
      Concat(next, next(s, es[0]).value, es[1..], s1, fs, s2);
      assert (es + fs)[1..] == es[1..] + fs;
    }
  }

  function Count<E>(p: E -> bool, es: seq<E>): nat {
    if es == [] then 0 else (if p(es[0]) then 1 else 0) + Count(p, es[1..])
  }

  lemma CountSingle<E>(p: E -> bool, e: E)
    ensures Count(p, [e]) == if p(e) then 1 else 0
  {
    assert [e][1..] == [];
  }

  lemma {:induction false} CountConcat<E>(p: E -> bool, es: seq<E>, fs: seq<E>)
    ensures Count(p, es + fs) == Count(p, es) + Count(p, fs)
  {
    if es == [] {
      assert es + fs == fs;
    } else {
      CountConcat(p, es[1..], fs);
      assert (es + fs)[1..] == es[1..] + fs;
    }
  }
}
