/** Generic sequence helpers: duplicate-free sequences, first occurrences and
    the `[...new Set(xs)]` idiom. */
module Seqs {
  import opened Outcomes

  ghost predicate NoDups<T>(s: seq<T>) {
    forall i, j :: 0 <= i < j < |s| ==> s[i] != s[j]
  }

  lemma AppendAssoc<T>(a: seq<T>, b: seq<T>, c: seq<T>)
    ensures (a + b) + c == a + (b + c)
  {
  }

  /** Index of the first occurrence of `x` in `s`. */
  function FirstIndex<T(==)>(s: seq<T>, x: T): (k: nat)
    requires x in s
    ensures k < |s| && s[k] == x
    ensures forall j :: 0 <= j < k ==> s[j] != x
  {
    if s[0] == x then 0 else 1 + FirstIndex(s[1..], x)
  }

  /** `[...new Set(xs)]`: the distinct elements of `xs`, in order of first appearance.
      (A JavaScript Set iterates in insertion order.) */
  function Dedup<T(==)>(xs: seq<T>): (r: seq<T>)
    ensures |r| <= |xs|
  {
    if xs == [] then []
    else
      var r := Dedup(xs[..|xs| - 1]);
      if xs[|xs| - 1] in r then r else r + [xs[|xs| - 1]]
  }

  /** The result holds exactly the elements of the input, each once. */
  lemma {:induction false} DedupSpec<T>(xs: seq<T>)
    ensures forall i :: 0 <= i < |Dedup(xs)| ==> Dedup(xs)[i] in xs
    ensures forall i :: 0 <= i < |xs| ==> xs[i] in Dedup(xs)
    ensures NoDups(Dedup(xs))
  {
    if xs != [] {
      var init := xs[..|xs| - 1];
      DedupSpec(init);
      assert xs == init + [xs[|xs| - 1]];
    }
  }

  /** `s[..min(n, |s|)]`: JavaScript's `slice(0, n)`. */
  function Take<T>(s: seq<T>, n: nat): (r: seq<T>)
    ensures |r| <= n && |r| <= |s|
    ensures |s| <= n ==> r == s
    ensures r == s[..|r|]
  {
    if |s| <= n then s else s[..n]
  }

  lemma TakeNoDups<T>(s: seq<T>, n: nat)
    requires NoDups(s)
    ensures NoDups(Take(s, n))
  {
  }

  /** Cutting a sequence with one more element at its end. */
  lemma SliceSnoc<T>(s: seq<T>, x: T, p: nat)
    requires p <= |s|
    ensures (s + [x])[..p] == s[..p]
    ensures (s + [x])[p..] == s[p..] + [x]
  {
  }

  lemma FirstIndexPrefix<T>(s: seq<T>, t: seq<T>, x: T)
    requires x in s
    ensures FirstIndex(s + t, x) == FirstIndex(s, x)
  {
    var k := FirstIndex(s, x);
    assert (s + t)[k] == x;
    assert forall j :: 0 <= j < k ==> (s + t)[j] == s[j];
    FirstIndexUnique(s + t, x, k);
  }

  lemma FirstIndexUnique<T>(s: seq<T>, x: T, k: nat)
    requires k < |s| && s[k] == x
    requires forall j :: 0 <= j < k ==> s[j] != x
    ensures FirstIndex(s, x) == k
  {
  }

  /** Dedup keeps the order of first appearance: an element listed earlier in the
      result first appears earlier in the input. */
  lemma {:induction false} DedupFirstAppearanceOrder<T>(xs: seq<T>)
    ensures forall i, j :: 0 <= i < j < |Dedup(xs)| ==>
      Dedup(xs)[i] in xs && Dedup(xs)[j] in xs
      && FirstIndex(xs, Dedup(xs)[i]) < FirstIndex(xs, Dedup(xs)[j])
  {
    DedupSpec(xs);
    if xs == [] {
      assert Dedup(xs) == [];
    } else {
      var init, last := xs[..|xs| - 1], xs[|xs| - 1];
      assert xs == init + [last];
      DedupFirstAppearanceOrder(init);
      DedupSpec(init);
      DedupSnoc(init, last);
      var r0 := Dedup(init);
      forall i, j | 0 <= i < j < |Dedup(xs)|
        ensures Dedup(xs)[i] in xs && Dedup(xs)[j] in xs
          && FirstIndex(xs, Dedup(xs)[i]) < FirstIndex(xs, Dedup(xs)[j])
      {
        var a, b := Dedup(xs)[i], Dedup(xs)[j];
        assert a == r0[i];
        if j < |r0| {
          assert b == r0[j];
        }
        FirstAppearanceStep(init, last, a, b);
      }
    }
  }

  /** One step of the order proof: the first positions in `init` carry over to
      `init + [last]`, and a new `last` comes after everything already there. */
  lemma FirstAppearanceStep<T>(init: seq<T>, last: T, a: T, b: T)
    requires a in init
    requires (b in init && FirstIndex(init, a) < FirstIndex(init, b)) || (b == last && last !in init)
    ensures FirstIndex(init + [last], a) < FirstIndex(init + [last], b)
  {
    FirstIndexPrefix(init, [last], a);
    if b in init {
      FirstIndexPrefix(init, [last], b);
    } else {
      assert forall k :: 0 <= k < |init| ==> (init + [last])[k] != last;
      FirstIndexUnique(init + [last], last, |init|);
    }
  }

  /** A duplicate-free input is left as it is. */
  lemma {:induction false} DedupOfNoDups<T>(xs: seq<T>)
    requires NoDups(xs)
    ensures Dedup(xs) == xs
  {
    if xs != [] {
      var init := xs[..|xs| - 1];
      DedupOfNoDups(init);
      assert xs[|xs| - 1] !in init;
      assert xs == init + [xs[|xs| - 1]];
    }
  }

  /** Dedup is idempotent. */
  lemma DedupIdempotent<T>(xs: seq<T>)
    ensures Dedup(Dedup(xs)) == Dedup(xs)
  {
    DedupSpec(xs);
    DedupOfNoDups(Dedup(xs));
  }

  /** Appending one element: the step a push-then-dedup loop makes. */
  lemma DedupSnoc<T>(xs: seq<T>, x: T)
    ensures Dedup(xs + [x]) == if x in xs then Dedup(xs) else Dedup(xs) + [x]
  {
    DedupSpec(xs);
    assert (xs + [x])[..|xs + [x]| - 1] == xs;
  }

  /** The step of a `seen`-guarded push loop: push `x` unless it is already listed. */
  lemma DedupPush<T>(xs: seq<T>, x: T)
    ensures Dedup(xs + [x]) == if x in Dedup(xs) then Dedup(xs) else Dedup(xs) + [x]
  {
    assert (xs + [x])[..|xs + [x]| - 1] == xs;
  }

  /** Deduplicating a longer sequence only appends: the distinct elements of a prefix
      come first, in the same order. */
  lemma {:induction false} DedupPrefix<T>(xs: seq<T>, ys: seq<T>)
    ensures Dedup(xs) <= Dedup(xs + ys)
    decreases |ys|
  {
    if ys == [] {
      assert xs + ys == xs;
    } else {
      var init, last := ys[..|ys| - 1], ys[|ys| - 1];
      assert xs + ys == (xs + init) + [last];
      DedupPrefix(xs, init);
      DedupSnoc(xs + init, last);
    }
  }

  /** Deduplicating three lists one after the other: the distinct elements of the first,
      and of the first two, come first. */
  lemma DedupThree<T>(a: seq<T>, b: seq<T>, c: seq<T>)
    ensures NoDups(Dedup(a + b + c))
    ensures Dedup(a) <= Dedup(a + b + c)
    ensures Dedup(a + b) <= Dedup(a + b + c)
  {
    assert NoDups(Dedup(a + b + c)) by { DedupSpec(a + b + c); }
    DedupPrefix(a, b);
    DedupPrefix(a + b, c);
  }

  /** Merging new elements into a duplicate-free list: the list stays in front, every
      new element is listed and nothing else is. */
  lemma DedupMerge<T>(xs: seq<T>, ys: seq<T>)
    requires NoDups(xs)
    ensures xs <= Dedup(xs + ys) && NoDups(Dedup(xs + ys))
    ensures forall i :: 0 <= i < |ys| ==> ys[i] in Dedup(xs + ys)
    ensures forall i :: 0 <= i < |Dedup(xs + ys)| ==> Dedup(xs + ys)[i] in xs + ys
  {
    DedupOfNoDups(xs);
    DedupPrefix(xs, ys);
    DedupSpec(xs + ys);
    forall i | 0 <= i < |ys| ensures ys[i] in Dedup(xs + ys) {
      assert ys[i] == (xs + ys)[|xs| + i];
    }
  }

  /** Concatenation pushed through Dedup. */
  lemma {:induction false} DedupAppend<T>(xs: seq<T>, ys: seq<T>)
    ensures Dedup(xs + ys) == Dedup(Dedup(xs) + ys)
    decreases |ys|
  {
    if ys == [] {
      assert xs + ys == xs;
      assert Dedup(xs) + ys == Dedup(xs);
      DedupIdempotent(xs);
    } else {
      var init, last := ys[..|ys| - 1], ys[|ys| - 1];
      assert ys == init + [last];
      DedupAppend(xs, init);
      DedupSpec(xs);
      assert xs + ys == (xs + init) + [last];
      assert Dedup(xs) + ys == (Dedup(xs) + init) + [last];
      DedupSnoc(xs + init, last);
      DedupSnoc(Dedup(xs) + init, last);
    }
  }

  /** In a duplicate-free sequence every element occurs once. */
  lemma {:induction false} NoDupsOccursOnce<T>(s: seq<T>, x: T)
    requires NoDups(s)
    ensures multiset(s)[x] == if x in s then 1 else 0
  {
    if s != [] {
      assert s == [s[0]] + s[1..];
      NoDupsOccursOnce(s[1..], x);
      assert s[0] !in s[1..];
    }
  }

  /** Two duplicate-free sequences with the same elements are permutations of each other. */
  lemma NoDupsMultiset<T>(s: seq<T>, t: seq<T>)
    requires NoDups(s) && NoDups(t)
    requires forall i :: 0 <= i < |s| ==> s[i] in t
    requires forall i :: 0 <= i < |t| ==> t[i] in s
    ensures multiset(s) == multiset(t)
  {
    forall x ensures multiset(s)[x] == multiset(t)[x] {
      NoDupsOccursOnce(s, x);
      NoDupsOccursOnce(t, x);
    }
  }

  /** The defined results of `f` over `xs`, in order: a `forEach` that pushes what each
      element gives, if anything. */
  function FilterMap<A, B>(xs: seq<A>, f: A -> Option<B>): (r: seq<B>)
    ensures |r| <= |xs|
  {
    if xs == [] then []
    else
      var init := FilterMap(xs[..|xs| - 1], f);
      match f(xs[|xs| - 1])
      case Some(y) => init + [y]
      case None => init
  }

  /** The step of such a loop, for the prefix that grows by one element. */
  lemma FilterMapStep<A, B>(xs: seq<A>, j: nat, f: A -> Option<B>)
    requires j < |xs|
    ensures FilterMap(xs[..j + 1], f)
      == FilterMap(xs[..j], f) + (if f(xs[j]).Some? then [f(xs[j]).value] else [])
  {
    assert xs[..j + 1][..j] == xs[..j];
  }

  /** An element is in the result exactly when some input element gives it. */
  lemma {:induction false} FilterMapMembers<A, B>(xs: seq<A>, f: A -> Option<B>)
    ensures forall k :: 0 <= k < |xs| && f(xs[k]).Some? ==> f(xs[k]).value in FilterMap(xs, f)
    ensures forall y :: y in FilterMap(xs, f) ==> exists k :: 0 <= k < |xs| && f(xs[k]) == Some(y)
  {
    if xs != [] {
      var init := xs[..|xs| - 1];
      FilterMapMembers(init, f);
      FilterMapStep(xs, |xs| - 1, f);
      assert xs[..|xs|] == xs;
      forall k | 0 <= k < |xs| && f(xs[k]).Some?
        ensures f(xs[k]).value in FilterMap(xs, f)
      {
        if k < |init| {
          assert init[k] == xs[k];
        }
      }
      forall y | y in FilterMap(xs, f)
        ensures exists k :: 0 <= k < |xs| && f(xs[k]) == Some(y)
      {
        if y in FilterMap(init, f) {
          var k :| 0 <= k < |init| && f(init[k]) == Some(y);
          assert xs[k] == init[k];
        } else {
          assert f(xs[|xs| - 1]) == Some(y);
        }
      }
    }
  }

  /** Running over two parts one after the other. */
  lemma {:induction false} FilterMapAppend<A, B>(xs: seq<A>, ys: seq<A>, f: A -> Option<B>)
    ensures FilterMap(xs + ys, f) == FilterMap(xs, f) + FilterMap(ys, f)
    decreases |ys|
  {
    if ys == [] {
      assert xs + ys == xs;
    } else {
      var init := ys[..|ys| - 1];
      assert (xs + ys)[..|xs + ys| - 1] == xs + init;
      assert (xs + ys)[|xs + ys| - 1] == ys[|ys| - 1];
      FilterMapAppend(xs, init, f);
    }
  }

  /** The key of every element, in order. */
  function Keys<T, K>(xs: seq<T>, key: T -> K): (r: seq<K>)
    ensures |r| == |xs|
  {
    if xs == [] then [] else Keys(xs[..|xs| - 1], key) + [key(xs[|xs| - 1])]
  }

  lemma {:induction false} KeysAt<T, K>(xs: seq<T>, key: T -> K)
    ensures forall i :: 0 <= i < |xs| ==> Keys(xs, key)[i] == key(xs[i])
  {
    if xs != [] {
      KeysAt(xs[..|xs| - 1], key);
    }
  }

  lemma KeysSnoc<T, K>(xs: seq<T>, x: T, key: T -> K)
    ensures Keys(xs + [x], key) == Keys(xs, key) + [key(x)]
  {
    assert (xs + [x])[..|xs|] == xs;
  }

  /** A set that holds exactly the keys of `xs` keeps doing so when `x` is pushed. */
  lemma SeenSnoc<T, K>(seen: set<K>, xs: seq<T>, x: T, key: T -> K)
    requires forall k :: k in seen <==> k in Keys(xs, key)
    ensures forall k :: k in seen + {key(x)} <==> k in Keys(xs + [x], key)
  {
    KeysSnoc(xs, x, key);
  }

  /** The `seen`-Set filter: the first element of each key, in order. */
  function DedupBy<T, K(==)>(xs: seq<T>, key: T -> K): (r: seq<T>)
    ensures |r| <= |xs|
  {
    if xs == [] then []
    else
      var r := DedupBy(xs[..|xs| - 1], key);
      if key(xs[|xs| - 1]) in Keys(r, key) then r else r + [xs[|xs| - 1]]
  }

  /** The step of a `seen`-Set filter loop. */
  lemma DedupBySnoc<T, K>(xs: seq<T>, i: nat, key: T -> K)
    requires i < |xs|
    ensures DedupBy(xs[..i + 1], key) ==
      if key(xs[i]) in Keys(DedupBy(xs[..i], key), key) then DedupBy(xs[..i], key)
      else DedupBy(xs[..i], key) + [xs[i]]
  {
    assert xs[..i + 1][..i] == xs[..i];
  }

  /** The keys kept are the distinct keys of the input, in order of first appearance. */
  lemma {:induction false} DedupByKeys<T, K>(xs: seq<T>, key: T -> K)
    ensures Keys(DedupBy(xs, key), key) == Dedup(Keys(xs, key))
  {
    if xs != [] {
      var init, last := xs[..|xs| - 1], xs[|xs| - 1];
      DedupByKeys(init, key);
      DedupPush(Keys(init, key), key(last));
      KeysSnoc(DedupBy(init, key), last, key);
    }
  }

  /** No two elements kept share a key. */
  lemma DedupByDistinct<T, K>(xs: seq<T>, key: T -> K)
    ensures NoDups(Keys(DedupBy(xs, key), key))
  {
    DedupByKeys(xs, key);
    DedupSpec(Keys(xs, key));
  }

  /** Every element kept is the first element of the input with its key. */
  lemma {:induction false} DedupByFirst<T, K>(xs: seq<T>, key: T -> K)
    ensures forall i :: 0 <= i < |DedupBy(xs, key)| ==>
      key(DedupBy(xs, key)[i]) in Keys(xs, key)
      && DedupBy(xs, key)[i] == xs[FirstIndex(Keys(xs, key), key(DedupBy(xs, key)[i]))]
  {
    if xs != [] {
      var init, last := xs[..|xs| - 1], xs[|xs| - 1];
      DedupByFirst(init, key);
      var r0 := DedupBy(init, key);
      KeysSnoc(init, last, key);
      assert init + [last] == xs;
      forall i | 0 <= i < |DedupBy(xs, key)|
        ensures key(DedupBy(xs, key)[i]) in Keys(xs, key)
          && DedupBy(xs, key)[i] == xs[FirstIndex(Keys(xs, key), key(DedupBy(xs, key)[i]))]
      {
        var x := DedupBy(xs, key)[i];
        if i < |r0| {
          assert x == r0[i];
          FirstIndexPrefix(Keys(init, key), [key(last)], key(x));
          assert xs[FirstIndex(Keys(init, key), key(x))] == init[FirstIndex(Keys(init, key), key(x))];
        } else {
          assert x == last && key(last) !in Keys(r0, key);
          assert key(last) !in Keys(init, key) by {
            DedupByKeys(init, key);
            DedupSpec(Keys(init, key));
          }
          assert forall j :: 0 <= j < |init| ==> Keys(xs, key)[j] != key(last);
          FirstIndexUnique(Keys(xs, key), key(last), |init|);
        }
      }
    }
  }
}
