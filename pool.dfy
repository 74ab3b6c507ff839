/** Linear-search interning into an append-only pool: the discipline shared
    by every constant-pool table of the compiler (strings, namespaces,
    multinames). An existing equal entry is reused; otherwise the value is
    appended and its new position returned. */
module Pool {
  import opened Base

  /** The pool after interning `v`, and the index that now holds `v`. */
  datatype Interned<T> = Interned(pool: seq<T>, index: nat)

  function Intern<T(==)>(pool: seq<T>, v: T): (r: Interned<T>)
    ensures r.index < |r.pool| && r.pool[r.index] == v
    ensures v in pool ==> r.pool == pool && r.index == IndexOf(pool, v).value
    ensures v !in pool ==> r.pool == pool + [v] && r.index == |pool|
  {
    match IndexOf(pool, v)
    case Some(i) => Interned(pool, i)
    case None => Interned(pool + [v], |pool|)
  }

  /** `iter().position(|x| x == v)`: a left-to-right scan for the first equal element. */
  method Position<T(==)>(s: seq<T>, x: T) returns (r: Option<nat>)
    ensures r == IndexOf(s, x)
  {
    var i := 0;
    while i < |s|
      invariant 0 <= i <= |s|
      invariant x !in s[..i]
    {
      if s[i] == x {
        return Some(i);
      }
      assert s[..i + 1] == s[..i] + [s[i]];
      i := i + 1;
    }
    assert s[..i] == s;
    r := None;
  }

  /** Interning the whole sequence `vs` in order, collecting each index. */
  function InternAll<T(==)>(pool: seq<T>, vs: seq<T>): (r: (seq<T>, seq<nat>))
    ensures |r.1| == |vs|
    decreases |vs|
  {
    if |vs| == 0 then (pool, [])
    else
      var first := Intern(pool, vs[0]);
      var rest := InternAll(first.pool, vs[1..]);
      (rest.0, [first.index] + rest.1)
  }

  /** `vs` with every repeated element dropped, keeping first occurrences. */
  function FirstSeen<T(==)>(vs: seq<T>): seq<T>
    decreases |vs|
  {
    if |vs| == 0 then []
    else
      var prev := FirstSeen(vs[..|vs| - 1]);
      if vs[|vs| - 1] in prev then prev else prev + [vs[|vs| - 1]]
  }

  // ---------------------------------------------------------------------------
  // Lemmas.

  /** Interning keeps a pool free of duplicates. */
  lemma InternKeepsNoDuplicates<T>(pool: seq<T>, v: T)
    requires NoDuplicates(pool)
    ensures NoDuplicates(Intern(pool, v).pool)
  {
  }

  /** The pool only grows: earlier entries keep their positions. */
  lemma InternExtends<T>(pool: seq<T>, v: T)
    ensures |Intern(pool, v).pool| >= |pool|
    ensures Intern(pool, v).pool[..|pool|] == pool
  {
  }

  /** Interning the same value twice yields the same index and the second
      call leaves the pool unchanged. */
  lemma InternIdempotent<T>(pool: seq<T>, v: T)
    ensures Intern(Intern(pool, v).pool, v) == Intern(pool, v)
  {
  }

  /** In a duplicate-free pool, the index of a value identifies it: two values
      interned into it get the same index only if they are equal. */
  lemma InternIndexInjective<T>(pool: seq<T>, v: T, w: T)
    requires NoDuplicates(pool)
    ensures v != w ==> Intern(pool, v).index != Intern(Intern(pool, v).pool, w).index
  {
  }

  /** Interning a sequence into an empty pool builds the pool of its distinct
      values in first-seen order, and returns for each value its position
      there. In particular the values of a duplicate-free sequence get the
      indices 0, 1, 2, ... in order. */
  lemma {:induction false} InternAllFirstSeen<T>(vs: seq<T>)
    ensures InternAll([], vs).0 == FirstSeen(vs)
    ensures forall i :: 0 <= i < |vs| ==>
      InternAll([], vs).1[i] < |FirstSeen(vs)| && FirstSeen(vs)[InternAll([], vs).1[i]] == vs[i]
    decreases |vs|
  {
    if |vs| > 0 {
      var init := vs[..|vs| - 1];
      var last := vs[|vs| - 1];
      InternAllFirstSeen(init);
      InternAllSnoc([], init, last);
      assert vs == init + [last];
      var before := InternAll([], init);
      assert FirstSeen(vs) == Intern(before.0, last).pool;
      InternExtendsIndices(before.0, init, before.1, last);
    }
  }

  /** Indices that locate each value of `vs` in `pool` still do so in the
      pool after interning one more value, and the new index locates it. */
  lemma InternExtendsIndices<T>(pool: seq<T>, vs: seq<T>, indices: seq<nat>, v: T)
    requires |indices| == |vs|
    requires forall i :: 0 <= i < |vs| ==> indices[i] < |pool| && pool[indices[i]] == vs[i]
    ensures var r := Intern(pool, v);
      forall i :: 0 <= i < |vs| + 1 ==>
        (indices + [r.index])[i] < |r.pool| && r.pool[(indices + [r.index])[i]] == (vs + [v])[i]
  {
    var r := Intern(pool, v);
    forall i | 0 <= i < |vs| + 1
      ensures (indices + [r.index])[i] < |r.pool| && r.pool[(indices + [r.index])[i]] == (vs + [v])[i]
    {
      if i < |vs| {
        assert (indices + [r.index])[i] == indices[i];
        assert r.pool[..|pool|] == pool;
        assert r.pool[indices[i]] == pool[indices[i]];
      }
    }
  }

  /** Interning one more value at the end of the sequence. */
  lemma {:induction false} InternAllSnoc<T>(pool: seq<T>, vs: seq<T>, v: T)
    ensures InternAll(pool, vs + [v]).0 == Intern(InternAll(pool, vs).0, v).pool
    ensures InternAll(pool, vs + [v]).1 == InternAll(pool, vs).1 + [Intern(InternAll(pool, vs).0, v).index]
    decreases |vs|
  {
    if |vs| == 0 {
      assert vs + [v] == [v];
    } else {
      assert (vs + [v])[0] == vs[0];
      assert (vs + [v])[1..] == vs[1..] + [v];
      InternAllSnoc(Intern(pool, vs[0]).pool, vs[1..], v);
    }
  }

  /** The distinct values of a duplicate-free sequence are the sequence itself. */
  lemma {:induction false} FirstSeenOfDistinct<T>(vs: seq<T>)
    requires NoDuplicates(vs)
    ensures FirstSeen(vs) == vs
    decreases |vs|
  {
    if |vs| > 0 {
      var init := vs[..|vs| - 1];
      assert NoDuplicates(init);
      FirstSeenOfDistinct(init);
      assert vs[|vs| - 1] !in init;
      assert vs == init + [vs[|vs| - 1]];
    }
  }

  /** The distinct values are exactly the values of the sequence, each once. */
  lemma {:induction false} FirstSeenElements<T>(vs: seq<T>)
    ensures forall x :: x in FirstSeen(vs) <==> x in vs
    ensures NoDuplicates(FirstSeen(vs))
    ensures |FirstSeen(vs)| <= |vs|
    decreases |vs|
  {
    if |vs| > 0 {
      var init := vs[..|vs| - 1];
      FirstSeenElements(init);
      assert vs == init + [vs[|vs| - 1]];
      NoDuplicatesSnoc(FirstSeen(init), vs[|vs| - 1]);
    }
  }

  /** The distinct values of `a + b` begin with the distinct values of `a`. */
  lemma {:induction false} FirstSeenAppend<T>(a: seq<T>, b: seq<T>)
    ensures |FirstSeen(a)| <= |FirstSeen(a + b)|
    ensures FirstSeen(a + b)[..|FirstSeen(a)|] == FirstSeen(a)
    decreases |b|
  {
    if |b| == 0 {
      assert a + b == a;
    } else {
      var init := b[..|b| - 1];
      FirstSeenAppend(a, init);
      assert (a + b)[..|a + b| - 1] == a + init;
    }
  }

  /** Distinct values interned into an empty pool get indices 0, 1, 2, ... in order. */
  lemma InternDistinctInOrder<T>(vs: seq<T>)
    requires NoDuplicates(vs)
    ensures InternAll([], vs).0 == vs
    ensures forall i :: 0 <= i < |vs| ==> InternAll([], vs).1[i] == i
  {
    InternAllFirstSeen(vs);
    FirstSeenOfDistinct(vs);
    forall i | 0 <= i < |vs|
      ensures InternAll([], vs).1[i] == i
    {
      var j := InternAll([], vs).1[i];
      assert j < |vs| && vs[j] == vs[i];
    }
  }
}
