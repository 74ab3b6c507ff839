/** The constant-pool interning context used by the assembler: three
    append-only, duplicate-free tables (strings, namespaces, multinames) and
    the three-level construction of a qualified name in the empty package
    namespace. */
module Intern {
  import opened Base
  import opened Abc
  import Pool

  /** The value of the three tables the context mutates. */
  datatype Pools = Pools(strings: seq<string>, namespaces: seq<Namespace>, multinames: seq<Multiname>)

  predicate PoolsValid(p: Pools) {
    NoDuplicates(p.strings) && NoDuplicates(p.namespaces) && NoDuplicates(p.multinames)
  }

  /** `p` is `q` with possibly more entries appended to each table. */
  predicate Extends(p: Pools, q: Pools) {
    |q.strings| <= |p.strings| && p.strings[..|q.strings|] == q.strings &&
    |q.namespaces| <= |p.namespaces| && p.namespaces[..|q.namespaces|] == q.namespaces &&
    |q.multinames| <= |p.multinames| && p.multinames[..|q.multinames|] == q.multinames
  }

  // The pure counterparts of the context's methods.

  function InternStringIn(p: Pools, v: string): (Pools, nat) {
    var r := Pool.Intern(p.strings, v);
    (p.(strings := r.pool), UsizeAsU32(r.index))
  }

  function InternNamespaceIn(p: Pools, v: Namespace): (Pools, nat) {
    var r := Pool.Intern(p.namespaces, v);
    (p.(namespaces := r.pool), UsizeAsU32(r.index))
  }

  function InternMultinameIn(p: Pools, v: Multiname): (Pools, nat) {
    var r := Pool.Intern(p.multinames, v);
    (p.(multinames := r.pool), UsizeAsU32(r.index))
  }

  /** `empty_namespaced_qname`: intern `""`, then the package namespace named
      by it, then `name`, then the qualified name of the two. */
  function EmptyNamespacedQNameIn(p: Pools, name: string): (Pools, nat) {
    var (p1, empty) := InternStringIn(p, "");
    var (p2, ns) := InternNamespaceIn(p1, Package(empty));
    var (p3, n) := InternStringIn(p2, name);
    InternMultinameIn(p3, QName(ns, n))
  }

  class InternContext {
    var strings: seq<string>
    var namespaces: seq<Namespace>
    var multinames: seq<Multiname>

    function State(): Pools
      reads this
    {
      Pools(strings, namespaces, multinames)
    }

    predicate Valid()
      reads this
    {
      PoolsValid(State())
    }

    constructor ()
      ensures Valid()
      ensures State() == Pools([], [], [])
    {
      strings, namespaces, multinames := [], [], [];
    }

    /** `intern_string`: the index of the first equal entry, or the old length
        after appending `val`. The other tables are untouched. */
    method InternString(val: string) returns (index: nat)
      requires Valid()
      modifies this
      ensures Valid()
      ensures (State(), index) == InternStringIn(old(State()), val)
    {
      var found := Pool.Position(strings, val);
      if found.Some? {
        index := UsizeAsU32(found.value);
      } else {
        index := UsizeAsU32(|strings|);
        strings := strings + [val];
      }
    }

    /** `intern_namespace`: the same discipline on the namespace table. */
    method InternNamespace(val: Namespace) returns (index: nat)
      requires Valid()
      modifies this
      ensures Valid()
      ensures (State(), index) == InternNamespaceIn(old(State()), val)
    {
      var found := Pool.Position(namespaces, val);
      if found.Some? {
        index := UsizeAsU32(found.value);
      } else {
        index := UsizeAsU32(|namespaces|);
        namespaces := namespaces + [val];
      }
    }

    /** `intern_multiname`: the same discipline on the multiname table. */
    method InternMultiname(val: Multiname) returns (index: nat)
      requires Valid()
      modifies this
      ensures Valid()
      ensures (State(), index) == InternMultinameIn(old(State()), val)
    {
      var found := Pool.Position(multinames, val);
      if found.Some? {
        index := UsizeAsU32(found.value);
      } else {
        index := UsizeAsU32(|multinames|);
        multinames := multinames + [val];
      }
    }

    method EmptyNamespacedQName(name: string) returns (index: nat)
      requires Valid()
      modifies this
      ensures Valid()
      ensures (State(), index) == EmptyNamespacedQNameIn(old(State()), name)
    {
      var empty := InternString("");
      var ns := InternNamespace(Package(empty));
      var n := InternString(name);
      index := InternMultiname(QName(ns, n));
    }
  }

  // ---------------------------------------------------------------------------
  // Lemmas about the tables.

  /** Each intern operation returns an index holding the value, keeps the
      tables duplicate-free, only appends, and leaves the other tables alone,
      as long as the table is short enough for its indices to fit in a `u32`. */
  lemma InternStringSpec(p: Pools, v: string)
    requires PoolsValid(p) && |p.strings| < U32_LIMIT
    ensures var (q, i) := InternStringIn(p, v);
      PoolsValid(q) && Extends(q, p) && i < |q.strings| && q.strings[i] == v &&
      q.namespaces == p.namespaces && q.multinames == p.multinames &&
      (v in p.strings <==> q == p) && (v !in p.strings ==> i == |p.strings|)
  {
    Pool.InternKeepsNoDuplicates(p.strings, v);
  }

  lemma InternNamespaceSpec(p: Pools, v: Namespace)
    requires PoolsValid(p) && |p.namespaces| < U32_LIMIT
    ensures var (q, i) := InternNamespaceIn(p, v);
      PoolsValid(q) && Extends(q, p) && i < |q.namespaces| && q.namespaces[i] == v &&
      q.strings == p.strings && q.multinames == p.multinames &&
      (v in p.namespaces <==> q == p) && (v !in p.namespaces ==> i == |p.namespaces|)
  {
    Pool.InternKeepsNoDuplicates(p.namespaces, v);
  }

  lemma InternMultinameSpec(p: Pools, v: Multiname)
    requires PoolsValid(p) && |p.multinames| < U32_LIMIT
    ensures var (q, i) := InternMultinameIn(p, v);
      PoolsValid(q) && Extends(q, p) && i < |q.multinames| && q.multinames[i] == v &&
      q.strings == p.strings && q.namespaces == p.namespaces &&
      (v in p.multinames <==> q == p) && (v !in p.multinames ==> i == |p.multinames|)
  {
    Pool.InternKeepsNoDuplicates(p.multinames, v);
  }

  /** The returned multiname is the qualified name of `name` in the package
      namespace named by the empty string, each part found at its index. */
  lemma EmptyNamespacedQNameSpec(p: Pools, name: string)
    requires PoolsValid(p)
    requires |p.strings| + 2 <= U32_LIMIT && |p.namespaces| < U32_LIMIT && |p.multinames| < U32_LIMIT
    ensures var (q, i) := EmptyNamespacedQNameIn(p, name);
      PoolsValid(q) && Extends(q, p) && i < |q.multinames| &&
      var qn := q.multinames[i];
      qn.namespace < |q.namespaces| && qn.name < |q.strings| &&
      q.strings[qn.name] == name &&
      q.namespaces[qn.namespace].nameIndex < |q.strings| &&
      q.strings[q.namespaces[qn.namespace].nameIndex] == ""
  {
    var (p1, empty) := InternStringIn(p, "");
    InternStringSpec(p, "");
    var (p2, ns) := InternNamespaceIn(p1, Package(empty));
    InternNamespaceSpec(p1, Package(empty));
    var (p3, n) := InternStringIn(p2, name);
    InternStringSpec(p2, name);
    InternMultinameSpec(p3, QName(ns, n));
    var (q, i) := InternMultinameIn(p3, QName(ns, n));
    assert q.multinames[i] == QName(ns, n);
    assert q.strings == p3.strings && q.namespaces == p3.namespaces;
    assert p3.namespaces == p2.namespaces && p2.namespaces[ns] == Package(empty);
    assert p2.strings == p1.strings && empty < |p1.strings| && p1.strings[empty] == "";
    assert p3.strings[..|p2.strings|] == p2.strings;
    assert p3.strings[empty] == p2.strings[empty];
    ExtendsTransitive(p3, p2, p1);
    ExtendsTransitive(p3, p1, p);
    ExtendsTransitive(q, p3, p);
  }

  lemma ExtendsTransitive(a: Pools, b: Pools, c: Pools)
    requires Extends(a, b) && Extends(b, c)
    ensures Extends(a, c)
  {
    assert a.strings[..|c.strings|] == a.strings[..|b.strings|][..|c.strings|];
    assert a.namespaces[..|c.namespaces|] == a.namespaces[..|b.namespaces|][..|c.namespaces|];
    assert a.multinames[..|c.multinames|] == a.multinames[..|b.multinames|][..|c.multinames|];
  }

  /** A second request for the same qualified name grows no table and returns
      the same index. */
  lemma EmptyNamespacedQNameIdempotent(p: Pools, name: string)
    ensures var (q, i) := EmptyNamespacedQNameIn(p, name);
      EmptyNamespacedQNameIn(q, name) == (q, i)
  {
    var (p1, empty) := InternStringIn(p, "");
    var (p2, ns) := InternNamespaceIn(p1, Package(empty));
    var (p3, n) := InternStringIn(p2, name);
    var (q, i) := InternMultinameIn(p3, QName(ns, n));
    // Every part is now present, in front of any later entry.
    Pool.InternExtends(p2.strings, name);
    assert q.strings[..|p1.strings|] == p1.strings;
    InternStringAgain(p, q, "");
    InternNamespaceAgain(p1, q, Package(empty));
    InternStringAgain(p2, q, name);
    Pool.InternIdempotent(p3.multinames, QName(ns, n));
  }

  /** Interning again, into a later state of the same table, a value that
      was already interned earlier finds it at the same index. */
  lemma InternStringAgain(p: Pools, q: Pools, v: string)
    requires |InternStringIn(p, v).0.strings| <= |q.strings|
    requires q.strings[..|InternStringIn(p, v).0.strings|] == InternStringIn(p, v).0.strings
    ensures InternStringIn(q, v) == (q, InternStringIn(p, v).1)
  {
    IndexOfPrefix(q.strings, InternStringIn(p, v).0.strings, v);
  }

  lemma InternNamespaceAgain(p: Pools, q: Pools, v: Namespace)
    requires |InternNamespaceIn(p, v).0.namespaces| <= |q.namespaces|
    requires q.namespaces[..|InternNamespaceIn(p, v).0.namespaces|] == InternNamespaceIn(p, v).0.namespaces
    ensures InternNamespaceIn(q, v) == (q, InternNamespaceIn(p, v).1)
  {
    IndexOfPrefix(q.namespaces, InternNamespaceIn(p, v).0.namespaces, v);
  }

  /** The same string interned twice yields the same index; two distinct
      strings interned into an empty context get 0 and 1, in that order. */
  lemma InternStringExamples(a: string, b: string)
    requires a != b
    ensures var (p1, i) := InternStringIn(Pools([], [], []), a);
      var (p2, j) := InternStringIn(p1, a);
      var (p3, k) := InternStringIn(p2, b);
      i == 0 && j == 0 && p2 == p1 && k == 1 && p3.strings == [a, b]
  {
  }
}
