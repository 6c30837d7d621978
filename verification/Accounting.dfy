/** Who refers to which host cluster, and what the refcounts must say about it.

    A slot is one place of the image that can name host clusters. The refcount of a
    cluster counts slots: a data cluster reached through an L2 table that two L1 tables
    share has two slots, one for each path. Nothing here mentions bytes. */
module Accounting {

  datatype Slot =
    | Fixed(owner: nat, cluster: nat)    // header, refcount table, snapshot table, an L1 table
    | Block(b: nat)                      // refcount table entry b
    | Table(k: nat, i: nat)              // entry i of L1 table k; table 0 is the active one
    | Data(k: nat, i: nat, j: nat)       // entry j of the L2 table that Table(k, i) names

  datatype Ref = Nil | One(cluster: nat, copied: bool) | Span(first: nat, last: nat)

  predicate Touches(ref: Ref, c: nat) {
    match ref
    case Nil => false
    case One(x, _) => x == c
    case Span(first, last) => first <= c <= last
  }

  datatype Meta = Meta(refs: map<Slot, Ref>, counts: map<nat, nat>)

  function Count(m: Meta, c: nat): nat {
    if c in m.counts then m.counts[c] else 0
  }

  function Users(m: Meta, c: nat): set<Slot> {
    set r | r in m.refs && Touches(m.refs[r], c)
  }

  /** How many more references the refcount claims than there are. Positive is a leak, negative a corruption. */
  function Slack(m: Meta, c: nat): int {
    Count(m, c) - |Users(m, c)|
  }

  /** Slots whose cluster nothing else may name. */
  predicate Owned(r: Slot) { r.Fixed? || r.Block? }

  predicate Active(r: Slot) { (r.Table? || r.Data?) && r.k == 0 }

  ghost predicate Sound(m: Meta) {
    forall c: nat :: Count(m, c) >= |Users(m, c)|
  }

  ghost predicate Exclusive(m: Meta) {
    forall r, s, c: nat {:trigger Touches(m.refs[r], c), Touches(m.refs[s], c)} ::
      r in m.refs && s in m.refs && Owned(r) && Touches(m.refs[r], c) && Touches(m.refs[s], c) ==> r == s
  }

  predicate CopiedRef(ref: Ref) { ref.One? && ref.copied }

  ghost predicate CopiedMeansOne(m: Meta) {
    forall r :: r in m.refs && Active(r) && CopiedRef(m.refs[r]) ==> Count(m, m.refs[r].cluster) == 1
  }

  ghost predicate Inv(m: Meta) {
    Sound(m) && Exclusive(m) && CopiedMeansOne(m)
  }

  // ---- reading the invariant ----

  lemma SingletonSet<T>(s: set<T>, x: T)
    requires x in s && |s| <= 1
    ensures s == {x}
  {
    if s != {x} {
      var y :| y in s && y != x;
      assert |{x, y}| == 2;
      SubsetSize({x, y}, s);
    }
  }

  lemma {:induction false} SubsetSize<T>(a: set<T>, b: set<T>)
    requires a <= b
    ensures |a| <= |b|
  {
    if a != {} {
      var x :| x in a;
      SubsetSize(a - {x}, b - {x});
    }
  }

  /** A cluster whose refcount is at most one and which r names is named by nothing else. */
  lemma SoleUser(m: Meta, r: Slot, c: nat)
    requires Sound(m) && r in m.refs && Touches(m.refs[r], c) && Count(m, c) <= 1
    ensures Users(m, c) == {r}
    ensures forall s :: s in m.refs && s != r ==> !Touches(m.refs[s], c)
  {
    assert r in Users(m, c);
    SingletonSet(Users(m, c), r);
    forall s | s in m.refs && s != r ensures !Touches(m.refs[s], c) {
      assert s !in Users(m, c);
    }
  }

  lemma UserCounted(m: Meta, r: Slot, c: nat)
    requires r in m.refs && Touches(m.refs[r], c)
    ensures |Users(m, c)| >= 1
  {
    SubsetSize({r}, Users(m, c));
  }

  lemma Unused(m: Meta, c: nat)
    requires Sound(m) && Count(m, c) == 0
    ensures Users(m, c) == {}
    ensures forall s :: s in m.refs ==> !Touches(m.refs[s], c)
  {
    NoUsers(m, c);
  }

  lemma NoUsers(m: Meta, c: nat)
    requires Users(m, c) == {}
    ensures forall s :: s in m.refs ==> !Touches(m.refs[s], c)
  {
    forall s | s in m.refs ensures !Touches(m.refs[s], c) {
      assert s !in Users(m, c);
    }
  }

  // ---- the four ways an image's accounting changes ----

  function Recount(m: Meta, c: nat, n: nat): Meta {
    m.(counts := m.counts[c := n])
  }

  function Relink(m: Meta, r: Slot, ref: Ref): Meta {
    m.(refs := m.refs[r := ref])
  }

  lemma RecountUsers(m: Meta, c: nat, n: nat, x: nat)
    ensures Users(Recount(m, c, n), x) == Users(m, x)
    ensures Count(Recount(m, c, n), x) == if x == c then n else Count(m, x)
    ensures Slack(Recount(m, c, n), x) == Slack(m, x) + if x == c then n - Count(m, c) else 0
  {
    assert Users(Recount(m, c, n), x) == Users(m, x);
  }

  function Bit(b: bool): nat { if b then 1 else 0 }

  lemma RelinkUsers(m: Meta, r: Slot, ref: Ref, x: nat)
    requires r in m.refs
    ensures |Users(Relink(m, r, ref), x)| == |Users(m, x)| - Bit(Touches(m.refs[r], x)) + Bit(Touches(ref, x))
    ensures Slack(Relink(m, r, ref), x) == Slack(m, x) + Bit(Touches(m.refs[r], x)) - Bit(Touches(ref, x))
  {
    var u, u' := Users(m, x), Users(Relink(m, r, ref), x);
    assert u' - {r} == u - {r};
    assert r in u <==> Touches(m.refs[r], x);
    assert r in u' <==> Touches(ref, x);
    assert |u| == |u - {r}| + Bit(r in u);
    assert |u'| == |u' - {r}| + Bit(r in u');
  }

  /** A free cluster is claimed: its refcount becomes one before anything names it. */
  lemma ClaimInv(m: Meta, c: nat)
    requires Inv(m) && Count(m, c) == 0
    ensures Inv(Recount(m, c, 1)) && Users(Recount(m, c, 1), c) == {}
    ensures forall x: nat :: Slack(Recount(m, c, 1), x) == Slack(m, x) + Bit(x == c)
  {
    var m' := Recount(m, c, 1);
    Unused(m, c);
    forall x: nat ensures Count(m', x) >= |Users(m', x)| && Slack(m', x) == Slack(m, x) + Bit(x == c) {
      RecountUsers(m, c, 1, x);
    }
    forall r | r in m'.refs && Active(r) && CopiedRef(m'.refs[r]) ensures Count(m', m'.refs[r].cluster) == 1 {
      assert Touches(m.refs[r], m.refs[r].cluster);
    }
    RecountUsers(m, c, 1, c);
  }

  /** A share is dropped that no slot holds any more. */
  lemma ReleaseInv(m: Meta, c: nat)
    requires Inv(m) && Slack(m, c) >= 1
    ensures Inv(Recount(m, c, Count(m, c) - 1))
    ensures forall x: nat :: Slack(Recount(m, c, Count(m, c) - 1), x) == Slack(m, x) - Bit(x == c)
  {
    var m' := Recount(m, c, Count(m, c) - 1);
    forall x: nat ensures Count(m', x) >= |Users(m', x)| && Slack(m', x) == Slack(m, x) - Bit(x == c) {
      RecountUsers(m, c, Count(m, c) - 1, x);
    }
    forall r | r in m'.refs && Active(r) && CopiedRef(m'.refs[r]) ensures Count(m', m'.refs[r].cluster) == 1 {
      UserCounted(m, r, m.refs[r].cluster);
    }
  }

  /** A slot is pointed at a claimed cluster nothing names yet. */
  lemma LinkInv(m: Meta, r: Slot, c: nat, copied: bool)
    requires Inv(m) && r in m.refs && !Owned(r) && Users(m, c) == {} && Count(m, c) == 1
    ensures Inv(Relink(m, r, One(c, copied)))
    ensures forall x: nat ::
              Slack(Relink(m, r, One(c, copied)), x) == Slack(m, x) + Bit(Touches(m.refs[r], x)) - Bit(x == c)
  {
    var m' := Relink(m, r, One(c, copied));
    NoUsers(m, c);
    forall x: nat
      ensures Count(m', x) >= |Users(m', x)|
      ensures Slack(m', x) == Slack(m, x) + Bit(Touches(m.refs[r], x)) - Bit(x == c)
    {
      RelinkUsers(m, r, One(c, copied), x);
    }
    forall s, t, x: nat | s in m'.refs && t in m'.refs && Owned(s) && Touches(m'.refs[s], x) && Touches(m'.refs[t], x)
      ensures s == t
    {
      assert m'.refs[s] == m.refs[s];
      if t != r { assert Touches(m.refs[t], x); }
    }
  }

  /** Refcount table entry b is pointed at a fresh block, the first cluster of its own range, which also
      records one claimed cluster. */
  function WithBlock(m: Meta, b: nat, block: nat, claimed: nat): Meta {
    Recount(Recount(Relink(m, Block(b), One(block, false)), block, 1), claimed, 1)
  }

  lemma BlockInv(m: Meta, b: nat, block: nat, claimed: nat)
    requires Inv(m) && Block(b) in m.refs && m.refs[Block(b)] == Nil
    requires block != claimed && Count(m, block) == 0 && Count(m, claimed) == 0
    ensures Inv(WithBlock(m, b, block, claimed)) && Users(WithBlock(m, b, block, claimed), claimed) == {}
    ensures forall x: nat :: Slack(WithBlock(m, b, block, claimed), x) == Slack(m, x) + Bit(x == claimed)
    ensures forall x: nat ::
              Count(WithBlock(m, b, block, claimed), x) == if x == block || x == claimed then 1 else Count(m, x)
  {
    var r := One(block, false);
    var m1 := Relink(m, Block(b), r);
    var m2 := Recount(m1, block, 1);
    var m' := Recount(m2, claimed, 1);
    Unused(m, block);
    Unused(m, claimed);
    forall x: nat
      ensures Count(m', x) == (if x == block || x == claimed then 1 else Count(m, x))
      ensures Slack(m', x) == Slack(m, x) + Bit(x == claimed) && Count(m', x) >= |Users(m', x)|
    {
      RelinkUsers(m, Block(b), r, x);
      RecountUsers(m1, block, 1, x);
      RecountUsers(m2, claimed, 1, x);
    }
    assert Users(m', claimed) == {} by {
      assert Count(m', claimed) == 1 && Slack(m', claimed) == Slack(m, claimed) + 1 && Slack(m, claimed) == 0;
    }
    forall s, t, x: nat | s in m'.refs && t in m'.refs && Owned(s) && Touches(m'.refs[s], x) && Touches(m'.refs[t], x)
      ensures s == t
    {
      if s != Block(b) { assert Touches(m.refs[s], x); }
      if t != Block(b) { assert Touches(m.refs[t], x); }
    }
    forall s | s in m'.refs && Active(s) && CopiedRef(m'.refs[s]) ensures Count(m', m'.refs[s].cluster) == 1 {
      assert Touches(m.refs[s], m.refs[s].cluster);
    }
  }

  // ---- why COPIED has to be true of every entry, not only of trusted ones ----

  /** What a lookup believes: a flag in an L2 table counts only when the L1 entry above it carries one too. */
  ghost predicate TrustedCopiedMeansOne(m: Meta) {
    forall i, j ::
      (&& Data(0, i, j) in m.refs && Table(0, i) in m.refs
       && CopiedRef(m.refs[Table(0, i)]) && CopiedRef(m.refs[Data(0, i, j)]))
      ==> Count(m, m.refs[Data(0, i, j)].cluster) == 1
  }

  ghost predicate FlagsTrue(m: Meta, i: nat) {
    forall j :: Data(0, i, j) in m.refs && CopiedRef(m.refs[Data(0, i, j)]) ==>
                  Count(m, m.refs[Data(0, i, j)].cluster) == 1
  }

  /** Once a shared L2 table has been copied verbatim and its L1 entry marked, the flags inside it are believed:
      that is sound exactly when they were true already, while nothing was believing them. */
  lemma CopyBelievesFlags(m: Meta, i: nat, copy: nat)
    requires TrustedCopiedMeansOne(m) && Table(0, i) in m.refs
    ensures TrustedCopiedMeansOne(Relink(m, Table(0, i), One(copy, true))) <==> FlagsTrue(m, i)
  {
    var m' := Relink(m, Table(0, i), One(copy, true));
    assert forall r :: r in m'.refs <==> r in m.refs;
    assert forall x, y :: Data(0, x, y) in m.refs ==> m'.refs[Data(0, x, y)] == m.refs[Data(0, x, y)];
    assert forall x :: x != i && Table(0, x) in m.refs ==> m'.refs[Table(0, x)] == m.refs[Table(0, x)];
    assert CopiedRef(m'.refs[Table(0, i)]);
    if TrustedCopiedMeansOne(m') {
      forall j | Data(0, i, j) in m.refs && CopiedRef(m.refs[Data(0, i, j)])
        ensures Count(m, m.refs[Data(0, i, j)].cluster) == 1
      {
        assert CopiedRef(m'.refs[Data(0, i, j)]);
      }
    }
  }
}
