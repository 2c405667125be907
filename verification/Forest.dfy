/**
 * Rooted forests given by a partial parent function, and the recursive
 * tree walks the folder queries run over them.
 */
module Forest {
  import opened Prelude

  /** The k-th ancestor of `x`, if the chain of parents is that long. */
  ghost function Up(pm: map<Id, Id>, x: Id, k: nat): Option<Id>
    decreases k
  {
    if k == 0 then Some(x)
    else if x in pm then Up(pm, pm[x], k - 1)
    else None
  }

  /** `x` is `root` or one of its descendants. */
  ghost predicate Under(pm: map<Id, Id>, x: Id, root: Id)
  {
    exists k: nat :: Up(pm, x, k) == Some(root)
  }

  /** `x` is at most `limit` levels below `root`. */
  ghost predicate Within(pm: map<Id, Id>, x: Id, root: Id, limit: nat)
  {
    exists k: nat :: k <= limit && Up(pm, x, k) == Some(root)
  }

  /** `x` is its own proper ancestor. */
  ghost predicate OnCycle(pm: map<Id, Id>, x: Id)
  {
    exists k: nat :: k > 0 && Up(pm, x, k) == Some(x)
  }

  ghost predicate Acyclic(pm: map<Id, Id>)
  {
    forall x :: !OnCycle(pm, x)
  }

  // ---------- ancestor arithmetic ----------

  lemma {:induction false} UpCompose(pm: map<Id, Id>, x: Id, j: nat, y: Id, k: nat)
    requires Up(pm, x, j) == Some(y)
    ensures Up(pm, x, j + k) == Up(pm, y, k)
    decreases j
  {
    if j > 0 {
      UpCompose(pm, pm[x], j - 1, y, k);
    }
  }

  lemma UnderSelf(pm: map<Id, Id>, x: Id)
    ensures Under(pm, x, x)
  {
    assert Up(pm, x, 0) == Some(x);
  }

  lemma UnderParent(pm: map<Id, Id>, x: Id, root: Id)
    requires x in pm && Under(pm, pm[x], root)
    ensures Under(pm, x, root)
  {
    var k: nat :| Up(pm, pm[x], k) == Some(root);
    assert Up(pm, x, k + 1) == Some(root);
  }

  lemma UnderStep(pm: map<Id, Id>, x: Id, root: Id)
    requires Under(pm, x, root) && x != root
    ensures x in pm && Under(pm, pm[x], root)
  {
    var k: nat :| Up(pm, x, k) == Some(root);
    assert k > 0 && Up(pm, pm[x], k - 1) == Some(root);
  }

  /** Of two ancestors of the same node, one is an ancestor of the other. */
  lemma UnderLinear(pm: map<Id, Id>, x: Id, y: Id, z: Id)
    requires Under(pm, x, y) && Under(pm, x, z)
    ensures Under(pm, y, z) || Under(pm, z, y)
  {
    var j: nat :| Up(pm, x, j) == Some(y);
    var k: nat :| Up(pm, x, k) == Some(z);
    if j <= k {
      UpCompose(pm, x, j, y, k - j);
    } else {
      UpCompose(pm, x, k, z, j - k);
    }
  }

  /** Meeting the same ancestor twice on the way up means it is on a cycle. */
  lemma MeetTwice(pm: map<Id, Id>, x: Id, j: nat, k: nat, y: Id)
    requires j < k && Up(pm, x, j) == Some(y) && Up(pm, x, k) == Some(y)
    ensures OnCycle(pm, y)
  {
    UpCompose(pm, x, j, y, k - j);
  }

  /** Dropping edges keeps the remaining chains what they were. */
  lemma {:induction false} UpShrink(small: map<Id, Id>, big: map<Id, Id>, x: Id, k: nat)
    requires forall y :: y in small ==> y in big && big[y] == small[y]
    requires Up(small, x, k).Some?
    ensures Up(big, x, k) == Up(small, x, k)
    decreases k
  {
    if k > 0 {
      UpShrink(small, big, small[x], k - 1);
    }
  }

  lemma CyclesShrink(small: map<Id, Id>, big: map<Id, Id>)
    requires forall y :: y in small ==> y in big && big[y] == small[y]
    ensures forall x :: OnCycle(small, x) ==> OnCycle(big, x)
  {
    forall x ensures OnCycle(small, x) ==> OnCycle(big, x) {
      if OnCycle(small, x) {
        var k: nat :| k > 0 && Up(small, x, k) == Some(x);
        UpShrink(small, big, x, k);
      }
    }
  }

  /** Whatever is above a node on a cycle is on a cycle. */
  lemma CycleAbove(pm: map<Id, Id>, x: Id, y: Id)
    requires OnCycle(pm, x) && Under(pm, x, y)
    ensures OnCycle(pm, y)
  {
    var n: nat :| n > 0 && Up(pm, x, n) == Some(x);
    var k: nat :| Up(pm, x, k) == Some(y);
    UpCompose(pm, x, n, x, k);
    MeetTwice(pm, x, k, n + k, y);
  }

  // ---------- re-parenting ----------

  /** A chain after giving `f` a parent is an old one, or it passes through `f`. */
  lemma {:induction false} UpViaMoved(pm: map<Id, Id>, f: Id, p: Id, x: Id, k: nat, y: Id)
    requires Up(pm[f := p], x, k) == Some(y)
    ensures Up(pm, x, k) == Some(y) || Under(pm[f := p], f, y)
    decreases k
  {
    if k > 0 && x != f {
      UpViaMoved(pm, f, p, pm[x], k - 1, y);
    }
  }

  /** Outside the moved subtree no chain changes, and none enters it. */
  lemma {:induction false} UpOutsideMoved(pm: map<Id, Id>, f: Id, p: Id, y: Id, k: nat)
    requires !Under(pm, y, f)
    ensures Up(pm[f := p], y, k) == Up(pm, y, k)
    ensures Up(pm, y, k).Some? ==> !Under(pm, Up(pm, y, k).value, f)
    decreases k
  {
    UnderSelf(pm, f);
    if k > 0 && y in pm {
      if Under(pm, pm[y], f) {
        UnderParent(pm, y, f);
      }
      UpOutsideMoved(pm, f, p, pm[y], k - 1);
    }
  }

  /** A new chain that ends inside the moved subtree was already there. */
  lemma {:induction false} UpInsideMoved(pm: map<Id, Id>, f: Id, p: Id, x: Id, k: nat, y: Id)
    requires !Under(pm, p, f)
    requires Up(pm[f := p], x, k) == Some(y) && Under(pm, y, f)
    ensures Up(pm, x, k) == Some(y)
    decreases k
  {
    if k > 0 {
      if x == f {
        UpOutsideMoved(pm, f, p, p, k - 1);
      } else {
        UpInsideMoved(pm, f, p, pm[x], k - 1, y);
      }
    }
  }

  /** In an acyclic forest a chain up to `f` survives giving `f` a new parent. */
  lemma {:induction false} UpToMoved(pm: map<Id, Id>, f: Id, p: Id, y: Id, k: nat)
    requires Acyclic(pm)
    requires Up(pm, y, k) == Some(f)
    ensures Up(pm[f := p], y, k) == Some(f)
    decreases k
  {
    if k > 0 {
      assert y == f ==> OnCycle(pm, f);
      UpToMoved(pm, f, p, pm[y], k - 1);
    }
  }

  /** A parent outside the subtree of `f` closes no cycle. */
  lemma ReparentOutside(pm: map<Id, Id>, f: Id, p: Id)
    requires !Under(pm, p, f)
    ensures forall x :: OnCycle(pm[f := p], x) ==> OnCycle(pm, x)
  {
    var moved := pm[f := p];
    forall x ensures OnCycle(moved, x) ==> OnCycle(pm, x) {
      if OnCycle(moved, x) {
        var k: nat :| k > 0 && Up(moved, x, k) == Some(x);
        if Under(pm, x, f) {
          UpInsideMoved(pm, f, p, x, k, x);
        } else {
          UpOutsideMoved(pm, f, p, x, k);
        }
      }
    }
  }

  /** Giving `f` the parent `p` keeps the forest acyclic exactly when `p` is outside `f`'s subtree. */
  lemma ReparentAcyclic(pm: map<Id, Id>, f: Id, p: Id)
    requires Acyclic(pm)
    ensures Acyclic(pm[f := p]) <==> !Under(pm, p, f)
  {
    var moved := pm[f := p];
    if Under(pm, p, f) {
      var k: nat :| Up(pm, p, k) == Some(f);
      UpToMoved(pm, f, p, p, k);
      assert Up(moved, f, k + 1) == Some(f);
      assert OnCycle(moved, f);
    } else {
      ReparentOutside(pm, f, p);
      assert forall x :: OnCycle(moved, x) ==> OnCycle(pm, x);
    }
  }

  // ---------- the recursive queries ----------

  /** One join step of a recursive query: the rows whose parent is `s`, each once. */
  method ChildrenOf(pm: map<Id, Id>, s: Id) returns (kids: seq<Id>)
    ensures NoDup(kids)
    ensures forall x :: x in kids <==> x in pm && pm[x] == s
  {
    kids := [];
    var todo: set<Id> := pm.Keys;
    while todo != {}
      invariant todo <= pm.Keys
      invariant NoDup(kids)
      invariant forall x :: x in kids <==> x in pm && x !in todo && pm[x] == s
      decreases todo
    {
      var x := AnyOf(todo);
      todo := todo - {x};
      if pm[x] == s {
        kids := kids + [x];
      }
    }
  }

  /**
   * The unbounded recursive walk with UNION ALL: nothing removes duplicates and
   * nothing bounds the depth. It lists the subtree without repetition, unless the
   * root comes up again; then every iteration finds another row and the query
   * runs until its deadline cancels it: `None`.
   */
  method Walk(pm: map<Id, Id>, root: Id) returns (result: Option<seq<Id>>)
    ensures result.None? <==> OnCycle(pm, root)
    ensures result.Some? ==> NoDup(result.value) && forall x :: x in result.value <==> Under(pm, x, root)
  {
    var out := [];
    var pending := [root];
    UnderSelf(pm, root);
    while pending != []
      invariant NoDup(out + pending)
      invariant root in out + pending
      invariant forall x :: x in out + pending ==> Under(pm, x, root)
      invariant forall x :: x in out + pending && x != root ==> x in pm && pm[x] in out
      invariant forall x :: x in pm && pm[x] in out ==> x in out + pending
      invariant root in pm ==> pm[root] !in out
      decreases |pm.Keys + {root}| - |out|
    {
      var s := pending[0];
      var kids := ChildrenOf(pm, s);
      if root in kids {
        CycleThroughParent(pm, root);
        return None;
      }
      ghost var seen := out + pending;
      assert s == seen[|out|];
      assert forall i :: 0 <= i < |out| ==> out[i] == seen[i] != seen[|out|];
      forall x | x in kids ensures x !in seen && Under(pm, x, root) {
        UnderParent(pm, x, root);
      }
      NoDupBounded(out + [s], pm.Keys + {root}) by {
        assert out + [s] == seen[..|out| + 1];
      }
      AppendNoDup(seen, kids);
      assert (out + [s]) + (pending[1..] + kids) == seen + kids;
      out, pending := out + [s], pending[1..] + kids;
    }
    assert out + pending == out;
    forall x | Under(pm, x, root) ensures x in out {
      var k: nat :| Up(pm, x, k) == Some(root);
      ClosedHoldsSubtree(pm, root, out, x, k);
    }
    if OnCycle(pm, root) {
      CycleStep(pm, root);
    }
    result := Some(out);
  }

  lemma CycleStep(pm: map<Id, Id>, root: Id)
    requires OnCycle(pm, root)
    ensures root in pm && Under(pm, pm[root], root)
  {
    var k: nat :| k > 0 && Up(pm, root, k) == Some(root);
    assert Up(pm, pm[root], k - 1) == Some(root);
  }

  lemma AppendNoDup(s: seq<Id>, t: seq<Id>)
    requires NoDup(s) && NoDup(t)
    requires forall x :: x in t ==> x !in s
    ensures NoDup(s + t)
  {
    forall i, j | 0 <= i < j < |s + t| ensures (s + t)[i] != (s + t)[j] {
      if i < |s| <= j {
        assert t[j - |s|] in t;
      }
    }
  }

  lemma CycleThroughParent(pm: map<Id, Id>, root: Id)
    requires root in pm && Under(pm, pm[root], root)
    ensures OnCycle(pm, root)
  {
    var k: nat :| Up(pm, pm[root], k) == Some(root);
    assert Up(pm, root, k + 1) == Some(root);
  }

  lemma {:induction false} ClosedHoldsSubtree(pm: map<Id, Id>, root: Id, s: seq<Id>, x: Id, k: nat)
    requires root in s
    requires forall y :: y in pm && pm[y] in s ==> y in s
    requires Up(pm, x, k) == Some(root)
    ensures x in s
    decreases k
  {
    if k > 0 {
      ClosedHoldsSubtree(pm, root, s, pm[x], k - 1);
    }
  }

  /**
   * If the root is its own ancestor, every iteration of the UNION ALL query finds
   * another row, so the query never ends.
   */
  lemma {:induction false} WalkDivergesOnCycle(pm: map<Id, Id>, root: Id, n: nat, k: nat) returns (x: Id, m: nat)
    requires n > 0 && Up(pm, root, n) == Some(root)
    ensures Up(pm, x, k) == Some(root)
    ensures Up(pm, root, m) == Some(x)
    decreases k
  {
    if k == 0 {
      x, m := root, 0;
    } else {
      var y, j := WalkDivergesOnCycle(pm, root, n, k - 1);
      if j == 0 { j := n; }
      assert Up(pm, root, j) == Some(y) && j > 0;
      m := j - 1;
      UpPrefix(pm, root, m, j);
      x := Up(pm, root, m).value;
      UpCompose(pm, root, m, x, 1);
      assert x in pm && pm[x] == y;
    }
  }

  lemma {:induction false} UpPrefix(pm: map<Id, Id>, x: Id, j: nat, k: nat)
    requires j <= k && Up(pm, x, k).Some?
    ensures Up(pm, x, j).Some?
    decreases j
  {
    if j > 0 {
      UpPrefix(pm, pm[x], j - 1, k - 1);
    }
  }

  /** The depth-bounded search: level by level, rows at depth `limit` are not expanded. */
  method SearchWithin(pm: map<Id, Id>, root: Id, limit: nat, target: Id) returns (found: bool)
    ensures found <==> Within(pm, target, root, limit)
  {
    var level := [root];
    found := target == root;
    var depth: nat := 0;
    assert found <==> Up(pm, target, depth) == Some(root);
    while depth < limit
      invariant 0 <= depth <= limit
      invariant forall x :: x in level <==> Up(pm, x, depth) == Some(root)
      invariant found <==> Within(pm, target, root, depth)
    {
      var next := JoinLevel(pm, level);
      forall x ensures x in next <==> Up(pm, x, depth + 1) == Some(root) {
        if x in pm { assert Up(pm, x, depth + 1) == Up(pm, pm[x], depth); }
      }
      level, depth := next, depth + 1;
      found := found || target in level;
    }
  }

  /** The next working table of the bounded search. */
  method JoinLevel(pm: map<Id, Id>, level: seq<Id>) returns (next: seq<Id>)
    ensures forall x :: x in next <==> x in pm && pm[x] in level
  {
    next := [];
    for i := 0 to |level|
      invariant forall x :: x in next <==> x in pm && pm[x] in level[..i]
    {
      var kids := ChildrenOf(pm, level[i]);
      assert level[..i + 1] == level[..i] + [level[i]];
      next := next + kids;
    }
    assert level[..|level|] == level;
  }
}
