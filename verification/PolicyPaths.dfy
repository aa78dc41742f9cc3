/**
  Node identity paths of a policy tree: `n` for the root, `n.0`, `n.1`, ... for children.
 */
module PolicyPaths {
  import opened Json
  import opened Options
  import opened PolicyAst

  function Child(path: string, i: nat): string {
    path + ['.'] + Decimal(i)
  }

  /** The paths in depth-first order. */
  function Paths(n: PolicyNode, path: string): (ps: seq<string>)
    ensures ps != [] && ps[0] == path
    decreases n, 1
  {
    [path] + (if n.Op? then PathsAll(n.children, path, 0) else [])
  }

  function PathsAll(ns: seq<PolicyNode>, path: string, i: nat): seq<string>
    decreases ns, 0
  {
    if ns == [] then [] else Paths(ns[0], Child(path, i)) + PathsAll(ns[1..], path, i + 1)
  }

  /** The nodes in the same order. */
  function Nodes(n: PolicyNode): seq<PolicyNode>
    decreases n, 1
  {
    [n] + (if n.Op? then NodesAll(n.children) else [])
  }

  function NodesAll(ns: seq<PolicyNode>): seq<PolicyNode>
    decreases ns, 0
  {
    if ns == [] then [] else Nodes(ns[0]) + NodesAll(ns[1..])
  }

  /** `x` is `path` or continues it with a dot. */
  predicate Under(path: string, x: string) {
    x == path || (path + ['.'] <= x)
  }

  lemma {:induction false} UnderParent(path: string, i: nat, x: string)
    requires Under(Child(path, i), x)
    ensures Under(path, x) && x != path
  {
    assert path + ['.'] <= Child(path, i);
  }

  predicate NoDot(s: string) {
    forall i :: 0 <= i < |s| ==> s[i] != '.'
  }

  lemma {:induction false} UnderFirst(path: string, x: string)
    requires path != "" && Under(path, x)
    ensures x != "" && x[0] == path[0]
  {
    assert (path + ['.'])[0] == path[0];
  }

  lemma {:induction false} SameUpToDot(a: string, b: string, u: string)
    requires NoDot(a) && NoDot(b) && Under(a, u) && Under(b, u)
    ensures a == b
    decreases |a|
  {
    if a != "" {
      UnderFirst(a, u);
    }
    if b != "" {
      UnderFirst(b, u);
    }
    if a != "" && b != "" {
      assert a[1..] + ['.'] == (a + ['.'])[1..] && b[1..] + ['.'] == (b + ['.'])[1..];
      SameUpToDot(a[1..], b[1..], u[1..]);
      assert a == [a[0]] + a[1..] && b == [b[0]] + b[1..];
    }
  }

  /** Different children lead to different paths. */
  lemma {:induction false} ChildrenApart(path: string, i: nat, j: nat, x: string)
    requires Under(Child(path, i), x) && Under(Child(path, j), x)
    ensures i == j
  {
    UnderChild(path, i, x);
    UnderChild(path, j, x);
    SameUpToDot(Decimal(i), Decimal(j), x[|path| + 1..]);
    DecimalInjective(i, j);
  }

  lemma {:induction false} UnderChild(path: string, i: nat, x: string)
    requires Under(Child(path, i), x)
    ensures |x| > |path| && Under(Decimal(i), x[|path| + 1..])
  {
    var n := |path| + 1;
    assert Child(path, i)[n..] == Decimal(i);
    if x != Child(path, i) {
      assert (Child(path, i) + ['.'])[n..] == Decimal(i) + ['.'];
    }
  }

  lemma {:induction false} PathsUnder(n: PolicyNode, path: string)
    ensures forall x :: x in Paths(n, path) ==> Under(path, x)
    ensures forall k :: 0 < k < |Paths(n, path)| ==> Paths(n, path)[k] != path
    decreases n, 1
  {
    if n.Op? {
      PathsAllUnder(n.children, path, 0);
      var rest := PathsAll(n.children, path, 0);
      forall x | x in rest ensures Under(path, x) && x != path {
        var j: nat :| j >= 0 && Under(Child(path, j), x);
        UnderParent(path, j, x);
      }
      forall k | 0 < k < |Paths(n, path)| ensures Paths(n, path)[k] != path {
        assert Paths(n, path)[k] == rest[k - 1] && rest[k - 1] in rest;
      }
    }
  }

  lemma {:induction false} PathsAllUnder(ns: seq<PolicyNode>, path: string, i: nat)
    ensures forall x :: x in PathsAll(ns, path, i) ==> exists j: nat :: j >= i && Under(Child(path, j), x)
    decreases ns, 0
  {
    if ns != [] {
      PathsUnder(ns[0], Child(path, i));
      PathsAllUnder(ns[1..], path, i + 1);
      forall x | x in PathsAll(ns, path, i) ensures exists j: nat :: j >= i && Under(Child(path, j), x) {
        if x in Paths(ns[0], Child(path, i)) {
          assert Under(Child(path, i), x);
        } else {
          assert x in PathsAll(ns[1..], path, i + 1);
          var j: nat :| j >= i + 1 && Under(Child(path, j), x);
        }
      }
    }
  }

  predicate Distinct(xs: seq<string>) {
    forall i, j :: 0 <= i < j < |xs| ==> xs[i] != xs[j]
  }

  lemma {:induction false} DistinctConcat(xs: seq<string>, ys: seq<string>)
    requires Distinct(xs) && Distinct(ys) && forall x :: x in xs ==> x !in ys
    ensures Distinct(xs + ys)
  {
    forall i, j | 0 <= i < j < |xs + ys| ensures (xs + ys)[i] != (xs + ys)[j] {
      if i < |xs| <= j {
        assert xs[i] in xs && ys[j - |xs|] in ys;
      }
    }
  }

  /** No two nodes of a tree share a path. */
  lemma {:induction false} PathsDistinct(n: PolicyNode, path: string)
    ensures Distinct(Paths(n, path))
    decreases n, 1
  {
    PathsUnder(n, path);
    if n.Op? {
      PathsAllDistinct(n.children, path, 0);
      var rest := PathsAll(n.children, path, 0);
      assert Paths(n, path) == [path] + rest;
      forall k | 0 <= k < |rest| ensures rest[k] != path {
        assert Paths(n, path)[k + 1] == rest[k];
      }
      DistinctConcat([path], rest);
    }
  }

  lemma {:induction false} PathsAllDistinct(ns: seq<PolicyNode>, path: string, i: nat)
    ensures Distinct(PathsAll(ns, path, i))
    decreases ns, 0
  {
    if ns != [] {
      var head, tail := Paths(ns[0], Child(path, i)), PathsAll(ns[1..], path, i + 1);
      PathsDistinct(ns[0], Child(path, i));
      PathsAllDistinct(ns[1..], path, i + 1);
      PathsUnder(ns[0], Child(path, i));
      PathsAllUnder(ns[1..], path, i + 1);
      forall x | x in head ensures x !in tail {
        if x in tail {
          var j: nat :| j >= i + 1 && Under(Child(path, j), x);
          ChildrenApart(path, i, j, x);
        }
      }
      DistinctConcat(head, tail);
    }
  }

  // ----- a path leads back to its node

  function Resolve(n: PolicyNode, path: string, x: string): Option<PolicyNode>
    decreases n, 1
  {
    if x == path then Some(n) else if n.Cond? then None else ResolveAll(n.children, path, 0, x)
  }

  function ResolveAll(ns: seq<PolicyNode>, path: string, i: nat, x: string): Option<PolicyNode>
    decreases ns, 0
  {
    if ns == [] then None
    else if Under(Child(path, i), x) then Resolve(ns[0], Child(path, i), x)
    else ResolveAll(ns[1..], path, i + 1, x)
  }

  /** The k-th path leads to the k-th node. */
  lemma {:induction false} PathResolves(n: PolicyNode, path: string, k: nat)
    requires k < |Paths(n, path)|
    ensures |Nodes(n)| == |Paths(n, path)| && Resolve(n, path, Paths(n, path)[k]) == Some(Nodes(n)[k])
    decreases n, 1
  {
    SameCount(n, path);
    PathsUnder(n, path);
    if k > 0 {
      assert Paths(n, path)[k] == PathsAll(n.children, path, 0)[k - 1];
      assert Nodes(n)[k] == NodesAll(n.children)[k - 1];
      PathResolvesAll(n.children, path, 0, k - 1);
    }
  }

  lemma {:induction false} PathResolvesAll(ns: seq<PolicyNode>, path: string, i: nat, k: nat)
    requires k < |PathsAll(ns, path, i)|
    ensures |NodesAll(ns)| == |PathsAll(ns, path, i)|
    ensures ResolveAll(ns, path, i, PathsAll(ns, path, i)[k]) == Some(NodesAll(ns)[k])
    decreases ns, 0
  {
    SameCountAll(ns, path, i);
    var head, tail := Paths(ns[0], Child(path, i)), PathsAll(ns[1..], path, i + 1);
    var x := PathsAll(ns, path, i)[k];
    SameCount(ns[0], Child(path, i));
    PathsUnder(ns[0], Child(path, i));
    if k < |head| {
      assert x == head[k] && x in head;
      PathResolves(ns[0], Child(path, i), k);
    } else {
      var m := k - |head|;
      assert x == tail[m] && x in tail;
      PathsAllUnder(ns[1..], path, i + 1);
      var j: nat :| j >= i + 1 && Under(Child(path, j), x);
      if Under(Child(path, i), x) {
        ChildrenApart(path, i, j, x);
      }
      PathResolvesAll(ns[1..], path, i + 1, m);
    }
  }

  lemma {:induction false} SameCount(n: PolicyNode, path: string)
    ensures |Nodes(n)| == |Paths(n, path)|
    decreases n, 1
  {
    if n.Op? {
      SameCountAll(n.children, path, 0);
    }
  }

  lemma {:induction false} SameCountAll(ns: seq<PolicyNode>, path: string, i: nat)
    ensures |NodesAll(ns)| == |PathsAll(ns, path, i)|
    decreases ns, 0
  {
    if ns != [] {
      SameCount(ns[0], Child(path, i));
      SameCountAll(ns[1..], path, i + 1);
    }
  }

  // ----- the walk as the source runs it

  class PathWalk {
    var paths: seq<string>

    constructor ()
      ensures paths == []
    {
      paths := [];
    }

    method Visit(n: PolicyNode, path: string)
      modifies this
      ensures paths == old(paths) + Paths(n, path)
      decreases n
    {
      paths := paths + [path];
      assert n.Cond? ==> Paths(n, path) == [path];
      if n.Op? {
        ghost var before := paths;
        ghost var whole := PathsAll(n.children, path, 0);
        assert n.children[0..] == n.children;
        for i := 0 to |n.children|
          invariant paths + PathsAll(n.children[i..], path, i) == before + whole
        {
          assert n.children[i..][1..] == n.children[i + 1..];
          Visit(n.children[i], Child(path, i));
        }
        assert before + whole == old(paths) + ([path] + whole);
      }
    }
  }

  method PolicyNodeIdentityPaths(root: PolicyNode) returns (paths: seq<string>)
    ensures paths == Paths(root, "n")
    ensures Distinct(paths)
  {
    var walk := new PathWalk();
    walk.Visit(root, "n");
    paths := walk.paths;
    PathsDistinct(root, "n");
  }
}
