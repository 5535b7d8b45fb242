/** Union-find over an array of parents, with path compression. */
module UnionFind {

  /** What a parent array stands for: each element's root, and a height that falls along every parent
      link, so no link ever leads round. */
  datatype Forest = Forest(root: seq<nat>, height: seq<nat>)

  predicate Stands(parent: seq<nat>, f: Forest, i: nat)
    requires |f.root| == |f.height| == |parent| && i < |parent|
  {
    && parent[i] < |parent| && f.root[i] < |parent|
    && f.root[f.root[i]] == f.root[i] && f.root[parent[i]] == f.root[i]
    && (parent[i] == i <==> f.root[i] == i)
    && (parent[i] != i ==> f.height[parent[i]] < f.height[i])
    && (f.root[i] != i ==> f.height[f.root[i]] < f.height[i])
  }

  predicate Sound(parent: seq<nat>, f: Forest) {
    |f.root| == |f.height| == |parent| && forall i :: 0 <= i < |parent| ==> Stands(parent, f, i)
  }

  /** Everything its own root. */
  function Alone(n: nat): (f: Forest)
    ensures |f.root| == |f.height| == n && forall i :: 0 <= i < n ==> f.root[i] == i
  {
    Forest(seq(n, i requires 0 <= i < n => i), seq(n, _ => 0))
  }

  /** The classes of `a` and `b` made one, under `b`'s root. */
  function Merged(f: Forest, a: nat, b: nat): (g: Forest)
    requires a < |f.root| && b < |f.root| && |f.root| == |f.height| && f.root[a] < |f.root| && f.root[b] < |f.root|
    ensures |g.root| == |g.height| == |f.root|
    ensures forall i :: 0 <= i < |g.root| ==> g.root[i] == if f.root[i] == f.root[a] then f.root[b] else f.root[i]
  {
    if f.root[a] == f.root[b] then f
    else Forest(
      seq(|f.root|, i requires 0 <= i < |f.root| => if f.root[i] == f.root[a] then f.root[b] else f.root[i]),
      seq(|f.root|, i requires 0 <= i < |f.root| => if f.root[i] == f.root[a] then f.height[i] + f.height[f.root[b]] + 1 else f.height[i]))
  }

  /** The root of `i`; every element passed on the way now points straight at it. */
  method Find(parent: array<nat>, i: nat, ghost f: Forest) returns (r: nat)
    requires i < parent.Length && Sound(parent[..], f)
    modifies parent
    ensures Sound(parent[..], f) && r == f.root[i] && parent[i] == r
    ensures forall x :: 0 <= x < parent.Length ==> parent[x] == old(parent[x]) || parent[x] == f.root[x]
    decreases f.height[i]
  {
    assert Stands(parent[..], f, i);
    if parent[i] != i {
      assert Stands(parent[..], f, parent[i]);
      var root := Find(parent, parent[i], f);
      CompressionIsSound(parent[..], f, i);
      ghost var was := parent[..];
      parent[i] := root;
      assert parent[..] == was[i := root];
    }
    r := parent[i];
  }

  lemma CompressionIsSound(parent: seq<nat>, f: Forest, i: nat)
    requires Sound(parent, f) && i < |parent|
    ensures f.root[i] < |parent| && Sound(parent[i := f.root[i]], f)
  {
    assert Stands(parent, f, i);
    var after := parent[i := f.root[i]];
    forall x | 0 <= x < |parent|
      ensures Stands(after, f, x)
    {
      assert Stands(parent, f, x);
      assert Stands(parent, f, f.root[x]);
    }
  }

  lemma MergeIsSound(parent: seq<nat>, f: Forest, a: nat, b: nat)
    requires Sound(parent, f) && a < |parent| && b < |parent|
    requires f.root[a] < |parent| && f.root[b] < |parent| && f.root[a] != f.root[b]
    ensures Sound(parent[f.root[a] := f.root[b]], Merged(f, a, b))
  {
    var ra, rb := f.root[a], f.root[b];
    assert Stands(parent, f, a) && Stands(parent, f, b) && Stands(parent, f, ra) && Stands(parent, f, rb);
    var after, g := parent[ra := rb], Merged(f, a, b);
    forall x | 0 <= x < |parent|
      ensures Stands(after, g, x)
    {
      assert Stands(parent, f, x) && Stands(parent, f, parent[x]) && Stands(parent, f, f.root[x]);
    }
  }

  /** Exactly the two elements' classes become one. */
  method Union(parent: array<nat>, a: nat, b: nat, ghost f: Forest) returns (ghost g: Forest)
    requires a < parent.Length && b < parent.Length && Sound(parent[..], f)
    modifies parent
    ensures |f.root| == |f.height| == parent.Length && f.root[a] < parent.Length && f.root[b] < parent.Length
    ensures Sound(parent[..], g) && g == Merged(f, a, b)
  {
    assert Stands(parent[..], f, a) && Stands(parent[..], f, b);
    var ra := Find(parent, a, f);
    var rb := Find(parent, b, f);
    g := Merged(f, a, b);
    if ra != rb {
      MergeIsSound(parent[..], f, a, b);
      ghost var was := parent[..];
      parent[ra] := rb;
      assert parent[..] == was[ra := rb];
    }
  }
}
