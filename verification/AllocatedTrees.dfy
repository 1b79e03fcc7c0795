/** Memory allocated below one chunk goes with it. */
module AllocatedTrees {
  import opened Forest
  import opened FreeSpec
  import opened Talloc

  /** A chunk and the context it was allocated below. */
  datatype Step = Step(p: Ptr, context: Ptr)

  /** fs are the forests as chunks are allocated one after the other: first a root, and then each one
      below one of those before it. */
  ghost predicate IsBuilt(fs: seq<Forest>, steps: seq<Step>) {
    && |fs| == |steps| + 1 && steps != [] && steps[0].context == NULL
    && forall i :: 0 <= i < |steps| ==> Allocates(fs, steps, i)
  }

  ghost predicate Allocates(fs: seq<Forest>, steps: seq<Step>, i: nat)
    requires i < |steps| && |fs| == |steps| + 1
  {
    && steps[i].p !in fs[i] && steps[i].p != NULL && NULL !in fs[i]
    && (i > 0 ==> exists j :: 0 <= j < i && steps[j].p == steps[i].context)
    && (steps[i].context == NULL || steps[i].context in fs[i])
    && fs[i + 1] == Talloc.Allocated(fs[i], steps[i].p, steps[i].context)
  }

  /** The chunks allocated by the first n steps. */
  function Chunks(steps: seq<Step>, n: nat): set<Ptr>
    requires n <= |steps|
  {
    set j | 0 <= j < n :: steps[j].p
  }

  lemma AllocatedTree(f: Forest, p: Ptr, context: Ptr)
    requires Tree(f) && p !in f && p != NULL && (context == NULL || (context in f && f[context].target == NULL))
    ensures Tree(Talloc.Allocated(f, p, context))
  {
    hide Tree, Below, Attached;
    CreatedTree(f, p);
    if context != NULL {
      Talloc.NewIsApart(f, p, context);
      AttachedTree(Created(f, p), p, context);
    }
  }

  lemma OneMoreBelow(f: Forest, p: Ptr, context: Ptr, root: Ptr)
    requires Tree(f) && p !in f && p != NULL && context in f && context in Below(f, {root}) && root in f
    ensures var g := Talloc.Allocated(f, p, context);
            && g.Keys == f.Keys + {p} && Below(g, {root}) == Below(f, {root}) + {p}
            && g[p].refs == [] && g[p].target == NULL
            && forall x :: x in f ==> g[x].refs == f[x].refs && g[x].target == f[x].target
  {
    NotAncestor(f, p);
    hide Tree;
  }

  lemma NotAncestor(f: Forest, p: Ptr)
    requires Tree(f) && p !in f
    ensures forall x :: x in f ==> p !in f[x].anc
  {
    forall x | x in f ensures p !in f[x].anc {
      AncestorsExist(f, x);
    }
  }

  lemma FirstBelow(f: Forest, p: Ptr)
    requires Tree(f) && p !in f && p != NULL
    ensures var g := Talloc.Allocated(f, p, NULL);
            && g.Keys == f.Keys + {p} && Below(g, {p}) == {p} && g[p].refs == [] && g[p].target == NULL
  {
    NotAncestor(f, p);
    hide Tree;
  }

  /** All of them are below the first, and none is referenced or a handle. */
  ghost predicate AllBelow(f0: Forest, f: Forest, steps: seq<Step>, n: nat)
    requires 0 < n <= |steps|
  {
    && Tree(f) && Below(f, {steps[0].p}) == Chunks(steps, n) && f.Keys == f0.Keys + Chunks(steps, n)
    && Chunks(steps, n) !! f0.Keys && steps[0].p in f
    && forall x :: x in Chunks(steps, n) ==> x in f && f[x].refs == [] && f[x].target == NULL
  }

  lemma {:induction false} BuiltBelow(fs: seq<Forest>, steps: seq<Step>, n: nat)
    requires IsBuilt(fs, steps) && 0 < n <= |steps| && Tree(fs[0])
    ensures AllBelow(fs[0], fs[n], steps, n)
  {
    hide AllBelow, Talloc.Allocated, Tree, Chunks;
    assert Allocates(fs, steps, n - 1);
    if n == 1 {
      FirstAllocated(fs[0], steps);
    } else {
      BuiltBelow(fs, steps, n - 1);
      ContextAmong(fs, steps, n - 1);
      NextAllocated(fs[0], fs[n - 1], steps, n - 1);
    }
  }

  lemma FirstAllocated(f: Forest, steps: seq<Step>)
    requires Tree(f) && steps != [] && steps[0].p !in f && steps[0].p != NULL
    ensures AllBelow(f, Talloc.Allocated(f, steps[0].p, NULL), steps, 1)
  {
    hide Tree, Below, Talloc.Allocated;
    AllocatedTree(f, steps[0].p, NULL);
    FirstBelow(f, steps[0].p);
  }

  lemma NextAllocated(f0: Forest, f: Forest, steps: seq<Step>, n: nat)
    requires 0 < n < |steps| && AllBelow(f0, f, steps, n)
    requires steps[n].p !in f && steps[n].p != NULL && steps[n].context in Chunks(steps, n)
    ensures steps[n].context in f && AllBelow(f0, Talloc.Allocated(f, steps[n].p, steps[n].context), steps, n + 1)
  {
    hide Tree, Below, Talloc.Allocated;
    var s := steps[n];
    assert Chunks(steps, n + 1) == Chunks(steps, n) + {s.p};
    hide Chunks;
    AllocatedTree(f, s.p, s.context);
    OneMoreBelow(f, s.p, s.context, steps[0].p);
  }

  lemma ContextAmong(fs: seq<Forest>, steps: seq<Step>, n: nat)
    requires n < |steps| && |fs| == |steps| + 1 && Allocates(fs, steps, n) && n > 0
    ensures steps[n].context in Chunks(steps, n)
  {
  }

  lemma UnheldGo(f: Forest, root: Ptr)
    requires forall x :: x in Below(f, {root}) ==> f[x].refs == []
    ensures Freed(f, {root}) == Below(f, {root})
  {
    assert Top(f, {root}) == {};
    hide Below;
  }

  /** Freeing the first chunk frees all that was allocated below it, and nothing else. */
  lemma TreeGoes(fs: seq<Forest>, steps: seq<Step>, g: Forest)
    requires IsBuilt(fs, steps) && Tree(fs[0])
    requires var f, root := fs[|steps|], steps[0].p; Frees(f, g, Freed(f, {root}), Top(f, {root}))
    ensures g.Keys == fs[0].Keys
  {
    hide Tree, Below, Freed, Top;
    BuiltBelow(fs, steps, |steps|);
    UnheldGo(fs[|steps|], steps[0].p);
  }
}
