/**
 The explicit stack that hashes a tree from the leaves up (src/main.ts, 716-741;
 src/core/sync/MerkleManager.ts, 144-170): what holds between its steps.
 */
module MerkleStack {
  import opened Names
  import opened Merkle

  /** A node still to be expanded, or expanded and waiting for its children. */
  datatype Entry = Push(node: NodePath) | Process(node: NodePath)

  /** Every node of `stack` is there once. */
  ghost predicate Apart(stack: seq<Entry>) {
    forall i, j | 0 <= i < j < |stack| :: stack[i].node != stack[j].node
  }

  ghost predicate OnStack(stack: seq<Entry>, e: Entry) {
    exists i :: 0 <= i < |stack| && stack[i] == e
  }

  /** Every node on the stack is in the right stage, and its parent has been expanded. */
  ghost predicate Staged(tree: Tree, stack: seq<Entry>, expanded: set<NodePath>, done: set<NodePath>) {
    forall i | 0 <= i < |stack| ::
      var n := stack[i].node;
      && n in tree && n !in done && (stack[i].Process? <==> n in expanded)
      && (n != [] ==> Parent(n) in expanded)
  }

  /** What is expanded but not done waits on the stack; a node whose parent is expanded is expanded or waits to be. */
  ghost predicate Waiting(tree: Tree, stack: seq<Entry>, expanded: set<NodePath>, done: set<NodePath>) {
    && (forall n | n in expanded && n !in done :: OnStack(stack, Process(n)))
    && (forall n | n in tree && n !in expanded && (n == [] || Parent(n) in expanded) :: OnStack(stack, Push(n)))
  }

  /** The children of an expanded node are done, or above it on the stack. */
  ghost predicate ChildrenFirst(tree: Tree, stack: seq<Entry>, done: set<NodePath>) {
    forall i, n | 0 <= i < |stack| && stack[i].Process? && n in tree && n != [] && Parent(n) == stack[i].node ::
      n in done || exists j :: i < j < |stack| && stack[j].node == n
  }

  ghost predicate StackInv(tree: Tree, stack: seq<Entry>, expanded: set<NodePath>, done: set<NodePath>) {
    && Rooted(tree) && done <= expanded <= tree.Keys
    && (forall n | n in expanded && n != [] :: Parent(n) in expanded)
    && Apart(stack) && Staged(tree, stack, expanded, done) && Waiting(tree, stack, expanded, done)
    && ChildrenFirst(tree, stack, done)
  }

  lemma StartInv(tree: Tree)
    requires Rooted(tree)
    ensures StackInv(tree, [Push([])], {}, {})
  {
    assert [Push([])][0] == Push([]);
  }

  /** When the stack is empty, every node is done. */
  lemma {:induction false} EmptyMeansDone(tree: Tree, expanded: set<NodePath>, done: set<NodePath>, n: NodePath)
    requires StackInv(tree, [], expanded, done) && n in tree
    ensures n in done
    decreases |n|
  {
    if n != [] { EmptyMeansDone(tree, expanded, done, Parent(n)); }
    assert n in expanded by { assert !OnStack([], Push(n)); }
    assert !OnStack([], Process(n));
  }

  /** The node processed last of its subtree: all its children are done. */
  lemma ProcessedAfterChildren(tree: Tree, stack: seq<Entry>, expanded: set<NodePath>, done: set<NodePath>)
    requires StackInv(tree, stack, expanded, done) && stack != [] && stack[|stack| - 1].Process?
    ensures forall k | k in Children(tree, stack[|stack| - 1].node) :: stack[|stack| - 1].node + [k] in done
  {
    var n := stack[|stack| - 1].node;
    ChildrenAre(tree, n);
    forall k | k in Children(tree, n)
      ensures n + [k] in done
    {
      assert Parent(n + [k]) == n;
    }
  }

  lemma OnShorterStack(stack: seq<Entry>, e: Entry)
    requires stack != [] && OnStack(stack, e) && e != stack[|stack| - 1]
    ensures OnStack(stack[..|stack| - 1], e)
  {
    var i :| 0 <= i < |stack| && stack[i] == e;
    assert stack[..|stack| - 1][i] == e;
  }

  lemma ProcessWaits(tree: Tree, stack: seq<Entry>, expanded: set<NodePath>, done: set<NodePath>)
    requires Waiting(tree, stack, expanded, done) && stack != [] && stack[|stack| - 1].Process?
      && stack[|stack| - 1].node in expanded
    ensures Waiting(tree, stack[..|stack| - 1], expanded, done + {stack[|stack| - 1].node})
  {
    var rest, n := stack[..|stack| - 1], stack[|stack| - 1].node;
    forall m | m in expanded && m !in done && m != n
      ensures OnStack(rest, Process(m))
    {
      OnShorterStack(stack, Process(m));
    }
    forall m | m in tree && m !in expanded && (m == [] || Parent(m) in expanded)
      ensures OnStack(rest, Push(m))
    {
      OnShorterStack(stack, Push(m));
    }
  }

  lemma ProcessChildrenFirst(tree: Tree, stack: seq<Entry>, done: set<NodePath>)
    requires ChildrenFirst(tree, stack, done) && stack != []
    ensures ChildrenFirst(tree, stack[..|stack| - 1], done + {stack[|stack| - 1].node})
  {
    var rest, n := stack[..|stack| - 1], stack[|stack| - 1].node;
    forall i, m | 0 <= i < |rest| && rest[i].Process? && m in tree && m != [] && Parent(m) == rest[i].node && m !in done
      && m != n
      ensures exists j :: i < j < |rest| && rest[j].node == m
    {
      assert stack[i] == rest[i];
      var j :| i < j < |stack| && stack[j].node == m;
      assert rest[j].node == m;
    }
  }

  /** Processing the top of the stack. */
  lemma ProcessKeeps(tree: Tree, stack: seq<Entry>, expanded: set<NodePath>, done: set<NodePath>)
    requires StackInv(tree, stack, expanded, done) && stack != [] && stack[|stack| - 1].Process?
    ensures StackInv(tree, stack[..|stack| - 1], expanded, done + {stack[|stack| - 1].node})
  {
    hide Waiting, ChildrenFirst;
    ProcessWaits(tree, stack, expanded, done);
    ProcessChildrenFirst(tree, stack, done);
  }

  /** `pushes` holds every child of `n` once, to be expanded. */
  ghost predicate PushesChildren(tree: Tree, n: NodePath, pushes: seq<Entry>) {
    && Apart(pushes)
    && (forall i | 0 <= i < |pushes| ::
        pushes[i].Push? && pushes[i].node in tree && pushes[i].node != [] && Parent(pushes[i].node) == n)
    && (forall m | m in tree && m != [] && Parent(m) == n :: OnStack(pushes, Push(m)))
  }

  lemma OnLongerStack(stack: seq<Entry>, e: Entry, more: seq<Entry>)
    ensures OnStack(stack, e) ==> OnStack(stack + more, e)
    ensures OnStack(more, e) ==> OnStack(stack + more, e)
  {
    if i :| 0 <= i < |stack| && stack[i] == e { assert (stack + more)[i] == e; }
    if i :| 0 <= i < |more| && more[i] == e { assert (stack + more)[|stack| + i] == e; }
  }

  /** What opening the top of the stack leaves. */
  function Opening(stack: seq<Entry>, pushes: seq<Entry>): seq<Entry>
    requires stack != []
  {
    stack[..|stack| - 1] + [Process(stack[|stack| - 1].node)] + pushes
  }

  lemma OpeningApart(tree: Tree, stack: seq<Entry>, expanded: set<NodePath>, done: set<NodePath>, pushes: seq<Entry>)
    requires Rooted(tree) && Apart(stack) && Staged(tree, stack, expanded, done) && done <= expanded && stack != []
      && stack[|stack| - 1].Push?
    requires forall n | n in expanded && n != [] :: Parent(n) in expanded
    requires PushesChildren(tree, stack[|stack| - 1].node, pushes)
    ensures Apart(Opening(stack, pushes))
      && Staged(tree, Opening(stack, pushes), expanded + {stack[|stack| - 1].node}, done)
  {
    var n, s := stack[|stack| - 1].node, Opening(stack, pushes);
    forall i | 0 <= i < |s|
      ensures i < |stack| ==> s[i].node == stack[i].node
      ensures i >= |stack| ==> s[i] == pushes[i - |stack|]
    {}
    forall i, j | 0 <= i < |stack| <= j < |s|
      ensures s[i].node != s[j].node
    {
      assert s[i].node == stack[i].node && s[j] == pushes[j - |stack|];
      assert Parent(s[j].node) == n;
    }
  }

  lemma OpeningWaits(tree: Tree, stack: seq<Entry>, expanded: set<NodePath>, done: set<NodePath>, pushes: seq<Entry>)
    requires stack != [] && stack[|stack| - 1].Push? && Waiting(tree, stack, expanded, done)
    requires PushesChildren(tree, stack[|stack| - 1].node, pushes)
    ensures Waiting(tree, Opening(stack, pushes), expanded + {stack[|stack| - 1].node}, done)
  {
    var n, rest := stack[|stack| - 1].node, stack[..|stack| - 1];
    forall e | OnStack(stack, e) && e != Push(n)
      ensures OnStack(Opening(stack, pushes), e)
    {
      OnShorterStack(stack, e);
      OnLongerStack(rest, e, [Process(n)]);
      OnLongerStack(rest + [Process(n)], e, pushes);
    }
    assert [Process(n)][0] == Process(n);
    OnLongerStack(rest, Process(n), [Process(n)]);
    OnLongerStack(rest + [Process(n)], Process(n), pushes);
    forall m | m in tree && m != [] && Parent(m) == n
      ensures OnStack(Opening(stack, pushes), Push(m))
    {
      OnLongerStack(rest + [Process(n)], Push(m), pushes);
    }
  }

  lemma OpeningChildrenFirst(tree: Tree, stack: seq<Entry>, done: set<NodePath>, pushes: seq<Entry>)
    requires stack != [] && stack[|stack| - 1].Push? && ChildrenFirst(tree, stack, done)
    requires PushesChildren(tree, stack[|stack| - 1].node, pushes)
    ensures ChildrenFirst(tree, Opening(stack, pushes), done)
  {
    var n, s := stack[|stack| - 1].node, Opening(stack, pushes);
    forall i, m | 0 <= i < |s| && s[i].Process? && m in tree && m != [] && Parent(m) == s[i].node && m !in done
      ensures exists j :: i < j < |s| && s[j].node == m
    {
      if i < |stack| - 1 {
        assert s[i] == stack[i];
        var j :| i < j < |stack| && stack[j].node == m;
        assert s[j].node == m;
      } else {
        assert s[i].node == n;
        var j :| 0 <= j < |pushes| && pushes[j] == Push(m);
        assert s[|stack| + j] == pushes[j];
      }
    }
  }

  /** Opening the top of the stack. */
  lemma OpenKeeps(tree: Tree, stack: seq<Entry>, expanded: set<NodePath>, done: set<NodePath>, pushes: seq<Entry>)
    requires StackInv(tree, stack, expanded, done) && stack != [] && stack[|stack| - 1].Push?
    requires PushesChildren(tree, stack[|stack| - 1].node, pushes)
    ensures StackInv(tree, Opening(stack, pushes), expanded + {stack[|stack| - 1].node}, done)
  {
    hide Apart, Staged, Waiting, ChildrenFirst, PushesChildren, Opening;
    OpeningApart(tree, stack, expanded, done, pushes);
    OpeningWaits(tree, stack, expanded, done, pushes);
    OpeningChildrenFirst(tree, stack, done, pushes);
    assert stack[|stack| - 1].node in tree
      && (stack[|stack| - 1].node != [] ==> Parent(stack[|stack| - 1].node) in expanded) by {
      TopIs(tree, stack, expanded, done);
    }
  }

  lemma TopIs(tree: Tree, stack: seq<Entry>, expanded: set<NodePath>, done: set<NodePath>)
    requires Staged(tree, stack, expanded, done) && stack != []
    ensures var e := stack[|stack| - 1];
      && e.node in tree && e.node !in done && (e.Process? <==> e.node in expanded)
      && (e.node != [] ==> Parent(e.node) in expanded)
  {}
}
