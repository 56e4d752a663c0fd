/** The scope tree: an arena of scope contexts keyed by scope id, each with
    its parent, its task set, its child set and its listener set, and the
    operations that build it up (`newScope`, `createScope`, `link`, `run`,
    `addEvalEventListener`) and tear it down (`destroy`). */
module Scopes {
  import opened Results
  import opened OrderedSets
  import opened Controllers

  type ScopeId = nat
  type TaskId = nat
  type ListenerId = nat

  /** The context record of one scope. The sets are insertion-ordered. */
  datatype Context = Context(
    id: ScopeId,
    parent: Option<ScopeId>,
    tasks: seq<TaskId>,
    children: seq<ScopeId>,
    listeners: seq<ListenerId>)

  /** The id of the root scope, the first scope ever created. */
  const Root: ScopeId := 0

  type Contexts = map<ScopeId, Context>

  /** `x` is `s` or lies below `s` in the tree of parent links. */
  ghost predicate Within(m: Contexts, x: ScopeId, s: ScopeId)
    decreases x
  {
    x == s || (x in m && m[x].parent.Some? && m[x].parent.value < x && Within(m, m[x].parent.value, s))
  }

  /** A scope lies below its ancestors only, and they have smaller ids. */
  lemma {:induction false} WithinAbove(m: Contexts, x: ScopeId, s: ScopeId)
    requires Within(m, x, s)
    ensures s <= x
    decreases x
  {
    if x != s {
      WithinAbove(m, m[x].parent.value, s);
    }
  }

  /** Lying below is transitive. */
  lemma {:induction false} WithinTrans(m: Contexts, x: ScopeId, c: ScopeId, s: ScopeId)
    requires Within(m, x, c) && Within(m, c, s)
    ensures Within(m, x, s)
    decreases x
  {
    if x != c {
      WithinTrans(m, m[x].parent.value, c, s);
    }
  }

  /** The same scopes with the same ids and parents; only sets may differ. */
  ghost predicate SameShape(m0: Contexts, m1: Contexts) {
    && m0.Keys == m1.Keys
    && forall x {:trigger m1[x]} :: x in m0 ==> m1[x].id == m0[x].id && m1[x].parent == m0[x].parent
  }

  /** Whether a scope lies below another depends on the parent links only. */
  lemma {:induction false} WithinSameShape(m0: Contexts, m1: Contexts, x: ScopeId, s: ScopeId)
    requires SameShape(m0, m1)
    ensures Within(m0, x, s) == Within(m1, x, s)
    decreases x
  {
    if x != s && x in m0 && m0[x].parent.Some? && m0[x].parent.value < x {
      WithinSameShape(m0, m1, m0[x].parent.value, s);
    }
  }

  /** Every scope outside the subtree of `s`, other than `except`, is as it was. */
  ghost predicate Untouched(m0: Contexts, m1: Contexts, s: ScopeId, except: Option<ScopeId>) {
    forall x {:trigger m1[x]} :: x in m0 && x in m1 && !Within(m0, x, s) && Some(x) != except ==> m1[x] == m0[x]
  }

  /** Two steps that each leave the outside of the subtree of `s` alone
      leave it alone together. */
  lemma UntouchedTrans(m0: Contexts, m1: Contexts, m2: Contexts, s: ScopeId)
    requires SameShape(m0, m1) && SameShape(m1, m2)
    requires Untouched(m0, m1, s, None) && Untouched(m1, m2, s, None)
    ensures SameShape(m0, m2) && Untouched(m0, m2, s, None)
  {
    forall x | x in m0 && x in m2 && !Within(m0, x, s)
      ensures m2[x] == m0[x]
    {
      WithinSameShape(m0, m1, x, s);
    }
  }

  /** Destroying a child of `s` touches nothing outside the subtree of `s`. */
  lemma ChildDestroyed(m0: Contexts, mb: Contexts, m1: Contexts, s: ScopeId, child: ScopeId)
    requires SameShape(m0, mb) && Untouched(m0, mb, s, None)
    requires child in mb && mb[child].parent == Some(s) && s < child
    requires SameShape(mb, m1) && Untouched(mb, m1, child, Some(s))
    ensures SameShape(m0, m1) && Untouched(m0, m1, s, None)
  {
    forall x | x in m0 && x in m1 && !Within(m0, x, s)
      ensures m1[x] == m0[x]
    {
      WithinSameShape(m0, mb, x, s);
      if Within(mb, x, child) {
        WithinTrans(mb, x, child, s);
      }
    }
  }

  /** What `destroy` reports: `{value}`, replaced by every error reported by a
      child's destruction or a task's halt, so the last error wins. */
  function Aggregate(outcomes: seq<Result<Unit>>): (r: Result<Unit>)
    ensures r.Error? || r == Value(())
  {
    if outcomes == [] then Value(())
    else if outcomes[|outcomes| - 1].Error? then outcomes[|outcomes| - 1]
    else Aggregate(outcomes[..|outcomes| - 1])
  }

  /** `destroy` fails exactly when some step failed. */
  lemma {:induction false} AggregateFails(outcomes: seq<Result<Unit>>)
    ensures Aggregate(outcomes).Error? <==> exists i :: 0 <= i < |outcomes| && outcomes[i].Error?
  {
    if outcomes != [] {
      var n := |outcomes| - 1;
      var init := outcomes[..n];
      AggregateFails(init);
      if !outcomes[n].Error? && exists i :: 0 <= i < |outcomes| && outcomes[i].Error? {
        var i :| 0 <= i < |outcomes| && outcomes[i].Error?;
        assert init[i].Error?;
      }
      if Aggregate(init).Error? && !outcomes[n].Error? {
        var i :| 0 <= i < |init| && init[i].Error?;
        assert outcomes[i].Error?;
      }
    }
  }

  /** When `destroy` fails, it fails with the error of the last step that
      failed: no later step failed. */
  lemma {:induction false} AggregateKeepsLastError(outcomes: seq<Result<Unit>>)
    ensures Aggregate(outcomes).Error? ==>
              exists i :: 0 <= i < |outcomes| && outcomes[i] == Aggregate(outcomes)
                          && forall j :: i < j < |outcomes| ==> !outcomes[j].Error?
  {
    if outcomes != [] {
      var n := |outcomes| - 1;
      var init := outcomes[..n];
      if outcomes[n].Error? {
        assert outcomes[n] == Aggregate(outcomes);
      } else if Aggregate(init).Error? {
        AggregateKeepsLastError(init);
        var i :| 0 <= i < |init| && init[i] == Aggregate(init) && forall j :: i < j < |init| ==> !init[j].Error?;
        assert outcomes[i] == Aggregate(outcomes);
        assert forall j :: i < j < |outcomes| ==> !outcomes[j].Error? by {
          forall j | i < j < |outcomes| ensures !outcomes[j].Error? {
            if j < n { assert outcomes[j] == init[j]; }
          }
        }
      }
    }
  }

  /** The result recorded so far, followed by more steps. */
  lemma {:induction false} AggregateThen(a: seq<Result<Unit>>, b: seq<Result<Unit>>)
    ensures Aggregate([Aggregate(a)] + b) == Aggregate(a + b)
    decreases |b|
  {
    if b == [] {
      assert a + b == a;
    } else {
      var n := |b| - 1;
      assert ([Aggregate(a)] + b)[..n + 1] == [Aggregate(a)] + b[..n];
      assert (a + b)[..|a| + n] == a + b[..n];
      AggregateThen(a, b[..n]);
    }
  }

  /** A context's sets hold no duplicates. */
  ghost predicate SetsOk(c: Context) {
    NoDup(c.tasks) && NoDup(c.children) && NoDup(c.listeners)
  }

  /** A scope's parent, if any, exists and is older. */
  ghost predicate ParentOk(m: Contexts, x: ScopeId)
    requires x in m
  {
    m[x].parent.Some? ==> m[x].parent.value in m && m[x].parent.value < x
  }

  /** The arena invariant: the root exists and has no parent, every context
      carries its own id, which is below the id counter, and every child
      of a scope has that scope as its parent. */
  ghost predicate WellFormed(m: Contexts, ids: nat) {
    && Root in m && m[Root].parent == None
    && (forall x :: x in m ==> x < ids && m[x].id == x && SetsOk(m[x]) && ParentOk(m, x))
    && (forall x, c :: x in m && c in m[x].children ==> c in m && m[c].parent == Some(x))
  }

  /** Every task in a task set has an id below the task counter: task ids
      are handed out by `run` and never reused. */
  ghost predicate Issued(m: Contexts, n: nat) {
    forall x, t :: x in m && t in m[x].tasks ==> t < n
  }

  /** The smallest counter from `n` on that lies above every task of `ts`. */
  function Above(n: nat, ts: seq<TaskId>): (m: nat)
    ensures m >= n && forall t :: t in ts ==> t < m
    ensures ts == [] ==> m == n
  {
    if ts == [] then n
    else
      assert forall t :: t in ts ==> t == ts[0] || t in ts[1..];
      var rest := Above(n, ts[1..]); if ts[0] < rest then rest else ts[0] + 1
  }

  /** The number of tasks in the task sets of the scopes with ids below `n`. */
  ghost function Load(m: Contexts, n: nat): nat {
    if n == 0 then 0 else Load(m, n - 1) + (if n - 1 in m then |m[n - 1].tasks| else 0)
  }

  /** `Load` depends only on the task sets below `n`. */
  lemma {:induction false} LoadSame(m: Contexts, m': Contexts, n: nat)
    requires forall x :: x < n ==> (x in m <==> x in m')
    requires forall x :: x < n && x in m ==> m[x].tasks == m'[x].tasks
    ensures Load(m, n) == Load(m', n)
  {
    if n > 0 {
      LoadSame(m, m', n - 1);
    }
  }

  /** Replacing the context of `s` changes `Load` by the change in its task set. */
  lemma {:induction false} LoadUpdate(m: Contexts, n: nat, s: ScopeId, c: Context)
    requires s in m && s < n
    ensures Load(m[s := c], n) + |m[s].tasks| == Load(m, n) + |c.tasks|
  {
    if n - 1 == s {
      LoadSame(m, m[s := c], n - 1);
    } else {
      LoadUpdate(m, n - 1, s, c);
    }
  }

  /** One task set is part of the load. */
  lemma {:induction false} LoadAtLeast(m: Contexts, n: nat, s: ScopeId)
    requires s in m && s < n
    ensures |m[s].tasks| <= Load(m, n)
  {
    if n - 1 != s {
      LoadAtLeast(m, n - 1, s);
    }
  }

  /** A child of a scope exists, has that scope as its parent, and is younger. */
  lemma ChildOf(m: Contexts, ids: nat, s: ScopeId, c: ScopeId)
    requires WellFormed(m, ids) && s in m && c in m[s].children
    ensures c in m && m[c].parent == Some(s) && s < c
  {
    assert ParentOk(m, c);
  }

  /** A change confined to the subtree of `s` leaves the parent of `s` alone. */
  lemma OutsideSubtree(m0: Contexts, m1: Contexts, ids: nat, s: ScopeId)
    requires WellFormed(m0, ids) && s in m0
    requires SameShape(m0, m1) && Untouched(m0, m1, s, None)
    ensures Untouched(m0, m1, s, m0[s].parent)
    ensures m0[s].parent.Some? ==> m0[s].parent.value in m1 && m1[m0[s].parent.value] == m0[m0[s].parent.value]
  {
    assert ParentOk(m0, s);
    var parent := m0[s].parent;
    if parent.Some? && Within(m0, parent.value, s) {
      WithinAbove(m0, parent.value, s);
    }
  }

  /** A change confined to the subtree of `s`, followed by a change of the
      sets of `p`, changes nothing outside the subtree other than `p`. */
  lemma UntouchedBut(m0: Contexts, m1: Contexts, s: ScopeId, p: ScopeId, c: Context)
    requires SameShape(m0, m1) && Untouched(m0, m1, s, None)
    requires p in m1 && c.id == m1[p].id && c.parent == m1[p].parent
    ensures SameShape(m0, m1[p := c]) && Untouched(m0, m1[p := c], s, Some(p))
  {
    var m2 := m1[p := c];
    forall x | x in m0 && x in m2 && !Within(m0, x, s) && Some(x) != Some(p)
      ensures m2[x] == m0[x]
    {
      assert m2[x] == m1[x];
    }
  }

  /** Replacing the sets of one context keeps the arena well formed, as long
      as its children stay among its children. */
  lemma UpdateSets(m: Contexts, ids: nat, s: ScopeId, c: Context)
    requires WellFormed(m, ids) && s in m
    requires c.id == m[s].id && c.parent == m[s].parent && SetsOk(c)
    requires forall ch :: ch in c.children ==> ch in m[s].children
    ensures WellFormed(m[s := c], ids)
    ensures SameShape(m, m[s := c])
  {
    var m' := m[s := c];
    forall x | x in m'
      ensures x < ids && m'[x].id == x && SetsOk(m'[x]) && ParentOk(m', x)
    {
      assert ParentOk(m, x);
    }
  }

  /** A fresh scope with an existing parent, added to the parent's children,
      keeps the arena well formed. */
  lemma AddScope(m: Contexts, ids: nat, parent: Option<ScopeId>)
    requires WellFormed(m, ids) && (parent.Some? ==> parent.value in m)
    ensures ids !in m
    ensures parent.Some? ==> ids !in m[parent.value].children
    ensures var m1 := m[ids := Context(ids, parent, [], [], [])];
            && WellFormed(m1, ids + 1)
            && (parent.Some? ==> WellFormed(m1[parent.value := m1[parent.value].(children := m1[parent.value].children + [ids])], ids + 1))
  {
    AddContext(m, ids, parent);
    if parent.Some? {
      var p := parent.value;
      assert forall c :: c in m[p].children ==> c in m;
      AddChild(m[ids := Context(ids, parent, [], [], [])], ids + 1, p, ids);
    }
  }

  /** A fresh context with an existing parent, not yet among its children. */
  lemma AddContext(m: Contexts, ids: nat, parent: Option<ScopeId>)
    requires WellFormed(m, ids) && (parent.Some? ==> parent.value in m)
    ensures ids !in m && WellFormed(m[ids := Context(ids, parent, [], [], [])], ids + 1)
  {
    var m1 := m[ids := Context(ids, parent, [], [], [])];
    forall x | x in m1
      ensures x < ids + 1 && m1[x].id == x && SetsOk(m1[x]) && ParentOk(m1, x)
    {
      if x != ids { assert ParentOk(m, x); }
    }
    forall x, c | x in m1 && c in m1[x].children
      ensures c in m1 && m1[c].parent == Some(x)
    {
      assert x != ids && c in m[x].children;
      assert c in m && m[c].parent == Some(x);
      assert c < ids;
    }
  }

  /** Adding a scope whose parent is `p` to the child set of `p`. */
  lemma AddChild(m: Contexts, ids: nat, p: ScopeId, c: ScopeId)
    requires WellFormed(m, ids) && p in m && c in m && m[c].parent == Some(p) && c !in m[p].children
    ensures WellFormed(m[p := m[p].(children := m[p].children + [c])], ids)
  {
    var m2 := m[p := m[p].(children := m[p].children + [c])];
    assert m2[p].children == Add(m[p].children, c);
    forall x | x in m2
      ensures x < ids && m2[x].id == x && SetsOk(m2[x]) && ParentOk(m2, x)
    {
      assert ParentOk(m, x);
    }
    forall x, d | x in m2 && d in m2[x].children
      ensures d in m2 && m2[d].parent == Some(x)
    {
      if x != p || d != c {
        assert d in m[x].children;
      }
    }
  }

  /** Recording one more outcome after an initial result: an error replaces
      the result so far. */
  lemma RecordStep(acc: Result<Unit>, outcomes: seq<Result<Unit>>, d: Result<Unit>)
    ensures Aggregate([acc] + (outcomes + [d])) == if d.Error? then d else Aggregate([acc] + outcomes)
  {
    AggregateStep([acc] + outcomes, d);
    assert [acc] + (outcomes + [d]) == [acc] + outcomes + [d];
  }

  /** Recording one more outcome. */
  lemma AggregateStep(init: seq<Result<Unit>>, d: Result<Unit>)
    ensures Aggregate(init + [d]) == if d.Error? then d else Aggregate(init)
  {
    assert (init + [d])[..|init|] == init;
  }

  /** Popping the next element of a snapshot extends the reversed prefix. */
  lemma ReversedStep<X>(order: seq<X>, k: nat)
    requires k < |order|
    ensures Reversed(order)[..|order| - k] == Reversed(order)[..|order| - k - 1] + [order[k]]
  {
    var r := Reversed(order);
    assert r[|order| - k - 1] == order[k];
    assert r[..|order| - k] == r[..|order| - k - 1] + [r[|order| - k - 1]];
  }

  /** One step of `destroy`: destroying a child or halting a task. */
  datatype Stage = DestroyChild(scope: ScopeId) | HaltTask(task: TaskId)

  /** What happens when a task is halted: the task settles, so `link`'s
      watcher removes it from its scope; meanwhile an outside `run(op, s)`
      may have linked further tasks `spawned` into the same scope `s`; then
      the future that `halt()` returned settles with `ack`, or never does
      (`None`). */
  datatype Reaction = Reaction(ack: Option<Result<Unit>>, spawned: seq<TaskId>)

  /** Every halt is acknowledged at once, without an error, and links no
      further task into the scope. */
  ghost predicate Prompt(react: TaskId -> Reaction) {
    forall t :: react(t) == Reaction(Some(Value(())), [])
  }

  /** The tasks of a scope that settle, and so leave its task set, while its
      children in `order` are destroyed; `settledBy(c)` are those that settle
      while `c` is destroyed. A generator task's current yield scope is a
      child of the task's own scope (scope.ts:184); destroying it halts the
      yielded sub-task, which resumes the task with `{halt}`, and the task
      may settle there and then. */
  function Gone(order: seq<ScopeId>, settledBy: ScopeId -> seq<TaskId>): seq<TaskId> {
    if order == [] then [] else settledBy(order[0]) + Gone(order[1..], settledBy)
  }

  /** The ancestry of `s`: `s`, its parent, its parent's parent, and so on
      up to a scope without a parent. */
  function Ancestry(m: Contexts, s: ScopeId): (r: seq<ScopeId>)
    requires s in m && forall x :: x in m ==> ParentOk(m, x)
    ensures r != [] && r[0] == s
    ensures forall i :: 0 <= i < |r| ==> r[i] in m
    ensures forall i :: 0 <= i < |r| - 1 ==> m[r[i]].parent == Some(r[i + 1])
    ensures m[r[|r| - 1]].parent == None
    decreases s
  {
    assert ParentOk(m, s);
    match m[s].parent
    case None => [s]
    case Some(p) => [s] + Ancestry(m, p)
  }

  /** One step up the ancestry. */
  lemma AncestryStep(m: Contexts, s: ScopeId)
    requires s in m && forall x :: x in m ==> ParentOk(m, x)
    requires m[s].parent.Some?
    ensures Ancestry(m, s)[1..] == Ancestry(m, m[s].parent.value)
  {
    assert ParentOk(m, s);
  }

  /** The contexts of all scopes ever created (`contexts` and `ids`). */
  class Runtime {
    var contexts: Contexts
    /** The id the next scope gets. */
    var ids: nat
    /** The id the next task gets. */
    var nextTask: nat

    ghost predicate Valid()
      reads this
    {
      WellFormed(contexts, ids) && Issued(contexts, nextTask)
    }

    /** Module initialisation: `root = newScope()`. */
    constructor ()
      ensures Valid()
      ensures contexts == map[Root := Context(Root, None, [], [], [])] && ids == 1 && nextTask == 0
    {
      contexts := map[Root := Context(Root, None, [], [], [])];
      ids := 1;
      nextTask := 0;
    }

    /** Stores new sets for the scope `s`. */
    method SetContext(s: ScopeId, c: Context)
      requires Valid() && s in contexts && c.id == contexts[s].id && c.parent == contexts[s].parent && SetsOk(c)
      requires forall ch :: ch in c.children ==> ch in contexts[s].children
      requires forall t :: t in c.tasks ==> t < nextTask
      modifies this
      ensures Valid() && contexts == old(contexts)[s := c] && SameShape(old(contexts), contexts)
      ensures ids == old(ids) && nextTask == old(nextTask)
      ensures Load(contexts, ids) + |old(contexts[s].tasks)| == Load(old(contexts), ids) + |c.tasks|
    {
      UpdateSets(contexts, ids, s, c);
      LoadUpdate(contexts, ids, s, c);
      contexts := contexts[s := c];
    }

    /** `newScope(parent)`: a context with the next id, no tasks, children or
        listeners, added to its parent's children when it has a parent. */
    method NewScope(parent: Option<ScopeId>) returns (s: ScopeId)
      requires Valid() && (parent.Some? ==> parent.value in contexts)
      modifies this
      ensures Valid() && nextTask == old(nextTask)
      ensures s == old(ids) && ids == old(ids) + 1 && s !in old(contexts)
      ensures forall x :: x in old(contexts) ==> s > x
      ensures contexts.Keys == old(contexts).Keys + {s}
      ensures contexts[s] == Context(s, parent, [], [], [])
      ensures parent.Some? ==> contexts[parent.value] == old(contexts[parent.value]).(children := old(contexts[parent.value].children) + [s])
      ensures forall x :: x in old(contexts) && Some(x) != parent ==> contexts[x] == old(contexts[x])
    {
      AddScope(contexts, ids, parent);
      s := ids;
      ids := ids + 1;
      contexts := contexts[s := Context(s, parent, [], [], [])];
      if parent.Some? {
        var p := contexts[parent.value];
        assert Add(p.children, s) == p.children + [s];
        contexts := contexts[parent.value := p.(children := Add(p.children, s))];
      }
    }

    /** `createScope(parent = root)`: a new child scope. */
    method CreateScope(parent: Option<ScopeId>) returns (s: ScopeId)
      requires Valid() && (parent.Some? ==> parent.value in contexts)
      modifies this
      ensures Valid() && s !in old(contexts) && s in contexts
      ensures s == old(ids) && ids == old(ids) + 1 && nextTask == old(nextTask)
      ensures contexts.Keys == old(contexts).Keys + {s}
      ensures var p := if parent.Some? then parent.value else Root;
              && contexts[s] == Context(s, Some(p), [], [], [])
              && contexts[p] == old(contexts[p]).(children := old(contexts[p].children) + [s])
              && forall x :: x in old(contexts) && x != p ==> contexts[x] == old(contexts[x])
    {
      s := NewScope(Some(if parent.Some? then parent.value else Root));
    }

    /** `link(task, scope)`: the task joins the scope's task set, and leaves it
        again as soon as it settles; a task that has already settled leaves it
        at once. Nothing else changes. */
    method Link(t: TaskId, s: ScopeId, settled: bool)
      requires Valid() && s in contexts && t < nextTask
      modifies this
      ensures Valid() && ids == old(ids) && nextTask == old(nextTask)
      ensures contexts.Keys == old(contexts).Keys
      ensures forall x :: x in old(contexts) && x != s ==> contexts[x] == old(contexts[x])
      ensures contexts[s] == old(contexts[s]).(tasks := contexts[s].tasks)
      ensures forall u :: u in contexts[s].tasks <==> (u in old(contexts[s].tasks) && u != t) || (u == t && !settled)
      ensures t !in old(contexts[s].tasks) ==> contexts[s].tasks == if settled then old(contexts[s].tasks) else old(contexts[s].tasks) + [t]
    {
      var c := contexts[s];
      var tasks := Add(c.tasks, t);
      if settled {
        if t !in c.tasks {
          DeleteAfterAdd(c.tasks, t);
        }
        tasks := Delete(tasks, t);
      }
      SetContext(s, c.(tasks := tasks));
    }

    /** The watcher that `link` leaves on a task: when the task settles, it
        leaves its scope's task set. */
    method Unlink(t: TaskId, s: ScopeId)
      requires Valid() && s in contexts
      modifies this
      ensures Valid() && ids == old(ids) && nextTask == old(nextTask)
      ensures contexts.Keys == old(contexts).Keys
      ensures forall x :: x in old(contexts) && x != s ==> contexts[x] == old(contexts[x])
      ensures contexts[s] == old(contexts[s]).(tasks := contexts[s].tasks)
      ensures forall u :: u in contexts[s].tasks <==> u in old(contexts[s].tasks) && u != t
    {
      var c := contexts[s];
      SetContext(s, c.(tasks := Delete(c.tasks, t)));
    }

    /** `run(operation, scope = root)`: builds the task and its controller and
        links the task into the scope. The controller runs synchronously as far
        as it can before `run` returns: `sync` are the events that reach the
        task meanwhile (sub-tasks that settle at once, with their yield scopes
        torn down at once). A task that settled meanwhile is linked and at once
        unlinked again. An operation function that throws when called makes
        `run` throw, before any task is linked. */
    method Run<V(==)>(op: Operation<V>, signal: V, scope: Option<ScopeId>, sync: seq<TaskEvent<V>>) returns (task: Option<TaskId>, status: Status<V>)
      requires Valid() && (scope.Some? ==> scope.value in contexts)
      modifies this
      ensures Valid() && ids == old(ids) && contexts.Keys == old(contexts).Keys
      ensures status == RunTask(op, signal, sync)
      ensures status.Thrown? ==> task == None && contexts == old(contexts)
      ensures !status.Thrown? ==> task == Some(old(nextTask))
      ensures nextTask == if status.Thrown? then old(nextTask) else old(nextTask) + 1
      ensures var s := if scope.Some? then scope.value else Root;
              && (forall x :: x in old(contexts) && x != s ==> contexts[x] == old(contexts[x]))
              && (task.Some? ==> (task.value in contexts[s].tasks <==> status.Pending?))
              && contexts[s] == old(contexts[s]).(tasks := if status.Pending? then old(contexts[s].tasks) + [old(nextTask)] else old(contexts[s].tasks))
    {
      status := RunTask(op, signal, sync);
      if status.Thrown? {
        return None, status;
      }
      var t := nextTask;
      nextTask := nextTask + 1;
      task := Some(t);
      Link(t, if scope.Some? then scope.value else Root, status.Settled?);
    }

    /** `addEvalEventListener(scope, listener)`. */
    method AddEvalEventListener(s: ScopeId, l: ListenerId)
      requires Valid() && s in contexts
      modifies this
      ensures Valid() && ids == old(ids) && nextTask == old(nextTask)
      ensures contexts.Keys == old(contexts).Keys
      ensures forall x :: x in old(contexts) && x != s ==> contexts[x] == old(contexts[x])
      ensures contexts[s] == old(contexts[s]).(listeners := contexts[s].listeners)
      ensures l !in old(contexts[s].listeners) ==> contexts[s].listeners == old(contexts[s].listeners) + [l]
      ensures l in old(contexts[s].listeners) ==> contexts[s].listeners == old(contexts[s].listeners)
    {
      var c := contexts[s];
      SetContext(s, c.(listeners := Add(c.listeners, l)));
    }

    /** The function `addEvalEventListener` returns: removes the listener. */
    method RemoveEvalEventListener(s: ScopeId, l: ListenerId)
      requires Valid() && s in contexts
      modifies this
      ensures Valid() && ids == old(ids) && nextTask == old(nextTask)
      ensures contexts.Keys == old(contexts).Keys
      ensures forall x :: x in old(contexts) && x != s ==> contexts[x] == old(contexts[x])
      ensures contexts[s] == old(contexts[s]).(listeners := contexts[s].listeners)
      ensures forall u :: u in contexts[s].listeners <==> u in old(contexts[s].listeners) && u != l
      ensures l !in old(contexts[s].listeners) ==> contexts[s].listeners == old(contexts[s].listeners)
    {
      var c := contexts[s];
      SetContext(s, c.(listeners := Delete(c.listeners, l)));
    }

    /** `ancestryOf(scope)` as evidently intended: the list starts with the
        scope and follows parent links, moving up one scope per step, until
        a scope without a parent. */
    method AncestryOf(s: ScopeId) returns (scopes: seq<ScopeId>)
      requires Valid() && s in contexts
      ensures scopes == Ancestry(contexts, s)
    {
      assert forall x :: x in contexts ==> ParentOk(contexts, x);
      scopes := [s];
      var current := s;
      while contexts[current].parent.Some?
        invariant current in contexts
        invariant scopes + Ancestry(contexts, current)[1..] == Ancestry(contexts, s)
        decreases current
      {
        var parent := contexts[current].parent.value;
        assert ParentOk(contexts, current);
        AncestryStep(contexts, current);
        assert scopes + Ancestry(contexts, current)[1..] == scopes + [parent] + Ancestry(contexts, parent)[1..];
        scopes := scopes + [parent];
        current := parent;
      }
      assert Ancestry(contexts, current)[1..] == [];
      assert scopes + [] == scopes;
    }

    /** `ancestryOf(scope)` as written, run for `steps` iterations of its
        loop: the loop reads the parent of `scope` every time and never
        moves `scope` up, so a scope with a parent gets that parent pushed
        on every iteration and the loop never returns. `returned` says
        whether it returned within `steps` iterations. */
    method AncestryAsWritten(s: ScopeId, steps: nat) returns (scopes: seq<ScopeId>, returned: bool)
      requires Valid() && s in contexts
      ensures contexts[s].parent.None? && steps > 0 ==> returned && scopes == [s]
      ensures contexts[s].parent.Some? ==> !returned && |scopes| == steps + 1 && scopes[0] == s
      ensures contexts[s].parent.Some? ==> forall i :: 0 < i < |scopes| ==> scopes[i] == contexts[s].parent.value
    {
      scopes := [s];
      var i := 0;
      while i < steps
        invariant i <= steps && |scopes| == i + 1 && scopes[0] == s
        invariant i > 0 ==> contexts[s].parent.Some?
        invariant forall j :: 0 < j < |scopes| ==> contexts[s].parent == Some(scopes[j])
      {
        var parent := contexts[s].parent;
        if parent.None? {
          return scopes, true;
        }
        scopes := scopes + [parent.value];
        i := i + 1;
      }
      returned := false;
    }

    /** `destroy(scope)`: until the scope has neither children nor tasks,
        destroys its children from the last added to the first, then halts
        the tasks still there from the last added to the first; then leaves
        its parent's child set. `r == None`: some halt is never acknowledged,
        or more than `fuel` halts were needed. `stages`: the steps in order,
        `outcomes`: what each reported. `react` says what halting a task
        does, `settledBy` which tasks of the parent settle while a child
        scope is destroyed. */
    method Destroy(s: ScopeId, fuel: nat, react: TaskId -> Reaction, settledBy: ScopeId -> seq<TaskId>)
      returns (r: Option<Result<Unit>>, left: nat, ghost stages: seq<Stage>, ghost outcomes: seq<Result<Unit>>)
      requires Valid() && s in contexts
      modifies this
      decreases ids - s, 5
      ensures Valid() && SameShape(old(contexts), contexts) && ids == old(ids) && nextTask >= old(nextTask)
      ensures left <= fuel && Acknowledged(stages, outcomes, react)
      ensures Untouched(old(contexts), contexts, s, old(contexts[s].parent))
      ensures var p := old(contexts[s].parent);
              p.Some? ==> contexts[p.value] == if r.Some? then old(contexts[p.value]).(children := Delete(old(contexts[p.value].children), s))
                                               else old(contexts[p.value])
      ensures r.Some? ==> contexts[s].tasks == [] && contexts[s].children == []
      ensures r.Some? ==> r.value == Aggregate(outcomes)
      ensures r.Some? ==> LastFirst(stages, old(contexts[s].children), Without(old(contexts[s].tasks), Gone(old(contexts[s].children), settledBy)))
      ensures r.Some? && Without(old(contexts[s].tasks), Gone(old(contexts[s].children), settledBy)) == []
              ==> stages == Destructions(Reversed(old(contexts[s].children)))
      ensures Prompt(react) && Load(old(contexts), ids) <= fuel
              ==> r == Some(Value(())) && Load(contexts, ids) + (fuel - left) <= Load(old(contexts), ids)
    {
      ghost var m0 := contexts;
      var parent := contexts[s].parent;
      r, left, stages, outcomes := TearDown(s, fuel, react, settledBy);
      if r.Some? && parent.Some? {
        LeaveParent(s, parent.value, m0);
      } else {
        OutsideSubtree(m0, contexts, ids, s);
      }
    }

    /** The end of `destroy`: the scope leaves its parent's child set. */
    method LeaveParent(s: ScopeId, p: ScopeId, ghost m0: Contexts)
      requires WellFormed(m0, ids) && s in m0 && m0[s].parent == Some(p)
      requires Valid() && SameShape(m0, contexts) && Untouched(m0, contexts, s, None)
      modifies this
      ensures ids == old(ids) && nextTask == old(nextTask) && s in contexts && contexts[s] == old(contexts[s])
      ensures Valid() && SameShape(m0, contexts) && Untouched(m0, contexts, s, Some(p))
      ensures p in contexts && contexts[p] == m0[p].(children := Delete(m0[p].children, s))
      ensures Load(contexts, ids) == Load(old(contexts), ids)
    {
      OutsideSubtree(m0, contexts, ids, s);
      assert ParentOk(m0, s);
      var c := contexts[p].(children := Delete(contexts[p].children, s));
      assert SetsOk(contexts[p]);
      UntouchedBut(m0, contexts, s, p, c);
      SetContext(p, c);
    }

    /** The loop of `destroy`: the children phase, then the task phase over
        the tasks that the children phase left. On success the scope has
        neither children nor tasks; nothing outside its subtree changes. */
    method TearDown(s: ScopeId, fuel: nat, react: TaskId -> Reaction, settledBy: ScopeId -> seq<TaskId>)
      returns (r: Option<Result<Unit>>, left: nat, ghost stages: seq<Stage>, ghost outcomes: seq<Result<Unit>>)
      requires Valid() && s in contexts
      modifies this
      decreases ids - s, 4
      ensures Valid() && SameShape(old(contexts), contexts) && ids == old(ids) && nextTask >= old(nextTask)
      ensures left <= fuel && Acknowledged(stages, outcomes, react)
      ensures Untouched(old(contexts), contexts, s, None) && s in contexts
      ensures r.Some? ==> contexts[s].tasks == [] && contexts[s].children == []
      ensures r.Some? ==> r.value == Aggregate(outcomes)
      ensures r.Some? ==> LastFirst(stages, old(contexts[s].children), Without(old(contexts[s].tasks), Gone(old(contexts[s].children), settledBy)))
      ensures r.Some? && Without(old(contexts[s].tasks), Gone(old(contexts[s].children), settledBy)) == []
              ==> stages == Destructions(Reversed(old(contexts[s].children)))
      ensures Prompt(react) && Load(old(contexts), ids) <= fuel
              ==> r == Some(Value(())) && Load(contexts, ids) + (fuel - left) <= Load(old(contexts), ids)
    {
      ghost var m0 := contexts;
      var c1, l1, st1, o1 := DestroyChildren(s, fuel, react, settledBy, Value(()));
      DestructionsAcknowledged(st1, o1, react);
      if c1.None? {
        return None, l1, st1, o1;
      }
      ghost var m1 := contexts;
      var c2, l2, st2, o2 := HaltTasks(s, l1, react, c1.value);
      UntouchedTrans(m0, m1, contexts, s);
      AcknowledgedConcat(st1, o1, st2, o2, react);
      if c2.None? {
        return None, l2, st1 + st2, o1 + o2;
      }
      AggregateThen([], o1);
      AggregateThen(o1, o2);
      assert [] + o1 == o1;
      LastFirstConcat(st1, st2, m0[s].children, m1[s].tasks);
      assert m1[s].tasks == [] ==> st1 + st2 == st1;
      // Children that join during the teardown are not modelled, so one round of each phase empties the scope.
      r, left, stages, outcomes := Some(c2.value), l2, st1 + st2, o1 + o2;
    }

    /** The children phase of `destroy`: a pass over a snapshot of the child
        set, destroying its members from the last to the first. Each one
        leaves the set, so one pass empties it; the tasks that settle
        meanwhile leave the task set. `stages` records each destruction
        as it starts, `outcomes` what it reported. */
    method DestroyChildren(s: ScopeId, fuel: nat, react: TaskId -> Reaction, settledBy: ScopeId -> seq<TaskId>, acc: Result<Unit>)
      returns (r: Option<Result<Unit>>, left: nat, ghost stages: seq<Stage>, ghost outcomes: seq<Result<Unit>>)
      requires Valid() && s in contexts && (acc.Error? || acc == Value(()))
      modifies this
      decreases ids - s, 2
      ensures Valid() && SameShape(old(contexts), contexts) && ids == old(ids) && nextTask >= old(nextTask)
      ensures Untouched(old(contexts), contexts, s, None)
      ensures contexts[s] == old(contexts[s]).(children := contexts[s].children, tasks := contexts[s].tasks)
      ensures left <= fuel && |outcomes| <= |old(contexts[s].children)| && |stages| == |outcomes|
      ensures forall i :: 0 <= i < |stages| ==> stages[i].DestroyChild?
      ensures r.Some? ==> stages == Destructions(Reversed(old(contexts[s].children)))
      ensures r.Some? ==> contexts[s].children == [] && r.value == Aggregate([acc] + outcomes)
      ensures r.Some? ==> contexts[s].tasks == Without(old(contexts[s].tasks), Gone(old(contexts[s].children), settledBy))
      ensures Prompt(react) && Load(old(contexts), ids) <= fuel
              ==> r == Some(acc) && Load(contexts, ids) + (fuel - left) <= Load(old(contexts), ids)
    {
      var result := acc;
      left := fuel;
      stages, outcomes := [], [];
      ghost var m0 := contexts;
      ghost var quiet := Prompt(react) && Load(m0, ids) <= fuel;
      var order := contexts[s].children;
      assert SetsOk(contexts[s]);
      var k := |order|;
      while k > 0
        invariant 0 <= k <= |order| && NoDup(order)
        invariant Valid() && SameShape(m0, contexts) && ids == old(ids) && nextTask >= old(nextTask)
        invariant Untouched(m0, contexts, s, None) && s in contexts
        invariant contexts[s] == m0[s].(children := contexts[s].children, tasks := contexts[s].tasks)
        invariant contexts[s] == m0[s].(children := order[..k], tasks := Without(m0[s].tasks, Gone(order[k..], settledBy)))
        invariant left <= fuel && |outcomes| == |order| - k && |stages| == |outcomes|
        invariant forall i :: 0 <= i < |stages| ==> stages[i].DestroyChild?
        invariant stages == Destructions(Reversed(order)[..|order| - k])
        invariant result == Aggregate([acc] + outcomes)
        invariant quiet ==> result == acc && Load(contexts, ids) + (fuel - left) <= Load(m0, ids)
      {
        k := k - 1;
        var d, l;
        d, l, result, stages, outcomes := DestroyNextChild(s, order, k, left, react, settledBy, acc, result, stages, outcomes, m0, quiet);
        if d.None? {
          return None, l, stages, outcomes;
        }
        left := l;
      }
      assert order[..0] == [] && order[0..] == order;
      DestructionsAll(order);
      r := Some(result);
    }

    /** One step of the children phase of `s`, which began with the
        contexts `m0` and the child snapshot `order`: the children after
        `order[k]` are destroyed already and reported `outcomes`, which
        aggregate to `result`; `destroy(order[k])` runs and its report is
        recorded. */
    method DestroyNextChild(s: ScopeId, order: seq<ScopeId>, k: nat, fuel: nat, react: TaskId -> Reaction,
                            settledBy: ScopeId -> seq<TaskId>, acc: Result<Unit>, result: Result<Unit>,
                            ghost stages: seq<Stage>, ghost outcomes: seq<Result<Unit>>, ghost m0: Contexts, ghost quiet: bool)
      returns (d: Option<Result<Unit>>, left: nat, result': Result<Unit>, ghost stages': seq<Stage>, ghost outcomes': seq<Result<Unit>>)
      requires k < |order| && NoDup(order) && s in m0
      requires Valid() && SameShape(m0, contexts) && Untouched(m0, contexts, s, None)
      requires s in contexts && contexts[s] == m0[s].(children := order[..k + 1], tasks := Without(m0[s].tasks, Gone(order[k + 1..], settledBy)))
      requires result == Aggregate([acc] + outcomes) && stages == Destructions(Reversed(order)[..|order| - k - 1])
      requires |stages| == |outcomes| && forall i :: 0 <= i < |stages| ==> stages[i].DestroyChild?
      requires quiet ==> Prompt(react) && result == acc && Load(contexts, ids) <= fuel
      modifies this
      decreases ids - s, 1
      ensures Valid() && SameShape(m0, contexts) && ids == old(ids) && nextTask >= old(nextTask)
      ensures Untouched(m0, contexts, s, None) && s in contexts && left <= fuel
      ensures contexts[s] == if d.Some? then m0[s].(children := order[..k], tasks := Without(m0[s].tasks, Gone(order[k..], settledBy)))
                             else old(contexts[s])
      ensures contexts[s] == m0[s].(children := contexts[s].children, tasks := contexts[s].tasks)
      ensures |stages'| == |outcomes'| && forall i :: 0 <= i < |stages'| ==> stages'[i].DestroyChild?
      ensures stages' == Destructions(Reversed(order)[..|order| - k]) && outcomes' == outcomes + [if d.Some? then d.value else Value(())]
      ensures d.Some? ==> result' == Aggregate([acc] + outcomes')
      ensures quiet ==> d.Some? && result' == acc && Load(contexts, ids) + (fuel - left) <= old(Load(contexts, ids))
    {
      DestructionsStep(order, k);
      stages' := stages + [DestroyChild(order[k])];
      var l;
      d, l := DestroyChildScope(s, order, k, fuel, react, settledBy, m0);
      left := l;
      outcomes' := outcomes + [if d.Some? then d.value else Value(())];
      result' := result;
      if d.Some? {
        RecordStep(acc, outcomes, d.value);
        if d.value.Error? {
          result' := d.value;
        }
      }
    }

    /** `destroy(child)` for the child `order[k]` of `s`, in the children
        phase that began with the contexts `m0`: on success the child has
        left the child set of `s`, which is `order[..k]` again, and the
        tasks of `s` that settled meanwhile have left its task set; nothing
        outside the subtree of `s` changes. */
    method DestroyChildScope(s: ScopeId, order: seq<ScopeId>, k: nat, fuel: nat, react: TaskId -> Reaction, settledBy: ScopeId -> seq<TaskId>, ghost m0: Contexts)
      returns (d: Option<Result<Unit>>, left: nat)
      requires k < |order| && NoDup(order) && s in m0
      requires Valid() && SameShape(m0, contexts) && Untouched(m0, contexts, s, None)
      requires s in contexts && contexts[s] == m0[s].(children := order[..k + 1], tasks := Without(m0[s].tasks, Gone(order[k + 1..], settledBy)))
      modifies this
      decreases ids - s, 0
      ensures Valid() && SameShape(m0, contexts) && ids == old(ids) && nextTask >= old(nextTask)
      ensures Untouched(m0, contexts, s, None) && s in contexts && left <= fuel
      ensures contexts[s] == if d.Some? then m0[s].(children := order[..k], tasks := Without(m0[s].tasks, Gone(order[k..], settledBy)))
                             else old(contexts[s])
      ensures Prompt(react) && Load(old(contexts), ids) <= fuel
              ==> d == Some(Value(())) && Load(contexts, ids) + (fuel - left) <= Load(old(contexts), ids)
    {
      var child := order[k];
      ghost var mb := contexts;
      assert order[..k + 1] == order[..k] + [child];
      ChildOf(mb, ids, s, child);
      ghost var st, o;
      d, left, st, o := Destroy(child, fuel, react, settledBy);
      ChildDestroyed(m0, mb, contexts, s, child);
      if d.Some? {
        DeleteLast(order[..k], child);
        DropSettled(s, settledBy(child), m0);
        WithoutWithout(m0[s].tasks, Gone(order[k + 1..], settledBy), settledBy(child));
        assert order[k..][1..] == order[k + 1..];
      }
    }

    /** The tasks `gone` of `s` have settled: `link`'s watchers remove them
        from its task set. */
    method DropSettled(s: ScopeId, gone: seq<TaskId>, ghost m0: Contexts)
      requires Valid() && s in contexts && SameShape(m0, contexts) && Untouched(m0, contexts, s, None)
      modifies this
      ensures Valid() && SameShape(m0, contexts) && Untouched(m0, contexts, s, None)
      ensures ids == old(ids) && nextTask == old(nextTask) && s in contexts
      ensures contexts[s] == old(contexts[s]).(tasks := Without(old(contexts[s].tasks), gone))
      ensures Load(contexts, ids) <= Load(old(contexts), ids)
    {
      ghost var m1 := contexts;
      var c := contexts[s];
      assert SetsOk(c);
      SetContext(s, c.(tasks := Without(c.tasks, gone)));
      UntouchedTrans(m0, m1, contexts, s);
    }

    /** The task phase of `destroy`: each pass takes a snapshot of the task
        set and halts its members from the last to the first, waiting for
        each halt to be acknowledged; passes repeat while tasks remain. The
        set is updated on a copy that is stored back when the phase ends. */
    method HaltTasks(s: ScopeId, fuel: nat, react: TaskId -> Reaction, acc: Result<Unit>)
      returns (r: Option<Result<Unit>>, left: nat, ghost stages: seq<Stage>, ghost outcomes: seq<Result<Unit>>)
      requires Valid() && s in contexts && (acc.Error? || acc == Value(()))
      modifies this
      ensures Valid() && ids == old(ids) && nextTask >= old(nextTask) && s in contexts
      ensures contexts == old(contexts)[s := old(contexts[s]).(tasks := contexts[s].tasks)]
      ensures SameShape(old(contexts), contexts) && Untouched(old(contexts), contexts, s, None)
      ensures left <= fuel && Acknowledged(stages, outcomes, react) && AllHalts(stages)
      ensures r.Some? ==> contexts[s].tasks == [] && r.value == Aggregate([acc] + outcomes)
      ensures r.Some? ==> |stages| >= |old(contexts[s].tasks)|
                          && stages[..|old(contexts[s].tasks)|] == Halts(Reversed(old(contexts[s].tasks)))
      ensures old(contexts[s].tasks) == [] ==> r == Some(acc) && stages == []
      ensures Prompt(react) && Load(old(contexts), ids) <= fuel
              ==> r == Some(acc) && Load(contexts, ids) + (fuel - left) <= Load(old(contexts), ids)
    {
      var c := contexts[s];
      var tasks := c.tasks;
      assert SetsOk(contexts[s]);
      LoadAtLeast(contexts, ids, s);
      r, tasks, left, stages, outcomes := HaltAll(tasks, fuel, react, acc);
      // The tasks linked into the scope while its tasks were halted were issued meanwhile.
      nextTask := Above(nextTask, tasks);
      SetContext(s, c.(tasks := tasks));
    }
  }

  /** The task set after halting `t`: the tasks linked into the scope
      meanwhile join the set, and `t` itself, now settled, leaves it. */
  function AfterHalt(tasks: seq<TaskId>, t: TaskId, spawned: seq<TaskId>): (r: seq<TaskId>)
    ensures forall u :: u in r <==> u != t && (u in tasks || u in spawned)
    ensures NoDup(tasks) ==> NoDup(r)
  {
    Delete(AddAll(tasks, spawned), t)
  }

  /** The passes of the task phase over the set `tasks`, until it is empty. */
  method HaltAll(tasks: seq<TaskId>, fuel: nat, react: TaskId -> Reaction, acc: Result<Unit>)
    returns (r: Option<Result<Unit>>, after: seq<TaskId>, left: nat, ghost stages: seq<Stage>, ghost outcomes: seq<Result<Unit>>)
    requires NoDup(tasks) && (acc.Error? || acc == Value(()))
    ensures NoDup(after)
    ensures left <= fuel && Acknowledged(stages, outcomes, react) && AllHalts(stages)
    ensures r.Some? ==> after == [] && r.value == Aggregate([acc] + outcomes)
    ensures r.Some? ==> |stages| >= |tasks| && stages[..|tasks|] == Halts(Reversed(tasks))
    ensures tasks == [] ==> r == Some(acc) && stages == []
    ensures Prompt(react) && |tasks| <= fuel ==> r == Some(acc) && left == fuel - |tasks|
  {
    var result := acc;
    left := fuel;
    stages, outcomes := [], [];
    after := tasks;
    while after != []
      invariant NoDup(after)
      invariant left <= fuel && Acknowledged(stages, outcomes, react) && AllHalts(stages)
      invariant result == Aggregate([acc] + outcomes)
      invariant stages == [] ==> after == tasks
      invariant tasks == [] ==> stages == []
      invariant stages != [] ==> |stages| >= |tasks| && stages[..|tasks|] == Halts(Reversed(tasks))
      invariant Prompt(react) && |tasks| <= fuel ==> result == acc && (stages == [] ==> left == fuel)
                                                     && (stages != [] ==> after == [] && left == fuel - |tasks|)
      decreases left
    {
      ghost var before, beforeOutcomes := stages, outcomes;
      ghost var pass: seq<Stage>, passOutcomes: seq<Result<Unit>>;
      r, after, left, pass, passOutcomes := HaltPass(after, left, react, result);
      AcknowledgedConcat(stages, outcomes, pass, passOutcomes, react);
      stages, outcomes := stages + pass, outcomes + passOutcomes;
      if r.None? {
        return None, after, left, stages, outcomes;
      }
      RecordPass(acc, beforeOutcomes, passOutcomes);
      result := r.value;
      PassPrefix(tasks, before, pass);
    }
    assert tasks == [] ==> outcomes == [] && [acc] + outcomes == [acc];
    r := Some(result);
  }

  /** Recording a pass after the outcomes so far. */
  lemma RecordPass(acc: Result<Unit>, before: seq<Result<Unit>>, pass: seq<Result<Unit>>)
    ensures Aggregate([Aggregate([acc] + before)] + pass) == Aggregate([acc] + (before + pass))
  {
    AggregateThen([acc] + before, pass);
    assert [acc] + (before + pass) == [acc] + before + pass;
  }

  /** The first pass over the task set halts its tasks from the last to the
      first; later passes leave that prefix of the stages alone. */
  lemma PassPrefix(tasks: seq<TaskId>, before: seq<Stage>, pass: seq<Stage>)
    requires before == [] ==> pass == Halts(Reversed(tasks))
    requires before != [] ==> |before| >= |tasks| && before[..|tasks|] == Halts(Reversed(tasks))
    ensures |before + pass| >= |tasks| && (before + pass)[..|tasks|] == Halts(Reversed(tasks))
  {
    if before == [] {
      assert before + pass == pass;
    } else {
      assert (before + pass)[..|tasks|] == before[..|tasks|];
    }
  }

  /** One pass of the task phase over a snapshot of the set `tasks`, from
      its last task to its first. Each halt costs one unit of `fuel`; the
      pass stops early, with `None`, when a halt is never acknowledged or
      the fuel runs out. */
  method HaltPass(tasks: seq<TaskId>, fuel: nat, react: TaskId -> Reaction, acc: Result<Unit>)
    returns (r: Option<Result<Unit>>, after: seq<TaskId>, left: nat, ghost stages: seq<Stage>, ghost outcomes: seq<Result<Unit>>)
    requires NoDup(tasks) && (acc.Error? || acc == Value(()))
    ensures NoDup(after)
    ensures left <= fuel && Acknowledged(stages, outcomes, react) && AllHalts(stages)
    ensures r.Some? && tasks != [] ==> left < fuel
    ensures r.Some? ==> r.value == Aggregate([acc] + outcomes) && stages == Halts(Reversed(tasks))
    ensures Prompt(react) && |tasks| <= fuel ==> r == Some(acc) && after == [] && left == fuel - |tasks|
  {
    var result := acc;
    left := fuel;
    stages, outcomes := [], [];
    after := tasks;
    var order := tasks;
    var k := |order|;
    while k > 0
      invariant 0 <= k <= |order|
      invariant NoDup(after)
      invariant left <= fuel && Acknowledged(stages, outcomes, react) && AllHalts(stages)
      invariant k < |order| ==> left < fuel
      invariant result == Aggregate([acc] + outcomes)
      invariant stages == Halts(Reversed(order)[..|order| - k])
      invariant Prompt(react) && |order| <= fuel ==> after == order[..k] && left == fuel - (|order| - k) && result == acc
    {
      k := k - 1;
      var t := order[k];
      if left == 0 {
        return None, after, 0, stages, outcomes;
      }
      left := left - 1;
      var reaction := react(t);
      if reaction.ack.None? {
        return None, after, left, stages, outcomes;
      }
      if Prompt(react) && |order| <= fuel {
        HaltLast(order, k);
      }
      after := AfterHalt(after, t, reaction.spawned);
      var ack := reaction.ack.value;
      RecordStep(acc, outcomes, ack);
      AcknowledgedConcat(stages, outcomes, [HaltTask(t)], [ack], react);
      if ack.Error? {
        result := ack;
      }
      HaltsStep(order, k);
      stages, outcomes := stages + [HaltTask(t)], outcomes + [ack];
    }
    assert Reversed(order)[..|order|] == Reversed(order);
    r := Some(result);
  }

  /** A halt that spawns nothing takes the last task of a snapshot prefix
      off it. */
  lemma HaltLast(order: seq<TaskId>, k: nat)
    requires k < |order| && NoDup(order)
    ensures AfterHalt(order[..k + 1], order[k], []) == order[..k]
  {
    assert order[..k + 1] == order[..k] + [order[k]];
    assert AddAll(order[..k + 1], []) == order[..k + 1];
    assert order[k] !in order[..k] by {
      forall j | 0 <= j < k ensures order[j] != order[k] { }
    }
    DeleteLast(order[..k], order[k]);
  }

  /** Every halt in `stages` was acknowledged with the matching outcome. */
  ghost predicate Acknowledged(stages: seq<Stage>, outcomes: seq<Result<Unit>>, react: TaskId -> Reaction) {
    && |stages| == |outcomes|
    && forall i :: 0 <= i < |stages| && stages[i].HaltTask? ==> react(stages[i].task).ack == Some(outcomes[i])
  }

  ghost predicate AllHalts(stages: seq<Stage>) {
    forall i :: 0 <= i < |stages| ==> stages[i].HaltTask?
  }

  lemma AcknowledgedConcat(s1: seq<Stage>, o1: seq<Result<Unit>>, s2: seq<Stage>, o2: seq<Result<Unit>>, react: TaskId -> Reaction)
    requires Acknowledged(s1, o1, react)
    requires |s2| == |o2| && forall i :: 0 <= i < |s2| && s2[i].HaltTask? ==> react(s2[i].task).ack == Some(o2[i])
    ensures Acknowledged(s1 + s2, o1 + o2, react)
    ensures AllHalts(s1) && AllHalts(s2) ==> AllHalts(s1 + s2)
  {
    forall i | |s1| <= i < |s1| + |s2|
      ensures (s1 + s2)[i] == s2[i - |s1|] && (o1 + o2)[i] == o2[i - |s1|]
    {
    }
  }

  lemma DestructionsAcknowledged(st: seq<Stage>, o: seq<Result<Unit>>, react: TaskId -> Reaction)
    requires |st| == |o| && forall i :: 0 <= i < |st| ==> st[i].DestroyChild?
    ensures Acknowledged(st, o, react)
  {
  }

  /** `DestroyChild` for each scope of `order`, in that order. */
  function Destructions(order: seq<ScopeId>): (st: seq<Stage>)
    ensures |st| == |order|
    ensures forall i :: 0 <= i < |order| ==> st[i] == DestroyChild(order[i])
  {
    if order == [] then [] else [DestroyChild(order[0])] + Destructions(order[1..])
  }

  /** `HaltTask` for each task of `order`, in that order. */
  function Halts(order: seq<TaskId>): (st: seq<Stage>)
    ensures |st| == |order|
    ensures forall i :: 0 <= i < |order| ==> st[i] == HaltTask(order[i])
  {
    if order == [] then [] else [HaltTask(order[0])] + Halts(order[1..])
  }

  /** Halting `order[k]` next extends the halts of the last tasks of `order`. */
  lemma HaltsStep(order: seq<TaskId>, k: nat)
    requires k < |order|
    ensures Halts(Reversed(order)[..|order| - k]) == Halts(Reversed(order)[..|order| - k - 1]) + [HaltTask(order[k])]
  {
    ReversedStep(order, k);
    HaltsAppend(Reversed(order)[..|order| - k - 1], order[k]);
  }

  /** Destroying `order[k]` next extends the destructions of the last
      children of `order`. */
  /** The whole reversed snapshot, once every child has been destroyed. */
  lemma DestructionsAll(order: seq<ScopeId>)
    ensures Destructions(Reversed(order)[..|order|]) == Destructions(Reversed(order))
  {
    assert Reversed(order)[..|order|] == Reversed(order);
  }

  lemma DestructionsStep(order: seq<ScopeId>, k: nat)
    requires k < |order|
    ensures Destructions(Reversed(order)[..|order| - k]) == Destructions(Reversed(order)[..|order| - k - 1]) + [DestroyChild(order[k])]
  {
    ReversedStep(order, k);
  }

  lemma HaltsAppend(order: seq<TaskId>, t: TaskId)
    ensures Halts(order + [t]) == Halts(order) + [HaltTask(t)]
  {
  }

  /** The teardown order of `destroy`: the children as they were when it
      began, from the last added to the first, then the tasks as they were
      when the task phase began, from the last added to the first (then any
      tasks linked meanwhile). */
  ghost predicate LastFirst(stages: seq<Stage>, children: seq<ScopeId>, tasks: seq<TaskId>) {
    && |stages| >= |children| + |tasks|
    && stages[..|children|] == Destructions(Reversed(children))
    && stages[|children|..|children| + |tasks|] == Halts(Reversed(tasks))
  }

  lemma LastFirstConcat(s1: seq<Stage>, s2: seq<Stage>, children: seq<ScopeId>, tasks: seq<TaskId>)
    requires s1 == Destructions(Reversed(children))
    requires |s2| >= |tasks| && s2[..|tasks|] == Halts(Reversed(tasks))
    ensures LastFirst(s1 + s2, children, tasks)
  {
    assert (s1 + s2)[..|children|] == s1;
    assert (s1 + s2)[|children|..|children| + |tasks|] == s2[..|tasks|];
  }

  /** Under the root, the scope 1, and under it, the scope 2. */
  method GrandchildTree() returns (runtime: Runtime)
    ensures fresh(runtime) && runtime.Valid() && Root in runtime.contexts && 1 in runtime.contexts && 2 in runtime.contexts
    ensures runtime.contexts[2].parent == Some(1) && runtime.contexts[1].parent == Some(Root)
  {
    runtime := new Runtime();
    var a := runtime.CreateScope(None);
    var b := runtime.CreateScope(Some(a));
  }

  /** The ancestry of the scope 2 is 2, 1, root. */
  method AncestryOfGrandchild() returns (ancestry: seq<ScopeId>)
    ensures ancestry == [2, 1, Root]
  {
    var runtime := GrandchildTree();
    ghost var m := runtime.contexts;
    assert m[Root].parent == None;
    assert Ancestry(m, Root) == [Root];
    assert Ancestry(m, 1) == [1] + Ancestry(m, Root);
    assert Ancestry(m, 2) == [2] + Ancestry(m, 1);
    ancestry := runtime.AncestryOf(2);
  }

  /** The loop of `ancestryOf` as written, started on the scope 2, has
      pushed 1 three times after three iterations and has not returned. */
  method AncestryAsWrittenLoops() returns (asWritten: seq<ScopeId>, returned: bool)
    ensures asWritten == [2, 1, 1, 1] && !returned
  {
    var runtime := GrandchildTree();
    asWritten, returned := runtime.AncestryAsWritten(2, 3);
  }

  /** A task halted while it waits on `sleep(1)`: its yield scope 1 holds the
      sleep task 0, and under it the sleep task's own yield scope 2 holds the
      timer future's task 1. Destroying scope 2 halts the timer task, the
      sleep task is resumed with `{halt}` and settles. When every halt is
      acknowledged at once, `destroy(1)` succeeds, and its only step of its
      own was destroying scope 2: it never halts the sleep task itself. The
      timer's halt is a step of the nested `destroy(2)`, which `stages` does
      not list. */
  method DestroyYieldScopeOfSleep() returns (r: Option<Result<Unit>>, ghost stages: seq<Stage>)
    ensures r == Some(Value(())) && stages == [DestroyChild(2)]
  {
    var runtime := SleepTree();
    var settledBy := (c: ScopeId) => if c == 2 then [0] else [];
    SleepSettledByItsScope(settledBy);
    var react := (t: TaskId) => Reaction(Some(Value(())), []);
    assert Prompt(react);
    var left;
    ghost var outcomes;
    r, left, stages, outcomes := runtime.Destroy(1, 10, react, settledBy);
  }

  /** The scopes and tasks of that example. */
  method SleepTree() returns (runtime: Runtime)
    ensures fresh(runtime) && runtime.Valid() && runtime.ids == 3 && runtime.contexts.Keys == {0, 1, 2}
    ensures runtime.contexts[0].tasks == [] && runtime.contexts[1].children == [2]
    ensures runtime.contexts[1].tasks == [0] && runtime.contexts[2].tasks == [1]
    ensures Load(runtime.contexts, runtime.ids) == 2
  {
    runtime := SleepScopes();
    assert RunTask<int>(Fut(None), 0, []) == Pending;
    var sleep, sleepStatus := runtime.Run<int>(Fut(None), 0, Some(1), []);
    assert runtime.contexts[1].tasks == [0];
    var timer, timerStatus := runtime.Run<int>(Fut(None), 0, Some(2), []);
    LoadOfThree(runtime.contexts);
  }

  /** The scopes of that example, before any task runs: scope 1 under the
      root, and scope 2 under scope 1. */
  method SleepScopes() returns (runtime: Runtime)
    ensures fresh(runtime) && runtime.Valid() && runtime.ids == 3 && runtime.nextTask == 0
    ensures runtime.contexts.Keys == {0, 1, 2} && runtime.contexts[0].tasks == []
    ensures runtime.contexts[1] == Context(1, Some(0), [], [2], []) && runtime.contexts[2] == Context(2, Some(1), [], [], [])
  {
    runtime := new Runtime();
    var yieldScope := runtime.CreateScope(None);
    var sleepScope := runtime.CreateScope(Some(yieldScope));
  }

  /** The task count of three scopes. */
  lemma LoadOfThree(m: Contexts)
    requires m.Keys == {0, 1, 2}
    ensures Load(m, 3) == |m[0].tasks| + |m[1].tasks| + |m[2].tasks|
  {
    assert Load(m, 1) == |m[0].tasks|;
    assert Load(m, 2) == |m[0].tasks| + |m[1].tasks|;
  }

  lemma SleepSettledByItsScope(settledBy: ScopeId -> seq<TaskId>)
    requires settledBy(2) == [0]
    ensures Without([0], Gone([2], settledBy)) == [] && Destructions(Reversed([2])) == [DestroyChild(2)]
  {
    assert Gone([2], settledBy) == [0] + Gone([], settledBy);
    assert Reversed([2]) == [2];
  }
}
