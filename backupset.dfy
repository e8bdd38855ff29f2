/**
 * The lifecycle tree of dumprestore/backupset.py.
 *
 * Each node has a name, an optional driver, its children in insertion order
 * and a back-reference to its parent; the node's archive view is its own one
 * when assigned, else its parent's view narrowed by the node's name. The six
 * phase methods visit the children in order and then call the node's own
 * driver. Drivers are abstract: a driver is an identity plus the values its
 * two check hooks return, and a phase reports the driver calls it made.
 */
module BackupSets {

  import opened Py
  import opened Zip
  import opened Archives

  datatype Phase = BeforeDump | Dump | AfterDump | BeforeRestore | Restore | AfterRestore {
    /** The two phases whose driver hooks answer a check. */
    predicate IsCheck() {
      this == BeforeDump || this == BeforeRestore
    }
  }

  /** A driver as the tree sees it: which one it is, and what its check hooks return. */
  datatype Driver = Driver(id: nat, beforeDump: PyValue, beforeRestore: PyValue) {
    function CheckResult(phase: Phase): PyValue
      requires phase.IsCheck()
    {
      if phase == BeforeDump then beforeDump else beforeRestore
    }
  }

  /** `BackupDriver`'s own hooks: every one of them returns None. */
  function DefaultDriver(id: nat): (d: Driver)
    ensures forall phase: Phase :: phase.IsCheck() ==> d.CheckResult(phase) == PyNone
  {
    Driver(id, PyNone, PyNone)
  }

  /** One call of a driver hook: the phase, the driver, the archive view it was handed. */
  datatype Call = Call(phase: Phase, driver: nat, archive: Archive)

  class BackupSet {
    const name: string
    const driver: Option<Driver>
    var ownArchive: Option<Archive>
    var children: seq<BackupSet>
    var parent: BackupSet?
    ghost var Repr: set<BackupSet>

    /** The node's subtree: every child links back to this node, and Repr is exactly the subtree's nodes. */
    ghost predicate Valid()
      reads this`children, this`Repr, Repr - {this}
      decreases Repr
    {
      && this in Repr
      && (forall c :: c in children ==>
            && c in Repr - {this}
            && c.Repr <= Repr - {this}
            && c.parent == this
            && c.Valid())
      && Repr == {this} + SubtreesOf(children)
    }

    constructor (name: string, driver: Option<Driver>)
      ensures this.name == name && this.driver == driver
      ensures ownArchive == None && children == [] && parent == null
      ensures Valid() && Repr == {this}
    {
      this.name := name;
      this.driver := driver;
      ownArchive := None;
      children := [];
      parent := null;
      Repr := {this};
    }

    /** `addChild(child)`: links the child to this node and appends it after the existing children. */
    method AddChild(child: BackupSet)
      requires Valid() && child.Valid()
      requires Repr !! child.Repr
      modifies this`children, this`Repr, child`parent
      ensures Valid()
      ensures child.parent == this
      ensures children == old(children) + [child]
      ensures Repr == old(Repr) + child.Repr
    {
      child.parent := this;
      Append(child);
    }

    /** The second half of `addChild`: the child, already linked, goes after the existing children. */
    method Append(child: BackupSet)
      requires Valid() && child.Valid() && Repr !! child.Repr && child.parent == this
      modifies this`children, this`Repr
      ensures Valid()
      ensures children == old(children) + [child]
      ensures Repr == old(Repr) + child.Repr
    {
      ghost var before := children;
      assert forall c :: c in before ==> c.Valid() && c.Repr <= Repr - {this} && child !in c.Repr;
      children := children + [child];
      Repr := Repr + child.Repr;
      assert child.Valid();
      forall c | c in children
        ensures c in Repr - {this} && c.Repr <= Repr - {this} && c.parent == this && c.Valid()
      {
        if c != child {
          assert c in before;
        }
      }
      assert SubtreesOf(children) == SubtreesOf(before) + child.Repr;
    }

    /** The `archive` setter. */
    method SetArchive(a: Option<Archive>)
      modifies this`ownArchive
      ensures ownArchive == a
    {
      ownArchive := a;
    }

    /** The `archive` getter: the assigned view, else the parent's view narrowed by this node's name;
        asking the parent of a parentless node fails as `None.archive` does, and that is the only failure.
        A derived view's prefix ends in the node's name. */
    function GetArchive(ghost root: BackupSet): (r: Result<Archive>)
      requires Rooted(root) && this in root.Repr
      reads root.Repr
      ensures ownArchive.Some? ==> r == Ok(ownArchive.value)
      ensures ownArchive.None? && parent == null ==> r == Err(AttributeError("archive"))
      ensures r.Err? ==> r.error == AttributeError("archive")
      ensures ownArchive.None? && r.Ok? ==>
        |name| <= |r.value.prefix| && r.value.prefix[|r.value.prefix| - |name|..] == name
      decreases root.Repr - Repr
    {
      if ownArchive.Some? then Ok(ownArchive.value)
      else if parent == null then Err(AttributeError("archive"))
      else
        ParentInTree(root, this);
        match parent.GetArchive(root)
        case Ok(pa) => Ok(Subarchive(pa, name))
        case Err(e) => Err(e)
    }

    /** The check result of this subtree: every child passes and the driver's result is not `False`. */
    ghost function Passes(phase: Phase): bool
      requires phase.IsCheck() && Valid()
      reads Repr
      decreases Repr
    {
      && (forall c :: c in children ==> c.Passes(phase))
      && (driver.None? || !EqualsFalse(driver.value.CheckResult(phase)))
    }

    /** The driver calls of one phase over this subtree: the children's calls in insertion order, then this node's own. */
    ghost function Trace(phase: Phase, root: BackupSet): seq<Call>
      requires Rooted(root) && root.ownArchive.Some? && this in root.Repr
      reads root.Repr
      decreases Repr, 1, 0
    {
      InTree(root, this);
      ChildTraces(phase, root, |children|) + OwnCall(phase, root)
    }

    /** The calls made for the first k children. */
    ghost function ChildTraces(phase: Phase, root: BackupSet, k: nat): seq<Call>
      requires Rooted(root) && root.ownArchive.Some? && this in root.Repr && k <= |children|
      reads root.Repr
      decreases Repr, 0, k
    {
      InTree(root, this);
      if k == 0 then []
      else
        var c := children[k - 1];
        assert c in children && c in Repr;
        ChildTraces(phase, root, k - 1) + c.Trace(phase, root)
    }

    /** This node's own driver call in a phase, if it has a driver. */
    ghost function OwnCall(phase: Phase, root: BackupSet): seq<Call>
      requires Rooted(root) && root.ownArchive.Some? && this in root.Repr
      reads root.Repr
    {
      ArchiveDefined(root, this);
      if driver.Some? then [Call(phase, driver.value.id, GetArchive(root).value)] else []
    }

    /** `before_dump()` / `before_restore()`: every child's check, in order and without short-circuit,
        then the driver's check; the node passes when none of the collected results equals `False`. */
    method Check(phase: Phase, ghost root: BackupSet) returns (ok: bool, calls: seq<Call>)
      requires phase.IsCheck() && Valid()
      requires Rooted(root) && root.ownArchive.Some? && this in root.Repr
      ensures ok == Passes(phase)
      ensures calls == Trace(phase, root)
      decreases Repr, 1
    {
      var checks;
      checks, calls := CheckChildren(phase, root);
      TraceSplit(phase, root, this);
      if driver.Some? {
        ArchiveDefined(root, this);
        var archive := GetArchive(root).value;
        checks := checks + [driver.value.CheckResult(phase)];
        calls := calls + [Call(phase, driver.value.id, archive)];
      }
      ok := NoFalse(checks);
      PassesAggregate(phase, this, checks);
    }

    /** The loop of `before_dump()` / `before_restore()` over the children. */
    method CheckChildren(phase: Phase, ghost root: BackupSet) returns (checks: seq<PyValue>, calls: seq<Call>)
      requires phase.IsCheck() && Valid()
      requires Rooted(root) && root.ownArchive.Some? && this in root.Repr
      ensures checks == ChildChecks(phase, |children|)
      ensures calls == ChildTraces(phase, root, |children|)
      decreases Repr, 0
    {
      checks := [];
      calls := [];
      for i := 0 to |children|
        invariant checks == ChildChecks(phase, i)
        invariant calls == ChildTraces(phase, root, i)
      {
        var c := children[i];
        CheckStep(phase, root, this, i);
        var passed, childCalls := c.Check(phase, root);
        checks := checks + [PyBool(passed)];
        calls := calls + childCalls;
      }
    }

    /** What the loop of a check phase has collected after the first k children. */
    ghost function ChildChecks(phase: Phase, k: nat): (r: seq<PyValue>)
      requires phase.IsCheck() && Valid() && k <= |children|
      reads Repr
      ensures |r| == k
    {
      if k == 0 then []
      else
        assert children[k - 1] in children;
        ChildChecks(phase, k - 1) + [PyBool(children[k - 1].Passes(phase))]
    }

    /** `dump()`, `after_dump()`, `restore()`, `after_restore()`: every child first, in order, then the driver. */
    method Act(phase: Phase, ghost root: BackupSet) returns (calls: seq<Call>)
      requires !phase.IsCheck() && Valid()
      requires Rooted(root) && root.ownArchive.Some? && this in root.Repr
      ensures calls == Trace(phase, root)
      decreases Repr, 1
    {
      calls := ActChildren(phase, root);
      TraceSplit(phase, root, this);
      if driver.Some? {
        ArchiveDefined(root, this);
        var archive := GetArchive(root).value;
        calls := calls + [Call(phase, driver.value.id, archive)];
      }
    }

    /** The loop of `dump()` and the other action phases over the children. */
    method ActChildren(phase: Phase, ghost root: BackupSet) returns (calls: seq<Call>)
      requires !phase.IsCheck() && Valid()
      requires Rooted(root) && root.ownArchive.Some? && this in root.Repr
      ensures calls == ChildTraces(phase, root, |children|)
      decreases Repr, 0
    {
      calls := [];
      for i := 0 to |children|
        invariant calls == ChildTraces(phase, root, i)
      {
        var c := children[i];
        ChildInTree(root, this, i, phase);
        ghost var next := ChildTraces(phase, root, i) + c.Trace(phase, root);
        var childCalls := c.Act(phase, root);
        calls := calls + childCalls;
        assert calls == next;
      }
    }
  }

  /** The i-th child of a tree node is a tree node below it, and the calls up to it extend by its own. */
  lemma ChildInTree(root: BackupSet, n: BackupSet, i: nat, phase: Phase)
    requires Rooted(root) && root.ownArchive.Some? && n in root.Repr && i < |n.children|
    ensures n.Valid() && n.children[i] in root.Repr && n.children[i].Valid() && n.children[i].Repr < n.Repr
    ensures n.ChildTraces(phase, root, i + 1) == n.ChildTraces(phase, root, i) + n.children[i].Trace(phase, root)
  {
    InTree(root, n);
    assert n.children[i] in n.children;
  }

  /** One step of the loop of a check phase: the i-th child is a tree node below `n`, and both collected
      lists grow by its own. */
  lemma CheckStep(phase: Phase, root: BackupSet, n: BackupSet, i: nat)
    requires phase.IsCheck() && Rooted(root) && root.ownArchive.Some? && n in root.Repr && i < |n.children|
    ensures n.Valid() && n.children[i] in root.Repr && n.children[i].Valid() && n.children[i].Repr < n.Repr
    ensures n.ChildTraces(phase, root, i + 1) == n.ChildTraces(phase, root, i) + n.children[i].Trace(phase, root)
    ensures n.ChildChecks(phase, i + 1) == n.ChildChecks(phase, i) + [PyBool(n.children[i].Passes(phase))]
  {
    InTree(root, n);
    assert n.children[i] in n.children;
  }

  /** A node's calls in a phase are its children's calls followed by its own driver's, on its own view. */
  lemma TraceSplit(phase: Phase, root: BackupSet, n: BackupSet)
    requires Rooted(root) && root.ownArchive.Some? && n in root.Repr
    ensures n.GetArchive(root).Ok?
    ensures n.Trace(phase, root) == n.ChildTraces(phase, root, |n.children|) +
      (if n.driver.Some? then [Call(phase, n.driver.value.id, n.GetArchive(root).value)] else [])
  {
    InTree(root, n);
    ArchiveDefined(root, n);
  }

  lemma {:induction false} ChildChecksAt(phase: Phase, n: BackupSet, k: nat)
    requires phase.IsCheck() && n.Valid() && k <= |n.children|
    ensures forall j :: 0 <= j < k ==> n.children[j] in n.children && n.ChildChecks(phase, k)[j] == PyBool(n.children[j].Passes(phase))
  {
    if k > 0 {
      ChildChecksAt(phase, n, k - 1);
    }
  }

  /** `False not in checks` over the collected list says exactly that the subtree passes. */
  lemma PassesAggregate(phase: Phase, n: BackupSet, checks: seq<PyValue>)
    requires phase.IsCheck() && n.Valid()
    requires checks == n.ChildChecks(phase, |n.children|) +
      (if n.driver.Some? then [n.driver.value.CheckResult(phase)] else [])
    ensures NoFalse(checks) == n.Passes(phase)
  {
    var m := |n.children|;
    ChildChecksAt(phase, n, m);
    if NoFalse(checks) {
      forall c | c in n.children
        ensures c.Passes(phase)
      {
        var k :| 0 <= k < m && n.children[k] == c;
        assert !EqualsFalse(checks[k]);
      }
      if n.driver.Some? {
        assert !EqualsFalse(checks[m]);
      }
    } else {
      var k :| 0 <= k < |checks| && EqualsFalse(checks[k]);
      if k < m {
        assert n.children[k] in n.children && !n.children[k].Passes(phase);
      }
    }
  }

  /** The nodes of the subtrees rooted at `cs`. */
  ghost function SubtreesOf(cs: seq<BackupSet>): set<BackupSet>
    reads set c | c in cs
  {
    if cs == [] then {} else SubtreesOf(cs[..|cs| - 1]) + cs[|cs| - 1].Repr
  }

  lemma {:induction false} SubtreesOfMembers(cs: seq<BackupSet>, n: BackupSet)
    ensures n in SubtreesOf(cs) <==> exists c :: c in cs && n in c.Repr
    decreases |cs|
  {
    if cs != [] {
      var init := cs[..|cs| - 1];
      SubtreesOfMembers(init, n);
      if exists c :: c in cs && n in c.Repr {
        var c :| c in cs && n in c.Repr;
        if c != cs[|cs| - 1] {
          assert c in init;
        }
      }
    }
  }

  /** A whole tree: valid, and its top node has no parent. */
  ghost predicate Rooted(root: BackupSet)
    reads root`children, root`Repr, root.Repr - {root}, root`parent
  {
    root.Valid() && root.parent == null
  }

  /** Every node of a valid tree heads a valid subtree inside it. */
  lemma {:induction false} SubtreeValid(top: BackupSet, n: BackupSet)
    requires top.Valid() && n in top.Repr
    ensures n.Valid() && n.Repr <= top.Repr
    decreases top.Repr
  {
    if n != top {
      SubtreesOfMembers(top.children, n);
      var c :| c in top.children && n in c.Repr;
      SubtreeValid(c, n);
    }
  }

  lemma InTree(root: BackupSet, n: BackupSet)
    requires Rooted(root) && n in root.Repr
    ensures n.Valid() && n.Repr <= root.Repr
  {
    SubtreeValid(root, n);
  }

  /** Below the top of a valid tree every node's parent is in the tree and its subtree strictly contains the node's. */
  lemma {:induction false} ParentInSubtree(top: BackupSet, n: BackupSet)
    requires top.Valid() && n in top.Repr && n != top
    ensures n.parent != null && n.parent in top.Repr && n in n.parent.children
    ensures n.parent.Valid() && n.parent.Repr <= top.Repr
    ensures n.Repr <= n.parent.Repr - {n.parent}
    decreases top.Repr
  {
    SubtreesOfMembers(top.children, n);
    var c :| c in top.children && n in c.Repr;
    if n != c {
      ParentInSubtree(c, n);
    }
  }

  lemma ParentInTree(root: BackupSet, n: BackupSet)
    requires Rooted(root) && n in root.Repr && n.ownArchive.None? && n.parent != null
    ensures n.parent in root.Repr && n.Repr < n.parent.Repr
    ensures root.Repr - n.parent.Repr < root.Repr - n.Repr
  {
    ParentInSubtree(root, n);
    assert n.parent in (root.Repr - n.Repr) - (root.Repr - n.parent.Repr);
  }

  /** The top node is the only node of a tree without a parent. */
  lemma ParentlessIsRoot(root: BackupSet, n: BackupSet)
    requires Rooted(root) && n in root.Repr
    ensures n.parent == null ==> n == root
  {
    if n != root {
      ParentInSubtree(root, n);
    }
  }

  /** When the top node holds an archive, every node of the tree derives one. */
  lemma {:induction false} ArchiveDefined(root: BackupSet, n: BackupSet)
    requires Rooted(root) && root.ownArchive.Some? && n in root.Repr
    ensures n.GetArchive(root).Ok?
    decreases root.Repr - n.Repr
  {
    if n.ownArchive.None? {
      if n.parent == null {
        if n != root {
          ParentInSubtree(root, n);
        }
      } else {
        ParentInTree(root, n);
        ArchiveDefined(root, n.parent);
      }
    }
  }

  /** No driver in the subtree of `n` answers the check with `False`. */
  ghost predicate NoFalseBelow(phase: Phase, n: BackupSet)
    requires phase.IsCheck()
    reads n, n.Repr
  {
    forall d :: d in n.Repr && d.driver.Some? ==> !EqualsFalse(d.driver.value.CheckResult(phase))
  }

  /** A check passes exactly when no driver anywhere below answers `False`: one `False` fails every ancestor,
      and `None` or any other value passes. */
  lemma {:induction false} PassesIffNoFalseBelow(phase: Phase, n: BackupSet)
    requires phase.IsCheck() && n.Valid()
    ensures n.Passes(phase) <==> NoFalseBelow(phase, n)
    decreases n.Repr
  {
    forall c | c in n.children
      ensures c.Passes(phase) <==> NoFalseBelow(phase, c)
    {
      PassesIffNoFalseBelow(phase, c);
    }
    if n.Passes(phase) {
      forall d | d in n.Repr && d.driver.Some?
        ensures !EqualsFalse(d.driver.value.CheckResult(phase))
      {
        if d != n {
          SubtreesOfMembers(n.children, d);
          var c :| c in n.children && d in c.Repr;
          assert NoFalseBelow(phase, c);
        }
      }
    }
    if NoFalseBelow(phase, n) {
      forall c | c in n.children
        ensures NoFalseBelow(phase, c)
      {
        forall d | d in c.Repr && d.driver.Some?
          ensures !EqualsFalse(d.driver.value.CheckResult(phase))
        {
          SubtreesOfMembers(n.children, d);
        }
      }
    }
  }

  /** The call a node's driver receives in a phase: the node's own archive view. */
  ghost predicate CallOf(phase: Phase, root: BackupSet, d: BackupSet, call: Call)
    requires Rooted(root) && root.ownArchive.Some? && d in root.Repr
    reads root.Repr
  {
    ArchiveDefined(root, d);
    d.driver.Some? && call == Call(phase, d.driver.value.id, d.GetArchive(root).value)
  }

  /** Some node of `s` has a driver, and `call` is the call it receives in the phase. */
  ghost predicate CalledIn(phase: Phase, root: BackupSet, s: set<BackupSet>, call: Call)
    requires Rooted(root) && root.ownArchive.Some? && s <= root.Repr
    reads root.Repr
  {
    exists d :: d in s && CallOf(phase, root, d, call)
  }

  lemma CalledInUnion(phase: Phase, root: BackupSet, a: set<BackupSet>, b: set<BackupSet>, call: Call)
    requires Rooted(root) && root.ownArchive.Some? && a <= root.Repr && b <= root.Repr
    ensures CalledIn(phase, root, a + b, call) <==> CalledIn(phase, root, a, call) || CalledIn(phase, root, b, call)
  {
    if CalledIn(phase, root, a + b, call) {
      var d :| d in a + b && CallOf(phase, root, d, call);
      if d in a {
        assert CalledIn(phase, root, a, call);
      } else {
        assert CalledIn(phase, root, b, call);
      }
    }
  }

  /** A phase calls every driver of the subtree, each with its node's view, and nothing else; the check
      phases as well, whatever the earlier results were. */
  lemma {:induction false} TraceCallsEveryDriver(phase: Phase, root: BackupSet, n: BackupSet, call: Call)
    requires Rooted(root) && root.ownArchive.Some? && n in root.Repr
    ensures InTreeFacts(root, n)
    ensures call in n.Trace(phase, root) <==> CalledIn(phase, root, n.Repr, call)
    decreases n.Repr, 1, 0
  {
    InTree(root, n);
    TraceSplit(phase, root, n);
    ChildTracesCalls(phase, root, n, |n.children|, call);
    assert n.children[..|n.children|] == n.children;
    var below := SubtreesOf(n.children);
    assert n.Repr == {n} + below;
    CalledInUnion(phase, root, {n}, below, call);
    assert CalledIn(phase, root, {n}, call) <==> CallOf(phase, root, n, call);
  }

  /** Facts about a tree node that the trace lemmas hand on to their callers. */
  ghost predicate InTreeFacts(root: BackupSet, n: BackupSet)
    reads root, root.Repr, n, n.Repr
  {
    n.Valid() && n.Repr <= root.Repr
  }

  /** The calls made for the first k children are the calls of the drivers in those children's subtrees. */
  lemma {:induction false} ChildTracesCalls(phase: Phase, root: BackupSet, n: BackupSet, k: nat, call: Call)
    requires Rooted(root) && root.ownArchive.Some? && n in root.Repr && k <= |n.children|
    ensures InTreeFacts(root, n) && SubtreesOf(n.children[..k]) <= root.Repr
    ensures call in n.ChildTraces(phase, root, k) <==> CalledIn(phase, root, SubtreesOf(n.children[..k]), call)
    decreases n.Repr, 0, k
  {
    InTree(root, n);
    if k == 0 {
      assert n.children[..0] == [];
    } else {
      ChildInTree(root, n, k - 1, phase);
      var c := n.children[k - 1];
      ChildTracesCalls(phase, root, n, k - 1, call);
      TraceCallsEveryDriver(phase, root, c, call);
      var a := SubtreesOf(n.children[..k - 1]);
      assert n.children[..k][..k - 1] == n.children[..k - 1];
      assert SubtreesOf(n.children[..k]) == a + c.Repr;
      CalledInUnion(phase, root, a, c.Repr, call);
      var prev, own := n.ChildTraces(phase, root, k - 1), c.Trace(phase, root);
      assert call in prev + own <==> call in prev || call in own;
    }
  }

  /** The nearest node at or above `n` that holds its own archive, and the names of the nodes from just
      below it down to `n`. */
  ghost function ArchiveOwner(root: BackupSet, n: BackupSet): (r: (BackupSet, seq<string>))
    requires Rooted(root) && root.ownArchive.Some? && n in root.Repr
    reads root.Repr
    ensures r.0 in root.Repr && r.0.ownArchive.Some?
    decreases root.Repr - n.Repr
  {
    ParentlessIsRoot(root, n);
    if n.ownArchive.Some? || n.parent == null then (n, [])
    else
      ParentInTree(root, n);
      var up := ArchiveOwner(root, n.parent);
      (up.0, up.1 + [n.name])
  }

  /** A node's view is the owning node's archive narrowed by the names of the nodes below the owner down to
      the node itself: "a/b/c" for names a, b, c under an owner with the empty prefix. */
  lemma {:induction false} EffectivePrefix(root: BackupSet, n: BackupSet)
    requires Rooted(root) && root.ownArchive.Some? && n in root.Repr
    ensures n.GetArchive(root) == Ok(Narrowed(ArchiveOwner(root, n).0.ownArchive.value, ArchiveOwner(root, n).1))
    decreases root.Repr - n.Repr
  {
    if n.ownArchive.None? && n.parent != null {
      ParentInTree(root, n);
      EffectivePrefix(root, n.parent);
      var up := ArchiveOwner(root, n.parent);
      assert (up.1 + [n.name])[..|up.1|] == up.1;
    }
  }
}
