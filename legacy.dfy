/**
 * The older backup tree of dumprestore/backup.py.
 *
 * A set has a parent and children; `preflight` asks every child and passes
 * when every answer is truthy, `backup` concatenates the children's lists of
 * (name, path) pairs, and `cleanup` lists the children's answers. The root
 * set writes the collected pairs into a new zip file. Sets that override the
 * three hooks (such as the media set) are leaves here, given by what their
 * hooks answer.
 */
module Legacy {

  import opened Py
  import opened Zip

  /** What a set is: the base class, the root set with its zip file name, or a set with its own hooks. */
  datatype Kind =
    | Plain
    | Root(filename: string)
    | Leaf(preflight: Result<PyValue>, files: Result<seq<(string, string)>>, cleanup: PyValue)

  /** The default of `destdir`, which `RootBackupSet.__init__` always keeps. */
  const DefaultDestdir := "/var/tmp"

  class BackupSet {
    const kind: Kind
    const destdir: string
    var parent: BackupSet?
    var children: seq<BackupSet>
    ghost var Repr: set<BackupSet>

    /** The set's subtree: every child links back to it, and Repr is exactly the subtree's sets. */
    ghost predicate Valid()
      reads this`children, this`Repr, Repr - {this}
      decreases Repr
    {
      && this in Repr
      && (kind.Leaf? ==> children == [])
      && (forall c :: c in children ==>
            && c in Repr - {this}
            && c.Repr <= Repr - {this}
            && c.parent == this
            && c.Valid())
      && Repr == {this} + SubtreesOf(children)
    }

    /** `BackupSet.__init__` (and `RootBackupSet.__init__`, which stores the file name first and keeps the
        default destination directory): no parent, no children. */
    constructor (kind: Kind, destdir: string)
      ensures this.kind == kind && this.destdir == if kind.Root? then DefaultDestdir else destdir
      ensures parent == null && children == []
      ensures Valid() && Repr == {this}
    {
      this.kind := kind;
      this.destdir := if kind.Root? then DefaultDestdir else destdir;
      parent := null;
      children := [];
      Repr := {this};
    }

    /** `setSetParent(parent)`: records the parent, then appends this set after the parent's children. A set
        with its own hooks has no children list, so appending to it fails after the parent was recorded. */
    method SetSetParent(p: BackupSet) returns (r: Result<PyValue>)
      requires p.Valid() && Valid() && p.Repr !! Repr
      modifies this`parent, p`children, p`Repr
      ensures parent == p
      ensures !p.kind.Leaf? ==>
        && r == Ok(PyNone) && p.Valid()
        && p.children == old(p.children) + [this] && p.Repr == old(p.Repr) + Repr
      ensures p.kind.Leaf? ==>
        r == Err(AttributeError("children")) && p.children == old(p.children) && p.Repr == old(p.Repr)
    {
      parent := p;
      if p.kind.Leaf? {
        return Err(AttributeError("children"));
      }
      p.Append(this);
      r := Ok(PyNone);
    }

    /** The append half of `setSetParent`, on the parent's side. */
    method Append(child: BackupSet)
      requires !kind.Leaf? && Valid() && child.Valid() && Repr !! child.Repr && child.parent == this
      modifies this`children, this`Repr
      ensures Valid()
      ensures children == old(children) + [child]
      ensures Repr == old(Repr) + child.Repr
    {
      ghost var before := children;
      assert forall c :: c in before ==> c.Valid() && c.Repr <= Repr - {this} && child !in c.Repr;
      children := children + [child];
      Repr := Repr + child.Repr;
      assert child.Valid();
      forall c | c in children
        ensures c in Repr - {this} && c.Repr <= Repr - {this} && c.parent == this && c.Valid()
      {
        if c != child {
          assert c in before;
        }
      }
      assert SubtreesOf(children) == SubtreesOf(before) + child.Repr;
    }

    /** What `preflight()` answers for this subtree. */
    ghost function PreflightOf(): Result<PyValue>
      requires Valid()
      reads Repr
      decreases Repr, 1
    {
      if kind.Leaf? then kind.preflight
      else
        match ChildPreflights(|children|)
        case Err(e) => Err(e)
        case Ok(checks) => Ok(PyBool(AllTruthy(checks)))
    }

    /** The answers of the first k children, or the first failure among them. */
    ghost function ChildPreflights(k: nat): (r: Result<seq<PyValue>>)
      requires Valid() && k <= |children|
      reads Repr
      ensures r.Ok? ==> |r.value| == k
      decreases Repr, 0, k
    {
      if k == 0 then Ok([])
      else
        var c := children[k - 1];
        assert c in children;
        match ChildPreflights(k - 1)
        case Err(e) => Err(e)
        case Ok(checks) =>
          match c.PreflightOf()
          case Err(e) => Err(e)
          case Ok(v) => Ok(checks + [v])
    }

    /** `preflight()`: ask every child in order, then pass only if every answer is truthy. */
    method Preflight() returns (r: Result<PyValue>)
      requires Valid()
      ensures r == PreflightOf()
      decreases Repr
    {
      if kind.Leaf? {
        return kind.preflight;
      }
      var checks := [];
      for i := 0 to |children|
        invariant ChildPreflights(i) == Ok(checks)
      {
        var c := children[i];
        assert c in children;
        var v := c.Preflight();
        if v.Err? {
          ChildPreflightsFail(this, i + 1);
          return Err(v.error);
        }
        checks := checks + [v.value];
      }
      for i := 0 to |checks|
        invariant AllTruthy(checks[..i])
      {
        if !Truthy(checks[i]) {
          AllTruthyAt(checks, i);
          return Ok(PyBool(false));
        }
        assert checks[..i + 1] == checks[..i] + [checks[i]];
        AllTruthyConcat(checks[..i], [checks[i]]);
      }
      assert checks[..|checks|] == checks;
      r := Ok(PyBool(true));
    }

    /** What `backup()` of the base class collects for this subtree. */
    ghost function FilesOf(): Result<seq<(string, string)>>
      requires Valid() && NoRootBelow(this)
      reads Repr
      decreases Repr, 1
    {
      if kind.Leaf? then kind.files else ChildFiles(|children|)
    }

    /** The first k children's lists, concatenated, or the first failure among them. */
    ghost function ChildFiles(k: nat): Result<seq<(string, string)>>
      requires Valid() && NoRootBelow(this) && k <= |children|
      reads Repr
      decreases Repr, 0, k
    {
      if k == 0 then Ok([])
      else
        var c := children[k - 1];
        ChildBelow(this, k - 1);
        match ChildFiles(k - 1)
        case Err(e) => Err(e)
        case Ok(files) =>
          match c.FilesOf()
          case Err(e) => Err(e)
          case Ok(more) => Ok(files + more)
    }

    /** `BackupSet.backup()`: every child's list, in child order, concatenated. */
    method Backup() returns (r: Result<seq<(string, string)>>)
      requires Valid() && NoRootBelow(this)
      ensures r == FilesOf()
      decreases Repr
    {
      if kind.Leaf? {
        return kind.files;
      }
      var files := [];
      for i := 0 to |children|
        invariant ChildFiles(i) == Ok(files)
      {
        ChildBelow(this, i);
        var more := children[i].Backup();
        if more.Err? {
          ChildFilesFail(this, i + 1);
          return Err(more.error);
        }
        files := files + more.value;
      }
      r := Ok(files);
    }

    /** `RootBackupSet.backup()`: collect the pairs, then write each into a new zip file under its name, in
        order, and close the file once. A failure while collecting happens before the file is made. */
    method RootBackup() returns (r: Result<ZipFile>)
      requires kind.Root? && Valid() && NoRootBelow(this)
      ensures FilesOf().Err? ==> r == Err(FilesOf().error)
      ensures FilesOf().Ok? ==>
        && r.Ok? && fresh(r.value) && r.value.path == kind.filename && r.value.closed
        && r.value.entries == ZipEntries(FilesOf().value)
    {
      var files := Backup();
      if files.Err? {
        return Err(files.error);
      }
      var z := new ZipFile(kind.filename);
      WriteAll(z, files.value);
      z.Close();
      r := Ok(z);
    }

    /** What `cleanup()` answers for this subtree: the root answers None, a set with its own hooks its own
        answer, any other set the list of its children's answers. */
    ghost function CleanupOf(): PyValue
      requires Valid()
      reads Repr
      decreases Repr, 1
    {
      if kind.Leaf? then kind.cleanup
      else if kind.Root? then PyNone
      else PyList(ChildCleanups(|children|))
    }

    ghost function ChildCleanups(k: nat): (r: seq<PyValue>)
      requires Valid() && k <= |children|
      reads Repr
      ensures |r| == k
      decreases Repr, 0, k
    {
      if k == 0 then []
      else
        var c := children[k - 1];
        assert c in children;
        ChildCleanups(k - 1) + [c.CleanupOf()]
    }

    /** `cleanup()`: one answer per child, appended as it is rather than flattened. */
    method Cleanup() returns (r: PyValue)
      requires Valid()
      ensures r == CleanupOf()
      decreases Repr
    {
      if kind.Leaf? {
        return kind.cleanup;
      }
      var files := [];
      for i := 0 to |children|
        invariant files == ChildCleanups(i)
      {
        var c := children[i];
        assert c in children;
        var v := c.Cleanup();
        files := files + [v];
      }
      if kind.Root? {
        return PyNone;
      }
      r := PyList(files);
    }
  }

  /** The loop of `RootBackupSet.backup()`: each pair (name, path) in order, stored as `z.write(path, name)`. */
  method WriteAll(z: ZipFile, files: seq<(string, string)>)
    requires !z.closed
    modifies z`entries
    ensures z.entries == old(z.entries) + ZipEntries(files)
  {
    for i := 0 to |files|
      invariant z.entries == old(z.entries) + ZipEntries(files[..i])
    {
      var (name, path) := files[i];
      assert files[..i + 1] == files[..i] + [files[i]];
      ZipEntriesConcat(files[..i], [files[i]]);
      z.Write(path, name);
    }
    assert files[..|files|] == files;
  }

  /** The zip entries for collected pairs: each pair (name, path) stores the contents of path under name. */
  function ZipEntries(files: seq<(string, string)>): (r: seq<Entry>)
    ensures |r| == |files|
    ensures forall i :: 0 <= i < |files| ==> r[i] == (files[i].0, FileContents(files[i].1))
  {
    if files == [] then [] else ZipEntries(files[..|files| - 1]) + [(files[|files| - 1].0, FileContents(files[|files| - 1].1))]
  }

  lemma ZipEntriesConcat(a: seq<(string, string)>, b: seq<(string, string)>)
    ensures ZipEntries(a + b) == ZipEntries(a) + ZipEntries(b)
  {
  }

  /** Every answer is truthy. */
  predicate AllTruthy(checks: seq<PyValue>) {
    forall i :: 0 <= i < |checks| ==> Truthy(checks[i])
  }

  lemma AllTruthyConcat(a: seq<PyValue>, b: seq<PyValue>)
    requires AllTruthy(a) && AllTruthy(b)
    ensures AllTruthy(a + b)
  {
  }

  lemma AllTruthyAt(checks: seq<PyValue>, i: nat)
    requires i < |checks| && !Truthy(checks[i])
    ensures !AllTruthy(checks)
  {
  }

  /** The nodes of the subtrees rooted at `cs`. */
  ghost function SubtreesOf(cs: seq<BackupSet>): set<BackupSet>
    reads set c | c in cs
  {
    if cs == [] then {} else SubtreesOf(cs[..|cs| - 1]) + cs[|cs| - 1].Repr
  }

  /** No root set below `n`: only the top of a tree may be a root set. */
  ghost predicate NoRootBelow(n: BackupSet)
    reads n, n.Repr
  {
    forall d :: d in n.Repr && d != n ==> !d.kind.Root?
  }

  /** The i-th child of a set heads a valid subtree inside it, with no root set in it. */
  lemma ChildBelow(n: BackupSet, i: nat)
    requires n.Valid() && NoRootBelow(n) && i < |n.children|
    ensures n.children[i] in n.children && n.children[i].Valid() && n.children[i].Repr < n.Repr
    ensures !n.children[i].kind.Root? && NoRootBelow(n.children[i])
  {
    var c := n.children[i];
    assert c in n.children;
  }

  /** Once a child's preflight fails, so does the whole loop, with the same error. */
  lemma {:induction false} ChildPreflightsFail(n: BackupSet, k: nat)
    requires n.Valid() && k <= |n.children| && n.ChildPreflights(k).Err?
    ensures n.PreflightOf() == Err(n.ChildPreflights(k).error) || n.kind.Leaf?
    ensures n.ChildPreflights(|n.children|) == n.ChildPreflights(k)
    decreases |n.children| - k
  {
    if k < |n.children| {
      ChildPreflightsFail(n, k + 1);
    }
  }

  /** Once a child's backup fails, so does the whole loop, with the same error. */
  lemma {:induction false} ChildFilesFail(n: BackupSet, k: nat)
    requires n.Valid() && NoRootBelow(n) && k <= |n.children| && n.ChildFiles(k).Err?
    ensures n.ChildFiles(|n.children|) == n.ChildFiles(k)
    decreases |n.children| - k
  {
    if k < |n.children| {
      ChildBelow(n, k);
      ChildFilesFail(n, k + 1);
    }
  }

  /** The answers of the first k children are each child's own answer, and the loop fails exactly when
      one of them fails. */
  lemma {:induction false} ChildPreflightsAre(n: BackupSet, k: nat)
    requires n.Valid() && k <= |n.children|
    ensures forall j :: 0 <= j < |n.children| ==> n.children[j].Valid()
    ensures n.ChildPreflights(k).Ok? <==> forall j :: 0 <= j < k ==> n.children[j].PreflightOf().Ok?
    ensures n.ChildPreflights(k).Ok? ==>
      forall j :: 0 <= j < k ==> n.ChildPreflights(k).value[j] == n.children[j].PreflightOf().value
  {
    assert forall j :: 0 <= j < |n.children| ==> n.children[j] in n.children;
    if k > 0 {
      ChildPreflightsAre(n, k - 1);
      var c := n.children[k - 1];
      var prev := n.ChildPreflights(k - 1);
      var all := forall j :: 0 <= j < k ==> n.children[j].PreflightOf().Ok?;
      if prev.Ok? && c.PreflightOf().Ok? {
        ChildPreflightsSnoc(n, k);
      } else {
        assert n.ChildPreflights(k).Err?;
        assert !all by {
          if prev.Err? {
            var j :| 0 <= j < k - 1 && !n.children[j].PreflightOf().Ok?;
          }
        }
      }
    }
  }

  lemma ChildPreflightsSnoc(n: BackupSet, k: nat)
    requires n.Valid() && 0 < k <= |n.children|
    requires forall j :: 0 <= j < |n.children| ==> n.children[j] in n.children && n.children[j].Valid()
    requires n.ChildPreflights(k - 1).Ok? && n.children[k - 1].PreflightOf().Ok?
    requires forall j :: 0 <= j < k - 1 ==> n.children[j].PreflightOf().Ok?
    requires forall j :: 0 <= j < k - 1 ==> n.ChildPreflights(k - 1).value[j] == n.children[j].PreflightOf().value
    ensures n.ChildPreflights(k).Ok?
    ensures forall j :: 0 <= j < k ==> n.children[j].PreflightOf().Ok?
    ensures forall j :: 0 <= j < k ==> n.ChildPreflights(k).value[j] == n.children[j].PreflightOf().value
  {
    var vs := n.ChildPreflights(k).value;
    assert vs == n.ChildPreflights(k - 1).value + [n.children[k - 1].PreflightOf().value];
  }

  /** `preflight()` of a set without its own hooks passes exactly when every child answers something
      truthy, fails (answers False) when every child answers but one answer is falsy, and raises exactly when
      a child raises. A set without children passes. */
  lemma PreflightPasses(n: BackupSet)
    requires n.Valid() && !n.kind.Leaf?
    ensures forall j :: 0 <= j < |n.children| ==> n.children[j].Valid()
    ensures n.PreflightOf() == Ok(PyBool(true)) <==>
      forall j :: 0 <= j < |n.children| ==>
        n.children[j].PreflightOf().Ok? && Truthy(n.children[j].PreflightOf().value)
    ensures n.PreflightOf() == Ok(PyBool(false)) <==>
      (forall j :: 0 <= j < |n.children| ==> n.children[j].PreflightOf().Ok?) &&
      exists j :: 0 <= j < |n.children| && !Truthy(n.children[j].PreflightOf().value)
    ensures n.PreflightOf().Err? <==> exists j :: 0 <= j < |n.children| && n.children[j].PreflightOf().Err?
  {
    ChildPreflightsAre(n, |n.children|);
  }

  /** A media set answers None when its checks pass (dumprestore/media.py:56-63); one such child is enough
      for its legacy parent to fail the pre-flight checks, whatever the other children answer. */
  lemma MediaChildFailsPreflight(n: BackupSet, i: nat, files: Result<seq<(string, string)>>, cleanup: PyValue)
    requires n.Valid() && !n.kind.Leaf? && i < |n.children|
    requires n.children[i].kind == Leaf(Ok(PyNone), files, cleanup)
    requires forall j :: 0 <= j < |n.children| ==> n.children[j] in n.children && n.children[j].PreflightOf().Ok?
    ensures n.PreflightOf() == Ok(PyBool(false))
  {
    PreflightPasses(n);
    assert !Truthy(n.children[i].PreflightOf().value);
  }

  /** A leaf of the tree (a set with its own hooks) contributes `pair` to the collected list. */
  ghost predicate Supplies(d: BackupSet, pair: (string, string)) {
    d.kind.Leaf? && d.kind.files.Ok? && pair in d.kind.files.value
  }

  /** Every leaf in `s` collects its list without failing. */
  ghost predicate LeavesOk(s: set<BackupSet>) {
    forall d :: d in s && d.kind.Leaf? ==> d.kind.files.Ok?
  }

  /** `backup()` of a subtree succeeds exactly when every leaf in it does, and the collected list holds
      exactly the pairs the leaves supply. */
  lemma {:induction false} FilesFromLeaves(n: BackupSet, pair: (string, string))
    requires n.Valid() && NoRootBelow(n)
    ensures n.FilesOf().Ok? <==> LeavesOk(n.Repr)
    ensures n.FilesOf().Ok? ==> (pair in n.FilesOf().value <==> SuppliedIn(n.Repr, pair))
    decreases n.Repr, 1, 0
  {
    if n.kind.Leaf? {
      assert n.Repr == {n};
    } else {
      ChildFilesFromLeaves(n, |n.children|, pair);
      assert n.children[..|n.children|] == n.children;
      assert n.Repr == {n} + SubtreesOf(n.children);
    }
  }

  /** The same for the loop over the first k children, whose subtrees make up `SubtreesOf(children[..k])`. */
  lemma {:induction false} ChildFilesFromLeaves(n: BackupSet, k: nat, pair: (string, string))
    requires n.Valid() && NoRootBelow(n) && !n.kind.Leaf? && k <= |n.children|
    ensures n.ChildFiles(k).Ok? <==> LeavesOk(SubtreesOf(n.children[..k]))
    ensures n.ChildFiles(k).Ok? ==> (pair in n.ChildFiles(k).value <==> SuppliedIn(SubtreesOf(n.children[..k]), pair))
    decreases n.Repr, 0, k
  {
    if k > 0 {
      ChildBelow(n, k - 1);
      var c := n.children[k - 1];
      ChildFilesFromLeaves(n, k - 1, pair);
      FilesFromLeaves(c, pair);
      var a := SubtreesOf(n.children[..k - 1]);
      assert n.children[..k][..k - 1] == n.children[..k - 1];
      assert SubtreesOf(n.children[..k]) == a + c.Repr;
      LeavesUnion(a, c.Repr, pair);
      var prev, more := n.ChildFiles(k - 1), c.FilesOf();
      if prev.Ok? && more.Ok? {
        assert n.ChildFiles(k) == Ok(prev.value + more.value);
      } else {
        assert n.ChildFiles(k).Err?;
      }
    }
  }

  /** Some leaf in `s` supplies `pair`. */
  ghost predicate SuppliedIn(s: set<BackupSet>, pair: (string, string)) {
    exists d :: d in s && Supplies(d, pair)
  }

  lemma LeavesUnion(a: set<BackupSet>, b: set<BackupSet>, pair: (string, string))
    ensures LeavesOk(a + b) <==> LeavesOk(a) && LeavesOk(b)
    ensures SuppliedIn(a + b, pair) <==> SuppliedIn(a, pair) || SuppliedIn(b, pair)
  {
    if SuppliedIn(a + b, pair) {
      var d :| d in a + b && Supplies(d, pair);
      if d in a {
        assert SuppliedIn(a, pair);
      } else {
        assert SuppliedIn(b, pair);
      }
    }
  }

  /** `cleanup()` of a set without its own hooks answers a list holding, in child order, exactly one answer
      per child, nested as it came; the root set answers None. */
  lemma CleanupItems(n: BackupSet)
    requires n.Valid() && !n.kind.Leaf?
    ensures forall j :: 0 <= j < |n.children| ==> n.children[j].Valid()
    ensures n.kind.Root? ==> n.CleanupOf() == PyNone
    ensures n.kind.Plain? ==>
      && n.CleanupOf().PyList? && |n.CleanupOf().items| == |n.children|
      && forall j :: 0 <= j < |n.children| ==> n.CleanupOf().items[j] == n.children[j].CleanupOf()
  {
    ChildCleanupsAre(n, |n.children|);
  }

  lemma {:induction false} ChildCleanupsAre(n: BackupSet, k: nat)
    requires n.Valid() && k <= |n.children|
    ensures forall j :: 0 <= j < |n.children| ==> n.children[j].Valid()
    ensures forall j :: 0 <= j < k ==> n.ChildCleanups(k)[j] == n.children[j].CleanupOf()
  {
    assert forall j :: 0 <= j < |n.children| ==> n.children[j] in n.children;
    if k > 0 {
      ChildCleanupsAre(n, k - 1);
      ChildCleanupsSnoc(n, k);
    }
  }

  lemma ChildCleanupsSnoc(n: BackupSet, k: nat)
    requires n.Valid() && 0 < k <= |n.children|
    requires forall j :: 0 <= j < |n.children| ==> n.children[j] in n.children && n.children[j].Valid()
    requires forall j :: 0 <= j < k - 1 ==> n.ChildCleanups(k - 1)[j] == n.children[j].CleanupOf()
    ensures forall j :: 0 <= j < k ==> n.ChildCleanups(k)[j] == n.children[j].CleanupOf()
  {
    assert n.ChildCleanups(k) == n.ChildCleanups(k - 1) + [n.children[k - 1].CleanupOf()];
  }
}
