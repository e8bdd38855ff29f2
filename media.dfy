/**
 * Media backup (dumprestore/media.py).
 *
 * `FileBackupDriver.backup` walks the media storage with an explicit
 * work-list of directories: it pops the last pending directory, lists it,
 * pushes every subdirectory and writes every file into a fresh zip.
 * Storage is a map from directory path to its listing (subdirectories,
 * files). `MediaBackupSet` looks its driver up in the engine registry and
 * hands it a temporary file name.
 */
module Media {

  import opened Py
  import opened Zip

  /** `os.path.join(a, b)` (POSIX): an absolute `b` replaces `a`; otherwise one "/" separates them. */
  function Join(a: string, b: string): (r: string)
    ensures |b| > 0 && b[0] == '/' ==> r == b
    ensures (|b| == 0 || b[0] != '/') && a != "" && a[|a| - 1] != '/' ==> r == a + "/" + b
    ensures (|b| == 0 || b[0] != '/') && (a == "" || a[|a| - 1] == '/') ==> r == a + b
  {
    if |b| > 0 && b[0] == '/' then b
    else if a == "" || a[|a| - 1] == '/' then a + b
    else a + "/" + b
  }

  /** What `listdir(d)` returns: the subdirectory names and the file names of `d`. */
  type Listing = (seq<string>, seq<string>)

  /** The storage seen through `listdir`: every listable directory path and its listing. */
  type Storage = map<string, Listing>

  /** A directory entry name as a file system returns it: non-empty and without "/". */
  predicate EntryName(x: string) {
    x != "" && '/' !in x
  }

  /** The storage the walk can rely on: "." is listable, subdirectory names are plain entry names, and
      every subdirectory a listing names is itself listable under the joined path. */
  ghost predicate WellFormed(st: Storage) {
    && "." in st
    && forall d :: d in st ==> Closed(st, d)
  }

  /** Every subdirectory listed under `d` is a plain entry name and is itself listable. */
  ghost predicate Closed(st: Storage, d: string)
    requires d in st
  {
    forall x :: x in st[d].0 ==> EntryName(x) && Join(d, x) in st
  }

  /** The listable paths longer than `d`: they bound how much deeper the walk can go below `d`. */
  ghost function Longer(st: Storage, d: string): set<string> {
    set k | k in st && |k| > |d|
  }

  lemma DeeperIsSmaller(st: Storage, d: string, x: string)
    requires WellFormed(st) && d in st && x in st[d].0
    ensures Join(d, x) in st && Longer(st, Join(d, x)) < Longer(st, d)
  {
    assert Closed(st, d);
    assert EntryName(x);
    assert x[0] in x;
    assert |Join(d, x)| > |d|;
    assert Join(d, x) in Longer(st, d) - Longer(st, Join(d, x));
  }

  /** What a walk did: the directories it listed, in order, and the zip entries it wrote, in order. */
  datatype Walk = Walk(listed: seq<string>, entries: seq<Entry>)

  function Then(a: Walk, b: Walk): Walk {
    Walk(a.listed + b.listed, a.entries + b.entries)
  }

  lemma ThenAssoc(a: Walk, b: Walk, c: Walk)
    ensures Then(Then(a, b), c) == Then(a, Then(b, c))
  {
    assert (a.listed + b.listed) + c.listed == a.listed + (b.listed + c.listed);
    assert (a.entries + b.entries) + c.entries == a.entries + (b.entries + c.entries);
  }

  /** The entries written for the files of directory `d`: arcname `join(d, f)`, read from `join(root, arcname)`. */
  function FileEntries(root: string, d: string, files: seq<string>): (r: seq<Entry>)
    ensures |r| == |files|
    ensures forall i :: 0 <= i < |files| ==> r[i] == (Join(d, files[i]), FileContents(Join(root, Join(d, files[i]))))
  {
    if files == [] then []
    else FileEntries(root, d, files[..|files| - 1]) + [(Join(d, files[|files| - 1]), FileContents(Join(root, Join(d, files[|files| - 1]))))]
  }

  /** The walk below `d`, defined recursively: list `d`, write its files, then walk its subdirectories
      from the last one to the first. */
  ghost function Visit(st: Storage, root: string, d: string): Walk
    requires WellFormed(st) && d in st
    decreases Longer(st, d), 1, 0
  {
    Then(Walk([d], FileEntries(root, d, st[d].1)), VisitDirs(st, root, d, st[d].0))
  }

  /** The walks below the subdirectories `dirs` of `d`, last one first. */
  ghost function VisitDirs(st: Storage, root: string, d: string, dirs: seq<string>): Walk
    requires WellFormed(st) && d in st && forall x :: x in dirs ==> x in st[d].0
    decreases Longer(st, d), 0, |dirs|
  {
    if dirs == [] then Walk([], [])
    else
      DeeperIsSmaller(st, d, dirs[|dirs| - 1]);
      Then(Visit(st, root, Join(d, dirs[|dirs| - 1])), VisitDirs(st, root, d, dirs[..|dirs| - 1]))
  }

  /** Every path of the work-list can be listed. */
  ghost predicate Listable(st: Storage, stack: seq<string>) {
    forall p :: p in stack ==> p in st
  }

  /** Popping the last directory off the work-list owes its subtree first, then the rest. */
  lemma PendingSnoc(st: Storage, root: string, stack: seq<string>, p: string)
    requires WellFormed(st) && Listable(st, stack) && p in st
    ensures Listable(st, stack + [p])
    ensures Pending(st, root, stack + [p]) == Then(Visit(st, root, p), Pending(st, root, stack))
  {
    assert (stack + [p])[..|stack|] == stack;
  }

  /** The walk still owed to a work-list: the last pending directory's whole subtree first, then the rest. */
  ghost function Pending(st: Storage, root: string, stack: seq<string>): Walk
    requires WellFormed(st) && Listable(st, stack)
  {
    if stack == [] then Walk([], [])
    else Then(Visit(st, root, stack[|stack| - 1]), Pending(st, root, stack[..|stack| - 1]))
  }

  /** `[join(d, x) for x in dirs]`. */
  function Joins(d: string, dirs: seq<string>): (r: seq<string>)
    ensures |r| == |dirs|
    ensures forall i :: 0 <= i < |dirs| ==> r[i] == Join(d, dirs[i])
  {
    if dirs == [] then [] else Joins(d, dirs[..|dirs| - 1]) + [Join(d, dirs[|dirs| - 1])]
  }

  /** Pushing the subdirectories of `d` onto the work-list owes exactly their walks, last one first. */
  lemma {:induction false} PendingPush(st: Storage, root: string, rest: seq<string>, d: string, dirs: seq<string>)
    requires WellFormed(st) && d in st && Listable(st, rest)
    requires forall x :: x in dirs ==> x in st[d].0
    ensures Listable(st, rest + Joins(d, dirs))
    ensures Pending(st, root, rest + Joins(d, dirs)) == Then(VisitDirs(st, root, d, dirs), Pending(st, root, rest))
    decreases |dirs|
  {
    if dirs == [] {
      assert rest + Joins(d, dirs) == rest;
      var p := Pending(st, root, rest);
      assert [] + p.listed == p.listed && [] + p.entries == p.entries;
    } else {
      var init, x := dirs[..|dirs| - 1], dirs[|dirs| - 1];
      assert forall y :: y in init ==> y in dirs;
      PendingPush(st, root, rest, d, init);
      DeeperIsSmaller(st, d, x);
      var stack := rest + Joins(d, init);
      assert rest + Joins(d, dirs) == stack + [Join(d, x)];
      PendingSnoc(st, root, stack, Join(d, x));
      var v, w, p := Visit(st, root, Join(d, x)), VisitDirs(st, root, d, init), Pending(st, root, rest);
      assert Pending(st, root, stack) == Then(w, p);
      assert VisitDirs(st, root, d, dirs) == Then(v, w);
      ThenAssoc(v, w, p);
    }
  }

  /** One turn of the work-list loop: popping `d`, listing it, writing its files and pushing its
      subdirectories leaves the same walk owed as before. */
  lemma PopStep(st: Storage, root: string, done: Walk, rest: seq<string>, d: string)
    requires WellFormed(st) && Listable(st, rest) && d in st
    ensures Listable(st, rest + [d]) && Listable(st, rest + Joins(d, st[d].0))
    ensures Then(done, Pending(st, root, rest + [d]))
         == Then(Then(done, Walk([d], FileEntries(root, d, st[d].1))), Pending(st, root, rest + Joins(d, st[d].0)))
    ensures |Pending(st, root, rest + [d]).listed| == 1 + |Pending(st, root, rest + Joins(d, st[d].0)).listed|
  {
    PendingSnoc(st, root, rest, d);
    PendingPush(st, root, rest, d, st[d].0);
    var own := Walk([d], FileEntries(root, d, st[d].1));
    var below, p := VisitDirs(st, root, d, st[d].0), Pending(st, root, rest);
    ThenAssoc(own, below, p);
    ThenAssoc(done, own, Then(below, p));
  }

  /** `[join(d, x) for x in dirs]` pushed onto the work-list, one at a time. */
  method PushAll(directories: seq<string>, d: string, dirs: seq<string>) returns (r: seq<string>)
    ensures r == directories + Joins(d, dirs)
  {
    r := directories;
    for i := 0 to |dirs|
      invariant r == directories + Joins(d, dirs[..i])
    {
      assert dirs[..i + 1][..i] == dirs[..i];
      r := r + [Join(d, dirs[i])];
    }
    assert dirs[..|dirs|] == dirs;
  }

  /** `zip.write(join(root, f'), f')` with `f' = join(d, f)` for every file `f` of `d`, in listing order. */
  method WriteFiles(z: ZipFile, root: string, d: string, files: seq<string>)
    requires !z.closed
    modifies z`entries
    ensures z.entries == old(z.entries) + FileEntries(root, d, files)
  {
    for j := 0 to |files|
      invariant z.entries == old(z.entries) + FileEntries(root, d, files[..j])
    {
      assert files[..j + 1][..j] == files[..j];
      var arcname := Join(d, files[j]);
      z.Write(Join(root, arcname), arcname);
    }
    assert files[..|files|] == files;
  }

  /** `FileBackupDriver.backup(filename)`: the work-list walk from ".", one zip write per file, then one close.
      The zip ends up holding exactly the entries of the recursive walk, `count` is their number, and every
      directory was listed once, in the order of that walk. */
  method Backup(filename: string, st: Storage, mediaRoot: string) returns (z: ZipFile, count: nat, ghost listed: seq<string>)
    requires WellFormed(st)
    ensures fresh(z) && z.path == filename && z.closed
    ensures z.entries == Visit(st, mediaRoot, ".").entries
    ensures listed == Visit(st, mediaRoot, ".").listed
    ensures count == |z.entries|
  {
    z := new ZipFile(filename);
    var directories := ["."];
    count := 0;
    listed := [];
    PendingSnoc(st, mediaRoot, [], ".");
    assert [] + ["."] == ["."];
    ghost var goal := Visit(st, mediaRoot, ".");
    while directories != []
      invariant Listable(st, directories)
      invariant fresh(z) && z.path == filename && !z.closed
      invariant Then(Walk(listed, z.entries), Pending(st, mediaRoot, directories)) == goal
      invariant count == |z.entries|
      decreases |Pending(st, mediaRoot, directories).listed|
    {
      var d := directories[|directories| - 1];
      var rest := directories[..|directories| - 1];
      assert directories == rest + [d];
      var newDirs, files := st[d].0, st[d].1;
      PopStep(st, mediaRoot, Walk(listed, z.entries), rest, d);
      directories := PushAll(rest, d, newDirs);
      listed := listed + [d];
      WriteFiles(z, mediaRoot, d, files);
      count := count + |files|;
    }
    z.Close();
  }

  /** A directory path the walk forms: non-empty and not ending in "/", so `join` adds exactly one "/". */
  predicate Dir(d: string) {
    d != "" && d[|d| - 1] != '/'
  }

  /** `p` is `d` itself or lies below it. */
  predicate Under(d: string, p: string) {
    p == d || d + "/" <= p
  }

  /** No two entries share an arcname. */
  predicate KeysDistinct(es: seq<Entry>) {
    forall i, j :: 0 <= i < j < |es| ==> es[i].0 != es[j].0
  }

  /** A listing as a file system gives it: names are distinct, file names are plain entry names, and no
      name is both a subdirectory and a file. */
  predicate PlainListing(l: Listing) {
    && NoDup(l.0) && NoDup(l.1)
    && (forall f :: f in l.1 ==> EntryName(f))
    && (forall x :: x in l.0 ==> x !in l.1)
  }

  ghost predicate Plain(st: Storage) {
    forall d :: d in st ==> PlainListing(st[d])
  }

  /** Below a directory path, `join` adds one "/" and yields a directory path again. */
  lemma JoinDir(d: string, x: string)
    requires Dir(d) && EntryName(x)
    ensures Join(d, x) == d + "/" + x && Dir(Join(d, x))
  {
    assert x[0] in x && x[|x| - 1] in x;
  }

  /** What lies below `d/x` lies strictly below `d`. */
  lemma UnderStep(d: string, x: string, p: string)
    requires Under(d + "/" + x, p)
    ensures d + "/" <= p && p != d
  {
    assert (d + "/" + x)[..|d| + 1] == d + "/";
    if p != d + "/" + x {
      assert (d + "/" + x + "/")[..|d| + 1] == d + "/";
    }
  }

  /** A path strictly below `d` continues `d` with a slash. */
  lemma SlashAfter(d: string, p: string)
    requires Under(d, p) && |p| > |d|
    ensures p[|d|] == '/'
  {
    assert p[|d|] == (d + "/")[|d|];
  }

  lemma UnderApartOrdered(q: string, x: string, y: string, p: string)
    requires EntryName(x) && EntryName(y) && |x| <= |y|
    requires Under(q + x, p) && Under(q + y, p)
    ensures x == y
  {
    assert |p| >= |q| + |y|;
    assert forall i :: 0 <= i < |y| ==> p[|q| + i] == (q + y)[|q| + i] == y[i];
    assert forall i :: 0 <= i < |x| ==> p[|q| + i] == (q + x)[|q| + i] == x[i];
    if |x| < |y| {
      SlashAfter(q + x, p);
      assert false;
    }
    assert x == y[..|x|];
  }

  /** The subtrees below two different entries of one directory are apart. */
  lemma UnderApart(d: string, x: string, y: string, p: string)
    requires EntryName(x) && EntryName(y) && x != y
    requires Under(d + "/" + x, p)
    ensures !Under(d + "/" + y, p)
  {
    if Under(d + "/" + y, p) {
      if |x| <= |y| {
        UnderApartOrdered(d + "/", x, y, p);
      } else {
        UnderApartOrdered(d + "/", y, x, p);
      }
    }
  }

  lemma KeysDistinctConcat(a: seq<Entry>, b: seq<Entry>)
    requires KeysDistinct(a) && KeysDistinct(b)
    requires forall i, j :: 0 <= i < |a| && 0 <= j < |b| ==> a[i].0 != b[j].0
    ensures KeysDistinct(a + b)
  {
    forall i, j | 0 <= i < j < |a + b|
      ensures (a + b)[i].0 != (a + b)[j].0
    {
      if i < |a| <= j {
        assert (a + b)[j] == b[j - |a|];
      }
    }
  }

  /** The files of one directory are written under "d/f", once each. */
  lemma OwnEntriesShape(root: string, d: string, files: seq<string>)
    requires Dir(d) && NoDup(files) && forall f :: f in files ==> EntryName(f)
    ensures forall i :: 0 <= i < |files| ==> FileEntries(root, d, files)[i].0 == d + "/" + files[i]
    ensures KeysDistinct(FileEntries(root, d, files))
  {
    var own := FileEntries(root, d, files);
    forall i | 0 <= i < |files|
      ensures own[i].0 == d + "/" + files[i]
    {
      assert files[i] in files;
      JoinDir(d, files[i]);
    }
    forall i, j | 0 <= i < j < |own|
      ensures own[i].0 != own[j].0
    {
      assert (d + "/" + files[i])[|d| + 1..] == files[i];
      assert (d + "/" + files[j])[|d| + 1..] == files[j];
    }
  }

  /** `p` lies under `d/x` for one of the names `x` of `dirs`. */
  predicate UnderSome(d: string, dirs: seq<string>, p: string) {
    exists x :: x in dirs && Under(d + "/" + x, p)
  }

  /** The walk below a directory lists it first and only paths below it, each once, and writes only
      arcnames strictly below it, each once. */
  lemma {:induction false} VisitShape(st: Storage, root: string, d: string)
    requires WellFormed(st) && Plain(st) && d in st && Dir(d)
    ensures Visit(st, root, d).listed[0] == d
    ensures forall p :: p in Visit(st, root, d).listed ==> Under(d, p)
    ensures forall e :: e in Visit(st, root, d).entries ==> d + "/" <= e.0
    ensures NoDup(Visit(st, root, d).listed) && KeysDistinct(Visit(st, root, d).entries)
    decreases Longer(st, d), 1, 0
  {
    var dirs, files := st[d].0, st[d].1;
    assert PlainListing(st[d]) && Closed(st, d);
    VisitDirsShape(st, root, d, dirs);
    var below := VisitDirs(st, root, d, dirs);
    var own := FileEntries(root, d, files);
    forall p | p in below.listed
      ensures d + "/" <= p && p != d
    {
      var x :| x in dirs && Under(d + "/" + x, p);
      UnderStep(d, x, p);
    }
    NoDupConcat([d], below.listed);
    OwnEntriesShape(root, d, files);
    forall e | e in below.entries
      ensures d + "/" <= e.0
    {
      var x :| x in dirs && Under(d + "/" + x, e.0);
      UnderStep(d, x, e.0);
    }
    forall i, j | 0 <= i < |own| && 0 <= j < |below.entries|
      ensures own[i].0 != below.entries[j].0
    {
      var k := below.entries[j].0;
      assert k in Names(below.entries);
      var x :| x in dirs && Under(d + "/" + x, k);
      assert files[i] in files;
      UnderApart(d, files[i], x, d + "/" + files[i]);
    }
    KeysDistinctConcat(own, below.entries);
  }

  /** The walks below the subdirectories `dirs` of `d` list and write only paths under `d/x` for some
      `x` of `dirs`, each once. */
  lemma {:induction false} VisitDirsShape(st: Storage, root: string, d: string, dirs: seq<string>)
    requires WellFormed(st) && Plain(st) && d in st && Dir(d) && NoDup(dirs)
    requires forall x :: x in dirs ==> x in st[d].0
    ensures forall p :: p in VisitDirs(st, root, d, dirs).listed ==> UnderSome(d, dirs, p)
    ensures forall e :: e in VisitDirs(st, root, d, dirs).entries ==> UnderSome(d, dirs, e.0)
    ensures NoDup(VisitDirs(st, root, d, dirs).listed) && KeysDistinct(VisitDirs(st, root, d, dirs).entries)
    decreases Longer(st, d), 0, |dirs|
  {
    if dirs != [] {
      var init, x := dirs[..|dirs| - 1], dirs[|dirs| - 1];
      assert Closed(st, d) && x in dirs;
      DeeperIsSmaller(st, d, x);
      JoinDir(d, x);
      var dx := d + "/" + x;
      VisitShape(st, root, dx);
      VisitDirsShape(st, root, d, init);
      var mine, rest := Visit(st, root, dx), VisitDirs(st, root, d, init);
      forall y | y in init
        ensures y in dirs && y != x && EntryName(y)
      {
        var k :| 0 <= k < |init| && init[k] == y;
        assert dirs[k] == y;
      }
      forall p | p in mine.listed
        ensures UnderSome(d, dirs, p) && p !in rest.listed
      {
        if p in rest.listed {
          var y :| y in init && Under(d + "/" + y, p);
          UnderApart(d, x, y, p);
        }
      }
      forall p | p in rest.listed
        ensures UnderSome(d, dirs, p)
      {
        var y :| y in init && Under(d + "/" + y, p);
        assert y in dirs;
      }
      NoDupConcat(mine.listed, rest.listed);
      forall e | e in mine.entries
        ensures UnderSome(d, dirs, e.0)
      {
        assert Under(dx, e.0);
      }
      forall e | e in rest.entries
        ensures UnderSome(d, dirs, e.0)
      {
        var y :| y in init && Under(d + "/" + y, e.0);
        assert y in dirs;
      }
      forall i, j | 0 <= i < |mine.entries| && 0 <= j < |rest.entries|
        ensures mine.entries[i].0 != rest.entries[j].0
      {
        var k := rest.entries[j].0;
        assert rest.entries[j] in rest.entries;
        assert mine.entries[i] in mine.entries;
        var y :| y in init && Under(d + "/" + y, k);
        UnderApart(d, y, x, k);
      }
      KeysDistinctConcat(mine.entries, rest.entries);
    }
  }

  /** The entries written for the files of the directories `listed`, directory by directory. */
  ghost function Written(st: Storage, root: string, listed: seq<string>): seq<Entry>
    requires Listable(st, listed)
  {
    if listed == [] then [] else FileEntries(root, listed[0], st[listed[0]].1) + Written(st, root, listed[1..])
  }

  lemma {:induction false} WrittenConcat(st: Storage, root: string, a: seq<string>, b: seq<string>)
    requires Listable(st, a) && Listable(st, b)
    ensures Listable(st, a + b) && Written(st, root, a + b) == Written(st, root, a) + Written(st, root, b)
    decreases |a|
  {
    if a == [] {
      assert a + b == b;
    } else {
      assert (a + b)[1..] == a[1..] + b;
      WrittenConcat(st, root, a[1..], b);
      var own := FileEntries(root, a[0], st[a[0]].1);
      assert own + (Written(st, root, a[1..]) + Written(st, root, b)) == (own + Written(st, root, a[1..])) + Written(st, root, b);
    }
  }

  /** A walk lists only listable directories, and writes exactly the files of the directories it lists, in
      listing order. */
  lemma {:induction false} VisitWritten(st: Storage, root: string, d: string)
    requires WellFormed(st) && d in st
    ensures Listable(st, Visit(st, root, d).listed)
    ensures Visit(st, root, d).entries == Written(st, root, Visit(st, root, d).listed)
    decreases Longer(st, d), 1, 0
  {
    var below := VisitDirs(st, root, d, st[d].0);
    VisitDirsWritten(st, root, d, st[d].0);
    WrittenConcat(st, root, [d], below.listed);
    assert ([d] + below.listed)[1..] == below.listed;
  }

  lemma {:induction false} VisitDirsWritten(st: Storage, root: string, d: string, dirs: seq<string>)
    requires WellFormed(st) && d in st && forall x :: x in dirs ==> x in st[d].0
    ensures Listable(st, VisitDirs(st, root, d, dirs).listed)
    ensures VisitDirs(st, root, d, dirs).entries == Written(st, root, VisitDirs(st, root, d, dirs).listed)
    decreases Longer(st, d), 0, |dirs|
  {
    if dirs != [] {
      var init, x := dirs[..|dirs| - 1], dirs[|dirs| - 1];
      DeeperIsSmaller(st, d, x);
      VisitWritten(st, root, Join(d, x));
      VisitDirsWritten(st, root, d, init);
      WrittenConcat(st, root, Visit(st, root, Join(d, x)).listed, VisitDirs(st, root, d, init).listed);
    }
  }

  /** A walk lists every subdirectory of every directory it lists. */
  lemma {:induction false} VisitClosed(st: Storage, root: string, d: string)
    requires WellFormed(st) && d in st
    ensures forall p, x :: p in Visit(st, root, d).listed && p in st && x in st[p].0 ==> Join(p, x) in Visit(st, root, d).listed
    decreases Longer(st, d), 1, 0
  {
    VisitDirsClosed(st, root, d, st[d].0);
  }

  lemma {:induction false} VisitDirsClosed(st: Storage, root: string, d: string, dirs: seq<string>)
    requires WellFormed(st) && d in st && forall x :: x in dirs ==> x in st[d].0
    ensures forall x :: x in dirs ==> Join(d, x) in VisitDirs(st, root, d, dirs).listed
    ensures forall p, x :: p in VisitDirs(st, root, d, dirs).listed && p in st && x in st[p].0 ==>
      Join(p, x) in VisitDirs(st, root, d, dirs).listed
    decreases Longer(st, d), 0, |dirs|
  {
    if dirs != [] {
      var init, x := dirs[..|dirs| - 1], dirs[|dirs| - 1];
      DeeperIsSmaller(st, d, x);
      VisitClosed(st, root, Join(d, x));
      VisitDirsClosed(st, root, d, init);
      assert Visit(st, root, Join(d, x)).listed[0] == Join(d, x);
      forall y | y in dirs
        ensures y == x || y in init
      {
        var k :| 0 <= k < |dirs| && dirs[k] == y;
        if k < |dirs| - 1 {
          assert init[k] == y;
        }
      }
    }
  }

  /** What the work-list walk from "." does on a storage whose listings are plain: "." is listed first;
      every subdirectory of a listed directory is listed too; no directory is listed twice; the zip
      receives exactly the files of the listed directories, directory by directory, and no arcname twice. */
  lemma WalkExactlyOnce(st: Storage, root: string)
    requires WellFormed(st) && Plain(st)
    ensures Visit(st, root, ".").listed[0] == "."
    ensures Listable(st, Visit(st, root, ".").listed)
    ensures forall p, x :: p in Visit(st, root, ".").listed && p in st && x in st[p].0 ==>
      Join(p, x) in Visit(st, root, ".").listed
    ensures NoDup(Visit(st, root, ".").listed)
    ensures Visit(st, root, ".").entries == Written(st, root, Visit(st, root, ".").listed)
    ensures KeysDistinct(Visit(st, root, ".").entries)
  {
    VisitShape(st, root, ".");
    VisitWritten(st, root, ".");
    VisitClosed(st, root, ".");
  }

  /** The storage of the media tests: two files at the top, "d1" holding "f3" and "d3", "d3" holding "f4",
      and an empty "d2". */
  const Fixture: Storage := map[
    "." := (["d1", "d2"], ["f1", "f2"]),
    "./d1" := (["d3"], ["f3"]),
    "./d2" := ([], []),
    "./d1/d3" := ([], ["f4"])]

  /** The paths the fixture walk forms with `os.path.join`: directories and arcnames ... */
  lemma FixtureJoins()
    ensures Join(".", "d1") == "./d1" && Join(".", "d2") == "./d2" && Join("./d1", "d3") == "./d1/d3"
    ensures Join(".", "f1") == "./f1" && Join(".", "f2") == "./f2"
    ensures Join("./d1", "f3") == "./d1/f3" && Join("./d1/d3", "f4") == "./d1/d3/f4"
    ensures FixtureSources()
  {
    FixtureSourceJoins();
  }

  ghost predicate FixtureSources() {
    && Join("/baz", "./f1") == "/baz/./f1" && Join("/baz", "./f2") == "/baz/./f2"
    && Join("/baz", "./d1/f3") == "/baz/./d1/f3" && Join("/baz", "./d1/d3/f4") == "/baz/./d1/d3/f4"
  }

  /** ... and the source paths under the media root "/baz". */
  lemma FixtureSourceJoins()
    ensures FixtureSources()
  {
  }

  lemma FixtureWellFormed()
    ensures WellFormed(Fixture)
  {
    FixtureJoins();
    FixtureListings();
    assert Closed(Fixture, ".") && Closed(Fixture, "./d1");
    assert Closed(Fixture, "./d2") && Closed(Fixture, "./d1/d3");
  }

  /** The fixture's directories and their listings. */
  lemma FixtureListings()
    ensures Fixture.Keys == {".", "./d1", "./d2", "./d1/d3"}
    ensures Fixture["."] == (["d1", "d2"], ["f1", "f2"]) && Fixture["./d1"] == (["d3"], ["f3"])
    ensures Fixture["./d2"] == ([], []) && Fixture["./d1/d3"] == ([], ["f4"])
  {
  }

  /** The walks below "./d1" and "./d2" on the fixture. */
  lemma FixtureSubtrees()
    ensures WellFormed(Fixture)
    ensures Visit(Fixture, "/baz", "./d1") ==
      Walk(["./d1", "./d1/d3"], [("./d1/f3", FileContents("/baz/./d1/f3")), ("./d1/d3/f4", FileContents("/baz/./d1/d3/f4"))])
    ensures Visit(Fixture, "/baz", "./d2") == Walk(["./d2"], [])
  {
    FixtureWellFormed();
    FixtureJoins();
    var d3 := Visit(Fixture, "/baz", "./d1/d3");
    assert d3 == Walk(["./d1/d3"], [("./d1/d3/f4", FileContents("/baz/./d1/d3/f4"))]);
    assert ["d3"][..0] == [];
  }

  /** On the fixture, with media root "/baz", the walk lists ".", "./d2", "./d1", "./d1/d3": the last
      subdirectory pushed is the first popped. */
  lemma FixtureListed()
    ensures WellFormed(Fixture)
    ensures Visit(Fixture, "/baz", ".").listed == [".", "./d2", "./d1", "./d1/d3"]
  {
    FixtureTopDirs();
    FixtureListings();
    VisitListing(Fixture, "/baz", ".", ["d1", "d2"], ["f1", "f2"]);
  }

  /** On the fixture, with media root "/baz", the walk writes f1, f2, d1/f3, d1/d3/f4 in that order, each
      arcname starting with "./" and each read from below the media root. */
  lemma FixtureWalk()
    ensures WellFormed(Fixture)
    ensures Visit(Fixture, "/baz", ".").entries == [
      ("./f1", FileContents("/baz/./f1")),
      ("./f2", FileContents("/baz/./f2")),
      ("./d1/f3", FileContents("/baz/./d1/f3")),
      ("./d1/d3/f4", FileContents("/baz/./d1/d3/f4"))]
  {
    FixtureTop();
    FixtureTopDirs();
    FixtureListings();
    VisitListing(Fixture, "/baz", ".", ["d1", "d2"], ["f1", "f2"]);
  }

  /** One unfolding of `Visit` for a directory whose listing is known. */
  lemma VisitListing(st: Storage, root: string, d: string, dirs: seq<string>, files: seq<string>)
    requires WellFormed(st) && d in st && st[d] == (dirs, files)
    ensures Visit(st, root, d).listed == [d] + VisitDirs(st, root, d, dirs).listed
    ensures Visit(st, root, d).entries == FileEntries(root, d, files) + VisitDirs(st, root, d, dirs).entries
  {
  }

  /** The files of the fixture's top directory. */
  lemma FixtureTop()
    ensures FileEntries("/baz", ".", ["f1", "f2"]) ==
      [("./f1", FileContents("/baz/./f1")), ("./f2", FileContents("/baz/./f2"))]
  {
    FixtureJoins();
  }

  /** The walks below the fixture's top directory: "./d2" first, then "./d1" and "./d1/d3". */
  lemma FixtureTopDirs()
    ensures WellFormed(Fixture)
    ensures VisitDirs(Fixture, "/baz", ".", ["d1", "d2"]) ==
      Walk(["./d2", "./d1", "./d1/d3"],
        [("./d1/f3", FileContents("/baz/./d1/f3")), ("./d1/d3/f4", FileContents("/baz/./d1/d3/f4"))])
  {
    FixtureSubtrees();
    FixtureJoins();
    assert ["d1", "d2"][..1] == ["d1"] && ["d1"][..0] == [];
    var d1 := VisitDirs(Fixture, "/baz", ".", ["d1"]);
    assert d1 == Then(Visit(Fixture, "/baz", "./d1"), Walk([], []));
    assert VisitDirs(Fixture, "/baz", ".", ["d1", "d2"]) == Then(Visit(Fixture, "/baz", "./d2"), d1);
  }

  /** The engine of Django's default storage, which `FileBackupDriver` registers under. */
  const FileSystemStorage := "django.core.files.storage.FileSystemStorage"

  /** The media driver classes. */
  datatype MediaDriverClass = FileBackupDriver

  /** The registry as the driver classes fill it in: only `FileBackupDriver`, under its engine. */
  const Registry: map<string, MediaDriverClass> := map[FileSystemStorage := FileBackupDriver]

  /** `get_driver(engine)`: the class registered for the engine, or None. */
  function GetDriver(registry: map<string, MediaDriverClass>, engine: string): (r: Option<MediaDriverClass>)
    ensures r.Some? <==> engine in registry
    ensures r.Some? ==> r.value == registry[engine]
  {
    if engine in registry then Some(registry[engine]) else None
  }

  /** Only the default file system storage has a media driver. */
  lemma RegistryDrivers(engine: string)
    ensures GetDriver(Registry, FileSystemStorage) == Some(FileBackupDriver)
    ensures engine != FileSystemStorage ==> GetDriver(Registry, engine) == None
  {
  }

  /** A media backup set: the driver chosen by `preflight` and the directory for its temporary files. */
  class MediaBackupSet {
    var driver: Option<MediaDriverClass>
    const destdir: string

    constructor (destdir: string)
      ensures driver == None && this.destdir == destdir
    {
      driver := None;
      this.destdir := destdir;
    }

    /** `preflight()`: pick the driver registered for the storage class `module.name`; without one, the
        failure path names the undefined `engine`, so the outcome is a NameError and the driver stays as it was.
        On success the result is None. */
    method Preflight(registry: map<string, MediaDriverClass>, storageModule: string, storageClass: string) returns (r: Result<PyValue>)
      modifies this`driver
      ensures storageModule + "." + storageClass in registry ==>
        r == Ok(PyNone) && driver == Some(registry[storageModule + "." + storageClass])
      ensures storageModule + "." + storageClass !in registry ==>
        r == Err(NameError("engine")) && driver == old(driver)
    {
      var fqcn := storageModule + "." + storageClass;
      var d := GetDriver(registry, fqcn);
      if d.None? {
        return Err(NameError("engine"));
      }
      driver := Some(d.value);
      r := Ok(PyNone);
    }

    /** `backup()`: hand the temporary file's name to the driver once and report it as "media.zip";
        without a driver, `None.backup` fails. `calls` lists the names handed to the driver. */
    method Backup(tmpName: string) returns (r: Result<seq<(string, string)>>, calls: seq<string>)
      ensures driver.Some? ==> r == Ok([("media.zip", tmpName)]) && calls == [tmpName]
      ensures driver.None? ==> r == Err(AttributeError("backup")) && calls == []
    {
      if driver.None? {
        return Err(AttributeError("backup")), [];
      }
      calls := [tmpName];
      r := Ok([("media.zip", tmpName)]);
    }

    /** `cleanup()`: nothing to delete. */
    function Cleanup(): (r: seq<(string, string)>)
      ensures |r| == 0
    {
      []
    }
  }
}
