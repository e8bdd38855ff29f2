/**
 * Prefix-scoped views over one shared zip container (dumprestore/archive.py).
 *
 * A view is the pair (container, prefix); it never changes once made, so it
 * is a value here, while the container it points to is the one mutable
 * object that every view shares.
 */
module Archives {

  import opened Py
  import opened Zip

  datatype Archive = Archive(zip: ZipFile, prefix: string)

  /** `s.startswith(p)`. */
  predicate StartsWith(s: string, p: string) {
    |p| <= |s| && s[..|p|] == p
  }

  /** `s[k:]` for k >= 0: Python slicing past the end yields "". */
  function Drop(s: string, k: nat): (r: string)
    ensures k <= |s| ==> r == s[k..]
    ensures |s| < k ==> r == ""
  {
    if k <= |s| then s[k..] else ""
  }

  /** `subarchive(prefix)`: a view one level down, on the same container. */
  function Subarchive(a: Archive, p: string): (r: Archive)
    ensures r.zip == a.zip
    ensures a.prefix == "" ==> r.prefix == p
    ensures a.prefix != "" ==> StartsWith(r.prefix, a.prefix + "/") && r.prefix[|a.prefix| + 1..] == p
  {
    if a.prefix != "" then Archive(a.zip, a.prefix + "/" + p) else Archive(a.zip, p)
  }

  /** `_name(name)`: the key under which this view stores `name`. */
  function QualifiedName(a: Archive, name: string): (r: string)
    ensures a.prefix == "" ==> r == name
    ensures a.prefix != "" ==> StartsWith(r, a.prefix + "/") && r[|a.prefix| + 1..] == name
  {
    if a.prefix == "" then name else a.prefix + "/" + name
  }

  /** Every key of the container, in storage order. */
  function StoredNames(a: Archive): seq<string>
    reads a.zip
  {
    Names(a.zip.entries)
  }

  /** The body of `namelist` over a list of stored keys: keep the keys that start with the prefix, drop prefix and one more character. */
  function Listed(prefix: string, names: seq<string>): seq<string>
  {
    if names == [] then []
    else
      var last := names[|names| - 1];
      Listed(prefix, names[..|names| - 1]) + (if StartsWith(last, prefix) then [Drop(last, |prefix| + 1)] else [])
  }

  /** `namelist()`: what this view lists of the shared container, in storage order (`ListedConcat`): the
      tail of every stored key that starts with the prefix, and nothing else. */
  function Namelist(a: Archive): (r: seq<string>)
    reads a.zip
    ensures forall x :: x in r <==>
      exists i :: 0 <= i < |a.zip.entries| && StartsWith(a.zip.entries[i].0, a.prefix) && Drop(a.zip.entries[i].0, |a.prefix| + 1) == x
  {
    ListedAll(a.prefix, StoredNames(a));
    Listed(a.prefix, StoredNames(a))
  }

  /** `open(name)`: the payload under the qualified key, or KeyError when the container has no such key. */
  function Open(a: Archive, name: string): (r: Result<Data>)
    reads a.zip
    ensures r.Err? <==> QualifiedName(a, name) !in StoredNames(a)
    ensures r.Err? ==> r.error == KeyError(QualifiedName(a, name))
    ensures r.Ok? ==> (QualifiedName(a, name), r.value) in a.zip.entries
    ensures r.Ok? ==>
      exists i :: 0 <= i < |a.zip.entries| && a.zip.entries[i] == (QualifiedName(a, name), r.value) &&
        forall j :: i < j < |a.zip.entries| ==> a.zip.entries[j].0 != QualifiedName(a, name)
  {
    match Lookup(a.zip.entries, QualifiedName(a, name))
    case Some(d) => Ok(d)
    case None => Err(KeyError(QualifiedName(a, name)))
  }

  /** `writestr(name, data)`: one entry appended to the shared container. */
  method WriteStr(a: Archive, name: string, data: Data)
    requires !a.zip.closed
    modifies a.zip`entries
    ensures a.zip.entries == old(a.zip.entries) + [(QualifiedName(a, name), data)]
  {
    a.zip.WriteStr(QualifiedName(a, name), data);
  }

  /** `write(filename, arcname)`: `writestr(arcname, <contents of filename>)`. */
  method Write(a: Archive, filename: string, arcname: string)
    requires !a.zip.closed
    modifies a.zip`entries
    ensures a.zip.entries == old(a.zip.entries) + [(QualifiedName(a, arcname), FileContents(filename))]
  {
    WriteStr(a, arcname, FileContents(filename));
  }

  /** Nesting two views is the same as one view on the joined name, so both qualify every name alike. */
  lemma SubarchiveCompose(a: Archive, x: string, y: string, name: string)
    requires a.prefix != "" || x != ""
    ensures Subarchive(Subarchive(a, x), y) == Subarchive(a, x + "/" + y)
    ensures QualifiedName(Subarchive(Subarchive(a, x), y), name) == QualifiedName(Subarchive(a, x + "/" + y), name)
  {
  }

  /** A sub-view stores `name` where its parent view would store `p + "/" + name`. */
  lemma SubarchiveQualifies(a: Archive, p: string, name: string)
    requires a.prefix != "" || p != ""
    ensures QualifiedName(Subarchive(a, p), name) == QualifiedName(a, p + "/" + name)
  {
  }

  /** `namelist` filters stored keys one by one: listing a concatenation lists each part in turn. */
  lemma {:induction false} ListedConcat(prefix: string, xs: seq<string>, ys: seq<string>)
    ensures Listed(prefix, xs + ys) == Listed(prefix, xs) + Listed(prefix, ys)
    decreases |ys|
  {
    if ys == [] {
      assert xs + ys == xs;
    } else {
      var ys' := ys[..|ys| - 1];
      assert (xs + ys)[..|xs + ys| - 1] == xs + ys';
      ListedConcat(prefix, xs, ys');
    }
  }

  /** A listed name is the tail of some stored key that starts with the prefix, and every such key is listed. */
  lemma {:induction false} ListedMembers(prefix: string, names: seq<string>, x: string)
    ensures x in Listed(prefix, names) <==>
      exists i :: 0 <= i < |names| && StartsWith(names[i], prefix) && Drop(names[i], |prefix| + 1) == x
    decreases |names|
  {
    if names != [] {
      var init := names[..|names| - 1];
      ListedMembers(prefix, init, x);
      if x in Listed(prefix, names) && x !in Listed(prefix, init) {
        assert StartsWith(names[|names| - 1], prefix) && Drop(names[|names| - 1], |prefix| + 1) == x;
      }
      if exists i :: 0 <= i < |names| && StartsWith(names[i], prefix) && Drop(names[i], |prefix| + 1) == x {
        var i :| 0 <= i < |names| && StartsWith(names[i], prefix) && Drop(names[i], |prefix| + 1) == x;
        if i < |names| - 1 {
          assert init[i] == names[i];
        }
      }
    }
  }

  lemma ListedAll(prefix: string, names: seq<string>)
    ensures forall x :: x in Listed(prefix, names) <==>
      exists i :: 0 <= i < |names| && StartsWith(names[i], prefix) && Drop(names[i], |prefix| + 1) == x
  {
    forall x
      ensures x in Listed(prefix, names) <==>
        exists i :: 0 <= i < |names| && StartsWith(names[i], prefix) && Drop(names[i], |prefix| + 1) == x
    {
      ListedMembers(prefix, names, x);
    }
  }

  /** Round trip: under a non-empty prefix, the view lists back exactly the name it was given. */
  lemma NameRoundTrip(a: Archive, name: string)
    requires a.prefix != ""
    ensures Listed(a.prefix, [QualifiedName(a, name)]) == [name]
  {
    var k := QualifiedName(a, name);
    assert Listed(a.prefix, [k]) == Listed(a.prefix, []) + [Drop(k, |a.prefix| + 1)];
  }

  /** After `writestr(name, data)` through a view with a non-empty prefix, its `namelist` gains exactly `name`, at the end. */
  lemma {:induction false} WrittenNameListed(a: Archive, entries: seq<Entry>, name: string, data: Data)
    requires a.prefix != ""
    ensures Listed(a.prefix, Names(entries + [(QualifiedName(a, name), data)])) == Listed(a.prefix, Names(entries)) + [name]
  {
    var e := (QualifiedName(a, name), data);
    assert Names(entries + [e]) == Names(entries) + [e.0];
    ListedConcat(a.prefix, Names(entries), [e.0]);
    NameRoundTrip(a, name);
  }

  /** After `writestr(name, data)` through any view, `open(name)` on that view reads `data`, and so does the
      root view (empty prefix) under the fully qualified key. */
  lemma WrittenThenOpened(a: Archive, root: Archive, name: string, data: Data)
    requires root.zip == a.zip && root.prefix == ""
    requires |a.zip.entries| > 0 && a.zip.entries[|a.zip.entries| - 1] == (QualifiedName(a, name), data)
    ensures Open(a, name) == Ok(data)
    ensures Open(root, QualifiedName(a, name)) == Ok(data)
  {
  }

  /** A key written twice reads as its latest write, whatever other keys were written since: after
      `writestr(name, d1)`, `writestr(name, d2)` and `writestr(other, d3)`, `open(name)` reads `d2`. */
  lemma OpenLatestWrite(a: Archive, name: string, other: string, d1: Data, d2: Data, d3: Data, before: seq<Entry>)
    requires QualifiedName(a, other) != QualifiedName(a, name)
    requires a.zip.entries == before + [(QualifiedName(a, name), d1), (QualifiedName(a, name), d2), (QualifiedName(a, other), d3)]
    ensures Open(a, name) == Ok(d2)
  {
    LookupLatest(a.zip.entries, QualifiedName(a, name), |before| + 1);
  }

  /** Quirks of `namelist` kept from the code: with prefix "" every listed name loses its first character;
      a sibling key "ab/x" leaks into the view "a" as "/x"; a key equal to the prefix is listed as "". */
  lemma NamelistQuirks()
    ensures Listed("", ["f1", "data/x"]) == ["1", "ata/x"]
    ensures Listed("a", ["ab/x", "a/y", "b/z"]) == ["/x", "y"]
    ensures Listed("a", ["a"]) == [""]
  {
    assert Listed("", ["f1", "data/x"]) == Listed("", ["f1"]) + ["ata/x"];
    assert Listed("", ["f1"]) == Listed("", []) + ["1"];
    var three := ["ab/x", "a/y", "b/z"];
    assert three[..2] == ["ab/x", "a/y"] && ["ab/x", "a/y"][..1] == ["ab/x"];
    assert "b/z"[..1] == "b" != "a";
    assert Listed("a", three) == Listed("a", ["ab/x", "a/y"]);
    assert Listed("a", ["ab/x", "a/y"]) == Listed("a", ["ab/x"]) + ["y"];
    assert Listed("a", ["ab/x"]) == Listed("a", []) + ["/x"];
    assert Listed("a", ["a"]) == Listed("a", []) + [""];
  }

  /** The view reached from `a` by `subarchive(x)` for each name x of `names` in turn. */
  function Narrowed(a: Archive, names: seq<string>): Archive
  {
    if names == [] then a else Subarchive(Narrowed(a, names[..|names| - 1]), names[|names| - 1])
  }

  /** The names joined with "/". */
  function JoinPath(names: seq<string>): string
    requires names != []
  {
    if |names| == 1 then names[0] else JoinPath(names[..|names| - 1]) + "/" + names[|names| - 1]
  }

  /** Narrowing a view step by step yields the prefix "<prefix>/<n1>/.../<nk>" (or "<n1>/.../<nk>" from the empty prefix). */
  lemma {:induction false} NarrowedJoins(a: Archive, names: seq<string>)
    requires names != []
    requires a.prefix != "" || names[0] != ""
    ensures Narrowed(a, names).zip == a.zip
    ensures Narrowed(a, names).prefix == if a.prefix == "" then JoinPath(names) else a.prefix + "/" + JoinPath(names)
    decreases |names|
  {
    if |names| > 1 {
      var init := names[..|names| - 1];
      assert init[0] == names[0];
      NarrowedJoins(a, init);
    }
  }
}
