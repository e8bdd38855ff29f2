/**
 * The zip container that every archive view shares: a flat, append-only
 * list of named entries. What an entry holds is kept abstract: either bytes
 * given by the caller, or "the contents of local file p" for entries copied
 * from disk.
 */
module Zip {

  import opened Py

  type Bytes = seq<bv8>

  /** The payload of one entry. */
  datatype Data =
    | Literal(bytes: Bytes)
    | FileContents(path: string)

  /** One stored entry: its key in the container and its payload. */
  type Entry = (string, Data)

  /** Keys of the stored entries, in storage order. */
  function Names(entries: seq<Entry>): (r: seq<string>)
    ensures |r| == |entries|
    ensures forall i :: 0 <= i < |entries| ==> r[i] == entries[i].0
  {
    if entries == [] then [] else [entries[0].0] + Names(entries[1..])
  }

  /** The payload stored last under `key`: a key written twice reads as its latest write. */
  function Lookup(entries: seq<Entry>, key: string): (r: Option<Data>)
    ensures r.None? <==> forall i :: 0 <= i < |entries| ==> entries[i].0 != key
    ensures r.Some? ==>
      exists i :: 0 <= i < |entries| && entries[i] == (key, r.value) &&
        forall j :: i < j < |entries| ==> entries[j].0 != key
  {
    if entries == [] then None
    else if entries[|entries| - 1].0 == key then Some(entries[|entries| - 1].1)
    else Lookup(entries[..|entries| - 1], key)
  }

  /** Whatever is written after the last write of `key`, reading `key` gives that write's payload. */
  lemma LookupLatest(entries: seq<Entry>, key: string, i: nat)
    requires i < |entries| && entries[i].0 == key
    requires forall j :: i < j < |entries| ==> entries[j].0 != key
    ensures Lookup(entries, key) == Some(entries[i].1)
  {
    var k :| 0 <= k < |entries| && entries[k] == (key, Lookup(entries, key).value)
      && forall j :: k < j < |entries| ==> entries[j].0 != key;
    assert k == i;
  }

  /** A zip file opened for writing. */
  class ZipFile {
    const path: string
    var entries: seq<Entry>
    var closed: bool

    /** `zipfile.ZipFile(path, mode="w")`: a new, empty zip file. */
    constructor (path: string)
      ensures this.path == path && entries == [] && !closed
    {
      this.path := path;
      entries := [];
      closed := false;
    }

    /** Appends one entry; nothing already stored changes. */
    method WriteStr(name: string, data: Data)
      requires !closed
      modifies this`entries
      ensures entries == old(entries) + [(name, data)]
    {
      entries := entries + [(name, data)];
    }

    /** Stores the contents of local file `source` under `arcname`. */
    method Write(source: string, arcname: string)
      requires !closed
      modifies this`entries
      ensures entries == old(entries) + [(arcname, FileContents(source))]
    {
      WriteStr(arcname, FileContents(source));
    }

    /** Finishes the file; a closed zip accepts no further writes. */
    method Close()
      requires !closed
      modifies this`closed
      ensures closed
    {
      closed := true;
    }
  }
}
