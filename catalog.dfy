/**
  The hash catalog: the local files with their store keys, and the
  dictionary from key to content hash that is kept as the single hash
  record of a namespace (index.js).
*/
module HashCatalog {

  /** A file as the hashing library reports it: its path relative to the folder and its content hash. */
  datatype Listed = Listed(original: string, hash: string)

  /** A listed file once its store key (the URI-component encoding of its path) is attached. */
  datatype FileEntry = FileEntry(original: string, key: string, hash: string)

  ghost predicate Injective(encode: string -> string)
  {
    forall a, b :: encode(a) == encode(b) ==> a == b
  }

  predicate DistinctPaths(listing: seq<Listed>)
  {
    forall i, j :: 0 <= i < j < |listing| ==> listing[i].original != listing[j].original
  }

  predicate UniqueKeys(files: seq<FileEntry>)
  {
    forall i, j :: 0 <= i < j < |files| ==> files[i].key != files[j].key
  }

  /** Attaches to every listed file the key `encode(original)`; `encode` stands for encodeURIComponent. */
  function WithKeys(listing: seq<Listed>, encode: string -> string): (files: seq<FileEntry>)
    ensures |files| == |listing|
    ensures forall i :: 0 <= i < |files| ==>
              files[i].original == listing[i].original && files[i].hash == listing[i].hash
    ensures forall i :: 0 <= i < |files| ==> files[i].key == encode(listing[i].original)
  {
    seq(|listing|, i requires 0 <= i < |listing| =>
      FileEntry(listing[i].original, encode(listing[i].original), listing[i].hash))
  }

  /** Distinct paths under an injective encoding give distinct keys. */
  lemma KeysAreUnique(listing: seq<Listed>, encode: string -> string)
    requires DistinctPaths(listing) && Injective(encode)
    ensures UniqueKeys(WithKeys(listing, encode))
  {
  }

  /**
    A JavaScript object used as a dictionary from key to hash: `keys` is the
    order in which Object.keys enumerates it (insertion order) and `hashes`
    its contents.
  */
  datatype Catalog = Catalog(keys: seq<string>, hashes: map<string, string>)
  {
    ghost predicate Valid()
    {
      && (forall i, j :: 0 <= i < j < |keys| ==> keys[i] != keys[j])
      && (forall k :: k in hashes <==> k in keys)
    }
  }

  /** The empty object `{}`. */
  const EMPTY: Catalog := Catalog([], map[])

  /** `object[key] = hash`: a new key goes to the end of the enumeration order, an existing one keeps its place. */
  function Assign(c: Catalog, key: string, hash: string): (r: Catalog)
    requires c.Valid()
    ensures r.Valid()
    ensures r.hashes == c.hashes[key := hash]
    ensures r.keys == if key in c.hashes then c.keys else c.keys + [key]
  {
    if key in c.hashes then Catalog(c.keys, c.hashes[key := hash])
    else Catalog(c.keys + [key], c.hashes[key := hash])
  }

  /** The hash record built from the local files by the `reduce` of index.js:54-57. */
  function CatalogOf(files: seq<FileEntry>): (c: Catalog)
    ensures c.Valid()
  {
    if files == [] then EMPTY
    else Assign(CatalogOf(files[..|files| - 1]), files[|files| - 1].key, files[|files| - 1].hash)
  }

  /** Files `i` and every later file have different keys: `i` is the last writer of its key. */
  predicate LastWithKey(files: seq<FileEntry>, i: int)
    requires 0 <= i < |files|
  {
    forall j :: i < j < |files| ==> files[j].key != files[i].key
  }

  /** The keys of the files, in file order. */
  function KeysOf(files: seq<FileEntry>): (keys: seq<string>)
    ensures |keys| == |files|
    ensures forall i :: 0 <= i < |files| ==> keys[i] == files[i].key
  {
    if files == [] then [] else KeysOf(files[..|files| - 1]) + [files[|files| - 1].key]
  }

  /** The record holds exactly the keys of the files. */
  lemma {:induction false} CatalogOfKeys(files: seq<FileEntry>)
    ensures forall k :: k in CatalogOf(files).hashes <==> k in KeysOf(files)
  {
    if files != [] {
      CatalogOfKeys(files[..|files| - 1]);
    }
  }

  /** Every key of the record maps to the hash of the last file with that key. */
  lemma {:induction false} CatalogOfHashes(files: seq<FileEntry>)
    ensures forall i :: 0 <= i < |files| && LastWithKey(files, i) ==>
              files[i].key in CatalogOf(files).hashes &&
              CatalogOf(files).hashes[files[i].key] == files[i].hash
  {
    if files != [] {
      var n := |files| - 1;
      var init := files[..n];
      CatalogOfHashes(init);
      var c := CatalogOf(init);
      assert CatalogOf(files).hashes == c.hashes[files[n].key := files[n].hash];
      forall i | 0 <= i < |files| && LastWithKey(files, i)
        ensures files[i].key in CatalogOf(files).hashes
        ensures CatalogOf(files).hashes[files[i].key] == files[i].hash
      {
        if i < n {
          assert init[i] == files[i] && files[n].key != files[i].key;
          assert LastWithKey(init, i);
        }
      }
    }
  }

  /** With unique keys the record enumerates the keys in file order and maps each to its file's hash. */
  lemma {:induction false} CatalogOfUnique(files: seq<FileEntry>)
    requires UniqueKeys(files)
    ensures CatalogOf(files).keys == KeysOf(files)
    ensures forall i :: 0 <= i < |files| ==> CatalogOf(files).hashes[files[i].key] == files[i].hash
  {
    if files != [] {
      var n := |files| - 1;
      var init := files[..n];
      CatalogOfUnique(init);
      CatalogOfKeys(init);
      assert files[n].key !in KeysOf(init) by {
        forall i | 0 <= i < |init| ensures KeysOf(init)[i] != files[n].key {
          assert init[i] == files[i];
        }
      }
      CatalogOfHashes(files);
      forall i | 0 <= i < |files|
        ensures CatalogOf(files).hashes[files[i].key] == files[i].hash
      {
        assert LastWithKey(files, i);
      }
    }
  }

  /**
    The `reduce` of index.js:54-57: starting from `{}`, assign every file's
    hash to its key, in file order.
  */
  method BuildHashMap(files: seq<FileEntry>) returns (record: Catalog)
    ensures record == CatalogOf(files)
  {
    record := EMPTY;
    for i := 0 to |files|
      invariant record == CatalogOf(files[..i])
    {
      var key, hash := files[i].key, files[i].hash;
      if key in record.hashes {
        record := record.(hashes := record.hashes[key := hash]);
      } else {
        record := Catalog(record.keys + [key], record.hashes[key := hash]);
      }
      assert files[..i + 1][..i] == files[..i];
    }
    assert files[..|files|] == files;
  }
}
