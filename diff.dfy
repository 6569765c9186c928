/**
  The diff of index.js:32-36 between the local files and the stored hash
  record: which files to upload and which stored keys to remove.
*/
module Diff {
  import opened HashCatalog

  /** `a` is `b` with some elements left out, the rest in their order. */
  predicate IsSubsequence<T(==)>(a: seq<T>, b: seq<T>)
    decreases |b|
  {
    if b == [] then a == []
    else (a != [] && a[0] == b[0] && IsSubsequence(a[1..], b[1..])) || IsSubsequence(a, b[1..])
  }

  /** The record already holds this file's hash under its key (`kvFileHashes[key] === hash`). */
  predicate Unchanged(f: FileEntry, remote: Catalog)
  {
    f.key in remote.hashes && remote.hashes[f.key] == f.hash
  }

  /** The upload set: the local files whose stored hash is absent or different, in local order. */
  function ToUpload(files: seq<FileEntry>, remote: Catalog): (up: seq<FileEntry>)
    ensures IsSubsequence(up, files)
    ensures forall f :: f in up <==> f in files && !Unchanged(f, remote)
  {
    if files == [] then []
    else if Unchanged(files[0], remote) then ToUpload(files[1..], remote)
    else [files[0]] + ToUpload(files[1..], remote)
  }

  /**
    The remove set: the keys of the record (in Object.keys order) that no
    local file has.
  */
  function ToRemove(files: seq<FileEntry>, keys: seq<string>): (rm: seq<string>)
    ensures IsSubsequence(rm, keys)
    ensures forall k :: k in rm <==> k in keys && k !in KeysOf(files)
  {
    if keys == [] then []
    else if keys[0] in KeysOf(files) then ToRemove(files, keys[1..])
    else [keys[0]] + ToRemove(files, keys[1..])
  }

  /** No key is both uploaded and removed. */
  lemma UploadAndRemoveDisjoint(files: seq<FileEntry>, remote: Catalog)
    ensures forall f :: f in ToUpload(files, remote) ==> f.key !in ToRemove(files, remote.keys)
  {
    forall f | f in ToUpload(files, remote)
      ensures f.key !in ToRemove(files, remote.keys)
    {
      var i :| 0 <= i < |files| && files[i] == f;
      assert KeysOf(files)[i] == f.key;
    }
  }

  /** Files that share a key also share a hash (true when keys are unique). */
  predicate ConsistentKeys(files: seq<FileEntry>)
  {
    forall i, j :: 0 <= i < |files| && 0 <= j < |files| && files[i].key == files[j].key ==>
      files[i].hash == files[j].hash
  }

  /**
    Fixed point: diffing the files against the record built from them gives
    nothing to upload and nothing to remove.
  */
  lemma {:induction false} DiffOfOwnRecordIsEmpty(files: seq<FileEntry>)
    requires ConsistentKeys(files)
    ensures ToUpload(files, CatalogOf(files)) == []
    ensures ToRemove(files, CatalogOf(files).keys) == []
  {
    var c := CatalogOf(files);
    CatalogOfKeys(files);
    CatalogOfHashes(files);
    forall f | f in files
      ensures Unchanged(f, c)
    {
      var i :| 0 <= i < |files| && files[i] == f;
      var j := LastIndexOf(files, f.key, i);
      assert LastWithKey(files, j);
    }
    if ToUpload(files, c) != [] {
      assert ToUpload(files, c)[0] in ToUpload(files, c);
      assert false;
    }
    if ToRemove(files, c.keys) != [] {
      assert ToRemove(files, c.keys)[0] in ToRemove(files, c.keys);
      assert false;
    }
  }

  /** The position of the last file with the key of file `i`. */
  ghost function LastIndexOf(files: seq<FileEntry>, key: string, i: int): (j: int)
    requires 0 <= i < |files| && files[i].key == key
    ensures i <= j < |files| && files[j].key == key && LastWithKey(files, j)
    decreases |files| - i
  {
    if exists j :: i < j < |files| && files[j].key == key then
      var j :| i < j < |files| && files[j].key == key;
      LastIndexOf(files, key, j)
    else i
  }

  /** Against an empty record every file is uploaded and nothing is removed. */
  lemma {:induction false} NothingStoredUploadsAll(files: seq<FileEntry>)
    ensures ToUpload(files, EMPTY) == files
    ensures ToRemove(files, EMPTY.keys) == []
    decreases |files|
  {
    if files != [] {
      NothingStoredUploadsAll(files[1..]);
    }
  }

  /** Files with distinct keys give an upload list with distinct keys. */
  lemma {:induction false} UploadKeysUnique(files: seq<FileEntry>, remote: Catalog)
    requires UniqueKeys(files)
    ensures UniqueKeys(ToUpload(files, remote))
    decreases |files|
  {
    if files != [] {
      var rest := files[1..];
      assert UniqueKeys(rest) by {
        forall i, j | 0 <= i < j < |rest| ensures rest[i].key != rest[j].key {
          assert rest[i] == files[i + 1] && rest[j] == files[j + 1];
        }
      }
      UploadKeysUnique(rest, remote);
      var tail := ToUpload(rest, remote);
      forall f | f in tail ensures f.key != files[0].key {
        var j :| 0 <= j < |rest| && rest[j] == f;
        assert files[j + 1] == f;
      }
    }
  }

  /**
    Completeness in the terms of the two catalogs: a key is uploaded iff the
    local record has it and the stored record lacks it or maps it elsewhere;
    a key is removed iff the stored record has it and the local one does not.
  */
  lemma CompletenessByKey(files: seq<FileEntry>, remote: Catalog)
    requires UniqueKeys(files) && remote.Valid()
    ensures var local := CatalogOf(files);
      forall k :: k in KeysOf(ToUpload(files, remote)) <==>
        k in local.hashes && (k !in remote.hashes || local.hashes[k] != remote.hashes[k])
    ensures var local := CatalogOf(files);
      forall k :: k in ToRemove(files, remote.keys) <==> k in remote.hashes && k !in local.hashes
  {
    var local := CatalogOf(files);
    CatalogOfKeys(files);
    forall k ensures k in KeysOf(ToUpload(files, remote)) <==>
      k in local.hashes && (k !in remote.hashes || local.hashes[k] != remote.hashes[k])
    {
      UploadedKey(files, remote, k);
    }
  }

  /** One key of the upload half of `CompletenessByKey`. */
  lemma UploadedKey(files: seq<FileEntry>, remote: Catalog, k: string)
    requires UniqueKeys(files)
    ensures var local := CatalogOf(files);
      k in KeysOf(ToUpload(files, remote)) <==>
        k in local.hashes && (k !in remote.hashes || local.hashes[k] != remote.hashes[k])
  {
    var local := CatalogOf(files);
    var up := ToUpload(files, remote);
    if k in KeysOf(up) {
      var i :| 0 <= i < |up| && KeysOf(up)[i] == k;
      UploadedFile(files, remote, up[i]);
    }
    if k in local.hashes && (k !in remote.hashes || local.hashes[k] != remote.hashes[k]) {
      ChangedKeyUploaded(files, remote, k);
    }
  }

  /** A key of the local record whose stored hash is absent or different is uploaded. */
  lemma ChangedKeyUploaded(files: seq<FileEntry>, remote: Catalog, k: string)
    requires UniqueKeys(files)
    requires k in CatalogOf(files).hashes
    requires k !in remote.hashes || CatalogOf(files).hashes[k] != remote.hashes[k]
    ensures k in KeysOf(ToUpload(files, remote))
  {
    CatalogOfKeys(files);
    CatalogOfUnique(files);
    var j :| 0 <= j < |files| && KeysOf(files)[j] == k;
    assert !Unchanged(files[j], remote);
    KeyOfMember(ToUpload(files, remote), files[j]);
  }

  /** A file of a list contributes its key to the list's keys. */
  lemma KeyOfMember(s: seq<FileEntry>, f: FileEntry)
    requires f in s
    ensures f.key in KeysOf(s)
  {
    var i :| 0 <= i < |s| && s[i] == f;
    assert KeysOf(s)[i] == f.key;
  }

  /** An uploaded file's key is in the local record with the file's hash, and the stored one differs. */
  lemma UploadedFile(files: seq<FileEntry>, remote: Catalog, f: FileEntry)
    requires UniqueKeys(files) && f in ToUpload(files, remote)
    ensures var local := CatalogOf(files);
      f.key in local.hashes && local.hashes[f.key] == f.hash && !Unchanged(f, remote)
  {
    CatalogOfKeys(files);
    CatalogOfUnique(files);
    var j :| 0 <= j < |files| && files[j] == f;
    assert KeysOf(files)[j] == f.key;
  }
}
