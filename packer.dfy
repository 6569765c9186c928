/**
  The size ceiling and greedy batch packing of `putItems`
  (src/worker.js:129, 139-148).
*/
module Packer {
  import opened HashCatalog

  /** The request-size ceiling: 100 MB less some room for the JSON around the values. */
  const MAX_PAYLOAD: nat := 99000000

  /** A file selected for upload once `stat` has filled in its size. */
  datatype SizedFile = SizedFile(entry: FileEntry, size: nat)

  /** One element of the `lists` accumulator: a running size and the files in the batch. */
  datatype Batch = Batch(size: nat, files: seq<SizedFile>)

  /** The sum of the sizes of `files`. */
  function Total(files: seq<SizedFile>): nat
  {
    if files == [] then 0 else Total(files[..|files| - 1]) + files[|files| - 1].size
  }

  /** The batches' file lists, concatenated in order. */
  function Flatten(batches: seq<Batch>): seq<SizedFile>
  {
    if batches == [] then [] else Flatten(batches[..|batches| - 1]) + batches[|batches| - 1].files
  }

  /**
    One step of the `reduce`: open a new batch when the file would take the
    last one to the ceiling or beyond, then add the file to the last batch.
  */
  function Place(lists: seq<Batch>, file: SizedFile): (r: seq<Batch>)
    requires |lists| > 0
  {
    var grown := if lists[|lists| - 1].size + file.size >= MAX_PAYLOAD then lists + [Batch(0, [])] else lists;
    var last := grown[|grown| - 1];
    grown[..|grown| - 1] + [Batch(last.size + file.size, last.files + [file])]
  }

  /** The batches `putItems` sends: the `reduce` over the files, starting from one empty batch. */
  function Packed(files: seq<SizedFile>): (r: seq<Batch>)
    ensures |r| > 0
  {
    if files == [] then [Batch(0, [])] else Place(Packed(files[..|files| - 1]), files[|files| - 1])
  }

  /** The total of the first `j + 1` files. */
  function PrefixTotal(files: seq<SizedFile>, j: int): nat
    requires 0 <= j < |files|
  {
    Total(files[..j + 1])
  }

  /** Every file of `b` from position `from` on joined it below the ceiling. */
  ghost predicate JoinedBelow(b: Batch, from: int)
  {
    forall j :: 0 <= j < |b.files| && from <= j ==> PrefixTotal(b.files, j) < MAX_PAYLOAD
  }

  /** `b` was opened by a file that would have taken `prev` to the ceiling. */
  ghost predicate OpenedAtCeiling(prev: Batch, b: Batch)
  {
    b.files != [] && prev.size + b.files[0].size >= MAX_PAYLOAD
  }

  /**
    The shape greedy packing leaves behind: every batch records the sum of
    its files; every batch after the first starts with the file that would
    have taken its predecessor to the ceiling; and every other file joined
    its batch below the ceiling.
  */
  ghost predicate GreedyShape(r: seq<Batch>)
  {
    && (forall i :: 0 <= i < |r| ==> r[i].size == Total(r[i].files))
    && (forall i :: 0 < i < |r| ==> OpenedAtCeiling(r[i - 1], r[i]))
    && (forall i :: 0 <= i < |r| ==> JoinedBelow(r[i], if i == 0 then 0 else 1))
  }

  lemma {:induction false} TotalAppend(files: seq<SizedFile>, f: SizedFile)
    ensures Total(files + [f]) == Total(files) + f.size
  {
    assert (files + [f])[..|files|] == files;
  }

  lemma {:induction false} FlattenAppend(batches: seq<Batch>, b: Batch)
    ensures Flatten(batches + [b]) == Flatten(batches) + b.files
  {
    assert (batches + [b])[..|batches|] == batches;
  }

  /** The two outcomes of a step: the file joins the last batch below the ceiling, or opens a batch of its own. */
  lemma {:induction false} PlaceCases(lists: seq<Batch>, file: SizedFile)
    requires |lists| > 0
    ensures var n := |lists| - 1; var last := lists[n];
      if last.size + file.size >= MAX_PAYLOAD then Place(lists, file) == lists + [Batch(file.size, [file])]
      else Place(lists, file) == lists[..n] + [Batch(last.size + file.size, last.files + [file])]
  {
    var n := |lists| - 1;
    if lists[n].size + file.size >= MAX_PAYLOAD {
      var grown := lists + [Batch(0, [])];
      assert grown[..|grown| - 1] == lists;
      assert [] + [file] == [file];
    }
  }

  lemma {:induction false} JoinKeepsShape(lists: seq<Batch>, file: SizedFile)
    requires |lists| > 0 && GreedyShape(lists)
    requires lists[|lists| - 1].size + file.size < MAX_PAYLOAD
    ensures GreedyShape(lists[..|lists| - 1] + [Batch(lists[|lists| - 1].size + file.size, lists[|lists| - 1].files + [file])])
  {
    var n := |lists| - 1;
    var last := lists[n];
    var placed := Batch(last.size + file.size, last.files + [file]);
    var r := lists[..n] + [placed];
    TotalAppend(last.files, file);
    forall j | 0 <= j < |placed.files| && (if n == 0 then 0 else 1) <= j
      ensures PrefixTotal(placed.files, j) < MAX_PAYLOAD
    {
      if j < |last.files| {
        assert placed.files[..j + 1] == last.files[..j + 1];
        assert PrefixTotal(last.files, j) < MAX_PAYLOAD;
      } else {
        assert placed.files[..j + 1] == placed.files;
      }
    }
    assert JoinedBelow(r[n], if n == 0 then 0 else 1);
    if n > 0 {
      assert OpenedAtCeiling(lists[n - 1], lists[n]);
      assert OpenedAtCeiling(r[n - 1], r[n]);
    }
  }

  lemma {:induction false} OpenKeepsShape(lists: seq<Batch>, file: SizedFile)
    requires |lists| > 0 && GreedyShape(lists)
    requires lists[|lists| - 1].size + file.size >= MAX_PAYLOAD
    ensures GreedyShape(lists + [Batch(file.size, [file])])
  {
    var b := Batch(file.size, [file]);
    assert Total([file]) == Total([]) + file.size;
    assert OpenedAtCeiling(lists[|lists| - 1], b);
    assert JoinedBelow(b, 1);
  }

  /** Placing a file appends it to the flattened batches. */
  lemma {:induction false} PlaceAppends(lists: seq<Batch>, file: SizedFile)
    requires |lists| > 0
    ensures Flatten(Place(lists, file)) == Flatten(lists) + [file]
  {
    var n := |lists| - 1;
    var last := lists[n];
    PlaceCases(lists, file);
    if last.size + file.size >= MAX_PAYLOAD {
      FlattenAppend(lists, Batch(file.size, [file]));
    } else {
      FlattenAppend(lists[..n], Batch(last.size + file.size, last.files + [file]));
      FlattenAppend(lists[..n], last);
      assert lists[..n] + [last] == lists;
    }
  }

  /** Placing a file keeps the greedy shape. */
  lemma {:induction false} PlaceKeepsShape(lists: seq<Batch>, file: SizedFile)
    requires |lists| > 0 && GreedyShape(lists)
    ensures GreedyShape(Place(lists, file))
  {
    PlaceCases(lists, file);
    if lists[|lists| - 1].size + file.size >= MAX_PAYLOAD {
      OpenKeepsShape(lists, file);
    } else {
      JoinKeepsShape(lists, file);
    }
  }

  /** The starting accumulator, one empty batch, has the greedy shape. */
  lemma StartShape()
    ensures GreedyShape([Batch(0, [])])
  {
    assert Total([]) == 0;
    assert JoinedBelow(Batch(0, []), 0);
  }

  lemma {:induction false} PackedShape(files: seq<SizedFile>)
    ensures GreedyShape(Packed(files))
  {
    if files == [] {
      StartShape();
    } else {
      PackedShape(files[..|files| - 1]);
      PlaceKeepsShape(Packed(files[..|files| - 1]), files[|files| - 1]);
    }
  }

  /** Concatenating the batches gives back the files: nothing lost, duplicated or reordered. */
  lemma {:induction false} PackedPreservesFiles(files: seq<SizedFile>)
    ensures Flatten(Packed(files)) == files
  {
    if files == [] {
      FlattenAppend([], Batch(0, []));
    } else {
      var n := |files| - 1;
      PackedPreservesFiles(files[..n]);
      PlaceAppends(Packed(files[..n]), files[n]);
      assert files[..n] + [files[n]] == files;
    }
  }

  /** Every batch records the sum of its files' sizes. */
  lemma {:induction false} PackedSizes(files: seq<SizedFile>)
    ensures forall b :: b in Packed(files) ==> b.size == Total(b.files)
  {
    PackedShape(files);
  }

  /**
    A new batch starts exactly when adding the next file would take the
    current total to the ceiling or beyond: every batch after the first
    starts with such a file ...
  */
  lemma {:induction false} PackedOpensAtCeiling(files: seq<SizedFile>)
    ensures var r := Packed(files);
      forall i :: 0 < i < |r| ==> r[i].files != [] && r[i - 1].size + r[i].files[0].size >= MAX_PAYLOAD
  {
    PackedShape(files);
    var r := Packed(files);
    forall i | 0 < i < |r|
      ensures r[i].files != [] && r[i - 1].size + r[i].files[0].size >= MAX_PAYLOAD
    {
      assert OpenedAtCeiling(r[i - 1], r[i]);
    }
  }

  /** ... and every later file of a batch joined it below the ceiling. */
  lemma {:induction false} PackedJoinsBelowCeiling(files: seq<SizedFile>)
    ensures var r := Packed(files);
      forall i, j :: 0 <= i < |r| && 0 < j < |r[i].files| ==>
        Total(r[i].files[..j]) + r[i].files[j].size < MAX_PAYLOAD
  {
    PackedShape(files);
    var r := Packed(files);
    forall i, j | 0 <= i < |r| && 0 < j < |r[i].files|
      ensures Total(r[i].files[..j]) + r[i].files[j].size < MAX_PAYLOAD
    {
      var fs := r[i].files;
      assert JoinedBelow(r[i], if i == 0 then 0 else 1);
      assert PrefixTotal(fs, j) < MAX_PAYLOAD;
      TotalAppend(fs[..j], fs[j]);
      assert fs[..j] + [fs[j]] == fs[..j + 1];
    }
  }

  predicate AllBelowCeiling(files: seq<SizedFile>)
  {
    forall f :: f in files ==> f.size < MAX_PAYLOAD
  }

  /** When every file is under the ceiling, every batch is under it and none is empty unless there are no files. */
  lemma {:induction false} PackedBelowCeiling(files: seq<SizedFile>)
    requires AllBelowCeiling(files)
    ensures var r := Packed(files); forall i :: 0 <= i < |r| ==> r[i].size < MAX_PAYLOAD
    ensures var r := Packed(files); files != [] ==> forall i :: 0 <= i < |r| ==> r[i].files != []
  {
    PackedShape(files);
    PackedPreservesFiles(files);
    PackedOpensAtCeiling(files);
    var r := Packed(files);
    forall i | 0 <= i < |r|
      ensures r[i].size < MAX_PAYLOAD
      ensures files != [] ==> r[i].files != []
    {
      BatchBelowCeiling(files, r, i);
    }
  }

  lemma {:induction false} BatchBelowCeiling(files: seq<SizedFile>, r: seq<Batch>, i: int)
    requires Flatten(r) == files && AllBelowCeiling(files) && GreedyShape(r) && 0 <= i < |r|
    requires forall k :: 0 < k < |r| ==> r[k].files != [] && r[k - 1].size + r[k].files[0].size >= MAX_PAYLOAD
    ensures r[i].size < MAX_PAYLOAD
    ensures files != [] ==> r[i].files != []
  {
    var fs := r[i].files;
    assert r[i].size == Total(fs);
    assert JoinedBelow(r[i], if i == 0 then 0 else 1);
    if fs == [] {
      if files != [] {
        FirstBatchEmpty(r);
        FlattenHas(r, 1, 0);
        assert false;
      }
    } else if i > 0 && |fs| == 1 {
      assert Total(fs) == Total(fs[..0]) + fs[0].size;
      FlattenHas(r, i, 0);
    } else {
      assert PrefixTotal(fs, |fs| - 1) < MAX_PAYLOAD;
      assert fs[..|fs|] == fs;
    }
  }

  lemma {:induction false} FlattenHas(r: seq<Batch>, i: int, j: int)
    requires 0 <= i < |r| && 0 <= j < |r[i].files|
    ensures r[i].files[j] in Flatten(r)
  {
    if i < |r| - 1 {
      FlattenHas(r[..|r| - 1], i, j);
    }
  }

  /** An empty first batch is followed by another when the batches hold any file. */
  lemma {:induction false} FirstBatchEmpty(r: seq<Batch>)
    requires |r| > 0 && r[0].files == [] && Flatten(r) != []
    ensures |r| > 1
  {
  }

  /** Empty input yields exactly one empty batch. */
  lemma {:induction false} PackedEmpty()
    ensures Packed([]) == [Batch(0, [])]
  {
  }

  lemma {:induction false} PackedStep(files: seq<SizedFile>, i: nat)
    requires i < |files|
    ensures Packed(files[..i + 1]) == Place(Packed(files[..i]), files[i])
  {
    assert files[..i + 1][..i] == files[..i];
  }

  /**
    The callback of the `reduce` of src/worker.js:140-147: open a new batch
    at the ceiling, then push the file onto the last batch and add its size.
  */
  method PlaceInto(lists: seq<Batch>, file: SizedFile) returns (r: seq<Batch>)
    requires |lists| > 0
    ensures r == Place(lists, file)
  {
    r := lists;
    if r[|r| - 1].size + file.size >= MAX_PAYLOAD {
      r := r + [Batch(0, [])];
    }
    var last := r[|r| - 1];
    r := r[..|r| - 1] + [Batch(last.size + file.size, last.files + [file])];
  }

  /** The `reduce` of src/worker.js:139-148, from one empty batch. */
  method Pack(files: seq<SizedFile>) returns (lists: seq<Batch>)
    ensures lists == Packed(files)
  {
    lists := [Batch(0, [])];
    for i := 0 to |files|
      invariant lists == Packed(files[..i])
    {
      lists := PlaceInto(lists, files[i]);
      PackedStep(files, i);
    }
    assert files[..|files|] == files;
  }
}
