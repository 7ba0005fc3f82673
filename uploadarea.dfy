/**
 * The reference-image picker: the lists it hands to `onImagesChange` when
 * files are selected or dropped, when one image is removed, and when all
 * are cleared.
 */
module UploadArea {
  import opened Wrappers
  import opened Strings
  import opened Seqs
  import opened Types

  const ImagePrefix: string := "image/"

  /** A file whose declared type starts with `image/`. */
  function IsImage(file: ImageFile): bool
  {
    StartsWith(file.mimeType, ImagePrefix)
  }

  /**
   * `handleFileChange` and `handleDrop`, which do the same: the current
   * images followed by the image files among the new ones, each as often as
   * it was chosen, in their order;
   * `None` when no new file is an image, in which case `onImagesChange` is
   * not called at all.
   */
  function AddImages(selected: seq<ImageFile>, files: seq<ImageFile>): (r: Option<seq<ImageFile>>)
    ensures r.None? <==> forall f :: f in files ==> !IsImage(f)
    ensures r.Some? ==> |selected| < |r.value| <= |selected| + |files|
    ensures r.Some? ==> r.value[..|selected|] == selected
    ensures r.Some? ==> forall f :: f in r.value[|selected|..] <==> f in files && IsImage(f)
    ensures r.Some? ==> SubsequenceOf(r.value[|selected|..], files)
    ensures r.Some? ==> forall f :: multiset(r.value[|selected|..])[f] == if IsImage(f) then multiset(files)[f] else 0
  {
    var images := Filter(files, IsImage);
    FilterCounts(files, IsImage);
    if |images| == 0 then
      None
    else
      assert images[0] in images;
      var r := selected + images;
      assert r[..|selected|] == selected && r[|selected|..] == images;
      Some(r)
  }

  /** The list grows only by image files: a list of images stays a list of images. */
  lemma AddedFilesAreImages(selected: seq<ImageFile>, files: seq<ImageFile>)
    requires forall f :: f in selected ==> IsImage(f)
    requires AddImages(selected, files).Some?
    ensures forall f :: f in AddImages(selected, files).value ==> IsImage(f)
  {
    var r := AddImages(selected, files).value;
    forall f | f in r
      ensures IsImage(f)
    {
      assert r == r[..|selected|] + r[|selected|..];
    }
  }

  /** The files at positions other than `index`, counting positions from `from`: `filter((_, i) => i !== index)`. */
  function KeepOtherPositions(files: seq<ImageFile>, index: int, from: nat): (r: seq<ImageFile>)
    ensures |r| <= |files|
  {
    if files == [] then []
    else (if from != index then [files[0]] else []) + KeepOtherPositions(files[1..], index, from + 1)
  }

  /**
   * `handleRemove(index)`: an index inside the list drops exactly that file,
   * the others keeping their order; an index outside the list changes nothing.
   */
  function RemoveAt(files: seq<ImageFile>, index: int): (r: seq<ImageFile>)
    ensures 0 <= index < |files| ==> r == files[..index] + files[index + 1..] && |r| == |files| - 1
    ensures !(0 <= index < |files|) ==> r == files
  {
    KeepOtherPositionsShape(files, index, 0);
    KeepOtherPositions(files, index, 0)
  }

  lemma {:induction false} KeepOtherPositionsShape(files: seq<ImageFile>, index: int, from: nat)
    ensures KeepOtherPositions(files, index, from) ==
      if from <= index < from + |files| then files[..index - from] + files[index - from + 1..] else files
  {
    if files != [] {
      KeepOtherPositionsShape(files[1..], index, from + 1);
      if from == index {
        assert files[1..] == files[index - from + 1..];
      } else if from < index < from + |files| {
        assert files[..index - from] == [files[0]] + files[1..][..index - from - 1];
        assert files[index - from + 1..] == files[1..][index - from..];
      } else {
        assert files == [files[0]] + files[1..];
      }
    }
  }

  /** `handleRemoveAll`: the list handed on is empty, whatever was selected. */
  function RemoveAll(files: seq<ImageFile>): (r: seq<ImageFile>)
    ensures |r| == 0
  {
    []
  }
}
