/**
 * The list editing of `components/multi-image-upload.tsx`: the component owns
 * no state; each handler computes the next URL list and hands it to `onChange`.
 */
module ImageList {

  /** The component's default `maxImages`; the product form passes the same value. */
  const DefaultMaxImages: int := 5

  /** `handleImageAdd`: append while below the limit, otherwise leave the list alone. */
  function AddImage(images: seq<string>, url: string, maxImages: int): (r: seq<string>)
    ensures images <= r && |r| <= |images| + 1
    ensures r == images + [url] <==> |images| < maxImages
    ensures r == images <==> |images| >= maxImages
    ensures |images| <= maxImages ==> |r| <= maxImages
  {
    if |images| < maxImages then images + [url] else images
  }

  /** A run of adds, one upload after another. */
  function AddImages(images: seq<string>, urls: seq<string>, maxImages: int): seq<string>
    decreases |urls|
  {
    if urls == [] then images else AddImages(AddImage(images, urls[0], maxImages), urls[1..], maxImages)
  }

  /** No sequence of adds takes a list at or under the limit past it, and earlier images stay first. */
  lemma {:induction false} AddsStayBounded(images: seq<string>, urls: seq<string>, maxImages: int)
    requires |images| <= maxImages
    ensures |AddImages(images, urls, maxImages)| <= maxImages
    ensures images <= AddImages(images, urls, maxImages)
    decreases |urls|
  {
    if urls != [] {
      var next := AddImage(images, urls[0], maxImages);
      AddsStayBounded(next, urls[1..], maxImages);
    }
  }

  /** With the default limit, a sixth upload onto five images is dropped. */
  lemma SixthImageIsDropped(images: seq<string>, url: string)
    requires |images| == DefaultMaxImages
    ensures AddImage(images, url, DefaultMaxImages) == images
    ensures |AddImage(images[..4], url, DefaultMaxImages)| == DefaultMaxImages
  {
  }

  /** `handleImageRemove`: `images.filter((_, i) => i !== index)`, walking positions from 0. */
  function RemoveImage(images: seq<string>, index: int): (r: seq<string>)
    ensures |r| == if 0 <= index < |images| then |images| - 1 else |images|
    ensures forall i :: 0 <= i < |r| ==> r[i] in images
    decreases |images|
  {
    if images == [] then []
    else
      var rest := RemoveImage(images[1..], index - 1);
      assert forall i :: 0 <= i < |rest| ==> rest[i] in images by {
        assert forall x :: x in images[1..] ==> x in images;
      }
      (if index == 0 then [] else [images[0]]) + rest
  }

  /** A valid index removes exactly that position and keeps the others in order. */
  lemma {:induction false} RemoveImageAtValidIndex(images: seq<string>, index: int)
    requires 0 <= index < |images|
    ensures RemoveImage(images, index) == images[..index] + images[index + 1..]
    decreases |images|
  {
    var rest := images[1..];
    if index == 0 {
      RemoveImageOutOfRange(rest, -1);
      assert rest == images[index + 1..];
      assert RemoveImage(images, index) == RemoveImage(rest, -1);
    } else {
      RemoveImageAtValidIndex(rest, index - 1);
      assert RemoveImage(images, index) == [images[0]] + RemoveImage(rest, index - 1);
      assert rest[..index - 1] == images[1..index];
      assert rest[index..] == images[index + 1..];
      assert [images[0]] + images[1..index] == images[..index];
    }
  }

  /** An index outside the list leaves it unchanged. */
  lemma {:induction false} RemoveImageOutOfRange(images: seq<string>, index: int)
    requires !(0 <= index < |images|)
    ensures RemoveImage(images, index) == images
    decreases |images|
  {
    if images != [] {
      RemoveImageOutOfRange(images[1..], index - 1);
    }
  }

  /** `handleImageReplace`: copy the list and write one slot. Only called with an index of a shown image. */
  method ReplaceImage(images: seq<string>, index: int, url: string) returns (newImages: seq<string>)
    requires 0 <= index < |images|
    ensures |newImages| == |images| && newImages[index] == url
    ensures forall k :: 0 <= k < |images| && k != index ==> newImages[k] == images[k]
  {
    var copy := new string[|images|](k requires 0 <= k < |images| => images[k]);
    copy[index] := url;
    newImages := copy[..];
  }
}
