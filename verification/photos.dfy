/** The photos tab: in page order, a protocol-relative `src` (`//host/...`)
    gets `https:` in front, every other `src` is kept unchanged, and images
    without `src` are dropped. */
module Photos {
  import opened Wrappers
  import opened Sequences
  import opened JsString

  /** Scheme put in front of a protocol-relative URL. */
  const HttpsScheme: string := "https:"

  /** A protocol-relative `src` (`//host/...`) gets `https:` in front; any
      other `src` is kept as it is. The result is never protocol-relative
      and always ends with the original `src`. */
  function NormalizeSrc(src: string): (r: string)
    ensures StartsWith(src, "//") ==> r == HttpsScheme + src
    ensures !StartsWith(src, "//") ==> r == src
    ensures !StartsWith(r, "//")
    ensures |src| <= |r| && r[|r| - |src|..] == src
  {
    if StartsWith(src, "//") then
      var r := HttpsScheme + src;
      assert r[0] == 'h';
      r
    else src
  }

  /** Normalizing twice is normalizing once. */
  lemma NormalizeSrcIdempotent(src: string)
    ensures NormalizeSrc(NormalizeSrc(src)) == NormalizeSrc(src)
  {
  }

  /** The callback applied to each photo image: its normalized `src`, or
      null when it has none. */
  function NormalizeEntry(src: Option<string>): (r: Option<string>)
    ensures r.Some? == src.Some?
    ensures r.Some? && StartsWith(src.value, "//") ==> r.value == HttpsScheme + src.value
    ensures r.Some? && !StartsWith(src.value, "//") ==> r.value == src.value
    ensures r.Some? ==> !StartsWith(r.value, "//")
    ensures r.Some? ==> |src.value| <= |r.value| && r.value[|r.value| - |src.value|..] == src.value
  {
    match src
    case None => None
    case Some(s) => Some(NormalizeSrc(s))
  }

  /** The callback mapped over the images, in page order. */
  function NormalizeAll(srcs: seq<Option<string>>): (r: seq<Option<string>>)
    ensures |r| == |srcs|
    ensures forall i :: 0 <= i < |srcs| ==> r[i] == NormalizeEntry(srcs[i])
  {
    seq(|srcs|, i requires 0 <= i < |srcs| => NormalizeEntry(srcs[i]))
  }

  /** The images before index `i` yield as many photos as they have `src`
      attributes. */
  lemma NormalizedPrefixCount(srcs: seq<Option<string>>, i: nat)
    requires i <= |srcs|
    ensures CountSome(NormalizeAll(srcs)[..i]) == CountSome(srcs[..i])
  {
    CountSomeSameShape(NormalizeAll(srcs)[..i], srcs[..i]);
  }

  /** The mapped images with the nulls filtered out. The present `src` at
      index `i` becomes photo number `CountSome(srcs[..i])`, so the photos
      keep page order and leave out exactly the images without `src`; no
      photo is protocol-relative. */
  function CollectPhotos(srcs: seq<Option<string>>): (r: seq<string>)
    ensures |r| == CountSome(srcs) <= |srcs|
    ensures forall i :: 0 <= i < |srcs| && srcs[i].Some? ==>
              CountSome(srcs[..i]) < |r| && r[CountSome(srcs[..i])] == NormalizeSrc(srcs[i].value)
    ensures forall k :: 0 <= k < |r| ==> !StartsWith(r[k], "//")
  {
    var mapped := NormalizeAll(srcs);
    var r := Compact(mapped);
    assert |r| == CountSome(srcs) by {
      NormalizedPrefixCount(srcs, |srcs|);
      assert mapped[..|srcs|] == mapped && srcs[..|srcs|] == srcs;
    }
    forall i | 0 <= i < |srcs| && srcs[i].Some?
      ensures CountSome(srcs[..i]) < |r| && r[CountSome(srcs[..i])] == NormalizeSrc(srcs[i].value)
    {
      NormalizedPrefixCount(srcs, i);
    }
    forall k | 0 <= k < |r|
      ensures !StartsWith(r[k], "//")
    {
      CompactFrom(mapped, k);
    }
    r
  }

  /** Every `src` present. */
  function AllPresent(urls: seq<string>): (r: seq<Option<string>>)
    ensures |r| == |urls|
    ensures forall i :: 0 <= i < |urls| ==> r[i] == Some(urls[i])
  {
    seq(|urls|, i requires 0 <= i < |urls| => Some(urls[i]))
  }

  /** Collecting the photos of already collected photos changes nothing:
      the output is a fixed point of the normalization. */
  lemma CollectPhotosIdempotent(urls: seq<string>)
    requires forall k :: 0 <= k < |urls| ==> !StartsWith(urls[k], "//")
    ensures CollectPhotos(AllPresent(urls)) == urls
  {
    var srcs := AllPresent(urls);
    var r := CollectPhotos(srcs);
    CountSomeAll(srcs);
    forall i | 0 <= i < |urls|
      ensures r[i] == urls[i]
    {
      CountSomeAll(srcs[..i]);
    }
  }

  /** The first photo is the normalized first present `src`. */
  lemma FirstPhoto(srcs: seq<Option<string>>, i: nat)
    requires IsFirstPresent(srcs, i)
    ensures |CollectPhotos(srcs)| > 0
    ensures CollectPhotos(srcs)[0] == NormalizeSrc(srcs[i].value)
  {
    CountSomeNone(srcs[..i]);
  }

  /** Without any present `src` there is no photo. */
  lemma NoPhotos(srcs: seq<Option<string>>)
    requires forall j :: 0 <= j < |srcs| ==> srcs[j].None?
    ensures CollectPhotos(srcs) == []
  {
    CountSomeNone(srcs);
  }
}
