/**
 * Identifier generation and image URL building (`core/utils.py`).
 */
module Utils {
  import opened Wrappers

  /** Upper-case ASCII letters and decimal digits, the alphabet of every record code. */
  const IdAlphabet: string := "ABCDEFGHIJKLMNOPQRSTUVWXYZ0123456789"

  /** Every record code is six characters long. */
  const IdLength: nat := 6

  /** The shape of a record code: six characters, each from the alphabet. */
  predicate IsId(s: string) {
    |s| == IdLength && forall i :: 0 <= i < |s| ==> s[i] in IdAlphabet
  }

  /**
   * Draws a new code one character at a time. `generate_id` draws each character
   * with a cryptographic random choice; here each draw is a nondeterministic
   * choice from the alphabet, so only the shape of the result is promised.
   */
  method GenerateId() returns (id: string)
    ensures |id| == IdLength
    ensures forall i :: 0 <= i < |id| ==> 'A' <= id[i] <= 'Z' || '0' <= id[i] <= '9'
    ensures IsId(id)
  {
    id := "";
    for n := 0 to IdLength
      invariant |id| == n
      invariant forall i :: 0 <= i < |id| ==> id[i] in IdAlphabet
    {
      assert IdAlphabet[0] in IdAlphabet;
      var c :| c in IdAlphabet;
      id := id + [c];
    }
    forall i | 0 <= i < |id|
      ensures 'A' <= id[i] <= 'Z' || '0' <= id[i] <= '9'
    {
      AlphabetIsUpperOrDigit(id[i]);
    }
  }

  lemma AlphabetIsUpperOrDigit(c: char)
    requires c in IdAlphabet
    ensures 'A' <= c <= 'Z' || '0' <= c <= '9'
  {
    var k :| 0 <= k < |IdAlphabet| && IdAlphabet[k] == c;
  }

  /** The cloud name when the deployment does not configure one. */
  const DefaultCloudName: string := "oiueei"

  const UrlScheme: string := "https://res.cloudinary.com/"
  const UrlPath: string := "/image/upload/v1676535186/oiueei/"
  const UrlSuffix: string := ".png"

  /** The URL prefix up to the image id, for a given cloud name. */
  function UrlPrefix(cloudName: string): string {
    UrlScheme + cloudName + UrlPath
  }

  /**
   * The public URL of an uploaded image: nothing for a missing or empty id,
   * otherwise the fixed prefix, the cloud name, the upload path, the id and ".png".
   */
  function CloudinaryUrl(imageId: Option<string>, cloudName: string): (r: Option<string>)
    ensures r.None? <==> imageId == None || imageId == Some("")
    ensures r.Some? ==> |r.value| == |UrlPrefix(cloudName)| + |imageId.value| + |UrlSuffix|
    ensures r.Some? ==> r.value[..|UrlScheme|] == UrlScheme
    ensures r.Some? ==> r.value[|r.value| - |UrlSuffix|..] == UrlSuffix
  {
    match imageId
    case None => None
    case Some(id) =>
      if id == "" then None else Some(UrlPrefix(cloudName) + id + UrlSuffix)
  }

  /** Reads the image id back out of a URL built for `cloudName`, if it has that shape. */
  function ImageIdOfUrl(url: string, cloudName: string): (r: Option<string>)
    ensures r.Some? ==> r.value != "" && url == UrlPrefix(cloudName) + r.value + UrlSuffix
  {
    var p := UrlPrefix(cloudName);
    if |url| > |p| + |UrlSuffix| && url[..|p|] == p && url[|url| - |UrlSuffix|..] == UrlSuffix then
      var id := url[|p|..|url| - |UrlSuffix|];
      assert url == url[..|p|] + id + url[|url| - |UrlSuffix|..];
      Some(id)
    else None
  }

  /** The id of an image is recovered from its URL, and a URL is rebuilt from the id it holds. */
  lemma {:induction false} UrlRoundTrip(id: string, url: string, cloudName: string)
    ensures id != "" ==> ImageIdOfUrl(CloudinaryUrl(Some(id), cloudName).value, cloudName) == Some(id)
    ensures ImageIdOfUrl(url, cloudName) == Some(id) ==> CloudinaryUrl(Some(id), cloudName) == Some(url)
  {
    if id != "" {
      var p := UrlPrefix(cloudName);
      var u := p + id + UrlSuffix;
      assert u[..|p|] == p;
      assert u[|u| - |UrlSuffix|..] == UrlSuffix;
      assert u[|p|..|u| - |UrlSuffix|] == id;
    }
  }
}
