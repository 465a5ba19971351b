/** lib/cloudinary.ts: the shared client-side uploader. The HTTP exchange is the
    `HostReply` input; what is specified is how that reply becomes a URL or an error. */
module Cloudinary {
  import opened Common

  const UploadSegment := "/upload/"
  const OptimizedSegment := "/upload/f_auto,q_auto/"
  /** Thrown when the error body carries no message. */
  const DefaultUploadError := "Failed to upload to Cloudinary"
  /** The message of the TypeError fetch throws when the host cannot be reached, as
      Chromium-based browsers word it; other browsers use other text. */
  const NetworkError := "Failed to fetch"

  /** First position at or after `k` where `pat` occurs in `s`. */
  function IndexFrom(s: string, pat: string, k: nat): (r: Option<nat>)
    requires k <= |s|
    decreases |s| - k
    ensures r.Some? ==> k <= r.value && OccursAt(s, pat, r.value)
    ensures r.Some? ==> forall j: nat :: k <= j < r.value ==> !OccursAt(s, pat, j)
    ensures r.None? ==> forall j: nat :: k <= j ==> !OccursAt(s, pat, j)
  {
    if OccursAt(s, pat, k) then Some(k)
    else if k == |s| then None
    else IndexFrom(s, pat, k + 1)
  }

  /** String.prototype.indexOf, with None for -1. */
  function IndexOf(s: string, pat: string): (r: Option<nat>)
    ensures r.Some? ==> OccursAt(s, pat, r.value)
    ensures r.Some? ==> forall j: nat :: j < r.value ==> !OccursAt(s, pat, j)
    ensures r.None? ==> forall j: nat :: !OccursAt(s, pat, j)
  {
    IndexFrom(s, pat, 0)
  }

  /** String.prototype.replace with a string pattern: only the first occurrence. */
  function ReplaceFirst(s: string, pat: string, rep: string): string {
    match IndexOf(s, pat)
    case None => s
    case Some(i) => s[..i] + rep + s[i + |pat|..]
  }

  /** The delivery URL handed back to callers: automatic format and quality. */
  function OptimizeUrl(secureUrl: string): string {
    ReplaceFirst(secureUrl, UploadSegment, OptimizedSegment)
  }

  /** With "/upload/" first occurring at `i`, exactly that occurrence is rewritten and
      everything before and after it is kept. */
  lemma OptimizeUrlRewritesFirst(url: string, i: nat)
    requires OccursAt(url, UploadSegment, i)
    requires forall j: nat :: j < i ==> !OccursAt(url, UploadSegment, j)
    ensures OptimizeUrl(url) == url[..i] + OptimizedSegment + url[i + |UploadSegment|..]
  {
    var k := IndexOf(url, UploadSegment);
    assert k.Some?;
    assert !(k.value < i) && !(i < k.value);
  }

  /** A URL without "/upload/" comes back unchanged. */
  lemma OptimizeUrlWithoutSegment(url: string)
    requires forall j: nat :: !OccursAt(url, UploadSegment, j)
    ensures OptimizeUrl(url) == url
  {
    assert IndexOf(url, UploadSegment).None?;
  }

  /** When "/upload/" occurs, the optimized URL is exactly 14 characters longer. */
  lemma OptimizeUrlLength(url: string, i: nat)
    requires OccursAt(url, UploadSegment, i)
    ensures |OptimizeUrl(url)| == |url| + 14
  {
    var k := IndexOf(url, UploadSegment);
    assert k.Some?;
  }

  /** What `await uploadToCloudinary(file)` yields for a host reply: the optimized URL,
      or the error it throws. */
  function UploadToCloudinary(reply: HostReply): (r: Result<string, string>)
    ensures r.Success? <==> reply.Uploaded?
    ensures reply.Rejected? ==> r.error == (if reply.message == "" then DefaultUploadError else reply.message)
    ensures reply.Unreachable? ==> r.error == NetworkError
  {
    match reply
    case Uploaded(url) => Success(OptimizeUrl(url))
    case Rejected(message) => Failure(if message == "" then DefaultUploadError else message)
    case Unreachable => Failure(NetworkError)
  }

  /** Every URL the uploader returns has been through the rewrite; a failed upload
      returns no URL at all. */
  lemma UploadedUrlIsOptimized(reply: HostReply)
    ensures UploadToCloudinary(reply).Success? ==>
              reply.Uploaded? && UploadToCloudinary(reply).value == OptimizeUrl(reply.secureUrl)
    ensures !reply.Uploaded? ==> UploadToCloudinary(reply).Failure?
  {
  }
}
