/** The media-type guard applied to a chosen or dropped file before it is uploaded. */
module MediaType {

  /** The prefix every accepted media type must start with. */
  const VideoPrefix: string := "video/"

  /** JavaScript's `String.prototype.startsWith`: `s` begins with `prefix`, compared
      character by character (case-sensitive, no normalisation). */
  function StartsWith(s: string, prefix: string): (r: bool)
    ensures r <==> |prefix| <= |s| && s[..|prefix|] == prefix
  {
    if prefix == [] then true
    else if s == [] then false
    else
      var rest := StartsWith(s[1..], prefix[1..]);
      assert |prefix| <= |s| && s[..|prefix|] == prefix
        <==> s[0] == prefix[0] && |prefix[1..]| <= |s[1..]| && s[1..][..|prefix[1..]|] == prefix[1..] by {
        if |prefix| <= |s| && s[0] == prefix[0] {
          assert s[..|prefix|] == [s[0]] + s[1..][..|prefix[1..]|];
          assert prefix == [prefix[0]] + prefix[1..];
        }
      }
      s[0] == prefix[0] && rest
  }

  /** A file is accepted for upload exactly when its declared media type starts with "video/". */
  predicate IsVideo(mediaType: string)
  {
    StartsWith(mediaType, VideoPrefix)
  }

  /** What the guard accepts: precisely the media types "video/" followed by anything. */
  lemma IsVideoIff(mediaType: string)
    ensures IsVideo(mediaType) <==> exists subtype: string :: mediaType == VideoPrefix + subtype
  {
    if IsVideo(mediaType) {
      assert mediaType == VideoPrefix + mediaType[|VideoPrefix|..];
    }
  }

  /** The guard is case-sensitive and needs the slash: a few media types it turns away. */
  lemma RejectedTypes()
    ensures IsVideo("video/mp4") && IsVideo("video/")
    ensures !IsVideo("Video/mp4") && !IsVideo("video") && !IsVideo("") && !IsVideo("image/png")
  {
    assert "video/mp4"[..6] == VideoPrefix;
    assert "Video/mp4"[..6] != VideoPrefix by { assert "Video/mp4"[0] != VideoPrefix[0]; }
    assert "image/png"[..6] != VideoPrefix by { assert "image/png"[0] != VideoPrefix[0]; }
  }
}
