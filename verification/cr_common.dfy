/**
 What the custom-resource default setters share: a toleration entry (only ever copied or
 replaced as a whole), the nil-or-list slices of a spec, and the test of whether an image
 repository belongs to an official registry user.

 A repository such as `ibmcom/ibm-block-csi-driver-controller` names its registry user in
 everything before the last slash; the setters read that part with Go's path.Dir.
 */
module CrCommon {
  import opened Wrappers

  datatype Toleration = Toleration(key: string, operator: string, value: string, effect: string)

  /** A nil slice becomes an empty one; a present slice stays as it is. */
  function Filled<T>(slice: Option<seq<T>>): (r: Option<seq<T>>)
    ensures r.Some?
    ensures slice.Some? ==> r == slice
    ensures slice.None? ==> r == Some([])
  {
    if slice.None? then Some([]) else slice
  }

  /** The position of the last `c` in `p`, or -1 when there is none. */
  function LastIndexOf(p: string, c: char): (i: int)
    ensures -1 <= i < |p|
    ensures i >= 0 ==> p[i] == c
    ensures forall j :: i < j < |p| ==> p[j] != c
  {
    if |p| == 0 then -1
    else if p[|p| - 1] == c then |p| - 1
    else LastIndexOf(p[..|p| - 1], c)
  }

  /** path.Dir: everything before the last slash, "/" when that slash comes first, "."
      when there is no slash. */
  function Dir(p: string): string {
    var i := LastIndexOf(p, '/');
    if i < 0 then "." else if i == 0 then "/" else p[..i]
  }

  /** isUnofficialRepo: a repository is unofficial iff it is set and its registry user is
      not one of the official ones. */
  predicate UnofficialRepo(official: set<string>, repo: string) {
    repo != "" && Dir(repo) !in official
  }

  /** The registry user of `user/image` is `user` whenever the image part has no slash. */
  lemma DirOfImage(user: string, image: string)
    requires user != ""
    requires forall j :: 0 <= j < |image| ==> image[j] != '/'
    ensures Dir(user + "/" + image) == user
  {
    var p := user + "/" + image;
    var i := LastIndexOf(p, '/');
    assert p[|user|] == '/';
    assert forall j :: |user| < j < |p| ==> p[j] == image[j - |user| - 1];
    assert p[..i] == user;
  }

  /** An empty repository is never unofficial, and `user/image` is unofficial exactly when
      `user` is not an official registry user. */
  lemma UnofficialRepoMeaning(official: set<string>, user: string, image: string)
    requires user != ""
    requires forall j :: 0 <= j < |image| ==> image[j] != '/'
    ensures !UnofficialRepo(official, "")
    ensures UnofficialRepo(official, user + "/" + image) <==> user !in official
  {
    DirOfImage(user, image);
  }

  /** A repository without a slash, such as `test`, has the registry user "." and so is
      unofficial unless "." is listed as official. */
  lemma BareRepoUnofficial(official: set<string>, repo: string)
    requires repo != ""
    requires forall j :: 0 <= j < |repo| ==> repo[j] != '/'
    ensures UnofficialRepo(official, repo) <==> "." !in official
  {
    assert LastIndexOf(repo, '/') == -1;
  }

  /** The image reference of a repository and a tag: `repository:tag`, or the bare
      repository when the tag is empty. */
  function ImageName(repository: string, tag: string): string {
    if tag == "" then repository else repository + ":" + tag
  }

  /** The inverse of ImageName: split at the last colon, or no tag when there is none. */
  function SplitImage(image: string): (string, string) {
    var i := LastIndexOf(image, ':');
    if i < 0 then (image, "") else (image[..i], image[i + 1..])
  }

  /** The repository and the tag come back from the image reference whenever the tag has
      no colon and, for an image without a tag, the repository has none either. A
      registry port in the repository (`host:5000/user/image`) is fine once a tag follows. */
  lemma ImageNameRoundTrip(repository: string, tag: string)
    requires forall j :: 0 <= j < |tag| ==> tag[j] != ':'
    requires tag == "" ==> forall j :: 0 <= j < |repository| ==> repository[j] != ':'
    ensures SplitImage(ImageName(repository, tag)) == (repository, tag)
  {
    var image := ImageName(repository, tag);
    var i := LastIndexOf(image, ':');
    if tag == "" {
      assert i == -1;
    } else {
      assert image[|repository|] == ':';
      assert forall j :: |repository| < j < |image| ==> image[j] == tag[j - |repository| - 1];
      assert image[..i] == repository;
      assert image[i + 1..] == tag;
    }
  }
}
