/** `safePickLastPost`: the first post of a VK wall page worth
    publishing. */
module Posts {
  import opened Wrappers
  import opened Text

  /** A VK post: its id (0 when missing), its text (empty when missing) and
      how many attachments it has. */
  datatype Post = Post(id: int, text: string, attachmentCount: nat)

  /** `post.text && post.text.trim().length > 0` */
  predicate HasText(p: Post)
  {
    |Trim(p.text)| > 0
  }

  /** A post with an id and either some text or an attachment. */
  predicate Publishable(p: Post)
  {
    p.id != 0 && (HasText(p) || p.attachmentCount > 0)
  }

  /** The post the picker looks for. */
  function FirstPublishable(posts: seq<Post>): (r: Option<Post>)
    ensures r.Some? ==> Publishable(r.value)
  {
    if posts == [] then None
    else if Publishable(posts[0]) then Some(posts[0])
    else FirstPublishable(posts[1..])
  }

  /** The index loop with early return. */
  method SafePickLastPost(posts: seq<Post>) returns (r: Option<Post>)
    ensures r == FirstPublishable(posts)
  {
    var i := 0;
    while i < |posts|
      invariant 0 <= i <= |posts|
      invariant FirstPublishable(posts) == FirstPublishable(posts[i..])
    {
      assert posts[i..][1..] == posts[i + 1..];
      if Publishable(posts[i]) {
        return Some(posts[i]);
      }
      i := i + 1;
    }
    return None;
  }

  /** Text counts exactly when it holds a character other than white
      space. */
  lemma HasTextSpec(p: Post)
    ensures HasText(p) <==> !AllSpaces(p.text)
  {
    TrimSpec(p.text);
  }

  /** The picked post is the lowest-index publishable post, and nothing is
      picked exactly when no post is publishable. */
  lemma {:induction false} FirstPublishableSpec(posts: seq<Post>)
    ensures FirstPublishable(posts).Some? ==>
      exists i :: 0 <= i < |posts| && posts[i] == FirstPublishable(posts).value
        && Publishable(posts[i]) && forall j :: 0 <= j < i ==> !Publishable(posts[j])
    ensures FirstPublishable(posts).None? <==> forall j :: 0 <= j < |posts| ==> !Publishable(posts[j])
  {
    if posts != [] && !Publishable(posts[0]) {
      var t := posts[1..];
      FirstPublishableSpec(t);
      assert forall j :: 1 <= j < |posts| ==> posts[j] == t[j - 1];
      if FirstPublishable(t).Some? {
        var i :| 0 <= i < |t| && t[i] == FirstPublishable(t).value
          && Publishable(t[i]) && forall j :: 0 <= j < i ==> !Publishable(t[j]);
        assert posts[i + 1] == t[i];
      }
    }
  }
}
