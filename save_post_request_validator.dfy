/**
 * Request validation for WordPress's `save_post` action
 * (src/inc/post-translator/Mlp_Save_Post_Request_Validator.php). The
 * WordPress facts the validator asks about are plain inputs here.
 */
module SavePostRequestValidator {
  import opened Wrappers

  /** The two fields of the post that `get_post` returns. */
  datatype Post = Post(status: string, postType: string)

  /** Everything `is_valid` consults, besides the nonce. */
  datatype SavePostRequest = SavePostRequest(
    doingAutosave: bool,              // DOING_AUTOSAVE is defined and truthy
    isPostRevision: bool,             // wp_is_post_revision( $post_id ) is truthy
    post: Option<Post>,               // get_post( $post_id ); None when there is no such post
    originalPostStatus: Option<string>, // filter_input( INPUT_POST, 'original_post_status' ); None when absent
    canEditPost: bool)                // current_user_can( 'edit_post', $post_id )

  /** The statuses that never belong to a real revision. */
  const NonRevisionStatuses: seq<string> := ["publish", "draft", "private", "auto-draft"]

  /**
   * `is_real_revision`. The first test, on `wp_is_post_revision`, has no
   * `return`, so it decides nothing. A missing post reads its status and
   * type as `null`, which fails the `'inherit'` test.
   */
  function IsRealRevision(req: SavePostRequest): (r: bool)
    ensures r ==> req.post.Some? && req.post.value.status == "inherit" && req.post.value.postType == "revision"
  {
    match req.post
    case None => false
    case Some(post) =>
      if post.status in NonRevisionStatuses then false
      else if post.status != "inherit" then false
      else if post.postType != "revision" then false
      else req.originalPostStatus != Some("auto-draft")
  }

  /** `is_valid`: autosave, then real revision, then edit capability, then the nonce. */
  function IsValid(req: SavePostRequest, nonceIsValid: bool): (valid: bool)
    ensures valid ==> !req.doingAutosave && req.canEditPost && nonceIsValid
  {
    if req.doingAutosave then false
    else if IsRealRevision(req) then false
    else if !req.canEditPost then false
    else nonceIsValid
  }

  /** An autosave is never a valid save request. */
  lemma AutosaveIsInvalid(req: SavePostRequest, nonceIsValid: bool)
    requires req.doingAutosave
    ensures !IsValid(req, nonceIsValid)
  {
  }

  /** A real revision, or a user who may not edit the post, is refused whatever the nonce says. */
  lemma RevisionOrNoCapabilityIgnoresNonce(req: SavePostRequest)
    requires IsRealRevision(req) || !req.canEditPost
    ensures !IsValid(req, true) && !IsValid(req, false)
  {
  }

  /** Once the first three checks pass, the answer is the nonce's. */
  lemma NonceDecidesTheRest(req: SavePostRequest, nonceIsValid: bool)
    requires !req.doingAutosave && !IsRealRevision(req) && req.canEditPost
    ensures IsValid(req, nonceIsValid) == nonceIsValid
  {
  }

  /** `is_valid` in one formula. */
  lemma IsValidExactly(req: SavePostRequest, nonceIsValid: bool)
    ensures IsValid(req, nonceIsValid) <==> !req.doingAutosave && !IsRealRevision(req) && req.canEditPost && nonceIsValid
  {
  }

  /** Published, draft, private and auto-draft posts are never real revisions. */
  lemma SettledStatusIsNotRevision(req: SavePostRequest)
    requires req.post.Some? && req.post.value.status in {"publish", "draft", "private", "auto-draft"}
    ensures !IsRealRevision(req)
  {
  }

  /**
   * A real revision is exactly a post with status `inherit` and type
   * `revision` whose posted original status is not `auto-draft`.
   */
  lemma RealRevisionExactly(req: SavePostRequest)
    ensures IsRealRevision(req) <==>
      && req.post.Some?
      && req.post.value.status == "inherit"
      && req.post.value.postType == "revision"
      && req.originalPostStatus != Some("auto-draft")
  {
  }

  /** The answer does not depend on `wp_is_post_revision`. */
  lemma PostRevisionCheckIsIgnored(req: SavePostRequest, nonceIsValid: bool)
    ensures IsRealRevision(req) == IsRealRevision(req.(isPostRevision := !req.isPostRevision))
    ensures IsValid(req, nonceIsValid) == IsValid(req.(isPostRevision := !req.isPostRevision), nonceIsValid)
  {
  }
}
