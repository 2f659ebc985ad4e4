/**
 * Blog posts: the stored row, its public view with the tags expanded, and
 * the admin operations that route the tags through the tag codec.
 */
module Posts {
  import opened Wrappers
  import opened Strings
  import opened Http
  import opened AdminGate
  import opened Ordering
  import opened Tags

  /** A stored post: the tags are kept as one comma-joined text, or `None`. */
  datatype Post = Post(id: Option<int>, title: string, summary: string, body: string, tags: Option<string>, createdAt: int)

  /** What the API shows of a post: the tags as a list. */
  datatype PostPublic = PostPublic(id: int, title: string, summary: string, body: string, tags: seq<string>, createdAt: int)

  /** The body of a create request (`PostCreate`); the tag list defaults to empty. */
  datatype PostCreate = PostCreate(title: string, summary: string, body: string, tags: seq<string>)

  /** The body of an update request (`PostUpdate`): `None` means the field was not sent. */
  datatype PostUpdate = PostUpdate(title: Option<string>, summary: Option<string>, body: Option<string>, tags: Option<seq<string>>)

  /**
   * `post_to_public`: the stored fields, a missing id shown as 0, and the
   * stored tag text expanded into clean tags that contain no comma.
   */
  function PostToPublic(post: Post): (r: PostPublic)
    ensures r.id == if post.id.Some? then post.id.value else 0
    ensures r.title == post.title && r.summary == post.summary && r.body == post.body && r.createdAt == post.createdAt
    ensures r.tags == TagsFromText(post.tags)
    ensures forall i :: 0 <= i < |r.tags| ==> IsCleanTag(r.tags[i]) && Delimiter !in r.tags[i]
    ensures post.tags == None ==> r.tags == []
  {
    PostPublic(if post.id.Some? then post.id.value else 0, post.title, post.summary, post.body, TagsFromText(post.tags), post.createdAt)
  }

  /** The row `create_post` adds: the payload's fields, its tags encoded, and the creation time. */
  function NewPost(p: PostCreate, id: int, now: int): (post: Post)
    ensures post.id == Some(id) && post.createdAt == now
    ensures post.title == p.title && post.summary == p.summary && post.body == p.body
    ensures post.tags == TagsToText(Some(p.tags))
  {
    Post(Some(id), p.title, p.summary, p.body, TagsToText(Some(p.tags)), now)
  }

  /**
   * A created post shows the tags it was given, stripped and without the
   * blank ones, provided no tag contains a comma.
   */
  lemma CreatedPostShowsCleanTags(p: PostCreate, id: int, now: int)
    requires forall i :: 0 <= i < |p.tags| ==> Delimiter !in p.tags[i]
    ensures PostToPublic(NewPost(p, id, now)).tags == Clean(p.tags)
  {
    RoundTrip(p.tags);
  }

  /**
   * The changes of `update_post`: every text field that was sent is
   * overwritten; the tags are replaced by the encoding of the list when a
   * list was sent, even an empty one, and kept otherwise. The id and the
   * creation time never change.
   */
  function ApplyUpdate(post: Post, u: PostUpdate): (r: Post)
    ensures r.id == post.id && r.createdAt == post.createdAt
    ensures r.title == (if u.title.Some? then u.title.value else post.title)
    ensures r.summary == (if u.summary.Some? then u.summary.value else post.summary)
    ensures r.body == (if u.body.Some? then u.body.value else post.body)
    ensures u.tags == None ==> r.tags == post.tags
    ensures u.tags != None ==> r.tags == TagsToText(u.tags)
  {
    post.(
      title := if u.title.Some? then u.title.value else post.title,
      summary := if u.summary.Some? then u.summary.value else post.summary,
      body := if u.body.Some? then u.body.value else post.body,
      tags := if u.tags.Some? then TagsToText(u.tags) else post.tags)
  }

  /** An update without tags leaves the shown tags as they were. */
  lemma UpdateWithoutTagsKeepsTags(post: Post, u: PostUpdate)
    requires u.tags == None
    ensures PostToPublic(ApplyUpdate(post, u)).tags == PostToPublic(post).tags
  {
  }

  /** An empty tag list, or one of blank tags only, removes every tag. */
  lemma UpdateWithBlankTagsClears(post: Post, u: PostUpdate)
    requires u.tags.Some? && forall i :: 0 <= i < |u.tags.value| ==> Strip(u.tags.value[i]) == []
    ensures ApplyUpdate(post, u).tags == None
    ensures PostToPublic(ApplyUpdate(post, u)).tags == []
  {
    BlankTagsClean(u.tags.value);
  }

  /**
   * Sent tags (without commas) are shown back cleaned, whatever the post had
   * before.
   */
  lemma UpdateWithTagsShowsThem(post: Post, u: PostUpdate)
    requires u.tags.Some? && forall i :: 0 <= i < |u.tags.value| ==> Delimiter !in u.tags.value[i]
    ensures PostToPublic(ApplyUpdate(post, u)).tags == Clean(u.tags.value)
  {
    RoundTrip(u.tags.value);
  }

  /** Sending the same update twice has the effect of sending it once. */
  lemma ApplyUpdateIdempotent(post: Post, u: PostUpdate)
    ensures ApplyUpdate(ApplyUpdate(post, u), u) == ApplyUpdate(post, u)
  {
  }

  /** When the post was created. */
  function PostCreatedAt(post: Post): int
  {
    post.createdAt
  }

  /** The post table, with the SQL session as an in-memory map from id to row. */
  class PostStore {
    var posts: map<int, Post>
    /** The id the next created post receives. */
    var nextId: int

    /** Every row carries its own key as its id, and every id lies below `nextId`. */
    ghost predicate Valid()
      reads this
    {
      && nextId >= 1
      && forall k :: k in posts ==> 1 <= k < nextId && posts[k].id == Some(k)
    }

    constructor ()
      ensures Valid() && posts == map[]
    {
      posts := map[];
      nextId := 1;
    }

    /**
     * `create_post`: the admin gate, then a new row under a fresh id with
     * the tags encoded. The title, summary and body are not checked for
     * emptiness.
     */
    method CreatePost(cred: Credentials, p: PostCreate, now: int) returns (r: Result<PostPublic, Failure>)
      requires Valid()
      modifies this
      ensures Valid()
      ensures RequireAdmin(cred).Fail? ==> r == Err(RequireAdmin(cred).failure) && unchanged(this)
      ensures RequireAdmin(cred) == Pass ==>
        && old(nextId) !in old(posts)
        && posts == old(posts)[old(nextId) := NewPost(p, old(nextId), now)]
        && nextId == old(nextId) + 1
        && r == Ok(PostToPublic(posts[old(nextId)]))
    {
      var gate := RequireAdmin(cred);
      if gate.Fail? {
        return Err(gate.failure);
      }
      var id := nextId;
      var post := NewPost(p, id, now);
      posts := posts[id := post];
      nextId := id + 1;
      r := Ok(PostToPublic(post));
    }

    /** `update_post`: the admin gate; an unknown id (404); otherwise the update is written into the row. */
    method UpdatePost(cred: Credentials, id: int, u: PostUpdate) returns (r: Result<PostPublic, Failure>)
      requires Valid()
      modifies this`posts
      ensures Valid()
      ensures RequireAdmin(cred).Fail? ==> r == Err(RequireAdmin(cred).failure) && posts == old(posts)
      ensures RequireAdmin(cred) == Pass && id !in old(posts) ==> r == Err(NotFound) && posts == old(posts)
      ensures RequireAdmin(cred) == Pass && id in old(posts) ==>
        && posts == old(posts)[id := ApplyUpdate(old(posts)[id], u)]
        && r == Ok(PostToPublic(posts[id]))
    {
      var gate := RequireAdmin(cred);
      if gate.Fail? {
        return Err(gate.failure);
      }
      if id !in posts {
        return Err(NotFound);
      }
      var post := ApplyUpdate(posts[id], u);
      posts := posts[id := post];
      r := Ok(PostToPublic(post));
    }

    /** `delete_post`: the admin gate; an unknown id (404); otherwise the row is removed. */
    method DeletePost(cred: Credentials, id: int) returns (r: Outcome)
      requires Valid()
      modifies this`posts
      ensures Valid()
      ensures RequireAdmin(cred).Fail? ==> r == RequireAdmin(cred) && posts == old(posts)
      ensures RequireAdmin(cred) == Pass && id !in old(posts) ==> r == Fail(NotFound) && posts == old(posts)
      ensures RequireAdmin(cred) == Pass && id in old(posts) ==> r == Pass && posts == old(posts) - {id}
    {
      r := RequireAdmin(cred);
      if r.Fail? {
        return;
      }
      if id !in posts {
        return Fail(NotFound);
      }
      posts := posts - {id};
    }

    /** `list_posts`: every post exactly once, newest first, in its public view; `ids` is the order. */
    method ListPosts() returns (ids: seq<int>, views: seq<PostPublic>)
      requires Valid()
      ensures NewestFirst(ids, CreationTimes(posts, PostCreatedAt)) && Enumerates(ids, CreationTimes(posts, PostCreatedAt))
      ensures |views| == |ids|
      ensures forall i :: 0 <= i < |ids| ==> ids[i] in posts && views[i] == PostToPublic(posts[ids[i]])
      ensures forall i, j :: 0 <= i < j < |ids| ==> views[i].createdAt >= views[j].createdAt
      ensures forall i :: 0 <= i < |ids| ==> views[i].id == ids[i]
    {
      var rows := posts;
      ids := OrderNewestFirst(CreationTimes(rows, PostCreatedAt));
      views := seq(|ids|, i requires 0 <= i < |ids| && ids[i] in rows => PostToPublic(rows[ids[i]]));
    }
  }
}
