/** The discussion handlers (controllers/communityController.js): creating,
    updating and deleting posts with their guards and image URL choice, the
    post listing query with its optional limit, and the statistics. */
module CommunityController {
  import opened Common
  import opened JsText
  import opened CommunityPostSchema

  /** The JSON bodies the discussion handlers send on success. */
  datatype PostBody =
    | PostJson(post: Post)
    | PostDeleted(message: string, id: Id)
    | StatsJson(stats: CommunityStats)

  /** `getCommunityStats`' body. Only the two counts are computed; the other
      three figures are fixed at zero. */
  datatype CommunityStats = CommunityStats(
    totalPosts: nat, totalMembers: nat, activeDiscussions: nat, newPostsThisWeek: nat, onlineNow: nat)

  const MissingFieldsMessage: string := "Please add a title and content for the discussion post"
  const MissingUserMessage: string := "Not authorized, user data missing from token."
  const PostNotFoundMessage: string := "Discussion post not found"
  const NotAuthorUpdateMessage: string := "User not authorized to update this post"
  const NotAuthorDeleteMessage: string := "User not authorized to delete this post"
  const EmptyUpdateMessage: string := "Title and content cannot be empty."
  const DeletedMessage: string := "Discussion post deleted successfully"

  /** The public URL of an uploaded image. */
  function UploadedUrl(filename: string): string {
    "/uploads/" + filename
  }

  /** The image URL of a new post: the uploaded file's URL, else a truthy
      `imageUrl` from the body, else "". */
  method ChooseCreateImageUrl(file: Option<string>, bodyImageUrl: Option<string>) returns (imageUrl: string)
    ensures file.Some? ==> imageUrl == UploadedUrl(file.value)
    ensures file.None? && Truthy(bodyImageUrl) ==> imageUrl == bodyImageUrl.value
    ensures file.None? && !Truthy(bodyImageUrl) ==> imageUrl == ""
  {
    imageUrl := "";
    if file.Some? {
      imageUrl := UploadedUrl(file.value);
    } else if Truthy(bodyImageUrl) {
      imageUrl := bodyImageUrl.value;
    }
  }

  /** The fields an update writes: title and content always, the image URL
      only when a file was uploaded or the body has an `imageUrl` key (whose
      value may be ""). */
  datatype PostUpdate = PostUpdate(title: string, content: string, imageUrl: Option<string>)

  method BuildPostUpdate(title: string, content: string, file: Option<string>, bodyImageUrl: Option<string>)
    returns (u: PostUpdate)
    ensures u.title == title && u.content == content
    ensures u.imageUrl.Some? <==> file.Some? || bodyImageUrl.Some?
    ensures file.Some? ==> u.imageUrl == Some(UploadedUrl(file.value))
    ensures file.None? ==> u.imageUrl == bodyImageUrl
  {
    var newImageUrl := "";
    if file.Some? {
      newImageUrl := UploadedUrl(file.value);
    } else if bodyImageUrl.Some? {
      newImageUrl := bodyImageUrl.value;
    }
    u := PostUpdate(title, content, None);
    if file.Some? || bodyImageUrl.Some? {
      u := u.(imageUrl := Some(newImageUrl));
    }
  }

  /** The stored post after an update: title and content replaced, the image
      URL replaced only when the update carries one. Author and creation
      time never change. */
  function ApplyPostUpdate(p: Post, u: PostUpdate): (r: Post)
    ensures r.author == p.author && r.createdAt == p.createdAt
    ensures r.title == u.title && r.content == u.content
    ensures u.imageUrl.None? ==> r.imageUrl == p.imageUrl
    ensures u.imageUrl.Some? ==> r.imageUrl == u.imageUrl
  {
    p.(title := u.title, content := u.content, imageUrl := if u.imageUrl.Some? then u.imageUrl else p.imageUrl)
  }

  /** A post the schema would accept: title and content are non-empty. */
  predicate PostConforms(p: Post) {
    p.title != "" && p.content != ""
  }

  /** A create request that passed the handler's guards also passes the
      schema, so the handler's own ValidationError branch is never taken. */
  lemma GuardedCreateValidates(title: Option<string>, content: Option<string>, imageUrl: string, author: Id)
    requires Truthy(title) && Truthy(content)
    ensures Errors(PostDraft(title, content, Some(imageUrl), Some(author))) == []
  {
    ErrorsEmptyIff(PostDraft(title, content, Some(imageUrl), Some(author)));
  }

  /** The query `getAllDiscussionPosts` runs: newest first, and a limit only
      when the `limit` parameter parses to a positive integer. */
  datatype PostsQuery = PostsQuery(sort: map<string, int>, limit: Option<nat>)

  method BuildPostsQuery(limit: Option<string>) returns (q: PostsQuery)
    ensures q.sort == map["createdAt" := -1]
    ensures q.limit.Some? <==> Truthy(limit) && ParseInt10(limit.value).Some? && ParseInt10(limit.value).value > 0
    ensures q.limit.Some? ==> q.limit.value as int == ParseInt10(limit.value).value
  {
    q := PostsQuery(map["createdAt" := -1], None);
    if Truthy(limit) {
      var parsedLimit := ParseInt10(limit.value);
      if parsedLimit.Some? && parsedLimit.value > 0 {
        q := q.(limit := Some(parsedLimit.value as nat));
      }
    }
  }

  /** The decimal text of a positive number is a limit of that many posts;
      "0" is no limit at all. */
  lemma {:induction false} DecimalLimit(n: nat)
    ensures n > 0 ==> ParseInt10(NatToDecimal(n)) == Some(n as int)
    ensures ParseInt10(NatToDecimal(0)) == Some(0)
  {
    ParseIntOfDecimal(n);
    ParseIntOfDecimal(0);
  }

  /** The posts returned for a query, given the store's posts newest first:
      all of them, or the first `limit` of them. */
  function Page(newestFirst: seq<Post>, q: PostsQuery): (r: seq<Post>)
    ensures q.limit.None? ==> r == newestFirst
    ensures q.limit.Some? ==> |r| == (if q.limit.value < |newestFirst| then q.limit.value else |newestFirst|)
    ensures r == newestFirst[..|r|]
  {
    if q.limit.Some? && q.limit.value < |newestFirst| then newestFirst[..q.limit.value] else newestFirst
  }

  /** What kind of object `req.body` is. The JSON parser builds a plain
      object. Multer, on a multipart request, and the URL-encoded parser,
      with `extended: false`, build an object without a prototype, which
      has no `hasOwnProperty` method. */
  datatype BodyKind = PlainObject | NullPrototype

  /** The TypeError calling a missing `hasOwnProperty` raises. */
  const NotAFunctionMessage: string := "req.body.hasOwnProperty is not a function"

  /** `updateDiscussionPost` as evidently intended, on the collection: the
      collection afterwards and the answer. 404, then 403 for anyone but
      the author, then 400 for an empty title or content, each leaving the
      collection as it was; otherwise only that post changes. */
  function UpdateOutcome(posts: map<Id, Post>, id: Id, title: Option<string>, content: Option<string>,
                         bodyImageUrl: Option<string>, file: Option<string>, user: Id)
    : (res: (map<Id, Post>, Response<PostBody>))
    ensures res.0.Keys == posts.Keys
    ensures forall k :: k in posts && k != id ==> res.0[k] == posts[k]
    ensures (forall k :: k in posts ==> PostConforms(posts[k])) ==> forall k :: k in res.0 ==> PostConforms(res.0[k])
    ensures id !in posts ==> res == (posts, Thrown(Some(404), PostNotFoundMessage))
    ensures id in posts && posts[id].author != user ==> res == (posts, Thrown(Some(403), NotAuthorUpdateMessage))
    ensures id in posts && posts[id].author == user && !(Truthy(title) && Truthy(content)) ==>
              res == (posts, Thrown(Some(400), EmptyUpdateMessage))
    ensures id in posts && posts[id].author == user && Truthy(title) && Truthy(content) ==>
              var imageUrl := if file.Some? then Some(UploadedUrl(file.value)) else bodyImageUrl;
              var post := ApplyPostUpdate(posts[id], PostUpdate(title.value, content.value, imageUrl));
              res == (posts[id := post], Ok(200, PostJson(post)))
  {
    if id !in posts then (posts, Thrown(Some(404), PostNotFoundMessage))
    else if posts[id].author != user then (posts, Thrown(Some(403), NotAuthorUpdateMessage))
    else if !Truthy(title) || !Truthy(content) then (posts, Thrown(Some(400), EmptyUpdateMessage))
    else
      var imageUrl := if file.Some? then Some(UploadedUrl(file.value)) else bodyImageUrl;
      var post := ApplyPostUpdate(posts[id], PostUpdate(title.value, content.value, imageUrl));
      (posts[id := post], Ok(200, PostJson(post)))
  }

  /** `updateDiscussionPost` as written: with no file uploaded, the handler
      calls `req.body.hasOwnProperty` before anything else, so a body
      without a prototype makes it throw a TypeError, with the status
      unset, before the post is looked up. Any other request is handled as
      intended. */
  function UpdateOutcomeAsWritten(posts: map<Id, Post>, id: Id, title: Option<string>, content: Option<string>,
                                  bodyImageUrl: Option<string>, file: Option<string>, kind: BodyKind, user: Id)
    : (res: (map<Id, Post>, Response<PostBody>))
    ensures file.None? && kind == NullPrototype ==> res == (posts, Thrown(None, NotAFunctionMessage))
    ensures file.Some? || kind == PlainObject ==>
              res == UpdateOutcome(posts, id, title, content, bodyImageUrl, file, user)
  {
    if file.None? && kind == NullPrototype then (posts, Thrown(None, NotAFunctionMessage))
    else UpdateOutcome(posts, id, title, content, bodyImageUrl, file, user)
  }

  /** The author correcting the text of a post through a form, without a
      new image, gets an error as written, whether or not the post exists;
      the intended handler updates the post. */
  lemma AsWrittenFormEditFails(posts: map<Id, Post>, id: Id, title: string, content: string, user: Id)
    requires id in posts && posts[id].author == user && title != "" && content != ""
    ensures UpdateOutcomeAsWritten(posts, id, Some(title), Some(content), None, None, NullPrototype, user)
            == (posts, Thrown(None, NotAFunctionMessage))
    ensures UpdateOutcome(posts, id, Some(title), Some(content), None, None, user).1.Ok?
    ensures UpdateOutcome(posts, id, Some(title), Some(content), None, None, user).0[id].title == title
  {
  }

  /** The discussion post collection. */
  class PostStore {
    var posts: map<Id, Post>
    var nextId: Id

    /** Every id is below the counter and every stored post has a title and
        content. */
    ghost predicate Valid()
      reads this
    {
      forall id :: id in posts ==> id < nextId && PostConforms(posts[id])
    }

    constructor ()
      ensures Valid() && posts == map[]
    {
      posts := map[];
      nextId := 0;
    }

    /** `getDiscussionPostById`. */
    function GetById(id: Id): (r: Response<PostBody>)
      reads this
      ensures r.Ok? <==> id in posts
      ensures r.Ok? ==> r == Ok(200, PostJson(posts[id]))
      ensures !r.Ok? ==> r == Thrown(Some(404), PostNotFoundMessage)
    {
      if id in posts then Ok(200, PostJson(posts[id])) else Thrown(Some(404), PostNotFoundMessage)
    }

    /** `getCommunityStats`, given the number of users. */
    function Stats(totalMembers: nat): (r: Response<PostBody>)
      reads this
      ensures r.Ok? && r.status == 200
      ensures r.body.StatsJson? && r.body.stats.totalPosts == |posts| && r.body.stats.totalMembers == totalMembers
      ensures r.body.stats.activeDiscussions == 0 && r.body.stats.newPostsThisWeek == 0 && r.body.stats.onlineNow == 0
    {
      Ok(200, StatsJson(CommunityStats(|posts|, totalMembers, 0, 0, 0)))
    }

    /** `createDiscussionPost`: 400 without a truthy title and content, 401
      without a caller, else a new post by the caller, returned with 201. */
    method Create(title: Option<string>, content: Option<string>, bodyImageUrl: Option<string>,
                  file: Option<string>, user: Option<Id>, now: nat) returns (r: Response<PostBody>)
      requires Valid()
      modifies this
      ensures Valid()
      ensures !(Truthy(title) && Truthy(content)) ==>
                r == Thrown(Some(400), MissingFieldsMessage) && posts == old(posts) && nextId == old(nextId)
      ensures Truthy(title) && Truthy(content) && user.None? ==>
                r == Thrown(Some(401), MissingUserMessage) && posts == old(posts) && nextId == old(nextId)
      ensures Truthy(title) && Truthy(content) && user.Some? ==>
                var imageUrl := if file.Some? then UploadedUrl(file.value)
                                else if Truthy(bodyImageUrl) then bodyImageUrl.value else "";
                var post := Post(title.value, content.value, Some(imageUrl), user.value, now);
                && old(nextId) !in old(posts)
                && posts == old(posts)[old(nextId) := post] && nextId == old(nextId) + 1
                && r == Ok(201, PostJson(post))
    {
      var imageUrl := ChooseCreateImageUrl(file, bodyImageUrl);
      if !Truthy(title) || !Truthy(content) {
        r := Thrown(Some(400), MissingFieldsMessage);
        return;
      }
      if user.None? {
        r := Thrown(Some(401), MissingUserMessage);
        return;
      }
      var draft := PostDraft(title, content, Some(imageUrl), user);
      GuardedCreateValidates(title, content, imageUrl, user.value);
      var post := Build(draft, now);
      posts := posts[nextId := post];
      nextId := nextId + 1;
      r := Ok(201, PostJson(post));
    }

    /** `updateDiscussionPost` as written, for a body of the given kind. */
    method Update(id: Id, title: Option<string>, content: Option<string>, bodyImageUrl: Option<string>,
                  file: Option<string>, kind: BodyKind, user: Id) returns (r: Response<PostBody>)
      requires Valid()
      modifies this
      ensures Valid() && nextId == old(nextId)
      ensures (posts, r) == UpdateOutcomeAsWritten(old(posts), id, title, content, bodyImageUrl, file, kind, user)
    {
      if file.None? && kind == NullPrototype {
        r := Thrown(None, NotAFunctionMessage);
        return;
      }
      r := UpdateIntended(id, title, content, bodyImageUrl, file, user);
    }

    /** `updateDiscussionPost` as evidently intended: the image URL key
      checked without relying on the body's prototype. */
    method UpdateIntended(id: Id, title: Option<string>, content: Option<string>, bodyImageUrl: Option<string>,
                          file: Option<string>, user: Id) returns (r: Response<PostBody>)
      requires Valid()
      modifies this
      ensures Valid() && nextId == old(nextId)
      ensures (posts, r) == UpdateOutcome(old(posts), id, title, content, bodyImageUrl, file, user)
    {
      if id !in posts {
        r := Thrown(Some(404), PostNotFoundMessage);
        return;
      }
      var post := posts[id];
      if post.author != user {
        r := Thrown(Some(403), NotAuthorUpdateMessage);
        return;
      }
      if !Truthy(title) || !Truthy(content) {
        r := Thrown(Some(400), EmptyUpdateMessage);
        return;
      }
      var updateFields := BuildPostUpdate(title.value, content.value, file, bodyImageUrl);
      var updated := ApplyPostUpdate(post, updateFields);
      posts := posts[id := updated];
      r := Ok(200, PostJson(updated));
    }

    /** `deleteDiscussionPost`: 404, then 403 for anyone but the author, else
      the post is removed. */
    method Delete(id: Id, user: Id) returns (r: Response<PostBody>)
      requires Valid()
      modifies this
      ensures Valid() && nextId == old(nextId)
      ensures id !in old(posts) ==> r == Thrown(Some(404), PostNotFoundMessage) && posts == old(posts)
      ensures id in old(posts) && old(posts)[id].author != user ==>
                r == Thrown(Some(403), NotAuthorDeleteMessage) && posts == old(posts)
      ensures id in old(posts) && old(posts)[id].author == user ==>
                posts == old(posts) - {id} && r == Ok(200, PostDeleted(DeletedMessage, id))
    {
      if id !in posts {
        r := Thrown(Some(404), PostNotFoundMessage);
        return;
      }
      if posts[id].author != user {
        r := Thrown(Some(403), NotAuthorDeleteMessage);
        return;
      }
      posts := posts - {id};
      r := Ok(200, PostDeleted(DeletedMessage, id));
    }
  }
}
