/** The discussion post schema (models/CommunityPost.js): title, content and
    author are required, the image URL is optional. */
module CommunityPostSchema {
  import opened Common
  import opened JsText

  /** A stored post. `createdAt` stands for the timestamps the schema adds. */
  datatype Post = Post(title: string, content: string, imageUrl: Option<string>, author: Id, createdAt: nat)

  /** The fields given to `CommunityPost.create` before validation. */
  datatype PostDraft = PostDraft(
    title: Option<string>, content: Option<string>, imageUrl: Option<string>, author: Option<Id>)

  /** The failing `required` validators, in schema order, as "path: message". */
  function Errors(d: PostDraft): seq<string> {
    (if d.title.None? || d.title.value == "" then ["title: Path `title` is required."] else [])
    + (if d.content.None? || d.content.value == "" then ["content: Path `content` is required."] else [])
    + (if d.author.None? then ["author: Path `author` is required."] else [])
  }

  /** A draft passes validation exactly when title and content are non-empty
      and an author is set; the image URL plays no part. */
  lemma ErrorsEmptyIff(d: PostDraft)
    ensures Errors(d) == [] <==> Truthy(d.title) && Truthy(d.content) && d.author.Some?
    ensures Errors(d) == Errors(d.(imageUrl := None))
  {
  }

  /** The stored post for a draft that passed validation. */
  function Build(d: PostDraft, createdAt: nat): (p: Post)
    requires Errors(d) == []
    ensures p.title == d.title.value && p.content == d.content.value
    ensures p.imageUrl == d.imageUrl && p.author == d.author.value
  {
    Post(d.title.value, d.content.value, d.imageUrl, d.author.value, createdAt)
  }
}
