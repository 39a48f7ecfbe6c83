/** The post record and its required-field validation (pkg/models/post.go). */
module Models {
  import opened Wrappers

  /** An instant read from the clock; the model treats it as an opaque value. */
  type Instant = int

  /** A blog post, as stored and as exchanged with clients. */
  datatype Post = Post(
    id: int,
    title: string,
    content: string,
    author: string,
    createdAt: Instant,
    updatedAt: Instant)

  /** The three errors `Validate` can report, in the order it checks them. */
  datatype ValidationError = TitleRequired | ContentRequired | AuthorRequired
  {
    /** The error text that reaches the client. */
    function Message(): string {
      match this
      case TitleRequired => "title is required"
      case ContentRequired => "content is required"
      case AuthorRequired => "author is required"
    }
  }

  /** Title, content and author are all present. */
  predicate HasRequiredFields(p: Post) {
    p.title != "" && p.content != "" && p.author != ""
  }

  /**
    * Accepts a post exactly when its three text fields are non-empty; otherwise
    * reports the first missing one, checking title, then content, then author.
    * Being a function of a value, it cannot change the post it inspects.
    */
  function Validate(p: Post): (r: Outcome<ValidationError>)
    ensures r.Pass? <==> HasRequiredFields(p)
    ensures r == Fail(TitleRequired) <==> p.title == ""
    ensures r == Fail(ContentRequired) <==> p.title != "" && p.content == ""
    ensures r == Fail(AuthorRequired) <==> p.title != "" && p.content != "" && p.author == ""
  {
    if p.title == "" then Fail(TitleRequired)
    else if p.content == "" then Fail(ContentRequired)
    else if p.author == "" then Fail(AuthorRequired)
    else Pass
  }
}
