/**
 * The WordPress REST records the list components read, reduced to the fields they use.
 * The `_embedded` relations are optional at every level, as in the optional chains of the views.
 */
module Posts {
  import opened Wrappers

  /** An entry of the `wp:term` embedding: a category or a tag, told apart by `taxonomy`. */
  datatype Term = Term(id: int, name: string, slug: string, taxonomy: string)

  /** An entry of the `wp:featuredmedia` embedding; its `source_url` may be missing. */
  datatype Media = Media(sourceUrl: Option<string>)

  /** The `_embedded` bag of a post; either relation may be missing. */
  datatype Embedded = Embedded(featuredMedia: Option<seq<Media>>, terms: Option<seq<seq<Term>>>)

  /** A post: `title.rendered` and `excerpt.rendered` are kept as the markup strings the API sends. */
  datatype Post = Post(id: int, slug: string, title: string, excerpt: string, embedded: Option<Embedded>)

  /** A category as listed by the categories endpoint. */
  datatype Category = Category(id: int, name: string, slug: string, description: string)

  /**
   * The arguments of one call to the (external) paginated posts endpoint:
   * the 1-based page, the page size and the optional `category` filter.
   */
  datatype FetchRequest = FetchRequest(page: int, perPage: int, category: Option<int>)

  /** What that call returns: one page of posts and the `totalPages` header. */
  datatype Envelope = Envelope(posts: seq<Post>, totalPages: int)
}
