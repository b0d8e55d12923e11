/**
 * The related-articles section under a post: one card per given post, in the given order,
 * built with the same embedded-data extraction and excerpt stripping as a blog card.
 * The `currentSlug` property is accepted but never read.
 */
module RelatedPosts {
  import opened Wrappers
  import opened Posts
  import opened BlogCard

  /** The section's cards, or None when the section renders nothing (an empty list). */
  function RelatedCards(posts: seq<Post>, currentSlug: Option<string>): (r: Option<seq<Card>>)
    ensures r.None? <==> |posts| == 0
    ensures r.Some? ==> |r.value| == |posts|
    ensures r.Some? ==> forall i :: 0 <= i < |posts| ==> r.value[i] == CardOf(posts[i])
  {
    if |posts| == 0 then None
    else Some(seq(|posts|, i requires 0 <= i < |posts| => CardOf(posts[i])))
  }

  /** The output is the same whatever current slug is passed. */
  lemma RelatedIgnoresCurrentSlug(posts: seq<Post>, a: Option<string>, b: Option<string>)
    ensures RelatedCards(posts, a) == RelatedCards(posts, b)
  {
  }

  /** The post being read is not filtered out: if it is in the list, a card links to it. */
  lemma CurrentPostNotFiltered(posts: seq<Post>, currentSlug: string)
    requires exists i :: 0 <= i < |posts| && posts[i].slug == currentSlug
    ensures RelatedCards(posts, Some(currentSlug)).Some?
    ensures exists card :: card in RelatedCards(posts, Some(currentSlug)).value && card.href == BlogPrefix + currentSlug
  {
    var i :| 0 <= i < |posts| && posts[i].slug == currentSlug;
    var cards := RelatedCards(posts, Some(currentSlug)).value;
    assert cards[i] == CardOf(posts[i]);
    assert cards[i] in cards;
  }
}
