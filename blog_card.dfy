/**
 * The data a post card shows: link, featured image, category badge, title and the excerpt with
 * its markup removed. Only the relations embedded in the post are consulted; there is no
 * fallback lookup. The same expressions are used by the related-posts list and the slider.
 */
module BlogCard {
  import opened Wrappers
  import opened Posts

  const Placeholder: string := "/placeholder.svg"
  const Uncategorized: string := "Uncategorized"
  const BlogPrefix: string := "/blog/"

  /** `post._embedded?.['wp:featuredmedia']?.[0]?.source_url` */
  function EmbeddedImageUrl(post: Post): Option<string>
  {
    match post.embedded
    case None => None
    case Some(e) =>
      match e.featuredMedia
      case None => None
      case Some(media) => if |media| == 0 then None else media[0].sourceUrl
  }

  /** The image source: the embedded URL when it is present and not empty, else the placeholder. */
  function FeaturedImage(post: Post): (url: string)
    ensures url != ""
    ensures EmbeddedImageUrl(post).Some? && EmbeddedImageUrl(post).value != "" ==> url == EmbeddedImageUrl(post).value
    ensures url != Placeholder ==> EmbeddedImageUrl(post) == Some(url)
    ensures EmbeddedImageUrl(post).None? || EmbeddedImageUrl(post) == Some("") ==> url == Placeholder
  {
    match EmbeddedImageUrl(post)
    case Some(u) => if u != "" then u else Placeholder
    case None => Placeholder
  }

  /** Array.prototype.find over terms: the position of the first term whose taxonomy is "category". */
  function FindCategory(terms: seq<Term>): (r: Option<nat>)
    ensures r.Some? ==> r.value < |terms| && terms[r.value].taxonomy == "category"
    ensures r.Some? ==> forall j :: 0 <= j < r.value ==> terms[j].taxonomy != "category"
    ensures r.None? ==> forall j :: 0 <= j < |terms| ==> terms[j].taxonomy != "category"
  {
    if |terms| == 0 then None
    else if terms[0].taxonomy == "category" then Some(0)
    else
      match FindCategory(terms[1..])
      case None => None
      case Some(k) => Some(k + 1)
  }

  /** `post._embedded?.['wp:term']?.[0]`: the first group of embedded terms, if any. */
  function FirstTermGroup(post: Post): Option<seq<Term>>
  {
    match post.embedded
    case None => None
    case Some(e) =>
      match e.terms
      case None => None
      case Some(groups) => if |groups| == 0 then None else Some(groups[0])
  }

  /** The primary category: the first term of the first term group whose taxonomy is "category". */
  function PrimaryCategory(post: Post): (c: Option<Term>)
    ensures c.Some? ==> c.value.taxonomy == "category"
    ensures c.Some? ==> FirstTermGroup(post).Some? && c.value in FirstTermGroup(post).value
    ensures c.Some? ==> var g := FirstTermGroup(post).value;
      exists k :: 0 <= k < |g| && g[k] == c.value && forall j :: 0 <= j < k ==> g[j].taxonomy != "category"
    ensures c.None? <==>
      FirstTermGroup(post).None? ||
      forall t :: t in FirstTermGroup(post).value ==> t.taxonomy != "category"
  {
    match FirstTermGroup(post)
    case None => None
    case Some(group) =>
      match FindCategory(group)
      case None => None
      case Some(k) => Some(group[k])
  }

  /** The badge text: the primary category's name when it is not empty, else "Uncategorized". */
  function CategoryLabel(post: Post): (badge: string)
    ensures badge != ""
    ensures badge != Uncategorized ==> PrimaryCategory(post).Some? && PrimaryCategory(post).value.name == badge
    ensures PrimaryCategory(post).Some? && PrimaryCategory(post).value.name != "" ==> badge == PrimaryCategory(post).value.name
    ensures PrimaryCategory(post).None? ==> badge == Uncategorized
  {
    match PrimaryCategory(post)
    case Some(t) => if t.name != "" then t.name else Uncategorized
    case None => Uncategorized
  }

  /** Position of the first '>' in s. */
  function IndexOfClose(s: string): (r: Option<nat>)
    ensures r.Some? ==> r.value < |s| && s[r.value] == '>' && '>' !in s[..r.value]
    ensures r.None? ==> '>' !in s
  {
    if |s| == 0 then None
    else if s[0] == '>' then Some(0)
    else
      match IndexOfClose(s[1..])
      case None => None
      case Some(k) =>
        assert s[..k + 1] == [s[0]] + s[1..][..k];
        Some(k + 1)
  }

  /**
   * `s.replace(/<[^>]*>/g, '')`: scanning left to right, a '<' that has a '>' somewhere after it
   * starts a match running to the first such '>', and the match is removed; a '<' with no '>'
   * after it is kept, as is every other character.
   */
  function StripTags(s: string): (r: string)
    ensures |r| <= |s|
    ensures forall c :: c in r ==> c in s
    decreases |s|
  {
    if |s| == 0 then ""
    else if s[0] == '<' then
      match IndexOfClose(s[1..])
      case Some(k) => StripTags(s[k + 2..])
      case None => [s[0]] + StripTags(s[1..])
    else [s[0]] + StripTags(s[1..])
  }

  /** s still holds something the tag pattern matches: a '<' followed, anywhere later, by a '>'. */
  ghost predicate HasTag(s: string)
  {
    exists i, j :: 0 <= i < j < |s| && s[i] == '<' && s[j] == '>'
  }

  /** After stripping, no '<' is followed later by a '>'. */
  lemma {:induction false} StripTagsLeavesNoTag(s: string)
    ensures !HasTag(StripTags(s))
    decreases |s|
  {
    if |s| == 0 {
    } else if s[0] == '<' {
      match IndexOfClose(s[1..])
      case Some(k) =>
        StripTagsLeavesNoTag(s[k + 2..]);
      case None =>
        var rest := StripTags(s[1..]);
        assert '>' !in rest;
        assert StripTags(s) == [s[0]] + rest;
        assert '>' !in StripTags(s);
    } else {
      var rest := StripTags(s[1..]);
      StripTagsLeavesNoTag(s[1..]);
      var r := [s[0]] + rest;
      assert StripTags(s) == r;
      forall i, j | 0 <= i < j < |r| && r[i] == '<'
        ensures r[j] != '>'
      {
        assert i > 0;
        assert rest[i - 1] == '<';
        assert r[j] == rest[j - 1];
      }
    }
  }

  /** Text in which the pattern matches nothing is returned unchanged. */
  lemma {:induction false} StripTagsFixesTagFree(s: string)
    requires !HasTag(s)
    ensures StripTags(s) == s
    decreases |s|
  {
    if |s| > 0 {
      forall i, j | 0 <= i < j < |s| - 1 && s[1..][i] == '<'
        ensures s[1..][j] != '>'
      {
        assert s[i + 1] == '<';
      }
      if s[0] == '<' {
        forall k | 0 <= k < |s| - 1
          ensures s[1..][k] != '>'
        {
          assert s[k + 1] == s[1..][k];
        }
      }
      StripTagsFixesTagFree(s[1..]);
      assert s == [s[0]] + s[1..];
    }
  }

  /** Stripping twice is stripping once. */
  lemma StripTagsIdempotent(s: string)
    ensures StripTags(StripTags(s)) == StripTags(s)
  {
    StripTagsLeavesNoTag(s);
    StripTagsFixesTagFree(StripTags(s));
  }

  /** Text with no '<' at all is returned unchanged. */
  lemma StripTagsKeepsPlainText(s: string)
    requires '<' !in s
    ensures StripTags(s) == s
  {
    forall i | 0 <= i < |s|
      ensures s[i] != '<'
    {
      assert s[i] in s;
    }
    StripTagsFixesTagFree(s);
  }

  /** Text before the first '<' is kept as it is, in front of what the rest strips to. */
  lemma {:induction false} StripTagsKeepsPlainPrefix(t: string, s: string)
    requires '<' !in t
    ensures StripTags(t + s) == t + StripTags(s)
    decreases |t|
  {
    if |t| == 0 {
      assert t + s == s;
    } else {
      assert t[0] in t;
      assert (t + s)[0] == t[0] && (t + s)[1..] == t[1..] + s;
      assert '<' !in t[1..] by {
        forall i | 0 <= i < |t[1..]|
          ensures t[1..][i] != '<'
        {
          assert t[1..][i] == t[i + 1] && t[i + 1] in t;
        }
      }
      StripTagsKeepsPlainPrefix(t[1..], s);
      assert t == [t[0]] + t[1..];
    }
  }

  /** The first '>' after a '<' closes the tag: the whole tag goes, and stripping continues after it. */
  lemma StripTagsDropsLeadingTag(m: string, s: string)
    requires '>' !in m
    ensures StripTags("<" + m + ">" + s) == StripTags(s)
  {
    var x := "<" + m + ">" + s;
    var y := m + ">" + s;
    assert x[0] == '<' && x[1..] == y;
    assert y[|m|] == '>';
    assert y[|m|] in y;
    var r := IndexOfClose(y);
    assert r.Some?;
    assert r.value == |m| by {
      assert y[..|m|] == m;
      assert r.value >= |m| by {
        forall i | 0 <= i < |m|
          ensures y[i] != '>'
        {
          assert y[i] == m[i] && m[i] in m;
        }
      }
      assert r.value <= |m| by {
        forall i | |m| < i <= |y|
          ensures y[|m|] in y[..i]
        {
          assert y[..i][|m|] == y[|m|];
        }
      }
    }
    assert x[|m| + 2..] == s;
  }

  /** What one card shows (the publication date is not modelled). */
  datatype Card = Card(href: string, image: string, category: string, title: string, excerpt: string)

  /** The card of a post, as the card, related-posts and slider views compute it. */
  function CardOf(post: Post): (card: Card)
    ensures |card.href| >= |BlogPrefix| && card.href[..|BlogPrefix|] == BlogPrefix && card.href[|BlogPrefix|..] == post.slug
    ensures card.image == FeaturedImage(post) && card.image != ""
    ensures card.category == CategoryLabel(post) && card.category != ""
    ensures card.title == post.title
    ensures card.excerpt == StripTags(post.excerpt)
    ensures |card.excerpt| <= |post.excerpt| && !HasTag(card.excerpt)
  {
    StripTagsLeavesNoTag(post.excerpt);
    Card(BlogPrefix + post.slug, FeaturedImage(post), CategoryLabel(post), post.title, StripTags(post.excerpt))
  }
}
