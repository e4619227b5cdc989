/** The article data the narrator reads: the segment list that `showArticle`
    builds, the card filter of `renderArticleCards` and `collectAllTags`. */
module Articles {
  import opened Wrappers

  /** One content block of an article; only paragraphs and headings are spoken. */
  datatype Block = Block(kind: string, text: string)

  datatype Profile = Profile(name: string, title: string, description: string)

  /** An entry of the article catalogue. `tags`, `content` and `profile` may be
      absent in the data, which the script tests with JavaScript truthiness. */
  datatype Article = Article(
    id: int,
    category: string,
    tags: Option<seq<string>>,
    content: Option<seq<Block>>,
    profile: Option<Profile>)

  /** An entry of `articleTexts`: what to say, how, and which element to highlight. */
  datatype Segment = Segment(kind: string, text: string, index: nat)

  const PlaceholderText: string := "この記事は現在準備中です。近日公開予定です。"

  predicate IsSpoken(b: Block) {
    b.kind == "paragraph" || b.kind == "heading"
  }

  predicate StrictlyIncreasing(segments: seq<Segment>) {
    forall j, k :: 0 <= j < k < |segments| ==> segments[j].index < segments[k].index
  }

  // ---------------------------------------------------------------------------
  // Segments

  /** `s` is the segment pushed for block `s.index`. */
  predicate SegmentOfBlock(blocks: seq<Block>, s: Segment) {
    s.index < |blocks| && IsSpoken(blocks[s.index])
    && s == Segment(blocks[s.index].kind, blocks[s.index].text, s.index)
  }

  function BlockSegment(blocks: seq<Block>, i: nat): Segment
    requires i < |blocks|
  {
    Segment(blocks[i].kind, blocks[i].text, i)
  }

  /** The pushes of the `forEach` over `content`, from block `from` on. */
  function BlockSegments(blocks: seq<Block>, from: nat): (r: seq<Segment>)
    requires from <= |blocks|
    ensures forall j :: 0 <= j < |r| ==> from <= r[j].index && SegmentOfBlock(blocks, r[j])
    ensures StrictlyIncreasing(r)
    ensures forall i :: from <= i < |blocks| && IsSpoken(blocks[i]) ==> BlockSegment(blocks, i) in r
    decreases |blocks| - from
  {
    if from == |blocks| then []
    else
      var rest := BlockSegments(blocks, from + 1);
      if IsSpoken(blocks[from]) then [BlockSegment(blocks, from)] + rest else rest
  }

  /** The segment read after the content: `プロフィール。name。title。description`. */
  function ProfileSegment(p: Profile, index: nat): Segment {
    Segment("profile", "プロフィール。" + p.name + "。" + p.title + "。" + p.description, index)
  }

  /** `articleTexts` as `showArticle` leaves it. An absent `content` gives one
      placeholder paragraph; a present one (even an empty list, which is truthy)
      gives its spoken blocks and then the profile, at index `content.length`. */
  function BuildSegments(a: Article): (r: seq<Segment>)
    ensures StrictlyIncreasing(r)
    ensures a.content.None? ==> r == [Segment("paragraph", PlaceholderText, 0)]
    ensures a.content.Some? && a.profile.Some? ==>
              |r| > 0 && r[|r| - 1] == ProfileSegment(a.profile.value, |a.content.value|)
  {
    match a.content
    case None => [Segment("paragraph", PlaceholderText, 0)]
    case Some(blocks) =>
      var spoken := BlockSegments(blocks, 0);
      match a.profile
      case None => spoken
      case Some(p) => spoken + [ProfileSegment(p, |blocks|)]
  }

  /** With content present, the segments are exactly the paragraph and heading
      blocks, in source order and tagged with their block index, followed by the
      profile segment when there is a profile. */
  lemma ContentSegments(a: Article)
    requires a.content.Some?
    ensures var blocks := a.content.value;
            var r := BuildSegments(a);
            var n := if a.profile.Some? then |r| - 1 else |r|;
            0 <= n
            && (forall j :: 0 <= j < n ==> SegmentOfBlock(blocks, r[j]))
            && (forall i :: 0 <= i < |blocks| && IsSpoken(blocks[i]) ==> BlockSegment(blocks, i) in r[..n])
  {
    var blocks := a.content.value;
    var spoken := BlockSegments(blocks, 0);
    var r := BuildSegments(a);
    assert r[..|spoken|] == spoken;
  }

  // ---------------------------------------------------------------------------
  // Finding the article to show

  /** `articles.find(a => a.id === articleId)`. */
  function FindArticle(articles: seq<Article>, id: int): (r: Option<Article>)
    ensures r.Some? ==> r.value.id == id
                        && exists i :: 0 <= i < |articles| && articles[i] == r.value
                                       && forall j :: 0 <= j < i ==> articles[j].id != id
    ensures r.None? <==> forall j :: 0 <= j < |articles| ==> articles[j].id != id
  {
    if articles == [] then None
    else if articles[0].id == id then Some(articles[0])
    else
      var r := FindArticle(articles[1..], id);
      assert forall j :: 1 <= j < |articles| ==> articles[j] == articles[1..][j - 1];
      r
  }

  // ---------------------------------------------------------------------------
  // Cards and tags

  predicate HasTag(a: Article, tag: string) {
    a.tags.Some? && tag in a.tags.value
  }

  /** The visibility test of a card for the current category and tag filters. */
  predicate CardVisible(a: Article, category: string, tag: string) {
    (category == "all" || a.category == category) && (tag == "all" || HasTag(a, tag))
  }

  /** The articles `renderArticleCards` renders, in catalogue order. */
  function VisibleArticles(articles: seq<Article>, category: string, tag: string): (r: seq<Article>)
    ensures |r| <= |articles|
    ensures forall a :: a in r <==> a in articles && CardVisible(a, category, tag)
  {
    if articles == [] then []
    else
      var rest := VisibleArticles(articles[1..], category, tag);
      assert forall a :: a in articles <==> a == articles[0] || a in articles[1..];
      if CardVisible(articles[0], category, tag) then [articles[0]] + rest else rest
  }

  /** The filter works piece by piece: the cards of a concatenated catalogue
      are the cards of its parts, in order. */
  lemma {:induction false} VisibleArticlesAppend(a: seq<Article>, b: seq<Article>, category: string, tag: string)
    ensures VisibleArticles(a + b, category, tag) == VisibleArticles(a, category, tag) + VisibleArticles(b, category, tag)
  {
    if a == [] {
      assert a + b == b;
    } else {
      assert (a + b)[0] == a[0] && (a + b)[1..] == a[1..] + b;
      VisibleArticlesAppend(a[1..], b, category, tag);
    }
  }

  /** Each article keeps its place: it is rendered, once and between the cards
      of the articles around it, exactly when it passes the filters. */
  lemma VisibleArticlesAt(before: seq<Article>, a: Article, after: seq<Article>, category: string, tag: string)
    ensures VisibleArticles(before + [a] + after, category, tag)
         == VisibleArticles(before, category, tag)
            + (if CardVisible(a, category, tag) then [a] else [])
            + VisibleArticles(after, category, tag)
  {
    VisibleArticlesAppend(before + [a], after, category, tag);
    VisibleArticlesAppend(before, [a], category, tag);
    assert VisibleArticles([a], category, tag) == (if CardVisible(a, category, tag) then [a] else []) by {
      assert [a][1..] == [];
    }
  }

  /** With both filters at "all", every card is shown, in catalogue order. */
  lemma {:induction false} NoFilterShowsAll(articles: seq<Article>)
    ensures VisibleArticles(articles, "all", "all") == articles
  {
    if articles != [] {
      NoFilterShowsAll(articles[1..]);
      assert articles == [articles[0]] + articles[1..];
    }
  }

  /** `collectAllTags`: the union of the tags of all articles. */
  function CollectAllTags(articles: seq<Article>): (r: set<string>)
    ensures forall t :: t in r <==> exists i :: 0 <= i < |articles| && HasTag(articles[i], t)
  {
    if articles == [] then {}
    else
      var own := match articles[0].tags case Some(ts) => set t | t in ts case None => {};
      var rest := CollectAllTags(articles[1..]);
      assert forall i :: 1 <= i < |articles| ==> articles[i] == articles[1..][i - 1];
      own + rest
  }

  /** A tag offered by the tag filter never leaves the grid empty when the
      category filter is "all", and every tag that shows a card is offered. */
  lemma OfferedTagsShowCards(articles: seq<Article>, tag: string)
    ensures tag in CollectAllTags(articles) ==> VisibleArticles(articles, "all", tag) != []
    ensures tag != "all" && VisibleArticles(articles, "all", tag) != [] ==> tag in CollectAllTags(articles)
  {
    var shown := VisibleArticles(articles, "all", tag);
    if tag in CollectAllTags(articles) {
      var i :| 0 <= i < |articles| && HasTag(articles[i], tag);
      assert articles[i] in shown;
    }
    if tag != "all" && shown != [] {
      assert shown[0] in shown;
      var i :| 0 <= i < |articles| && articles[i] == shown[0];
      assert HasTag(articles[i], tag);
    }
  }
}
