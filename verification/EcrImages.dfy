/** Listing the images of an ECR repository: internal/registry/registry.go.  The image IDs are listed
    page by page, described in chunks of 100 by concurrent goroutines, and reduced to one image a tag. */
module EcrImages {
  import opened FiniteSets
  import opened Folds
  import opened Options

  const CHUNK: nat := 100

  datatype ImageID = ImageID(tag: Option<string>, digest: string)

  /** What ECR describes an image by. */
  datatype Detail = Detail(digest: string, tags: seq<string>, pushedAt: int)

  datatype Image = Image(digest: string, tag: string, repository: string, pushedAt: int)

  /** ListImages, page by page: every page but the last comes with a token for the next. */
  datatype Page = Page(ids: seq<ImageID>, ok: bool)

  /** DescribeImages for a chunk; None if the call fails. */
  type Describe = seq<ImageID> -> Option<seq<Detail>>

  // ---- Chunks --------------------------------------------------------------------------------

  function ChunkCount(ids: seq<ImageID>): nat { (|ids| + CHUNK - 1) / CHUNK }

  function Chunk(ids: seq<ImageID>, c: nat): seq<ImageID>
    requires c < ChunkCount(ids)
  {
    ids[c * CHUNK..if (c + 1) * CHUNK > |ids| then |ids| else (c + 1) * CHUNK]
  }

  ghost function ChunksFrom(ids: seq<ImageID>, c: nat): seq<ImageID>
    requires c <= ChunkCount(ids)
    decreases ChunkCount(ids) - c
  {
    if c == ChunkCount(ids) then [] else Chunk(ids, c) + ChunksFrom(ids, c + 1)
  }

  lemma {:induction false} ChunksSuffix(ids: seq<ImageID>, c: nat)
    requires c <= ChunkCount(ids)
    ensures ChunksFrom(ids, c) == if c * CHUNK <= |ids| then ids[c * CHUNK..] else []
    ensures forall k :: c <= k < ChunkCount(ids) ==> 1 <= |Chunk(ids, k)| <= CHUNK
    decreases ChunkCount(ids) - c
  {
    if c < ChunkCount(ids) {
      ChunksSuffix(ids, c + 1);
    }
  }

  /** The chunks cut the list into non-empty pieces of 100, the last one of at most 100, without omission
      or repeat. */
  lemma ChunksPartition(ids: seq<ImageID>)
    ensures ChunksFrom(ids, 0) == ids
    ensures forall k :: 0 <= k < ChunkCount(ids) ==> 1 <= |Chunk(ids, k)| <= 100
    ensures forall k :: 0 <= k < ChunkCount(ids) - 1 ==> |Chunk(ids, k)| == 100
  {
    ChunksSuffix(ids, 0);
  }

  // ---- The goroutines ------------------------------------------------------------------------

  /** What one goroutine appends under the mutex: nothing if its call fails. */
  function Described(ids: seq<ImageID>, describe: Describe, c: nat): seq<Detail> {
    if c < ChunkCount(ids) && describe(Chunk(ids, c)).Some? then describe(Chunk(ids, c)).value else []
  }

  /** The details after the goroutines have taken the mutex in this order. */
  function Merged(ids: seq<ImageID>, describe: Describe, order: seq<nat>): seq<Detail> {
    if order == [] then [] else Described(ids, describe, order[0]) + Merged(ids, describe, order[1..])
  }

  ghost predicate IsOrder(order: seq<nat>, n: nat) {
    && |order| == n
    && (forall i :: 0 <= i < n ==> order[i] < n)
    && (forall i, j :: 0 <= i < j < n ==> order[i] != order[j])
  }

  // ---- One image a tag -----------------------------------------------------------------------

  function ToImage(d: Detail, tag: string, repo: string): Image { Image(d.digest, tag, repo, d.pushedAt) }

  /** The tags of the details, one after another, each with its image. */
  function TagsOf(d: Detail, repo: string): seq<Image> {
    seq(|d.tags|, i requires 0 <= i < |d.tags| => ToImage(d, d.tags[i], repo))
  }

  function Tagged(details: seq<Detail>, repo: string): seq<Image> {
    if details == [] then [] else Tagged(details[..|details| - 1], repo) + TagsOf(details[|details| - 1], repo)
  }

  /** The first image of each tag. */
  function FirstByTag(images: seq<Image>): map<string, Image> {
    if images == [] then map[]
    else
      var m, last := FirstByTag(images[..|images| - 1]), images[|images| - 1];
      if last.tag in m then m else m[last.tag := last]
  }

  lemma {:induction false} TaggedConcat(a: seq<Detail>, b: seq<Detail>, repo: string)
    ensures Tagged(a + b, repo) == Tagged(a, repo) + Tagged(b, repo)
  {
    if b == [] {
      assert a + b == a;
    } else {
      assert (a + b)[..|a + b| - 1] == a + b[..|b| - 1];
      TaggedConcat(a, b[..|b| - 1], repo);
    }
  }

  lemma {:induction false} FirstConcat(a: seq<Image>, b: seq<Image>)
    ensures FirstByTag(a + b) == FirstByTag(b) + FirstByTag(a)
  {
    if b == [] {
      assert a + b == a;
    } else {
      assert (a + b)[..|a + b| - 1] == a + b[..|b| - 1];
      FirstConcat(a, b[..|b| - 1]);
    }
  }

  lemma {:induction false} FirstMeaning(images: seq<Image>, tag: string)
    ensures tag in FirstByTag(images) <==> exists i :: 0 <= i < |images| && images[i].tag == tag
    ensures tag in FirstByTag(images) ==>
      exists i :: 0 <= i < |images| && images[i] == FirstByTag(images)[tag] && images[i].tag == tag &&
        forall j :: 0 <= j < i ==> images[j].tag != tag
  {
    if images != [] {
      var before := images[..|images| - 1];
      FirstMeaning(before, tag);
      assert tag in FirstByTag(images) <==> tag in FirstByTag(before) || tag == images[|before|].tag;
      assert tag in FirstByTag(images) ==>
          FirstByTag(images)[tag] == if tag in FirstByTag(before) then FirstByTag(before)[tag] else images[|before|];
      hide FirstByTag;
      assert forall i :: 0 <= i < |before| ==> images[i] == before[i];
      if tag in FirstByTag(before) {
        var i :| 0 <= i < |before| && before[i] == FirstByTag(before)[tag] && before[i].tag == tag &&
          forall j :: 0 <= j < i ==> before[j].tag != tag;
        assert images[i] == before[i];
      }
    }
  }

  /** What one goroutine's details alone would give. */
  function ChunkTags(ids: seq<ImageID>, describe: Describe, repo: string, c: nat): map<string, Image> {
    FirstByTag(Tagged(Described(ids, describe, c), repo))
  }

  /** The result for one order of the goroutines. */
  function ResultFor(ids: seq<ImageID>, describe: Describe, repo: string, order: seq<nat>): map<string, Image> {
    FirstByTag(Tagged(Merged(ids, describe, order), repo))
  }

  /** The earliest goroutine that has a tag decides its image. */
  lemma {:induction false} ResultMeaning(ids: seq<ImageID>, describe: Describe, repo: string, order: seq<nat>,
                                         tag: string)
    ensures tag in ResultFor(ids, describe, repo, order) <==>
            exists i :: 0 <= i < |order| && tag in ChunkTags(ids, describe, repo, order[i])
    ensures tag in ResultFor(ids, describe, repo, order) ==>
            exists i :: 0 <= i < |order| && tag in ChunkTags(ids, describe, repo, order[i]) &&
              ResultFor(ids, describe, repo, order)[tag] == ChunkTags(ids, describe, repo, order[i])[tag]
    ensures order != [] && tag in ChunkTags(ids, describe, repo, order[0]) ==>
            tag in ResultFor(ids, describe, repo, order) &&
            ResultFor(ids, describe, repo, order)[tag] == ChunkTags(ids, describe, repo, order[0])[tag]
  {
    if order != [] {
      ResultMeaning(ids, describe, repo, order[1..], tag);
      ResultSplit(ids, describe, repo, order);
      hide ResultFor, ChunkTags;
      if i :| 0 <= i < |order[1..]| && tag in ChunkTags(ids, describe, repo, order[1..][i]) {
        assert order[1..][i] == order[i + 1];
      }
      if i :| 1 <= i < |order| && tag in ChunkTags(ids, describe, repo, order[i]) {
        assert order[1..][i - 1] == order[i];
      }
    }
  }

  /** The first goroutine's images take precedence over the later ones'. */
  lemma ResultSplit(ids: seq<ImageID>, describe: Describe, repo: string, order: seq<nat>)
    requires order != []
    ensures ResultFor(ids, describe, repo, order) ==
            ResultFor(ids, describe, repo, order[1..]) + ChunkTags(ids, describe, repo, order[0])
  {
    var first, rest := Described(ids, describe, order[0]), Merged(ids, describe, order[1..]);
    TaggedConcat(first, rest, repo);
    FirstConcat(Tagged(first, repo), Tagged(rest, repo));
  }

  // ---- The result in terms of the answers ----------------------------------------------------

  /** The image is what the detail says of the tag. */
  ghost predicate IsImageOf(image: Image, d: Detail, tag: string, repo: string) {
    && tag in d.tags && image.tag == tag && image.digest == d.digest && image.pushedAt == d.pushedAt
    && image.repository == repo
  }

  lemma {:induction false} TaggedMeaning(details: seq<Detail>, repo: string, image: Image)
    ensures image in Tagged(details, repo) <==>
            exists k :: 0 <= k < |details| && IsImageOf(image, details[k], image.tag, repo)
  {
    if details != [] {
      var n := |details| - 1;
      hide *;
      TaggedMeaning(details[..n], repo, image);
      OneTagged(details[n], repo, image);
      TaggedOneMore(details, repo, image);
      assert forall k :: 0 <= k < n ==> details[..n][k] == details[k];
    }
  }

  lemma TaggedOneMore(details: seq<Detail>, repo: string, image: Image)
    requires details != []
    ensures image in Tagged(details, repo) <==>
            image in Tagged(details[..|details| - 1], repo) || image in TagsOf(details[|details| - 1], repo)
  {
  }

  lemma OneTagged(d: Detail, repo: string, image: Image)
    ensures image in TagsOf(d, repo) <==> IsImageOf(image, d, image.tag, repo)
  {
    if IsImageOf(image, d, image.tag, repo) {
      var i :| 0 <= i < |d.tags| && d.tags[i] == image.tag;
      assert TagsOf(d, repo)[i] == image;
    }
  }

  /** Some of these details has the tag. */
  ghost predicate HasTag(details: seq<Detail>, tag: string) {
    exists k :: 0 <= k < |details| && tag in details[k].tags
  }

  /** The image is what some of these details says of the tag. */
  ghost predicate SaysImage(details: seq<Detail>, image: Image, tag: string, repo: string) {
    exists k :: 0 <= k < |details| && IsImageOf(image, details[k], tag, repo)
  }

  /** The dedup map has exactly the tags of the details, each with what one of the details says of it. */
  lemma FirstOfDetails(details: seq<Detail>, repo: string, tag: string)
    ensures tag in FirstByTag(Tagged(details, repo)) <==> HasTag(details, tag)
    ensures tag in FirstByTag(Tagged(details, repo)) ==>
            SaysImage(details, FirstByTag(Tagged(details, repo))[tag], tag, repo)
  {
    var images := Tagged(details, repo);
    FirstMeaning(images, tag);
    hide FirstByTag, Tagged;
    if i :| 0 <= i < |images| && images[i].tag == tag {
      TaggedMeaning(details, repo, images[i]);
    }
    if k :| 0 <= k < |details| && tag in details[k].tags {
      var image := ToImage(details[k], tag, repo);
      assert IsImageOf(image, details[k], image.tag, repo);
      TaggedMeaning(details, repo, image);
    }
    if tag in FirstByTag(images) {
      TaggedMeaning(details, repo, FirstByTag(images)[tag]);
    }
  }

  /** A chunk's describe call succeeds with an answer that has the tag. */
  ghost predicate Answers(ids: seq<ImageID>, describe: Describe, c: nat, tag: string) {
    c < ChunkCount(ids) && describe(Chunk(ids, c)).Some? && HasTag(describe(Chunk(ids, c)).value, tag)
  }

  /** The image is what the answer to some chunk says of the tag. */
  ghost predicate AnswerSays(ids: seq<ImageID>, describe: Describe, image: Image, tag: string, repo: string) {
    exists c: nat :: Answers(ids, describe, c, tag) && SaysImage(describe(Chunk(ids, c)).value, image, tag, repo)
  }

  /** The images of a list are those of the answers to its chunks, whatever the interleaving: it has a tag
      exactly if some successful chunk's answer has it, and the image is what one of them says of it. */
  lemma ResultOfAnswers(ids: seq<ImageID>, describe: Describe, repo: string, order: seq<nat>, tag: string)
    requires IsOrder(order, ChunkCount(ids))
    ensures tag in ResultFor(ids, describe, repo, order) <==> exists c: nat :: Answers(ids, describe, c, tag)
    ensures tag in ResultFor(ids, describe, repo, order) ==>
            AnswerSays(ids, describe, ResultFor(ids, describe, repo, order)[tag], tag, repo)
  {
    hide FirstByTag, Tagged, ResultFor, HasTag, SaysImage, Chunk;
    TagsIndependent(ids, describe, repo, order, tag);
    ResultMeaning(ids, describe, repo, order, tag);
    forall c: nat
      ensures c < ChunkCount(ids) && tag in ChunkTags(ids, describe, repo, c) <==> Answers(ids, describe, c, tag)
      ensures c < ChunkCount(ids) && tag in ChunkTags(ids, describe, repo, c) ==>
        SaysImage(Described(ids, describe, c), ChunkTags(ids, describe, repo, c)[tag], tag, repo)
    {
      FirstOfDetails(Described(ids, describe, c), repo, tag);
      NoTagOfNothing(tag);
    }
  }

  lemma NoTagOfNothing(tag: string)
    ensures !HasTag([], tag)
  {
  }

  function DetailsOf(ids: seq<ImageID>, describe: Describe, c: nat): multiset<Detail> {
    multiset(Described(ids, describe, c))
  }

  lemma {:induction false} MergedIsGathered(ids: seq<ImageID>, describe: Describe, order: seq<nat>)
    ensures multiset(Merged(ids, describe, order)) == Gather(order, c => DetailsOf(ids, describe, c))
  {
    if order != [] {
      MergedIsGathered(ids, describe, order[1..]);
    }
  }

  lemma {:induction false} OrdersPermuted(a: seq<nat>, n: nat, v: nat)
    requires forall i :: 0 <= i < |a| ==> a[i] < n
    requires forall i, j :: 0 <= i < j < |a| ==> a[i] != a[j]
    ensures multiset(a)[v] <= 1 && (v in a <==> multiset(a)[v] == 1)
  {
    if a != [] {
      assert a == [a[0]] + a[1..];
      OrdersPermuted(a[1..], n, v);
      if v == a[0] { assert v !in a[1..]; }
    }
  }

  lemma {:induction false} OrderCovers(a: seq<nat>, n: nat, v: nat)
    requires IsOrder(a, n) && v < n
    ensures v in a
  {
    if v !in a {
      var elements := Elements(a);
      assert elements <= Below(n) - {v};
      SubsetCount(elements, Below(n) - {v});
    }
  }

  /** Whatever the interleaving, the merged details are a permutation of all successful chunks' results. */
  lemma MergeIsPermutation(ids: seq<ImageID>, describe: Describe, a: seq<nat>, b: seq<nat>)
    requires IsOrder(a, ChunkCount(ids)) && IsOrder(b, ChunkCount(ids))
    ensures multiset(Merged(ids, describe, a)) == multiset(Merged(ids, describe, b))
  {
    var n := ChunkCount(ids);
    forall v ensures multiset(a)[v] == multiset(b)[v] {
      OrdersPermuted(a, n, v);
      OrdersPermuted(b, n, v);
      if v < n {
        OrderCovers(a, n, v);
        OrderCovers(b, n, v);
      }
    }
    assert multiset(a) == multiset(b);
    MergedIsGathered(ids, describe, a);
    MergedIsGathered(ids, describe, b);
    GatherPermuted(a, b, c => DetailsOf(ids, describe, c));
  }

  /** The tags listed do not depend on the interleaving. */
  lemma TagsIndependent(ids: seq<ImageID>, describe: Describe, repo: string, order: seq<nat>, tag: string)
    requires IsOrder(order, ChunkCount(ids))
    ensures tag in ResultFor(ids, describe, repo, order) <==>
            exists c: nat :: c < ChunkCount(ids) && tag in ChunkTags(ids, describe, repo, c)
  {
    ResultMeaning(ids, describe, repo, order, tag);
    if c: nat :| c < ChunkCount(ids) && tag in ChunkTags(ids, describe, repo, c) {
      OrderCovers(order, ChunkCount(ids), c);
      var i :| 0 <= i < |order| && order[i] == c;
    }
  }

  /** Two chunks that both have a tag have the same image for it. */
  ghost predicate ChunksAgree(ids: seq<ImageID>, describe: Describe, repo: string) {
    forall a: nat, b: nat, tag | a < ChunkCount(ids) && b < ChunkCount(ids) &&
        tag in ChunkTags(ids, describe, repo, a) && tag in ChunkTags(ids, describe, repo, b) ::
      ChunkTags(ids, describe, repo, a)[tag] == ChunkTags(ids, describe, repo, b)[tag]
  }

  /** The order in which the goroutines are started. */
  function InOrder(n: nat): (order: seq<nat>)
    ensures IsOrder(order, n)
  {
    seq(n, i requires 0 <= i < n => i)
  }

  /** Some order in which goroutine c is first. */
  function StartingWith(c: nat, n: nat): (order: seq<nat>)
    requires c < n
    ensures IsOrder(order, n) && order[0] == c
  {
    seq(n, i requires 0 <= i < n => if i == 0 then c else if i <= c then i - 1 else i)
  }

  /** The images themselves are independent of the interleaving exactly when the chunks agree on the
      tags they share. */
  lemma ImagesIndependentIff(ids: seq<ImageID>, describe: Describe, repo: string)
    ensures (forall a, b :: IsOrder(a, ChunkCount(ids)) && IsOrder(b, ChunkCount(ids)) ==>
              ResultFor(ids, describe, repo, a) == ResultFor(ids, describe, repo, b))
            <==> ChunksAgree(ids, describe, repo)
  {
    if ChunksAgree(ids, describe, repo) {
      forall a, b | IsOrder(a, ChunkCount(ids)) && IsOrder(b, ChunkCount(ids))
        ensures ResultFor(ids, describe, repo, a) == ResultFor(ids, describe, repo, b)
      {
        AgreeingOrders(ids, describe, repo, a, b);
      }
    } else {
      var n := ChunkCount(ids);
      var a: nat, b: nat, tag :| a < n && b < n &&
        tag in ChunkTags(ids, describe, repo, a) && tag in ChunkTags(ids, describe, repo, b) &&
        ChunkTags(ids, describe, repo, a)[tag] != ChunkTags(ids, describe, repo, b)[tag];
      ResultMeaning(ids, describe, repo, StartingWith(a, n), tag);
      ResultMeaning(ids, describe, repo, StartingWith(b, n), tag);
    }
  }

  lemma AgreeingOrders(ids: seq<ImageID>, describe: Describe, repo: string, a: seq<nat>, b: seq<nat>)
    requires ChunksAgree(ids, describe, repo) && IsOrder(a, ChunkCount(ids)) && IsOrder(b, ChunkCount(ids))
    ensures ResultFor(ids, describe, repo, a) == ResultFor(ids, describe, repo, b)
  {
    hide ResultFor, ChunkTags;
    var r, q := ResultFor(ids, describe, repo, a), ResultFor(ids, describe, repo, b);
    forall tag ensures (tag in r <==> tag in q) && (tag in r ==> r[tag] == q[tag]) {
      TagsIndependent(ids, describe, repo, a, tag);
      TagsIndependent(ids, describe, repo, b, tag);
      ResultMeaning(ids, describe, repo, a, tag);
      ResultMeaning(ids, describe, repo, b, tag);
    }
    assert r.Keys == q.Keys;
  }

  /** Chunks do disagree when a tag is moved from one image to another between two goroutines' calls: if
      the answers for two chunks carry it with different digests, timing decides. */
  lemma TimingDecides(ids: seq<ImageID>, describe: Describe, repo: string, tag: string, a: Detail, b: Detail)
    requires ChunkCount(ids) >= 2 && a.tags == b.tags == [tag] && a.digest != b.digest
    requires describe(Chunk(ids, 0)) == Some([a]) && describe(Chunk(ids, 1)) == Some([b])
    ensures exists one, other :: IsOrder(one, ChunkCount(ids)) && IsOrder(other, ChunkCount(ids)) &&
              ResultFor(ids, describe, repo, one) != ResultFor(ids, describe, repo, other)
  {
    hide ResultFor, FirstByTag, Tagged, IsOrder, TagsOf;
    OneTag(a, repo);
    OneTag(b, repo);
    assert Described(ids, describe, 0) == [a] && Described(ids, describe, 1) == [b];
    assert tag in ChunkTags(ids, describe, repo, 0) && tag in ChunkTags(ids, describe, repo, 1);
    assert ChunkTags(ids, describe, repo, 0)[tag] != ChunkTags(ids, describe, repo, 1)[tag];
    assert !ChunksAgree(ids, describe, repo);
    hide ChunksAgree, ChunkTags, Described, Chunk;
    ImagesIndependentIff(ids, describe, repo);
  }

  lemma OneTag(d: Detail, repo: string)
    requires |d.tags| == 1
    ensures FirstByTag(Tagged([d], repo)) == map[d.tags[0] := ToImage(d, d.tags[0], repo)]
  {
    assert [d][..0] == [] && Tagged([d], repo) == [ToImage(d, d.tags[0], repo)];
    assert [ToImage(d, d.tags[0], repo)][..0] == [];
  }

  // ---- Listing all images --------------------------------------------------------------------

  /** The paging loop.  A first page without IDs ends it, token or not. */
  function ListAll(pages: seq<Page>): Option<seq<ImageID>>
    requires pages != []
  {
    if !pages[0].ok then None
    else if pages[0].ids == [] then Some([])
    else AllPages(pages)
  }

  function AllPages(pages: seq<Page>): Option<seq<ImageID>> {
    if pages == [] then Some([])
    else
      match AllPages(pages[..|pages| - 1])
      case Some(ids) => if pages[|pages| - 1].ok then Some(ids + pages[|pages| - 1].ids) else None
      case None => None
  }

  lemma {:induction false} FailedPage(pages: seq<Page>, n: nat)
    requires n <= |pages| && AllPages(pages[..n]).None?
    ensures AllPages(pages).None?
    decreases |pages|
  {
    if n < |pages| {
      assert pages[..|pages| - 1][..n] == pages[..n];
      FailedPage(pages[..|pages| - 1], n);
    } else {
      assert pages[..n] == pages;
    }
  }

  lemma AllPagesOneMore(before: seq<Page>, last: Page)
    ensures AllPages(before + [last]) ==
            if AllPages(before).Some? && last.ok then Some(AllPages(before).value + last.ids) else None
  {
    assert (before + [last])[..|before|] == before;
  }

  ghost predicate AllOk(pages: seq<Page>) { forall i :: 0 <= i < |pages| ==> pages[i].ok }

  ghost predicate AllEmpty(pages: seq<Page>) { forall i :: 0 <= i < |pages| ==> pages[i].ok && pages[i].ids == [] }

  lemma AllOneMore(before: seq<Page>, last: Page)
    ensures AllOk(before + [last]) <==> AllOk(before) && last.ok
    ensures AllEmpty(before + [last]) <==> AllEmpty(before) && last.ok && last.ids == []
  {
    var pages := before + [last];
    assert pages[|before|] == last && forall i :: 0 <= i < |before| ==> pages[i] == before[i];
  }

  lemma {:induction false} AllPagesMeaning(pages: seq<Page>)
    ensures AllPages(pages).Some? <==> AllOk(pages)
    ensures AllPages(pages) == Some([]) <==> AllEmpty(pages)
  {
    if pages != [] {
      var before, last := pages[..|pages| - 1], pages[|pages| - 1];
      assert pages == before + [last];
      hide AllPages, AllOk, AllEmpty;
      AllPagesMeaning(before);
      AllPagesOneMore(before, last);
      AllOneMore(before, last);
      assert AllPages(before).Some? ==> (AllPages(before).value + last.ids == [] <==>
                                           |AllPages(before).value| + |last.ids| == 0);
    }
  }

  /** How many IDs the first i pages have. */
  ghost function Offset(pages: seq<Page>, i: nat): nat
    requires i <= |pages|
  {
    if i == 0 then 0 else Offset(pages, i - 1) + |pages[i - 1].ids|
  }

  lemma {:induction false} OffsetOfPrefix(pages: seq<Page>, n: nat, i: nat)
    requires i <= n <= |pages|
    ensures Offset(pages[..n], i) == Offset(pages, i)
  {
    if i > 0 {
      OffsetOfPrefix(pages, n, i - 1);
    }
  }

  /** The IDs are those of the pages, one page after another. */
  lemma {:induction false} AllPagesInOrder(pages: seq<Page>, i: nat, j: nat)
    requires AllPages(pages).Some?
    ensures |AllPages(pages).value| == Offset(pages, |pages|)
    ensures i < |pages| && j < |pages[i].ids| ==>
      && Offset(pages, i) + j < |AllPages(pages).value|
      && AllPages(pages).value[Offset(pages, i) + j] == pages[i].ids[j]
  {
    if pages != [] {
      var n := |pages| - 1;
      AllPagesInOrder(pages[..n], i, j);
      OffsetOfPrefix(pages, n, n);
      if i < n { OffsetOfPrefix(pages, n, i); }
    }
  }

  /** Exactly when the listing is that of all pages: unless the first page has no IDs while a later one
      has some or cannot be read. */
  lemma ListsAllIff(pages: seq<Page>)
    requires pages != []
    ensures ListAll(pages) == AllPages(pages) <==>
            (pages[0].ok && pages[0].ids == [] ==>
               forall i :: 0 <= i < |pages| ==> pages[i].ok && pages[i].ids == [])
  {
    AllPagesMeaning(pages);
  }

  /** A listing that misses an image: its ID comes on the second page, and the first one has none. */
  lemma EmptyFirstPageHides(id: ImageID)
    ensures var pages := [Page([], true), Page([id], true)];
            ListAll(pages) == Some([]) && AllPages(pages) == Some([id])
  {
    var pages := [Page([], true), Page([id], true)];
    AllPagesMeaning(pages[..1]);
    assert AllPages(pages[..1]) == Some([]) && [] + [id] == [id];
  }

  /** The values of the map, in some order. */
  ghost predicate Enumerates(images: seq<Image>, m: map<string, Image>) {
    && (forall i :: 0 <= i < |images| ==> images[i].tag in m && m[images[i].tag] == images[i])
    && (forall tag :: tag in m ==> exists i :: 0 <= i < |images| && images[i].tag == tag)
    && (forall i, j :: 0 <= i < j < |images| ==> images[i].tag != images[j].tag)
  }

  /** The images are, one for each tag that some successful chunk's answer has, what such an answer says. */
  ghost predicate ListsAnswers(images: seq<Image>, ids: seq<ImageID>, describe: Describe, repo: string) {
    && (forall i :: 0 <= i < |images| ==> AnswerSays(ids, describe, images[i], images[i].tag, repo))
    && (forall c: nat, tag :: Answers(ids, describe, c, tag) ==> exists i :: 0 <= i < |images| && images[i].tag == tag)
    && (forall i, j :: 0 <= i < j < |images| ==> images[i].tag != images[j].tag)
  }

  lemma EnumerationLists(images: seq<Image>, ids: seq<ImageID>, describe: Describe, repo: string, order: seq<nat>)
    requires IsOrder(order, ChunkCount(ids)) && Enumerates(images, ResultFor(ids, describe, repo, order))
    ensures ListsAnswers(images, ids, describe, repo)
  {
    hide Answers, AnswerSays, ResultFor;
    forall i | 0 <= i < |images| ensures AnswerSays(ids, describe, images[i], images[i].tag, repo) {
      ResultOfAnswers(ids, describe, repo, order, images[i].tag);
    }
    forall c: nat, tag | Answers(ids, describe, c, tag) ensures tag in ResultFor(ids, describe, repo, order) {
      ResultOfAnswers(ids, describe, repo, order, tag);
    }
  }

  lemma {:induction false} FirstTagged(images: seq<Image>)
    ensures forall tag :: tag in FirstByTag(images) ==> FirstByTag(images)[tag].tag == tag
  {
    if images != [] {
      FirstTagged(images[..|images| - 1]);
    }
  }

  /** The goroutines, in whatever order they get the mutex. */
  method DescribeAll(ids: seq<ImageID>, describe: Describe) returns (details: seq<Detail>, ghost order: seq<nat>)
    ensures IsOrder(order, ChunkCount(ids)) && details == Merged(ids, describe, order)
    ensures multiset(details) == multiset(Merged(ids, describe, InOrder(ChunkCount(ids))))
  {
    details, order := [], [];
    var n := ChunkCount(ids);
    var running := Below(n);
    while running != {}
      invariant forall c :: c in running ==> c < n
      invariant |order| + |running| == n
      invariant forall i :: 0 <= i < |order| ==> order[i] < n && order[i] !in running
      invariant forall i, j :: 0 <= i < j < |order| ==> order[i] != order[j]
      invariant details == Merged(ids, describe, order)
      decreases running
    {
      var c :| c in running;
      running := running - {c};
      MergedOneMore(ids, describe, order, c);
      var response := describe(Chunk(ids, c));
      if response.Some? {
        details := details + response.value;
      }
      order := order + [c];
    }
    MergeIsPermutation(ids, describe, order, InOrder(n));
  }

  lemma {:induction false} MergedOneMore(ids: seq<ImageID>, describe: Describe, order: seq<nat>, c: nat)
    ensures Merged(ids, describe, order + [c]) == Merged(ids, describe, order) + Described(ids, describe, c)
  {
    if order == [] {
      assert [c][1..] == [];
    } else {
      assert (order + [c])[1..] == order[1..] + [c];
      MergedOneMore(ids, describe, order[1..], c);
    }
  }

  method Flatten(m: map<string, Image>) returns (images: seq<Image>)
    requires forall tag :: tag in m ==> m[tag].tag == tag
    ensures Enumerates(images, m)
  {
    images := [];
    var left := m.Keys;
    while left != {}
      invariant left <= m.Keys
      invariant forall i :: 0 <= i < |images| ==>
        images[i].tag in m && images[i].tag !in left && m[images[i].tag] == images[i]
      invariant forall tag :: tag in m && tag !in left ==> exists i :: 0 <= i < |images| && images[i].tag == tag
      invariant forall i, j :: 0 <= i < j < |images| ==> images[i].tag != images[j].tag
      decreases left
    {
      var tag :| tag in left;
      left := left - {tag};
      ghost var before := images;
      images := images + [m[tag]];
      forall t | t in m && t !in left ensures exists i :: 0 <= i < |images| && images[i].tag == t {
        if t == tag {
          assert images[|before|].tag == t;
        } else {
          var i :| 0 <= i < |before| && before[i].tag == t;
          assert images[i] == before[i];
        }
      }
    }
  }

  /** The paging loop, from a first page with IDs on. */
  method FetchIDs(pages: seq<Page>) returns (r: Option<seq<ImageID>>)
    requires pages != [] && pages[0].ok
    ensures r == AllPages(pages)
  {
    var ids := pages[0].ids;
    assert pages[..1][..0] == [] && AllPages(pages[..1][..0]) == Some([]) && [] + ids == ids;
    var next := 1;
    while next < |pages|
      invariant 1 <= next <= |pages| && AllPages(pages[..next]) == Some(ids)
    {
      assert pages[..next + 1][..next] == pages[..next];
      if !pages[next].ok {
        FailedPage(pages, next + 1);
        return None;
      }
      ids := ids + pages[next].ids;
      next := next + 1;
    }
    assert pages[..|pages|] == pages;
    return Some(ids);
  }

  /** The nested loops over the details and their tags. */
  method FirstImages(details: seq<Detail>, repo: string) returns (found: map<string, Image>)
    ensures found == FirstByTag(Tagged(details, repo))
  {
    hide FirstByTag;
    found := map[];
    assert FirstByTag([]) == found by { NoTags(); }
    for i := 0 to |details|
      invariant found == FirstByTag(Tagged(details[..i], repo))
    {
      assert details[..i + 1][..i] == details[..i];
      found := AddTags(found, details[i], repo, Tagged(details[..i], repo));
    }
    assert details[..|details|] == details;
  }

  lemma NoTags()
    ensures FirstByTag([]) == map[]
  {
  }

  /** All images: one for each tag that a successful chunk describes, whatever the interleaving. */
  method ListECRImages(pages: seq<Page>, describe: Describe, repo: string) returns (r: Option<seq<Image>>)
    requires pages != []
    ensures r.None? <==> ListAll(pages).None?
    ensures r.Some? ==> exists order | IsOrder(order, ChunkCount(ListAll(pages).value)) ::
      Enumerates(r.value, ResultFor(ListAll(pages).value, describe, repo, order))
    ensures r.Some? ==> ListsAnswers(r.value, ListAll(pages).value, describe, repo)
  {
    if !pages[0].ok {
      return None;
    }
    if pages[0].ids == [] {
      assert IsOrder([], ChunkCount([])) && Enumerates([], ResultFor([], describe, repo, []));
      EnumerationLists([], [], describe, repo, []);
      return Some([]);
    }
    var fetched := FetchIDs(pages);
    if fetched.None? {
      return None;
    }
    var details, order := DescribeAll(fetched.value, describe);
    var found := FirstImages(details, repo);
    FirstTagged(Tagged(details, repo));
    var images := Flatten(found);
    EnumerationLists(images, fetched.value, describe, repo, order);
    return Some(images);
  }

  lemma TakeOneMore<T>(s: seq<T>, t: seq<T>, j: nat)
    requires j < |t|
    ensures s + t[..j + 1] == s + t[..j] + [t[j]]
  {
  }

  lemma TakeAll<T>(s: seq<T>, t: seq<T>, j: nat)
    requires j <= |t|
    ensures s + t == s + t[..j] + t[j..]
    ensures j == |t| ==> s + t == s + t[..j]
  {
  }

  /** The loop over one detail's tags. */
  method AddTags(before: map<string, Image>, d: Detail, repo: string, ghost images: seq<Image>)
    returns (found: map<string, Image>)
    requires before == FirstByTag(images)
    ensures found == FirstByTag(images + TagsOf(d, repo))
  {
    found := before;
    ghost var tagged := TagsOf(d, repo);
    assert images + tagged[..0] == images;
    for j := 0 to |d.tags|
      invariant found == FirstByTag(images + tagged[..j])
    {
      var image := ToImage(d, d.tags[j], repo);
      TakeOneMore(images, tagged, j);
      ghost var seen := images + tagged[..j];
      assert (seen + [image])[..|seen|] == seen;
      if d.tags[j] !in found {
        found := found[d.tags[j] := image];
      }
    }
    assert tagged[..|d.tags|] == tagged;
  }

  // ---- One page of images --------------------------------------------------------------------

  function ListedTags(ids: seq<ImageID>): set<string> {
    set i | 0 <= i < |ids| && ids[i].tag.Some? :: ids[i].tag.value
  }

  predicate IsFull(found: map<string, Image>, maxResults: nat) { |found| == maxResults }

  /** The loops over the described tags, which take listed tags only and stop once there are
      maxResults of them. */
  function Collect(images: seq<Image>, listed: set<string>, maxResults: nat): map<string, Image> {
    if images == [] then map[]
    else
      var found, last := Collect(images[..|images| - 1], listed, maxResults), images[|images| - 1];
      if IsFull(found, maxResults) || last.tag !in listed || last.tag in found then found else found[last.tag := last]
  }

  /** The first image of each listed tag. */
  function FirstListed(images: seq<Image>, listed: set<string>): map<string, Image> {
    map tag | tag in FirstByTag(images) && tag in listed :: FirstByTag(images)[tag]
  }

  lemma FirstListedOneMore(images: seq<Image>, last: Image, listed: set<string>)
    ensures FirstListed(images + [last], listed) ==
            if last.tag in listed && last.tag !in FirstListed(images, listed)
            then FirstListed(images, listed)[last.tag := last] else FirstListed(images, listed)
  {
    assert (images + [last])[..|images + [last]| - 1] == images;
    var t := FirstListed(images + [last], listed);
    assert t == if last.tag in listed && last.tag !in FirstListed(images, listed)
                then FirstListed(images, listed)[last.tag := last] else FirstListed(images, listed);
  }

  /** The bounded collection is the first image of every listed tag if they fit, and otherwise
      maxResults of them. */
  lemma {:induction false} CollectMeaning(images: seq<Image>, listed: set<string>, maxResults: nat)
    ensures var found, all := Collect(images, listed, maxResults), FirstListed(images, listed);
            && (|all| <= maxResults ==> found == all)
            && (|all| > maxResults ==> |found| == maxResults)
            && forall tag :: tag in found ==> tag in all && found[tag] == all[tag]
  {
    if images != [] {
      var before, last := images[..|images| - 1], images[|images| - 1];
      assert images == before + [last];
      CollectMeaning(before, listed, maxResults);
      FirstListedOneMore(before, last, listed);
    }
  }

  lemma CollectOneMore(images: seq<Image>, last: Image, listed: set<string>, maxResults: nat)
    ensures var found := Collect(images, listed, maxResults);
            Collect(images + [last], listed, maxResults) ==
              if IsFull(found, maxResults) || last.tag !in listed || last.tag in found then found
              else found[last.tag := last]
  {
    var more := images + [last];
    assert more[..|more| - 1] == images && more[|more| - 1] == last;
  }

  lemma {:induction false} FullStays(images: seq<Image>, more: seq<Image>, listed: set<string>, maxResults: nat)
    requires IsFull(Collect(images, listed, maxResults), maxResults)
    ensures Collect(images + more, listed, maxResults) == Collect(images, listed, maxResults)
  {
    if more == [] {
      assert images + more == images;
    } else {
      assert (images + more)[..|images + more| - 1] == images + more[..|more| - 1];
      FullStays(images, more[..|more| - 1], listed, maxResults);
    }
  }

  lemma {:induction false} TaggedPrefix(details: seq<Detail>, n: nat, repo: string) returns (more: seq<Image>)
    requires n <= |details|
    ensures Tagged(details, repo) == Tagged(details[..n], repo) + more
  {
    assert details == details[..n] + details[n..];
    TaggedConcat(details[..n], details[n..], repo);
    more := Tagged(details[n..], repo);
  }

  /** The images are one for each of the smaller of maxResults and the number of tags in all, and
      those of all. */
  ghost predicate Selection(images: seq<Image>, all: map<string, Image>, maxResults: nat) {
    && |images| == (if |all| <= maxResults then |all| else maxResults)
    && (forall i :: 0 <= i < |images| ==> images[i].tag in all && all[images[i].tag] == images[i])
    && (forall i, j :: 0 <= i < j < |images| ==> images[i].tag != images[j].tag)
    && (|all| <= maxResults ==> forall tag :: tag in all ==> exists i :: 0 <= i < |images| && images[i].tag == tag)
  }

  lemma {:induction false} EnumerationSize(images: seq<Image>, m: map<string, Image>)
    requires Enumerates(images, m)
    ensures |images| == |m|
  {
    var tags := seq(|images|, i requires 0 <= i < |images| => images[i].tag);
    var elements := Elements(tags);
    forall tag ensures tag in elements <==> tag in m.Keys {
      if tag in m {
        var i :| 0 <= i < |images| && images[i].tag == tag;
        assert tags[i] == tag;
      }
    }
    assert elements == m.Keys;
  }

  lemma CollectionSelects(images: seq<Image>, source: seq<Image>, listed: set<string>, maxResults: nat)
    requires Enumerates(images, Collect(source, listed, maxResults))
    ensures Selection(images, FirstListed(source, listed), maxResults)
  {
    CollectMeaning(source, listed, maxResults);
    EnumerationSize(images, Collect(source, listed, maxResults));
  }

  /** The tag is listed on the page, and some successful chunk's answer has it. */
  ghost predicate Expected(ids: seq<ImageID>, describe: Describe, tag: string) {
    (exists i :: 0 <= i < |ids| && ids[i].tag == Some(tag)) && exists c: nat :: Answers(ids, describe, c, tag)
  }

  /** What a page can list: exactly the listed tags that are described, each with what an answer says. */
  lemma PageOfAnswers(ids: seq<ImageID>, describe: Describe, repo: string, order: seq<nat>, tag: string)
    requires IsOrder(order, ChunkCount(ids))
    ensures var all := FirstListed(Tagged(Merged(ids, describe, order), repo), ListedTags(ids));
            && (tag in all <==> Expected(ids, describe, tag))
            && (tag in all ==> AnswerSays(ids, describe, all[tag], tag, repo))
  {
    hide Answers, AnswerSays, FirstByTag, Tagged, Merged;
    ResultOfAnswers(ids, describe, repo, order, tag);
  }

  /** The page's images, which are as many as expected tags fit, are what answers say of expected tags. */
  ghost predicate PageLists(images: seq<Image>, ids: seq<ImageID>, describe: Describe, repo: string, maxResults: nat) {
    && |images| <= maxResults
    && (forall i :: 0 <= i < |images| ==>
          Expected(ids, describe, images[i].tag) && AnswerSays(ids, describe, images[i], images[i].tag, repo))
    && (forall i, j :: 0 <= i < j < |images| ==> images[i].tag != images[j].tag)
    && (|images| < maxResults ==>
          forall tag :: Expected(ids, describe, tag) ==> exists i :: 0 <= i < |images| && images[i].tag == tag)
  }

  lemma SelectionLists(images: seq<Image>, ids: seq<ImageID>, describe: Describe, repo: string, order: seq<nat>,
                       maxResults: nat)
    requires IsOrder(order, ChunkCount(ids))
    requires Selection(images, FirstListed(Tagged(Merged(ids, describe, order), repo), ListedTags(ids)), maxResults)
    ensures PageLists(images, ids, describe, repo, maxResults)
  {
    hide Answers, AnswerSays, FirstListed, Tagged, Merged, Expected, ListedTags;
    forall tag { PageOfAnswers(ids, describe, repo, order, tag); }
  }

  /** One page of images, for a positive maxResults as ECR demands it.  The result has one image a tag,
      as many as the smaller of maxResults and the number of listed tags that were described.  So it
      never has more than maxResults, and as that many IDs list no more tags, a page no longer than
      asked for loses none of them.  The token for the next page is passed on, but not from a page
      without IDs. */
  method GetECRPaginatedImages(page: Page, token: Option<string>, describe: Describe, repo: string, maxResults: nat)
    returns (r: Option<seq<Image>>, next: Option<string>, ghost order: seq<nat>)
    requires maxResults >= 1
    ensures r.None? <==> !page.ok
    ensures next == if page.ok && page.ids != [] then token else None
    ensures r.Some? ==>
      && IsOrder(order, ChunkCount(page.ids))
      && var all := FirstListed(Tagged(Merged(page.ids, describe, order), repo), ListedTags(page.ids));
         && Selection(r.value, all, maxResults) && |all| <= |page.ids|
         && PageLists(r.value, page.ids, describe, repo, maxResults)
  {
    order := [];
    if !page.ok {
      return None, None, order;
    }
    if page.ids == [] {
      assert Tagged([], repo) == [] && FirstListed([], {}) == map[];
      SelectionLists([], [], describe, repo, [], maxResults);
      return Some([]), None, order;
    }
    var details;
    details, order := DescribeAll(page.ids, describe);
    var found := CollectDetails(details, repo, ListedTags(page.ids), maxResults);
    ghost var source := Tagged(details, repo);
    CollectMeaning(source, ListedTags(page.ids), maxResults);
    FirstTagged(source);
    var images := Flatten(found);
    CollectionSelects(images, source, ListedTags(page.ids), maxResults);
    FewListed(page.ids, source);
    SelectionLists(images, page.ids, describe, repo, order, maxResults);
    return Some(images), token, order;
  }

  /** The outer loop, with its early exit. */
  method CollectDetails(details: seq<Detail>, repo: string, listed: set<string>, maxResults: nat)
    returns (found: map<string, Image>)
    requires maxResults >= 1
    ensures found == Collect(Tagged(details, repo), listed, maxResults)
  {
    found := map[];
    var i := 0;
    while i < |details| && !IsFull(found, maxResults)
      invariant 0 <= i <= |details|
      invariant found == Collect(Tagged(details[..i], repo), listed, maxResults)
    {
      assert details[..i + 1][..i] == details[..i];
      found := CollectTags(found, details[i], repo, listed, maxResults, Tagged(details[..i], repo));
      i := i + 1;
    }
    assert details[..|details|] == details;
    if i < |details| {
      ghost var more := TaggedPrefix(details, i, repo);
      FullStays(Tagged(details[..i], repo), more, listed, maxResults);
    }
  }

  /** A page of n IDs lists at most n tags. */
  lemma FewListed(ids: seq<ImageID>, images: seq<Image>)
    ensures |FirstListed(images, ListedTags(ids))| <= |ids|
  {
    TagCount(ids);
    SubsetCount(FirstListed(images, ListedTags(ids)).Keys, ListedTags(ids));
  }

  lemma {:induction false} TagCount(ids: seq<ImageID>)
    ensures |ListedTags(ids)| <= |ids|
  {
    if ids != [] {
      var before, last := ids[..|ids| - 1], ids[|ids| - 1];
      TagCount(before);
      var one := if last.tag.Some? then {last.tag.value} else {};
      forall tag | tag in ListedTags(ids) ensures tag in ListedTags(before) + one {
        var i :| 0 <= i < |ids| && ids[i].tag == Some(tag);
        if i < |before| { assert before[i] == ids[i]; }
      }
      SubsetCount(ListedTags(ids), ListedTags(before) + one);
    }
  }

  /** The inner loop, with its early exit. */
  method CollectTags(before: map<string, Image>, d: Detail, repo: string, listed: set<string>, maxResults: nat,
                     ghost images: seq<Image>)
    returns (found: map<string, Image>)
    requires before == Collect(images, listed, maxResults) && !IsFull(before, maxResults)
    ensures found == Collect(images + TagsOf(d, repo), listed, maxResults)
  {
    found := before;
    ghost var tagged := TagsOf(d, repo);
    assert |tagged| == |d.tags| && forall k :: 0 <= k < |d.tags| ==> tagged[k] == ToImage(d, d.tags[k], repo);
    hide Collect, TagsOf, IsFull;
    ghost var seen := images;
    var j := 0;
    while j < |d.tags| && !IsFull(found, maxResults)
      invariant 0 <= j <= |d.tags| && seen == images + tagged[..j]
      invariant found == Collect(seen, listed, maxResults)
    {
      var image := ToImage(d, d.tags[j], repo);
      CollectOneMore(seen, image, listed, maxResults);
      TakeOneMore(images, tagged, j);
      seen := seen + [image];
      if d.tags[j] in listed && d.tags[j] !in found {
        found := found[d.tags[j] := image];
      }
      j := j + 1;
    }
    TakeAll(images, tagged, j);
    if j < |d.tags| {
      FullStays(seen, tagged[j..], listed, maxResults);
    }
  }
}
