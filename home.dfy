/** The public listing page (app/page.tsx): the posts it has loaded, narrowed
    by the four search fields. */
module HomePage {
  import opened Wrappers
  import opened Text

  datatype PostType = Offer | Request

  datatype Status = Active | Paused | Deleted

  datatype PostRow = PostRow(
    id: string,
    postType: PostType,
    city: string,
    title: string,
    description: string,
    priceCents: Option<int>,
    priceUnit: Option<string>,
    createdAt: string,
    categoryId: int,
    status: Option<Status>)

  /** The search fields: free text, city, post type (`None` for "all types")
      and category id as the select box holds it (`""` for "all categories"). */
  datatype SearchFields = SearchFields(q: string, city: string, postType: Option<PostType>, catId: string)

  const NoSearch := SearchFields("", "", None, "")

  /** The callback given to `posts.filter`: each set field that the post
      fails rejects it. */
  predicate Keep(p: PostRow, f: SearchFields)
    ensures Keep(p, f) <==>
              && (f.postType.None? || p.postType == f.postType.value)
              && (f.city == "" || Contains(ToLower(p.city), ToLower(f.city)))
              && (f.catId == "" || IntToString(p.categoryId) == f.catId)
              && (f.q == "" || Contains(ToLower(p.title + " " + p.description), ToLower(f.q)))
  {
    if f.postType.Some? && p.postType != f.postType.value then false
    else if f.city != "" && !Contains(ToLower(p.city), ToLower(f.city)) then false
    else if f.catId != "" && IntToString(p.categoryId) != f.catId then false
    else if f.q != "" && !Contains(ToLower(p.title + " " + p.description), ToLower(f.q)) then false
    else true
  }

  /** `a` is `b` with some elements left out, the rest kept in order. */
  predicate IsSubsequence<T(==)>(a: seq<T>, b: seq<T>)
    decreases |b|
  {
    a == [] || (b != [] && ((a[0] == b[0] && IsSubsequence(a[1..], b[1..])) || IsSubsequence(a, b[1..])))
  }

  /** `filtered`: the posts that pass `Keep`, in the order loaded. */
  function Filtered(posts: seq<PostRow>, f: SearchFields): (r: seq<PostRow>)
    ensures IsSubsequence(r, posts)
    ensures forall p :: p in r <==> p in posts && Keep(p, f)
    ensures forall p :: multiset(r)[p] == if Keep(p, f) then multiset(posts)[p] else 0
  {
    if posts == [] then []
    else
      var rest := Filtered(posts[1..], f);
      assert forall p :: p in posts <==> p == posts[0] || p in posts[1..];
      assert posts == [posts[0]] + posts[1..];
      if Keep(posts[0], f) then
        var r := [posts[0]] + rest;
        assert r[1..] == rest;
        r
      else rest
  }

  lemma ConcatAssoc<T>(x: seq<T>, y: seq<T>, z: seq<T>)
    ensures x + (y + z) == (x + y) + z
  {
  }

  /** One unfolding of `Filtered`. */
  lemma FilteredUnfold(s: seq<PostRow>, f: SearchFields)
    requires s != []
    ensures Filtered(s, f) == (if Keep(s[0], f) then [s[0]] else []) + Filtered(s[1..], f)
  {
    if !Keep(s[0], f) {
      assert [] + Filtered(s[1..], f) == Filtered(s[1..], f);
    }
  }

  /** Filtering two lists one after the other gives the posts kept from each,
      in order. */
  lemma {:induction false} FilteredAppend(a: seq<PostRow>, b: seq<PostRow>, f: SearchFields)
    ensures Filtered(a + b, f) == Filtered(a, f) + Filtered(b, f)
    decreases |a|
  {
    if a == [] {
      assert a + b == b;
    } else {
      var ab := a + b;
      assert ab[0] == a[0] && ab[1..] == a[1..] + b;
      FilteredUnfold(ab, f);
      FilteredUnfold(a, f);
      FilteredAppend(a[1..], b, f);
      ConcatAssoc(if Keep(a[0], f) then [a[0]] else [], Filtered(a[1..], f), Filtered(b, f));
    }
  }

  /** A single post is shown exactly when it passes `Keep`. */
  lemma FilteredSingle(p: PostRow, f: SearchFields)
    ensures Filtered([p], f) == if Keep(p, f) then [p] else []
  {
    assert [p][1..] == [];
  }

  /** Every post the page shows satisfies each search field that is set. */
  lemma FilteredSatisfiesFields(posts: seq<PostRow>, f: SearchFields, p: PostRow)
    requires p in Filtered(posts, f)
    ensures f.postType.Some? ==> p.postType == f.postType.value
    ensures f.city != "" ==> Contains(ToLower(p.city), ToLower(f.city))
    ensures f.catId != "" ==> IntToString(p.categoryId) == f.catId
    ensures f.q != "" ==> Contains(ToLower(p.title + " " + p.description), ToLower(f.q))
  {
  }

  /** A post that satisfies every search field that is set is shown. */
  lemma MatchingPostShown(posts: seq<PostRow>, f: SearchFields, p: PostRow)
    requires p in posts
    requires f.postType.Some? ==> p.postType == f.postType.value
    requires f.city != "" ==> Contains(ToLower(p.city), ToLower(f.city))
    requires f.catId != "" ==> IntToString(p.categoryId) == f.catId
    requires f.q != "" ==> Contains(ToLower(p.title + " " + p.description), ToLower(f.q))
    ensures p in Filtered(posts, f)
  {
  }

  /** With every field empty, all loaded posts are shown, in order. */
  lemma {:induction false} NoSearchShowsAll(posts: seq<PostRow>)
    ensures Filtered(posts, NoSearch) == posts
  {
    if posts != [] {
      NoSearchShowsAll(posts[1..]);
    }
  }

  /** Filtering what is shown again changes nothing. */
  lemma {:induction false} FilteredIdempotent(posts: seq<PostRow>, f: SearchFields)
    ensures Filtered(Filtered(posts, f), f) == Filtered(posts, f)
  {
    if posts != [] {
      FilteredIdempotent(posts[1..], f);
      var rest := Filtered(posts[1..], f);
      if Keep(posts[0], f) {
        var r := [posts[0]] + rest;
        assert r[0] == posts[0] && r[1..] == rest;
      }
    }
  }

  /** The city and text fields ignore letter case: fields that agree up to
      case select the same posts. */
  lemma {:induction false} FilterIgnoresCase(posts: seq<PostRow>, f: SearchFields, g: SearchFields)
    requires ToLower(f.city) == ToLower(g.city) && ToLower(f.q) == ToLower(g.q)
    requires f.postType == g.postType && f.catId == g.catId
    ensures Filtered(posts, f) == Filtered(posts, g)
  {
    assert (f.city == "") == (g.city == "") by {
      assert |ToLower(f.city)| == |f.city| && |ToLower(g.city)| == |g.city|;
    }
    assert (f.q == "") == (g.q == "") by {
      assert |ToLower(f.q)| == |f.q| && |ToLower(g.q)| == |g.q|;
    }
    if posts != [] {
      FilterIgnoresCase(posts[1..], f, g);
      assert Keep(posts[0], f) == Keep(posts[0], g);
    }
  }

  /** Selecting the category whose printed id is `catId` shows only posts of
      that category: the comparison of printed ids is a comparison of ids. */
  lemma CategoryFieldSelectsId(posts: seq<PostRow>, f: SearchFields, id: int, p: PostRow)
    requires f.catId == IntToString(id)
    requires p in Filtered(posts, f)
    ensures p.categoryId == id
  {
    IntToStringInjective(p.categoryId, id);
  }
}
