/** The landing page (app/LandingClient.tsx): category banners with their
    images, and the search form that builds the `/oglasi` URL. */
module LandingClient {
  import opened Wrappers
  import opened Text
  import opened Routes

  datatype Category = Category(id: int, name: string)

  /** Category name, exactly as stored, to its banner image. */
  const CategoryImages: map<string, string> := map[
    "\U{010C}uvanje pasa" := "/categories/dog-care.png",
    "\U{0160}etanje pasa" := "/categories/dogwalk.png",
    "\U{010C}i\U{0161}\U{0107}enje / Sprema\U{010D}ica" := "/categories/cleaning.png",
    "\U{010C}uvanje djece" := "/categories/childcare.png",
    "Majstor / Popravci" := "/categories/repairs.png",
    "Instrukcije" := "/categories/tutoring.png"
  ]

  const FallbackImage := "/categories/dog-care.png"

  /** `imgForCategory(name)`: the mapped image, or the fallback for a name
      the map does not know. */
  function ImgForCategory(name: string): (r: string)
    ensures name in CategoryImages ==> r == CategoryImages[name]
    ensures name !in CategoryImages ==> r == FallbackImage
  {
    if name in CategoryImages then CategoryImages[name] else FallbackImage
  }

  /** The six known categories, and an unknown one. */
  lemma CategoryImageTable()
    ensures ImgForCategory("\U{010C}uvanje pasa") == "/categories/dog-care.png"
    ensures ImgForCategory("\U{0160}etanje pasa") == "/categories/dogwalk.png"
    ensures ImgForCategory("\U{010C}i\U{0161}\U{0107}enje / Sprema\U{010D}ica") == "/categories/cleaning.png"
    ensures ImgForCategory("\U{010C}uvanje djece") == "/categories/childcare.png"
    ensures ImgForCategory("Majstor / Popravci") == "/categories/repairs.png"
    ensures ImgForCategory("Instrukcije") == "/categories/tutoring.png"
    ensures ImgForCategory("instrukcije") == "/categories/dog-care.png"
  {
    assert "instrukcije"[0] == 'i';
  }

  /** Every banner has one of the seven images of `/categories/`. */
  lemma ImageAlwaysKnown(name: string)
    ensures ImgForCategory(name) in CategoryImages.Values + {FallbackImage}
  {
    if name in CategoryImages {
      assert CategoryImages[name] in CategoryImages.Values;
    }
  }

  /** `cats.slice(0, 12)`: the first twelve categories, or all of them when
      there are fewer. */
  function TopCats(cats: seq<Category>): (r: seq<Category>)
    ensures |r| == if |cats| < 12 then |cats| else 12
    ensures r <= cats
  {
    if |cats| < 12 then cats else cats[..12]
  }

  // ---------------------------------------------------------------------
  // URLSearchParams

  /** The list with every pair named `name` removed. */
  function RemoveName(es: seq<(string, string)>, name: string): (r: seq<(string, string)>)
    ensures forall e :: e in r <==> e in es && e.0 != name
  {
    if es == [] then []
    else
      assert forall e :: e in es <==> e == es[0] || e in es[1..];
      (if es[0].0 != name then [es[0]] else []) + RemoveName(es[1..], name)
  }

  /** `params.set(name, value)`: the first pair named `name` takes the new
      value and the later ones go; without one, the pair is appended. */
  function SetEntry(es: seq<(string, string)>, name: string, value: string): (r: seq<(string, string)>)
    ensures (name, value) in r
    ensures forall e :: e in r && e.0 != name ==> e in es
    ensures forall e :: e in es && e.0 != name ==> e in r
    ensures forall e :: e in r && e.0 == name ==> e == (name, value)
    ensures (forall e :: e in es ==> e.0 != name) ==> r == es + [(name, value)]
  {
    if es == [] then [(name, value)]
    else if es[0].0 == name then [(name, value)] + RemoveName(es[1..], name)
    else
      assert forall e :: e in es <==> e == es[0] || e in es[1..];
      [es[0]] + SetEntry(es[1..], name, value)
  }

  /** `params.toString()`: `name=value` pairs joined by `&`, each side passed
      through `encode`, the form encoding. */
  function Serialize(es: seq<(string, string)>, encode: string -> string): (r: string)
    ensures r == "" <==> es == []
  {
    if es == [] then ""
    else
      var pair := encode(es[0].0) + "=" + encode(es[0].1);
      assert pair[|encode(es[0].0)|] == '=';
      if |es| == 1 then pair else pair + "&" + Serialize(es[1..], encode)
  }

  class SearchParams {
    var entries: seq<(string, string)>

    constructor ()
      ensures entries == []
    {
      entries := [];
    }

    method Set(name: string, value: string)
      modifies this
      ensures entries == SetEntry(old(entries), name, value)
    {
      entries := SetEntry(entries, name, value);
    }

    function ToString(encode: string -> string): (r: string)
      reads this
      ensures r == "" <==> entries == []
    {
      Serialize(entries, encode)
    }
  }

  // ---------------------------------------------------------------------
  // goToOglasi

  /** The fields a caller of `goToOglasi` may override; `None` is a field
      left out (`undefined`), which keeps the form's value. */
  datatype Extra = Extra(q: Option<string>, city: Option<string>, postType: Option<string>, cat: Option<string>)

  const NoExtra := Extra(None, None, None, None)

  /** The pair for one search field: none when the value is empty. */
  function Param(key: string, value: string): seq<(string, string)> {
    if value != "" then [(key, value)] else []
  }

  /** The pairs `goToOglasi` sets for the effective values, in its order. */
  function QueryPairs(q: string, city: string, postType: string, cat: string): seq<(string, string)> {
    Param("q", q) + Param("city", city) + Param("type", postType) + Param("cat", cat)
  }

  /** `/oglasi`, followed by `?` and the query when there is one. */
  function OglasiUrl(qs: string): (r: string)
    ensures IsInternalPath(r)
    ensures r == "/oglasi" <==> qs == ""
    ensures qs != "" ==> |r| == 8 + |qs| && r[..8] == "/oglasi?" && r[8..] == qs
  {
    var r := "/oglasi" + (if qs != "" then "?" + qs else "");
    assert r[0] == '/' && r[1] == 'o';
    assert |r| > 7 <==> qs != "";
    r
  }

  /** The position of each key in `goToOglasi`'s order. */
  function KeyRank(key: string): nat {
    if key == "q" then 0 else if key == "city" then 1 else if key == "type" then 2 else 3
  }

  lemma KeyRanks()
    ensures KeyRank("q") == 0 && KeyRank("city") == 1 && KeyRank("type") == 2 && KeyRank("cat") == 3
  {
    assert "city"[0] != "q"[0];
    assert "type"[0] != "q"[0] && "type"[0] != "city"[0];
    assert "cat"[0] != "q"[0] && |"cat"| != |"city"| && |"cat"| != |"type"|;
  }

  /** A key is present exactly when its effective value is not empty, and
      then with that value. */
  lemma QueryPairsPresence(q: string, city: string, postType: string, cat: string, key: string, v: string)
    requires key in ["q", "city", "type", "cat"]
    ensures (key, v) in QueryPairs(q, city, postType, cat)
            <==> v != "" && v == (if key == "q" then q else if key == "city" then city
                                  else if key == "type" then postType else cat)
  {
    KeyRanks();
    var ps := QueryPairs(q, city, postType, cat);
    assert forall e :: e in ps <==> e in Param("q", q) || e in Param("city", city)
                                    || e in Param("type", postType) || e in Param("cat", cat);
  }

  /** The keys come in the order q, city, type, cat, each at most once. */
  lemma QueryPairsOrder(q: string, city: string, postType: string, cat: string)
    ensures var ps := QueryPairs(q, city, postType, cat);
            forall i, j :: 0 <= i < j < |ps| ==> KeyRank(ps[i].0) < KeyRank(ps[j].0)
  {
    KeyRanks();
  }

  /** With no effective value the target is the bare `/oglasi`; otherwise a
      query string follows it. */
  lemma BareUrlWithoutKeys(q: string, city: string, postType: string, cat: string, encode: string -> string)
    ensures OglasiUrl(Serialize(QueryPairs(q, city, postType, cat), encode)) == "/oglasi"
            <==> q == "" && city == "" && postType == "" && cat == ""
  {
    var url := OglasiUrl(Serialize(QueryPairs(q, city, postType, cat), encode));
    if !(q == "" && city == "" && postType == "" && cat == "") {
      assert |url| > |"/oglasi"|;
    }
  }

  class SearchForm {
    var cats: seq<Category>
    var loadingCats: bool
    var q: string
    var city: string
    var postType: string   // "", "offer" or "request"
    var catId: string

    constructor ()
      ensures cats == [] && loadingCats
      ensures q == "" && city == "" && postType == "" && catId == ""
    {
      cats := [];
      loadingCats := true;
      q, city, postType, catId := "", "", "", "";
    }

    /** The categories query came back: its rows, or none when it returned
        no data; the page does not look at the error. */
    method CategoriesLoaded(data: Option<seq<Category>>)
      modifies this`cats, this`loadingCats
      ensures cats == data.GetOr([]) && !loadingCats
    {
      cats := data.GetOr([]);
      loadingCats := false;
    }

    /** `goToOglasi(extra)`: the path pushed to the router. Each field of
        `extra` that is given replaces the form's value, and only non-empty
        values become query parameters. */
    method GoToOglasi(extra: Extra, encode: string -> string) returns (target: string)
      ensures target == OglasiUrl(Serialize(QueryPairs(extra.q.GetOr(q), extra.city.GetOr(city),
                                                       extra.postType.GetOr(postType), extra.cat.GetOr(catId)), encode))
    {
      var params := new SearchParams();
      var qq := extra.q.GetOr(q);
      var cc := extra.city.GetOr(city);
      var tt := extra.postType.GetOr(postType);
      var cat := extra.cat.GetOr(catId);

      KeyRanks();
      if qq != "" { params.Set("q", qq); }
      assert params.entries == Param("q", qq);
      if cc != "" {
        assert forall e :: e in params.entries ==> KeyRank(e.0) < 1;
        params.Set("city", cc);
      }
      assert params.entries == Param("q", qq) + Param("city", cc);
      if tt != "" {
        assert forall e :: e in params.entries ==> KeyRank(e.0) < 2;
        params.Set("type", tt);
      }
      assert params.entries == Param("q", qq) + Param("city", cc) + Param("type", tt);
      if cat != "" {
        assert forall e :: e in params.entries ==> KeyRank(e.0) < 3;
        params.Set("cat", cat);
      }
      assert params.entries == QueryPairs(qq, cc, tt, cat);

      var qs := params.ToString(encode);
      target := "/oglasi" + (if qs != "" then "?" + qs else "");
    }

    /** A click on a category banner: the search keeps the form's text, city
        and type, with the category set to the banner's id. */
    method SelectCategory(c: Category, encode: string -> string) returns (target: string)
      ensures target == OglasiUrl(Serialize(QueryPairs(q, city, postType, IntToString(c.id)), encode))
    {
      target := GoToOglasi(Extra(None, None, None, Some(IntToString(c.id))), encode);
    }
  }

  /** Passing `""` for a field drops its key even when the form holds a value. */
  lemma EmptyOverrideDropsKey(q: string, city: string, postType: string, cat: string, v: string)
    ensures ("cat", v) !in QueryPairs(q, city, postType, Extra(None, None, None, Some("")).cat.GetOr(cat))
  {
    QueryPairsPresence(q, city, postType, "", "cat", v);
  }
}
