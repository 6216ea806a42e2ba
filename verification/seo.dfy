/** Page metadata (`generateMeta`): a record of meta tags built from a
    page's title and optional fields, with site-wide defaults. Optional
    strings follow JavaScript's `||`: a missing or empty value takes the
    default. The keyword list is present whenever it is given, even when
    empty, because an array is always truthy. */
module Seo {
  import opened Options
  import opened Text

  datatype OgType = Website | Article

  datatype MetaData = MetaData(
    title: string,
    description: Option<string>,
    ogImage: Option<string>,
    ogType: Option<OgType>,
    canonical: Option<string>,
    keywords: Option<seq<string>>)

  const SiteName: string := "Cat-Quest Portfolio"
  const DefaultDescription: string := "3D猫が案内するインタラクティブなポートフォリオサイト"
  const DefaultOgImage: string := "/og-image.png"
  const TwitterCard: string := "summary_large_image"
  const TitleSeparator: string := " | "
  const KeywordSeparator: string := ", "

  /** The keys present in every result. */
  const FixedKeys: set<string> :=
    {"title", "description", "og:title", "og:description", "og:image", "og:type", "og:site_name", "twitter:card"}

  function OgTypeName(t: OgType): string {
    match t
    case Website => "website"
    case Article => "article"
  }

  /** A string that JavaScript treats as true: present and non-empty. */
  predicate Truthy(o: Option<string>) {
    o.Some? && o.value != ""
  }

  /** `o || d` on an optional string. */
  function OrDefault(o: Option<string>, d: string): (r: string)
    ensures Truthy(o) ==> r == o.value
    ensures !Truthy(o) ==> r == d
  {
    if Truthy(o) then o.value else d
  }

  /** The eight tags every page gets. */
  function BaseMeta(data: MetaData): (m: map<string, string>)
    ensures m.Keys == FixedKeys
    ensures m["title"] == (if data.title != "" then data.title + TitleSeparator + SiteName else SiteName)
    ensures m["og:title"] == (if data.title != "" then data.title else SiteName)
    ensures m["description"] == OrDefault(data.description, DefaultDescription)
    ensures m["og:description"] == OrDefault(data.description, DefaultDescription)
    ensures m["og:image"] == OrDefault(data.ogImage, DefaultOgImage)
    ensures m["og:type"] == OgTypeName(data.ogType.GetOr(Website))
    ensures m["og:site_name"] == SiteName && m["twitter:card"] == TwitterCard
  {
    var title := data.title;
    map[
      "title" := if title != "" then title + TitleSeparator + SiteName else SiteName,
      "description" := OrDefault(data.description, DefaultDescription),
      "og:title" := if title != "" then title else SiteName,
      "og:description" := OrDefault(data.description, DefaultDescription),
      "og:image" := OrDefault(data.ogImage, DefaultOgImage),
      "og:type" := OgTypeName(data.ogType.GetOr(Website)),
      "og:site_name" := SiteName,
      "twitter:card" := TwitterCard
    ]
  }

  function GenerateMeta(data: MetaData): (m: map<string, string>)
    ensures m.Keys == FixedKeys
                      + (if Truthy(data.canonical) then {"canonical"} else {})
                      + (if data.keywords.Some? then {"keywords"} else {})
    ensures forall k :: k in FixedKeys ==> m[k] == BaseMeta(data)[k]
    ensures "canonical" in m ==> m["canonical"] == data.canonical.value
    ensures "keywords" in m ==> m["keywords"] == Join(data.keywords.value, KeywordSeparator)
  {
    var base := BaseMeta(data);
    var withCanonical := if Truthy(data.canonical) then base["canonical" := data.canonical.value] else base;
    if data.keywords.Some? then withCanonical["keywords" := Join(data.keywords.value, KeywordSeparator)]
    else withCanonical
  }

  /** The page title always ends with the site name, and the Open Graph
      title is recovered from it by dropping the " | Cat-Quest Portfolio"
      suffix when the page has a title; the two descriptions agree. */
  lemma TitleCarriesSiteName(data: MetaData)
    ensures var m := GenerateMeta(data);
            var t := m["title"];
            && |t| >= |SiteName| && t[|t| - |SiteName|..] == SiteName
            && (data.title != "" ==> t == m["og:title"] + TitleSeparator + SiteName)
            && (data.title == "" ==> t == m["og:title"] == SiteName)
            && m["description"] == m["og:description"]
  {
    var t := GenerateMeta(data)["title"];
    if data.title != "" {
      assert t == (data.title + TitleSeparator) + SiteName;
      assert t[|t| - |SiteName|..] == SiteName;
    }
  }

  /** Adding a keyword to a non-empty list appends ", " and the keyword to
      the `keywords` value; an empty list gives the key with an empty
      value, and a missing list gives no key. */
  lemma KeywordsGrowBySeparator(data: MetaData, kw: string)
    requires data.keywords.Some?
    ensures var m := GenerateMeta(data);
            var m' := GenerateMeta(data.(keywords := Some(data.keywords.value + [kw])));
            && (|data.keywords.value| > 0 ==> m'["keywords"] == m["keywords"] + KeywordSeparator + kw)
            && (|data.keywords.value| == 0 ==> m["keywords"] == "")
            && "keywords" !in GenerateMeta(data.(keywords := None))
  {
    JoinAppend(data.keywords.value, kw, KeywordSeparator);
  }
}
