/** The blog export: the frontmatter schema every post's metadata must
    satisfy, as an accept/reject predicate over a JSON-like value, and
    the export script's rule for building that frontmatter from a Notion
    page and for skipping pages without a slug. File writes are emitted
    (slug, frontmatter) pairs; the current time, the default date, is a
    parameter. */
module Notion {
  import opened Options

  datatype Json =
    | JNull
    | JBool(b: bool)
    | JNum(n: real)
    | JStr(s: string)
    | JArr(items: seq<Json>)
    | JObj(fields: map<string, Json>)

  /** The keys the schema knows; any other key is dropped on parsing. */
  const SchemaKeys: set<string> :=
    {"title", "slug", "date", "tags", "summary", "cover", "updatedAt", "published"}

  predicate StrField(o: map<string, Json>, k: string) {
    k in o && o[k].JStr?
  }

  predicate IsStringArray(v: Json) {
    v.JArr? && forall i :: 0 <= i < |v.items| ==> v.items[i].JStr?
  }

  /** `BlogFrontmatterSchema`: an object with string title, slug, date,
      summary and updatedAt, an array of strings as tags, a boolean
      published flag, and a cover that is either absent or a string. */
  predicate ValidFrontmatter(v: Json) {
    && v.JObj?
    && StrField(v.fields, "title")
    && StrField(v.fields, "slug")
    && StrField(v.fields, "date")
    && "tags" in v.fields && IsStringArray(v.fields["tags"])
    && StrField(v.fields, "summary")
    && ("cover" in v.fields ==> v.fields["cover"].JStr?)
    && StrField(v.fields, "updatedAt")
    && "published" in v.fields && v.fields["published"].JBool?
  }

  /** A value accepted by the schema, as a typed record. */
  datatype Frontmatter = Frontmatter(
    title: string,
    slug: string,
    date: string,
    tags: seq<string>,
    summary: string,
    cover: Option<string>,
    updatedAt: string,
    published: bool)

  /** The strings of an array whose elements are all strings; None as
      soon as one element is not a string. */
  function Strings(items: seq<Json>): (r: Option<seq<string>>)
    ensures r.Some? <==> forall i :: 0 <= i < |items| ==> items[i].JStr?
    ensures r.Some? ==> |r.value| == |items| && forall i :: 0 <= i < |items| ==> r.value[i] == items[i].s
    decreases |items|
  {
    if |items| == 0 then Some([])
    else if !items[0].JStr? then None
    else
      match Strings(items[1..])
      case None =>
        assert !forall i :: 0 <= i < |items| ==> items[i].JStr? by {
          var j :| 0 <= j < |items[1..]| && !items[1..][j].JStr?;
          assert items[j + 1] == items[1..][j];
        }
        None
      case Some(rest) =>
        var r := [items[0].s] + rest;
        assert forall i :: 0 <= i < |items| ==> r[i] == items[i].s by {
          forall i | 0 <= i < |items| ensures r[i] == items[i].s {
            if i > 0 { assert items[i] == items[1..][i - 1]; }
          }
        }
        Some(r)
  }

  /** The schema's `safeParse`: the typed record exactly when the value
      is accepted, carrying the accepted fields' contents. */
  function Parse(v: Json): (r: Option<Frontmatter>)
    ensures r.Some? <==> ValidFrontmatter(v)
    ensures r.Some? ==>
              && r.value.title == v.fields["title"].s
              && r.value.slug == v.fields["slug"].s
              && r.value.date == v.fields["date"].s
              && |r.value.tags| == |v.fields["tags"].items|
              && (forall i :: 0 <= i < |r.value.tags| ==> r.value.tags[i] == v.fields["tags"].items[i].s)
              && r.value.summary == v.fields["summary"].s
              && (r.value.cover.Some? <==> "cover" in v.fields)
              && (r.value.cover.Some? ==> r.value.cover.value == v.fields["cover"].s)
              && r.value.updatedAt == v.fields["updatedAt"].s
              && r.value.published == v.fields["published"].b
  {
    if !ValidFrontmatter(v) then None
    else
      var f := v.fields;
      Some(Frontmatter(
        f["title"].s, f["slug"].s, f["date"].s,
        Strings(f["tags"].items).value,
        f["summary"].s,
        if "cover" in f then Some(f["cover"].s) else None,
        f["updatedAt"].s, f["published"].b))
  }

  /** A list of strings as a JSON array. */
  function Texts(ss: seq<string>): (r: seq<Json>)
    ensures |r| == |ss| && forall i :: 0 <= i < |ss| ==> r[i] == JStr(ss[i])
  {
    seq(|ss|, i requires 0 <= i < |ss| => JStr(ss[i]))
  }

  /** The frontmatter as the object written into the file's header; the
      cover key is present only when the record has a cover. */
  function Encode(fm: Frontmatter): (v: Json)
    ensures ValidFrontmatter(v)
    ensures v.fields.Keys <= SchemaKeys
    ensures "cover" in v.fields <==> fm.cover.Some?
  {
    var base := map[
      "title" := JStr(fm.title),
      "slug" := JStr(fm.slug),
      "date" := JStr(fm.date),
      "tags" := JArr(Texts(fm.tags)),
      "summary" := JStr(fm.summary),
      "updatedAt" := JStr(fm.updatedAt),
      "published" := JBool(fm.published)
    ];
    JObj(if fm.cover.Some? then base["cover" := JStr(fm.cover.value)] else base)
  }

  /** Every record survives encoding and parsing unchanged. */
  lemma ParseEncode(fm: Frontmatter)
    ensures Parse(Encode(fm)) == Some(fm)
  {
    var r := Parse(Encode(fm)).value;
    assert r.tags == fm.tags;
  }

  /** An accepted value is its parse's encoding once the keys the schema
      does not know are dropped. */
  lemma EncodeParse(v: Json)
    requires ValidFrontmatter(v)
    ensures Encode(Parse(v).value) == JObj(map k | k in v.fields && k in SchemaKeys :: v.fields[k])
  {
    var e := Encode(Parse(v).value).fields;
    var w := map k | k in v.fields && k in SchemaKeys :: v.fields[k];
    var items := v.fields["tags"].items;
    var tags := Parse(v).value.tags;
    assert Texts(tags) == items by {
      forall i | 0 <= i < |items| ensures Texts(tags)[i] == items[i] {
        assert items[i].JStr?;
      }
    }
    assert e.Keys == w.Keys;
    forall k | k in e ensures e[k] == w[k] {
    }
  }

  /** The schema's answers on edits of an accepted value: the cover may be
      dropped, but a null cover, a missing slug, tags given as one string
      and a published flag given as a string are each rejected. */
  lemma SchemaEdits(v: Json, text: string)
    requires ValidFrontmatter(v)
    ensures ValidFrontmatter(JObj(v.fields - {"cover"}))
    ensures !ValidFrontmatter(JObj(v.fields["cover" := JNull]))
    ensures !ValidFrontmatter(JObj(v.fields - {"slug"}))
    ensures !ValidFrontmatter(JObj(v.fields["tags" := JStr(text)]))
    ensures !ValidFrontmatter(JObj(v.fields["published" := JStr(text)]))
  {
  }

  /** The accepted record of the schema's test. */
  const ValidExample: Json := JObj(map[
    "title" := JStr("テスト記事"),
    "slug" := JStr("test-article"),
    "date" := JStr("2024-01-01"),
    "tags" := JArr([JStr("React"), JStr("TypeScript")]),
    "summary" := JStr("これはテスト記事です"),
    "cover" := JStr("https://example.com/image.png"),
    "updatedAt" := JStr("2024-01-01T00:00:00.000Z"),
    "published" := JBool(true)
  ])

  /** The rejected record of the schema's test: no slug, tags as a string,
      published as a string. */
  const InvalidExample: Json := JObj(map[
    "title" := JStr("テスト記事"),
    "date" := JStr("2024-01-01"),
    "tags" := JStr("React"),
    "summary" := JStr("これはテスト記事です"),
    "published" := JStr("yes")
  ])

  lemma TestExamples()
    ensures Parse(ValidExample).Some?
    ensures Parse(ValidExample).value.tags == ["React", "TypeScript"]
    ensures Parse(ValidExample).value.cover == Some("https://example.com/image.png")
    ensures Parse(InvalidExample).None?
  {
    var r := Parse(ValidExample).value;
    assert r.tags == ["React", "TypeScript"];
  }

  /** A page of the blog database as the export script reads it: the
      plain texts of each rich-text property, the tag names, the date's
      start (None when the date is null), and the cover property, which
      may be absent. */
  datatype NotionPost = NotionPost(
    id: string,
    titleText: seq<string>,
    slugText: seq<string>,
    dateStart: Option<string>,
    tagNames: seq<string>,
    summaryText: seq<string>,
    coverText: Option<seq<string>>,
    published: bool,
    lastEditedTime: string)

  /** `frags[0]?.plain_text || ''`: the first fragment, or the empty
      string when there is none. */
  function FirstText(frags: seq<string>): (r: string)
    ensures |frags| == 0 ==> r == ""
    ensures |frags| > 0 ==> r == frags[0]
  {
    if |frags| > 0 && frags[0] != "" then frags[0] else ""
  }

  /** The frontmatter of `convertToMdx`; `now` stands for the current
      time, the default of a missing or empty date. */
  function BuildFrontmatter(post: NotionPost, now: string): (fm: Frontmatter)
    ensures fm.title == FirstText(post.titleText)
    ensures fm.slug == FirstText(post.slugText)
    ensures post.dateStart.Some? && post.dateStart.value != "" ==> fm.date == post.dateStart.value
    ensures post.dateStart.None? || post.dateStart.value == "" ==> fm.date == now
    ensures fm.tags == post.tagNames
    ensures fm.summary == FirstText(post.summaryText)
    ensures post.coverText.None? || |post.coverText.value| == 0 ==> fm.cover == Some("")
    ensures post.coverText.Some? && |post.coverText.value| > 0 ==> fm.cover == Some(post.coverText.value[0])
    ensures fm.updatedAt == post.lastEditedTime && fm.published == post.published
  {
    Frontmatter(
      FirstText(post.titleText),
      FirstText(post.slugText),
      if post.dateStart.Some? && post.dateStart.value != "" then post.dateStart.value else now,
      post.tagNames,
      FirstText(post.summaryText),
      Some(if post.coverText.Some? then FirstText(post.coverText.value) else ""),
      post.lastEditedTime,
      post.published)
  }

  /** What the script builds is always accepted by the schema, and parsing
      its header gives the frontmatter back, with a cover that is present
      even when the page has none. */
  lemma BuiltFrontmatterValidates(post: NotionPost, now: string)
    ensures ValidFrontmatter(Encode(BuildFrontmatter(post, now)))
    ensures Parse(Encode(BuildFrontmatter(post, now))) == Some(BuildFrontmatter(post, now))
    ensures "cover" in Encode(BuildFrontmatter(post, now)).fields
  {
    ParseEncode(BuildFrontmatter(post, now));
  }

  /** The file slug of a page: its first slug fragment, unless that is
      missing or empty, in which case the page is skipped. */
  function SlugOf(post: NotionPost): (r: Option<string>)
    ensures r.None? <==> |post.slugText| == 0 || post.slugText[0] == ""
    ensures r.Some? ==> r.value != "" && r.value == post.slugText[0]
  {
    if |post.slugText| > 0 && post.slugText[0] != "" then Some(post.slugText[0]) else None
  }

  /** One file of the export: its slug and its frontmatter. */
  datatype Written = Written(slug: string, frontmatter: Frontmatter)

  /** The files of the export loop over `posts`, in order; the file of a
      page is named after its slug. */
  function Export(posts: seq<NotionPost>, now: string): (r: seq<Written>)
    ensures |r| <= |posts|
    ensures forall j :: 0 <= j < |r| ==> r[j].slug != "" && r[j].frontmatter.slug == r[j].slug
    decreases |posts|
  {
    if |posts| == 0 then []
    else
      var last := posts[|posts| - 1];
      Export(posts[..|posts| - 1], now)
        + match SlugOf(last)
          case None => []
          case Some(slug) => [Written(slug, BuildFrontmatter(last, now))]
  }

  /** The export of a list is the export of all but its last page,
      followed by the last page's file if it has a slug. */
  lemma ExportSnoc(posts: seq<NotionPost>, now: string)
    requires |posts| > 0
    ensures var n := |posts| - 1;
            var r0 := Export(posts[..n], now);
            var r := Export(posts, now);
            && r[..|r0|] == r0
            && (SlugOf(posts[n]).None? ==> r == r0)
            && (SlugOf(posts[n]).Some? ==>
                  r == r0 + [Written(SlugOf(posts[n]).value, BuildFrontmatter(posts[n], now))])
  {
  }

  /** Every file written comes from a page with that slug and holds that
      page's frontmatter. */
  lemma {:induction false} ExportSound(posts: seq<NotionPost>, now: string, j: nat)
    requires j < |Export(posts, now)|
    ensures exists i :: 0 <= i < |posts| && SlugOf(posts[i]) == Some(Export(posts, now)[j].slug)
                        && Export(posts, now)[j].frontmatter == BuildFrontmatter(posts[i], now)
    decreases |posts|
  {
    var n := |posts| - 1;
    var init := posts[..n];
    var r0 := Export(init, now);
    ExportSnoc(posts, now);
    if j < |r0| {
      ExportSound(init, now, j);
      var i :| 0 <= i < |init| && SlugOf(init[i]) == Some(r0[j].slug)
               && r0[j].frontmatter == BuildFrontmatter(init[i], now);
      assert posts[i] == init[i];
    } else {
      assert SlugOf(posts[n]).Some?;
    }
  }

  /** Every page with a slug has its file written. */
  lemma {:induction false} ExportComplete(posts: seq<NotionPost>, now: string, i: nat)
    requires i < |posts| && SlugOf(posts[i]).Some?
    ensures Written(SlugOf(posts[i]).value, BuildFrontmatter(posts[i], now)) in Export(posts, now)
    decreases |posts|
  {
    var n := |posts| - 1;
    var init := posts[..n];
    var w := Written(SlugOf(posts[i]).value, BuildFrontmatter(posts[i], now));
    ExportSnoc(posts, now);
    if i < n {
      assert posts[i] == init[i];
      ExportComplete(init, now, i);
    }
  }

  /** A file is written for a slug exactly when some page has that slug. */
  lemma ExportMembership(posts: seq<NotionPost>, now: string, slug: string)
    ensures (exists j :: 0 <= j < |Export(posts, now)| && Export(posts, now)[j].slug == slug)
            <==> (exists i :: 0 <= i < |posts| && SlugOf(posts[i]) == Some(slug))
  {
    if exists j :: 0 <= j < |Export(posts, now)| && Export(posts, now)[j].slug == slug {
      var j :| 0 <= j < |Export(posts, now)| && Export(posts, now)[j].slug == slug;
      ExportSound(posts, now, j);
    }
    if exists i :: 0 <= i < |posts| && SlugOf(posts[i]) == Some(slug) {
      var i :| 0 <= i < |posts| && SlugOf(posts[i]) == Some(slug);
      ExportSlugComplete(posts, now, i);
    }
  }

  /** The slug of every page that has one is the slug of some written file. */
  lemma ExportSlugComplete(posts: seq<NotionPost>, now: string, i: nat)
    requires i < |posts| && SlugOf(posts[i]).Some?
    ensures exists j :: 0 <= j < |Export(posts, now)| && Export(posts, now)[j].slug == SlugOf(posts[i]).value
  {
    ExportComplete(posts, now, i);
    var r := Export(posts, now);
    var w := Written(SlugOf(posts[i]).value, BuildFrontmatter(posts[i], now));
    var j :| 0 <= j < |r| && r[j] == w;
    assert r[j].slug == w.slug;
  }

  /** Pages without a slug produce no file: an export of such pages only
      writes nothing, and adding one to a list changes nothing. */
  lemma {:induction false} SkippedPostsWriteNothing(posts: seq<NotionPost>, now: string, skipped: NotionPost)
    requires SlugOf(skipped).None?
    ensures Export(posts + [skipped], now) == Export(posts, now)
    ensures (forall i :: 0 <= i < |posts| ==> SlugOf(posts[i]).None?) ==> Export(posts, now) == []
    decreases |posts|
  {
    assert (posts + [skipped])[..|posts|] == posts;
    if |posts| > 0 && forall i :: 0 <= i < |posts| ==> SlugOf(posts[i]).None? {
      var init := posts[..|posts| - 1];
      SkippedPostsWriteNothing(init, now, skipped);
      assert forall i :: 0 <= i < |init| ==> init[i] == posts[i];
    }
  }

  /** The files left on disk after the export: each write replaces any
      earlier file of the same slug. */
  function Files(writes: seq<Written>): map<string, Frontmatter>
    decreases |writes|
  {
    if |writes| == 0 then map[]
    else Files(writes[..|writes| - 1])[writes[|writes| - 1].slug := writes[|writes| - 1].frontmatter]
  }

  /** A file is left on disk for exactly the slugs that were written. */
  lemma {:induction false} FilesKeys(writes: seq<Written>)
    ensures Files(writes).Keys == set w | w in writes :: w.slug
    decreases |writes|
  {
    if |writes| > 0 {
      var init := writes[..|writes| - 1];
      var last := writes[|writes| - 1];
      assert writes == init + [last];
      FilesKeys(init);
    }
  }

  /** Writing one more file replaces the entry of its slug. */
  lemma FilesSnoc(writes: seq<Written>, w: Written)
    ensures Files(writes + [w]) == Files(writes)[w.slug := w.frontmatter]
  {
    assert (writes + [w])[..|writes|] == writes;
  }

  /** The file of a slug holds the frontmatter of the last page with that
      slug. */
  lemma {:induction false} LastPageWins(posts: seq<NotionPost>, now: string, i: nat)
    requires i < |posts| && SlugOf(posts[i]).Some?
    requires forall j :: i < j < |posts| ==> SlugOf(posts[j]) != SlugOf(posts[i])
    ensures SlugOf(posts[i]).value in Files(Export(posts, now))
    ensures Files(Export(posts, now))[SlugOf(posts[i]).value] == BuildFrontmatter(posts[i], now)
    decreases |posts|
  {
    var n := |posts| - 1;
    var init := posts[..n];
    var r0 := Export(init, now);
    var slug := SlugOf(posts[i]).value;
    ExportSnoc(posts, now);
    if i < n {
      assert init[i] == posts[i];
      forall j | i < j < |init| ensures SlugOf(init[j]) != SlugOf(init[i]) {
        assert init[j] == posts[j];
      }
      LastPageWins(init, now, i);
      if SlugOf(posts[n]).Some? {
        var w := Written(SlugOf(posts[n]).value, BuildFrontmatter(posts[n], now));
        FilesSnoc(r0, w);
        assert w.slug != slug;
      }
    } else {
      FilesSnoc(r0, Written(slug, BuildFrontmatter(posts[n], now)));
    }
  }

  /** The export loop of the script, collecting the files it writes. */
  method ExportPosts(posts: seq<NotionPost>, now: string) returns (writes: seq<Written>)
    ensures writes == Export(posts, now)
  {
    writes := [];
    var i := 0;
    while i < |posts|
      invariant 0 <= i <= |posts|
      invariant writes == Export(posts[..i], now)
    {
      var post := posts[i];
      assert posts[..i + 1][..i] == posts[..i];
      if |post.slugText| > 0 && post.slugText[0] != "" {
        var slug := post.slugText[0];
        writes := writes + [Written(slug, BuildFrontmatter(post, now))];
      }
      i := i + 1;
    }
    assert posts[..i] == posts;
  }
}
