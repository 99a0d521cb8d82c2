/**
 * The crawler of viewer/crawler.go: extraction of `<a href>` and `<img src>`
 * references from a page, the per-reference rules that turn each one into a
 * `CrawData` entry or drop it, and the assembly of the two workers' output.
 *
 * Everything the Go code delegates to a library or to the network is an
 * oracle carried by `Env`: the page source, `url.Parse`, the goquery parse,
 * the regexp engine, the image fetch, `DetectImageType`, the base64 decoder
 * and `RandomId`.
 */
module Crawler {
  import opened Wrappers
  import opened Strings

  type Bytes = seq<bv8>

  /** `DataType`: an entry is an image file or a link to a sub-directory. */
  datatype DataType = Image | Href

  /** `ImageInfo`: an image reference and the `class` and `alt` attributes beside it. */
  datatype ImageInfo = ImageInfo(src: string, imgClass: string, alt: string)

  /** `CrawData`: one discovered resource; `data` is empty (Go's nil) for links. */
  datatype CrawData = CrawData(name: string, url: string, kind: DataType, data: Bytes)

  /** The three fields of a `*url.URL` the rules read. `url.Parse` lower-cases the scheme. */
  datatype Url = Url(scheme: string, host: string, path: string)

  /** A compiled regular expression, known by its pattern. */
  datatype Regex = Regex(pattern: string)

  /** One match of `FindAllStringSubmatch`: the whole match and capture group 1. */
  datatype Match = Match(whole: string, group: string)

  /** An element found by a goquery selection, with its attributes. */
  datatype Element = Element(attrs: map<string, string>)

  /** A parsed document: the `html a` and the `html img` selections, in document order. */
  datatype Document = Document(anchors: seq<Element>, images: seq<Element>)

  /**
   * The collaborators the crawler calls and that are not modelled:
   * `pageSource` is `getHtmlData`, `parseUrl` is `url.Parse`, `parseHtml` is
   * `goquery.NewDocumentFromReader`, `findAll` is `FindAllStringSubmatch(htm, -1)`,
   * `fetch` is `http.Get` followed by `ioutil.ReadAll`, `detect` is
   * `DetectImageType`, `decodeBase64` reads a `base64.StdEncoding` decoder to
   * its end, and `randomId(i)` is the `RandomId` drawn for the i-th image.
   */
  datatype Env = Env(
    pageSource: string -> Option<string>,
    parseUrl: string -> Option<Url>,
    parseHtml: string -> Option<Document>,
    findAll: (string, Regex) -> seq<Match>,
    fetch: string -> Option<Bytes>,
    detect: Bytes -> Option<string>,
    decodeBase64: string -> Option<Bytes>,
    randomId: nat -> string)

  const ImgRE := Regex("<img[^>]+\\bsrc=[\"']([^\"'><]*?)[\"']")
  const HrefRE := Regex("<a[^>]+\\bhref=[\"']([^\"'><]*?)[\"']")

  // ---------------------------------------------------------------------------
  // Extraction

  /** Capture group 1 of every match, in match order. */
  function Groups(ms: seq<Match>): (r: seq<string>)
    ensures |r| == |ms|
    ensures forall i :: 0 <= i < |ms| ==> r[i] == ms[i].group
  {
    seq(|ms|, i requires 0 <= i < |ms| => ms[i].group)
  }

  /** goquery's `Attr(key)` with the existence flag dropped: the value or "". */
  function AttrOr(el: Element, key: string): string
  {
    if key in el.attrs then el.attrs[key] else ""
  }

  /** The `href` of every anchor that has one, in document order. */
  function Hrefs(els: seq<Element>): seq<string>
  {
    if els == [] then []
    else
      var el := els[|els| - 1];
      Hrefs(els[..|els| - 1]) + (if "href" in el.attrs then [el.attrs["href"]] else [])
  }

  /** The `ImageInfo` of an `<img>` that has a `src`. */
  function InfoOf(el: Element): ImageInfo
    requires "src" in el.attrs
  {
    ImageInfo(el.attrs["src"], AttrOr(el, "class"), AttrOr(el, "alt"))
  }

  /** One `ImageInfo` per `<img>` that has a `src`, in document order. */
  function ImageInfos(els: seq<Element>): seq<ImageInfo>
  {
    if els == [] then []
    else
      var el := els[|els| - 1];
      ImageInfos(els[..|els| - 1]) + (if "src" in el.attrs then [InfoOf(el)] else [])
  }

  /** The regex fallback's image list: the bare sources, with empty `class` and `alt`. */
  function BareInfos(urls: seq<string>): seq<ImageInfo>
  {
    seq(|urls|, i requires 0 <= i < |urls| => ImageInfo(urls[i], "", ""))
  }

  /** The links `findLinks2` extracts from `htm`. */
  function ExtractLinks(htm: string, env: Env): seq<string>
  {
    match env.parseHtml(htm)
    case None => Groups(env.findAll(htm, HrefRE))
    case Some(doc) => Hrefs(doc.anchors)
  }

  /** The images `findImages2` extracts from `htm`. */
  function ExtractImages(htm: string, env: Env): seq<ImageInfo>
  {
    match env.parseHtml(htm)
    case None => BareInfos(Groups(env.findAll(htm, ImgRE)))
    case Some(doc) => ImageInfos(doc.images)
  }

  /** A string is among the extracted hrefs exactly when some anchor carries it. */
  lemma {:induction false} HrefsMembership(els: seq<Element>, x: string)
    ensures x in Hrefs(els)
        <==> exists i :: 0 <= i < |els| && "href" in els[i].attrs && els[i].attrs["href"] == x
  {
    if els != [] {
      var front := els[..|els| - 1];
      HrefsMembership(front, x);
      if x in Hrefs(front) {
        var i :| 0 <= i < |front| && "href" in front[i].attrs && front[i].attrs["href"] == x;
        assert els[i] == front[i];
      }
      if exists i :: 0 <= i < |els| && "href" in els[i].attrs && els[i].attrs["href"] == x {
        var i :| 0 <= i < |els| && "href" in els[i].attrs && els[i].attrs["href"] == x;
        if i < |els| - 1 {
          assert front[i] == els[i];
        }
      }
    }
  }

  /** When every anchor has an `href`, the links are those hrefs, one per anchor, in order. */
  lemma {:induction false} HrefsInOrder(els: seq<Element>)
    requires forall i :: 0 <= i < |els| ==> "href" in els[i].attrs
    ensures |Hrefs(els)| == |els|
    ensures forall i :: 0 <= i < |els| ==> Hrefs(els)[i] == els[i].attrs["href"]
  {
    if els != [] {
      var front := els[..|els| - 1];
      HrefsInOrder(front);
    }
  }

  /** An `ImageInfo` is extracted exactly when some `<img>` with a `src` produces it. */
  lemma {:induction false} ImageInfosMembership(els: seq<Element>, info: ImageInfo)
    ensures info in ImageInfos(els)
        <==> exists i :: 0 <= i < |els| && "src" in els[i].attrs && InfoOf(els[i]) == info
  {
    if els != [] {
      var front := els[..|els| - 1];
      ImageInfosMembership(front, info);
      if info in ImageInfos(front) {
        var i :| 0 <= i < |front| && "src" in front[i].attrs && InfoOf(front[i]) == info;
        assert els[i] == front[i];
      }
      if exists i :: 0 <= i < |els| && "src" in els[i].attrs && InfoOf(els[i]) == info {
        var i :| 0 <= i < |els| && "src" in els[i].attrs && InfoOf(els[i]) == info;
        if i < |els| - 1 {
          assert front[i] == els[i];
        }
      }
    }
  }

  /** `findElems`: one string per match, capture group 1, in match order. */
  method FindElems(htm: string, re: Regex, env: Env) returns (out: seq<string>)
    ensures |out| == |env.findAll(htm, re)|
    ensures forall i :: 0 <= i < |out| ==> out[i] == env.findAll(htm, re)[i].group
  {
    var elems := env.findAll(htm, re);
    var a := new string[|elems|];
    var i := 0;
    while i < a.Length
      invariant 0 <= i <= a.Length
      invariant forall k :: 0 <= k < i ==> a[k] == elems[k].group
    {
      a[i] := elems[i].group;
      i := i + 1;
    }
    out := a[..];
  }

  /** `findLinks`: the regex scan for `<a ... href=...>`. */
  method FindLinks(htm: string, env: Env) returns (out: seq<string>)
    ensures out == Groups(env.findAll(htm, HrefRE))
  {
    out := FindElems(htm, HrefRE, env);
  }

  /** `findImages`: one `ImageInfo` per `<img ... src=...>` match, with empty class and alt. */
  method FindImages(htm: string, env: Env) returns (result: seq<ImageInfo>)
    ensures |result| == |env.findAll(htm, ImgRE)|
    ensures forall i :: 0 <= i < |result| ==>
      result[i] == ImageInfo(env.findAll(htm, ImgRE)[i].group, "", "")
  {
    var urls := FindElems(htm, ImgRE, env);
    result := [];
    for i := 0 to |urls|
      invariant |result| == i
      invariant forall k :: 0 <= k < i ==> result[k] == ImageInfo(urls[k], "", "")
    {
      result := result + [ImageInfo(urls[i], "", "")];
    }
  }

  /** `findLinks2`: the hrefs of the parsed anchors, or the regex scan if parsing fails. */
  method FindLinks2(htm: string, env: Env) returns (result: seq<string>)
    ensures result == ExtractLinks(htm, env)
  {
    var doc := env.parseHtml(htm);
    if doc.None? {
      result := FindLinks(htm, env);
      return;
    }
    var anchors := doc.value.anchors;
    result := [];
    for i := 0 to |anchors|
      invariant result == Hrefs(anchors[..i])
    {
      var s := anchors[i];
      if "href" in s.attrs {
        result := result + [s.attrs["href"]];
      }
      assert anchors[..i + 1][..i] == anchors[..i];
    }
    assert anchors[..|anchors|] == anchors;
  }

  /** `findImages2`: the parsed `<img>` elements with a `src`, or the regex scan if parsing fails. */
  method FindImages2(htm: string, env: Env) returns (result: seq<ImageInfo>)
    ensures result == ExtractImages(htm, env)
  {
    var doc := env.parseHtml(htm);
    if doc.None? {
      result := FindImages(htm, env);
      return;
    }
    var imgs := doc.value.images;
    result := [];
    for i := 0 to |imgs|
      invariant result == ImageInfos(imgs[..i])
    {
      var s := imgs[i];
      var cls := AttrOr(s, "class");
      var alt := AttrOr(s, "alt");
      if "src" in s.attrs {
        result := result + [ImageInfo(s.attrs["src"], cls, alt)];
      }
      assert imgs[..i + 1][..i] == imgs[..i];
    }
    assert imgs[..|imgs|] == imgs;
  }

  // ---------------------------------------------------------------------------
  // Per-reference rules

  /**
   * The reference after relative resolution: a reference without a scheme
   * becomes `scheme://host/` of the page followed by its own path; the page's
   * path, the reference's query and fragment and any host it had are dropped.
   */
  function ResolvedSrc(base: Url, u: Url, src: string): string
  {
    if u.scheme == "" then base.scheme + "://" + base.host + "/" + u.path else src
  }

  /** The scheme the reference has after resolution. */
  function EffectiveScheme(base: Url, u: Url): string
  {
    if u.scheme == "" then base.scheme else u.scheme
  }

  /** A link's file name: no `scheme://`, no trailing `/`, every other `/` turned into `_`. */
  function LinkName(src: string, scheme: string): (name: string)
    ensures '/' !in name
  {
    ReplaceAll(TrimRight(TrimPrefix(src, scheme + "://"), '/'), '/', '_')
  }

  /**
   * The body of the goroutine `crawSublink` starts per link: `parsed` is
   * `url.Parse(src)`. The link is dropped when it does not parse or is a
   * `javascript:` link; otherwise it becomes a sub-directory entry named
   * without any `/`, pointing at the resolved URL, with no data.
   */
  function LinkEntry(base: Url, src: string, parsed: Option<Url>): (r: Option<CrawData>)
    ensures r.Some? <==> parsed.Some? && parsed.value.scheme != "javascript"
    ensures r.Some? ==>
      && r.value.kind == Href
      && r.value.data == []
      && r.value.url == ResolvedSrc(base, parsed.value, src)
      && '/' !in r.value.name
  {
    match parsed
    case None => None
    case Some(u) =>
      if u.scheme == "javascript" then None
      else
        var resolved := ResolvedSrc(base, u, src);
        Some(CrawData(LinkName(resolved, EffectiveScheme(base, u)), resolved, Href, []))
  }

  /**
   * A relative link becomes `scheme://host/path` of the page and is named
   * after `host/path` with trailing `/` trimmed and `/` turned into `_`.
   */
  lemma RelativeLinkResolution(base: Url, src: string, u: Url)
    requires u.scheme == ""
    ensures LinkEntry(base, src, Some(u)) == Some(CrawData(
      ReplaceAll(TrimRight(base.host + "/" + u.path, '/'), '/', '_'),
      base.scheme + "://" + base.host + "/" + u.path,
      Href, []))
  {
    var p := base.scheme + "://";
    var x := base.host + "/" + u.path;
    assert base.scheme + "://" + base.host + "/" + u.path == p + x;
    TrimPrefixOfConcat(p, x);
  }

  /** The name `host/g` gets: `host_g`, when neither part holds `/` and `g` is not empty. */
  lemma HostPathName(h: string, g: string)
    requires '/' !in h && '/' !in g && g != ""
    ensures TrimRight(h + "/" + g, '/') == h + "/" + g
    ensures ReplaceAll(h + "/" + g, '/', '_') == h + "_" + g
  {
    var s := h + "/" + g;
    assert s[|s| - 1] == g[|g| - 1];
    ReplaceAllUnchanged(h, '/', '_');
    ReplaceAllUnchanged(g, '/', '_');
    ReplaceAllAround(h, g, '/', '_');
  }

  /** The name `host//g` gets: `host__g`. */
  lemma HostRootPathName(h: string, g: string)
    requires '/' !in h && '/' !in g && g != ""
    ensures ReplaceAll(TrimRight(h + "/" + ("/" + g), '/'), '/', '_') == h + "_" + ("_" + g)
  {
    var s := h + "/" + ("/" + g);
    assert s[|s| - 1] == g[|g| - 1];
    assert TrimRight(s, '/') == s;
    ReplaceAllUnchanged(h, '/', '_');
    ReplaceAllUnchanged(g, '/', '_');
    ReplaceAllAround([], g, '/', '_');
    assert [] + ['/'] + g == "/" + g;
    ReplaceAllAround(h, "/" + g, '/', '_');
  }

  /**
   * A root-relative reference `/g` on a page `scheme://host/...` becomes
   * `scheme://host//g` and is named `host__g`: the page's own path plays no
   * part and the reference's leading `/` is kept (on `http://x.test/a/`,
   * `href="/gallery"` gives `http://x.test//gallery`, named `x.test__gallery`).
   */
  lemma RootRelativeLink(base: Url, g: string)
    requires '/' !in base.host && '/' !in g && g != ""
    ensures LinkEntry(base, "/" + g, Some(Url("", "", "/" + g)))
         == Some(CrawData(base.host + "_" + ("_" + g), base.scheme + "://" + base.host + "/" + ("/" + g), Href, []))
  {
    RelativeLinkResolution(base, "/" + g, Url("", "", "/" + g));
    HostRootPathName(base.host, g);
  }

  /**
   * A path-relative reference `g` becomes `scheme://host/g`, named `host_g`,
   * whatever the page's path (on `http://x.test/a/`, `href="d"` gives
   * `http://x.test/d`, not `http://x.test/a/d`).
   */
  lemma PathRelativeLink(base: Url, g: string)
    requires '/' !in base.host && '/' !in g && g != ""
    ensures LinkEntry(base, g, Some(Url("", "", g)))
         == Some(CrawData(base.host + "_" + g, base.scheme + "://" + base.host + "/" + g, Href, []))
  {
    RelativeLinkResolution(base, g, Url("", "", g));
    HostPathName(base.host, g);
  }

  /**
   * An absolute link `scheme://rest` keeps its URL and is named after `rest`
   * with trailing `/` trimmed and `/` turned into `_`.
   */
  lemma AbsoluteLinkName(base: Url, u: Url, rest: string)
    requires u.scheme != "" && u.scheme != "javascript"
    ensures LinkEntry(base, u.scheme + "://" + rest, Some(u))
         == Some(CrawData(ReplaceAll(TrimRight(rest, '/'), '/', '_'), u.scheme + "://" + rest, Href, []))
  {
    TrimPrefixOfConcat(u.scheme + "://", rest);
  }

  /**
   * Link names are not unique: `scheme://h/g` and `scheme://h/g/` are both
   * named `h_g` (`http://a.test/b` and `http://a.test/b/` both give `a.test_b`).
   */
  lemma LinkNamesCanCollide(base: Url, u: Url, u': Url, h: string, g: string)
    requires u.scheme == u'.scheme && u.scheme != "" && u.scheme != "javascript"
    requires '/' !in h && '/' !in g && g != ""
    ensures LinkEntry(base, u.scheme + "://" + (h + "/" + g), Some(u)).value.name == h + "_" + g
    ensures LinkEntry(base, u.scheme + "://" + (h + "/" + g + "/"), Some(u')).value.name == h + "_" + g
  {
    var s := h + "/" + g;
    AbsoluteLinkName(base, u, s);
    AbsoluteLinkName(base, u', s + "/");
    HostPathName(h, g);
    assert TrimRight(s + "/", '/') == s by {
      assert (s + "/")[..|s + "/"| - 1] == s;
    }
  }

  /**
   * What base64 decoding reads from a data URI: everything after the first
   * `,`; without a `,` the index is -1 and the whole source is read.
   */
  function Base64Payload(src: string): (payload: string)
    ensures ',' in src ==> exists k :: 0 <= k < |src| && src[k] == ',' && ',' !in src[..k] && payload == src[k + 1..]
    ensures ',' !in src ==> payload == src
  {
    src[IndexOf(src, ',') + 1..]
  }

  /**
   * A remote image's file name: the `alt` text followed by the random id and,
   * when the fetched bytes' format is detected, `.` and that format;
   * otherwise the last `/`-separated field of the path, or the random id when
   * that field is empty.
   */
  function RemoteName(info: ImageInfo, u: Url, id: string, detected: Option<string>): string
  {
    if info.alt != "" then
      info.alt + id + (if detected.Some? then "." + detected.value else "")
    else
      var field := LastField(u.path, '/');
      if field == "" then id else field
  }

  /** The condition under which an image source is handled as an inline data URI. */
  predicate IsDataImage(u: Url, src: string)
  {
    u.scheme == "data" && HasPrefix(src, "data:image")
  }

  /**
   * The body of the goroutine `crawlImg` starts per image: `parsed` is
   * `url.Parse(info.src)` and `id` the random id the item would draw.
   */
  function ImageEntry(base: Url, info: ImageInfo, parsed: Option<Url>, id: string, env: Env): (r: Option<CrawData>)
    ensures r.Some? ==> r.value.kind == Image
  {
    match parsed
    case None => None
    case Some(u) =>
      if u.scheme == "javascript" then None
      else if IsDataImage(u, info.src) then
        (match env.decodeBase64(Base64Payload(info.src))
         case None => None
         case Some(bytes) =>
           (match env.detect(bytes)
            case None => None
            case Some(fm) => Some(CrawData(info.imgClass + id + "." + fm, info.src, Image, bytes))))
      else
        var src := ResolvedSrc(base, u, info.src);
        (match env.fetch(src)
         case None => None
         case Some(raw) => Some(CrawData(RemoteName(info, u, id, env.detect(raw)), src, Image, raw)))
  }

  /** An image source that does not parse, or is a `javascript:` URL, gives no entry. */
  lemma ImageDropped(base: Url, info: ImageInfo, parsed: Option<Url>, id: string, env: Env)
    requires parsed.None? || parsed.value.scheme == "javascript"
    ensures ImageEntry(base, info, parsed, id, env).None?
  {
  }

  /**
   * A `data:image…` source is kept exactly when its payload decodes and the
   * decoded bytes' format is detected; the file is then named
   * `class + id + "." + format`, holds the decoded bytes, and keeps the data
   * URI as its URL.
   */
  lemma DataUriImage(base: Url, info: ImageInfo, u: Url, id: string, env: Env)
    requires IsDataImage(u, info.src)
    ensures var r := ImageEntry(base, info, Some(u), id, env);
      var decoded := env.decodeBase64(Base64Payload(info.src));
      && (r.Some? <==> decoded.Some? && env.detect(decoded.value).Some?)
      && (r.Some? ==>
            r.value == CrawData(info.imgClass + id + "." + env.detect(decoded.value).value,
                                info.src, Image, decoded.value))
  {
  }

  /**
   * Any other image is fetched from its resolved URL and kept exactly when
   * the fetch succeeds; it then holds the fetched bytes under the name
   * `RemoteName` gives.
   */
  lemma RemoteImage(base: Url, info: ImageInfo, u: Url, id: string, env: Env)
    requires u.scheme != "javascript" && !IsDataImage(u, info.src)
    ensures var r := ImageEntry(base, info, Some(u), id, env);
      var src := ResolvedSrc(base, u, info.src);
      && (r.Some? <==> env.fetch(src).Some?)
      && (r.Some? ==>
            && r.value.url == src
            && r.value.data == env.fetch(src).value
            && r.value.name == RemoteName(info, u, id, env.detect(env.fetch(src).value)))
  {
  }

  /**
   * Without `alt`, a remote image is named after the last path field, which
   * holds no `/`, or after the random id; with `alt` the name starts with the
   * `alt` text and the id, and ends with `.format` exactly when detection succeeds.
   */
  lemma RemoteNameRules(info: ImageInfo, u: Url, id: string, detected: Option<string>)
    ensures var name := RemoteName(info, u, id, detected);
      && (info.alt == "" && '/' !in id ==> '/' !in name)
      && (info.alt == "" && LastField(u.path, '/') != "" ==>
            name == LastField(u.path, '/') && |name| <= |u.path| && u.path[|u.path| - |name|..] == name)
      && (info.alt == "" && LastField(u.path, '/') == "" ==> name == id)
      && (info.alt != "" ==> HasPrefix(name, info.alt + id))
      && (info.alt != "" && detected.Some? ==> name == info.alt + id + "." + detected.value)
      && (info.alt != "" && detected.None? ==> name == info.alt + id)
  {
    LastFieldIsSuffix(u.path, '/');
    var name := RemoteName(info, u, id, detected);
    if info.alt != "" {
      assert name[..|info.alt + id|] == info.alt + id;
    }
  }

  /**
   * Unlike link names, a name taken from `alt` text keeps any `/` in it:
   * `alt="a/b"` gives a file name that is not a single path component.
   */
  lemma AltNameMayHoldSlash(u: Url, id: string)
    ensures '/' in RemoteName(ImageInfo("x.png", "", "a/b"), u, id, None)
  {
    assert RemoteName(ImageInfo("x.png", "", "a/b"), u, id, None)[1] == '/';
  }

  // ---------------------------------------------------------------------------
  // The two workers and their assembly

  /**
   * What a worker sends on the channel: one entry for every input its rule
   * `f` keeps, in input order; the rule also sees the input's index.
   */
  function Sent<A, B>(f: (nat, A) -> Option<B>, xs: seq<A>): (r: seq<B>)
    ensures |r| <= |xs|
  {
    if xs == [] then []
    else Sent(f, xs[..|xs| - 1]) + Emit(f(|xs| - 1, xs[|xs| - 1]))
  }

  /** Running the rule on one more input sends at most that input's entry. */
  lemma SentSnoc<A, B>(f: (nat, A) -> Option<B>, xs: seq<A>, i: nat)
    requires i < |xs|
    ensures Sent(f, xs[..i + 1]) == Sent(f, xs[..i]) + Emit(f(i, xs[i]))
  {
    assert xs[..i + 1][..i] == xs[..i];
  }

  /** An entry is sent exactly when the rule keeps some input and produces that entry from it. */
  lemma {:induction false} SentMembership<A, B>(f: (nat, A) -> Option<B>, xs: seq<A>, e: B)
    ensures e in Sent(f, xs) <==> exists i :: 0 <= i < |xs| && f(i, xs[i]) == Some(e)
  {
    if xs != [] {
      var n := |xs| - 1;
      var front := xs[..n];
      SentMembership(f, front, e);
      assert Sent(f, xs) == Sent(f, front) + Emit(f(n, xs[n]));
      if e in Sent(f, front) {
        var i :| 0 <= i < |front| && f(i, front[i]) == Some(e);
        assert xs[i] == front[i];
      }
      if exists i :: 0 <= i < |xs| && f(i, xs[i]) == Some(e) {
        var i :| 0 <= i < |xs| && f(i, xs[i]) == Some(e);
        if i < |xs| - 1 {
          assert front[i] == xs[i];
        }
      }
    }
  }

  /** The link worker's rule: `LinkEntry` on the link and its parse. */
  function LinkRule(base: Url, env: Env): (nat, string) -> Option<CrawData>
  {
    (i: nat, src: string) => LinkEntry(base, src, env.parseUrl(src))
  }

  /** The image worker's rule: the i-th image draws the id `env.randomId(i)`. */
  function ImageRule(base: Url, env: Env): (nat, ImageInfo) -> Option<CrawData>
  {
    (i: nat, info: ImageInfo) => ImageEntry(base, info, env.parseUrl(info.src), env.randomId(i), env)
  }

  /** What the link worker sends, one entry per kept link, in link order. */
  function LinkEntries(base: Url, links: seq<string>, env: Env): seq<CrawData>
  {
    Sent(LinkRule(base, env), links)
  }

  /** What the image worker sends, one entry per kept image, in image order. */
  function ImageEntries(base: Url, infos: seq<ImageInfo>, env: Env): seq<CrawData>
  {
    Sent(ImageRule(base, env), infos)
  }

  /**
   * An entry is sent by the link worker exactly when some link produces it;
   * every such entry is a directory entry without data and without `/` in its name.
   */
  lemma LinkEntriesMembership(base: Url, links: seq<string>, env: Env, e: CrawData)
    ensures e in LinkEntries(base, links, env)
        <==> exists i :: 0 <= i < |links| && LinkEntry(base, links[i], env.parseUrl(links[i])) == Some(e)
    ensures e in LinkEntries(base, links, env) ==> e.kind == Href && e.data == [] && '/' !in e.name
  {
    var rule := LinkRule(base, env);
    SentMembership(rule, links, e);
    if e in LinkEntries(base, links, env) {
      var i :| 0 <= i < |links| && rule(i, links[i]) == Some(e);
      assert LinkEntry(base, links[i], env.parseUrl(links[i])) == Some(e);
    }
    if exists i :: 0 <= i < |links| && LinkEntry(base, links[i], env.parseUrl(links[i])) == Some(e) {
      var i :| 0 <= i < |links| && LinkEntry(base, links[i], env.parseUrl(links[i])) == Some(e);
      assert rule(i, links[i]) == Some(e);
    }
  }

  /** An entry is sent by the image worker exactly when some image, with its own id, produces it; it is a file entry. */
  lemma ImageEntriesMembership(base: Url, infos: seq<ImageInfo>, env: Env, e: CrawData)
    ensures e in ImageEntries(base, infos, env)
        <==> exists i :: 0 <= i < |infos|
               && ImageEntry(base, infos[i], env.parseUrl(infos[i].src), env.randomId(i), env) == Some(e)
    ensures e in ImageEntries(base, infos, env) ==> e.kind == Image
  {
    var rule := ImageRule(base, env);
    SentMembership(rule, infos, e);
    if e in ImageEntries(base, infos, env) {
      var i :| 0 <= i < |infos| && rule(i, infos[i]) == Some(e);
      assert ImageEntry(base, infos[i], env.parseUrl(infos[i].src), env.randomId(i), env) == Some(e);
    }
    if exists i :: 0 <= i < |infos|
         && ImageEntry(base, infos[i], env.parseUrl(infos[i].src), env.randomId(i), env) == Some(e) {
      var i :| 0 <= i < |infos|
         && ImageEntry(base, infos[i], env.parseUrl(infos[i].src), env.randomId(i), env) == Some(e);
      assert rule(i, infos[i]) == Some(e);
    }
  }

  /** `crawSublink`: runs the link rule on every extracted link and sends what it keeps. */
  method CrawSublink(baseUrl: string, htm: string, env: Env) returns (sent: seq<CrawData>)
    requires env.parseUrl(baseUrl).Some?
    ensures sent == LinkEntries(env.parseUrl(baseUrl).value, ExtractLinks(htm, env), env)
  {
    var baseU := env.parseUrl(baseUrl).value;
    var links := FindLinks2(htm, env);
    sent := [];
    for i := 0 to |links|
      invariant sent == LinkEntries(baseU, links[..i], env)
    {
      var src := links[i];
      var entry := LinkEntry(baseU, src, env.parseUrl(src));
      SentSnoc(LinkRule(baseU, env), links, i);
      if entry.Some? {
        sent := sent + [entry.value];
      }
    }
    assert links[..|links|] == links;
  }

  /** `crawlImg`: runs the image rule on every extracted image and sends what it keeps. */
  method CrawlImg(baseUrl: string, htm: string, env: Env) returns (sent: seq<CrawData>)
    requires env.parseUrl(baseUrl).Some?
    ensures sent == ImageEntries(env.parseUrl(baseUrl).value, ExtractImages(htm, env), env)
  {
    var baseU := env.parseUrl(baseUrl).value;
    var infos := FindImages2(htm, env);
    sent := [];
    for i := 0 to |infos|
      invariant sent == ImageEntries(baseU, infos[..i], env)
    {
      var info := infos[i];
      var entry := ImageEntry(baseU, info, env.parseUrl(info.src), env.randomId(i), env);
      SentSnoc(ImageRule(baseU, env), infos, i);
      if entry.Some? {
        sent := sent + [entry.value];
      }
    }
    assert infos[..|infos|] == infos;
  }

  /**
   * The result of `Crawl(link)`: nothing when the page cannot be fetched,
   * otherwise the image worker's entries and then the link worker's.
   * A page that was fetched has a URL that parses (`http.Get` parses it first).
   */
  function CrawlResult(link: string, env: Env): Option<seq<CrawData>>
    requires env.pageSource(link).Some? ==> env.parseUrl(link).Some?
  {
    match env.pageSource(link)
    case None => None
    case Some(html) =>
      var base := env.parseUrl(link).value;
      Some(ImageEntries(base, ExtractImages(html, env), env) + LinkEntries(base, ExtractLinks(html, env), env))
  }

  /**
   * `Crawl` fails exactly when the page fetch fails; per-item failures never
   * make it fail. Its entries are those of the two workers: the images of the
   * page and its links, each link named without `/` and carrying no data.
   */
  lemma CrawlOutcome(link: string, env: Env)
    requires env.pageSource(link).Some? ==> env.parseUrl(link).Some?
    ensures CrawlResult(link, env).None? <==> env.pageSource(link).None?
    ensures CrawlResult(link, env).Some? ==>
      var base := env.parseUrl(link).value;
      var html := env.pageSource(link).value;
      forall e :: e in CrawlResult(link, env).value <==>
        || (e.kind == Image && e in ImageEntries(base, ExtractImages(html, env), env))
        || (e.kind == Href && '/' !in e.name && e.data == [] && e in LinkEntries(base, ExtractLinks(html, env), env))
  {
    if env.pageSource(link).Some? {
      var base := env.parseUrl(link).value;
      var html := env.pageSource(link).value;
      var images := ImageEntries(base, ExtractImages(html, env), env);
      var links := LinkEntries(base, ExtractLinks(html, env), env);
      assert CrawlResult(link, env).value == images + links;
      forall e: CrawData
        ensures e in images + links <==>
          || (e.kind == Image && e in images)
          || (e.kind == Href && '/' !in e.name && e.data == [] && e in links)
      {
        ImageEntriesMembership(base, ExtractImages(html, env), env, e);
        LinkEntriesMembership(base, ExtractLinks(html, env), env, e);
      }
    }
  }

  /** `Crawl`: fetch the page, run both workers, and collect everything sent on the channel. */
  method Crawl(link: string, env: Env) returns (r: Option<seq<CrawData>>)
    requires env.pageSource(link).Some? ==> env.parseUrl(link).Some?
    ensures r == CrawlResult(link, env)
  {
    var data := env.pageSource(link);
    if data.None? {
      return None;
    }
    var html := data.value;
    var images := CrawlImg(link, html, env);
    var links := CrawSublink(link, html, env);
    var channel := images + links;
    var result := [];
    for i := 0 to |channel|
      invariant result == channel[..i]
    {
      result := result + [channel[i]];
    }
    assert channel[..|channel|] == channel;
    r := Some(result);
  }
}
