# image_viewer: crawler and virtual file tree

`image_viewer` mounts a web site as a read-only directory tree. The mount
point's root shows the images of one page as files and the links of that
page as sub-directories. Entering a sub-directory crawls the page behind its
link, and so on recursively.

This project models the two parts that do the work:

- **The crawler** (`viewer/crawler.go`), in `crawler.dfy`, module `Crawler`.
  - It extracts hrefs and `<img>` sources from a page. It uses the HTML
    parser's elements, or regular expressions when parsing fails.
  - It turns each link into a directory entry. This step applies the
    link's own resolution and naming rules.
  - It turns each image into a file entry:
    - a `data:image` URI is decoded inline;
    - any other image is fetched, then named after its `alt` text, its last
      path field or a random id.
  - It collects both workers' entries into one crawl result.
- **The file server** (`viewer/file_server.go`), in `file_server.dfy`,
  module `FileServer`. The `ImageFs` class holds four tables:
  - attributes, by full path;
  - file contents, by full path;
  - directory listings, by directory;
  - origin URLs, by directory name.

  `OpenDir` fills the tables from one crawl the first time a directory is
  listed. `GetAttr` and `Open` answer from the tables.

Two small support modules complete the project. `strings.dfy` holds the Go
`strings` functions the naming rules use: `HasPrefix`, `TrimPrefix`,
`TrimRight`, `Replace`, `Index` and `Split`. It also holds `JoinWith`, which
the Go code does not call: it only states the round trip that pins `Split`
down. `wrappers.dfy` holds `Option`.

Everything the code delegates to a library is a parameter. For the crawler,
these are bundled in `Crawler.Env`:

- fetching the page;
- `url.Parse`;
- goquery's document parser;
- the regex engine;
- fetching an image;
- `DetectImageType`;
- base64 decoding;
- `RandomId`.

The file server takes the crawl itself as a function `crawl(link)`, which
gives `None` when the crawl fails. `Crawler.CrawlResult(_, env)` is such a
function only for an `env` in which every page that can be fetched has a URL
that parses, because `CrawlResult` requires that of its link.

The loops of the source are methods with loop invariants.
- `FindLinks2`, `FindImages2`, `CrawSublink`, `CrawlImg` and the loop of
  `GetData` are proved equal to specification functions defined by recursion
  on the input's last element. The properties of the source are lemmas about
  those functions.
- `FindElems`, `FindImages`, `Crawl`'s draining of the channel and
  `ToDirEntries` are proved against their contracts directly: position by
  position for the first three, and by the elements listed for the last.

- **Extraction** keeps exactly the elements carrying the attribute, in
  document order.
- **Links:**
  - a link is kept iff it parses and is not `javascript:`;
  - a relative reference resolves to `scheme://host/` of the page followed
    by its own path, whatever the page's path;
  - a link name never holds `/`;
  - link names can collide.
- **Images:**
  - a data-URI image is kept iff its payload decodes and its format is
    detected;
  - a remote image is kept iff it is fetched;
  - the naming rules are stated case by case.
- **The crawl** fails exactly when the page fetch fails. Its entries are
  exactly the images and links some element produces.
- **Populating a directory:**
  - makes its listing exactly the set of the crawled items' entries (two
    items with the same name and kind give one entry);
  - gives each item whose path no later item reuses its own attributes, and
    an image its contents;
  - records each link's URL under its name;
  - leaves every other path and name unchanged and never forgets a key;
  - preserves a consistency invariant (`FileServer.Consistent`).
- **Under `Consistent`,** every directory the tree lists has an origin URL.
  So the "url not found" branch of `OpenDir` is unreachable for listed
  directories.
- **Listing a directory a second time** returns the same entries and
  crawls nothing.

## Model

| member | source | states |
|---|---|---|
| Crawler.FindElems | viewer/crawler.go:68-75 | one result per regex match, in match order, each the match's first capture group |
| Crawler.FindLinks | viewer/crawler.go:77-79 | the capture groups of the href regex's matches |
| Crawler.FindImages | viewer/crawler.go:81-88 | one `ImageInfo` per img-regex match, source = capture group, empty class and alt, in order |
| Crawler.HrefsMembership | viewer/crawler.go:96-103 | a string is among the parsed links iff some anchor carries it as `href` |
| Crawler.HrefsInOrder | viewer/crawler.go:96-103 | when every anchor has an `href`, the links are exactly those hrefs, one per anchor, in document order |
| Crawler.ImageInfosMembership | viewer/crawler.go:112-121 | an `ImageInfo` is extracted iff some `<img>` with a `src` gives it (with its class and alt, or "" when absent) |
| Crawler.FindLinks2 | viewer/crawler.go:90-104 | the parsed anchors' hrefs, in order; the regex scan when the document does not parse |
| Crawler.FindImages2 | viewer/crawler.go:106-122 | the parsed `<img>` elements that have a `src`, in order; the regex scan when the document does not parse |
| Crawler.LinkName | viewer/crawler.go:148-153 | a link's file name never contains `/` |
| Crawler.LinkEntry | viewer/crawler.go:131-154 | a link gives an entry iff it parses and its scheme is not `javascript`; the entry is a directory entry with no data, whose URL is the resolved reference and whose name holds no `/` |
| Crawler.RelativeLinkResolution | viewer/crawler.go:142-153 | a reference without a scheme resolves to `scheme://host/` of the page followed by the reference's path, and is named after `host/path` trimmed of trailing `/` with `/` turned into `_` |
| Crawler.HostPathName | viewer/crawler.go:148-153 | `host/g`, both parts free of `/` and `g` non-empty, is named `host_g` |
| Crawler.HostRootPathName | viewer/crawler.go:148-153 | `host//g` is named `host__g` |
| Crawler.RootRelativeLink | viewer/crawler.go:142-153 | a root-relative `/g` becomes `scheme://host//g`, named `host__g`, whatever the page's path |
| Crawler.PathRelativeLink | viewer/crawler.go:142-153 | a path-relative `g` becomes `scheme://host/g`, named `host_g`; the page's own path is dropped |
| Crawler.AbsoluteLinkName | viewer/crawler.go:148-154 | an absolute link keeps its URL and is named after the part after `scheme://`, with trailing `/` trimmed and `/` turned into `_` |
| Crawler.LinkNamesCanCollide | viewer/crawler.go:148-154 | `scheme://h/g` and `scheme://h/g/` get the same name `h_g` |
| Crawler.Base64Payload | viewer/crawler.go:183-187 | the decoded text is everything after the first `,`; without a `,` the whole source |
| Crawler.ImageEntry | viewer/crawler.go:169-249 | every entry an image gives is a file entry |
| Crawler.ImageDropped | viewer/crawler.go:170-179 | an image source that does not parse, or is `javascript:`, gives nothing |
| Crawler.DataUriImage | viewer/crawler.go:182-202 | a `data:image` source is kept iff its payload decodes and its format is detected; the entry is named class + id + "." + format, holds the decoded bytes and keeps the URI as its URL |
| Crawler.RemoteImage | viewer/crawler.go:205-249 | any other image is kept iff fetching its resolved URL succeeds; the entry carries that URL, the fetched bytes and the name `RemoteName` gives |
| Crawler.RemoteNameRules | viewer/crawler.go:213-247 | without alt: the last path field (a suffix of the path, without `/`), or the id when that field is empty; with alt: alt + id, followed by "." + format exactly when detection succeeds |
| Crawler.AltNameMayHoldSlash | viewer/crawler.go:215-219 | a name taken from alt text can contain `/` |
| Crawler.Sent | viewer/crawler.go:127-156 | a worker sends at most one entry per input (a bound only; what is sent is stated by `SentSnoc` and `SentMembership`) |
| Crawler.SentSnoc | viewer/crawler.go:127-156 | one more input adds at most that input's entry, at the end |
| Crawler.SentMembership | viewer/crawler.go:127-156 | an entry is sent iff the per-item rule produces it from some input |
| Crawler.LinkEntriesMembership | viewer/crawler.go:124-159 | the link worker sends an entry iff some extracted link produces it; every such entry is a data-less directory entry without `/` in its name |
| Crawler.ImageEntriesMembership | viewer/crawler.go:161-254 | the image worker sends an entry iff some extracted image, with its own random id, produces it; every such entry is a file entry |
| Crawler.CrawSublink | viewer/crawler.go:124-159 | what the link worker sends equals the link rule run over the extracted links |
| Crawler.CrawlImg | viewer/crawler.go:161-254 | what the image worker sends equals the image rule run over the extracted images |
| Crawler.CrawlOutcome | viewer/crawler.go:256-276 | the crawl fails iff the page fetch fails; otherwise its entries are exactly the image worker's file entries and the link worker's directory entries |
| Crawler.Crawl | viewer/crawler.go:256-276 | the collected channel contents equal `CrawlResult`: nothing on a failed fetch, otherwise every sent entry |
| Strings.TrimPrefix | viewer/crawler.go:151 | removes the prefix exactly when present, so that prefix + result is the input |
| Strings.TrimRight | viewer/crawler.go:150-152 | the result is a prefix of the input that does not end with the cut character, and only that character was removed |
| Strings.ReplaceAll | viewer/crawler.go:149-153 | every occurrence is replaced and nothing else changes; the replaced character no longer occurs |
| Strings.IndexOf | viewer/crawler.go:183 | the first position of the character, or -1 exactly when it does not occur |
| Strings.Split | viewer/crawler.go:222 | at least one field, and no field holds the separator |
| Strings.JoinSplit | viewer/crawler.go:222 | joining the fields with the separator gives the string back |
| Strings.LastFieldIsSuffix | viewer/crawler.go:222-223 | the last field is the suffix after the last separator (or the whole string) and holds no separator |
| Strings.LastFieldAfterSep | viewer/file_server.go:128-129 | the last field of `x/n` is `n` when `n` has no `/` |
| FileServer.JoinLastField | viewer/file_server.go:53 | under a non-empty directory, a name without `/` is the last component of the joined path |
| FileServer.Join | viewer/file_server.go:53 | the joined path is the directory, then exactly one `/` unless the directory already ends with one, then the name; an empty part is dropped |
| FileServer.FullPath | viewer/file_server.go:49-55 | "/" for an entry named like the mount point at the root; otherwise the join of directory and name (the bare name at the root); under a directory, the name is the path's last component |
| FileServer.ToDirEntries | viewer/file_server.go:40-47 | the result holds every element of the set, each exactly once |
| FileServer.RecordEntries | viewer/file_server.go:79-80 | recording an item adds exactly its entry (file for an image, directory for a link) to the directory's listing |
| FileServer.RecordAllEntries | viewer/file_server.go:68-92 | the loop adds the set of the crawled items' entries to the listing and touches no other listing |
| FileServer.PopulateEntries | viewer/file_server.go:63-93 | after `getData`, the directory's listing is exactly the set of the crawled items' entries: every item's entry is listed and every listed entry is some item's |
| FileServer.RecordAllLast | viewer/file_server.go:68-91 | an item whose path no later item reuses ends with its own attributes (a 0644 file of its data's length, or a 0755 directory), and an image with its own contents |
| FileServer.RecordAllAttrsFrame | viewer/file_server.go:68-91 | a path no crawled item maps to keeps its attributes, or stays absent |
| FileServer.RecordAllContentsFrame | viewer/file_server.go:78 | only images write contents: a path no crawled image maps to keeps its contents, or stays absent |
| FileServer.RecordAllUrl | viewer/file_server.go:90 | a link whose name no later link reuses has its URL recorded under its bare name |
| FileServer.RecordAllUrlsFrame | viewer/file_server.go:90 | a name no crawled link carries keeps its URL, or stays absent |
| FileServer.RecordAllGrows | viewer/file_server.go:68-92 | the loop never removes a path, a listed directory or a name |
| FileServer.PopulateGrows | viewer/file_server.go:63-93 | `getData` never removes a key; the listed directories gain exactly the populated one |
| FileServer.RecordConsistent | viewer/file_server.go:69-91 | recording one item keeps the tables consistent |
| FileServer.RecordAllConsistent | viewer/file_server.go:68-92 | the loop keeps the tables consistent |
| FileServer.PopulateConsistent | viewer/file_server.go:63-93 | `getData` keeps the tables consistent |
| FileServer.ListedDirHasOrigin | viewer/file_server.go:124-136 | in consistent tables, a listed sub-directory whose name is one path component has an origin URL, the one recorded under its name; the "url not found" branch is unreachable for it |
| FileServer.ImageFs.constructor | viewer/file_server.go:157-165 | a new file system has empty tables, which are consistent |
| FileServer.ImageFs.Put | viewer/file_server.go:69-91 | one loop turn records one item as `Record` says |
| FileServer.ImageFs.GetData | viewer/file_server.go:58-94 | a failed crawl returns nothing and changes nothing; a successful one populates the directory and returns a list of exactly its new listing; consistency is kept |
| FileServer.ImageFs.GetAttr | viewer/file_server.go:96-113 | "" means "/"; a recorded path gives its attributes unchanged; "/" alone gets a 0755 directory attribute, stored; anything else is ENOENT with no change |
| FileServer.ImageFs.OpenDir | viewer/file_server.go:115-145 | a listed directory is returned from the table with no crawl and no change; an unlisted one with no origin URL is ENOENT with no crawl; otherwise it is crawled: ENOENT and no change on failure, populated on success |
| FileServer.ImageFs.Open | viewer/file_server.go:147-154 | the contents recorded at the path, or nothing; every opened file also has attributes |
| FileServer.ListTwice | viewer/file_server.go:121-122 | once a listing succeeds, listing the same directory again succeeds with the same entries |

## Left out

- Page fetching (`getHtmlData`, including its headless browser mode), `url.Parse`, goquery, the regex engine, image fetching, `DetectImageType`, base64 decoding and `RandomId` are parameters, not models. Their own behaviour is not part of this model.
- `Crawl` in `viewer/crawler.go` takes a headless flag and a web driver that `getData` does not pass. Both the flag and the driver live inside the page-fetch parameter.
- `RandomId` is modelled as one id per image, by the image's position: `env.randomId(i)`. The id generator's state and uniqueness are not modelled.
- Goroutines, the wait groups and the channel: each worker's entries are kept in input order, and the crawl gives the image worker's entries before the link worker's.
  - In the program the order on the channel is whatever the scheduler produces.
  - `CrawlOutcome` therefore states membership, not order.
- Crawler.CrawSublink and Crawler.CrawlImg: these require the page URL to parse. The program ignores that parse error and leaves `baseU` nil. The first relative reference then dereferences it, and that panic in a goroutine ends the whole process, mount included. The model does not capture this crash.
- Crawler.Crawl and Crawler.CrawlResult: these require the page URL to parse whenever the page fetch succeeds.
  - In the plain HTTP mode this follows from the program, because `http.Get` has already parsed that URL.
  - In headless mode, `driver.Get` never runs `url.Parse`, so there the requirement is an assumption, not a consequence of the fetch.
  - A relative href such as `%25zz` resolves to `http://host/%zz`, which `url.Parse` rejects. A headless crawl of such a directory ends in the crash above, and the model does not cover it.
- FileServer.ImageFs.GetData, FileServer.ImageFs.OpenDir and FileServer.ImageFs.GetAttr are modelled as serialised, each running to completion before the next starts. `Serve` mounts with default options, so go-fuse may run these callbacks concurrently on the unlocked Go maps. The model therefore does not capture:
  - an `OpenDir` that returns the partial listing of a directory whose `getData` has installed the empty set but not yet finished its loop;
  - two first listings of the same directory that both crawl;
  - the process abort on concurrent map writes.

  `GetData`'s all-or-nothing contract and `ListTwice` hold only for serialised calls.
- Logging, timestamps (`Atime`, `Mtime`, `Ctime`) and the `uint64` width of `Size`: sizes are unbounded naturals.
- FileServer.Join: does not model `filepath.Clean`. It drops empty elements and puts one `/` between the two parts, which is what clean names need. Names holding `.` or `..` components, or repeated `/`, are not normalised.
- The FUSE mount and the kernel's calls in `Serve`: `ImageFs.constructor` models only the initialisation of the tables.
- `viewer/browser.go`, `viewer/options.go`, `main.go` and the image-type detection code are not part of this model.
- FileServer.ImageFs.Open: it returns the contents instead of a `nodefs` file object. `ENOENT` is `None`.
