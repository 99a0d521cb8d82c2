/**
 * The read-only virtual directory tree of viewer/file_server.go: `ImageFs`
 * keeps four tables (attributes by path, file contents by path, directory
 * listings by directory, origin URL by directory name) that a directory's
 * first listing fills from one crawl of its URL.
 *
 * The crawl itself is an oracle here, `crawl(link)`, giving the crawl's
 * entries or `None` when it fails; `Crawler.CrawlResult` is one for any
 * environment whose fetched pages all have URLs that parse.
 */
module FileServer {
  import opened Wrappers
  import opened Strings
  import opened Crawler

  /** File-type bits of `fuse.Attr.Mode` and `fuse.DirEntry.Mode`. */
  const S_IFDIR: int := 0x4000
  const S_IFREG: int := 0x8000

  /** Permission bits: 0755 for directories, 0644 for files. */
  const DirPerm: int := 0x1ED
  const FilePerm: int := 0x1A4

  /** The part of `fuse.Attr` the server sets, timestamps aside. */
  datatype Attr = Attr(mode: int, size: nat)

  /** `fuse.DirEntry`: a child's name and whether it is a file or a directory. */
  datatype DirEntry = DirEntry(name: string, mode: int)

  /** The `fuse.Status` values the server returns. */
  datatype Status = OK | ENOENT

  /** The four tables of an `ImageFs`, as one value. */
  datatype Tables = Tables(
    attrs: map<string, Attr>,
    contents: map<string, Bytes>,
    entries: map<string, set<DirEntry>>,
    urls: map<string, string>)

  /** The attributes of a crawled image: a regular file, 0644, of the data's length. */
  function FileAttr(size: nat): Attr
  {
    Attr(S_IFREG + FilePerm, size)
  }

  /** The attributes of a directory, the root's included: 0755, size 0. */
  function DirAttr(): Attr
  {
    Attr(S_IFDIR + DirPerm, 0)
  }

  /**
   * `filepath.Join(base, src)` for clean names: empty elements are dropped
   * and one `/` separates the two. The joined path starts with `base`, ends
   * with `src`, and has a separator where the two meet.
   */
  function Join(base: string, src: string): (p: string)
    ensures HasPrefix(p, base) && |p| >= |src| && p[|p| - |src|..] == src
    ensures base != "" && src != "" ==> |p| > |base| && (base[|base| - 1] == '/' || p[|base|] == '/')
    ensures |p| == |base| + |src| + (if base != "" && src != "" && base[|base| - 1] != '/' then 1 else 0)
  {
    if base == "" then src
    else if src == "" then base
    else if base[|base| - 1] == '/' then base + src
    else base + "/" + src
  }

  /** Under a non-empty directory, a clean name is the last component of the joined path. */
  lemma JoinLastField(base: string, src: string)
    ensures base != "" && src != "" && '/' !in src ==> LastField(Join(base, src), '/') == src
  {
    if base != "" && src != "" && '/' !in src {
      if base[|base| - 1] == '/' {
        assert base + src == base[..|base| - 1] + ['/'] + src;
        LastFieldAfterSep(base[..|base| - 1], src, '/');
      } else {
        LastFieldAfterSep(base, src, '/');
      }
    }
  }

  /**
   * `fullpath`: the path a crawled entry named `src` gets under directory
   * `base`; "/" for an entry named like the mount point at the root,
   * otherwise the join of the two. Under a non-empty directory the entry's
   * name is the last component of its path.
   */
  function FullPath(root: string, src: string, base: string): (p: string)
    ensures base == "" && src == root ==> p == "/"
    ensures base == "" && src != root ==> p == src
    ensures base != "" && src != "" && '/' !in src ==> LastField(p, '/') == src
    ensures !(base == "" && src == root) ==> p == Join(base, src)
  {
    if base == "" && src == root then "/"
    else
      JoinLastField(base, src);
      Join(base, src)
  }

  /** The key of a directory's listing: the root, passed as "", is listed under "/". */
  function FixBase(base: string): string
  {
    if base == "" then "/" else base
  }

  /** The listing entry of a crawled item: a file for an image, a directory for a link. */
  function EntryOf(d: CrawData): DirEntry
  {
    DirEntry(d.name, if d.kind == Image then S_IFREG else S_IFDIR)
  }

  /** The attributes recorded for a crawled item. */
  function AttrOf(d: CrawData): Attr
  {
    if d.kind == Image then FileAttr(|d.data|) else DirAttr()
  }

  /** The listing a crawl's entries give: one entry per item, and nothing else. */
  function EntrySet(data: seq<CrawData>): set<DirEntry>
  {
    set d | d in data :: EntryOf(d)
  }

  /** One turn of `getData`'s loop: record one crawled item under directory `base`. */
  function Record(t: Tables, root: string, base: string, d: CrawData): (t': Tables)
    requires FixBase(base) in t.entries
    ensures FixBase(base) in t'.entries
  {
    var p := FullPath(root, d.name, base);
    var fb := FixBase(base);
    match d.kind
    case Image =>
      Tables(t.attrs[p := FileAttr(|d.data|)], t.contents[p := d.data],
             t.entries[fb := t.entries[fb] + {EntryOf(d)}], t.urls)
    case Href =>
      Tables(t.attrs[p := DirAttr()], t.contents,
             t.entries[fb := t.entries[fb] + {EntryOf(d)}], t.urls[d.name := d.url])
  }

  /** `getData`'s loop: record every crawled item, in order. */
  function RecordAll(t: Tables, root: string, base: string, data: seq<CrawData>): (t': Tables)
    requires FixBase(base) in t.entries
    ensures FixBase(base) in t'.entries
  {
    if data == [] then t
    else Record(RecordAll(t, root, base, data[..|data| - 1]), root, base, data[|data| - 1])
  }

  /** A successful `getData`: a fresh, empty listing for the directory, then the loop. */
  function Populate(t: Tables, root: string, base: string, data: seq<CrawData>): Tables
  {
    RecordAll(t.(entries := t.entries[FixBase(base) := {}]), root, base, data)
  }

  /**
   * What the four tables keep true between operations: every file with
   * contents has attributes; every listed entry is a file or a directory;
   * every listed directory has an origin URL under its name (so that opening
   * it can find what to crawl); and every child listed under a directory other
   * than the root has attributes at its path.
   */
  ghost predicate Consistent(t: Tables)
  {
    && t.contents.Keys <= t.attrs.Keys
    && (forall d, e :: d in t.entries && e in t.entries[d] ==> e.mode == S_IFREG || e.mode == S_IFDIR)
    && (forall d, e :: d in t.entries && e in t.entries[d] && e.mode == S_IFDIR ==> e.name in t.urls)
    && (forall d, e :: d in t.entries && d != "/" && e in t.entries[d] ==> Join(d, e.name) in t.attrs)
  }

  lemma EntrySetSnoc(front: seq<CrawData>, last: CrawData)
    ensures EntrySet(front + [last]) == EntrySet(front) + {EntryOf(last)}
  {
    assert forall d :: d in front + [last] <==> d in front || d == last;
  }

  /** Recording an item adds its entry to the directory's listing and touches no other listing. */
  lemma RecordEntries(t: Tables, root: string, base: string, d: CrawData)
    requires FixBase(base) in t.entries
    ensures Record(t, root, base, d).entries == t.entries[FixBase(base) := t.entries[FixBase(base)] + {EntryOf(d)}]
  {
  }

  /** Growing one listing twice is growing it once by both additions. */
  lemma ExtendListing(m: map<string, set<DirEntry>>, k: string, s: set<DirEntry>, a: set<DirEntry>, b: set<DirEntry>)
    ensures m[k := s + a][k := m[k := s + a][k] + b] == m[k := s + (a + b)]
  {
    assert s + a + b == s + (a + b);
  }

  /** The listing `getData` builds holds exactly one entry per crawled item, and no other directory's listing changes. */
  lemma {:induction false} RecordAllEntries(t: Tables, root: string, base: string, data: seq<CrawData>)
    requires FixBase(base) in t.entries
    ensures RecordAll(t, root, base, data).entries
         == t.entries[FixBase(base) := t.entries[FixBase(base)] + EntrySet(data)]
  {
    var fb := FixBase(base);
    if data == [] {
      assert EntrySet(data) == {};
      assert t.entries[fb] + EntrySet(data) == t.entries[fb];
      assert t.entries[fb := t.entries[fb]] == t.entries;
    } else {
      var front, last := data[..|data| - 1], data[|data| - 1];
      RecordAllEntries(t, root, base, front);
      var prev := RecordAll(t, root, base, front);
      RecordEntries(prev, root, base, last);
      assert data == front + [last];
      EntrySetSnoc(front, last);
      ExtendListing(t.entries, fb, t.entries[fb], EntrySet(front), {EntryOf(last)});
    }
  }

  /**
   * After a successful population the directory's listing is exactly the
   * crawl's entry set, images as files and links as directories.
   */
  lemma PopulateEntries(t: Tables, root: string, base: string, data: seq<CrawData>)
    ensures Populate(t, root, base, data).entries == t.entries[FixBase(base) := EntrySet(data)]
    ensures forall d :: d in data ==> EntryOf(d) in Populate(t, root, base, data).entries[FixBase(base)]
    ensures forall e :: e in Populate(t, root, base, data).entries[FixBase(base)] ==>
      exists d :: d in data && e == DirEntry(d.name, if d.kind == Image then S_IFREG else S_IFDIR)
  {
    var t0 := t.(entries := t.entries[FixBase(base) := {}]);
    RecordAllEntries(t0, root, base, data);
    assert {} + EntrySet(data) == EntrySet(data);
  }

  /**
   * An item whose path no later item of the same crawl reuses ends up with its
   * own attributes: a file of its data's length holding its data for an
   * image, a directory for a link.
   */
  lemma {:induction false} RecordAllLast(t: Tables, root: string, base: string, data: seq<CrawData>, k: nat)
    requires FixBase(base) in t.entries
    requires k < |data|
    requires forall j :: k < j < |data| ==>
      FullPath(root, data[j].name, base) != FullPath(root, data[k].name, base)
    ensures var r, p := RecordAll(t, root, base, data), FullPath(root, data[k].name, base);
      && p in r.attrs && r.attrs[p] == AttrOf(data[k])
      && (data[k].kind == Image ==> p in r.contents && r.contents[p] == data[k].data)
  {
    var front := data[..|data| - 1];
    if k < |data| - 1 {
      assert forall j :: k < j < |front| ==> front[j] == data[j];
      RecordAllLast(t, root, base, front, k);
      assert front[k] == data[k];
    }
  }

  /** Paths no crawled item maps to keep their attributes. */
  lemma {:induction false} RecordAllAttrsFrame(t: Tables, root: string, base: string, data: seq<CrawData>, p: string)
    requires FixBase(base) in t.entries
    requires forall d :: d in data ==> FullPath(root, d.name, base) != p
    ensures var r := RecordAll(t, root, base, data);
      && (p in r.attrs <==> p in t.attrs)
      && (p in t.attrs ==> r.attrs[p] == t.attrs[p])
  {
    if data != [] {
      RecordAllAttrsFrame(t, root, base, data[..|data| - 1], p);
      assert data[|data| - 1] in data;
    }
  }

  /** Links write no contents: paths no crawled image maps to keep their contents. */
  lemma {:induction false} RecordAllContentsFrame(t: Tables, root: string, base: string, data: seq<CrawData>, p: string)
    requires FixBase(base) in t.entries
    requires forall d :: d in data && d.kind == Image ==> FullPath(root, d.name, base) != p
    ensures var r := RecordAll(t, root, base, data);
      && (p in r.contents <==> p in t.contents)
      && (p in t.contents ==> r.contents[p] == t.contents[p])
  {
    if data != [] {
      RecordAllContentsFrame(t, root, base, data[..|data| - 1], p);
      assert data[|data| - 1] in data;
    }
  }

  /**
   * A link whose name no later link of the same crawl reuses has its URL
   * recorded under its bare name, not under its path.
   */
  lemma {:induction false} RecordAllUrl(t: Tables, root: string, base: string, data: seq<CrawData>, k: nat)
    requires FixBase(base) in t.entries
    requires k < |data| && data[k].kind == Href
    requires forall j :: k < j < |data| && data[j].kind == Href ==> data[j].name != data[k].name
    ensures var r := RecordAll(t, root, base, data);
      data[k].name in r.urls && r.urls[data[k].name] == data[k].url
  {
    var front := data[..|data| - 1];
    if k < |data| - 1 {
      assert forall j :: k < j < |front| ==> front[j] == data[j];
      RecordAllUrl(t, root, base, front, k);
      assert front[k] == data[k];
    }
  }

  /** Names that no crawled link carries keep their URLs. */
  lemma {:induction false} RecordAllUrlsFrame(t: Tables, root: string, base: string, data: seq<CrawData>, n: string)
    requires FixBase(base) in t.entries
    requires forall d :: d in data && d.kind == Href ==> d.name != n
    ensures var r := RecordAll(t, root, base, data);
      && (n in r.urls <==> n in t.urls)
      && (n in t.urls ==> r.urls[n] == t.urls[n])
  {
    if data != [] {
      RecordAllUrlsFrame(t, root, base, data[..|data| - 1], n);
      assert data[|data| - 1] in data;
    }
  }

  /** The tables only grow: no path, listed directory or name is ever forgotten. */
  lemma {:induction false} PopulateGrows(t: Tables, root: string, base: string, data: seq<CrawData>)
    ensures var r := Populate(t, root, base, data);
      && t.attrs.Keys <= r.attrs.Keys
      && t.contents.Keys <= r.contents.Keys
      && t.urls.Keys <= r.urls.Keys
      && r.entries.Keys == t.entries.Keys + {FixBase(base)}
  {
    var t0 := t.(entries := t.entries[FixBase(base) := {}]);
    RecordAllGrows(t0, root, base, data);
  }

  lemma {:induction false} RecordAllGrows(t: Tables, root: string, base: string, data: seq<CrawData>)
    requires FixBase(base) in t.entries
    ensures var r := RecordAll(t, root, base, data);
      && t.attrs.Keys <= r.attrs.Keys
      && t.contents.Keys <= r.contents.Keys
      && t.urls.Keys <= r.urls.Keys
      && r.entries.Keys == t.entries.Keys
  {
    if data != [] {
      RecordAllGrows(t, root, base, data[..|data| - 1]);
    }
  }

  /** Recording one item keeps the tables consistent. */
  lemma RecordConsistent(t: Tables, root: string, base: string, d: CrawData)
    requires FixBase(base) in t.entries && Consistent(t)
    ensures Consistent(Record(t, root, base, d))
  {
    var r := Record(t, root, base, d);
    var fb := FixBase(base);
    forall dir, e | dir in r.entries && dir != "/" && e in r.entries[dir]
      ensures Join(dir, e.name) in r.attrs
    {
      if dir == fb && e == EntryOf(d) {
        assert base != "";
        assert FullPath(root, d.name, base) == Join(dir, e.name);
      }
    }
  }

  /** A population keeps the tables consistent. */
  lemma {:induction false} RecordAllConsistent(t: Tables, root: string, base: string, data: seq<CrawData>)
    requires FixBase(base) in t.entries && Consistent(t)
    ensures Consistent(RecordAll(t, root, base, data))
  {
    if data != [] {
      RecordAllConsistent(t, root, base, data[..|data| - 1]);
      RecordConsistent(RecordAll(t, root, base, data[..|data| - 1]), root, base, data[|data| - 1]);
    }
  }

  lemma PopulateConsistent(t: Tables, root: string, base: string, data: seq<CrawData>)
    requires Consistent(t)
    ensures Consistent(Populate(t, root, base, data))
  {
    RecordAllConsistent(t.(entries := t.entries[FixBase(base) := {}]), root, base, data);
  }

  /**
   * The URL `OpenDir` crawls for an unlisted directory: the mount's URL for
   * the root, otherwise the URL recorded under the path's last component.
   */
  function OriginUrl(name: string, baseUrl: string, urls: map<string, string>): Option<string>
  {
    if name == "" then Some(baseUrl)
    else
      var dirname := LastField(name, '/');
      if dirname in urls then Some(urls[dirname]) else None
  }

  /** The path the kernel asks for when it enters child `n` of listed directory `dir`. */
  function ChildPath(dir: string, n: string): string
  {
    Join(if dir == "/" then "" else dir, n)
  }

  /**
   * In consistent tables, a listed sub-directory whose name is a single path
   * component always has an origin URL: the branch of `OpenDir` that finds no
   * URL is never taken for a directory the tree itself listed.
   */
  lemma ListedDirHasOrigin(t: Tables, baseUrl: string, dir: string, n: string)
    requires Consistent(t)
    requires dir in t.entries && DirEntry(n, S_IFDIR) in t.entries[dir]
    requires n != "" && '/' !in n
    ensures n in t.urls
    ensures OriginUrl(ChildPath(dir, n), baseUrl, t.urls) == Some(t.urls[n])
  {
    JoinLastField(if dir == "/" then "" else dir, n);
    LastFieldOfField(n, '/');
  }

  /** A list holding each element of `s` once. */
  ghost predicate Lists(r: seq<DirEntry>, s: set<DirEntry>)
  {
    && (forall e :: e in r <==> e in s)
    && (forall i, j :: 0 <= i < j < |r| ==> r[i] != r[j])
  }

  /** `ToDirEntries`: the elements of a listing, each once, in no particular order. */
  method ToDirEntries(s: set<DirEntry>) returns (result: seq<DirEntry>)
    ensures Lists(result, s)
    ensures |result| == |s|
  {
    result := [];
    var rest := s;
    while rest != {}
      invariant rest <= s
      invariant forall e :: e in result <==> e in s && e !in rest
      invariant forall i, j :: 0 <= i < j < |result| ==> result[i] != result[j]
      invariant |result| + |rest| == |s|
      decreases |rest|
    {
      var e :| e in rest;
      result := result + [e];
      rest := rest - {e};
    }
  }

  /** `ImageFs`: the four tables, the mount point and the URL the root shows. */
  class ImageFs {
    const Root: string
    const BaseUrl: string

    /** Full path of a file or directory to its attributes. */
    var Attrs: map<string, Attr>
    /** Full path of a file to its data. */
    var Contents: map<string, Bytes>
    /** Full path of a populated directory to its listing. */
    var Entries: map<string, set<DirEntry>>
    /** Directory name to the URL it was found at. */
    var Urls: map<string, string>

    function State(): Tables
      reads this
    {
      Tables(Attrs, Contents, Entries, Urls)
    }

    ghost predicate Valid()
      reads this
    {
      Consistent(State())
    }

    /** The file system `Serve` mounts: no attributes, contents, listings or URLs yet. */
    constructor (root: string, baseUrl: string)
      ensures Root == root && BaseUrl == baseUrl
      ensures State() == Tables(map[], map[], map[], map[])
      ensures Valid()
    {
      Root := root;
      BaseUrl := baseUrl;
      Attrs := map[];
      Contents := map[];
      Entries := map[];
      Urls := map[];
    }

    /** The body of `getData`'s loop: record one crawled item under directory `base`. */
    method Put(base: string, d: CrawData)
      requires FixBase(base) in Entries
      modifies this
      ensures State() == Record(old(State()), Root, base, d)
    {
      var fixBase := FixBase(base);
      var fullpath := FullPath(Root, d.name, base);
      match d.kind {
        case Image =>
          Attrs := Attrs[fullpath := FileAttr(|d.data|)];
          Contents := Contents[fullpath := d.data];
          Entries := Entries[fixBase := Entries[fixBase] + {DirEntry(d.name, S_IFREG)}];
        case Href =>
          Attrs := Attrs[fullpath := DirAttr()];
          Entries := Entries[fixBase := Entries[fixBase] + {DirEntry(d.name, S_IFDIR)}];
          Urls := Urls[d.name := d.url];
      }
    }

    /**
     * `getData`: crawl `link` and record its entries under directory `base`.
     * A failed crawl changes nothing; a successful one replaces the
     * directory's listing and records every item, and the result lists the
     * new listing.
     */
    method GetData(link: string, base: string, crawl: string -> Option<seq<CrawData>>)
      returns (r: Option<seq<DirEntry>>)
      requires Valid()
      modifies this
      ensures Valid()
      ensures crawl(link).None? ==> r.None? && State() == old(State())
      ensures crawl(link).Some? ==>
        && State() == Populate(old(State()), Root, base, crawl(link).value)
        && r.Some? && Lists(r.value, EntrySet(crawl(link).value))
      ensures r.Some? ==> FixBase(base) in Entries && Lists(r.value, Entries[FixBase(base)])
    {
      var crawlData := crawl(link);
      if crawlData.None? {
        return None;
      }
      var data := crawlData.value;
      var fixBase := FixBase(base);
      Entries := Entries[fixBase := {}];
      ghost var t0 := State();
      assert t0 == old(State()).(entries := old(State()).entries[fixBase := {}]);
      var i := 0;
      while i < |data|
        invariant 0 <= i <= |data|
        invariant fixBase in Entries
        invariant State() == RecordAll(t0, Root, base, data[..i])
      {
        Put(base, data[i]);
        assert data[..i + 1][..i] == data[..i];
        i := i + 1;
      }
      assert data[..|data|] == data;
      PopulateConsistent(old(State()), Root, base, data);
      PopulateEntries(old(State()), Root, base, data);
      var listing := ToDirEntries(Entries[fixBase]);
      r := Some(listing);
    }

    /**
     * `GetAttr`: "" means "/"; a recorded attribute is returned as it is; the
     * root alone gets a directory attribute made up and stored on first use;
     * any other unknown path is ENOENT and changes nothing.
     */
    method GetAttr(name: string) returns (attr: Option<Attr>, code: Status)
      requires Valid()
      modifies this`Attrs
      ensures Valid()
      ensures var n := if name == "" then "/" else name;
        if n in old(Attrs) then
          attr == Some(old(Attrs)[n]) && code == OK && Attrs == old(Attrs)
        else if n == "/" then
          attr == Some(DirAttr()) && code == OK && Attrs == old(Attrs)[n := DirAttr()]
        else
          attr == None && code == ENOENT && Attrs == old(Attrs)
    {
      var n := if name == "" then "/" else name;
      if n in Attrs {
        return Some(Attrs[n]), OK;
      } else if n == "/" {
        var a := DirAttr();
        Attrs := Attrs[n := a];
        return Some(a), OK;
      } else {
        return None, ENOENT;
      }
    }

    /**
     * `OpenDir`: a populated directory is listed from the table with no crawl
     * and no change; otherwise its origin URL is looked up (ENOENT, with no
     * crawl, if there is none) and crawled; a failed crawl is ENOENT and leaves
     * the directory unpopulated, a successful one populates it.
     */
    method OpenDir(name: string, crawl: string -> Option<seq<CrawData>>)
      returns (c: seq<DirEntry>, code: Status)
      requires Valid()
      modifies this
      ensures Valid()
      ensures FixBase(name) in old(Entries) ==>
        code == OK && Lists(c, old(Entries)[FixBase(name)]) && State() == old(State())
      ensures FixBase(name) !in old(Entries) && OriginUrl(name, BaseUrl, old(Urls)).None? ==>
        code == ENOENT && c == [] && State() == old(State())
      ensures FixBase(name) !in old(Entries) && OriginUrl(name, BaseUrl, old(Urls)).Some? ==>
        var link := OriginUrl(name, BaseUrl, old(Urls)).value;
        && (crawl(link).None? ==> code == ENOENT && c == [] && State() == old(State()))
        && (crawl(link).Some? ==>
              && code == OK
              && State() == Populate(old(State()), Root, name, crawl(link).value)
              && Lists(c, EntrySet(crawl(link).value)))
      ensures code == OK ==> FixBase(name) in Entries && Lists(c, Entries[FixBase(name)])
    {
      var fixName := FixBase(name);
      if fixName in Entries {
        c := ToDirEntries(Entries[fixName]);
        return c, OK;
      }
      var link: string;
      if name == "" {
        link := BaseUrl;
      } else {
        var dirname := LastField(name, '/');
        if dirname !in Urls {
          return [], ENOENT;
        }
        link := Urls[dirname];
      }
      var entries := GetData(link, name, crawl);
      if entries.Some? {
        return entries.value, OK;
      }
      return [], ENOENT;
    }

    /** `Open`: the contents recorded at `name`, if any; nothing is changed. */
    function Open(name: string): (r: Option<Bytes>)
      reads this
      ensures r.Some? <==> name in Contents
      ensures r.Some? ==> r.value == Contents[name]
      ensures Valid() && r.Some? ==> name in Attrs
    {
      if name in Contents then Some(Contents[name]) else None
    }
  }

  /**
   * Listing a directory twice: once a listing has succeeded, listing again
   * succeeds with the same entries, whatever the crawl would now return.
   */
  method ListTwice(fs: ImageFs, name: string, crawl: string -> Option<seq<CrawData>>,
                   crawlLater: string -> Option<seq<CrawData>>)
    returns (first: seq<DirEntry>, code1: Status, second: seq<DirEntry>, code2: Status)
    requires fs.Valid()
    modifies fs
    ensures fs.Valid()
    ensures code1 == OK ==> code2 == OK && (forall e :: e in first <==> e in second)
  {
    first, code1 := fs.OpenDir(name, crawl);
    second, code2 := fs.OpenDir(name, crawlLater);
  }
}
