/**
 * One queued download: where the file goes on disk, whether it got there, how
 * many attempts failed, and who is waiting for it.
 *
 * The library has two versions of this record, SADownloadItem and SAFileItem,
 * and its downloaders use the union of their members; `DownloadItem` is that
 * union. The two naming constructors follow the two versions.
 */
module Items {
  import opened JavaLang
  import opened Naming

  /** An item is given up after this many failed attempts. */
  const MaxRetries: nat := 3

  /** A caller's callback, known only by identity; `NoOp` is the empty one substituted for null. */
  datatype Listener = Caller(id: nat) | NoOp

  /**
   * What java.net.URL and java.net.URI make of a URL string: `Malformed` when
   * `new URL` throws (no protocol, say), otherwise the URI path, which is null
   * when `new URI` throws or the URI has no path.
   */
  datatype UrlParse = Malformed | Parsed(path: Option<string>)

  /** `new URL(url)` on a null or empty string always throws; anything else is up to the parser. */
  function ParseUrl(url: Option<string>, parse: string -> UrlParse): UrlParse {
    if url == None || url == Some("") then Malformed else parse(url.value)
  }

  /** The fields of a DownloadItem at one moment. */
  datatype ItemVal = ItemVal(
    urlKey: Option<string>,
    key: Option<string>,
    diskName: Option<string>,
    diskUrl: Option<string>,
    ext: Option<string>,
    onDisk: bool,
    retries: nat,
    responses: seq<Listener>)
  {
    /** `isValid`: all four naming fields are set. */
    predicate Valid() {
      urlKey.Some? && diskName.Some? && diskUrl.Some? && key.Some?
    }

    /** `hasRetriesRemaining`. */
    predicate HasRetriesRemaining() {
      retries < MaxRetries
    }
  }

  /**
   * A fresh SADownloadItem for a URL and random token n: the disk name is the
   * token plus the URL's extension and doubles as the disk URL, and the key is
   * derived from it. A URL that is null, empty or ends with '.' gets no names
   * and so is not valid.
   */
  function NamedItem(url: Option<string>, n: nat, waiters: seq<Listener>): (v: ItemVal)
    requires n < DiskNameBound
    ensures v.urlKey == url && v.ext == None && !v.onDisk && v.retries == 0 && v.responses == waiters
    ensures v.diskUrl == v.diskName
    ensures v.Valid() <==> url.Some? && url.value != "" && url.value[|url.value| - 1] != '.'
    ensures !v.Valid() ==> v.diskName == None && v.key == None
    ensures v.Valid() ==> v.diskName.value == DiskNamePrefix + Decimal(n) + "." + FileExt(url).value
    ensures v.Valid() ==> v.key.value == KeyPrefix + v.diskName.value
  {
    NewDiskNameShape(url, n);
    var name := NewDiskName(url, n);
    ItemVal(url, KeyForDiskName(name), name, name, None, false, 0, waiters)
  }

  /**
   * A fresh SAFileItem: the URL is kept whatever happens; if `new URL` throws
   * nothing else is set; otherwise the disk name is the last segment of the URI
   * path, it doubles as the disk URL, and the key is derived from it. The item
   * is valid exactly when the URL parses and yields a non-empty file name.
   */
  function FileItem(url: Option<string>, parse: string -> UrlParse): (v: ItemVal)
    ensures v.urlKey == url && v.ext == None && !v.onDisk && v.retries == 0 && v.responses == []
    ensures ParseUrl(url, parse).Malformed? ==> v.diskName == None && v.diskUrl == None && v.key == None
    ensures ParseUrl(url, parse).Parsed? ==> v.diskName == FileNameOf(ParseUrl(url, parse).path) && v.diskUrl == v.diskName
    ensures v.key.Some? <==> v.diskName.Some? && v.diskName.value != ""
    ensures v.key.Some? ==> v.key.value == KeyPrefix + v.diskName.value
    ensures v.Valid() <==>
      ParseUrl(url, parse).Parsed? && FileNameOf(ParseUrl(url, parse).path).Some? &&
      FileNameOf(ParseUrl(url, parse).path) != Some("")
    ensures url == None || url == Some("") ==> !v.Valid()
  {
    var parsed := ParseUrl(url, parse);
    var name := if parsed.Parsed? then FileNameOf(parsed.path) else None;
    ItemVal(url, KeyForDiskName(name), name, name, None, false, 0, [])
  }

  class DownloadItem {
    var urlKey: Option<string>
    var key: Option<string>
    var diskName: Option<string>
    var diskUrl: Option<string>
    var ext: Option<string>
    var onDisk: bool
    var nrRetries: nat
    var responses: seq<Listener>

    function Val(): ItemVal
      reads this
    {
      ItemVal(urlKey, key, diskName, diskUrl, ext, onDisk, nrRetries, responses)
    }

    predicate IsValid()
      reads this
    {
      Val().Valid()
    }

    predicate HasRetriesRemaining()
      reads this
    {
      Val().HasRetriesRemaining()
    }

    /** The empty item: every name null, not on disk, no failed attempt, nobody waiting. */
    constructor Empty()
      ensures Val() == ItemVal(None, None, None, None, None, false, 0, [])
      ensures !IsValid() && HasRetriesRemaining()
    {
      urlKey, key, diskName, diskUrl, ext := None, None, None, None, None;
      onDisk, nrRetries, responses := false, 0, [];
    }

    /** SADownloadItem(url): see `NamedItem`; `n` is the random token. */
    constructor FromUrl(url: Option<string>, n: nat)
      requires n < DiskNameBound
      ensures Val() == NamedItem(url, n, [])
    {
      urlKey := url;
      key, diskName, diskUrl, ext := None, None, None, None;
      onDisk, nrRetries, responses := false, 0, [];
      new;
      if urlKey != None {
        diskName := NewDiskName(url, n);
        diskUrl := diskName;
        key := KeyForDiskName(diskName);
      }
    }

    /** SADownloadItem(url, firstListener): as above, with the listener waiting if it is not null. */
    constructor WithListener(url: Option<string>, n: nat, firstListener: Option<Listener>)
      requires n < DiskNameBound
      ensures Val() == NamedItem(url, n, if firstListener.Some? then [firstListener.value] else [])
    {
      urlKey := url;
      key, diskName, diskUrl, ext := None, None, None, None;
      onDisk, nrRetries, responses := false, 0, [];
      new;
      if urlKey != None {
        diskName := NewDiskName(url, n);
        diskUrl := diskName;
        key := KeyForDiskName(diskName);
      }
      AddResponse(firstListener);
    }

    /** SAFileItem(url): see `FileItem`. */
    constructor FromFileUrl(url: Option<string>, parse: string -> UrlParse)
      ensures Val() == FileItem(url, parse)
    {
      urlKey := url;
      key, diskName, diskUrl, ext := None, None, None, None;
      onDisk, nrRetries, responses := false, 0, [];
      new;
      var parsed := ParseUrl(url, parse);
      if parsed.Parsed? {
        diskName := FileNameOf(parsed.path);
        key := KeyForDiskName(diskName);
        diskUrl := diskName;
      }
    }

    /** `incrementNrRetries`: one more failed attempt; nothing else changes. */
    method IncrementNrRetries()
      modifies this`nrRetries
      ensures nrRetries == old(nrRetries) + 1
    {
      nrRetries := nrRetries + 1;
    }

    /** `addResponse`: a non-null listener joins the end of the waiting list; null is ignored. */
    method AddResponse(listener: Option<Listener>)
      modifies this`responses
      ensures responses == old(responses) + (if listener.Some? then [listener.value] else [])
    {
      if listener.Some? {
        responses := responses + [listener.value];
      }
    }

    /** `clearResponses`: nobody is waiting any more. */
    method ClearResponses()
      modifies this`responses
      ensures responses == []
    {
      responses := [];
    }

    method SetOnDisk(value: bool)
      modifies this`onDisk
      ensures onDisk == value
    {
      onDisk := value;
    }

    method SetUrlKey(value: Option<string>)
      modifies this`urlKey
      ensures urlKey == value
    {
      urlKey := value;
    }

    method SetKey(value: Option<string>)
      modifies this`key
      ensures key == value
    {
      key := value;
    }

    method SetDiskName(value: Option<string>)
      modifies this`diskName
      ensures diskName == value
    {
      diskName := value;
    }

    method SetDiskUrl(value: Option<string>)
      modifies this`diskUrl
      ensures diskUrl == value
    {
      diskUrl := value;
    }
  }

  /** The fields of each item of a list, in list order. */
  ghost function ValsOf(s: seq<DownloadItem>): (r: seq<ItemVal>)
    reads s
    ensures |r| == |s|
    ensures forall i :: 0 <= i < |s| ==> r[i] == s[i].Val()
  {
    seq(|s|, i requires 0 <= i < |s| reads s => s[i].Val())
  }

  /** The snapshot of items whose fields did not change is the snapshot taken before. */
  twostate lemma ValsOfUnchanged(s: seq<DownloadItem>)
    requires forall k :: 0 <= k < |s| ==> unchanged(s[k])
    ensures ValsOf(s) == old(ValsOf(s))
  {
    assert forall k :: 0 <= k < |s| ==> ValsOf(s)[k] == old(ValsOf(s)[k]);
  }
}
