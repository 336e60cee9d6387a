/** The listing loader: classifies the `Contents` records of an object-storage
    bucket listing into folders and files, and guards the fetch against a
    failed HTTP response. The XML document is given already split into its
    `Contents` records; the network call is given as its outcome. */
module DataLoader {
  import DecimalText

  datatype Option<T> = None | Some(value: T)

  /** One `Contents` element of the listing: the text content of its first
      descendant element named `Key`, `Size` and `LastModified`, in document
      order, or None when there is no such descendant. */
  datatype Contents = Contents(key: Option<string>, size: Option<string>, lastModified: Option<string>)

  /** The result of `parseInt` on the size text. Only decimal-digit text is
      given a value; any other text is kept as it was read. */
  datatype SizeValue = Parsed(bytes: nat) | Unparsed(text: string)

  datatype FileData = FileData(url: string, name: string, size: SizeValue, lastModified: string)

  datatype FolderData = FolderData(name: string)

  datatype Listing = Listing(folders: seq<FolderData>, files: seq<FileData>)

  /** The outcome of the HTTP request: its `ok` flag and the records of its body. */
  datatype Response = Response(ok: bool, body: seq<Contents>)

  /** What one record contributes to the listing. */
  datatype Entry = Skipped | Folder(folder: FolderData) | File(file: FileData)

  const BaseUrl: string := "https://elijahpollackportfolio.sfo3.cdn.digitaloceanspaces.com"

  const EmptyListing: Listing := Listing([], [])

  /** `element?.textContent || fallback`: a missing element and an empty text
      both give the fallback. */
  function TextOr(text: Option<string>, fallback: string): string {
    if text.Some? && text.value != "" then text.value else fallback
  }

  function KeyOf(c: Contents): string {
    TextOr(c.key, "")
  }

  predicate EndsWithSlash(k: string) {
    |k| > 0 && k[|k| - 1] == '/'
  }

  predicate IsFileKey(k: string) {
    k != "" && !EndsWithSlash(k)
  }

  /** The address of a stored object: the base URL, a slash, then the key. */
  function ObjectUrl(key: string): string {
    BaseUrl + "/" + key
  }

  /** The key an object address names, or None for an address outside the bucket. */
  function KeyOfUrl(url: string): (k: Option<string>)
    ensures k.Some? ==> ObjectUrl(k.value) == url
  {
    var prefix := BaseUrl + "/";
    if |prefix| <= |url| && url[..|prefix|] == prefix then
      assert url == prefix + url[|prefix|..];
      Some(url[|prefix|..])
    else None
  }

  /** Every key is recovered from its object address. */
  lemma KeyOfObjectUrl(key: string)
    ensures KeyOfUrl(ObjectUrl(key)) == Some(key)
  {
  }

  /** `parseInt(sizeText || "0", 10)`, for the texts this model gives a value. */
  function ParseSize(text: Option<string>): (r: SizeValue)
    ensures r.Parsed? <==> text.None? || DecimalText.IsDigits(text.value)
    ensures text.None? || text.value == "" ==> r == Parsed(0)
    ensures r.Unparsed? ==> text.Some? && r.text == text.value && r.text != ""
  {
    var t := TextOr(text, "0");
    if DecimalText.IsDigits(t) then Parsed(DecimalText.ParseDecimal(t)) else Unparsed(t)
  }

  /** The file record built from a `Contents` element. */
  function FileOf(c: Contents): FileData {
    FileData(ObjectUrl(KeyOf(c)), KeyOf(c), ParseSize(c.size), TextOr(c.lastModified, ""))
  }

  /** The body of the per-record callback in `parseXML`. */
  function Classify(c: Contents): (e: Entry)
    ensures e.Skipped? <==> KeyOf(c) == ""
    ensures e.Folder? <==> EndsWithSlash(KeyOf(c))
    ensures e.File? <==> IsFileKey(KeyOf(c))
    ensures e.Folder? ==> e.folder.name == KeyOf(c)
    ensures e.File? ==> e.file.name == KeyOf(c) && KeyOfUrl(e.file.url) == Some(e.file.name)
    ensures e.File? ==> e.file == FileOf(c)
  {
    var key := KeyOf(c);
    var size := ParseSize(c.size);
    var lastModified := TextOr(c.lastModified, "");
    if key == "" then Skipped
    else if EndsWithSlash(key) then Folder(FolderData(key))
    else
      var url := ObjectUrl(key);
      assert url[..|BaseUrl + "/"|] == BaseUrl + "/";
      File(FileData(url, key, size, lastModified))
  }

  /** Pushes one record's contribution onto the end of the listing. */
  function Push(l: Listing, e: Entry): Listing {
    match e
    case Skipped => l
    case Folder(f) => Listing(l.folders + [f], l.files)
    case File(f) => Listing(l.folders, l.files + [f])
  }

  // Reference definitions, independent of the push loop: what each kind of
  // record contributes, read front to back.

  /** The number of records whose key is missing or empty. */
  function DroppedCount(rs: seq<Contents>): nat {
    if |rs| == 0 then 0
    else (if KeyOf(rs[0]) == "" then 1 else 0) + DroppedCount(rs[1..])
  }

  /** The folders named by the keys ending with a slash, in input order. */
  function FolderEntries(rs: seq<Contents>): seq<FolderData> {
    if |rs| == 0 then []
    else (if EndsWithSlash(KeyOf(rs[0])) then [FolderData(KeyOf(rs[0]))] else []) + FolderEntries(rs[1..])
  }

  /** The files of the records with any other non-empty key, in input order. */
  function FileEntries(rs: seq<Contents>): seq<FileData> {
    if |rs| == 0 then []
    else (if IsFileKey(KeyOf(rs[0])) then [FileOf(rs[0])] else []) + FileEntries(rs[1..])
  }

  /** `parseXML` over the records of the document, in document order. */
  function ParseXML(rs: seq<Contents>): (l: Listing)
    ensures |l.folders| + |l.files| + DroppedCount(rs) == |rs|
    ensures l.folders == FolderEntries(rs)
    ensures l.files == FileEntries(rs)
  {
    if |rs| == 0 then EmptyListing
    else
      var init := rs[..|rs| - 1];
      var c := rs[|rs| - 1];
      assert rs == init + [c];
      DroppedCountSnoc(init, c);
      FolderEntriesSnoc(init, c);
      FileEntriesSnoc(init, c);
      Push(ParseXML(init), Classify(c))
  }

  /** `fetchData` given the outcome of its request. */
  function FetchData(response: Response): (l: Listing)
    ensures !response.ok ==> l.folders == [] && l.files == []
    ensures response.ok ==> l == ParseXML(response.body)
  {
    if !response.ok then EmptyListing
    else ParseXML(response.body)
  }

  // Reading the records front to back agrees with pushing them one by one.

  lemma {:induction false} DroppedCountSnoc(rs: seq<Contents>, c: Contents)
    ensures DroppedCount(rs + [c]) == DroppedCount(rs) + (if KeyOf(c) == "" then 1 else 0)
  {
    if |rs| > 0 {
      assert (rs + [c])[1..] == rs[1..] + [c];
      DroppedCountSnoc(rs[1..], c);
    }
  }

  lemma {:induction false} FolderEntriesSnoc(rs: seq<Contents>, c: Contents)
    ensures FolderEntries(rs + [c]) == FolderEntries(rs) + FolderEntries([c])
  {
    if |rs| > 0 {
      var head := if EndsWithSlash(KeyOf(rs[0])) then [FolderData(KeyOf(rs[0]))] else [];
      assert (rs + [c])[1..] == rs[1..] + [c];
      FolderEntriesSnoc(rs[1..], c);
      assert head + (FolderEntries(rs[1..]) + FolderEntries([c]))
          == (head + FolderEntries(rs[1..])) + FolderEntries([c]);
    } else {
      assert rs + [c] == [c];
    }
  }

  lemma {:induction false} FileEntriesSnoc(rs: seq<Contents>, c: Contents)
    ensures FileEntries(rs + [c]) == FileEntries(rs) + FileEntries([c])
  {
    if |rs| > 0 {
      var head := if IsFileKey(KeyOf(rs[0])) then [FileOf(rs[0])] else [];
      assert (rs + [c])[1..] == rs[1..] + [c];
      FileEntriesSnoc(rs[1..], c);
      assert head + (FileEntries(rs[1..]) + FileEntries([c]))
          == (head + FileEntries(rs[1..])) + FileEntries([c]);
    } else {
      assert rs + [c] == [c];
    }
  }
}
