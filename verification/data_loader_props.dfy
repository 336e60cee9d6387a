/** Properties of the listing loader that relate several calls: how the
    listing of a document is assembled from its records, what each kind of
    record contributes, and what a failed fetch looks like to the caller. */
module DataLoaderProps {
  import DecimalText
  import opened DataLoader

  /** The reference definitions distribute over concatenation. */
  lemma {:induction false} FolderEntriesAppend(a: seq<Contents>, b: seq<Contents>)
    ensures FolderEntries(a + b) == FolderEntries(a) + FolderEntries(b)
  {
    if |a| == 0 {
      assert a + b == b;
    } else {
      var head := if EndsWithSlash(KeyOf(a[0])) then [FolderData(KeyOf(a[0]))] else [];
      assert (a + b)[0] == a[0];
      assert (a + b)[1..] == a[1..] + b;
      assert FolderEntries(a + b) == head + FolderEntries(a[1..] + b);
      assert FolderEntries(a) == head + FolderEntries(a[1..]);
      FolderEntriesAppend(a[1..], b);
      assert head + (FolderEntries(a[1..]) + FolderEntries(b)) == (head + FolderEntries(a[1..])) + FolderEntries(b);
    }
  }

  lemma {:induction false} FileEntriesAppend(a: seq<Contents>, b: seq<Contents>)
    ensures FileEntries(a + b) == FileEntries(a) + FileEntries(b)
  {
    if |a| == 0 {
      assert a + b == b;
    } else {
      var head := if IsFileKey(KeyOf(a[0])) then [FileOf(a[0])] else [];
      assert (a + b)[0] == a[0];
      assert (a + b)[1..] == a[1..] + b;
      assert FileEntries(a + b) == head + FileEntries(a[1..] + b);
      assert FileEntries(a) == head + FileEntries(a[1..]);
      FileEntriesAppend(a[1..], b);
      assert head + (FileEntries(a[1..]) + FileEntries(b)) == (head + FileEntries(a[1..])) + FileEntries(b);
    }
  }

  /** Parsing is a single left-to-right pass: the listing of two runs of
      records is the listing of the first followed by that of the second. */
  lemma ParseXMLAppend(a: seq<Contents>, b: seq<Contents>)
    ensures ParseXML(a + b).folders == ParseXML(a).folders + ParseXML(b).folders
    ensures ParseXML(a + b).files == ParseXML(a).files + ParseXML(b).files
  {
    FolderEntriesAppend(a, b);
    FileEntriesAppend(a, b);
  }

  /** A record whose key is missing or empty adds nothing, wherever it stands. */
  lemma SkippedRecordAddsNothing(a: seq<Contents>, c: Contents, b: seq<Contents>)
    requires KeyOf(c) == ""
    ensures ParseXML(a + [c] + b) == ParseXML(a + b)
  {
    ParseXMLAppend(a + [c], b);
    ParseXMLAppend(a, [c]);
    ParseXMLAppend(a, b);
    assert [c][..0] == [];
  }

  /** A record whose key ends with a slash adds exactly the folder named by
      its key, at its own position, and no file. */
  lemma FolderRecordAddsOneFolder(a: seq<Contents>, c: Contents, b: seq<Contents>)
    requires EndsWithSlash(KeyOf(c))
    ensures ParseXML(a + [c] + b).folders
         == ParseXML(a).folders + [FolderData(KeyOf(c))] + ParseXML(b).folders
    ensures ParseXML(a + [c] + b).files == ParseXML(a).files + ParseXML(b).files
  {
    ParseXMLAppend(a + [c], b);
    ParseXMLAppend(a, [c]);
    assert [c][..0] == [];
  }

  /** A record with any other non-empty key adds exactly one file, at its own
      position, named by its full key and addressed under the base URL. */
  lemma FileRecordAddsOneFile(a: seq<Contents>, c: Contents, b: seq<Contents>)
    requires IsFileKey(KeyOf(c))
    ensures ParseXML(a + [c] + b).folders == ParseXML(a).folders + ParseXML(b).folders
    ensures ParseXML(a + [c] + b).files == ParseXML(a).files + [FileOf(c)] + ParseXML(b).files
    ensures FileOf(c).name == KeyOf(c)
    ensures FileOf(c).url == BaseUrl + "/" + KeyOf(c)
  {
    ParseXMLAppend(a + [c], b);
    ParseXMLAppend(a, [c]);
    assert [c][..0] == [];
  }

  /** Whether a record is of the kind collected into folders (or into files). */
  predicate Wanted(c: Contents, folders: bool) {
    if folders then EndsWithSlash(KeyOf(c)) else IsFileKey(KeyOf(c))
  }

  /** The positions of the wanted records, ascending. */
  function Positions(rs: seq<Contents>, folders: bool): (ps: seq<nat>)
    ensures forall k :: 0 <= k < |ps| ==> ps[k] < |rs|
  {
    if |rs| == 0 then []
    else
      var last := |rs| - 1;
      Positions(rs[..last], folders) + (if Wanted(rs[last], folders) then [last] else [])
  }

  /** The positions are strictly increasing and miss no wanted record. */
  lemma {:induction false} PositionsAscendingAndComplete(rs: seq<Contents>, w: bool)
    ensures forall k, m :: 0 <= k < m < |Positions(rs, w)| ==> Positions(rs, w)[k] < Positions(rs, w)[m]
    ensures forall p :: 0 <= p < |rs| && Wanted(rs[p], w) ==> p in Positions(rs, w)
  {
    if |rs| > 0 {
      var last := |rs| - 1;
      var init := rs[..last];
      PositionsAscendingAndComplete(init, w);
      forall p | 0 <= p < |rs| && Wanted(rs[p], w)
        ensures p in Positions(rs, w)
      {
        if p < last {
          assert rs[p] == init[p];
        }
      }
    }
  }

  lemma {:induction false} FoldersAtPositions(rs: seq<Contents>)
    ensures |Positions(rs, true)| == |ParseXML(rs).folders|
    ensures forall k :: 0 <= k < |Positions(rs, true)| ==>
              EndsWithSlash(KeyOf(rs[Positions(rs, true)[k]]))
              && ParseXML(rs).folders[k] == FolderData(KeyOf(rs[Positions(rs, true)[k]]))
  {
    if |rs| > 0 {
      var last := |rs| - 1;
      var init := rs[..last];
      assert rs == init + [rs[last]];
      FoldersAtPositions(init);
      assert ParseXML(rs) == Push(ParseXML(init), Classify(rs[last]));
      forall k | 0 <= k < |Positions(init, true)|
        ensures rs[Positions(rs, true)[k]] == init[Positions(init, true)[k]]
      {
      }
    }
  }

  lemma {:induction false} FilesAtPositions(rs: seq<Contents>)
    ensures |Positions(rs, false)| == |ParseXML(rs).files|
    ensures forall k :: 0 <= k < |Positions(rs, false)| ==>
              IsFileKey(KeyOf(rs[Positions(rs, false)[k]]))
              && ParseXML(rs).files[k] == FileOf(rs[Positions(rs, false)[k]])
  {
    if |rs| > 0 {
      var last := |rs| - 1;
      var init := rs[..last];
      assert rs == init + [rs[last]];
      FilesAtPositions(init);
      assert ParseXML(rs) == Push(ParseXML(init), Classify(rs[last]));
      forall k | 0 <= k < |Positions(init, false)|
        ensures rs[Positions(rs, false)[k]] == init[Positions(init, false)[k]]
      {
      }
    }
  }

  /** Order is preserved: the folders are the folder-keyed records, and the
      files the other keyed records, each taken at strictly increasing
      positions of the document and leaving none of their kind out. */
  lemma ListingIsOrderedSubsequence(rs: seq<Contents>)
    ensures |Positions(rs, true)| == |ParseXML(rs).folders|
    ensures forall k :: 0 <= k < |Positions(rs, true)| ==>
              EndsWithSlash(KeyOf(rs[Positions(rs, true)[k]]))
              && ParseXML(rs).folders[k] == FolderData(KeyOf(rs[Positions(rs, true)[k]]))
    ensures |Positions(rs, false)| == |ParseXML(rs).files|
    ensures forall k :: 0 <= k < |Positions(rs, false)| ==>
              IsFileKey(KeyOf(rs[Positions(rs, false)[k]]))
              && ParseXML(rs).files[k] == FileOf(rs[Positions(rs, false)[k]])
    ensures forall w: bool, k, m :: 0 <= k < m < |Positions(rs, w)| ==>
              Positions(rs, w)[k] < Positions(rs, w)[m]
    ensures forall w: bool, p :: 0 <= p < |rs| && Wanted(rs[p], w) ==> p in Positions(rs, w)
  {
    FoldersAtPositions(rs);
    FilesAtPositions(rs);
    PositionsAscendingAndComplete(rs, true);
    PositionsAscendingAndComplete(rs, false);
  }

  /** Every folder is named by a key ending with a slash, every file by a
      non-empty key not ending with a slash, and every file's address names
      its key. */
  lemma ListingEntriesWellFormed(rs: seq<Contents>)
    ensures forall f :: f in ParseXML(rs).folders ==> EndsWithSlash(f.name)
    ensures forall f :: f in ParseXML(rs).files ==> IsFileKey(f.name) && KeyOfUrl(f.url) == Some(f.name)
  {
    ListingIsOrderedSubsequence(rs);
    var l := ParseXML(rs);
    forall f | f in l.folders
      ensures EndsWithSlash(f.name)
    {
      var k :| 0 <= k < |l.folders| && l.folders[k] == f;
    }
    forall f | f in l.files
      ensures IsFileKey(f.name) && KeyOfUrl(f.url) == Some(f.name)
    {
      var k :| 0 <= k < |l.files| && l.files[k] == f;
      assert Classify(rs[Positions(rs, false)[k]]) == File(f);
    }
  }

  /** The fields of the file built from a record: the full key as its name,
      an address that names the key, and the size and timestamp taken from
      the record, with their defaults when missing or empty. */
  lemma FileDefaults(c: Contents)
    ensures FileOf(c).name == KeyOf(c)
    ensures KeyOfUrl(FileOf(c).url) == Some(KeyOf(c))
    ensures c.size.None? || c.size == Some("") ==> FileOf(c).size == Parsed(0)
    ensures c.size.Some? && DecimalText.IsDigits(c.size.value) ==>
              FileOf(c).size == Parsed(DecimalText.ParseDecimal(c.size.value))
    ensures c.lastModified.None? ==> FileOf(c).lastModified == ""
    ensures c.lastModified.Some? ==> FileOf(c).lastModified == c.lastModified.value
  {
  }

  /** A size written as the decimal spelling of a number reads as that number,
      and so does the same spelling padded with a leading zero. */
  lemma SizeOfSpelledNumber(n: nat)
    ensures ParseSize(Some(DecimalText.ShowDecimal(n))) == Parsed(n)
    ensures ParseSize(Some("0" + DecimalText.ShowDecimal(n))) == Parsed(n)
  {
    var s := DecimalText.ShowDecimal(n);
    assert ParseSize(Some(s)) == Parsed(n) by {
      DecimalText.ParseShowDecimal(n);
    }
    assert ParseSize(Some("0" + s)) == Parsed(n) by {
      assert DecimalText.IsDigits("0" + s);
      DecimalText.ParseShowDecimal(n);
      DecimalText.LeadingZeroIgnored(s);
    }
  }

  /** A failed fetch is indistinguishable from a successful fetch of a
      document none of whose records has a key, the empty bucket included. */
  lemma FailedFetchLooksEmpty(failed: Response, empty: Response)
    requires !failed.ok && empty.ok
    ensures FetchData(failed) == FetchData(empty) <==> DroppedCount(empty.body) == |empty.body|
  {
  }

  /** The file built from the record of key "2022/oregon-coast/img1.jpg" and
      size "12345" with no timestamp. */
  lemma ExampleFile()
    ensures FileOf(Contents(Some("2022/oregon-coast/img1.jpg"), Some("12345"), None))
         == FileData(BaseUrl + "/" + "2022/oregon-coast/img1.jpg", "2022/oregon-coast/img1.jpg",
                     Parsed(12345), "")
  {
    assert ParseSize(Some("12345")) == Parsed(12345) by {
      assert "12345"[..4] == "1234";
      assert "1234"[..3] == "123";
      assert "123"[..2] == "12";
      assert "12"[..1] == "1";
      assert DecimalText.ParseDecimal("1") == 1;
      assert DecimalText.ParseDecimal("12") == 12;
      assert DecimalText.ParseDecimal("123") == 123;
      assert DecimalText.ParseDecimal("1234") == 1234;
    }
  }

  /** A worked document: a folder record, a record without a key, and a file
      record whose size is "12345" and whose timestamp is missing. */
  lemma ExampleListing()
    ensures ParseXML([
              Contents(Some("albums/"), None, None),
              Contents(None, Some("7"), Some("2024-01-01T00:00:00.000Z")),
              Contents(Some("2022/oregon-coast/img1.jpg"), Some("12345"), None)])
         == Listing([FolderData("albums/")],
                    [FileData(BaseUrl + "/" + "2022/oregon-coast/img1.jpg", "2022/oregon-coast/img1.jpg",
                              Parsed(12345), "")])
  {
    var folder := Contents(Some("albums/"), None, None);
    var blank := Contents(None, Some("7"), Some("2024-01-01T00:00:00.000Z"));
    var file := Contents(Some("2022/oregon-coast/img1.jpg"), Some("12345"), None);
    var entry := FileData(BaseUrl + "/" + "2022/oregon-coast/img1.jpg", "2022/oregon-coast/img1.jpg",
                          Parsed(12345), "");
    ExampleFile();
    var rest := ParseXML([blank, file]);
    assert rest == ParseXML([file]) by {
      assert [] + [blank] + [file] == [blank, file];
      assert [] + [file] == [file];
      SkippedRecordAddsNothing([], blank, [file]);
    }
    assert ParseXML([file]) == Listing([], [entry]) by {
      assert [] + [file] + [] == [file];
      FileRecordAddsOneFile([], file, []);
    }
    assert [] + [folder] + [blank, file] == [folder, blank, file];
    FolderRecordAddsOneFolder([], folder, [blank, file]);
  }
}
