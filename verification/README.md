# Listing loader of a portfolio site, in Dafny

The portfolio site loads its media by fetching the XML bucket listing of a
DigitalOcean Space and splitting the listing's `Contents` records into
folders and files (`elijahpollackportfolio/src/utils/dataLoader.ts`). This
project models that loader as pure functions and proves what it does to
each record and to the listing as a whole.

- `DecimalText` (`decimal.dfy`): decimal digit strings and their values,
  the part of `parseInt(text, 10)` the size field relies on, with the
  canonical spelling of a number as its inverse.
- `DataLoader` (`data_loader.dfy`): the records, the folder and file
  entries, the classifier `Classify` (the `forEach` callback of
  `parseXML`), `ParseXML` (the loop that pushes each record's entry) and
  `FetchData` (the `!response.ok` guard). `ParseXML` is stated against
  independent front-to-back reference definitions (`DroppedCount`,
  `FolderEntries`, `FileEntries`).
- `DataLoaderProps` (`data_loader_props.dfy`): lemmas that relate several
  calls: parsing distributes over concatenation, what one record adds
  wherever it stands, order preservation as an ordered subsequence with
  explicit positions, the defaults, and the failed-fetch ambiguity.

Modelling choices:

- The XML document is given already split into its `Contents` records.
  Each record holds the text content of its first descendant element named
  `Key`, `Size` and `LastModified`, in document order, or `None` when there
  is no such element (`getElementsByTagName(..)[0]?.textContent`).
- `x || d` is modelled by `TextOr`. A missing element and an empty text both
  give the default. Its behaviour is stated through the members that use
  it: `Classify` for the key, `ParseSize` for the size, `FileDefaults` for
  the timestamp.
- The HTTP request is given as its outcome `Response(ok, body)`, with the
  body already split into records.
- The base URL is the compiled-in constant of the source.
- A file's `name` is its full key.
- Only a missing or empty `Size` gives 0. Other non-numeric text gives
  `NaN` from `parseInt` (see `ParseSize` below).
- `FileOf` builds the file record, `ObjectUrl` its address and `Push` adds
  one record's entry to the end of the listing. Their behaviour is stated
  by `FileDefaults`, `KeyOfObjectUrl` and `ParseXML` respectively.

## Model

| member | source | states |
|---|---|---|
| DecimalText.ParseDecimal | elijahpollackportfolio/src/utils/dataLoader.ts:48 | the value `parseInt` gives a non-empty digit string is below 10 to the power of its length; the empty string, which `parseInt` reads as `NaN`, is given 0 but never reaches it, since `TextOr` substitutes "0" first |
| DecimalText.ParseShowDecimal | elijahpollackportfolio/src/utils/dataLoader.ts:48 | reading back the decimal spelling of any size gives that size |
| DecimalText.ShowParseDecimal | elijahpollackportfolio/src/utils/dataLoader.ts:48 | a canonical digit string is the spelling of the value read from it, so reading loses nothing |
| DecimalText.LeadingZeroIgnored | elijahpollackportfolio/src/utils/dataLoader.ts:48 | a leading zero in the size text does not change the size |
| DataLoader.KeyOfUrl | elijahpollackportfolio/src/utils/dataLoader.ts:61 | a key recovered from an address under the base URL rebuilds that address |
| DataLoader.KeyOfObjectUrl | elijahpollackportfolio/src/utils/dataLoader.ts:61 | the address `ObjectUrl` builds as base URL, slash, key gives back exactly that key, so `ObjectUrl` and `KeyOfUrl` are inverse |
| DataLoader.ParseSize | elijahpollackportfolio/src/utils/dataLoader.ts:48 | `TextOr` makes a missing or empty size read as 0; the size has a value exactly when the text is missing or all digits; any other text is kept as read |
| DataLoader.Classify | elijahpollackportfolio/src/utils/dataLoader.ts:47-66 | a record is skipped exactly when its key is missing or empty, a folder exactly when its key ends with a slash, a file exactly otherwise; the entry is named by the full key, a file's address names that key, and a file is the record `FileOf` builds |
| DataLoader.ParseXML | elijahpollackportfolio/src/utils/dataLoader.ts:38-70 | with each record's entry added by `Push` at the end, folders plus files plus dropped records is the number of records; the folders are those of the slash-ended keys and the files those of the other non-empty keys, each in input order |
| DataLoader.FetchData | elijahpollackportfolio/src/utils/dataLoader.ts:24-30 | a failed response gives no folders and no files; an OK response gives exactly the parse of its body |
| DataLoader.DroppedCountSnoc | elijahpollackportfolio/src/utils/dataLoader.ts:51-54 | one more record raises the dropped count by one exactly when its key is missing or empty |
| DataLoader.FolderEntriesSnoc | elijahpollackportfolio/src/utils/dataLoader.ts:57-58 | the folders of the records read front to back, with one more record at the end, gain only that record's folder, at the end |
| DataLoader.FileEntriesSnoc | elijahpollackportfolio/src/utils/dataLoader.ts:59-65 | the files of the records read front to back, with one more record at the end, gain only that record's file, at the end |
| DataLoaderProps.FolderEntriesAppend | elijahpollackportfolio/src/utils/dataLoader.ts:57-58 | the folders of two runs of records are those of the first followed by those of the second |
| DataLoaderProps.FileEntriesAppend | elijahpollackportfolio/src/utils/dataLoader.ts:59-65 | the files of two runs of records are those of the first followed by those of the second |
| DataLoaderProps.ParseXMLAppend | elijahpollackportfolio/src/utils/dataLoader.ts:46-69 | the listing of two runs of records is the listing of the first followed by that of the second, for folders and for files |
| DataLoaderProps.SkippedRecordAddsNothing | elijahpollackportfolio/src/utils/dataLoader.ts:47-54 | a record with a missing or empty key, wherever it stands, leaves the listing unchanged |
| DataLoaderProps.FolderRecordAddsOneFolder | elijahpollackportfolio/src/utils/dataLoader.ts:57-58 | a record whose key ends with a slash adds the one folder named by its key at its own position and no file |
| DataLoaderProps.FileRecordAddsOneFile | elijahpollackportfolio/src/utils/dataLoader.ts:59-65 | a record with any other non-empty key adds one file at its own position and no folder; the file is named by the full key and addressed as base URL, slash, key |
| DataLoaderProps.PositionsAscendingAndComplete | elijahpollackportfolio/src/utils/dataLoader.ts:46 | the positions of the records of each kind are strictly increasing and include every record of that kind |
| DataLoaderProps.FoldersAtPositions | elijahpollackportfolio/src/utils/dataLoader.ts:57-58 | the k-th folder is named by the key of the k-th slash-ended record |
| DataLoaderProps.FilesAtPositions | elijahpollackportfolio/src/utils/dataLoader.ts:59-65 | the k-th file is built from the k-th record with a non-empty key not ending with a slash |
| DataLoaderProps.ListingIsOrderedSubsequence | elijahpollackportfolio/src/utils/dataLoader.ts:46-67 | folders and files are each the input-order subsequence of their kind of record, leaving none of that kind out |
| DataLoaderProps.ListingEntriesWellFormed | elijahpollackportfolio/src/utils/dataLoader.ts:51-65 | every folder name ends with a slash; every file name is non-empty and does not end with a slash, and its address names it |
| DataLoaderProps.FileDefaults | elijahpollackportfolio/src/utils/dataLoader.ts:48-65 | the file `FileOf` builds is named by the full key and addressed under it; a missing or empty size gives 0 and a digit size its value; a present timestamp is carried over and a missing one gives the empty string |
| DataLoaderProps.SizeOfSpelledNumber | elijahpollackportfolio/src/utils/dataLoader.ts:48 | a size written as the decimal spelling of n, with or without a leading zero, reads as n |
| DataLoaderProps.FailedFetchLooksEmpty | elijahpollackportfolio/src/utils/dataLoader.ts:24-30 | a failed fetch gives the same result as an OK fetch exactly when none of that body's records has a key |
| DataLoaderProps.ExampleFile | elijahpollackportfolio/src/utils/dataLoader.ts:60-65 | the record of key "2022/oregon-coast/img1.jpg" and size "12345" without a timestamp gives a file named by the full key, with size 12345 and an empty timestamp |
| DataLoaderProps.ExampleListing | elijahpollackportfolio/src/utils/dataLoader.ts:38-70 | a folder record, a keyless record and a file record give one folder and one file with the expected fields |

## Left out

- The `fetch` call, `response.text()` and the async plumbing are I/O. They are replaced by the `Response(ok, body)` value.
- When `fetch` or `response.text()` rejects (a network error, say), `fetchData` rejects too instead of returning an empty listing. `Response` does not represent that outcome.
- `DOMParser` and `getElementsByTagName` are a foreign XML parser. They are replaced by the given sequence of `Contents` records. Malformed XML is therefore not modelled.
- `DataLoader.ParseSize`: gives a value only for missing, empty or decimal-digit text. Other text is kept as `Unparsed(text)`. `parseInt` would give `NaN` for such text, or the value of a leading digit prefix, or accept whitespace and a sign.
- `DataLoader.ParseSize`: sizes are unbounded naturals. `parseInt` returns a double, which loses precision above 2^53.
- `console.error` and `console.warn` are logging side effects and are not modelled.
- `elijahpollackportfolio/tailwind.config.js` is static build configuration with no behaviour.
