/** The attachment built from a resolved file: its name is the path's last
    segment and its content type is inferred from the lower-cased extension
    (app/api/send-failed-billing/route.ts, the attachment block). */
module Mime {
  import opened Wrappers
  import Paths
  import Text
  import Search

  const PdfType := "application/pdf"
  const PngType := "image/png"
  const JpegType := "image/jpeg"

  /** The extension-to-type branch as written: three `if`s in a row, each
      overwriting what an earlier one assigned. */
  function InferMime(ext: string): (m: Option<string>)
    ensures m.Some? <==> ext == ".pdf" || ext == ".png" || ext == ".jpg" || ext == ".jpeg"
  {
    var m0: Option<string> := None;
    var m1 := if ext == ".pdf" then Some(PdfType) else m0;
    var m2 := if ext == ".png" then Some(PngType) else m1;
    if ext == ".jpg" || ext == ".jpeg" then Some(JpegType) else m2
  }

  /** The same mapping as a table, read by first match. */
  const MimeTable: seq<(string, string)> :=
    [(".pdf", PdfType), (".png", PngType), (".jpg", JpegType), (".jpeg", JpegType)]

  function LookupMime(ext: string): Option<string> {
    match Search.FirstIndex(MimeTable, (e: (string, string)) => e.0 == ext)
    case Some(k) => Some(MimeTable[k].1)
    case None => None
  }

  /** The sequential `if`s agree with the table for every extension: no
      later branch ever overrides an earlier one, so the three branches are
      mutually exclusive and their order does not matter. */
  lemma InferMimeIsTableLookup(ext: string)
    ensures InferMime(ext) == LookupMime(ext)
  {
    var p := (e: (string, string)) => e.0 == ext;
    if ext == ".pdf" {
      Search.FirstIndexUnique(MimeTable, p, 0);
    } else if ext == ".png" {
      Search.FirstIndexUnique(MimeTable, p, 1);
    } else if ext == ".jpg" {
      Search.FirstIndexUnique(MimeTable, p, 2);
    } else if ext == ".jpeg" {
      Search.FirstIndexUnique(MimeTable, p, 3);
    } else {
      assert Search.NoneMatch(MimeTable, p);
    }
  }

  /** Content type of a file name: the table entry for its lower-cased
      extension, if any. */
  function FileType(filename: string): (m: Option<string>)
    ensures m == LookupMime(Text.Lower(Paths.Extname(filename)))
  {
    InferMimeIsTableLookup(Text.Lower(Paths.Extname(filename)));
    InferMime(Text.Lower(Paths.Extname(filename)))
  }

  /** `{ filename, content, type }` as handed to the delivery provider; the
      content stays raw bytes here (see README for the base64 step). */
  datatype Attachment = Attachment(filename: string, content: seq<bv8>, mimeType: Option<string>)

  /** The attachment for the file read from `path`: always built, with or
      without a content type. */
  function AttachmentFor(path: string, content: seq<bv8>): (a: Attachment)
    ensures a.content == content
    ensures a.filename == Paths.Basename(path)
    ensures a.mimeType == LookupMime(Text.Lower(Paths.Extname(a.filename)))
    ensures '/' !in a.filename && |a.filename| <= |path|
    ensures a.mimeType.Some? <==> Text.Lower(Paths.Extname(a.filename)) in {".pdf", ".png", ".jpg", ".jpeg"}
    ensures a.mimeType.Some? ==> a.mimeType == Some(PdfType) || a.mimeType == Some(PngType) || a.mimeType == Some(JpegType)
  {
    var filename := Paths.Basename(path);
    Attachment(filename, content, FileType(filename))
  }

  /** Extension matching ignores ASCII case: names whose extensions differ
      only in case get the same content type. */
  lemma FileTypeIgnoresCase(a: string, b: string)
    requires Text.EqualIgnoringCase(Paths.Extname(a), Paths.Extname(b))
    ensures FileType(a) == FileType(b)
  {
    Text.LowerEqualIff(Paths.Extname(a), Paths.Extname(b));
  }

  /** Each table key is a dot followed by lower-case letters, and the
      sequential `if`s map it to the table's type. */
  lemma TableKey(k: int)
    requires 0 <= k < |MimeTable|
    ensures var key := MimeTable[k].0;
      && |key| > 1 && key[0] == '.' && '.' !in key[1..]
      && Text.Lower(key) == key
      && InferMime(key) == Some(MimeTable[k].1)
  {
  }

  /** A case variant of a dotted suffix without other dots is one too. */
  lemma CaseVariantKeepsDots(ext: string, key: string)
    requires Text.EqualIgnoringCase(ext, key)
    requires |key| > 1 && key[0] == '.' && '.' !in key[1..]
    ensures |ext| > 1 && ext[0] == '.' && '.' !in ext[1..]
  {
    forall i | 1 <= i < |ext|
      ensures ext[i] != '.'
    {
      assert key[i] == key[1..][i - 1];
    }
  }

  /** A name ending in any case variant of a table extension, after a
      non-empty stem, gets that entry's type: `invoice.PDF` is a PDF. */
  lemma FileTypeOfTableExtension(stem: string, ext: string, k: int)
    requires |stem| > 0 && '/' !in stem && 0 <= k < |MimeTable|
    requires Text.EqualIgnoringCase(ext, MimeTable[k].0)
    ensures FileType(stem + ext) == Some(MimeTable[k].1)
  {
    var key := MimeTable[k].0;
    TableKey(k);
    CaseVariantKeepsDots(ext, key);
    Paths.ExtnameOfSuffix(stem, ext);
    Text.LowerEqualIff(ext, key);
  }

  /** A name whose only dot is its first character has no extension and so
      no content type, even when that name is `.pdf`. */
  lemma LeadingDotHasNoType(rest: string)
    requires '.' !in rest
    ensures FileType("." + rest) == None
  {
    var name := "." + rest;
    forall i | 0 < i < |name|
      ensures name[i] != '.'
    {
      assert name[i] == rest[i - 1];
    }
  }
}
