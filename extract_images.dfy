/**
 * `extract_images_from_pdf` of pdf_tools/extract_images.py: every embedded
 * image of a PDF, page by page, is written to `<output_base>/<pdf stem>/` as
 * `<stem>_<nnn>.<ext>`, numbered from 1 across the whole document, and the
 * number of images written is returned. The PDF is given as its pages'
 * images (bytes and extension); the output directory is a map from path to
 * bytes.
 */
module ExtractImages {
  import opened Wrappers
  import opened PyStr

  /** A file-system path as the sequence of its components. */
  type Path = seq<string>

  /** An extracted image: its bytes and the extension the PDF library reports. */
  datatype Image = Image(data: seq<bv8>, ext: string)

  /** The images of one page, in the order the page lists them. */
  type Page = seq<Image>

  class FileSystem {
    var files: map<Path, seq<bv8>>
    var dirs: set<Path>

    constructor (files0: map<Path, seq<bv8>>, dirs0: set<Path>)
      ensures files == files0 && dirs == dirs0
    {
      files := files0;
      dirs := dirs0;
    }

    /** `Path(dir).mkdir(parents=True, exist_ok=True)`: the directory and all its ancestors exist. */
    method MakeDirs(dir: Path)
      modifies this
      ensures dirs == old(dirs) + Ancestors(dir)
      ensures files == old(files)
    {
      dirs := dirs + Ancestors(dir);
    }

    /** `open(path, "wb").write(data)`: creates or overwrites the file. */
    method WriteFile(path: Path, data: seq<bv8>)
      modifies this
      ensures files == old(files)[path := data]
      ensures dirs == old(dirs)
    {
      files := files[path := data];
    }
  }

  /** The non-empty prefixes of a path: the directory itself and its ancestors. */
  function Ancestors(dir: Path): set<Path> {
    set k | 1 <= k <= |dir| :: dir[..k]
  }

  // ---------------------------------------------------------------------------
  // Names

  /** `s.rfind(c)`: the last position of c, or -1. */
  function RFind(s: string, c: char): (r: int)
    ensures -1 <= r < |s|
    ensures r == -1 ==> forall j :: 0 <= j < |s| ==> s[j] != c
    ensures r >= 0 ==> s[r] == c && forall j :: r < j < |s| ==> s[j] != c
  {
    if s == [] then -1
    else if s[|s| - 1] == c then |s| - 1
    else RFind(s[..|s| - 1], c)
  }

  /** `PurePath.stem` of a file name: the name without its last suffix. */
  function Stem(name: string): string {
    var i := RFind(name, '.');
    if 0 < i < |name| - 1 then name[..i] else name
  }

  /** The stem drops exactly the final ".ext" of a name whose base is not empty. */
  lemma StemDropsSuffix(base: string, ext: string)
    requires base != [] && ext != []
    requires forall j :: 0 <= j < |ext| ==> ext[j] != '.'
    ensures Stem(base + "." + ext) == base
  {
    var name := base + "." + ext;
    assert name[|base|] == '.';
    assert forall j :: |base| < j < |name| ==> name[j] == ext[j - |base| - 1];
    assert RFind(name, '.') == |base|;
    assert name[..|base|] == base;
  }

  /** The stem of the PDF's file name (the last path component). */
  function PdfStem(pdfPath: Path): string {
    if pdfPath == [] then "" else Stem(pdfPath[|pdfPath| - 1])
  }

  /**
   * The extension an image is written with: a non-empty forced extension
   * for every image, otherwise the image's own.
   */
  function ImageExt(img: Image, force: Option<string>): string {
    if force.Some? && force.value != "" then AsciiLower(LStripChar(force.value, '.')) else img.ext
  }

  /**
   * A non-empty forced extension is written without leading dots and
   * lower-cased; an absent or empty one leaves each image's own extension.
   */
  lemma ForcedExtension(img: Image, force: Option<string>)
    ensures force.Some? && force.value != "" ==>
      var ext := ImageExt(img, force);
      && ext == AsciiLower(LStripChar(force.value, '.'))
      && (ext == [] || ext[0] != '.')
      && forall i :: 0 <= i < |ext| ==> !('A' <= ext[i] <= 'Z')
    ensures !(force.Some? && force.value != "") ==> ImageExt(img, force) == img.ext
  {
    if force.Some? && force.value != "" {
      AsciiLowerChars(LStripChar(force.value, '.'));
    }
  }

  /** `f"{stem}_{n:03d}.{ext}"`. */
  function FileName(stem: string, n: nat, ext: string): string {
    stem + "_" + Pad3(n) + "." + ext
  }

  function OutputFolder(outputBase: Path, stem: string): Path {
    outputBase + [stem]
  }

  /** The position of the first c in s, or |s|. */
  function FirstIndex(s: string, c: char): (i: nat)
    ensures i <= |s|
  {
    if s == [] then 0 else if s[0] == c then 0 else 1 + FirstIndex(s[1..], c)
  }

  lemma {:induction false} FirstDotAfterDigits(d: string, ext: string)
    requires AllDigits(d)
    ensures FirstIndex(d + "." + ext, '.') == |d|
  {
    if d != [] {
      assert (d + "." + ext)[1..] == d[1..] + "." + ext;
      FirstDotAfterDigits(d[1..], ext);
    } else {
      assert d + "." + ext == "." + ext;
    }
  }

  /**
   * The counter a file name carries: the digits after `<stem>_` up to the
   * first dot after them.
   */
  function NameNumber(stem: string, name: string): nat {
    if |name| <= |stem| + 1 then 0
    else
      var rest := name[|stem| + 1..];
      var digits := rest[..FirstIndex(rest, '.')];
      if AllDigits(digits) then DigitsValue(digits) else 0
  }

  /**
   * The counter reads back from the file name, whatever the extension, so
   * different counters never give the same file name.
   */
  lemma NameNumberRoundTrip(stem: string, n: nat, ext: string)
    ensures NameNumber(stem, FileName(stem, n, ext)) == n
  {
    var d := Pad3(n);
    var prefix := stem + "_";
    var rest := d + "." + ext;
    assert FileName(stem, n, ext) == prefix + rest;
    assert (prefix + rest)[|stem| + 1..] == rest;
    Pad3Value(n);
    FirstDotAfterDigits(d, ext);
    assert rest[..|d|] == d;
  }

  /** Where the image numbered n is written. */
  function ImagePath(folder: Path, stem: string, n: nat, ext: string): Path {
    folder + [FileName(stem, n, ext)]
  }

  // ---------------------------------------------------------------------------
  // The document's images

  /** All images in page order, then in order within each page. */
  function Flatten(pages: seq<Page>): seq<Image> {
    if pages == [] then [] else Flatten(pages[..|pages| - 1]) + pages[|pages| - 1]
  }

  /** The number of images, page by page. */
  function TotalImages(pages: seq<Page>): nat {
    if pages == [] then 0 else |pages[0]| + TotalImages(pages[1..])
  }

  lemma {:induction false} TotalImagesAppend(a: seq<Page>, b: seq<Page>)
    ensures TotalImages(a + b) == TotalImages(a) + TotalImages(b)
  {
    if a != [] {
      assert (a + b)[1..] == a[1..] + b;
      TotalImagesAppend(a[1..], b);
    } else {
      assert a + b == b;
    }
  }

  /** The counter `image_count` ends at the total number of images over all pages. */
  lemma {:induction false} FlattenLength(pages: seq<Page>)
    ensures |Flatten(pages)| == TotalImages(pages)
  {
    if pages != [] {
      var init := pages[..|pages| - 1];
      FlattenLength(init);
      TotalImagesAppend(init, [pages[|pages| - 1]]);
      assert init + [pages[|pages| - 1]] == pages;
      assert TotalImages([pages[|pages| - 1]]) == |pages[|pages| - 1]|;
    }
  }

  lemma {:induction false} FlattenPrefix(pages: seq<Page>, p: nat)
    requires p <= |pages|
    ensures Flatten(pages[..p]) <= Flatten(pages)
  {
    if p < |pages| {
      var init := pages[..|pages| - 1];
      assert init[..p] == pages[..p];
      FlattenPrefix(init, p);
    } else {
      assert pages[..p] == pages;
    }
  }

  /**
   * Numbering runs on across pages: the images of page p are numbered
   * right after all images on the pages before it, in page order.
   */
  lemma PageImages(pages: seq<Page>, p: nat)
    requires p < |pages|
    ensures |Flatten(pages[..p])| + |pages[p]| <= |Flatten(pages)|
    ensures Flatten(pages)[|Flatten(pages[..p])|..|Flatten(pages[..p])| + |pages[p]|] == pages[p]
    ensures Flatten(pages[..p + 1]) == Flatten(pages[..p]) + pages[p]
  {
    var upTo := pages[..p + 1];
    assert upTo[..p] == pages[..p];
    assert Flatten(upTo) == Flatten(pages[..p]) + pages[p];
    FlattenPrefix(pages, p + 1);
  }

  // ---------------------------------------------------------------------------
  // The files written

  /** The path image k (0-based) is written to: it is image number k + 1. */
  function PathOf(folder: Path, stem: string, force: Option<string>, imgs: seq<Image>, k: nat): Path
    requires k < |imgs|
  {
    ImagePath(folder, stem, k + 1, ImageExt(imgs[k], force))
  }

  /** The files after writing the first n images, in order, as numbers 1..n. */
  function WrittenUpTo(files: map<Path, seq<bv8>>, folder: Path, stem: string, force: Option<string>, imgs: seq<Image>, n: nat)
    : map<Path, seq<bv8>>
    requires n <= |imgs|
  {
    if n == 0 then files
    else WrittenUpTo(files, folder, stem, force, imgs, n - 1)[PathOf(folder, stem, force, imgs, n - 1) := imgs[n - 1].data]
  }

  /** The files after writing all the images. */
  function Written(files: map<Path, seq<bv8>>, folder: Path, stem: string, force: Option<string>, imgs: seq<Image>)
    : map<Path, seq<bv8>>
  {
    WrittenUpTo(files, folder, stem, force, imgs, |imgs|)
  }

  /** The files written in one call have pairwise distinct paths. */
  lemma PathsDistinct(folder: Path, stem: string, force: Option<string>, imgs: seq<Image>, j: nat, k: nat)
    requires j < k < |imgs|
    ensures PathOf(folder, stem, force, imgs, j) != PathOf(folder, stem, force, imgs, k)
  {
    var ej, ek := ImageExt(imgs[j], force), ImageExt(imgs[k], force);
    NameNumberRoundTrip(stem, j + 1, ej);
    NameNumberRoundTrip(stem, k + 1, ek);
    assert PathOf(folder, stem, force, imgs, j)[|folder|] == FileName(stem, j + 1, ej);
    assert PathOf(folder, stem, force, imgs, k)[|folder|] == FileName(stem, k + 1, ek);
  }

  /** Once written, image k's bytes stay at its own numbered path while later images are written. */
  lemma {:induction false} WrittenImage(files: map<Path, seq<bv8>>, folder: Path, stem: string, force: Option<string>, imgs: seq<Image>, k: nat, n: nat)
    requires k < n <= |imgs|
    ensures PathOf(folder, stem, force, imgs, k) in WrittenUpTo(files, folder, stem, force, imgs, n)
    ensures WrittenUpTo(files, folder, stem, force, imgs, n)[PathOf(folder, stem, force, imgs, k)] == imgs[k].data
  {
    if k < n - 1 {
      WrittenImage(files, folder, stem, force, imgs, k, n - 1);
      PathsDistinct(folder, stem, force, imgs, k, n - 1);
    }
  }

  /** Every path added lies directly inside the output folder. */
  lemma {:induction false} WrittenInFolder(files: map<Path, seq<bv8>>, folder: Path, stem: string, force: Option<string>, imgs: seq<Image>, n: nat)
    requires n <= |imgs|
    ensures forall path :: path in WrittenUpTo(files, folder, stem, force, imgs, n) && path !in files ==>
      |path| == |folder| + 1 && path[..|folder|] == folder
  {
    if n > 0 {
      WrittenInFolder(files, folder, stem, force, imgs, n - 1);
      var last := PathOf(folder, stem, force, imgs, n - 1);
      assert last[..|folder|] == folder;
    }
  }

  /** Files at paths other than the numbered image paths are untouched. */
  lemma {:induction false} WrittenKeepsOthers(files: map<Path, seq<bv8>>, folder: Path, stem: string, force: Option<string>, imgs: seq<Image>, n: nat, path: Path)
    requires n <= |imgs|
    requires path in files
    requires forall k :: 0 <= k < n ==> path != PathOf(folder, stem, force, imgs, k)
    ensures path in WrittenUpTo(files, folder, stem, force, imgs, n)
    ensures WrittenUpTo(files, folder, stem, force, imgs, n)[path] == files[path]
  {
    if n > 0 {
      WrittenKeepsOthers(files, folder, stem, force, imgs, n - 1, path);
    }
  }

  /** The body of the inner loop: writes image number n, the next after those written. */
  method WriteImage(fs: FileSystem, folder: Path, stem: string, force: Option<string>,
                    ghost files0: map<Path, seq<bv8>>, ghost imgs: seq<Image>, img: Image, n: nat)
    requires 1 <= n <= |imgs| && imgs[n - 1] == img
    requires fs.files == WrittenUpTo(files0, folder, stem, force, imgs, n - 1)
    modifies fs
    ensures fs.files == WrittenUpTo(files0, folder, stem, force, imgs, n)
    ensures fs.dirs == old(fs.dirs)
  {
    var ext := ImageExt(img, force);
    var imageFilename := FileName(stem, n, ext);
    fs.WriteFile(folder + [imageFilename], img.data);
  }

  /**
   * The inner loop of `extract_images_from_pdf`: writes one page's images,
   * which are images count0 + 1 .. count0 + |page| of the document.
   */
  method WritePage(fs: FileSystem, folder: Path, stem: string, force: Option<string>,
                   ghost files0: map<Path, seq<bv8>>, ghost imgs: seq<Image>, page: Page, count0: nat)
    returns (count: nat)
    requires count0 + |page| <= |imgs| && imgs[count0..count0 + |page|] == page
    requires fs.files == WrittenUpTo(files0, folder, stem, force, imgs, count0)
    modifies fs
    ensures count == count0 + |page|
    ensures fs.files == WrittenUpTo(files0, folder, stem, force, imgs, count)
    ensures fs.dirs == old(fs.dirs)
  {
    count := count0;
    var j := 0;
    while j < |page|
      invariant 0 <= j <= |page|
      invariant count == count0 + j
      invariant fs.files == WrittenUpTo(files0, folder, stem, force, imgs, count)
      invariant fs.dirs == old(fs.dirs)
    {
      assert imgs[count] == page[j];
      WriteImage(fs, folder, stem, force, files0, imgs, page[j], count + 1);
      count := count + 1;
      j := j + 1;
    }
  }

  /** The outer loop of `extract_images_from_pdf`: writes the pages' images in page order. */
  method WritePages(fs: FileSystem, folder: Path, stem: string, force: Option<string>, pages: seq<Page>)
    returns (count: nat)
    modifies fs
    ensures count == |Flatten(pages)|
    ensures fs.files == Written(old(fs.files), folder, stem, force, Flatten(pages))
    ensures fs.dirs == old(fs.dirs)
  {
    ghost var files0 := fs.files;
    ghost var imgs := Flatten(pages);
    count := 0;
    var p := 0;
    while p < |pages|
      invariant 0 <= p <= |pages|
      invariant count == |Flatten(pages[..p])| <= |imgs|
      invariant fs.files == WrittenUpTo(files0, folder, stem, force, imgs, count)
      invariant fs.dirs == old(fs.dirs)
    {
      PageImages(pages, p);
      count := WritePage(fs, folder, stem, force, files0, imgs, pages[p], count);
      p := p + 1;
    }
    assert pages[..p] == pages;
  }

  /**
   * `extract_images_from_pdf`: creates the output folder, writes every
   * image under its running number, and returns how many were written.
   */
  method ExtractImagesFromPdf(fs: FileSystem, pdfPath: Path, outputBase: Path, force: Option<string>, pages: seq<Page>)
    returns (count: nat)
    modifies fs
    ensures count == TotalImages(pages)
    ensures fs.files == Written(old(fs.files), OutputFolder(outputBase, PdfStem(pdfPath)), PdfStem(pdfPath), force, Flatten(pages))
    ensures fs.dirs == old(fs.dirs) + Ancestors(OutputFolder(outputBase, PdfStem(pdfPath)))
  {
    var stem := PdfStem(pdfPath);
    var folder := OutputFolder(outputBase, stem);
    fs.MakeDirs(folder);
    count := WritePages(fs, folder, stem, force, pages);
    FlattenLength(pages);
  }
}
