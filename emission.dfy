/** The document that create_document assembles (generate_evidence_doc.py,
    add_headings): for each folder, in pre-order, an optional page break, a
    heading, one centred paragraph per image, then the subfolders.

    The document is the sequence of blocks appended to it. Whether
    run.add_picture succeeds for an image is an input, `loads`, asked of the
    image's full path. */
module Emission {
  import opened Labels
  import opened Structure

  /** A file-system path as its components, from the selected folder down:
      the pathlib path collect_files builds, item by item. */
  type Path = seq<string>

  datatype Block =
    | Heading(text: string, level: nat, bold: bool)
    | PageBreak
      /** A centred paragraph for one image; `embedded` tells whether the
          picture went in or add_picture failed and left it empty. */
    | Picture(path: Path, embedded: bool)

  // ---------- the specification of add_headings ----------

  /** The paths of the images `names` inside the folder at `dir`. */
  function Within(dir: Path, names: seq<string>): seq<Path> {
    seq(|names|, i requires 0 <= i < |names| => dir + [names[i]])
  }

  /** The blocks add_headings(fs, level, isFirstSecondary) appends, for
      folders that lie in the folder at `dir`. */
  function Emit(fs: seq<Folder>, dir: Path, level: nat, isFirstSecondary: bool, loads: Path -> bool): seq<Block>
    decreases fs, 1
  {
    if fs == [] then []
    else EmitFolder(fs[0], dir, level, isFirstSecondary, loads) + Emit(fs[1..], dir, level, isFirstSecondary, loads)
  }

  /** One iteration of add_headings' loop: the page break when level > 1 and
      the call is not flagged as the first secondary one, the heading, the
      image paragraphs, then the subfolders one level deeper. */
  function EmitFolder(f: Folder, dir: Path, level: nat, isFirstSecondary: bool, loads: Path -> bool): seq<Block>
    decreases f, 0
  {
    (if level > 1 && !isFirstSecondary then [PageBreak] else [])
    + [Heading(ConvertFolderName(f.name, level), level, level == 1)]
    + Pictures(Within(dir + [f.name], f.files), loads)
    + (if f.subs != [] then Emit(f.subs, dir + [f.name], level + 1, level == 1, loads) else [])
  }

  function Pictures(paths: seq<Path>, loads: Path -> bool): seq<Block> {
    if paths == [] then [] else [Picture(paths[0], loads(paths[0]))] + Pictures(paths[1..], loads)
  }

  /** The image paths of a structure in pre-order: a folder's own images,
      then those of its subfolders, then those of the folders after it. */
  function AllFiles(fs: seq<Folder>, dir: Path): seq<Path> {
    if fs == [] then []
    else Within(dir + [fs[0].name], fs[0].files) + AllFiles(fs[0].subs, dir + [fs[0].name]) + AllFiles(fs[1..], dir)
  }

  /** How many of the paths add_picture accepts. */
  function Loaded(paths: seq<Path>, loads: Path -> bool): nat {
    if paths == [] then 0 else (if loads(paths[0]) then 1 else 0) + Loaded(paths[1..], loads)
  }

  // ---------- the document as built in place ----------

  /** The document being assembled and the progress counter of
      create_document. `reports` holds the values passed to update_progress,
      as counts of images added so far (the percentage is 100 times their ratio to
      totalImages). */
  class Document {
    var blocks: seq<Block>
    var currentImage: nat
    var reports: seq<nat>
    const totalImages: nat

    /** Progress was reported once per added image, counting up from one,
        and the counter has not passed the total it is divided by. */
    predicate Counted()
      reads this
    {
      && currentImage <= totalImages
      && |reports| == currentImage
      && forall i :: 0 <= i < |reports| ==> reports[i] == i + 1
    }

    constructor (total: nat)
      ensures blocks == [] && currentImage == 0 && reports == [] && totalImages == total
      ensures Counted()
    {
      blocks, currentImage, reports, totalImages := [], 0, [], total;
    }

    /** doc.add_page_break() */
    method AddPageBreak()
      modifies this
      ensures blocks == old(blocks) + [PageBreak]
      ensures currentImage == old(currentImage) && reports == old(reports)
    {
      blocks := blocks + [PageBreak];
    }

    /** The heading paragraph: the text, style 'Heading <level>', bold at level 1. */
    method AddHeading(text: string, level: nat)
      modifies this
      ensures blocks == old(blocks) + [Heading(text, level, level == 1)]
      ensures currentImage == old(currentImage) && reports == old(reports)
    {
      blocks := blocks + [Heading(text, level, level == 1)];
    }

    /** The try block for one image: the centred paragraph is added first;
        only when add_picture succeeds is the counter advanced and reported. */
    method AddImage(path: Path, loads: Path -> bool)
      requires Counted() && (loads(path) ==> currentImage < totalImages)
      modifies this
      ensures Counted()
      ensures blocks == old(blocks) + [Picture(path, loads(path))]
      ensures currentImage == old(currentImage) + (if loads(path) then 1 else 0)
    {
      blocks := blocks + [Picture(path, loads(path))];
      if loads(path) {
        currentImage := currentImage + 1;
        reports := reports + [currentImage];
      }
    }

    /** The inner loop of add_headings over one folder's images. */
    method AddImages(files: seq<Path>, loads: Path -> bool)
      requires Counted() && currentImage + Loaded(files, loads) <= totalImages
      modifies this
      ensures Counted()
      ensures blocks == old(blocks) + Pictures(files, loads)
      ensures currentImage == old(currentImage) + Loaded(files, loads)
    {
      var j := 0;
      while j < |files|
        invariant 0 <= j <= |files|
        invariant Counted()
        invariant blocks == old(blocks) + Pictures(files[..j], loads)
        invariant currentImage == old(currentImage) + Loaded(files[..j], loads)
      {
        LoadedSnoc(files[..j], files[j], loads);
        LoadedConcat(files[..j + 1], files[j + 1..], loads);
        assert files[..j + 1] + files[j + 1..] == files;
        assert files[..j + 1] == files[..j] + [files[j]];
        AddImage(files[j], loads);
        PicturesSnoc(files[..j], files[j], loads);
        assert files[..j + 1] == files[..j] + [files[j]];
        j := j + 1;
      }
      assert files[..j] == files;
    }

    /** add_headings(folder_structure, level, is_first_secondary) for folders
        lying in the folder at `dir`: the loop over the folders of one level. */
    method AddHeadings(fs: seq<Folder>, dir: Path, level: nat, isFirstSecondary: bool, loads: Path -> bool)
      requires Counted() && currentImage + Loaded(AllFiles(fs, dir), loads) <= totalImages
      modifies this
      ensures Counted()
      ensures blocks == old(blocks) + Emit(fs, dir, level, isFirstSecondary, loads)
      ensures currentImage == old(currentImage) + Loaded(AllFiles(fs, dir), loads)
      decreases fs, 1
    {
      var i := 0;
      while i < |fs|
        invariant 0 <= i <= |fs|
        invariant Counted()
        invariant blocks + Emit(fs[i..], dir, level, isFirstSecondary, loads)
                  == old(blocks) + Emit(fs, dir, level, isFirstSecondary, loads)
        invariant currentImage + Loaded(AllFiles(fs[i..], dir), loads)
                  == old(currentImage) + Loaded(AllFiles(fs, dir), loads)
        invariant currentImage + Loaded(AllFiles(fs[i..], dir), loads) <= totalImages
      {
        ghost var done := blocks;
        RestStep(fs, dir, i, level, isFirstSecondary, loads);
        AddFolder(fs[i], dir, level, isFirstSecondary, loads);
        Advance(done, EmitFolder(fs[i], dir, level, isFirstSecondary, loads), Emit(fs[i + 1..], dir, level, isFirstSecondary, loads),
                Emit(fs[i..], dir, level, isFirstSecondary, loads), old(blocks) + Emit(fs, dir, level, isFirstSecondary, loads));
        i := i + 1;
      }
      assert fs[i..] == [];
    }

    /** One pass of add_headings' loop: the page break, the heading, the
        images of the folder, then the call for its subfolders. */
    method AddFolder(f: Folder, dir: Path, level: nat, isFirstSecondary: bool, loads: Path -> bool)
      requires Counted()
      requires currentImage + Loaded(Within(dir + [f.name], f.files), loads)
               + Loaded(AllFiles(f.subs, dir + [f.name]), loads) <= totalImages
      modifies this
      ensures Counted()
      ensures blocks == old(blocks) + EmitFolder(f, dir, level, isFirstSecondary, loads)
      ensures currentImage == old(currentImage) + Loaded(Within(dir + [f.name], f.files), loads)
                              + Loaded(AllFiles(f.subs, dir + [f.name]), loads)
      decreases f, 0
    {
      var displayName := ConvertFolderName(f.name, level);
      if level > 1 && !isFirstSecondary {
        AddPageBreak();
      }
      AddHeading(displayName, level);
      ghost var head := blocks;
      AddImages(Within(dir + [f.name], f.files), loads);
      ghost var pictured := blocks;
      if f.subs != [] {
        AddHeadings(f.subs, dir + [f.name], level + 1, level == 1, loads);
      } else {
        assert AllFiles(f.subs, dir + [f.name]) == [];
      }
      EmitFolderParts(f, dir, level, isFirstSecondary, loads, old(blocks), head, pictured, blocks);
    }
  }

  /** create_document's assembly for the structure collect_files built from
      the folder `root`: the document, the final counter, the total it
      reports against and the counts passed to update_progress. */
  method CreateDocument(structure: seq<Folder>, root: string, loads: Path -> bool)
    returns (doc: seq<Block>, added: nat, total: nat, progress: seq<nat>)
    ensures doc == Emit(structure, [root], 1, false, loads)
    ensures total == CountTotalImages(structure)
    ensures added == Embedded(doc) && added <= total
    ensures |progress| == added && forall i :: 0 <= i < added ==> progress[i] == i + 1 <= total
  {
    total := CountTotalImages(structure);
    LoadedAtMostAll(structure, [root], loads);
    var d := new Document(total);
    d.AddHeadings(structure, [root], 1, false, loads);
    doc, added, progress := d.blocks, d.currentImage, d.reports;
    EmitPictures(structure, [root], 1, false, loads);
  }

  /** The blocks one iteration appends, piece by piece, make up EmitFolder. */
  lemma EmitFolderParts(f: Folder, dir: Path, level: nat, first: bool, loads: Path -> bool,
                        before: seq<Block>, head: seq<Block>, pictured: seq<Block>, after: seq<Block>)
    requires head == before + (if level > 1 && !first then [PageBreak] else [])
                    + [Heading(ConvertFolderName(f.name, level), level, level == 1)]
    requires pictured == head + Pictures(Within(dir + [f.name], f.files), loads)
    requires after == pictured + (if f.subs != [] then Emit(f.subs, dir + [f.name], level + 1, level == 1, loads) else [])
    ensures after == before + EmitFolder(f, dir, level, first, loads)
  {
    var pre: seq<Block> := if level > 1 && !first then [PageBreak] else [];
    var heading := [Heading(ConvertFolderName(f.name, level), level, level == 1)];
    var pics := Pictures(Within(dir + [f.name], f.files), loads);
    var sub := if f.subs != [] then Emit(f.subs, dir + [f.name], level + 1, level == 1, loads) else [];
    assert EmitFolder(f, dir, level, first, loads) == pre + heading + pics + sub;
    Regroup4(before, pre, heading, pics, sub);
  }

  lemma Regroup4<T>(b: seq<T>, w: seq<T>, x: seq<T>, y: seq<T>, z: seq<T>)
    ensures (((b + w) + x) + y) + z == b + (((w + x) + y) + z)
  {
  }

  lemma Advance(done: seq<Block>, next: seq<Block>, rest: seq<Block>, here: seq<Block>, whole: seq<Block>)
    requires here == next + rest && done + here == whole
    ensures (done + next) + rest == whole
  {
  }

  /** Emit and AllFiles of the folders from i on, split at folder i. */
  lemma RestStep(fs: seq<Folder>, dir: Path, i: nat, level: nat, first: bool, loads: Path -> bool)
    requires i < |fs|
    ensures Emit(fs[i..], dir, level, first, loads)
            == EmitFolder(fs[i], dir, level, first, loads) + Emit(fs[i + 1..], dir, level, first, loads)
    ensures Loaded(AllFiles(fs[i..], dir), loads)
            == Loaded(Within(dir + [fs[i].name], fs[i].files), loads)
               + Loaded(AllFiles(fs[i].subs, dir + [fs[i].name]), loads) + Loaded(AllFiles(fs[i + 1..], dir), loads)
  {
    var rest := fs[i..];
    var own := Within(dir + [fs[i].name], fs[i].files);
    assert rest[0] == fs[i] && rest[1..] == fs[i + 1..];
    LoadedConcat(own + AllFiles(fs[i].subs, dir + [fs[i].name]), AllFiles(fs[i + 1..], dir), loads);
    LoadedConcat(own, AllFiles(fs[i].subs, dir + [fs[i].name]), loads);
  }

  // ---------- what the document holds ----------

  /** The paths of the image paragraphs, in document order. */
  function PicturePaths(bs: seq<Block>): seq<Path> {
    if bs == [] then []
    else (if bs[0].Picture? then [bs[0].path] else []) + PicturePaths(bs[1..])
  }

  /** The number of image paragraphs that hold a picture. */
  function Embedded(bs: seq<Block>): nat {
    if bs == [] then 0
    else (if bs[0].Picture? && bs[0].embedded then 1 else 0) + Embedded(bs[1..])
  }

  lemma {:induction false} LoadedConcat(a: seq<Path>, b: seq<Path>, loads: Path -> bool)
    ensures Loaded(a + b, loads) == Loaded(a, loads) + Loaded(b, loads)
  {
    if a != [] {
      assert (a + b)[1..] == a[1..] + b;
      LoadedConcat(a[1..], b, loads);
    } else {
      assert a + b == b;
    }
  }

  lemma LoadedSnoc(a: seq<Path>, p: Path, loads: Path -> bool)
    ensures Loaded(a + [p], loads) == Loaded(a, loads) + (if loads(p) then 1 else 0)
  {
    LoadedConcat(a, [p], loads);
  }

  lemma {:induction false} PicturePathsConcat(a: seq<Block>, b: seq<Block>)
    ensures PicturePaths(a + b) == PicturePaths(a) + PicturePaths(b)
    ensures Embedded(a + b) == Embedded(a) + Embedded(b)
  {
    if a != [] {
      assert (a + b)[1..] == a[1..] + b;
      PicturePathsConcat(a[1..], b);
    } else {
      assert a + b == b;
    }
  }

  lemma {:induction false} PicturesSnoc(a: seq<Path>, p: Path, loads: Path -> bool)
    ensures Pictures(a + [p], loads) == Pictures(a, loads) + [Picture(p, loads(p))]
  {
    if a != [] {
      assert (a + [p])[1..] == a[1..] + [p];
      PicturesSnoc(a[1..], p, loads);
    } else {
      assert [p][1..] == [];
    }
  }

  lemma {:induction false} PicturesHold(paths: seq<Path>, loads: Path -> bool)
    ensures PicturePaths(Pictures(paths, loads)) == paths
    ensures Embedded(Pictures(paths, loads)) == Loaded(paths, loads)
  {
    if paths != [] {
      var ps := Pictures(paths, loads);
      assert ps[1..] == Pictures(paths[1..], loads);
      PicturesHold(paths[1..], loads);
    }
  }

  /** Every image of the structure gets exactly one paragraph, under its own
      path, in pre-order, and the embedded ones are those add_picture
      accepted; so the counter create_document ends with is the number of
      pictures in the document. */
  lemma {:induction false} EmitPictures(fs: seq<Folder>, dir: Path, level: nat, first: bool, loads: Path -> bool)
    ensures PicturePaths(Emit(fs, dir, level, first, loads)) == AllFiles(fs, dir)
    ensures Embedded(Emit(fs, dir, level, first, loads)) == Loaded(AllFiles(fs, dir), loads)
    decreases fs, 1
  {
    if fs != [] {
      var here := dir + [fs[0].name];
      EmitFolderPictures(fs[0], dir, level, first, loads);
      EmitPictures(fs[1..], dir, level, first, loads);
      PicturePathsConcat(EmitFolder(fs[0], dir, level, first, loads), Emit(fs[1..], dir, level, first, loads));
      LoadedConcat(Within(here, fs[0].files) + AllFiles(fs[0].subs, here), AllFiles(fs[1..], dir), loads);
    }
  }

  lemma {:induction false} EmitFolderPictures(f: Folder, dir: Path, level: nat, first: bool, loads: Path -> bool)
    ensures PicturePaths(EmitFolder(f, dir, level, first, loads))
            == Within(dir + [f.name], f.files) + AllFiles(f.subs, dir + [f.name])
    ensures Embedded(EmitFolder(f, dir, level, first, loads))
            == Loaded(Within(dir + [f.name], f.files) + AllFiles(f.subs, dir + [f.name]), loads)
    decreases f, 0
  {
    var here := dir + [f.name];
    var own := Within(here, f.files);
    var pre: seq<Block> := if level > 1 && !first then [PageBreak] else [];
    var head := pre + [Heading(ConvertFolderName(f.name, level), level, level == 1)];
    var pics := Pictures(own, loads);
    NoPictures(head);
    PicturesHold(own, loads);
    PicturePathsConcat(head, pics);
    assert PicturePaths(head + pics) == own;
    assert Embedded(head + pics) == Loaded(own, loads);
    LoadedConcat(own, AllFiles(f.subs, here), loads);
    if f.subs != [] {
      var sub := Emit(f.subs, here, level + 1, level == 1, loads);
      assert EmitFolder(f, dir, level, first, loads) == head + pics + sub;
      EmitPictures(f.subs, here, level + 1, level == 1, loads);
      PicturePathsConcat(head + pics, sub);
    } else {
      assert EmitFolder(f, dir, level, first, loads) == head + pics;
      assert AllFiles(f.subs, here) == [];
      assert own + AllFiles(f.subs, here) == own;
    }
  }

  lemma {:induction false} NoPictures(bs: seq<Block>)
    requires forall j :: 0 <= j < |bs| ==> !bs[j].Picture?
    ensures PicturePaths(bs) == [] && Embedded(bs) == 0
  {
    if bs != [] {
      NoPictures(bs[1..]);
    }
  }

  /** Images are told apart by their folders: two top-level folders holding
      an image of the same name give two paragraphs with different paths, so
      one can be embedded while the other fails. */
  lemma SameNameApart(root: string, x: string, y: string, n: string)
    requires x != y
    ensures var fs := [Folder(x, [n], []), Folder(y, [n], [])];
      && PicturePaths(Emit(fs, [root], 1, false, p => p == [root, y, n])) == [[root, x, n], [root, y, n]]
      && Embedded(Emit(fs, [root], 1, false, p => p == [root, y, n])) == 1
  {
    var fs := [Folder(x, [n], []), Folder(y, [n], [])];
    var loads := p => p == [root, y, n];
    EmitPictures(fs, [root], 1, false, loads);
    TwoFolderPaths(root, x, y, n);
    LoadedTwo([root, x, n], [root, y, n], loads);
  }

  lemma TwoFolderPaths(root: string, x: string, y: string, n: string)
    ensures AllFiles([Folder(x, [n], []), Folder(y, [n], [])], [root]) == [[root, x, n], [root, y, n]]
  {
    var fs := [Folder(x, [n], []), Folder(y, [n], [])];
    var second := fs[1..];
    assert second == [Folder(y, [n], [])] && second[1..] == [];
    WithinOne([root], x, n);
    WithinOne([root], y, n);
    assert [root] + [x, n] == [root, x, n] && [root] + [y, n] == [root, y, n];
    assert AllFiles(second, [root]) == Within([root] + [y], [n]) + AllFiles([], [root] + [y]) + AllFiles([], [root]);
    assert AllFiles(fs, [root]) == Within([root] + [x], [n]) + AllFiles([], [root] + [x]) + AllFiles(second, [root]);
  }

  lemma WithinOne(dir: Path, x: string, n: string)
    ensures Within(dir + [x], [n]) == [dir + [x, n]]
  {
    assert dir + [x] + [n] == dir + [x, n];
  }

  lemma LoadedTwo(a: Path, b: Path, loads: Path -> bool)
    requires !loads(a) && loads(b)
    ensures Loaded([a, b], loads) == 1
  {
    assert [a, b][1..] == [b] && [b][1..] == [];
    assert Loaded([b], loads) == 1;
  }

  /** count_total_images counts exactly the images the emission walks over. */
  lemma {:induction false} AllFilesCount(fs: seq<Folder>, dir: Path)
    ensures |AllFiles(fs, dir)| == CountTotalImages(fs)
  {
    if fs != [] {
      AllFilesCount(fs[0].subs, dir + [fs[0].name]);
      AllFilesCount(fs[1..], dir);
    }
  }

  lemma {:induction false} LoadedAtMost(paths: seq<Path>, loads: Path -> bool)
    ensures Loaded(paths, loads) <= |paths|
    ensures (forall p :: p in paths ==> loads(p)) ==> Loaded(paths, loads) == |paths|
  {
    if paths != [] {
      LoadedAtMost(paths[1..], loads);
    }
  }

  /** The counter never passes the total the progress bar divides by. */
  lemma LoadedAtMostAll(fs: seq<Folder>, dir: Path, loads: Path -> bool)
    ensures Loaded(AllFiles(fs, dir), loads) <= CountTotalImages(fs)
    ensures (forall p :: p in AllFiles(fs, dir) ==> loads(p)) ==> Loaded(AllFiles(fs, dir), loads) == CountTotalImages(fs)
  {
    LoadedAtMost(AllFiles(fs, dir), loads);
    AllFilesCount(fs, dir);
  }

  // ---------- headings and page breaks ----------

  /** Every heading is bold exactly when its level is 1, and no heading is
      shallower than the level of the call. */
  predicate HeadingsStyled(bs: seq<Block>, level: nat) {
    forall j :: 0 <= j < |bs| && bs[j].Heading? ==> bs[j].level >= level && (bs[j].bold <==> bs[j].level == 1)
  }

  /** The page-break rule of the code as written: a page break is always
      followed by a heading of level 3 or more, and every heading of level 3
      or more comes right after a page break. */
  predicate BreakRule(bs: seq<Block>) {
    forall j :: 0 <= j < |bs| ==> BreakAt(bs, j)
  }

  predicate BreakAt(bs: seq<Block>, j: nat)
    requires j < |bs|
  {
    && (bs[j].PageBreak? ==> j + 1 < |bs| && bs[j + 1].Heading? && bs[j + 1].level >= 3)
    && (bs[j].Heading? && bs[j].level >= 3 ==> j > 0 && bs[j - 1].PageBreak?)
  }

  lemma BreakRuleConcat(a: seq<Block>, b: seq<Block>)
    requires BreakRule(a) && BreakRule(b)
    ensures BreakRule(a + b)
  {
    var r := a + b;
    forall j | 0 <= j < |r|
      ensures BreakAt(r, j)
    {
      if j < |a| {
        assert BreakAt(a, j);
        assert r[j] == a[j];
        if j + 1 < |a| { assert r[j + 1] == a[j + 1]; }
        if j > 0 { assert r[j - 1] == a[j - 1]; }
      } else {
        var k := j - |a|;
        assert BreakAt(b, k);
        assert r[j] == b[k];
        if k + 1 < |b| { assert r[j + 1] == b[k + 1]; }
        if k > 0 { assert r[j - 1] == b[k - 1]; }
      }
    }
  }

  lemma HeadingsStyledConcat(a: seq<Block>, b: seq<Block>, level: nat)
    requires HeadingsStyled(a, level) && HeadingsStyled(b, level)
    ensures HeadingsStyled(a + b, level)
  {
    var r := a + b;
    forall j | 0 <= j < |r| && r[j].Heading?
      ensures r[j].level >= level && (r[j].bold <==> r[j].level == 1)
    {
      if j < |a| { assert r[j] == a[j]; } else { assert r[j] == b[j - |a|]; }
    }
  }

  /** The flag a call of add_headings receives agrees with its level: the
      first call has level 1, the calls for level 2 are flagged, and the
      deeper ones are not. */
  predicate FlagFits(level: nat, isFirstSecondary: bool) {
    level >= 1 && ((level > 1 && !isFirstSecondary) <==> level >= 3)
  }

  /** The document add_headings produces keeps both rules at every depth. */
  lemma {:induction false} EmitRules(fs: seq<Folder>, dir: Path, level: nat, first: bool, loads: Path -> bool)
    requires FlagFits(level, first)
    ensures BreakRule(Emit(fs, dir, level, first, loads))
    ensures HeadingsStyled(Emit(fs, dir, level, first, loads), level)
    decreases fs, 1
  {
    if fs != [] {
      EmitFolderRules(fs[0], dir, level, first, loads);
      EmitRules(fs[1..], dir, level, first, loads);
      BreakRuleConcat(EmitFolder(fs[0], dir, level, first, loads), Emit(fs[1..], dir, level, first, loads));
      HeadingsStyledConcat(EmitFolder(fs[0], dir, level, first, loads), Emit(fs[1..], dir, level, first, loads), level);
    }
  }

  lemma {:induction false} EmitFolderRules(f: Folder, dir: Path, level: nat, first: bool, loads: Path -> bool)
    requires FlagFits(level, first)
    ensures BreakRule(EmitFolder(f, dir, level, first, loads))
    ensures HeadingsStyled(EmitFolder(f, dir, level, first, loads), level)
    decreases f, 0
  {
    var here := dir + [f.name];
    var pre: seq<Block> := if level > 1 && !first then [PageBreak] else [];
    var head := pre + [Heading(ConvertFolderName(f.name, level), level, level == 1)];
    var pics := Pictures(Within(here, f.files), loads);
    OpeningRules(ConvertFolderName(f.name, level), level, first);
    PicturesOnly(Within(here, f.files), loads);
    BreakRuleConcat(head, pics);
    HeadingsStyledConcat(head, pics, level);
    if f.subs != [] {
      var sub := Emit(f.subs, here, level + 1, level == 1, loads);
      assert EmitFolder(f, dir, level, first, loads) == head + pics + sub;
      EmitRules(f.subs, here, level + 1, level == 1, loads);
      HeadingsWeaken(sub, level + 1, level);
      BreakRuleConcat(head + pics, sub);
      HeadingsStyledConcat(head + pics, sub, level);
    } else {
      assert EmitFolder(f, dir, level, first, loads) == head + pics;
    }
  }

  /** The page break (when there is one) and the heading that open a folder. */
  lemma OpeningRules(text: string, level: nat, first: bool)
    requires FlagFits(level, first)
    ensures var opening := (if level > 1 && !first then [PageBreak] else [])
                           + [Heading(text, level, level == 1)];
      BreakRule(opening) && HeadingsStyled(opening, level)
  {
    var opening := (if level > 1 && !first then [PageBreak] else []) + [Heading(text, level, level == 1)];
    assert BreakAt(opening, |opening| - 1);
    if level >= 3 {
      assert BreakAt(opening, 0);
    }
  }

  lemma {:induction false} PicturesOnly(paths: seq<Path>, loads: Path -> bool)
    ensures BreakRule(Pictures(paths, loads)) && HeadingsStyled(Pictures(paths, loads), 0)
    ensures forall j :: 0 <= j < |Pictures(paths, loads)| ==> Pictures(paths, loads)[j].Picture?
  {
    if paths != [] {
      PicturesOnly(paths[1..], loads);
      var ps := Pictures(paths, loads);
      forall j | 0 <= j < |ps| ensures ps[j].Picture? && BreakAt(ps, j) {
        if j > 0 {
          assert ps[j] == Pictures(paths[1..], loads)[j - 1];
        }
      }
    }
  }

  lemma HeadingsWeaken(bs: seq<Block>, deeper: nat, level: nat)
    requires HeadingsStyled(bs, deeper) && level <= deeper
    ensures HeadingsStyled(bs, level)
  {
  }

  /** In the whole document no page break comes before a level-1 or level-2
      heading, one comes before every heading of level 3 or more, and
      consecutive image paragraphs are never separated by one. */
  lemma DocumentLayout(structure: seq<Folder>, root: string, loads: Path -> bool)
    ensures var doc := Emit(structure, [root], 1, false, loads);
      && (forall j :: 0 <= j < |doc| && doc[j].Heading? ==>
            (doc[j].bold <==> doc[j].level == 1)
            && (j > 0 && doc[j - 1].PageBreak? <==> doc[j].level >= 3))
      && (forall j :: 0 < j < |doc| && doc[j].Picture? ==> !doc[j - 1].PageBreak?)
  {
    var doc := Emit(structure, [root], 1, false, loads);
    EmitRules(structure, [root], 1, false, loads);
    forall j | 0 <= j < |doc|
      ensures doc[j].Heading? ==> (j > 0 && doc[j - 1].PageBreak? <==> doc[j].level >= 3)
      ensures 0 < j && doc[j].Picture? ==> !doc[j - 1].PageBreak?
    {
      LayoutAt(doc, j);
    }
  }

  lemma LayoutAt(doc: seq<Block>, j: nat)
    requires BreakRule(doc) && j < |doc|
    ensures doc[j].Heading? ==> (j > 0 && doc[j - 1].PageBreak? <==> doc[j].level >= 3)
    ensures 0 < j && doc[j].Picture? ==> !doc[j - 1].PageBreak?
  {
    assert BreakAt(doc, j);
    if j > 0 {
      assert BreakAt(doc, j - 1);
    }
  }
}
