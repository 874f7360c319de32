/** The folder structure that generate_evidence_doc.py builds from a directory
    tree (collect_files) and the number of images in it (count_total_images).

    The file system is an input value: a directory listing is a sequence of
    entries, in the order the directory yields them, and a directory entry
    carries its own listing. */
module Structure {
  import opened NaturalKey
  import opened Wrappers

  datatype Entry = Dir(name: string, children: seq<Entry>) | File(name: string)

  /** One entry of the collected structure: the folder's name, the names of
      its images and its non-empty subfolders. */
  datatype Folder = Folder(name: string, files: seq<string>, subs: seq<Folder>)

  // ---------- image file names ----------

  /** Index of the last '.' in s, or -1 when there is none. */
  function LastDot(s: string): (i: int)
    ensures -1 <= i < |s|
    ensures i >= 0 ==> s[i] == '.'
    ensures forall j :: i < j < |s| ==> s[j] != '.'
  {
    if s == [] then -1
    else if s[|s| - 1] == '.' then |s| - 1
    else LastDot(s[..|s| - 1])
  }

  /** Path.suffix: from the last '.' on, provided that dot is neither the
      first nor the last character of the name; otherwise empty. */
  function Suffix(name: string): string {
    var i := LastDot(name);
    if 0 < i < |name| - 1 then name[i..] else ""
  }

  /** The extensions collect_files accepts, compared after lower-casing. */
  const ImageSuffixes: seq<string> := [".png", ".jpg", ".jpeg"]

  predicate IsImageName(name: string) {
    LowerStr(Suffix(name)) in ImageSuffixes
  }

  /** A name "<stem>.<ext>" with a non-empty stem and no dot in ext is an
      image name exactly when ext is png, jpg or jpeg in any case. */
  lemma ImageNameByExtension(stem: string, ext: string)
    requires stem != [] && '.' !in ext
    ensures IsImageName(stem + "." + ext) <==> LowerStr(ext) in ["png", "jpg", "jpeg"]
  {
    var name := stem + "." + ext;
    var i := |stem|;
    assert name[i] == '.';
    assert forall j :: i < j < |name| ==> name[j] == ext[j - i - 1];
    assert LastDot(name) == i;
    if ext == [] {
      assert Suffix(name) == "" && LowerStr("") == "";
      assert LowerStr(ext) == "";
    } else {
      assert Suffix(name) == "." + ext;
      var l := LowerStr(ext);
      assert LowerStr("." + ext) == "." + l;
      assert ("." + l)[1..] == l;
      if "." + l == ".png" { assert l == ".png"[1..]; }
      if "." + l == ".jpg" { assert l == ".jpg"[1..]; }
      if "." + l == ".jpeg" { assert l == ".jpeg"[1..]; }
    }
  }

  /** A name with no dot, or whose only dot is its first character, is never
      an image name: ".png" is not an image. */
  lemma NoStemNoImage(name: string)
    requires forall j :: 0 < j < |name| ==> name[j] != '.'
    ensures !IsImageName(name)
  {
    assert Suffix(name) == "";
  }

  // ---------- sorting by natural key ----------

  function Key(e: Entry): seq<KeyPart> { NaturalSortKey(e.name) }

  function Names(s: seq<Entry>): seq<string> { seq(|s|, i requires 0 <= i < |s| => s[i].name) }

  function FolderNames(fs: seq<Folder>): seq<string> { seq(|fs|, i requires 0 <= i < |fs| => fs[i].name) }

  /** Names in non-decreasing natural-sort-key order. */
  predicate SortedNames(ns: seq<string>) {
    forall i, j :: 0 <= i < j < |ns| ==> KeyLe(NaturalSortKey(ns[i]), NaturalSortKey(ns[j]))
  }

  lemma SortedCons(n: string, ns: seq<string>)
    requires SortedNames(ns)
    requires forall m :: m in ns ==> KeyLe(NaturalSortKey(n), NaturalSortKey(m))
    ensures SortedNames([n] + ns)
  {
    SortedConsBy(NameLe, n, ns);
  }

  /** The order sorted() leaves names in. */
  predicate NameLe(a: string, b: string) { KeyLe(NaturalSortKey(a), NaturalSortKey(b)) }

  lemma SortedConsBy<T>(le: (T, T) -> bool, x: T, xs: seq<T>)
    requires forall i, j :: 0 <= i < j < |xs| ==> le(xs[i], xs[j])
    requires forall y :: y in xs ==> le(x, y)
    ensures forall i, j :: 0 <= i < j < |[x] + xs| ==> le(([x] + xs)[i], ([x] + xs)[j])
  {
    var r := [x] + xs;
    forall i, j | 0 <= i < j < |r| ensures le(r[i], r[j]) {
      assert r[j] == xs[j - 1];
      if i == 0 {
        assert xs[j - 1] in xs;
      } else {
        assert r[i] == xs[i - 1];
      }
    }
  }

  /** Inserts e before the first entry whose key is not smaller, so that e
      stays ahead of the entries it ties with. */
  function InsertByName(e: Entry, s: seq<Entry>): (r: seq<Entry>)
    ensures multiset(r) == multiset(s) + multiset{e}
  {
    if s == [] then [e]
    else if !KeyLt(Key(s[0]), Key(e)) then [e] + s
    else
      assert s == [s[0]] + s[1..];
      [s[0]] + InsertByName(e, s[1..])
  }

  /** Inserting into a sorted listing keeps it sorted. */
  lemma {:induction false} InsertSorted(e: Entry, s: seq<Entry>)
    requires SortedNames(Names(s))
    ensures SortedNames(Names(InsertByName(e, s)))
  {
    if s == [] {
    } else if !KeyLt(Key(s[0]), Key(e)) {
      InsertFront(e, s);
    } else {
      assert SortedNames(Names(s[1..])) by {
        forall i | 0 <= i < |s| - 1 ensures Names(s[1..])[i] == Names(s)[i + 1] { }
      }
      InsertSorted(e, s[1..]);
      InsertBehind(e, s, InsertByName(e, s[1..]));
    }
  }

  lemma InsertFront(e: Entry, s: seq<Entry>)
    requires s != [] && !KeyLt(Key(s[0]), Key(e))
    requires SortedNames(Names(s))
    ensures SortedNames(Names([e] + s))
  {
    assert Names([e] + s) == [e.name] + Names(s);
    forall m | m in Names(s) ensures KeyLe(Key(e), NaturalSortKey(m)) {
      var j :| 0 <= j < |Names(s)| && Names(s)[j] == m;
      if j > 0 { assert Names(s)[0] == s[0].name; KeyLeTransitive(Key(e), Key(s[0]), NaturalSortKey(m)); }
    }
    SortedCons(e.name, Names(s));
  }

  lemma InsertBehind(e: Entry, s: seq<Entry>, t: seq<Entry>)
    requires s != [] && KeyLt(Key(s[0]), Key(e))
    requires multiset(t) == multiset(s[1..]) + multiset{e}
    requires SortedNames(Names(s)) && SortedNames(Names(t))
    ensures SortedNames(Names([s[0]] + t))
  {
    assert Names([s[0]] + t) == [s[0].name] + Names(t);
    forall m | m in Names(t) ensures KeyLe(Key(s[0]), NaturalSortKey(m)) {
      var j :| 0 <= j < |Names(t)| && Names(t)[j] == m;
      assert t[j] in multiset(t);
      if t[j] == e {
        KeyLtAsymmetric(Key(s[0]), Key(e));
      } else {
        assert t[j] in multiset(s[1..]);
        var k :| 0 <= k < |s| - 1 && s[1..][k] == t[j];
        assert Names(s)[0] == s[0].name && Names(s)[k + 1] == m;
      }
    }
    SortedCons(s[0].name, Names(t));
  }

  /** sorted(..., key=lambda x: natural_sort_key(x.name)): a stable insertion
      sort; the result is a permutation of the listing in key order. */
  function SortByName(s: seq<Entry>): (r: seq<Entry>)
    ensures multiset(r) == multiset(s)
    ensures SortedNames(Names(r))
  {
    if s == [] then []
    else
      var t := SortByName(s[1..]);
      InsertSorted(s[0], t);
      assert s == [s[0]] + s[1..];
      InsertByName(s[0], t)
  }

  // ---------- what a directory holds ----------

  /** The names of the image entries of a listing, in listing order. A
      subdirectory whose name ends in an image extension is included, as
      the suffix test in collect_files looks at names only. */
  function ImageNames(s: seq<Entry>): (r: seq<string>)
    ensures |r| <= |s|
  {
    if s == [] then []
    else if IsImageName(s[0].name) then [s[0].name] + ImageNames(s[1..])
    else ImageNames(s[1..])
  }

  /** Every image entry of the listing is kept. */
  lemma {:induction false} ImageNamesComplete(s: seq<Entry>)
    ensures forall i :: 0 <= i < |s| && IsImageName(s[i].name) ==> s[i].name in ImageNames(s)
  {
    if s != [] {
      ImageNamesComplete(s[1..]);
      var rest := ImageNames(s[1..]);
      assert forall n :: n in rest ==> n in ImageNames(s);
      forall i | 1 <= i < |s| && IsImageName(s[i].name) ensures s[i].name in ImageNames(s) {
        assert s[1..][i - 1] == s[i];
      }
    }
  }

  /** The filter keeps image names of the listing only. */
  lemma {:induction false} ImageNamesFiltered(s: seq<Entry>)
    ensures forall n :: n in ImageNames(s) ==> IsImageName(n) && n in Names(s)
  {
    if s != [] {
      ImageNamesFiltered(s[1..]);
      assert forall n :: n in Names(s[1..]) ==> n in Names(s) by {
        forall i | 0 <= i < |s| - 1 ensures Names(s[1..])[i] == Names(s)[i + 1] { }
      }
      assert Names(s)[0] == s[0].name;
    }
  }

  /** Number of image entries strictly inside e, at any depth: the
      independent measure of what collect_files keeps. */
  function ImagesUnder(e: Entry): nat
    decreases e
  {
    match e
    case File(_) => 0
    case Dir(_, cs) => |ImageNames(cs)| + ImagesIn(cs)
  }

  /** Number of image entries inside the subdirectories of a listing. */
  function ImagesIn(s: seq<Entry>): nat
    decreases s
  {
    if s == [] then 0 else ImagesUnder(s[0]) + ImagesIn(s[1..])
  }

  lemma {:induction false} ImageNamesInsert(e: Entry, s: seq<Entry>)
    ensures multiset(ImageNames(InsertByName(e, s))) == multiset(ImageNames([e])) + multiset(ImageNames(s))
    ensures ImagesIn(InsertByName(e, s)) == ImagesUnder(e) + ImagesIn(s)
  {
    if s != [] && KeyLt(Key(s[0]), Key(e)) {
      var t := InsertByName(e, s[1..]);
      assert InsertByName(e, s) == [s[0]] + t;
      ImageNamesInsert(e, s[1..]);
      ImageNamesCons(s[0], t);
      ImageNamesCons(s[0], s[1..]);
      assert s == [s[0]] + s[1..];
      Rearrange(multiset(ImageNames([s[0]])), multiset(ImageNames([e])), multiset(ImageNames(s[1..])));
    } else {
      assert InsertByName(e, s) == [e] + s;
      ImageNamesCons(e, s);
    }
  }

  lemma Rearrange(x: multiset<string>, y: multiset<string>, z: multiset<string>)
    ensures x + (y + z) == y + (x + z)
  {
  }

  lemma ImageNamesCons(x: Entry, t: seq<Entry>)
    ensures multiset(ImageNames([x] + t)) == multiset(ImageNames([x])) + multiset(ImageNames(t))
    ensures ImagesIn([x] + t) == ImagesUnder(x) + ImagesIn(t)
  {
    assert ([x] + t)[1..] == t;
    assert [x][1..] == [];
  }

  /** Sorting keeps the images of a listing and the count below it. */
  lemma {:induction false} ImageNamesSort(s: seq<Entry>)
    ensures multiset(ImageNames(SortByName(s))) == multiset(ImageNames(s))
    ensures ImagesIn(SortByName(s)) == ImagesIn(s)
  {
    if s != [] {
      ImageNamesSort(s[1..]);
      ImageNamesInsert(s[0], SortByName(s[1..]));
      assert ([s[0]] + s[1..])[1..] == s[1..];
    }
  }

  /** Filtering a sorted listing keeps the order. */
  lemma {:induction false} ImageNamesSorted(s: seq<Entry>)
    requires SortedNames(Names(s))
    ensures SortedNames(ImageNames(s))
  {
    if s != [] {
      assert SortedNames(Names(s[1..])) by {
        forall i | 0 <= i < |s| - 1 ensures Names(s[1..])[i] == Names(s)[i + 1] { }
      }
      ImageNamesSorted(s[1..]);
      if IsImageName(s[0].name) {
        ImageNamesFiltered(s[1..]);
        forall m | m in ImageNames(s[1..]) ensures KeyLe(Key(s[0]), NaturalSortKey(m)) {
          var j :| 0 <= j < |s| - 1 && Names(s[1..])[j] == m;
          assert Names(s)[0] == s[0].name && Names(s)[j + 1] == m;
        }
        SortedCons(s[0].name, ImageNames(s[1..]));
      }
    }
  }

  // ---------- collect_files and count_total_images ----------

  /** Every folder, at every depth, holds an image or a subfolder. */
  predicate Pruned(fs: seq<Folder>) {
    forall i :: 0 <= i < |fs| ==> (fs[i].files != [] || fs[i].subs != []) && Pruned(fs[i].subs)
  }

  /** count_total_images: the images of every folder, subfolders included. */
  function CountTotalImages(fs: seq<Folder>): nat {
    if fs == [] then 0
    else |fs[0].files| + CountTotalImages(fs[0].subs) + CountTotalImages(fs[1..])
  }

  /** A non-empty pruned structure holds at least one image. */
  lemma {:induction false} PrunedHasImage(fs: seq<Folder>)
    requires Pruned(fs) && fs != []
    ensures CountTotalImages(fs) >= 1
  {
    if fs[0].files == [] {
      PrunedHasImage(fs[0].subs);
    }
  }

  /** collect_files(folder): the loop over the listing in natural-sort order. */
  function CollectFiles(listing: seq<Entry>): (r: seq<Folder>)
    ensures forall f :: f in r ==> exists e :: e in listing && e.Dir? && e.name == f.name
    decreases listing, 1
  {
    var items := SortByName(listing);
    SameMembers(items, listing);
    CollectSorted(items, listing)
  }

  lemma SameMembers(items: seq<Entry>, listing: seq<Entry>)
    requires multiset(items) == multiset(listing)
    ensures forall e :: e in items <==> e in listing
  {
    forall e ensures e in items <==> e in listing {
      assert e in items <==> e in multiset(items);
    }
  }

  /** collect_files' loop over the sorted listing `items`: only the
      subdirectories that collect_files keeps become entries. */
  function CollectSorted(items: seq<Entry>, ghost listing: seq<Entry>): (r: seq<Folder>)
    requires forall e :: e in items ==> e in listing
    ensures forall f :: f in r ==> exists e :: e in items && e.Dir? && e.name == f.name
    decreases listing, 0, |items|
  {
    if items == [] then []
    else
      var rest := CollectSorted(items[1..], listing);
      assert items[0] in listing by { assert items[0] in items; }
      var here := if items[0].Dir? then CollectDir(items[0]) else None;
      if here.Some? then [here.value] + rest else rest
  }

  /** The body of collect_files' loop for one subdirectory d: its collected
      subfolders, its images in natural-sort order, and the entry for d when
      either is non-empty. */
  function CollectDir(d: Entry): (r: Option<Folder>)
    requires d.Dir?
    ensures r.Some? ==> r.value.name == d.name
    decreases d
  {
    var subfolders := CollectFiles(d.children);
    var files := ImageNames(SortByName(d.children));
    if subfolders != [] || files != [] then Some(Folder(d.name, files, subfolders)) else None
  }

  /** The images of a kept directory are exactly its image entries, in
      natural-sort order. */
  lemma CollectDirFiles(d: Entry)
    requires d.Dir? && CollectDir(d).Some?
    ensures multiset(CollectDir(d).value.files) == multiset(ImageNames(d.children))
    ensures SortedNames(CollectDir(d).value.files)
  {
    ImageNamesSort(d.children);
    ImageNamesSorted(SortByName(d.children));
  }

  /** count_total_images of the collected structure counts every image
      below the listing, and every entry, at every depth, holds an image or a
      subfolder. */
  lemma {:induction false} CollectFilesCounts(listing: seq<Entry>)
    ensures Pruned(CollectFiles(listing))
    ensures CountTotalImages(CollectFiles(listing)) == ImagesIn(listing)
    decreases listing, 1
  {
    var items := SortByName(listing);
    SameMembers(items, listing);
    ImageNamesSort(listing);
    CollectSortedCounts(items, listing);
  }

  lemma {:induction false} CollectSortedCounts(items: seq<Entry>, listing: seq<Entry>)
    requires forall e :: e in items ==> e in listing
    ensures Pruned(CollectSorted(items, listing))
    ensures CountTotalImages(CollectSorted(items, listing)) == ImagesIn(items)
    decreases listing, 0, |items|
  {
    if items != [] {
      var rest := CollectSorted(items[1..], listing);
      CollectSortedCounts(items[1..], listing);
      assert items[0] in listing by { assert items[0] in items; }
      if items[0].Dir? {
        CollectDirCounts(items[0]);
        var here := CollectDir(items[0]);
        if here.Some? {
          var r := [here.value] + rest;
          assert r[1..] == rest;
          assert CountTotalImages([here.value]) == |here.value.files| + CountTotalImages(here.value.subs) by {
            assert [here.value][1..] == [];
          }
        }
      }
    }
  }

  /** A subdirectory is kept exactly when some image lies below it. */
  lemma {:induction false} CollectDirCounts(d: Entry)
    requires d.Dir?
    ensures CollectDir(d).Some? <==> ImagesUnder(d) > 0
    ensures CollectDir(d).Some? ==> Pruned([CollectDir(d).value])
    ensures CollectDir(d).Some? ==> CountTotalImages([CollectDir(d).value]) == ImagesUnder(d)
    decreases d
  {
    var subfolders := CollectFiles(d.children);
    var files := ImageNames(SortByName(d.children));
    CollectFilesCounts(d.children);
    ImageNamesSort(d.children);
    assert |files| == |ImageNames(d.children)| by {
      assert |multiset(files)| == |multiset(ImageNames(d.children))|;
    }
    if subfolders != [] { PrunedHasImage(subfolders); }
    if subfolders != [] || files != [] {
      var f := Folder(d.name, files, subfolders);
      assert [f][1..] == [];
    }
  }

  /** The entries of the collected structure are in natural-sort order. */
  lemma CollectFilesSorted(listing: seq<Entry>)
    ensures SortedNames(FolderNames(CollectFiles(listing)))
  {
    var items := SortByName(listing);
    SameMembers(items, listing);
    CollectSortedSorted(items, listing);
  }

  lemma {:induction false} CollectSortedSorted(items: seq<Entry>, listing: seq<Entry>)
    requires forall e :: e in items ==> e in listing
    requires SortedNames(Names(items))
    ensures SortedNames(FolderNames(CollectSorted(items, listing)))
    decreases |items|
  {
    if items != [] {
      var rest := CollectSorted(items[1..], listing);
      assert SortedNames(Names(items[1..])) by {
        forall i | 0 <= i < |items| - 1 ensures Names(items[1..])[i] == Names(items)[i + 1] { }
      }
      CollectSortedSorted(items[1..], listing);
      var here := if items[0].Dir? then CollectDir(items[0]) else None;
      if here.Some? {
        SortedStep(items, here.value, rest);
      }
    }
  }

  lemma SortedStep(items: seq<Entry>, f: Folder, rest: seq<Folder>)
    requires items != [] && f.name == items[0].name
    requires SortedNames(Names(items)) && SortedNames(FolderNames(rest))
    requires forall g :: g in rest ==> exists e :: e in items[1..] && e.Dir? && e.name == g.name
    ensures SortedNames(FolderNames([f] + rest))
  {
    forall m | m in FolderNames(rest) ensures NameLe(f.name, m) {
      var j :| 0 <= j < |rest| && FolderNames(rest)[j] == m;
      assert rest[j] in rest;
      SortedStepAt(items, f, rest[j]);
    }
    SortedCons(f.name, FolderNames(rest));
    assert FolderNames([f] + rest) == [f.name] + FolderNames(rest);
  }

  lemma SortedStepAt(items: seq<Entry>, f: Folder, g: Folder)
    requires items != [] && f.name == items[0].name
    requires SortedNames(Names(items))
    requires exists e :: e in items[1..] && e.Dir? && e.name == g.name
    ensures NameLe(f.name, g.name)
  {
    var ns := Names(items);
    var e :| e in items[1..] && e.Dir? && e.name == g.name;
    var k :| 0 <= k < |items| - 1 && items[1..][k] == e;
    assert ns[0] == f.name && ns[k + 1] == g.name;
    SortedPair(ns, 0, k + 1);
  }

  lemma SortedPair(ns: seq<string>, i: nat, j: nat)
    requires SortedNames(ns) && i < j < |ns|
    ensures NameLe(ns[i], ns[j])
  {
  }

  /** Every entry of the result is what collect_files' loop body makes of
      one subdirectory of the listing. */
  lemma CollectFilesSound(listing: seq<Entry>)
    ensures forall f :: f in CollectFiles(listing) ==>
              exists d :: d in listing && d.Dir? && CollectDir(d) == Some(f)
  {
    var items := SortByName(listing);
    SameMembers(items, listing);
    CollectSortedSound(items, listing);
  }

  lemma {:induction false} CollectSortedSound(items: seq<Entry>, listing: seq<Entry>)
    requires forall e :: e in items ==> e in listing
    ensures forall f :: f in CollectSorted(items, listing) ==>
              exists d :: d in items && d.Dir? && CollectDir(d) == Some(f)
    decreases |items|
  {
    if items != [] {
      var rest := CollectSorted(items[1..], listing);
      CollectSortedSound(items[1..], listing);
      var here := if items[0].Dir? then CollectDir(items[0]) else None;
      var r := if here.Some? then [here.value] + rest else rest;
      forall f | f in r ensures exists d :: d in items && d.Dir? && CollectDir(d) == Some(f) {
        if here.Some? && f == here.value {
          assert items[0] in items;
        } else {
          assert f in rest;
          var d :| d in items[1..] && d.Dir? && CollectDir(d) == Some(f);
          assert d in items;
        }
      }
    }
  }

  /** What every entry of collect_files' result holds: it comes from a
      subdirectory of the listing with an image below it, carries that
      directory's name, its collected subfolders, and exactly its image
      entries in natural-sort order. An image-less directory has no entry. */
  lemma CollectFilesEntries(listing: seq<Entry>)
    ensures forall f :: f in CollectFiles(listing) ==>
              exists d :: && d in listing && d.Dir? && d.name == f.name && ImagesUnder(d) > 0
                          && f.subs == CollectFiles(d.children)
                          && multiset(f.files) == multiset(ImageNames(d.children))
                          && SortedNames(f.files)
  {
    CollectFilesSound(listing);
    forall f | f in CollectFiles(listing)
      ensures exists d :: && d in listing && d.Dir? && d.name == f.name && ImagesUnder(d) > 0
                          && f.subs == CollectFiles(d.children)
                          && multiset(f.files) == multiset(ImageNames(d.children))
                          && SortedNames(f.files)
    {
      var d :| d in listing && d.Dir? && CollectDir(d) == Some(f);
      CollectDirCounts(d);
      CollectDirFiles(d);
    }
  }

  /** Every subdirectory with an image below it has an entry. */
  lemma CollectFilesComplete(listing: seq<Entry>)
    ensures forall e :: e in listing && e.Dir? && ImagesUnder(e) > 0 ==>
              e.name in FolderNames(CollectFiles(listing))
  {
    var items := SortByName(listing);
    SameMembers(items, listing);
    CollectSortedComplete(items, listing);
  }

  lemma {:induction false} CollectSortedComplete(items: seq<Entry>, listing: seq<Entry>)
    requires forall e :: e in items ==> e in listing
    ensures forall e :: e in items && e.Dir? && ImagesUnder(e) > 0 ==>
              e.name in FolderNames(CollectSorted(items, listing))
    decreases |items|
  {
    if items != [] {
      var rest := CollectSorted(items[1..], listing);
      CollectSortedComplete(items[1..], listing);
      var here := if items[0].Dir? then CollectDir(items[0]) else None;
      if items[0].Dir? { CollectDirCounts(items[0]); }
      CompleteStep(items, here, rest);
    }
  }

  lemma CompleteStep(items: seq<Entry>, here: Option<Folder>, rest: seq<Folder>)
    requires items != []
    requires here.Some? <==> items[0].Dir? && ImagesUnder(items[0]) > 0
    requires here.Some? ==> here.value.name == items[0].name
    requires forall e :: e in items[1..] && e.Dir? && ImagesUnder(e) > 0 ==> e.name in FolderNames(rest)
    ensures var r := if here.Some? then [here.value] + rest else rest;
      forall e :: e in items && e.Dir? && ImagesUnder(e) > 0 ==> e.name in FolderNames(r)
  {
    CompleteStepBy((e: Entry) => e.Dir? && ImagesUnder(e) > 0, items, here, rest);
  }

  lemma CompleteStepBy(wanted: Entry -> bool, items: seq<Entry>, here: Option<Folder>, rest: seq<Folder>)
    requires items != []
    requires here.Some? <==> wanted(items[0])
    requires here.Some? ==> here.value.name == items[0].name
    requires forall e :: e in items[1..] && wanted(e) ==> e.name in FolderNames(rest)
    ensures var r := if here.Some? then [here.value] + rest else rest;
      forall e :: e in items && wanted(e) ==> e.name in FolderNames(r)
  {
    var r := if here.Some? then [here.value] + rest else rest;
    forall e | e in items && wanted(e) ensures e.name in FolderNames(r) {
      if e == items[0] {
        assert FolderNames(r)[0] == e.name;
      } else {
        assert e in items[1..] by { assert items == [items[0]] + items[1..]; }
        var j :| 0 <= j < |rest| && FolderNames(rest)[j] == e.name;
        if here.Some? { assert FolderNames(r)[j + 1] == e.name; }
      }
    }
  }

  /** "1.txt", "2.txt" and "10.txt" sort by the value of their numbers. */
  lemma NumberedNamesSortNumerically()
    ensures KeyLt(NaturalSortKey("1.txt"), NaturalSortKey("2.txt"))
    ensures KeyLt(NaturalSortKey("2.txt"), NaturalSortKey("10.txt"))
  {
    assert NoDigits("") && !IsDigit('.');
    assert Decimal(1) == "1" && Decimal(2) == "2" && Decimal(10) == "10";
    assert "" + Decimal(1) + ".txt" == "1.txt";
    assert "" + Decimal(2) + ".txt" == "2.txt";
    assert "" + Decimal(10) + ".txt" == "10.txt";
    NumbersCompareByValue("", 1, 2, ".txt");
    NumbersCompareByValue("", 2, 10, ".txt");
  }
}
