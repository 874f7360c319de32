# Evidence document generator — model of the document assembly

`generate_evidence_doc.py` builds a Word document ("佐证材料.docx") from a folder
of evidence pictures:

- it walks the selected folder (`collect_files`), keeping every subfolder
  that holds an image (`.png`, `.jpg`, `.jpeg`, in any case) at some depth;
- it orders entries by a natural sort key (`natural_sort_key`), so "2" comes
  before "10";
- it writes one heading per kept folder, followed by one centred paragraph
  per image;
- a top-level folder named `<digits>.<rest>` is shown as a Chinese numeral,
  the enumeration comma 、 and the stripped rest (`to_chinese_num`,
  `convert_folder_name`); deeper headings keep the folder name;
- page breaks separate the deeper headings;
- a progress counter advances once per image that was embedded
  (`count_total_images`, `add_headings` in `create_document`).

This project models that core in Dafny and proves what it guarantees. It has
four modules:

- `NaturalKey` (natural_key.dfy) is the sort key and Python's list order on
  keys.
- `Labels` (labels.dfy) is the numeral, `str.strip`, the `(\d+)\.(.*)` match
  and the folder label.
- `Structure` (structure.dfy) models the directory tree and the collected
  structure:
  - a directory tree is a value: an entry is a file or a directory with its
    own listing;
  - the collected structure is a sequence of `Folder(name, files, subs)`;
  - it also holds `collect_files` and `count_total_images`.
- `Emission` (emission.dfy) is the document:
  - `Document` is a class whose block list, image counter and progress
    reports are updated in place by `AddHeadings`, the loop of
    `add_headings`;
  - `Emit` is the functional specification that loop is proved against;
  - an image is identified by its full path, the chain of names from the
    selected folder down to the file, as `collect_files` builds it with
    `pathlib`;
  - the layout lemmas (headings, page breaks, pictures) are stated about
    `Emit`.

The page-break rule follows the code, not its comment. The comment says a
break comes before every secondary heading except the first one under a
primary heading. The code tests `level > 1 and not is_first_secondary`, and
it passes `is_first_secondary=(level == 1)` to the recursive call. So:

- level-2 headings never get a break, not only the first one;
- every heading of level 3 or more gets one, including the first under its
  parent.

`EmitRules` and `DocumentLayout` state this rule as written.

## Model

| member | source | states |
|---|---|---|
| `NaturalKey.KeyWellFormed` | generate_evidence_doc.py:14-16 | every natural-sort key has the shape re.split with a capturing group gives: odd length, lower-cased digit-free text at even positions, integers at odd positions |
| `NaturalKey.KeyPartsAlign` | generate_evidence_doc.py:14-16 | at any position two keys share, both parts are text or both are numbers, so sorting never compares an int with a str |
| `NaturalKey.KeyIgnoresCase` | generate_evidence_doc.py:16 | a name and its lower-cased form have the same key (text runs are lower-cased) |
| `NaturalKey.KeyAppend` | generate_evidence_doc.py:16 | cutting a name where a digit run starts cuts its key: the key of t + w is the key of t followed by the key of w without its empty first text part |
| `NaturalKey.KeyIgnoresLeadingZero` | generate_evidence_doc.py:16 | a leading zero in any digit run of a name does not change the key (int() drops it): "a01" and "a1", and "x1y01" and "x1y1", get equal keys |
| `NaturalKey.NumbersCompareByValue` | generate_evidence_doc.py:14-16 | with the same text before a digit run (any text not ending in a digit) and the same tail after it, a smaller number sorts strictly first, whatever its digit count ("2" before "10", "a1b2" before "a1b10") |
| `NaturalKey.DecimalRoundTrip` | generate_evidence_doc.py:16 | int() of the decimal digits of n is n |
| `NaturalKey.KeyLeTotal` | generate_evidence_doc.py:44 | any two keys are comparable, so the sort in collect_files is well defined |
| `NaturalKey.KeyLeTransitive` | generate_evidence_doc.py:44 | the order on keys is transitive |
| `NaturalKey.KeyLtAsymmetric` | generate_evidence_doc.py:44 | no two keys are each smaller than the other |
| `Labels.ToChineseNum` | generate_evidence_doc.py:18-26 | the label ends in the single comma 、; it holds no ASCII digit exactly when the number is below 20; from 20 on the part before the comma is the decimal representation of the number, without leading zeros, whose value is the number |
| `Labels.ToChineseNumInjective` | generate_evidence_doc.py:18-26 | different numbers get different labels |
| `Labels.Strip` | generate_evidence_doc.py:33 | the result is a contiguous slice of the input, only whitespace lies around it, and it neither starts nor ends with whitespace |
| `Labels.StripIdempotent` | generate_evidence_doc.py:33 | stripping twice is stripping once |
| `Labels.MatchNumbered` | generate_evidence_doc.py:30-33 | the match succeeds exactly when the name starts with a digit run and a period; the number is the value of that whole run and the rest is the text after the period up to the first line break |
| `Labels.ConvertFolderName` | generate_evidence_doc.py:28-39 | at any level other than 1 the name is returned unchanged |
| `Labels.ConvertFolderNameCases` | generate_evidence_doc.py:28-39 | a name not of the form digits-period is returned unchanged; at level 1 a numbered name becomes the numeral of its digits and the stripped rest of its first line |
| `Labels.ConvertIdempotent` | generate_evidence_doc.py:28-39 | a level-1 label is never numbered itself, so converting it again changes nothing |
| `Labels.ConvertNumbered` | generate_evidence_doc.py:30-35 | "<digits>.<rest>" on one line becomes the numeral of the whole digit run followed by the stripped rest, whatever periods or digits the rest holds |
| `Labels.ConvertLeadingZero` | generate_evidence_doc.py:32-35 | "0<digits>.<rest>" and "<digits>.<rest>" get the same level-1 label |
| `Labels.ConvertFromTwenty` | generate_evidence_doc.py:25-26 | from twenty on the level-1 label is the decimal number, 、 and the stripped rest |
| `Structure.ImageNameByExtension` | generate_evidence_doc.py:51 | a name "<stem>.<ext>" with a non-empty stem is an image exactly when ext lower-cased is png, jpg or jpeg |
| `Structure.NoStemNoImage` | generate_evidence_doc.py:51 | a name without a dot after its first character, such as ".png", has no suffix and is not an image |
| `Structure.InsertByName` | generate_evidence_doc.py:44 | inserting an entry into a listing adds exactly that entry |
| `Structure.InsertSorted` | generate_evidence_doc.py:44 | inserting into a sorted listing keeps it sorted by key |
| `Structure.SortByName` | generate_evidence_doc.py:44 | the result is a permutation of the listing, ordered by natural-sort key |
| `Structure.ImageNamesComplete` | generate_evidence_doc.py:50-52 | every entry whose suffix is an image extension is kept |
| `Structure.ImageNamesFiltered` | generate_evidence_doc.py:50-52 | only names of the listing with an image suffix are kept |
| `Structure.ImageNamesSort` | generate_evidence_doc.py:50-52 | sorting the listing first keeps the same image names and the same image count below it |
| `Structure.ImageNamesSorted` | generate_evidence_doc.py:50-52 | filtering a sorted listing leaves the image names sorted |
| `Structure.CollectFiles` | generate_evidence_doc.py:41-56 | every collected folder is named after a subdirectory of the listing |
| `Structure.CollectDir` | generate_evidence_doc.py:45-55 | a kept directory's entry carries the directory's name |
| `Structure.CollectDirFiles` | generate_evidence_doc.py:49-52 | a kept directory's files are exactly its image entries, as a multiset, in natural-sort order |
| `Structure.CollectDirCounts` | generate_evidence_doc.py:45-55 | a subdirectory is kept exactly when some image lies below it, and its entry counts exactly those images |
| `Structure.CollectFilesCounts` | generate_evidence_doc.py:41-65 | every collected folder at every depth holds an image or a subfolder, and count_total_images of the result is the number of image entries in the tree |
| `Structure.CollectFilesSound` | generate_evidence_doc.py:44-55 | every entry of the result is exactly what the loop body makes of one subdirectory of the listing |
| `Structure.CollectFilesEntries` | generate_evidence_doc.py:41-56 | every entry comes from a subdirectory of the listing with an image below it (an image-less directory has no entry), carries its name and its collected subfolders, and its files are exactly the directory's image entries in natural-sort order |
| `Structure.CollectFilesSorted` | generate_evidence_doc.py:44-55 | the collected folders are in natural-sort order |
| `Structure.CollectFilesComplete` | generate_evidence_doc.py:44-55 | every subdirectory with an image below it has an entry in the result |
| `Structure.PrunedHasImage` | generate_evidence_doc.py:54-65 | a non-empty collected structure holds at least one image, so the progress division by total_images is never by zero |
| `Structure.NumberedNamesSortNumerically` | generate_evidence_doc.py:44 | "1.txt" sorts before "2.txt", and "2.txt" before "10.txt" |
| `Emission.Document.constructor` | generate_evidence_doc.py:103-104 | the document starts empty, the counter at 0 with no progress reported, and the total as given (CreateDocument passes count_total_images) |
| `Emission.Document.AddPageBreak` | generate_evidence_doc.py:114-115 | appends one page break and leaves the counter alone |
| `Emission.Document.AddHeading` | generate_evidence_doc.py:118-125 | appends the heading with its level, bold exactly at level 1 |
| `Emission.Document.AddImage` | generate_evidence_doc.py:131-139 | the centred paragraph is always added; the counter goes up by one and is reported only when add_picture succeeds; the counter stays within the total |
| `Emission.Document.AddImages` | generate_evidence_doc.py:128-139 | one picture paragraph per file in order; the counter grows by the number of pictures that loaded |
| `Emission.Document.AddFolder` | generate_evidence_doc.py:110-143 | one pass of the loop appends exactly the folder's part of the specification and counts its loaded images, subfolders included |
| `Emission.Document.AddHeadings` | generate_evidence_doc.py:107-143 | the blocks appended are the specification `Emit` of the structure; the counter grows by the images that loaded, never passes the total, and progress is reported 1, 2, 3, … once per embedded image |
| `Emission.CreateDocument` | generate_evidence_doc.py:103-145 | the document is `Emit` of the structure from level 1, inside the selected folder; the total is count_total_images; the final counter equals the embedded pictures and is at most the total; the reports count up from 1 |
| `Emission.EmitPictures` | generate_evidence_doc.py:107-143 | every image of the structure gets exactly one paragraph under its full path, in pre-order; the embedded ones are those add_picture accepted, so the final counter is the number of pictures in the document |
| `Emission.SameNameApart` | generate_evidence_doc.py:50-52 | two folders holding an image of the same name give paragraphs with different paths, so one image can be embedded while the other fails |
| `Emission.AllFilesCount` | generate_evidence_doc.py:58-65 | count_total_images is the number of images the emission walks over |
| `Emission.LoadedAtMostAll` | generate_evidence_doc.py:103-137 | the counter never passes total_images, and reaches it when every image loads |
| `Emission.EmitRules` | generate_evidence_doc.py:113-125 | for calls made with the flag the code passes, every page break is followed by a heading of level 3 or more, every such heading follows a break, and headings are bold exactly at level 1 |
| `Emission.DocumentLayout` | generate_evidence_doc.py:113-145 | in the whole document a heading is preceded by a page break exactly when its level is 3 or more, is bold exactly at level 1, and no picture paragraph directly follows a break |

## Left out

- The Tk window, the folder dialog, message boxes, the progress bar widget and the status label (`main`, lines 163-221) are user interface. `update_status` and the `print` calls are dropped. `update_progress` is recorded as the sequence of image counts it receives.
- The progress value is a float percentage, `current_image / total_images * 100`. The model keeps the integer count; the percentage is 100 times that count divided by `totalImages`.
- Fonts, sizes, alignment, margins and paragraph styles (lines 67-100, 120-125) are not modelled. A heading keeps its text, its level and its bold flag. A picture paragraph keeps the image's path, as a list of components, and whether the picture went in.
- Whether `run.add_picture` can read an image file is an input, the oracle `loads`, asked of the image's full path. The 6-inch width is not modelled.
- The collected structure keeps each image's entry name, as `pathlib` does in `Path.name`. The full path is rebuilt from the chain of folder names when the document is emitted. A path is a list of components, not a string joined with a separator.
- Saving the document, the writability check and the IOError branch (lines 147-161) are file I/O.
- The file system is an input tree. `iterdir` order is the order of a listing; symbolic links and read errors are not modelled.
- Only ASCII is covered by digit detection and lower-casing. Python's `\d`, `isdigit()` and `lower()` also act on other Unicode digits and letters. `str.strip` is modelled with Python's full whitespace set.
- `paragraph.style = f'Heading {level}'` fails in python-docx when the template has no style of that level. Deep structures therefore raise in the source; the model accepts any depth.
- `Structure.SortByName` states a permutation ordered by key but not stability. The insertion it uses keeps equal keys in listing order, as `sorted` does, but no lemma states that.
- The order between a text part and a number part in `NaturalKey.PartLt` is arbitrary. `NaturalKey.KeyPartsAlign` proves such a comparison never happens between two natural-sort keys.
- As in the source, a subdirectory whose name ends in `.png`, `.jpg` or `.jpeg` counts as an image of its parent. The suffix test looks only at names.
