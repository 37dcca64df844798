# Burst-duplicate image classifier, in Dafny

This project models the core of a small tool that finds near-duplicate images
produced by continuous shooting ("burst" photography). It has two scripts, and
each applies its own comparison rule inside one directory.

- `src/cli.py`:
  - keeps the paths whose names end in `.png`, `.jpg` or `.jpeg`, in any case (`is_img`);
  - groups them into one `DirChunk` per directory, in order of first appearance (`split_imgs_per_dir`);
  - sorts each chunk's `FileResult`s by filename;
  - sets `is_similar_to_prev` on each file. The flag is true when the file's hash differs from its **immediate predecessor's** hash by at most `threshold`. The hash history starts empty in every chunk.
- `src/rmsimilar_nest.py`:
  - walks the class directories of an input directory;
  - drops listing entries whose names end in `txt`;
  - compares each image with an **anchor** image `img1`, which moves forward only while the flag `chtargetflg` is set;
  - writes `move "<img2>" "<dest>"` to a result file for every image whose difference from the anchor is at most 20. The destination is `img2` with every `field_additional` replaced by `field_additional_exclude`;
  - skips pairs that contain `.db`, and pairs whose hashing fails, without touching the flag.

Modules:

- `Options`: an option type.
- `Strings`: the Python string operations the scripts use (`startswith`, `endswith`, `in`, `str.replace`) and string ordering.
- `PosixPath`: `os.path.dirname`, `basename` and `join` for POSIX paths.
- `CliFilter`: `is_img` and its regular expression.
- `CliChunks`: `FileResult`, `DirChunk`, `split_imgs_per_dir` and the sort by filename.
- `CliClassify`: the classification loop of `cli.py`.
- `RmSimilarNest`: the main loop of `rmsimilar_nest.py`.

## How the model is built

- **Image hashing** is a parameter.
  - In `cli.py` it is a total function `hash: string -> H`.
  - In `rmsimilar_nest.py` it is `hasher: string -> Option<H>`, where `None` stands for an `OSError`, the only exception the script catches (`src/rmsimilar_nest.py:76`).
  - The subtraction of two image hashes is `diff: (H, H) -> nat`. Python's `abs` around it therefore changes nothing.
- **`FileResult` and `DirChunk`** are classes. The loops assign `is_similar_to_prev` and `fileresults` in place. `filename` and `dirname` are never reassigned, so they are `const` fields.
- **`split_imgs_per_dir`** updates a map from directory to chunk, plus a list of keys in insertion order. This is how Python's `dict` behaves. `SplitImgsPerDir` is proved against the pure functions `DistinctDirs` (directories in order of first appearance) and `FilesIn` (a directory's basenames in input order).
- **`list.sort` with a key** is Python's stable Timsort. It is modelled by value as a stable insertion sort, `SortedByFilename`. The proofs cover both ordering and permutation, and stability is proved too.
- **The classification loop** of `cli.py` is proved against `PredecessorFlags`, a left fold that carries the previous hash.
- **The anchor loop** of `rmsimilar_nest.py`:
  - It is proved against `Run`, which gives the loop state (`chtargetflg`, anchor index, indices written so far) after `n` iterations. An early `return` from `CompareWithAnchor` stands for the source's `continue`.
  - The result file is a `ResultFile` object whose `lines` sequence grows by `WriteLines`.
  - The input directory is a snapshot: a sequence of entries with a name, a directory flag and, for directories, the listing.

Behaviour of the code worth knowing, which the model keeps:

- `cli.py` compares each file with its immediate predecessor, not with the first file of a run (`src/cli.py:94-96`).
- `rmsimilar_nest.py` has no threshold option: 20 is hard-coded (`src/rmsimilar_nest.py:80`).
- In `rmsimilar_nest.py`, while `chtargetflg` is set, the next iteration takes `img1` from position `i` whatever happened to the skipped pair. A skipped pair (`.db` or an `OSError`) therefore still moves `img1` on. `SkipMovesAnchor` shows a concrete case: with `b` unreadable, `c` is compared with `b`, not with `a`, so it is not moved, even though `c` is similar to `a`.
- `cli.py` runs sequentially; there is no worker pool, only a TODO comment (`src/cli.py:87`). It reads `--dest` and `--dry` into variables (`src/cli.py:68`, `src/cli.py:70`) that are never used.
- `rmsimilar_nest.py` moves no file: it writes `move` commands to the result file and creates each destination directory (`src/rmsimilar_nest.py:86`).

## Model

| member | source | states |
|---|---|---|
| CliFilter.IsImgIffRegexMatches | src/cli.py:15 | `is_img` accepts a path exactly when some position splits it into at least one character, a dot and `png`/`jpg`/`jpeg` (any case), optionally followed by one final newline, as `re.match` with `$` and `IGNORECASE` does; both directions |
| CliFilter.AllImgs | src/cli.py:38 | the filtered list holds exactly the files that satisfy `is_img`, and is no longer than the input |
| PosixPath.JoinSplit | src/cli.py:46-47 | for a directory part and a basename without `/`, `dirname` and `basename` of their join give the two parts back |
| PosixPath.DirnameBasenameShape | src/cli.py:46-47 | `basename` never contains `/`, and `dirname` is a valid directory part (empty, all slashes, or without a trailing slash) |
| CliChunks.FileResult.constructor | src/cli.py:18-21 | a new file result has the given filename and `is_similar_to_prev` false |
| CliChunks.DirChunk.constructor | src/cli.py:24-27 | a new chunk has the given dirname and no file results |
| CliChunks.DirChunk.Append | src/cli.py:49 | appending adds the file result at the end and keeps the others |
| CliChunks.DirChunk.SortByFilename | src/cli.py:85 | the chunk's file results become their stable sort by filename |
| CliChunks.SortedIsOrdered | src/cli.py:85 | the sort by filename yields filenames in non-decreasing order |
| CliChunks.SortedPermutes | src/cli.py:85 | the sort is a permutation: the same file results and the same multiset of filenames |
| CliChunks.SortedIsStable | src/cli.py:85 | the sort is stable: file results with equal filenames keep their relative order |
| Strings.LessEqTotal | src/cli.py:85 | any two filenames are comparable under the ordering the sort uses |
| Strings.LessEqTransitive | src/cli.py:85 | that ordering is transitive |
| CliChunks.AddPath | src/cli.py:46-50 | one loop step adds the path's basename to the end of its directory's chunk, creating the chunk and recording the key on its first appearance; no other chunk changes |
| CliChunks.SplitImgsPerDir | src/cli.py:43-51 | one chunk per distinct directory, in order of first appearance; each chunk's filenames are exactly the basenames of the paths in that directory, in input order; every flag starts false; no file result is shared between chunks |
| CliChunks.PathInChunk | src/cli.py:46-49 | every input path's basename is in the chunk of its directory |
| CliChunks.FilesInNonEmpty | src/cli.py:48-49 | no chunk is empty |
| CliChunks.DistinctDirsCover | src/cli.py:44-51 | the chunk keys are exactly the set of directories of the input paths |
| CliChunks.ChunkCount | src/cli.py:44-51 | the number of chunks equals the number of distinct directories |
| CliChunks.ChunksCoverPaths | src/cli.py:44-51 | the chunk sizes add up to the number of input paths |
| CliChunks.FirstAppearanceOrder | src/cli.py:51 | for chunks `i < j`, some path of chunk `i`'s directory comes before every path of chunk `j`'s directory in the input |
| CliChunks.FilesInAppend | src/cli.py:45-50 | grouping a concatenation gives each directory's files of the first part followed by those of the second |
| CliClassify.PredecessorFlagsAt | src/cli.py:93-96 | flag `k` is true exactly when there is a previous hash (the one of file `k-1`, or the carried one for `k = 0`) and its difference from hash `k` is at most the threshold |
| CliClassify.ChunkFlagsAt | src/cli.py:83-99 | in a chunk, the first file is never similar, and file `k > 0` is similar exactly when its hash is within the threshold of file `k-1`'s; only the chunk's own files and the threshold matter |
| CliClassify.NegativeThresholdMarksNothing | src/cli.py:94-95 | with a negative threshold no file is marked similar |
| CliClassify.ClassifyFiles | src/cli.py:90-98 | the inner loop sets every file's flag to the predecessor fold from the carried hash and returns the last file's hash (or the carried one for an empty chunk) |
| CliClassify.SortChunk | src/cli.py:85 | sorting one chunk replaces its list by the sorted list and leaves the other chunks' lists as they were |
| CliClassify.SortAndClassify | src/cli.py:85-98 | one outer iteration sorts chunk `i` and classifies it from an empty history, leaving earlier chunks' flags intact |
| CliClassify.ClassifyChunks | src/cli.py:83-99 | every chunk ends sorted by filename (same dirname, same file results) and each file's flag is the chunk's predecessor flag, with the history reset between chunks |
| CliClassify.SplitAndClassify | src/cli.py:77-99 | grouping then classifying: chunks in first-appearance order, each a sorted permutation of its directory's basenames, each flag given by `ChunkFlags` |
| RmSimilarNest.ImageListMembers | src/rmsimilar_nest.py:55-56 | an entry survives the filter exactly when it is listed and does not end with `txt` |
| RmSimilarNest.ImageListAppend | src/rmsimilar_nest.py:56 | the filter works entry by entry, so survivors keep their listing order |
| RmSimilarNest.DestinationUnchanged | src/rmsimilar_nest.py:82-83 | a path without `field_additional` is its own destination |
| RmSimilarNest.DestinationRoundTrip | src/rmsimilar_nest.py:82-83 | replacing `field_additional_exclude` back by `field_additional` in the destination gives `img2` again, so the replacement loses nothing |
| Strings.ReplaceRoundTrip | src/rmsimilar_nest.py:82-83 | `str.replace` (left to right, non-overlapping) by a pattern extended with a suffix is undone by the reverse replacement |
| RmSimilarNest.MoveLineParses | src/rmsimilar_nest.py:94 | a `move "<img2>" "<dest>"` line with a final newline can be parsed back into the two paths when neither contains a quote |
| RmSimilarNest.MoveLineOfPathParses | src/rmsimilar_nest.py:82-94 | the line written for a quote-free `img2` parses back to `img2` and its destination |
| RmSimilarNest.Run | src/rmsimilar_nest.py:59-97 | after `n` iterations the anchor index is at most `n`, every written index lies in `1..n`, and if image `n` was just written the flag is clear |
| RmSimilarNest.AnchorRule | src/rmsimilar_nest.py:66-97 | one iteration: `img1` is image `i` when the flag is set, else the kept anchor; a skipped pair keeps flag and output; a pair within 20 writes `i+1` and clears the flag; any other pair sets the flag |
| RmSimilarNest.RunShape | src/rmsimilar_nest.py:63-69 | image 0 is never written, each index is written at most once and in increasing order, and the current anchor has never been written |
| RmSimilarNest.MovedIff | src/rmsimilar_nest.py:80-94 | image `k` is written exactly when `1 <= k` and the pair (anchor at iteration `k-1`, image `k`) is not skipped and is within 20 |
| RmSimilarNest.DecidedOnce | src/rmsimilar_nest.py:63-69 | whether image `a` is written is settled once iteration `a` is done; later iterations do not change it |
| RmSimilarNest.MovedHasKeptAnchor | src/rmsimilar_nest.py:66-95 | every written image is within 20 of some earlier image that is not written |
| RmSimilarNest.NoDrift | src/rmsimilar_nest.py:66-67 | across a run of written images the anchor stays the same image |
| RmSimilarNest.SkipMovesAnchor | src/rmsimilar_nest.py:66-78 | concrete case: with `b` unreadable in `a, b, c`, nothing is written although `a` and `c` are similar, because the anchor moved to `b` |
| RmSimilarNest.ClassDirLines | src/rmsimilar_nest.py:57-63 | a directory with fewer than two images gives no lines, and at most one line per iteration |
| RmSimilarNest.MoveLinesSound | src/rmsimilar_nest.py:80-94 | every written line moves some image `k` that is within 20 of an earlier, unwritten image |
| RmSimilarNest.MoveLinesComplete | src/rmsimilar_nest.py:80-94 | every image the loop marks gets its `move` line with its destination |
| RmSimilarNest.ResultFile.constructor | src/rmsimilar_nest.py:61 | the result file opened for appending holds the lines it already had |
| RmSimilarNest.ResultFile.WriteLines | src/rmsimilar_nest.py:94 | writing adds exactly one line at the end |
| RmSimilarNest.CompareWithAnchor | src/rmsimilar_nest.py:66-97 | one loop body takes the flag, `img1` and the output from their values after `i` iterations of `Run` to their values after `i+1` |
| RmSimilarNest.ProcessClassDir | src/rmsimilar_nest.py:55-97 | one class directory appends exactly `ClassDirLines` to the result file, with flag and anchor freshly initialised |
| RmSimilarNest.ProcessEntry | src/rmsimilar_nest.py:51-53 | an entry that is not a directory appends nothing; a directory appends its own lines |
| RmSimilarNest.ProcessInputDir | src/rmsimilar_nest.py:49-97 | the whole run appends, in listing order, the lines of every class directory |
| RmSimilarNest.InputDirAppend | src/rmsimilar_nest.py:49-61 | directories are independent: the output for a concatenated listing is the output of each part in turn |

## Left out

- Image hashing (`imagehash.dhash` over `Image.open`, and the unused `ave_hash` and `p_hash`) is a foreign library on image bytes. It is the parameter `hash`/`hasher`, with `diff` for the subtraction.
- CliClassify.ClassifyChunks: does not model the program stopping when `cli.py`'s `dhash` raises (`src/cli.py:93`, outside any `try`). The model's `hash` is total, so every chunk is classified.
- Directory enumeration (`glob.glob` with `os.path.isfile`, `os.listdir`, `os.path.isdir`) is replaced by input sequences: the list of paths for `cli.py`, and the entries with their listings for `rmsimilar_nest.py`. `list_all_imgs` is modelled as its `is_img` filter (`AllImgs`).
- `os.makedirs` for the result file's directory and for each destination directory is not modelled. The directories it creates are outside the model's state.
- RmSimilarNest.ProcessInputDir: does not model the run stopping at `os.makedirs(outputdir)` (`src/rmsimilar_nest.py:47`). That call is outside any `try`, so it raises and ends the script before any directory is processed, e.g. `FileNotFoundError` when the result file path has no directory part (`outputdir` is empty). The model always runs to completion.
- RmSimilarNest.ProcessClassDir: does not model the run stopping at `os.makedirs(destdir)` (`src/rmsimilar_nest.py:86`). An error there, e.g. an unwritable destination, ends the script in the middle of a class directory, before that image's `move` line. The model always completes the directory.
- RmSimilarNest.ProcessClassDir: does not model the run stopping on a hashing exception other than `OSError`. Only `OSError` is caught (`src/rmsimilar_nest.py:76`), so e.g. Pillow's `DecompressionBombError`, which derives from `Exception`, ends the script. The model's `hasher` reports every failure as `None`, which the model skips.
- The result file is opened in append mode once per class directory and never closed. The model appends to a single `ResultFile` sequence; buffering and closing are not modelled.
- Argument handling (`argparse`, `sys.argv`, the commented-out `validation` call, `os.getcwd` joins) is not modelled. The threshold of `cli.py` is a parameter.
- Progress and diagnostics (`Halo`, `tqdm`, `pprint`, `print(e)`, `time.sleep`) are UI and timing only.
- Parallel execution is not modelled: the code has none.
- Paths are POSIX only. The Windows rules of `os.path` (`ntpath`) are not modelled.
- Characters are compared as code points. Case folding in `is_img` covers only the ASCII letters of the extensions, which is all the pattern needs. File names from `glob` or `os.listdir` that carry undecodable bytes become lone surrogates in Python. Those sort by code point there, but Dafny's `char` cannot hold them, so such names are outside the model.
- `CliChunks.DirChunk.SortByFilename` is stated against a stable insertion sort rather than Timsort. The result is the same, because a stable sort by a key is unique.
