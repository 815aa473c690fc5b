# fm — a model of the directory browser core

`fm` is a small terminal file manager. Its core (fm.c) keeps one piece of
state: a cursor, the current working directory and a listing of that
directory. It offers five transitions: initialise, move up, move down, enter
the directory under the cursor, and go to the parent. This project models that
core as immutable Dafny datatypes and pure functions, and proves what the code
promises about listings, paths and the cursor.

The model does not touch the filesystem. It is passed in as a `FileSystem`
value made of three oracles:

- `canonicalize` stands for `realpath`.
- `enumerate` stands for `opendir` followed by `readdir` until it returns NULL. It yields the children in enumeration order, as `(name, d_type)` pairs.
- `stat` is a partial oracle that returns the size and mode, or `None` when the call fails.

Modules:

- `Wrappers`: `Option`.
- `FileType`: the `d_type` codes and `filetype_repr` (`Repr`), plus a reverse lookup `LabelCode` that `Repr` is proved to invert.
- `CStrings`: the fixed-size name array an entry's name is copied into. This module also holds the one finding below.
- `Listing`: `Entry`, `read_dir` (a loop method `ReadDir` and the reference definition `DirEntries`), and `dir_get_filecount`.
- `Manager`: `FileManager`, `fm_init`, `update_cwd`, `fm_cd`, `fm_go_back`, `fm_go_up`, `fm_go_down` and `fm_get_current`. It also defines a command-sequence runner that carries the state invariant across any number of transitions.

What fm.c does:

- A listing holds every child in enumeration order, `.` and `..` included. Nothing is sorted or filtered.
- The movement keys stop at the first and last rows.
- A failed `realpath` or `opendir` during navigation aborts through `assert`, and so does a child of the new directory with an unknown type code. In the model, these failures are preconditions of the transitions, and `Step` reports them as `None`, meaning "the program aborts". `Step` also reports `None` for a joined path too long for `update_cwd`'s buffer. fm.c does not abort there (see "## Left out").
- An unknown type code trips the assert in `filetype_repr`, so a known code is a precondition too.
- When `stat` fails, the entry keeps its type label from `d_type` and gets size 0 and mode 0.

Constants:

- The `DT_*` values are the ones glibc's `<dirent.h>` defines: 0, 1, 2, 4, 6, 8, 10, 12 and 14.
- `NAME_MAX` is 255 and `PATH_MAX` is 4096, as in Linux's `<limits.h>`.
- Dafny does not allow the field name `type`, so the entry's label lives in the field `kind`.

## Model

| member | source | states |
|---|---|---|
| FileType.Repr | fm.c:16-29 | each of the nine known `d_type` codes gets a label from which the code can be recovered, so the mapping is total on those codes and injective; any other code is excluded, because it trips the assert |
| FileType.LabelCodeSound | fm.c:16-29 | every label the reverse lookup accepts is the label of the code it returns, so codes and labels are in one-to-one correspondence |
| FileType.ReprInjective | fm.c:16-29 | two known codes have equal labels exactly when they are the same code |
| FileType.IsDirLabelIff | fm.c:143 | comparing a label with the label of DT_DIR succeeds exactly for the DT_DIR code |
| CStrings.StrNCpy | fm.c:74 | the copy fills exactly `n` characters: the source's characters, then NUL padding |
| CStrings.NameFieldAsWritten | fm.c:74 | the copy into fm.h's `NAME_MAX`-sized name array is exactly `NAME_MAX` bytes and keeps the name's bytes as far as the array reaches |
| CStrings.AsWrittenTerminatedIff | fm.c:74 | as written, the copy is terminated exactly when the name is shorter than `NAME_MAX` bytes |
| CStrings.LongestNameUnterminated | fm.c:74 | as written, a 255-byte name fills the `NAME_MAX`-sized array with no terminator |
| CStrings.AsWrittenShortNameRoundTrip | fm.c:74 | as written, every name shorter than `NAME_MAX` bytes reads back unchanged, so the defect affects only names of exactly `NAME_MAX` bytes |
| CStrings.NameField | fm.c:74 | the corrected copy is `NAME_MAX + 1` bytes and keeps the name's bytes as far as the array reaches |
| CStrings.NameFieldTerminatedIff | fm.c:74 | the corrected copy is terminated exactly when the name has at most `NAME_MAX` bytes, which every name readdir returns has |
| CStrings.NameFieldRoundTrip | fm.c:74 | with room for the terminator, every name readdir can return is stored terminated and reads back unchanged |
| Listing.JoinPath | fm.c:63-65 | the absolute path is the directory, then one `/`, then the name; both parts can be recovered from it |
| Listing.BuildEntry | fm.c:55-76 | an entry has the child's name, the path `dir/name` and the label of the child's code; it takes size and mode from `stat`, or 0 and 0 when `stat` fails |
| Listing.DirEntries | fm.c:53-78 | a listing has one entry per enumerated child, and entry `i` is built from child `i` |
| Listing.FileCount | fm.c:32-40 | the first pass counts exactly the children of the enumeration |
| Listing.ReadDir | fm.c:42-87 | the count pass and the build pass produce a listing exactly when they see the same number of children, and that listing is the reference listing of the second pass; a longer second pass would write past the array, a shorter one trips the final assert |
| Listing.ListingRoundTrip | fm.c:53-78 | reading the `(name, code)` pairs back off a listing gives back the enumeration itself, so nothing is filtered, reordered or added |
| Listing.StatFailureKeepsEntry | fm.c:67-71 | a child whose `stat` fails is still listed, at its own position, with size 0 and mode 0 |
| Manager.Load | fm.c:89-92 | a reload replaces the listing with exactly what `read_dir` builds for the directory. The listing is non-empty, has one entry per enumerated child, and entry `i` is built from child `i` (name, label, path, size and mode), so every path lies under the loaded directory |
| Manager.Init | fm.c:94-115 | the start state has the canonical start directory, its listing and the cursor on row 0; the cursor is valid and every path is under the working directory |
| Manager.Reclamp | fm.c:130-133 | the re-clamped cursor is the smaller of the old cursor and the new last index, so it is in range |
| Manager.UpdateCwd | fm.c:121-134 | the new working directory is the canonical form of `cwd/arg` and the listing is that directory's fresh listing; the cursor keeps its index if the index still exists, otherwise it moves to the new last row |
| Manager.Current | fm.c:164-166 | the current entry is the entry at the cursor index, and its path is the working directory joined with its name |
| Manager.IsDirEntryIff | fm.c:143 | the label comparison with `filetype_repr(DT_DIR)` succeeds exactly when the label names the code DT_DIR |
| Manager.Cd | fm.c:140-148 | if the entry under the cursor is not labelled `dir`, the whole state is unchanged; otherwise this is `update_cwd` with the entry's name; the cursor invariant holds afterwards |
| Manager.GoBack | fm.c:136-138 | the new working directory is the canonical form of `cwd/..`, with its fresh listing and the cursor clamped to it |
| Manager.GoUp | fm.c:150-153 | moves one row up, does nothing at row 0, and changes nothing but the cursor |
| Manager.GoDown | fm.c:155-158 | moves one row down, does nothing at the last row, and changes nothing but the cursor; the cursor stays in range |
| Manager.UpDownInverse | fm.c:150-158 | away from the edges, moving down then up, or up then down, restores the state |
| Manager.DownTimesClamps | fm.c:155-158 | `n` moves down put the cursor at the smaller of `cursor + n` and the last index, so it never wraps around |
| Manager.UpTimesClamps | fm.c:150-153 | `n` moves up put the cursor at the larger of `cursor - n` and 0, so it never wraps around |
| Manager.CdFollowsTypeCode | fm.c:140-148 | on a freshly read listing, entering happens exactly when the enumerated child's code is DT_DIR |
| Manager.CdEntersEntryPath | fm.c:140-148 | entering a directory moves to the canonical form of that entry's own absolute path |
| Manager.Step | main.c:63-86 | one dispatched command keeps the cursor valid and the paths consistent; `k` runs `fm_go_up`, `j` runs `fm_go_down`, Enter runs `fm_cd` and `-` runs `fm_go_back`; it gives no state exactly when entering a directory, or going to the parent, fails a precondition of `update_cwd` (realpath or opendir fails, a child of the new directory has an unknown type code (fm.c:28), or the joined path is too long for the buffer) |
| Manager.Run | main.c:53-89 | after any sequence of commands that does not abort, the cursor is a valid row of the listing and every path is consistent |

## Findings

| source | as written | input that shows it | evidently intended | confidence | as-written member | corrected member |
|---|---|---|---|---|---|---|
| fm.c:74 | the name is copied with `strncpy` bounded by `NAME_MAX` into an array of `NAME_MAX` characters (fm.h:12), which leaves no room for the terminator | a file name of exactly 255 bytes, which Linux allows | an array of `NAME_MAX + 1` characters, so that every name is stored terminated | medium, not executed; fm.h lacks fields that fm.c writes, so the array size fm.c is built against may differ | CStrings.NameFieldAsWritten, CStrings.AsWrittenTerminatedIff, CStrings.LongestNameUnterminated | CStrings.NameField, CStrings.NameFieldTerminatedIff, CStrings.NameFieldRoundTrip |

## Left out

- The terminal interface (main.c's rendering and key loop, next.h, lib/next.h, ext.c) is not modelled. `Step` and `Run` keep only the dispatch from the four navigation keys to the transitions.
- The real `opendir`/`readdir`/`stat`/`realpath` calls are not modelled; they are the oracle parameters of `FileSystem`.
- `malloc` and `free` are not modelled, and neither is the assert on `malloc`'s result (fm.c:49). A listing is an immutable sequence.
- `fm_destroy` only frees memory, so it is not modelled.
- `fm_select` (fm.c:160-162) is not modelled: its body does nothing but fetch the current entry, which `Current` already models.
- The `dtype` field of fm.h's `Entry` is not modelled, because fm.c never writes it.
- Aborts are preconditions rather than recovery paths: the `opendir` assert (fm.c:45), the `realpath` assert in `update_cwd` (fm.c:126), the `exit(1)` after `realpath` fails in `fm_init` (fm.c:102-111), and the `default` case of `filetype_repr` (fm.c:28).
- Manager.GoDown: requires the cursor invariant (non-empty listing, cursor in range). With an empty listing, the unsigned `size - 1` at fm.c:156 wraps around. Every listing holds `.` and `..`, so `Loadable` requires a non-empty enumeration instead of modelling the wrap.
- Manager.UpdateCwd: an empty listing would make `size - 1` at fm.c:133 wrap around. The model excludes it through `Loadable`.
- Manager.Step: returns `None` when the joined path does not fit `update_cwd`'s `PATH_MAX + NAME_MAX` buffer. fm.c does not abort there: `snprintf` truncates the path and `realpath` runs on the truncated path. Only a failing `realpath` (fm.c:126), a failing `opendir` (fm.c:45), or a child of the new directory with an unknown type code (fm.c:28) aborts. The model does not follow the truncated path.
- Manager.UpdateCwd: the joined path is required to fit the `PATH_MAX + NAME_MAX` buffer (fm.c:123-124). Truncation by `snprintf` is not modelled.
- Names and paths are modelled as C byte strings: one `char` of a Dafny string stands for one byte, with no character encoding. Every length bound (`NAME_MAX`, `PATH_MAX`) therefore counts bytes.
- Listing.BuildEntry: stores a name by copying it into the corrected `NAME_MAX + 1` array and reading it back. This is the one place the listing differs from fm.c as written, where a name of exactly `NAME_MAX` bytes is left unterminated (see Findings).
- Listing.ReadDir: when the second scan is longer than the first, fm.c writes past the `filecount`-sized array (fm.c:48, fm.c:76), which is undefined behaviour. The model stops at that write with `None` and does not model the memory it would corrupt.
- Manager.Load: reads one enumeration per directory, so it assumes the count scan and the build scan of `read_dir` see the same children. `Listing.ReadDir` shows what happens when they do not: a buffer overflow or a failed assert.
- Listing.JoinPath: the absolute path is modelled untruncated. fm.c bounds each `strncat` by the whole array length rather than the space left (fm.c:63-65), and the header declaring that array is not part of this model.
- Integer widths are not modelled: the cursor, size and mode are unbounded naturals. The cursor never leaves the listing's range, so `size_t` wrap-around cannot arise. A file size is never negative.
