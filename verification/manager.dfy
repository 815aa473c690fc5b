/** The browser state of fm.c: a cursor, the working directory and its
    listing, and the transitions `fm_init`, `update_cwd`, `fm_cd`,
    `fm_go_back`, `fm_go_up`, `fm_go_down` and `fm_get_current`. The
    filesystem is an input: three oracles standing for realpath, the
    opendir/readdir enumeration and stat. */
module Manager {
  import opened Wrappers
  import opened FileType
  import opened Listing

  /** PATH_MAX from Linux's <limits.h>. */
  const PATH_MAX: nat := 4096

  /** The size of the buffer `update_cwd` formats `cwd/arg` into. */
  const TARGET_BUF: nat := PATH_MAX + CStrings.NAME_MAX

  /** fm.h's `FileManager`; `dir` is the `Directory`, whose `size` is `|dir|`. */
  datatype FileManager = FileManager(cursor: nat, cwd: string, dir: seq<Entry>)

  /** What the code asks of the operating system. */
  datatype FileSystem = FileSystem(
    canonicalize: string -> Option<string>,    // realpath
    enumerate: string -> Option<seq<Child>>,   // opendir, then readdir until NULL
    stat: string -> Option<StatInfo>)          // stat

  /** The cursor is an index of the listing. readdir always yields `.` and
      `..`, so a listing is never empty. */
  predicate Valid(fm: FileManager) {
    0 < |fm.dir| && fm.cursor < |fm.dir|
  }

  /** Every entry's absolute path is the working directory joined with its name. */
  predicate Coherent(fm: FileManager) {
    forall i :: 0 <= i < |fm.dir| ==> fm.dir[i].abspath == JoinPath(fm.cwd, fm.dir[i].name)
  }

  function Min(a: int, b: int): int {
    if a <= b then a else b
  }

  function Max(a: int, b: int): int {
    if a <= b then b else a
  }

  /** `read_dir` can run on `path`: opendir succeeds (the assert at fm.c:45),
      the enumeration is non-empty, and every child has a known type code. */
  predicate Loadable(fs: FileSystem, path: string) {
    && fs.enumerate(path).Some?
    && |fs.enumerate(path).value| > 0
    && AllWellFormed(fs.enumerate(path).value)
  }

  /** The listing `read_dir` builds for `path`. */
  function Load(fs: FileSystem, path: string): (es: seq<Entry>)
    requires Loadable(fs, path)
    ensures 0 < |es| == |fs.enumerate(path).value|
    ensures forall i :: 0 <= i < |es| ==> es[i] == BuildEntry(path, fs.enumerate(path).value[i], fs.stat)
    ensures forall i :: 0 <= i < |es| ==> es[i].abspath == JoinPath(path, es[i].name)
  {
    DirEntries(path, fs.enumerate(path).value, fs.stat)
  }

  /** `fm_init`: realpath of the start directory must succeed (otherwise the
      program exits), then its listing is read with the cursor on row 0. */
  function Init(fs: FileSystem, start: string): (fm: FileManager)
    requires fs.canonicalize(start).Some?
    requires Loadable(fs, fs.canonicalize(start).value)
    ensures fm.cwd == fs.canonicalize(start).value
    ensures fm.dir == Load(fs, fm.cwd)
    ensures fm.cursor == 0 && Valid(fm) && Coherent(fm)
  {
    var cwd := fs.canonicalize(start).value;
    FileManager(0, cwd, Load(fs, cwd))
  }

  /** The cursor `update_cwd` keeps after a reload of `size` entries. */
  function Reclamp(cursor: nat, size: nat): (c: nat)
    requires 0 < size
    ensures c < size
    ensures c == Min(cursor, size - 1)
  {
    if cursor >= size then size - 1 else cursor
  }

  /** `update_cwd` can change to `arg`: `cwd/arg` fits the format buffer
      untruncated, realpath of it succeeds (the assert at fm.c:126), and the
      result can be listed. */
  predicate CanChangeTo(fm: FileManager, fs: FileSystem, arg: string) {
    var target := JoinPath(fm.cwd, arg);
    && |target| < TARGET_BUF
    && fs.canonicalize(target).Some?
    && Loadable(fs, fs.canonicalize(target).value)
  }

  /** `update_cwd`: the new working directory is the canonical form of
      `cwd/arg`, its listing replaces the old one wholesale, and the cursor
      keeps its index when that index still exists, else moves to the last
      row. */
  function UpdateCwd(fm: FileManager, fs: FileSystem, arg: string): (r: FileManager)
    requires CanChangeTo(fm, fs, arg)
    ensures r.cwd == fs.canonicalize(JoinPath(fm.cwd, arg)).value
    ensures r.dir == Load(fs, r.cwd)
    ensures fm.cursor < |r.dir| ==> r.cursor == fm.cursor
    ensures fm.cursor >= |r.dir| ==> r.cursor == |r.dir| - 1
    ensures Valid(r) && Coherent(r)
  {
    var cwd := fs.canonicalize(JoinPath(fm.cwd, arg)).value;
    var dir := Load(fs, cwd);
    FileManager(Reclamp(fm.cursor, |dir|), cwd, dir)
  }

  /** `fm_get_current`: the entry under the cursor. */
  function Current(fm: FileManager): (e: Entry)
    requires Valid(fm)
    ensures e == fm.dir[fm.cursor]
    ensures e in fm.dir
    ensures Coherent(fm) ==> e.abspath == JoinPath(fm.cwd, e.name)
  {
    fm.dir[fm.cursor]
  }

  /** The test in `fm_cd`: the entry's label equals `filetype_repr(DT_DIR)`. */
  predicate IsDirEntry(e: Entry) {
    e.kind == Repr(DT_DIR)
  }

  /** `FileType.IsDirLabelIff` read from the label's side: the label test
      succeeds exactly when the label names the code DT_DIR. */
  lemma IsDirEntryIff(e: Entry)
    ensures IsDirEntry(e) <==> LabelCode(e.kind) == Some(DT_DIR)
  {
    if LabelCode(e.kind) == Some(DT_DIR) {
      LabelCodeSound(e.kind);
    }
  }

  /** `fm_cd`: nothing happens unless the entry under the cursor is labelled
      as a directory; otherwise `update_cwd` with that entry's name. */
  function Cd(fm: FileManager, fs: FileSystem): (r: FileManager)
    requires Valid(fm)
    requires IsDirEntry(Current(fm)) ==> CanChangeTo(fm, fs, Current(fm).name)
    ensures !IsDirEntry(Current(fm)) ==> r == fm
    ensures IsDirEntry(Current(fm)) ==> r == UpdateCwd(fm, fs, Current(fm).name)
    ensures Valid(r)
    ensures Coherent(fm) ==> Coherent(r)
  {
    var e := Current(fm);
    if !IsDirEntry(e) then fm else UpdateCwd(fm, fs, e.name)
  }

  /** `fm_go_back`: `update_cwd` with `..`. */
  function GoBack(fm: FileManager, fs: FileSystem): (r: FileManager)
    requires CanChangeTo(fm, fs, "..")
    ensures r.cwd == fs.canonicalize(JoinPath(fm.cwd, "..")).value
    ensures r.dir == Load(fs, r.cwd)
    ensures r.cursor == Min(fm.cursor, |r.dir| - 1)
    ensures Valid(r) && Coherent(r)
  {
    UpdateCwd(fm, fs, "..")
  }

  /** `fm_go_up`: one row up, stopping at row 0; nothing but the cursor changes. */
  function GoUp(fm: FileManager): (r: FileManager)
    ensures r.cwd == fm.cwd && r.dir == fm.dir
    ensures fm.cursor == 0 ==> r == fm
    ensures fm.cursor > 0 ==> r.cursor == fm.cursor - 1
    ensures Valid(fm) ==> Valid(r)
  {
    if fm.cursor != 0 then fm.(cursor := fm.cursor - 1) else fm
  }

  /** `fm_go_down`: one row down, stopping at the last row; nothing but the
      cursor changes. */
  function GoDown(fm: FileManager): (r: FileManager)
    requires Valid(fm)
    ensures r.cwd == fm.cwd && r.dir == fm.dir
    ensures fm.cursor == |fm.dir| - 1 ==> r == fm
    ensures fm.cursor < |fm.dir| - 1 ==> r.cursor == fm.cursor + 1
    ensures Valid(r)
  {
    if fm.cursor != |fm.dir| - 1 then fm.(cursor := fm.cursor + 1) else fm
  }

  /** Away from the edges, moving down then up, or up then down, returns to
      the same state. */
  lemma UpDownInverse(fm: FileManager)
    requires Valid(fm)
    ensures fm.cursor < |fm.dir| - 1 ==> GoUp(GoDown(fm)) == fm
    ensures fm.cursor > 0 ==> GoDown(GoUp(fm)) == fm
  {
  }

  /** `n` presses of the down key. */
  function DownTimes(fm: FileManager, n: nat): (r: FileManager)
    requires Valid(fm)
    ensures Valid(r)
    decreases n
  {
    if n == 0 then fm else DownTimes(GoDown(fm), n - 1)
  }

  /** `n` presses of the up key. */
  function UpTimes(fm: FileManager, n: nat): (r: FileManager)
    decreases n
  {
    if n == 0 then fm else UpTimes(GoUp(fm), n - 1)
  }

  /** Moving down saturates at the last row and never wraps to the top. */
  lemma {:induction false} DownTimesClamps(fm: FileManager, n: nat)
    requires Valid(fm)
    ensures DownTimes(fm, n).cursor == Min(fm.cursor + n, |fm.dir| - 1)
    ensures DownTimes(fm, n).cwd == fm.cwd && DownTimes(fm, n).dir == fm.dir
    decreases n
  {
    if n > 0 {
      DownTimesClamps(GoDown(fm), n - 1);
    }
  }

  /** Moving up saturates at row 0 and never wraps to the bottom. */
  lemma {:induction false} UpTimesClamps(fm: FileManager, n: nat)
    ensures UpTimes(fm, n).cursor == Max(fm.cursor - n, 0)
    ensures UpTimes(fm, n).cwd == fm.cwd && UpTimes(fm, n).dir == fm.dir
    decreases n
  {
    if n > 0 {
      UpTimesClamps(GoUp(fm), n - 1);
    }
  }

  /** On a listing freshly read from the enumeration, `fm_cd`'s label test
      is the same as asking whether the child's type code is DT_DIR. */
  lemma {:induction false} CdFollowsTypeCode(fm: FileManager, fs: FileSystem)
    requires Valid(fm) && Loadable(fs, fm.cwd) && fm.dir == Load(fs, fm.cwd)
    requires var c := fs.enumerate(fm.cwd).value[fm.cursor];
             c.dtype == DT_DIR ==> CanChangeTo(fm, fs, c.name)
    ensures var c := fs.enumerate(fm.cwd).value[fm.cursor];
            Cd(fm, fs) == if c.dtype == DT_DIR then UpdateCwd(fm, fs, c.name) else fm
  {
    var c := fs.enumerate(fm.cwd).value[fm.cursor];
    assert Current(fm) == BuildEntry(fm.cwd, c, fs.stat);
    IsDirLabelIff(c.dtype);
  }

  /** Entering a directory moves to the canonical form of the entry's own
      absolute path. */
  lemma CdEntersEntryPath(fm: FileManager, fs: FileSystem)
    requires Valid(fm) && Coherent(fm) && IsDirEntry(Current(fm))
    requires CanChangeTo(fm, fs, Current(fm).name)
    ensures Cd(fm, fs).cwd == fs.canonicalize(Current(fm).abspath).value
  {
  }

  /** The key commands the browser dispatches to the transitions above. */
  datatype Command = Up | Down | Enter | Back

  /** One command, dispatched as the key loop does: `k` moves up, `j` moves
      down, Enter runs `fm_cd` and `-` runs `fm_go_back`. `None` stands for a
      change of directory the model does not follow. That is one whose
      realpath or opendir fails, or whose new directory has a child with an
      unknown type code (fm.c:28), each of which trips an assert in fm.c. It
      is also one whose `cwd/arg` is too long for the format buffer, which
      fm.c truncates and which is not modelled. */
  function Step(fm: FileManager, fs: FileSystem, cmd: Command): (r: Option<FileManager>)
    requires Valid(fm)
    ensures r.Some? ==> Valid(r.value)
    ensures r.Some? && Coherent(fm) ==> Coherent(r.value)
    ensures r.None? <==> (|| (cmd == Enter && IsDirEntry(Current(fm)) && !CanChangeTo(fm, fs, Current(fm).name))
                         || (cmd == Back && !CanChangeTo(fm, fs, "..")))
    ensures cmd == Up ==> r == Some(GoUp(fm))
    ensures cmd == Down ==> r == Some(GoDown(fm))
    ensures r.Some? && cmd == Enter ==> r.value == Cd(fm, fs)
    ensures r.Some? && cmd == Back ==> r.value == GoBack(fm, fs)
  {
    match cmd
    case Up => Some(GoUp(fm))
    case Down => Some(GoDown(fm))
    case Enter =>
      if IsDirEntry(Current(fm)) && !CanChangeTo(fm, fs, Current(fm).name) then None
      else Some(Cd(fm, fs))
    case Back =>
      if CanChangeTo(fm, fs, "..") then Some(GoBack(fm, fs)) else None
  }

  /** A sequence of commands from a valid state: whatever state it reaches
      has its cursor on a row of the listing, and keeps every absolute path
      consistent with the working directory. */
  function Run(fm: FileManager, fs: FileSystem, cmds: seq<Command>): (r: Option<FileManager>)
    requires Valid(fm)
    ensures r.Some? ==> Valid(r.value)
    ensures r.Some? && Coherent(fm) ==> Coherent(r.value)
    decreases |cmds|
  {
    if cmds == [] then Some(fm)
    else
      match Step(fm, fs, cmds[0])
      case None => None
      case Some(next) => Run(next, fs, cmds[1..])
  }
}
