/** One directory listing: the entries `read_dir` builds from a single
    enumeration of a directory's children (fm.c:32-87). The enumeration and
    `stat` are inputs: the children as readdir yields them, in order, and a
    partial oracle that answers `stat` for a path. */
module Listing {
  import opened Wrappers
  import opened FileType
  import CStrings

  /** One `struct dirent` as readdir yields it: the name and the type code. */
  datatype Child = Child(name: string, dtype: byte)

  /** The fields fm.c reads from `struct stat`. */
  datatype StatInfo = StatInfo(size: nat, mode: nat)

  /** fm.h's `Entry`, with the `abspath` and `mode` fields fm.c writes; `kind` is
      the label fm.c stores in the field it calls `type`. */
  datatype Entry = Entry(name: string, abspath: string, kind: string, size: nat, mode: nat)

  /** A child fm.c can list: a name readdir can return and a type code
      `filetype_repr` knows. */
  predicate WellFormed(c: Child) {
    CStrings.ValidName(c.name) && IsKnownCode(c.dtype)
  }

  predicate AllWellFormed(cs: seq<Child>) {
    forall i :: 0 <= i < |cs| ==> WellFormed(cs[i])
  }

  /** `dir + "/" + name`: the directory, a separator, then the name, and
      nothing else; both parts can be cut back out. */
  function JoinPath(dir: string, name: string): (p: string)
    ensures |p| == |dir| + 1 + |name|
    ensures p[..|dir|] == dir && p[|dir|] == '/' && p[|dir| + 1..] == name
  {
    dir + "/" + name
  }

  /** The body of the loop in `read_dir` for one child: the entry it stores.
      A failed `stat` leaves the zero-initialised buffer, so the entry still
      appears, with size and mode 0. */
  function BuildEntry(dir: string, c: Child, stat: string -> Option<StatInfo>): (e: Entry)
    requires WellFormed(c)
    ensures e.name == c.name
    ensures e.abspath == JoinPath(dir, c.name)
    ensures e.kind == Repr(c.dtype)
    ensures stat(e.abspath).None? ==> e.size == 0 && e.mode == 0
    ensures stat(e.abspath).Some? ==> e.size == stat(e.abspath).value.size && e.mode == stat(e.abspath).value.mode
  {
    var abspath := JoinPath(dir, c.name);
    var st := stat(abspath).GetOr(StatInfo(0, 0));
    CStrings.NameFieldRoundTrip(c.name);
    Entry(CStrings.CStr(CStrings.NameField(c.name)), abspath, Repr(c.dtype), st.size, st.mode)
  }

  /** The listing of `dir`: the entries built so far, then the next child's,
      exactly as the loop appends them. */
  function DirEntries(dir: string, cs: seq<Child>, stat: string -> Option<StatInfo>): (es: seq<Entry>)
    requires AllWellFormed(cs)
    ensures |es| == |cs|
    ensures forall i :: 0 <= i < |cs| ==> es[i] == BuildEntry(dir, cs[i], stat)
    decreases |cs|
  {
    if cs == [] then []
    else DirEntries(dir, cs[..|cs| - 1], stat) + [BuildEntry(dir, cs[|cs| - 1], stat)]
  }

  /** `dir_get_filecount`: one pass over the enumeration, counting. */
  method FileCount(cs: seq<Child>) returns (n: nat)
    ensures n == |cs|
  {
    n := 0;
    var rest := cs;
    while rest != []
      invariant n + |rest| == |cs|
    {
      n := n + 1;
      rest := rest[1..];
    }
  }

  /** `read_dir`: count the children in one scan (`counted`), rewind, then
      build one entry per child of a second scan (`listed`), in order, into
      an array of `filecount` entries. Both scans see the same children
      unless the directory changes in between. A second scan that is longer
      writes past the array (fm.c:76) and one that is shorter trips the
      assert at fm.c:80; either way there is no listing, `None`. */
  method ReadDir(dir: string, counted: seq<Child>, listed: seq<Child>, stat: string -> Option<StatInfo>)
    returns (r: Option<seq<Entry>>)
    requires AllWellFormed(listed)
    ensures r.Some? <==> |listed| == |counted|
    ensures r.Some? ==> r.value == DirEntries(dir, listed, stat)
  {
    var filecount := FileCount(counted);
    var entries := [];
    var i := 0;
    while i < |listed|
      invariant i <= |listed| && i <= filecount
      invariant entries == DirEntries(dir, listed[..i], stat)
    {
      if i == filecount {
        // the write `entries[i++]` would fall outside the array
        return None;
      }
      assert listed[..i + 1][..i] == listed[..i];
      entries := entries + [BuildEntry(dir, listed[i], stat)];
      i := i + 1;
    }
    assert listed[..i] == listed;
    if i != filecount {
      return None;
    }
    r := Some(entries);
  }

  /** The child an entry was built from: its name and the code its label names. */
  function ChildOf(e: Entry): (c: Child)
    requires LabelCode(e.kind).Some?
    ensures c.name == e.name && IsKnownCode(c.dtype) && Repr(c.dtype) == e.kind
  {
    LabelCodeSound(e.kind);
    Child(e.name, LabelCode(e.kind).value)
  }

  predicate AllLabelled(es: seq<Entry>) {
    forall i :: 0 <= i < |es| ==> LabelCode(es[i].kind).Some?
  }

  /** The enumeration a listing was read from, recovered entry by entry. */
  function Children(es: seq<Entry>): (cs: seq<Child>)
    requires AllLabelled(es)
    ensures |cs| == |es|
    decreases |es|
  {
    if es == [] then []
    else Children(es[..|es| - 1]) + [ChildOf(es[|es| - 1])]
  }

  lemma {:induction false} ChildrenAt(es: seq<Entry>, i: nat)
    requires AllLabelled(es) && i < |es|
    ensures Children(es)[i] == ChildOf(es[i])
    decreases |es|
  {
    var init := es[..|es| - 1];
    if i < |es| - 1 {
      ChildrenAt(init, i);
    }
  }

  /** `read_dir` neither filters nor reorders nor invents: reading the
      children back off the listing gives the enumeration itself, `.` and
      `..` included. */
  lemma {:induction false} ListingRoundTrip(dir: string, cs: seq<Child>, stat: string -> Option<StatInfo>)
    requires AllWellFormed(cs)
    ensures AllLabelled(DirEntries(dir, cs, stat))
    ensures Children(DirEntries(dir, cs, stat)) == cs
  {
    var es := DirEntries(dir, cs, stat);
    forall i | 0 <= i < |cs| ensures Children(es)[i] == cs[i] {
      ChildrenAt(es, i);
      ReprInjective(ChildOf(es[i]).dtype, cs[i].dtype);
    }
  }

  /** A child whose `stat` fails is still listed, at its own position, with
      size and mode 0. */
  lemma StatFailureKeepsEntry(dir: string, cs: seq<Child>, stat: string -> Option<StatInfo>, i: nat)
    requires AllWellFormed(cs) && i < |cs|
    requires stat(JoinPath(dir, cs[i].name)).None?
    ensures var e := DirEntries(dir, cs, stat)[i];
            e.name == cs[i].name && e.size == 0 && e.mode == 0
  {
  }
}
