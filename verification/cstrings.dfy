/** Fixed-size, NUL-terminated character arrays, as far as the copy of a
    directory entry's name into `Entry.name` needs them. A `char` here is a C
    `char`, one byte: lengths count bytes, and no encoding is modelled. */
module CStrings {

  /** NAME_MAX from Linux's <limits.h>: the longest file name readdir returns. */
  const NAME_MAX: nat := 255

  const NUL: char := '\0'

  /** A C string's contents: no NUL inside. */
  predicate NoNul(s: string) {
    forall i :: 0 <= i < |s| ==> s[i] != NUL
  }

  /** A name readdir can return: at most NAME_MAX characters, no NUL. */
  predicate ValidName(name: string) {
    |name| <= NAME_MAX && NoNul(name)
  }

  /** The array holds a terminator somewhere, so reading it as a string stays inside it. */
  predicate Terminated(buf: seq<char>) {
    exists i :: 0 <= i < |buf| && buf[i] == NUL
  }

  /** `strncpy(buf, src, n)` into an array of `n` characters: the first `n`
      characters of `src`, padded with NULs when `src` is shorter. */
  function StrNCpy(src: string, n: nat): (buf: seq<char>)
    requires NoNul(src)
    ensures |buf| == n
    ensures forall i :: 0 <= i < n ==> buf[i] == (if i < |src| then src[i] else NUL)
  {
    if |src| >= n then src[..n] else src + seq(n - |src|, _ => NUL)
  }

  /** The string a C reader sees in `buf`: the longest prefix free of NULs. */
  function CStr(buf: seq<char>): (s: string)
    ensures |s| <= |buf| && s == buf[..|s|]
    ensures NoNul(s)
    ensures |s| < |buf| ==> buf[|s|] == NUL
  {
    if |buf| == 0 || buf[0] == NUL then [] else [buf[0]] + CStr(buf[1..])
  }

  /** A terminator right after a NUL-free prefix fixes what `CStr` reads. */
  lemma CStrAtTerminator(buf: seq<char>, k: nat)
    requires k < |buf| && buf[k] == NUL && NoNul(buf[..k])
    ensures CStr(buf) == buf[..k]
  {
    assert forall j :: 0 <= j < k ==> buf[..k][j] == buf[j];
    assert forall j :: 0 <= j < k ==> buf[j] != NUL;
  }

  /** The copy fm.c:74 makes: `strncpy` of the name into `char name[NAME_MAX]`
      (fm.h:12). The name's bytes are kept as far as the array reaches. */
  function NameFieldAsWritten(name: string): (buf: seq<char>)
    requires NoNul(name)
    ensures |buf| == NAME_MAX
    ensures forall i :: 0 <= i < |name| && i < NAME_MAX ==> buf[i] == name[i]
  {
    StrNCpy(name, NAME_MAX)
  }

  /** As written, the copy is terminated exactly when the name is shorter
      than the array. */
  lemma AsWrittenTerminatedIff(name: string)
    requires NoNul(name)
    ensures Terminated(NameFieldAsWritten(name)) <==> |name| < NAME_MAX
  {
    var buf := NameFieldAsWritten(name);
    if |name| < NAME_MAX {
      assert buf[|name|] == NUL;
    }
  }

  /** A name of exactly NAME_MAX characters fills the whole array and leaves
      it without a terminator, so reading `Entry.name` runs past its end. */
  lemma LongestNameUnterminated()
    ensures var name := seq(NAME_MAX, _ => 'a');
            ValidName(name) && !Terminated(NameFieldAsWritten(name))
  {
    var name := seq(NAME_MAX, _ => 'a');
    var buf := NameFieldAsWritten(name);
    forall i | 0 <= i < |buf| ensures buf[i] != NUL {
      assert buf[i] == name[i];
    }
  }

  /** As written, every name shorter than NAME_MAX is copied faithfully: the
      defect is confined to names of the maximal length. */
  lemma AsWrittenShortNameRoundTrip(name: string)
    requires ValidName(name) && |name| < NAME_MAX
    ensures CStr(NameFieldAsWritten(name)) == name
  {
    var buf := NameFieldAsWritten(name);
    assert buf[..|name|] == name;
    CStrAtTerminator(buf, |name|);
  }

  /** The copy with room for the terminator: an array of NAME_MAX + 1
      characters; the name's bytes are kept as far as the array reaches. */
  function NameField(name: string): (buf: seq<char>)
    requires NoNul(name)
    ensures |buf| == NAME_MAX + 1
    ensures forall i :: 0 <= i < |name| && i <= NAME_MAX ==> buf[i] == name[i]
  {
    StrNCpy(name, NAME_MAX + 1)
  }

  /** With the room for the terminator, the copy is terminated exactly when
      the name has at most NAME_MAX bytes. */
  lemma NameFieldTerminatedIff(name: string)
    requires NoNul(name)
    ensures Terminated(NameField(name)) <==> |name| <= NAME_MAX
  {
    var buf := NameField(name);
    if |name| <= NAME_MAX {
      assert buf[|name|] == NUL;
    }
  }

  /** With the terminator's room, every name readdir can return is stored
      terminated and reads back unchanged. */
  lemma NameFieldRoundTrip(name: string)
    requires ValidName(name)
    ensures Terminated(NameField(name))
    ensures CStr(NameField(name)) == name
  {
    var buf := NameField(name);
    assert buf[..|name|] == name;
    assert buf[|name|] == NUL;
    CStrAtTerminator(buf, |name|);
  }
}
