/** The directory-entry type codes reported by readdir (`d_type`) and their
    textual labels, as produced by `filetype_repr` in fm.c. */
module FileType {
  import opened Wrappers

  /** An `unsigned char`, the C type of `d_type`. */
  newtype byte = x: int | 0 <= x < 256

  // The values glibc's <dirent.h> gives the DT_* constants.
  const DT_UNKNOWN: byte := 0
  const DT_FIFO: byte := 1
  const DT_CHR: byte := 2
  const DT_DIR: byte := 4
  const DT_BLK: byte := 6
  const DT_REG: byte := 8
  const DT_LNK: byte := 10
  const DT_SOCK: byte := 12
  const DT_WHT: byte := 14

  /** The nine codes `filetype_repr` has a case for; any other code trips its assert. */
  predicate IsKnownCode(code: byte) {
    || code == DT_UNKNOWN || code == DT_FIFO || code == DT_CHR
    || code == DT_DIR || code == DT_BLK || code == DT_REG
    || code == DT_LNK || code == DT_SOCK || code == DT_WHT
  }

  /** Reverse lookup from a label to the code it names; `None` for any string
      that is not one of the nine labels. */
  function LabelCode(text: string): (r: Option<byte>)
    ensures r.Some? ==> IsKnownCode(r.value)
  {
    if text == "unknown" then Some(DT_UNKNOWN)
    else if text == "fifo" then Some(DT_FIFO)
    else if text == "chr" then Some(DT_CHR)
    else if text == "dir" then Some(DT_DIR)
    else if text == "blk" then Some(DT_BLK)
    else if text == "reg" then Some(DT_REG)
    else if text == "lnk" then Some(DT_LNK)
    else if text == "sock" then Some(DT_SOCK)
    else if text == "wht" then Some(DT_WHT)
    else None
  }

  /** `filetype_repr`: the label of a known type code. The label determines
      the code again, so no two codes share a label. */
  function Repr(code: byte): (text: string)
    requires IsKnownCode(code)
    ensures LabelCode(text) == Some(code)
  {
    if code == DT_UNKNOWN then "unknown"
    else if code == DT_FIFO then "fifo"
    else if code == DT_CHR then "chr"
    else if code == DT_DIR then "dir"
    else if code == DT_BLK then "blk"
    else if code == DT_REG then "reg"
    else if code == DT_LNK then "lnk"
    else if code == DT_SOCK then "sock"
    else "wht"
  }

  /** Every label `LabelCode` accepts is the label `Repr` gives its code:
      together with the ensures of `Repr`, the two are mutually inverse
      between the nine codes and the nine labels. */
  lemma LabelCodeSound(text: string)
    requires LabelCode(text).Some?
    ensures Repr(LabelCode(text).value) == text
  {
  }

  /** Distinct known codes get distinct labels. */
  lemma ReprInjective(a: byte, b: byte)
    requires IsKnownCode(a) && IsKnownCode(b)
    ensures Repr(a) == Repr(b) <==> a == b
  {
    assert LabelCode(Repr(a)) == Some(a);
    assert LabelCode(Repr(b)) == Some(b);
  }

  /** The string comparison with `filetype_repr(DT_DIR)` in `fm_cd` holds
      exactly for entries whose code is DT_DIR. */
  lemma IsDirLabelIff(code: byte)
    requires IsKnownCode(code)
    ensures Repr(code) == Repr(DT_DIR) <==> code == DT_DIR
  {
    ReprInjective(code, DT_DIR);
  }
}
