/**
  The C string primitives the engine is built on. A text field is a char
  buffer whose content is everything before its first NUL; comparisons
  (`strcmp`, `strcasecmp`, `strncmp`) only ever look at that content.
  One Dafny `char` stands for one C byte.
 */
module CString {
  import opened Collections

  /** The content of a NUL-terminated buffer: everything before the first NUL. */
  function CStr(s: string): (r: string)
    ensures |r| <= |s| && r == s[..|r|]
    ensures '\0' !in r
    ensures |r| < |s| ==> s[|r|] == '\0'
    decreases |s|
  {
    if |s| == 0 || s[0] == '\0' then [] else [s[0]] + CStr(s[1..])
  }

  /** A NUL-free string is its own content. */
  lemma {:induction false} CStrOfNulFree(s: string)
    requires '\0' !in s
    ensures CStr(s) == s
    decreases |s|
  {
    if |s| > 0 {
      assert s[0] in s;
      CStrOfNulFree(s[1..]);
    }
  }

  /** `s` fits a NUL-terminated buffer of `size` bytes: it holds no NUL and leaves room for the terminator. */
  predicate Fits(s: string, size: nat) {
    '\0' !in s && |s| < size
  }

  /**
    safe_strcpy(dest, src, size): copy the content of `src`, cut to
    `size - 1` bytes, and terminate; a NULL `src` (here `None`) leaves the
    empty string.
   */
  function SafeCopy(src: Option<string>, size: nat): (r: string)
    requires size > 0
    ensures src.None? ==> r == []
    ensures src.Some? ==> |r| == Min(|CStr(src.value)|, size - 1)
    ensures src.Some? ==> r == CStr(src.value)[..|r|]
  {
    match src
    case None => []
    case Some(s) =>
      var c := CStr(s);
      if |c| < size then c else c[..size - 1]
  }

  /** What safe_strcpy stores always fits its buffer and reads back unchanged. */
  lemma SafeCopyFits(src: Option<string>, size: nat)
    requires size > 0
    ensures Fits(SafeCopy(src, size), size)
    ensures CStr(SafeCopy(src, size)) == SafeCopy(src, size)
  {
    var r := SafeCopy(src, size);
    if src.Some? {
      assert forall c :: c in r ==> c in CStr(src.value);
    }
    CStrOfNulFree(r);
  }

  /** A string that already fits is copied unchanged. */
  lemma SafeCopyOfFitting(s: string, size: nat)
    requires size > 0 && Fits(s, size)
    ensures SafeCopy(Some(s), size) == s
  {
    CStrOfNulFree(s);
  }

  /** Copying twice into buffers of the same size is copying once. */
  lemma SafeCopyIdempotent(src: Option<string>, size: nat)
    requires size > 0
    ensures SafeCopy(Some(SafeCopy(src, size)), size) == SafeCopy(src, size)
  {
    SafeCopyFits(src, size);
    SafeCopyOfFitting(SafeCopy(src, size), size);
  }

  /**
    What a bounded copy of `src` into a `size`-byte buffer holds, described
    without the copy: nothing for NULL, otherwise a prefix of the source's
    content, all of it when it fits and its first `size - 1` characters
    when it does not.
   */
  predicate CopiedInto(dst: string, src: Option<string>, size: nat) {
    match src
    case None => dst == []
    case Some(s) => dst <= CStr(s) && (if |CStr(s)| < size then |dst| == |CStr(s)| else |dst| + 1 == size)
  }

  /** safe_strcpy stores what CopiedInto describes, and that description admits nothing else. */
  lemma SafeCopyIsCopiedInto(dst: string, src: Option<string>, size: nat)
    requires size > 0
    ensures CopiedInto(dst, src, size) <==> dst == SafeCopy(src, size)
  {
    if src.Some? && CopiedInto(dst, src, size) {
      var r := SafeCopy(src, size);
      assert |dst| == |r|;
      assert dst == CStr(src.value)[..|dst|];
    }
  }

  /** `strcmp(a, b) == 0`. */
  predicate StrEq(a: string, b: string) {
    CStr(a) == CStr(b)
  }

  /** `tolower` in the C locale: only 'A'..'Z' change. */
  function Lower(c: char): char {
    if 'A' <= c <= 'Z' then (c as int + 32) as char else c
  }

  function LowerAll(s: string): (r: string)
    ensures |r| == |s|
    ensures forall i :: 0 <= i < |s| ==> r[i] == Lower(s[i])
  {
    seq(|s|, i requires 0 <= i < |s| => Lower(s[i]))
  }

  /** `strcasecmp(a, b) == 0`: equal contents once ASCII letters are folded to lower case. */
  predicate StrCaseEq(a: string, b: string) {
    LowerAll(CStr(a)) == LowerAll(CStr(b))
  }

  /** `strncmp(s, p, |p|) == 0` for a NUL-free `p`: the content of `s` starts with `p`. */
  predicate HasPrefix(s: string, p: string) {
    |p| <= |CStr(s)| && CStr(s)[..|p|] == p
  }

  /**
    `strchr(s, ' ') + 1`: the content of `s` after its first space,
    `None` when there is none (strchr's NULL).
   */
  function AfterFirstSpace(s: string): (r: Option<string>)
    ensures r.None? <==> ' ' !in CStr(s)
    ensures r.Some? ==> exists i :: 0 <= i < |CStr(s)| && CStr(s)[i] == ' ' && ' ' !in CStr(s)[..i] && r.value == CStr(s)[i + 1..]
  {
    var c := CStr(s);
    match FindFirst(c, (ch: char) => ch == ' ')
    case None => None
    case Some(i) =>
      assert ' ' !in c[..i] by {
        forall j | 0 <= j < i ensures c[..i][j] != ' ' {
          assert c[j] != ' ';
        }
      }
      Some(c[i + 1..])
  }
}
