/** Small shared vocabulary. A C `char` is modelled as a Dafny `char`; the
    terminating NUL of a C string is the character NUL. */
module Common {
  datatype Option<+T> = None | Some(value: T)

  const NUL: char := '\0'

  /** What C sees of a byte buffer read as a string: everything before the first NUL. */
  function CString(s: string): (r: string)
    ensures NUL !in r
    ensures NUL !in s ==> r == s
    ensures |r| <= |s| && r == s[..|r|]
    ensures |r| < |s| ==> s[|r|] == NUL
  {
    if s == "" || s[0] == NUL then ""
    else
      var t := CString(s[1..]);
      assert [s[0]] + t == s[..1 + |t|];
      [s[0]] + t
  }

  function Max(a: int, b: int): int {
    if a < b then b else a
  }

  function Min(a: int, b: int): int {
    if a < b then a else b
  }

  ghost predicate Distinct<T>(s: seq<T>) {
    forall i, j :: 0 <= i < j < |s| ==> s[i] != s[j]
  }

  lemma Assoc<T>(x: seq<T>, y: seq<T>, z: seq<T>)
    ensures (x + y) + z == x + (y + z)
  {
  }
}
