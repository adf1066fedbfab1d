/** The case-insensitive comparison of src/shared/minimal.h on NUL-terminated wide strings. */
module Names {
  // A wide string without its terminating NUL; a character is a 16-bit code unit.
  newtype wchar = c: int | 0 <= c < 0x1_0000

  type WString = s: seq<wchar> | 0 !in s

  // invariant_toupper.
  function Upper(c: wchar): wchar {
    if 0x61 <= c <= 0x7A then c - 0x20 else c
  }

  function Fold(s: seq<wchar>): (r: seq<wchar>)
    ensures |r| == |s| && forall i :: 0 <= i < |s| ==> r[i] == Upper(s[i])
  {
    seq(|s|, i requires 0 <= i < |s| => Upper(s[i]))
  }

  // The i-th character, the terminating NUL being at the end.
  function CharAt(s: WString, i: nat): wchar
    requires i <= |s|
  {
    if i < |s| then s[i] else 0
  }

  // invariant_wcsicmp: the difference at the first character that differs, or zero.
  method Compare(s: WString, t: WString) returns (v: int)
    ensures v == 0 <==> Fold(s) == Fold(t)
  {
    var i := 0;
    v := Upper(CharAt(s, 0)) as int - Upper(CharAt(t, 0)) as int;
    while v == 0 && CharAt(t, i) != 0
      invariant i <= |s| && i <= |t|
      invariant v == Upper(CharAt(s, i)) as int - Upper(CharAt(t, i)) as int
      invariant forall k :: 0 <= k < i ==> Upper(s[k]) == Upper(t[k])
      decreases |t| - i
    {
      assert CharAt(s, i) != 0;
      i := i + 1;
      v := Upper(CharAt(s, i)) as int - Upper(CharAt(t, i)) as int;
    }
    if v == 0 {
      assert i == |t| && i == |s|;
    } else if i < |s| && i < |t| {
      assert Fold(s)[i] != Fold(t)[i];
    }
  }

  // The same letter of the alphabet, in either case.
  ghost predicate SameLetter(c: wchar, d: wchar) {
    exists k: nat :: k < 26 && Letter(k, c) && Letter(k, d)
  }

  predicate Letter(k: nat, c: wchar) {
    c as nat == 'A' as nat + k || c as nat == 'a' as nat + k
  }

  lemma FoldsLetters(c: wchar, d: wchar)
    ensures Upper(c) == Upper(d) <==> c == d || SameLetter(c, d)
  {
    if 0x61 <= c <= 0x7A {
      assert Letter(c as nat - 0x61, c);
      assert Upper(c) == Upper(d) ==> Letter(c as nat - 0x61, d);
    } else if 0x61 <= d <= 0x7A {
      assert Letter(d as nat - 0x61, d);
      assert Upper(c) == Upper(d) ==> Letter(d as nat - 0x61, c);
    }
  }

  // Two strings fold to the same exactly if they differ in nothing but the case of ASCII letters.
  lemma FoldIsCase(s: seq<wchar>, t: seq<wchar>)
    ensures Fold(s) == Fold(t) <==>
      |s| == |t| && forall i :: 0 <= i < |s| ==> s[i] == t[i] || SameLetter(s[i], t[i])
  {
    hide Upper, SameLetter;
    if |s| == |t| {
      forall i | 0 <= i < |s| ensures Fold(s)[i] == Fold(t)[i] <==> s[i] == t[i] || SameLetter(s[i], t[i]) {
        FoldsLetters(s[i], t[i]);
      }
    }
  }
}
