/** Strings laid out one after another, each with its NUL, and taking them apart again. */
module Parts {
  import opened Names
  import opened Wrappers

  // Each string followed by a NUL.
  function Flat(ss: seq<seq<wchar>>): seq<wchar> {
    if ss == [] then [] else ss[0] + [0] + Flat(ss[1..])
  }

  // lstrlenW, and where a scan for NUL stops at the end of the buffer.
  function Strlen(s: seq<wchar>): (n: nat)
    ensures n <= |s| && (n < |s| ==> s[n] == 0) && 0 !in s[..n]
  {
    if s == [] || s[0] == 0 then 0
    else
      var n := 1 + Strlen(s[1..]);
      assert s[..n] == [s[0]] + s[1..][..n - 1];
      n
  }

  // Up to n strings from the front of s; an unterminated tail is not one.
  function Take(s: seq<wchar>, n: nat): (ss: seq<WString>)
    ensures |ss| <= n
  {
    var k := Strlen(s);
    if n == 0 || k == |s| then [] else [s[..k]] + Take(s[k + 1..], n - 1)
  }

  lemma {:induction false} StrlenOfFirst(a: WString, rest: seq<wchar>)
    ensures Strlen(a + [0] + rest) == |a|
  {
    var s := a + [0] + rest;
    if a != [] {
      assert a[0] in a;
      assert s[1..] == a[1..] + [0] + rest;
      StrlenOfFirst(a[1..], rest);
    }
  }

  lemma TakeOne(a: WString, rest: seq<wchar>, n: nat)
    requires n > 0
    ensures Take(a + [0] + rest, n) == [a] + Take(rest, n - 1)
  {
    hide Strlen;
    var s := a + [0] + rest;
    StrlenOfFirst(a, rest);
    assert s[..|a|] == a && s[|a| + 1..] == rest;
  }

  lemma TakeNone(n: nat)
    ensures Take([], n) == []
  {
  }

  // Taking undoes laying out.
  lemma {:induction false} TakeFlat(ss: seq<WString>, n: nat)
    ensures Take(Flat(ss), n) == if |ss| <= n then ss else ss[..n]
  {
    hide Take;
    if n == 0 {
    } else if ss == [] {
      TakeNone(n);
    } else {
      var rest := ss[1..];
      TakeOne(ss[0], Flat(rest), n);
      TakeFlat(rest, n - 1);
      assert ss == [ss[0]] + rest;
      assert |ss| > n ==> ss[..n] == [ss[0]] + rest[..n - 1];
    }
  }

  // What is not terminated is no part.
  lemma {:induction false} TakeUnterminated(ss: seq<WString>, tail: WString, n: nat)
    ensures Take(Flat(ss) + tail, n) == Take(Flat(ss), n)
  {
    hide Take, Strlen;
    if ss == [] {
      assert Flat(ss) + tail == tail;
      TakeNoNul(tail, n);
      TakeNone(n);
    } else if n > 0 {
      var rest := ss[1..];
      assert Flat(ss) + tail == ss[0] + [0] + (Flat(rest) + tail);
      TakeOne(ss[0], Flat(rest) + tail, n);
      TakeOne(ss[0], Flat(rest), n);
      TakeUnterminated(rest, tail, n - 1);
    } else {
      TakeZero(Flat(ss) + tail);
      TakeZero(Flat(ss));
    }
  }

  lemma TakeNoNul(tail: WString, n: nat)
    ensures Take(tail, n) == []
  {
  }

  lemma TakeZero(s: seq<wchar>)
    ensures Take(s, 0) == []
  {
  }

  lemma {:induction false} FlatAppend(ss: seq<seq<wchar>>, a: seq<wchar>)
    ensures Flat(ss + [a]) == Flat(ss) + a + [0]
  {
    if ss != [] {
      assert (ss + [a])[1..] == ss[1..] + [a];
      FlatAppend(ss[1..], a);
    } else {
      assert ss + [a] == [a];
    }
  }
}
