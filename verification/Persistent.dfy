/**
 Persistent instances of src/launcher/launcher.c: the registry value that remembers an instance's
 arguments and security descriptor, and the loop that starts remembered instances again.
 */
module Persistent {
  import opened Names
  import opened Parts
  import opened Wrappers

  const VALUE_CHARS: nat := 1024 + 512   // RegValue
  const NAME_CHARS: nat := 4 + 260       // InstanceName, with its NUL
  const MAX_STRINGS: nat := 10 + 1       // Argv

  datatype Instance = Instance(name: WString, args: seq<WString>, security: WString)

  // A value as the registry enumerates it.
  datatype RegValue = RegValue(name: WString, isMultiString: bool, data: seq<wchar>)

  // The value that stands for an instance: a multi-string with the security descriptor as an
  // additional last string, ended by an empty one.
  function Stored(x: Instance): RegValue {
    RegValue(x.name, true, Flat(x.args + [x.security, []]))
  }

  function StoredAll(xs: seq<Instance>): (vs: seq<RegValue>)
    ensures |vs| == |xs| && forall i :: 0 <= i < |xs| ==> vs[i] == Stored(xs[i])
  {
    seq(|xs|, i requires 0 <= i < |xs| => Stored(xs[i]))
  }

  lemma {:induction false} FlatLength(ss: seq<WString>, n: nat)
    requires n < |ss|
    ensures |Flat(ss[..n + 1])| == |Flat(ss[..n])| + |ss[n]| + 1
  {
    assert ss[..n + 1] == ss[..n] + [ss[n]];
    FlatAppend(ss[..n], ss[n]);
  }

  // The buffer of SvcInstanceSetPersistent: sized by one loop, filled by another.
  method Save(args: seq<WString>, security: WString) returns (argBuf: array<wchar>)
    ensures fresh(argBuf) && argBuf[..] == Flat(args + [security, []])
  {
    hide Flat;
    var argSize: nat := 1;
    FlatNone();
    assert args[..0] == [];
    for i := 0 to |args|
      invariant argSize == 1 + |Flat(args[..i])|
    {
      FlatLength(args, i);
      argSize := argSize + |args[i]| + 1;
    }
    assert args[..|args|] == args;
    argSize := argSize + |security| + 1;
    argBuf := new wchar[argSize];
    var p: nat := 0;
    FlatNone();
    for i := 0 to |args|
      invariant argBuf.Length == argSize && p == |Flat(args[..i])|
      invariant p + |security| + 2 <= argSize && argSize == |Flat(args)| + |security| + 2
      invariant argBuf[..p] == Flat(args[..i])
    {
      FlatLength(args, i);
      FlatAppend(args[..i], args[i]);
      assert args[..i + 1] == args[..i] + [args[i]];
      FlatPrefix(args, i + 1);
      Put(argBuf, p, args[i]);
      p := p + |args[i]| + 1;
    }
    Put(argBuf, p, security);
    p := p + |security| + 1;
    argBuf[p] := 0;
    FlatAppend(args, security);
    FlatAppend(args + [security], []);
    assert args + [security] + [[]] == args + [security, []];
    assert argBuf[..] == argBuf[..p] + [0];
  }

  // memcpy of a string with its NUL.
  method Put(buffer: array<wchar>, p: nat, s: WString)
    requires p + |s| < buffer.Length
    modifies buffer
    ensures buffer[..p + |s| + 1] == old(buffer[..p]) + s + [0]
  {
    forall k | 0 <= k < |s| { buffer[p + k] := s[k]; }
    buffer[p + |s|] := 0;
  }

  lemma FlatNone()
    ensures Flat([]) == []
  {
  }

  lemma {:induction false} FlatPrefix(ss: seq<WString>, n: nat)
    requires n <= |ss|
    ensures |Flat(ss[..n])| <= |Flat(ss)|
    decreases |ss| - n
  {
    if n == |ss| {
      assert ss[..n] == ss;
    } else {
      FlatLength(ss, n);
      FlatPrefix(ss, n + 1);
    }
  }

  // The buffer RegValue and what lies behind it; a scan that leaves the buffer ends at some NUL.
  ghost predicate Buffer(memory: seq<wchar>) {
    VALUE_CHARS <= |memory| && 0 in memory[VALUE_CHARS..]
  }

  // The memory after a value is delivered to the buffer: the rest is what it was before.
  function Delivered(memory: seq<wchar>, data: seq<wchar>): (r: seq<wchar>)
    requires |data| <= VALUE_CHARS <= |memory|
    ensures |r| == |memory| && r[VALUE_CHARS..] == memory[VALUE_CHARS..]
  {
    data + memory[|data|..]
  }

  // Up to n strings, as long as they start before the value's end: each runs to its NUL, where it
  // may be.
  function Strings(memory: seq<wchar>, size: nat, n: nat): (ss: seq<WString>)
    ensures |ss| <= n
    decreases n
  {
    if n == 0 || size == 0 then []
    else
      var k := Strlen(memory);
      [memory[..k]] + if k < |memory| && k + 1 <= size then Strings(memory[k + 1..], size - (k + 1), n - 1) else []
  }

  // What a value is understood to be: the last two strings are the security descriptor and the
  // empty string, the ones before them the arguments, of which there must be some.
  function Understood(name: WString, ss: seq<WString>): Option<Instance> {
    if 2 < |ss| then Some(Instance(name, ss[..|ss| - 2], ss[|ss| - 2])) else None
  }

  // RegEnumValueW delivers it to the buffers, and it is of the right type.
  predicate Readable(v: RegValue) {
    |v.name| + 1 <= NAME_CHARS && |v.data| <= VALUE_CHARS && v.isMultiString
  }

  // The instances started from a key's values: the enumeration ends at the first unreadable one.
  function Started(vs: seq<RegValue>, memory: seq<wchar>): seq<Instance>
    requires VALUE_CHARS <= |memory|
  {
    if vs == [] || !Readable(vs[0]) then []
    else
      var m := Delivered(memory, vs[0].data);
      var x := Understood(vs[0].name, Strings(m, |vs[0].data|, MAX_STRINGS));
      (if x.Some? then [x.value] else []) + Started(vs[1..], m)
  }

  // The strings from a position on.
  function From(memory: seq<wchar>, p: nat, size: nat, n: nat): seq<WString> {
    if p <= size <= |memory| then Strings(memory[p..], size - p, n) else []
  }

  lemma FromStart(memory: seq<wchar>, size: nat, n: nat)
    requires size <= |memory|
    ensures From(memory, 0, size, n) == Strings(memory, size, n)
  {
    assert memory[0..] == memory;
  }

  lemma StringsStep(memory: seq<wchar>, size: nat, n: nat)
    requires 0 < size <= |memory| && n > 0
    ensures var k := Strlen(memory);
      Strings(memory, size, n) == [memory[..k]] + if k + 1 <= size then Strings(memory[k + 1..], size - (k + 1), n - 1) else []
  {
    hide Strlen;
  }

  lemma FromStep(memory: seq<wchar>, p: nat, size: nat, n: nat)
    requires p < size <= |memory| && n > 0
    ensures var k := Strlen(memory[p..]);
      From(memory, p, size, n) == [memory[p..][..k]] + From(memory, p + k + 1, size, n - 1)
  {
    hide Strlen, Strings;
    var k := Strlen(memory[p..]);
    StringsStep(memory[p..], size - p, n);
    if p + k + 1 <= size { assert memory[p..][k + 1..] == memory[p + k + 1..]; }
  }

  lemma FromEnd(memory: seq<wchar>, p: nat, size: nat, n: nat)
    requires p >= size || n == 0
    ensures From(memory, p, size, n) == []
  {
  }

  lemma {:induction false} StrlenWithin(s: seq<wchar>, i: nat)
    requires i < |s| && s[i] == 0
    ensures Strlen(s) <= i
  {
    if i > 0 && s[0] != 0 { StrlenWithin(s[1..], i - 1); }
  }

  // lstrlenW from a place in the buffer.
  method ScanForNul(memory: seq<wchar>, p: nat) returns (n: nat)
    requires Buffer(memory) && p < VALUE_CHARS
    ensures n == Strlen(memory[p..]) && p + n < |memory|
  {
    ghost var i :| VALUE_CHARS <= i < |memory| && memory[i] == 0 by {
      var k :| 0 <= k < |memory[VALUE_CHARS..]| && memory[VALUE_CHARS..][k] == 0;
      assert memory[VALUE_CHARS + k] == 0;
    }
    assert memory[p..][i - p] == 0;
    StrlenWithin(memory[p..], i - p);
    n := 0;
    while memory[p + n] != 0
      invariant p + n <= i && Strlen(memory[p..]) == n + Strlen(memory[p + n..])
      decreases i - n
    {
      assert memory[p + n..][1..] == memory[p + n + 1..];
      n := n + 1;
    }
  }

  // The string-splitting loop of SvcInstanceStartAllPersistent, and its use of the result.
  method Read(name: WString, memory: seq<wchar>, size: nat) returns (x: Option<Instance>)
    requires Buffer(memory) && size <= VALUE_CHARS
    ensures x == Understood(name, Strings(memory, size, MAX_STRINGS))
  {
    hide Strlen, Strings, From, Buffer;
    BufferHolds(memory);
    var argv: seq<WString> := [];
    var p: nat := 0;
    FromStart(memory, size, MAX_STRINGS);
    while MAX_STRINGS > |argv| && p < size
      invariant |argv| <= MAX_STRINGS
      invariant Strings(memory, size, MAX_STRINGS) == argv + From(memory, p, size, MAX_STRINGS - |argv|)
      decreases MAX_STRINGS - |argv|
    {
      var n := ScanForNul(memory, p);
      FromStep(memory, p, size, MAX_STRINGS - |argv|);
      argv := argv + [memory[p..][..n]];
      p := p + n + 1;
    }
    FromEnd(memory, p, size, MAX_STRINGS - |argv|);
    assert argv + [] == argv;
    x := if 2 < |argv| then Some(Instance(name, argv[..|argv| - 2], argv[|argv| - 2])) else None;
  }

  lemma BufferHolds(memory: seq<wchar>)
    requires Buffer(memory)
    ensures VALUE_CHARS <= |memory|
  {
  }

  lemma StaysBuffer(memory: seq<wchar>, data: seq<wchar>)
    requires Buffer(memory) && |data| <= VALUE_CHARS
    ensures Buffer(Delivered(memory, data))
  {
    hide Delivered;
  }

  // The enumeration loop.
  method StartAll(vs: seq<RegValue>, memory: seq<wchar>) returns (started: seq<Instance>)
    requires Buffer(memory)
    ensures started == Started(vs, memory)
  {
    hide Understood, Strings, Buffer, Delivered;
    BufferHolds(memory);
    started := [];
    var m := memory;
    for j := 0 to |vs|
      invariant Buffer(m) && VALUE_CHARS <= |m| && Started(vs, memory) == started + Started(vs[j..], m)
    {
      assert vs[j..][1..] == vs[j + 1..];
      if !Readable(vs[j]) { return; }
      StaysBuffer(m, vs[j].data);
      m := Delivered(m, vs[j].data);
      var x := Read(vs[j].name, m, |vs[j].data|);
      if x.Some? { started := started + [x.value]; }
    }
  }

  // ----- Round trips -----

  lemma StringsOne(a: WString, rest: seq<wchar>, size: nat, n: nat)
    requires n > 0 && |a| + 1 <= size
    ensures Strings(a + [0] + rest, size, n) == [a] + Strings(rest, size - (|a| + 1), n - 1)
  {
    hide Strlen;
    var s := a + [0] + rest;
    StrlenOfFirst(a, rest);
    assert s[..|a|] == a && s[|a| + 1..] == rest;
  }

  lemma StringsNone(memory: seq<wchar>, size: nat, n: nat)
    requires size == 0 || n == 0
    ensures Strings(memory, size, n) == []
  {
  }

  lemma FlatFirst(ss: seq<WString>)
    requires ss != []
    ensures Flat(ss) == ss[0] + [0] + Flat(ss[1..])
  {
  }

  // Splitting undoes laying out, whatever lies behind the value.
  lemma {:induction false} StringsFlat(ss: seq<WString>, behind: seq<wchar>, n: nat)
    ensures Strings(Flat(ss) + behind, |Flat(ss)|, n) == if |ss| <= n then ss else ss[..n]
  {
    hide Strings, Flat;
    if n == 0 || ss == [] {
      FlatNone();
      StringsNone(Flat(ss) + behind, |Flat(ss)|, n);
    } else {
      var rest := ss[1..];
      FlatFirst(ss);
      assert Flat(ss) + behind == ss[0] + [0] + (Flat(rest) + behind);
      StringsOne(ss[0], Flat(rest) + behind, |Flat(ss)|, n);
      StringsFlat(rest, behind, n - 1);
      assert ss == [ss[0]] + rest;
      assert |ss| > n ==> ss[..n] == [ss[0]] + rest[..n - 1];
    }
  }

  predicate Remembered(x: Instance) {
    1 <= |x.args| <= 9
  }

  // One value: an instance without arguments is forgotten, one with up to nine comes back as it
  // was, and of a longer one the tenth argument is taken for the security descriptor.
  lemma ValueRoundTrip(x: Instance, behind: seq<wchar>)
    ensures var v := Stored(x);
      Understood(v.name, Strings(v.data + behind, |v.data|, MAX_STRINGS)) ==
        if x.args == [] then None
        else if Remembered(x) then Some(x)
        else Some(Instance(x.name, x.args[..9], x.args[9]))
  {
    hide Strings, Flat;
    var ss := x.args + [x.security, []];
    StringsFlat(ss, behind, MAX_STRINGS);
    if |x.args| <= 9 {
      assert ss[..|x.args|] == x.args;
    } else {
      assert ss[..MAX_STRINGS][..9] == x.args[..9];
      assert ss[..MAX_STRINGS][9] == x.args[9];
    }
  }

  lemma {:induction false} NoMore(xs: seq<Instance>, memory: seq<wchar>)
    requires VALUE_CHARS <= |memory|
    ensures |Started(StoredAll(xs), memory)| <= |xs|
  {
    hide Understood, Strings, Stored;
    if xs != [] && Readable(Stored(xs[0])) {
      NoMore(xs[1..], Delivered(memory, Stored(xs[0]).data));
      assert StoredAll(xs)[1..] == StoredAll(xs[1..]);
    }
  }

  // The characters of some strings with their NULs.
  function Characters(ss: seq<WString>): nat {
    if ss == [] then 0 else |ss[0]| + 1 + Characters(ss[1..])
  }

  lemma {:induction false} FlatCharacters(ss: seq<WString>, tail: seq<WString>)
    ensures |Flat(ss + tail)| == Characters(ss) + |Flat(tail)|
  {
    if ss == [] {
      assert ss + tail == tail;
    } else {
      assert (ss + tail)[1..] == ss[1..] + tail;
      FlatCharacters(ss[1..], tail);
    }
  }

  // The name with its NUL fits 264 characters, the strings with theirs and the empty one fit 1536.
  predicate Fits(x: Instance) {
    |x.name| < 264 && Characters(x.args) + |x.security| + 2 <= 1536
  }

  lemma FitsExact(x: Instance)
    ensures Readable(Stored(x)) <==> Fits(x)
  {
    FlatCharacters(x.args, [x.security, []]);
    FlatCharacters([x.security], [[]]);
    assert [x.security] + [[]] == [x.security, []];
    hide Characters;
  }

  // All of them: every instance is started again with the arguments and the security descriptor
  // it was saved with, in order, exactly when each has one to nine arguments and its name and
  // value fit the buffers, whatever the buffer held before.
  lemma {:induction false} RestartRoundTrip(xs: seq<Instance>, memory: seq<wchar>)
    requires VALUE_CHARS <= |memory|
    ensures Started(StoredAll(xs), memory) == xs <==>
            forall x :: x in xs ==> Remembered(x) && Fits(x)
  {
    hide Understood, Stored, Strings, Fits;
    if xs != [] {
      FitsExact(xs[0]);
      var x, rest := xs[0], xs[1..];
      assert StoredAll(xs)[1..] == StoredAll(rest);
      assert xs == [x] + rest && x in xs;
      if Readable(Stored(x)) {
        var m := Delivered(memory, Stored(x).data);
        RestartRoundTrip(rest, m);
        NoMore(rest, m);
        ValueRoundTrip(x, memory[|Stored(x).data|..]);
        if Remembered(x) { assert Started(StoredAll(xs), memory) == [x] + Started(StoredAll(rest), m); }
      }
    }
  }

  // The enumeration ends at a value that is no multi-string or too long for its buffers: nothing
  // behind it is started, and nothing before it is lost.
  lemma {:induction false} StartedUpTo(vs: seq<RegValue>, memory: seq<wchar>, k: nat)
    requires VALUE_CHARS <= |memory| && k < |vs|
    requires !vs[k].isMultiString || 264 <= |vs[k].name| || 1536 < |vs[k].data|
    ensures Started(vs, memory) == Started(vs[..k], memory)
  {
    hide Understood, Strings;
    if k > 0 && Readable(vs[0]) {
      assert vs[..k][1..] == vs[1..][..k - 1] && vs[..k][0] == vs[0];
      StartedUpTo(vs[1..], Delivered(memory, vs[0].data), k - 1);
    }
  }
}
