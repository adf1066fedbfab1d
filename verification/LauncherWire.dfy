/**
 The launcher's pipe commands: the client that writes them (src/shared/launch.c) and the server
 that takes them apart and answers (src/launcher/launcher.c).
 */
module LauncherWire {
  import opened Names
  import opened Parts
  import opened Wrappers

  const BUFFER_SIZE: nat := 4096      // SPD_LAUNCH_PIPE_BUFFER_SIZE, in bytes
  const BUFFER_CHARS: nat := BUFFER_SIZE / 2

  const MAX_ARGS: nat := 9
  const MAX_PARTS: nat := 2 + MAX_ARGS

  const CMD_START: wchar := 0x53
  const CMD_STOP: wchar := 0x54
  const CMD_STOP_FORCED: wchar := 0x46
  const CMD_GET_INFO: wchar := 0x49
  const CMD_GET_NAME_LIST: wchar := 0x4C
  const REPLY_SUCCESS: wchar := 0x24
  const REPLY_FAILURE: wchar := 0x21

  // An argument: a null pointer, or what lies at the pointer, with a length if the caller gives
  // one. Without, the argument ends at its NUL.
  datatype Arg = Null | Text(memory: seq<wchar>, length: Option<nat>)

  // What a caller has to pass: a string that ends, or memory of the given length; and no string
  // so long that its length and a position overflow a ULONG.
  predicate Passable(a: Arg) {
    a.Text? ==>
      && (a.length.None? ==> 0 in a.memory)
      && (a.length.Some? ==> a.length.value <= |a.memory|)
      && Length(a) + BUFFER_CHARS < 0x1_0000_0000
  }

  type Argument = a: Arg | Passable(a) witness Null

  function Length(a: Arg): nat
    requires a.Text?
  {
    if a.length.Some? then a.length.value else Strlen(a.memory)
  }

  function Piece(a: Argument): (s: seq<wchar>)
    requires a.Text?
    ensures |s| == Length(a)
  {
    a.memory[..Length(a)]
  }

  // The pieces that are sent: null pointers are skipped.
  function Present(args: seq<Argument>): (pieces: seq<seq<wchar>>)
  {
    if args == [] then []
    else (if args[0].Text? then [Piece(args[0])] else []) + Present(args[1..])
  }

  lemma {:induction false} PresentAppend(args: seq<Argument>, a: Argument)
    ensures Present(args + [a]) == Present(args) + if a.Text? then [Piece(a)] else []
  {
    hide Passable, Piece;
    if args != [] {
      assert (args + [a])[1..] == args[1..] + [a];
      PresentAppend(args[1..], a);
    } else {
      assert args + [a] == [a];
    }
  }

  lemma {:induction false} FlatGrows(args: seq<Argument>, n: nat)
    requires n <= |args|
    ensures |Flat(Present(args[..n]))| <= |Flat(Present(args))|
    decreases |args|
  {
    hide Passable, Piece, Present;
    if n < |args| {
      var init := args[..|args| - 1];
      var last := args[|args| - 1];
      assert args == init + [last] && init[..n] == args[..n];
      FlatGrows(init, n);
      PresentAppend(init, last);
      if last.Text? { FlatAppend(Present(init), Piece(last)); }
      else { assert Present(args) == Present(init); }
    } else {
      assert args[..n] == args;
    }
  }

  // The message of a command, as it should be.
  function Encoded(command: wchar, args: seq<Argument>): seq<wchar>
  {
    [command] + Flat(Present(args))
  }

  lemma EncodedNone(command: wchar)
    ensures Encoded(command, []) == [command]
  {
  }

  // lstrlenW, or the length the caller gives.
  method Measure(a: Argument) returns (length: nat)
    requires a.Text?
    ensures length == Length(a) <= |a.memory|
  {
    if a.length.Some? { return a.length.value; }
    ghost var i :| 0 <= i < |a.memory| && a.memory[i] == 0;
    length := 0;
    while a.memory[length] != 0
      invariant length <= i && Strlen(a.memory) == length + Strlen(a.memory[length..])
      decreases i - length
    {
      assert a.memory[length..][1..] == a.memory[length + 1..];
      length := length + 1;
    }
  }

  // The serializing loop of SpdLaunchCallLauncherPipe: appends through a moving position, and
  // gives up when an argument and its NUL would not fit.
  method Serialize(command: wchar, args: seq<Argument>, pipeBuf: array<wchar>) returns (length: Option<nat>)
    requires pipeBuf.Length == BUFFER_CHARS
    modifies pipeBuf
    ensures length.Some? <==> |Encoded(command, args)| <= BUFFER_CHARS
    ensures length.Some? ==> length.value == |Encoded(command, args)| && pipeBuf[..length.value] == Encoded(command, args)
  {
    hide Flat, Present, Length, Passable;
    EncodedNone(command);
    pipeBuf[0] := command;
    var p := 1;
    assert args[..0] == [];
    for i := 0 to |args|
      invariant p <= pipeBuf.Length && pipeBuf[..p] == Encoded(command, args[..i])
    {
      assert args[..i + 1] == args[..i] + [args[i]];
      PresentAppend(args[..i], args[i]);
      if args[i].Text? {
        var n := Measure(args[i]);
        var arg := args[i].memory[..n];
        assert arg == Piece(args[i]);
        FlatAppend(Present(args[..i]), arg);
        if BUFFER_SIZE < (p + n + 1) * 2 {
          FlatGrows(args, i + 1);
          return None;
        }
        ghost var was := pipeBuf[..p];
        forall k | 0 <= k < n { pipeBuf[p + k] := arg[k]; }
        pipeBuf[p + n] := 0;
        p := p + n + 1;
        assert pipeBuf[..p] == was + arg + [0];
        assert pipeBuf[..p] == [command] + (Flat(Present(args[..i])) + arg + [0]);
      } else {
        assert Present(args[..i + 1]) == Present(args[..i]);
      }
    }
    assert args[..|args|] == args;
    return Some(p);
  }

  // The string at p, if a NUL ends it before the end of the message; and what follows it.
  function PartAt(m: seq<wchar>, p: nat): Option<WString>
    requires p <= |m|
  {
    var n := Strlen(m[p..]);
    if p + n < |m| then Some(m[p..][..n]) else None
  }

  function After(m: seq<wchar>, p: nat): (q: nat)
    requires p <= |m|
    ensures p <= q <= |m|
  {
    var n := Strlen(m[p..]);
    if p + n < |m| then p + n + 1 else |m|
  }

  // SvcPipeTransactGetPart.
  method GetPart(pipeBuf: seq<wchar>, p: nat) returns (part: Option<WString>, next: nat)
    requires p <= |pipeBuf|
    ensures part == PartAt(pipeBuf, p) && next == After(pipeBuf, p)
  {
    var q := p;
    while |pipeBuf| > q && pipeBuf[q] != 0
      invariant p <= q <= |pipeBuf|
      invariant Strlen(pipeBuf[p..]) == q - p + Strlen(pipeBuf[q..])
    {
      assert pipeBuf[q..][1..] == pipeBuf[q + 1..];
      q := q + 1;
    }
    if |pipeBuf| > q {
      assert pipeBuf[p..][..q - p] == pipeBuf[p..q];
      part, next := Some(pipeBuf[p..q]), q + 1;
    } else {
      part, next := None, q;
    }
  }

  datatype Command =
    | Start(className: WString, instanceName: WString, args: seq<WString>)
    | Stop(className: WString, instanceName: WString, forced: bool)
    | GetInfo(className: WString, instanceName: WString)
    | GetNameList
    | Invalid

  // What a message means: command character, then class and instance name, then up to nine
  // arguments.
  function Decoded(m: seq<wchar>): Command
    requires m != []
  {
    Meaning(m[0], Take(m[1..], MAX_PARTS))
  }

  function Meaning(command: wchar, parts: seq<WString>): Command {
    if command == CMD_GET_NAME_LIST then GetNameList
    else if |parts| < 2 then Invalid
    else if command == CMD_START then Start(parts[0], parts[1], parts[2..])
    else if command == CMD_STOP || command == CMD_STOP_FORCED then Stop(parts[0], parts[1], command == CMD_STOP_FORCED)
    else if command == CMD_GET_INFO then GetInfo(parts[0], parts[1])
    else Invalid
  }

  // One step of reading parts from a position.
  lemma TakeFrom(m: seq<wchar>, p: nat, n: nat)
    requires p <= |m| && n > 0
    ensures Take(m[p..], n) ==
      if PartAt(m, p).None? then [] else [PartAt(m, p).value] + Take(m[After(m, p)..], n - 1)
  {
    hide Strlen;
    var k := Strlen(m[p..]);
    if p + k < |m| { assert m[p..][k + 1..] == m[p + k + 1..]; }
  }

  lemma DecodedParts(m: seq<wchar>)
    requires m != []
    ensures Decoded(m) == Meaning(m[0], Take(m[1..], MAX_PARTS))
  {
  }

  // Class and instance name.
  method ParseNames(pipeBuf: seq<wchar>) returns (names: Option<(WString, WString)>, q: nat)
    requires pipeBuf != []
    ensures q <= |pipeBuf|
    ensures names.None? ==> |Take(pipeBuf[1..], MAX_PARTS)| < 2
    ensures names.Some? ==>
      Take(pipeBuf[1..], MAX_PARTS) == [names.value.0, names.value.1] + Take(pipeBuf[q..], MAX_ARGS)
  {
    hide Take, PartAt, After;
    var className, p := GetPart(pipeBuf, 1);
    TakeFrom(pipeBuf, 1, MAX_PARTS);
    if className.None? { return None, p; }
    var instanceName;
    instanceName, q := GetPart(pipeBuf, p);
    TakeFrom(pipeBuf, p, MAX_PARTS - 1);
    names := if instanceName.None? then None else Some((className.value, instanceName.value));
  }

  // The parsing half of SvcPipeTransact.
  method Parse(pipeBuf: seq<wchar>) returns (command: Command)
    requires pipeBuf != []
    ensures command == Decoded(pipeBuf)
  {
    hide Take, Strlen, Decoded;
    DecodedParts(pipeBuf);
    var c := pipeBuf[0];
    if c == CMD_GET_NAME_LIST { return GetNameList; }
    if c != CMD_START && c != CMD_STOP && c != CMD_STOP_FORCED && c != CMD_GET_INFO { return Invalid; }
    var names, q := ParseNames(pipeBuf);
    if names.None? { return Invalid; }
    var className, instanceName := names.value.0, names.value.1;
    if c == CMD_START {
      var args := ParseArgs(pipeBuf, q);
      assert Take(pipeBuf[1..], MAX_PARTS)[2..] == args;
      return Start(className, instanceName, args);
    }
    if c == CMD_GET_INFO { return GetInfo(className, instanceName); }
    return Stop(className, instanceName, c == CMD_STOP_FORCED);
  }

  // The argument loop: at most nine.
  method ParseArgs(pipeBuf: seq<wchar>, start: nat) returns (args: seq<WString>)
    requires start <= |pipeBuf|
    ensures args == Take(pipeBuf[start..], MAX_ARGS)
  {
    hide Take, PartAt, After;
    args := [];
    var p: nat := start;
    while MAX_ARGS > |args|
      invariant |args| <= MAX_ARGS && p <= |pipeBuf|
      invariant Take(pipeBuf[start..], MAX_ARGS) == args + Take(pipeBuf[p..], MAX_ARGS - |args|)
      decreases MAX_ARGS - |args|
    {
      TakeFrom(pipeBuf, p, MAX_ARGS - |args|);
      var part, next := GetPart(pipeBuf, p);
      if part.None? { return; }
      args := args + [part.value];
      p := next;
    }
  }

  // The strings as NUL-terminated arguments.
  function Terminated(ss: seq<WString>): (args: seq<Argument>)
    requires forall i :: 0 <= i < |ss| ==> |ss[i]| + BUFFER_CHARS < 0x1_0000_0000
    ensures |args| == |ss| && forall i :: 0 <= i < |ss| ==> args[i] == Text(ss[i] + [0], None)
  {
    if ss == [] then []
    else
      TerminatedPiece(ss[0]);
      [Text(ss[0] + [0], None)] + Terminated(ss[1..])
  }

  lemma TerminatedPiece(s: WString)
    requires |s| + BUFFER_CHARS < 0x1_0000_0000
    ensures var a := Text(s + [0], None); Passable(a) && Piece(a) == s
  {
    assert s + [0] + [] == s + [0] && (s + [0])[|s|] == 0;
    StrlenOfFirst(s, []);
  }

  // An argument is the string that a given length has, or the one before the first NUL; a null
  // pointer is none.
  lemma PieceOfText(s: WString, behind: seq<wchar>, args: seq<Argument>)
    requires |s| + BUFFER_CHARS < 0x1_0000_0000
    ensures var given, ended := Text(s + behind, Some(|s|)), Text(s + [0] + behind, None);
      && Passable(given) && Present([given] + args) == [s] + Present(args)
      && Passable(ended) && Present([ended] + args) == [s] + Present(args)
      && Present([Null] + args) == Present(args)
  {
    hide Present;
    StrlenOfFirst(s, behind);
    assert (s + [0] + behind)[|s|] == 0;
    assert (s + behind)[..|s|] == s && (s + [0] + behind)[..|s|] == s;
    PresentFirst(Text(s + behind, Some(|s|)), args);
    PresentFirst(Text(s + [0] + behind, None), args);
    PresentFirst(Null, args);
  }

  lemma PresentFirst(a: Argument, args: seq<Argument>)
    ensures Present([a] + args) == (if a.Text? then [Piece(a)] else []) + Present(args)
  {
    assert ([a] + args)[1..] == args;
  }

  lemma {:induction false} TerminatedPieces(ss: seq<WString>)
    requires forall i :: 0 <= i < |ss| ==> |ss[i]| + BUFFER_CHARS < 0x1_0000_0000
    ensures Present(Terminated(ss)) == ss
  {
    hide Piece, Passable;
    if ss != [] {
      TerminatedPiece(ss[0]);
      TerminatedPieces(ss[1..]);
      assert Terminated(ss)[1..] == Terminated(ss[1..]);
    }
  }

  // The server reads a start command as the client wrote it, however the client gave the names
  // and arguments, for up to nine arguments; the tenth and later ones are not seen.
  lemma StartRoundTrip(args: seq<Argument>, className: WString, instanceName: WString, rest: seq<WString>)
    requires Present(args) == [className, instanceName] + rest
    ensures Decoded(Encoded(CMD_START, args))
         == Start(className, instanceName, if |rest| <= MAX_ARGS then rest else rest[..MAX_ARGS])
  {
    hide Take, Flat, Present, Passable;
    var ss: seq<WString> := [className, instanceName] + rest;
    assert Encoded(CMD_START, args)[1..] == Flat(ss);
    TakeFlat(ss, MAX_PARTS);
    if |rest| > MAX_ARGS { assert ss[..MAX_PARTS][2..] == rest[..MAX_ARGS]; }
  }

  // Stop and get-info commands as well.
  lemma NamesRoundTrip(command: wchar, args: seq<Argument>, className: WString, instanceName: WString)
    requires command == CMD_STOP || command == CMD_STOP_FORCED || command == CMD_GET_INFO
    requires Present(args) == [className, instanceName]
    ensures Decoded(Encoded(command, args))
         == if command == CMD_GET_INFO then GetInfo(className, instanceName)
            else Stop(className, instanceName, command == CMD_STOP_FORCED)
  {
    hide Take, Flat, Present, Passable;
    var ss: seq<WString> := [className, instanceName];
    assert Encoded(command, args)[1..] == Flat(ss);
    TakeFlat(ss, MAX_PARTS);
  }

  // A name list command needs no names. Anything else but the four named ones is refused, and so
  // are those without both names.
  lemma OthersRoundTrip(command: wchar, args: seq<Argument>, ss: seq<WString>)
    requires Present(args) == ss
    ensures Decoded(Encoded(command, args)) == GetNameList <==> command == CMD_GET_NAME_LIST
    ensures Decoded(Encoded(command, args)) == Invalid <==>
      && command != CMD_GET_NAME_LIST
      && (command !in {CMD_START, CMD_STOP, CMD_STOP_FORCED, CMD_GET_INFO} || |ss| < 2)
  {
    hide Take, Flat, Present, Passable;
    assert Encoded(command, args)[1..] == Flat(ss);
    TakeFlat(ss, MAX_PARTS);
  }

  // ----- The reply -----

  const ERROR_BROKEN_PIPE: nat := 109

  function Digit(d: nat): wchar
    requires d < 10
  {
    (0x30 + d) as wchar
  }

  // The decimal digits of n.
  function Decimal(n: nat): (s: seq<wchar>)
    ensures s != [] && forall i :: 0 <= i < |s| ==> 0x30 <= s[i] <= 0x39
  {
    if n < 10 then [Digit(n)] else Decimal(n / 10) + [Digit(n % 10)]
  }

  // wsprintfW with %ld: a DWORD from 2^31 on prints as a negative number.
  function SignedDecimal(error: nat): seq<wchar>
    requires error < 0x1_0000_0000
  {
    if error < 0x8000_0000 then Decimal(error) else [0x2D] + Decimal(0x1_0000_0000 - error)
  }

  // SvcPipeTransactResult; `payload` is what the command put after the reply character.
  function Reply(error: nat, payload: seq<wchar>): seq<wchar>
    requires error < 0x1_0000_0000
  {
    if error == 0 then [REPLY_SUCCESS] + payload else [REPLY_FAILURE] + SignedDecimal(error) + [0]
  }

  // The digit loop of the client, in DWORD arithmetic.
  function DigitsValue(s: seq<wchar>, acc: nat): nat {
    if s == [] || !(0x30 <= s[0] <= 0x39) then acc
    else DigitsValue(s[1..], (10 * acc + (s[0] as nat - 0x30)) % 0x1_0000_0000)
  }

  method ReadDigits(s: seq<wchar>) returns (error: nat)
    ensures error == DigitsValue(s, 0)
  {
    error := 0;
    var i := 0;
    while i < |s| && 0x30 <= s[i] <= 0x39
      invariant i <= |s| && DigitsValue(s, 0) == DigitsValue(s[i..], error)
    {
      assert s[i..][1..] == s[i + 1..];
      error := (10 * error + (s[i] as nat - 0x30)) % 0x1_0000_0000;
      i := i + 1;
    }
  }

  // What the client reports: the launcher's error and, on success, the payload.
  function Received(m: seq<wchar>): (nat, Option<seq<wchar>>) {
    if m == [] then (ERROR_BROKEN_PIPE, None)
    else if m[0] == REPLY_SUCCESS then (0, Some(m[1..]))
    else if m[0] == REPLY_FAILURE then
      var e := DigitsValue(m[1..], 0);
      (if e == 0 then ERROR_BROKEN_PIPE else e, None)
    else (ERROR_BROKEN_PIPE, None)
  }

  // The client reports success only of a reply that says so; what it cannot understand is a broken
  // pipe.
  lemma SuccessOnlyIfSaid(m: seq<wchar>)
    ensures Received(m).0 == 0 <==> m != [] && m[0] == REPLY_SUCCESS
    ensures Received(m).1.Some? <==> m != [] && m[0] == REPLY_SUCCESS
    ensures m == [] || (m[0] != REPLY_SUCCESS && m[0] != REPLY_FAILURE) ==> Received(m).0 == ERROR_BROKEN_PIPE
    ensures m != [] && m[0] == REPLY_FAILURE && (|m| == 1 || !(0x30 <= m[1] <= 0x39)) ==> Received(m).0 == ERROR_BROKEN_PIPE
  {
  }

  lemma OneDigit(d: nat, rest: seq<wchar>, acc: nat)
    requires d < 10 && 10 * acc + d < 0x1_0000_0000
    ensures DigitsValue([Digit(d)] + rest, acc) == DigitsValue(rest, 10 * acc + d)
  {
    assert ([Digit(d)] + rest)[1..] == rest;
  }

  lemma {:induction false} DigitsOfDecimal(n: nat, rest: seq<wchar>)
    requires n < 0x1_0000_0000
    ensures DigitsValue(Decimal(n) + rest, 0) == DigitsValue(rest, n)
    decreases n
  {
    hide DigitsValue, Digit;
    if n < 10 {
      OneDigit(n, rest, 0);
    } else {
      var last := [Digit(n % 10)];
      assert Decimal(n) + rest == Decimal(n / 10) + (last + rest);
      DigitsOfDecimal(n / 10, last + rest);
      OneDigit(n % 10, rest, n / 10);
    }
  }

  // The client sees the payload of a success, and the launcher's error exactly when it is below
  // 2^31: a larger one prints with a sign, which the digit loop reads as 0.
  lemma ReplyRoundTrip(error: nat, payload: seq<wchar>)
    requires error < 0x1_0000_0000
    ensures error == 0 ==> Received(Reply(error, payload)) == (0, Some(payload))
    ensures error != 0 ==> Received(Reply(error, payload)).1 == None
    ensures Received(Reply(error, payload)).0 == error <==> error < 0x8000_0000
  {
    var m := Reply(error, payload);
    if error == 0 {
      assert m[1..] == payload;
    } else if error < 0x8000_0000 {
      assert m[1..] == Decimal(error) + [0];
      DigitsOfDecimal(error, [0]);
    } else {
      assert m[1..][0] == 0x2D;
    }
  }
}
