/** What the fields of a format read, over whole runs of the reader. */
module ScsiTextRuns {
  import opened BitFields
  import opened Bytes
  import opened ScsiText
  import opened Wrappers

  // ----- What each field takes, from the fields before it -----

  function End(log: seq<Entry>): nat {
    if log == [] then 0 else log[|log| - 1].to
  }

  predicate DeclaresLength(e: Entry) {
    Lower(e.field) && e.field.nMinus != ABSENT
  }

  // The data length in force: the smallest of the buffer's and the declared ones.
  function LengthAfter(length: nat, log: seq<Entry>): nat {
    if log == [] then length
    else
      var before, e := LengthAfter(length, log[..|log| - 1]), log[|log| - 1];
      if DeclaresLength(e) then Min(before, Declared(e.field, e.uval)) else before
  }

  // What m stands for: the low 32 bits of the last field that sets it, at first 1.
  function MultipleAfter(log: seq<Entry>): nat {
    if log == [] then 1
    else
      var e := log[|log| - 1];
      if Lower(e.field) && e.field.nMinus == ABSENT && e.field.mMinus != ABSENT then e.uval % TWO_32
      else MultipleAfter(log[..|log| - 1])
  }

  // A lowercase field takes its bits where the field before it ended, an uppercase one its bytes
  // from the next byte boundary; either is cut at the length in force.
  predicate Taken(buf: Data, before: seq<Entry>, e: Entry) {
    var end, len := End(before), LengthAfter(|buf|, before);
    && (Upper(e.field) || Lower(e.field))
    && end < 8 * len <= 8 * |buf|
    && e.width == WidthOf(e.field, MultipleAfter(before))
    && (Lower(e.field) ==>
        && e.from == end && e.to == end + Min(e.width, 8 * len - end)
        && e.uval == Bits(buf, e.from, e.to - e.from) % TWO_64
        && e.warning == WarningOf(e.field, e.uval, len))
    && (Upper(e.field) ==>
        && e.uval == 0 && e.warning == NoWarning
        && e.from == Align(end) <= 8 * len && e.to == e.from + 8 * Min(e.width, len - e.from / 8))
  }

  ghost predicate Consistent(buf: Data, s: State) {
    && s.bitpos == End(s.log) && s.len == LengthAfter(|buf|, s.log) && s.m == MultipleAfter(s.log)
    && forall i :: 0 <= i < |s.log| ==> Taken(buf, s.log[..i], s.log[i])
  }

  lemma LogGrows(buf: Data, log: seq<Entry>, e: Entry)
    requires forall i :: 0 <= i < |log| ==> Taken(buf, log[..i], log[i])
    requires Taken(buf, log, e)
    ensures forall i :: 0 <= i < |log + [e]| ==> Taken(buf, (log + [e])[..i], (log + [e])[i])
  {
    hide Taken;
    forall i | 0 <= i < |log + [e]| ensures Taken(buf, (log + [e])[..i], (log + [e])[i]) {
      if i < |log| { assert (log + [e])[..i] == log[..i]; } else { assert (log + [e])[..i] == log; }
    }
  }

  lemma BytesConsistent(buf: Data, s: State, f: Field)
    requires Consistent(buf, s) && !Halted(s) && Upper(f)
    ensures Consistent(buf, TakeBytes(s, f))
  {
    hide Bits;
    var t := TakeBytes(s, f);
    var e := t.log[|s.log|];
    assert t.log == s.log + [e] && t.log[..|t.log| - 1] == s.log;
    LogGrows(buf, s.log, e);
  }

  lemma BitsConsistent(buf: Data, s: State, f: Field)
    requires Consistent(buf, s) && s.len <= |buf| && !Halted(s) && Lower(f)
    ensures Consistent(buf, TakeBits(buf, s, f))
  {
    hide Bits;
    var t := TakeBits(buf, s, f);
    var e := t.log[|s.log|];
    assert t.log == s.log + [e] && t.log[..|t.log| - 1] == s.log;
    LogGrows(buf, s.log, e);
  }

  lemma StepConsistent(fmt: Format, buf: Data, s: State)
    requires Sound(fmt, buf, s) && !Halted(s) && Consistent(buf, s)
    ensures Consistent(buf, Step(fmt, buf, s))
  {
    hide Taken, TakeBits, TakeBytes, End, LengthAfter, MultipleAfter;
    if s.at < |fmt.fields| {
      var f := fmt.fields[s.at];
      var before := s.(at := s.at + 1, star := if f.starred then Some(s.at) else s.star);
      assert Consistent(buf, before);
      if Upper(f) { BytesConsistent(buf, before, f); }
      else if Lower(f) { BitsConsistent(buf, before, f); }
    }
  }

  lemma StartConsistent(buf: Data)
    ensures Consistent(buf, Start(buf))
  {
  }

  lemma {:induction false} RunConsistent(fmt: Format, buf: Data, n: nat)
    ensures Consistent(buf, Run(fmt, buf, n))
  {
    hide Consistent, Step;
    if n == 0 {
      StartConsistent(buf);
    } else {
      RunConsistent(fmt, buf, n - 1);
      if !Halted(Run(fmt, buf, n - 1)) { StepConsistent(fmt, buf, Run(fmt, buf, n - 1)); }
    }
  }

  // ----- The promises -----

  // In every run of every format, a number of up to 64 bits is exactly the big-endian bits it
  // lies on, and all its width unless the data ends.
  lemma NumbersAreTheirBits(fmt: Format, buf: Data, n: nat, i: nat)
    requires i < |Run(fmt, buf, n).log|
    ensures var e := Run(fmt, buf, n).log[i];
      Lower(e.field) && e.width <= 64 ==>
        && e.from <= e.to <= 8 * |buf| && e.uval == Bits(buf, e.from, e.to - e.from)
        && (e.to - e.from == e.width || e.to == 8 * LengthAfter(|buf|, Run(fmt, buf, n).log[..i]))
  {
    hide Run, Taken, LengthAfter;
    RunConsistent(fmt, buf, n);
    var log := Run(fmt, buf, n).log;
    assert Taken(buf, log[..i], log[i]);
    if Lower(log[i].field) && log[i].width <= 64 { TakenNumber(buf, log[..i], log[i]); }
  }

  lemma TakenNumber(buf: Data, before: seq<Entry>, e: Entry)
    requires Taken(buf, before, e) && Lower(e.field) && e.width <= 64
    ensures e.from <= e.to <= 8 * |buf| && e.uval == Bits(buf, e.from, e.to - e.from)
    ensures e.to - e.from == e.width || e.to == 8 * LengthAfter(|buf|, before)
  {
    hide End, LengthAfter, MultipleAfter, Bits, WarningOf;
    NarrowFieldIsExact(buf, e.from, e.to - e.from);
  }

  // The length in force is the buffer's or one that a field declared, and none of them is less.
  lemma {:induction false} LengthInForce(length: nat, log: seq<Entry>) returns (j: nat)
    ensures LengthAfter(length, log) <= length
    ensures forall i :: 0 <= i < |log| && DeclaresLength(log[i]) ==>
      LengthAfter(length, log) <= (log[i].uval + log[i].field.nMinus + 1) % TWO_64
    ensures j <= |log| && (j == |log| ==> LengthAfter(length, log) == length)
    ensures j < |log| ==>
      DeclaresLength(log[j]) && LengthAfter(length, log) == (log[j].uval + log[j].field.nMinus + 1) % TWO_64
  {
    if log == [] {
      j := 0;
    } else {
      var n := |log| - 1;
      j := LengthInForce(length, log[..n]);
      var before := LengthAfter(length, log[..n]);
      DeclaredIs(log[n].field, log[n].uval);
      hide Declared;
      assert forall i :: 0 <= i < n ==> log[..n][i] == log[i];
      if DeclaresLength(log[n]) && Declared(log[n].field, log[n].uval) < before {
        j := n;
      } else if j == n {
        j := |log|;
      }
    }
  }

  // And m is the low 32 bits of the last field that set it.
  lemma {:induction false} MultipleInForce(log: seq<Entry>) returns (j: nat)
    ensures j <= |log| && MultipleAfter(log) == if j < |log| then log[j].uval % TWO_32 else 1
    ensures j < |log| ==> Lower(log[j].field) && log[j].field.nMinus == ABSENT && log[j].field.mMinus != ABSENT
    ensures forall i :: 0 <= i < |log| && (i > j || j == |log|) && Lower(log[i].field) ==>
      log[i].field.nMinus != ABSENT || log[i].field.mMinus == ABSENT
  {
    if log == [] {
      j := 0;
    } else {
      var n := |log| - 1;
      var f := log[n].field;
      if Lower(f) && f.nMinus == ABSENT && f.mMinus != ABSENT {
        j := n;
      } else {
        j := MultipleInForce(log[..n]);
        assert forall i :: 0 <= i < n ==> log[..n][i] == log[i];
        if j == n { j := |log|; }
      }
    }
  }

  // A field is as wide as the format says, m standing for the last value that set it; and a number
  // is reported with a warning exactly if it is a reserved one that is not zero, or else if it
  // declares another length than the one in force.
  lemma FieldsAsDeclared(fmt: Format, buf: Data, n: nat, i: nat)
    requires i < |Run(fmt, buf, n).log|
    ensures var before, e := Run(fmt, buf, n).log[..i], Run(fmt, buf, n).log[i];
      var f, len := e.field, LengthAfter(|buf|, before);
      var reserved := Lower(f) && |f.name| <= 8 && f.name == "Reserved"[..|f.name|] && e.uval != 0;
      && e.width == (match f.width case Fixed(w) => w case Multiple => MultipleAfter(before))
      && (e.warning == NonZeroReserved <==> reserved)
      && (e.warning == LengthMismatch <==>
            !reserved && Lower(f) && f.nMinus != ABSENT && (e.uval + f.nMinus + 1) % TWO_64 != len)
  {
    hide Run, Taken, LengthAfter, MultipleAfter;
    RunConsistent(fmt, buf, n);
    var log := Run(fmt, buf, n).log;
    assert Taken(buf, log[..i], log[i]);
    TakenAsDeclared(buf, log[..i], log[i]);
  }

  lemma TakenAsDeclared(buf: Data, before: seq<Entry>, e: Entry)
    requires Taken(buf, before, e)
    ensures var f, len := e.field, LengthAfter(|buf|, before);
      var reserved := Lower(f) && |f.name| <= 8 && f.name == "Reserved"[..|f.name|] && e.uval != 0;
      && e.width == (match f.width case Fixed(w) => w case Multiple => MultipleAfter(before))
      && (e.warning == NonZeroReserved <==> reserved)
      && (e.warning == LengthMismatch <==>
            !reserved && Lower(f) && f.nMinus != ABSENT && (e.uval + f.nMinus + 1) % TWO_64 != len)
  {
    hide LengthAfter, MultipleAfter, Bits, End;
  }

  // The fields tile the data: the first begins at bit 0, and each begins where the one before it
  // ended, except that an uppercase field begins on the next byte boundary.
  lemma FieldsTile(fmt: Format, buf: Data, n: nat, i: nat)
    requires i < |Run(fmt, buf, n).log|
    ensures var log := Run(fmt, buf, n).log;
      var end := if i == 0 then 0 else log[i - 1].to;
      && log[i].from == (if Upper(log[i].field) then Align(end) else end)
      && log[i].from <= log[i].to && (Upper(log[i].field) ==> log[i].to % 8 == 0)
  {
    hide Run, Taken, Align, LengthAfter;
    RunConsistent(fmt, buf, n);
    var log := Run(fmt, buf, n).log;
    assert Taken(buf, log[..i], log[i]);
    TakenTiles(buf, log[..i], log[i]);
  }

  lemma TakenTiles(buf: Data, before: seq<Entry>, e: Entry)
    requires Taken(buf, before, e)
    ensures e.from == if Upper(e.field) then Align(End(before)) else End(before)
    ensures e.from <= e.to && (Upper(e.field) ==> e.to % 8 == 0)
  {
    hide End, LengthAfter, MultipleAfter, Bits, WarningOf;
  }

  lemma {:induction false} LengthShrinks(length: nat, log: seq<Entry>, j: nat)
    requires j <= |log|
    ensures LengthAfter(length, log) <= LengthAfter(length, log[..j]) <= length
    decreases |log|
  {
    if j < |log| {
      assert log[..|log| - 1][..j] == log[..j];
      LengthShrinks(length, log[..|log| - 1], j);
    } else if j > 0 {
      assert log[..j] == log;
      LengthShrinks(length, log[..j - 1], j - 1);
      assert log[..j - 1][..j - 1] == log[..j - 1];
    }
  }

  // Once a field has declared the length, no later field takes anything beyond it; and none takes
  // anything beyond the buffer.
  lemma NothingPastDeclaredLength(fmt: Format, buf: Data, n: nat, i: nat, j: nat)
    requires i < j < |Run(fmt, buf, n).log|
    ensures var log := Run(fmt, buf, n).log;
      && log[j].to <= 8 * |buf|
      && (DeclaresLength(log[i]) ==> log[j].to <= 8 * ((log[i].uval + log[i].field.nMinus + 1) % TWO_64))
  {
    hide Run, Taken, LengthAfter, Declared;
    RunConsistent(fmt, buf, n);
    var log := Run(fmt, buf, n).log;
    assert Taken(buf, log[..j], log[j]);
    TakenEnds(buf, log[..j], log[j]);
    LengthShrinks(|buf|, log[..j], i + 1);
    assert log[..j][..i + 1] == log[..i] + [log[i]];
    LengthDeclared(|buf|, log[..i], log[i]);
    DeclaredIs(log[i].field, log[i].uval);
  }

  lemma DeclaredIs(f: Field, uval: nat)
    ensures Declared(f, uval) == (uval + f.nMinus + 1) % TWO_64
  {
  }

  lemma TakenEnds(buf: Data, before: seq<Entry>, e: Entry)
    requires Taken(buf, before, e)
    ensures e.to <= 8 * LengthAfter(|buf|, before) <= 8 * |buf|
  {
    hide End, LengthAfter, MultipleAfter, Bits, WarningOf;
  }

  lemma LengthDeclared(length: nat, before: seq<Entry>, e: Entry)
    ensures DeclaresLength(e) ==> LengthAfter(length, before + [e]) <= Declared(e.field, e.uval)
  {
    assert (before + [e])[..|before|] == before;
  }

  // ----- Which fields -----

  function Letters(fs: seq<Field>): seq<Field> {
    if fs == [] then []
    else Letters(fs[..|fs| - 1]) + if Upper(fs[|fs| - 1]) || Lower(fs[|fs| - 1]) then [fs[|fs| - 1]] else []
  }

  // Where the last star among the first n fields stands.
  function LastStar(fmt: Format, n: nat): (star: Option<nat>)
    requires n <= |fmt.fields|
    ensures star.Some? ==> star.value < n
  {
    if n == 0 then None
    else if fmt.fields[n - 1].starred then Some(n - 1)
    else LastStar(fmt, n - 1)
  }

  function Loop(fmt: Format): Option<nat> {
    if fmt.endStar then Some(|fmt.fields|) else LastStar(fmt, |fmt.fields|)
  }

  // The letter fields of the format, then those from the last star on, again and again.
  function Unrolled(fmt: Format, rounds: nat): seq<Field> {
    if rounds == 0 || Loop(fmt).None? then Letters(fmt.fields)
    else Unrolled(fmt, rounds - 1) + Letters(fmt.fields[Loop(fmt).value..])
  }

  function FieldsOf(log: seq<Entry>): (fs: seq<Field>)
    ensures |fs| == |log| && forall i :: 0 <= i < |fs| ==> fs[i] == log[i].field
  {
    seq(|log|, i requires 0 <= i < |log| => log[i].field)
  }

  // Where the run stands: in the format itself, or `rounds` + 1 times past its end.
  ghost predicate Stands(fmt: Format, s: State, rounds: Option<nat>) {
    && s.at <= |fmt.fields|
    && match rounds
       case None => s.star == LastStar(fmt, s.at) && FieldsOf(s.log) == Letters(fmt.fields[..s.at])
       case Some(k) =>
         && s.star == Loop(fmt) && s.star.Some? && s.star.value <= s.at
         && FieldsOf(s.log) == Unrolled(fmt, k) + Letters(fmt.fields[s.star.value..s.at])
  }

  lemma LettersAppend(fs: seq<Field>, f: Field)
    ensures Letters(fs + [f]) == Letters(fs) + if Upper(f) || Lower(f) then [f] else []
  {
    assert (fs + [f])[..|fs|] == fs;
  }

  lemma NoLaterStar(fmt: Format, i: nat)
    requires i < |fmt.fields| && Loop(fmt).Some? && Loop(fmt).value < i
    ensures !fmt.fields[i].starred
  {
    StarIsLast(fmt, |fmt.fields|, i);
  }

  lemma {:induction false} StarIsLast(fmt: Format, n: nat, i: nat)
    requires i < n <= |fmt.fields| && LastStar(fmt, n).Some? && LastStar(fmt, n).value < i
    ensures !fmt.fields[i].starred
  {
    if i < n - 1 { StarIsLast(fmt, n - 1, i); }
  }

  lemma VisitsItsField(buf: Data, s: State, f: Field)
    requires s.len <= |buf| && !Halted(s)
    ensures FieldsOf(Visit(buf, s, f).log) == FieldsOf(s.log) + if Upper(f) || Lower(f) then [f] else []
  {
    hide Bits;
  }

  lemma AfterField(fmt: Format, buf: Data, s: State, rounds: Option<nat>)
    requires Sound(fmt, buf, s) && !Halted(s) && Stands(fmt, s, rounds) && s.at < |fmt.fields|
    ensures Stands(fmt, Step(fmt, buf, s), rounds)
  {
    hide Visit, Letters;
    var f := fmt.fields[s.at];
    VisitsItsField(buf, s.(at := s.at + 1, star := if f.starred then Some(s.at) else s.star), f);
    match rounds
    case None =>
      assert fmt.fields[..s.at + 1] == fmt.fields[..s.at] + [f];
      LettersAppend(fmt.fields[..s.at], f);
    case Some(k) =>
      var l := s.star.value;
      assert fmt.fields[l..s.at + 1] == fmt.fields[l..s.at] + [f];
      LettersAppend(fmt.fields[l..s.at], f);
      if l < s.at { NoLaterStar(fmt, s.at); }
  }

  lemma AtEnd(fmt: Format, buf: Data, s: State, rounds: Option<nat>) returns (next: Option<nat>)
    requires Sound(fmt, buf, s) && !Halted(s) && Stands(fmt, s, rounds) && s.at == |fmt.fields|
    ensures Stands(fmt, Step(fmt, buf, s), next)
  {
    hide Letters, LastStar;
    assert fmt.fields[..s.at] == fmt.fields;
    if Loop(fmt).None? {
      next := None;
    } else {
      var l := Loop(fmt).value;
      assert fmt.fields[l..l] == [];
      EmptyLetters();
      next := if rounds.None? then Some(0) else Some(rounds.value + 1);
      assert fmt.fields[l..s.at] == fmt.fields[l..];
    }
  }

  lemma EmptyLetters()
    ensures Letters([]) == []
  {
  }

  lemma {:induction false} RunStands(fmt: Format, buf: Data, n: nat) returns (rounds: Option<nat>)
    ensures Stands(fmt, Run(fmt, buf, n), rounds)
  {
    hide Stands, Step;
    if n == 0 {
      StartStands(fmt, buf);
      rounds := None;
    } else {
      rounds := RunStands(fmt, buf, n - 1);
      var s := Run(fmt, buf, n - 1);
      if !Halted(s) {
        if s.at == |fmt.fields| { rounds := AtEnd(fmt, buf, s, rounds); }
        else { AtMost(fmt, buf, s); AfterField(fmt, buf, s, rounds); }
      }
    }
  }

  lemma AtMost(fmt: Format, buf: Data, s: State)
    requires Sound(fmt, buf, s)
    ensures s.at <= |fmt.fields|
  {
  }

  lemma StartStands(fmt: Format, buf: Data)
    ensures Stands(fmt, Start(buf), None)
  {
    assert fmt.fields[..0] == [];
  }

  // The fields that are read are those of the format in order, and after the end those from the
  // last star on, round after round.
  lemma FieldsInOrder(fmt: Format, buf: Data, n: nat) returns (rounds: nat)
    ensures FieldsOf(Run(fmt, buf, n).log) <= Unrolled(fmt, rounds)
  {
    var r := RunStands(fmt, buf, n);
    var s := Run(fmt, buf, n);
    hide Run;
    match r
    case None =>
      LettersPrefix(fmt.fields, s.at);
      rounds := 0;
    case Some(k) =>
      var group := fmt.fields[s.star.value..];
      LettersPrefix(group, s.at - s.star.value);
      assert group[..s.at - s.star.value] == fmt.fields[s.star.value..s.at];
      rounds := k + 1;
  }

  lemma {:induction false} LettersPrefix(fs: seq<Field>, n: nat)
    requires n <= |fs|
    ensures Letters(fs[..n]) <= Letters(fs)
    decreases |fs|
  {
    if n == |fs| {
      assert fs[..n] == fs;
    } else {
      assert fs[..|fs| - 1][..n] == fs[..n];
      LettersPrefix(fs[..|fs| - 1], n);
    }
  }

  // ----- Which formats come to an end -----

  // All widths are numbers, and no field declares the length.
  predicate Plain(fmt: Format) {
    forall f :: f in fmt.fields ==> f.width.Fixed? && f.nMinus == ABSENT
  }

  // A number of bytes that the fields cannot pass.
  function Reach(fs: seq<Field>): nat {
    if fs == [] then 0 else Reach(fs[..|fs| - 1]) + WidthOf(fs[|fs| - 1], 0) + 1
  }

  lemma {:induction false} ReachGrows(fs: seq<Field>, n: nat)
    requires n <= |fs|
    ensures Reach(fs[..n]) <= Reach(fs)
    decreases |fs|
  {
    if n == |fs| {
      assert fs[..n] == fs;
    } else {
      assert fs[..|fs| - 1][..n] == fs[..n];
      ReachGrows(fs[..|fs| - 1], n);
    }
  }

  // The run is under way, with data left over, or it goes round the last star without moving on.
  ghost predicate Stuck(fmt: Format, buf: Data, s: State) {
    && s.at <= |fmt.fields| && !s.done && s.len == |buf| == Reach(fmt.fields) + 1
    && Loop(fmt).Some?
    && ((s.star == LastStar(fmt, s.at) && Align(s.bitpos) <= 8 * Reach(fmt.fields[..s.at]))
        || (s.star == Loop(fmt) && s.star.value <= s.at && Align(s.bitpos) <= 8 * Reach(fmt.fields)))
  }

  lemma StuckRuns(fmt: Format, buf: Data, s: State)
    requires Stuck(fmt, buf, s)
    ensures !Halted(s)
  {
    ReachGrows(fmt.fields, s.at);
  }

  lemma VisitReach(buf: Data, s: State, f: Field)
    requires s.len <= |buf| && !Halted(s) && f.width.Fixed? && f.nMinus == ABSENT
    ensures var t := Visit(buf, s, f);
      && t.len == s.len && Align(t.bitpos) <= Align(s.bitpos) + 8 * (f.width.width + 1)
      && (!Positive(f) ==> Align(t.bitpos) == Align(s.bitpos))
  {
    hide Bits;
  }

  lemma ReachAppend(fs: seq<Field>, f: Field)
    ensures Reach(fs + [f]) == Reach(fs) + WidthOf(f, 0) + 1
  {
    assert (fs + [f])[..|fs|] == fs;
  }

  lemma StuckAtField(fmt: Format, buf: Data, s: State)
    requires Sound(fmt, buf, s) && Plain(fmt) && Stuck(fmt, buf, s) && !Halted(s) && s.at < |fmt.fields|
    requires forall g :: Loop(fmt).Some? && Loop(fmt).value <= g < |fmt.fields| ==> !Positive(fmt.fields[g])
    ensures Stuck(fmt, buf, Step(fmt, buf, s))
  {
    hide Visit, Reach, Plain, Positive, Loop;
    var f := fmt.fields[s.at];
    assert f.width.Fixed? && f.nMinus == ABSENT by { PlainField(fmt, s.at); }
    VisitReach(buf, s.(at := s.at + 1, star := if f.starred then Some(s.at) else s.star), f);
    assert fmt.fields[..s.at + 1] == fmt.fields[..s.at] + [f];
    ReachAppend(fmt.fields[..s.at], f);
    if s.star == Loop(fmt) && s.star.value <= s.at && Align(s.bitpos) <= 8 * Reach(fmt.fields) {
      if s.star.value < s.at { NoLaterStar(fmt, s.at); }
    }
  }

  lemma PlainField(fmt: Format, i: nat)
    requires Plain(fmt) && i < |fmt.fields|
    ensures fmt.fields[i].width.Fixed? && fmt.fields[i].nMinus == ABSENT
  {
  }

  lemma StuckAtEnd(fmt: Format, buf: Data, s: State)
    requires Sound(fmt, buf, s) && Stuck(fmt, buf, s) && !Halted(s) && s.at == |fmt.fields|
    ensures Stuck(fmt, buf, Step(fmt, buf, s))
  {
    hide Reach;
    assert fmt.fields[..s.at] == fmt.fields;
  }

  lemma {:induction false} StuckForever(fmt: Format, buf: Data, n: nat)
    requires Plain(fmt) && Loop(fmt).Some? && |buf| == Reach(fmt.fields) + 1
    requires forall g :: Loop(fmt).value <= g < |fmt.fields| ==> !Positive(fmt.fields[g])
    ensures Stuck(fmt, buf, Run(fmt, buf, n))
  {
    hide Step, Plain, Positive;
    if n == 0 {
      assert fmt.fields[..0] == [];
    } else {
      hide Stuck;
      StuckForever(fmt, buf, n - 1);
      var s := Run(fmt, buf, n - 1);
      StuckRuns(fmt, buf, s);
      if s.at == |fmt.fields| { StuckAtEnd(fmt, buf, s); } else { AtMost(fmt, buf, s); StuckAtField(fmt, buf, s); }
    }
  }

  lemma {:induction false} NoStar(fmt: Format, n: nat, i: nat)
    requires i < n <= |fmt.fields| && LastStar(fmt, n).None?
    ensures !fmt.fields[i].starred
  {
    if i < n - 1 { NoStar(fmt, n - 1, i); }
  }

  lemma StarlessIsProductive(fmt: Format)
    requires Loop(fmt).None?
    ensures Productive(fmt)
  {
    var n := |fmt.fields|;
    forall i | 0 <= i < n ensures !fmt.fields[i].starred { NoStar(fmt, n, i); }
    assert Progresses(fmt, n);
  }

  lemma UnproductiveLoops(fmt: Format)
    requires !Productive(fmt)
    ensures Loop(fmt).Some?
    ensures forall g :: Loop(fmt).value <= g < |fmt.fields| ==> !Positive(fmt.fields[g])
  {
    hide Positive;
    var n := |fmt.fields|;
    if Loop(fmt).None? {
      StarlessIsProductive(fmt);
    } else if !fmt.endStar {
      forall g | Loop(fmt).value <= g < n ensures !Positive(fmt.fields[g]) {
        forall i | g < i < n ensures !fmt.fields[i].starred { NoLaterStar(fmt, i); }
        assert !Progresses(fmt, g);
      }
    }
  }

  // Every productive format comes to an end on every buffer. For one of fixed widths without
  // length fields being productive is also necessary: otherwise it goes round for ever on every
  // buffer of a certain length.
  lemma ProductiveFormatsEnd(fmt: Format)
    ensures Productive(fmt) ==> forall buf :: Halts(fmt, buf)
    ensures Plain(fmt) && !Productive(fmt) ==> forall buf: Data :: |buf| == Reach(fmt.fields) + 1 ==> !Halts(fmt, buf)
    ensures Plain(fmt) ==> ((forall buf :: Halts(fmt, buf)) <==> Productive(fmt))
  {
    hide Productive, Run, Loop, Plain, Positive, Reach;
    if Productive(fmt) {
      forall buf ensures Halts(fmt, buf) { ProductiveHalts(fmt, buf); }
    } else if Plain(fmt) {
      UnproductiveLoops(fmt);
      forall buf: Data | |buf| == Reach(fmt.fields) + 1 ensures !Halts(fmt, buf) {
        forall n: nat ensures !Halted(Run(fmt, buf, n)) {
          StuckForever(fmt, buf, n);
          StuckRuns(fmt, buf, Run(fmt, buf, n));
        }
      }
      var buf: Data := seq(Reach(fmt.fields) + 1, _ => 0);
      assert !Halts(fmt, buf);
    }
  }
}
