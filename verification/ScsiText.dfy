/**
 The format-driven reader of SCSI data, ScsiText in src/scsitool/scsitext.c. A format is taken as
 the list of fields its text spells; how the text is cut into fields is not part of this model.
 */
module ScsiText {
  import opened BitFields
  import opened Bytes
  import opened Wrappers

  const ABSENT: nat := 0xffff_ffff

  type UInt32 = n: nat | n < TWO_32

  // A number, or the letter m: the value the last (m-v) field had.
  datatype Width = Fixed(width: UInt32) | Multiple

  // `starred`: a star stands before the field. nMinus and mMinus are the v of (n-v) and (m-v).
  datatype Field = Field(starred: bool, kind: char, width: Width, nMinus: UInt32, mMinus: UInt32, name: string)

  // `endStar`: a star stands after the last field.
  datatype Format = Format(fields: seq<Field>, endStar: bool)

  datatype Warning = NoWarning | LengthMismatch | NonZeroReserved

  // A letter field and what became of it: its width, the bits from `from` to `to` it took, and
  // the value and warning it was reported with.
  datatype Entry = Entry(field: Field, width: nat, from: nat, to: nat, uval: nat, warning: Warning)

  datatype State = State(at: nat, star: Option<nat>, bitpos: nat, len: nat, m: nat, done: bool, log: seq<Entry>)

  predicate Upper(f: Field) { 'A' <= f.kind <= 'Z' }
  predicate Lower(f: Field) { 'a' <= f.kind <= 'z' }

  function Min(a: nat, b: nat): nat { if a <= b then a else b }

  // (bitpos + 7) & ~7
  function Align(bitpos: nat): (r: nat)
    ensures bitpos <= r < bitpos + 8 && r % 8 == 0
  {
    (bitpos + 7) / 8 * 8
  }

  function WidthOf(f: Field, m: nat): nat {
    if f.width.Multiple? then m else f.width.width
  }

  // The length an (n-v) field declares, in size_t arithmetic.
  function Declared(f: Field, uval: nat): nat {
    (uval + f.nMinus + 1) % TWO_64
  }

  // The name is a prefix of "Reserved": so it compares equal up to its own length.
  function WarningOf(f: Field, uval: nat, len: nat): Warning {
    if f.name <= "Reserved" && uval != 0 then NonZeroReserved
    else if f.nMinus != ABSENT && len != Declared(f, uval) then LengthMismatch
    else NoWarning
  }

  predicate Halted(s: State) {
    s.done || 8 * s.len <= s.bitpos
  }

  ghost predicate Sound(fmt: Format, buf: Data, s: State) {
    && s.at <= |fmt.fields| && s.len <= |buf|
    && (s.star.Some? ==> s.star.value <= |fmt.fields|)
  }

  // One iteration of the loop.
  ghost function Step(fmt: Format, buf: Data, s: State): (t: State)
    requires Sound(fmt, buf, s) && !Halted(s)
    ensures Sound(fmt, buf, t)
  {
    if s.at == |fmt.fields| then
      var star := if fmt.endStar then Some(s.at) else s.star;
      if star.Some? then s.(at := star.value, star := star) else s.(done := true)
    else
      var f := fmt.fields[s.at];
      Visit(buf, s.(at := s.at + 1, star := if f.starred then Some(s.at) else s.star), f)
  }

  ghost function Visit(buf: Data, s: State, f: Field): (t: State)
    requires s.len <= |buf| && !Halted(s)
    ensures t.at == s.at && t.star == s.star && t.len <= s.len && t.done == s.done
  {
    if Upper(f) then TakeBytes(s, f)
    else if Lower(f) then TakeBits(buf, s, f)
    else s
  }

  ghost function TakeBytes(s: State, f: Field): State
    requires !Halted(s)
  {
    var width, from := WidthOf(f, s.m), Align(s.bitpos);
    var to := from + 8 * Min(width, s.len - from / 8);
    s.(bitpos := to, log := s.log + [Entry(f, width, from, to, 0, NoWarning)])
  }

  ghost function TakeBits(buf: Data, s: State, f: Field): State
    requires s.len <= |buf| && !Halted(s)
  {
    var width := WidthOf(f, s.m);
    var n := Min(width, 8 * s.len - s.bitpos);
    var uval := Bits(buf, s.bitpos, n) % TWO_64;
    s.(bitpos := s.bitpos + n,
       len := if f.nMinus != ABSENT then Min(s.len, Declared(f, uval)) else s.len,
       m := if f.nMinus == ABSENT && f.mMinus != ABSENT then uval % TWO_32 else s.m,
       log := s.log + [Entry(f, width, s.bitpos, s.bitpos + n, uval, WarningOf(f, uval, s.len))])
  }

  function Start(buf: Data): State {
    State(0, None, 0, |buf|, 1, false, [])
  }

  // After n iterations, or where it halted before.
  ghost function Run(fmt: Format, buf: Data, n: nat): (s: State)
    ensures Sound(fmt, buf, s)
  {
    if n == 0 then Start(buf)
    else
      var s := Run(fmt, buf, n - 1);
      if Halted(s) then s else Step(fmt, buf, s)
  }

  ghost predicate Halts(fmt: Format, buf: Data) {
    exists n :: Halted(Run(fmt, buf, n))
  }

  // ----- Termination -----

  predicate Positive(f: Field) {
    (Upper(f) || Lower(f)) && f.width.Fixed? && f.width.width > 0
  }

  // Field g takes bits each time round: it lies in the last starred group, or there is no star at
  // all (then g may be the end of the format).
  predicate Progresses(fmt: Format, g: nat) {
    && !fmt.endStar && g <= |fmt.fields|
    && (forall i :: g < i < |fmt.fields| ==> !fmt.fields[i].starred)
    && if g == |fmt.fields| then forall i :: 0 <= i < g ==> !fmt.fields[i].starred else Positive(fmt.fields[g])
  }

  ghost predicate Productive(fmt: Format) {
    exists g :: Progresses(fmt, g)
  }

  // Iterations until field g is reached.
  function Distance(fmt: Format, s: State, g: nat): (d: nat)
    requires s.at <= |fmt.fields|
  {
    if s.done then 0
    else if s.at <= g then g - s.at + 1
    else |fmt.fields| - s.at + g + 2
  }

  ghost predicate Towards(fmt: Format, s: State, g: nat) {
    s.star.Some? ==> s.star.value <= g && s.star.value < |fmt.fields|
  }

  lemma StepDescends(fmt: Format, buf: Data, s: State, g: nat)
    requires Sound(fmt, buf, s) && !Halted(s) && Progresses(fmt, g) && Towards(fmt, s, g)
    requires g == |fmt.fields| ==> s.star.None?
    ensures var t := Step(fmt, buf, s);
      && Towards(fmt, t, g) && (g == |fmt.fields| ==> t.star.None?)
      && 8 * t.len - t.bitpos <= 8 * s.len - s.bitpos
      && (8 * t.len - t.bitpos < 8 * s.len - s.bitpos || Distance(fmt, t, g) < Distance(fmt, s, g))
  {
    hide Bits;
  }

  lemma {:induction false} RunStays(fmt: Format, buf: Data, n: nat, k: nat)
    requires Halted(Run(fmt, buf, n))
    ensures Run(fmt, buf, n + k) == Run(fmt, buf, n)
  {
    if k > 0 { RunStays(fmt, buf, n, k - 1); }
  }

  lemma {:induction false} HaltsFrom(fmt: Format, buf: Data, n: nat, g: nat)
    requires Progresses(fmt, g) && Towards(fmt, Run(fmt, buf, n), g)
    requires g == |fmt.fields| ==> Run(fmt, buf, n).star.None?
    ensures Halts(fmt, buf)
    decreases var s := Run(fmt, buf, n); if Halted(s) then 0 else 8 * s.len - s.bitpos,
              var s := Run(fmt, buf, n); Distance(fmt, s, g)
  {
    hide Step, Progresses, Towards, Distance;
    var s := Run(fmt, buf, n);
    if !Halted(s) {
      StepDescends(fmt, buf, s, g);
      assert Run(fmt, buf, n + 1) == Step(fmt, buf, s);
      if !Halted(Run(fmt, buf, n + 1)) { HaltsFrom(fmt, buf, n + 1, g); }
    }
  }

  // A format without stars, or with a letter field of a positive number of bits in its last
  // starred group, comes to an end on every buffer.
  lemma ProductiveHalts(fmt: Format, buf: Data)
    requires Productive(fmt)
    ensures Halts(fmt, buf)
  {
    hide Progresses;
    var g :| Progresses(fmt, g);
    assert Towards(fmt, Run(fmt, buf, 0), g);
    HaltsFrom(fmt, buf, 0, g);
  }

  // ----- The loop -----

  // The calls of the callback: a field of zero bytes is passed over silently.
  function Calls(log: seq<Entry>): (calls: seq<Entry>) {
    if log == [] then []
    else
      var e := log[|log| - 1];
      Calls(log[..|log| - 1]) + if Upper(e.field) && e.width == 0 then [] else [e]
  }

  lemma CallsAppend(log: seq<Entry>, e: Entry)
    ensures Calls(log + [e]) == Calls(log) + if Upper(e.field) && e.width == 0 then [] else [e]
  {
    assert (log + [e])[..|log|] == log;
  }

  // An uppercase field: the bytes from the next byte boundary on.
  method BytesField(f: Field, width: nat, bitpos: nat, len: nat, ghost s: State) returns (end: nat, entry: Entry)
    requires width == WidthOf(f, s.m) && bitpos == s.bitpos && len == s.len && !Halted(s)
    ensures TakeBytes(s, f) == s.(bitpos := end, log := s.log + [entry])
    ensures entry.field == f && entry.width == width
  {
    var from := (bitpos + 7) / 8 * 8;
    var lval := width;
    if from / 8 + lval > len { lval := len - from / 8; }
    end := from + lval * 8;
    entry := Entry(f, width, from, end, 0, NoWarning);
  }

  // A lowercase field: a number, the length or the multiple it may set, and the warning.
  method BitsField(buf: Data, f: Field, width: nat, bitpos: nat, len: nat, m: nat, ghost s: State)
    returns (end: nat, newLen: nat, newM: nat, entry: Entry)
    requires width == WidthOf(f, s.m) && bitpos == s.bitpos && len == s.len <= |buf| && m == s.m && !Halted(s)
    ensures TakeBits(buf, s, f) == s.(bitpos := end, len := newLen, m := newM, log := s.log + [entry])
    ensures entry.field == f
  {
    hide Bits;
    var loopw := width;
    if bitpos + loopw > len * 8 { loopw := len * 8 - bitpos; }
    var uval;
    uval, end := ReadBits(buf, bitpos, loopw);
    newLen, newM := len, m;
    var warning := NoWarning;
    if f.nMinus != ABSENT {
      var newlen := (uval + f.nMinus + 1) % TWO_64;
      warning := if len != newlen then LengthMismatch else NoWarning;
      if len > newlen { newLen := newlen; }
    } else if f.mMinus != ABSENT {
      newM := uval % TWO_32;
    }
    if f.name <= "Reserved" && uval != 0 { warning := NonZeroReserved; }
    entry := Entry(f, width, bitpos, end, uval, warning);
  }

  // The calls that a run which came to an end has made.
  ghost predicate EndsWith(fmt: Format, buf: Data, calls: seq<Entry>) {
    exists n :: Halted(Run(fmt, buf, n)) && calls == Calls(Run(fmt, buf, n).log)
  }

  // ScsiText, wherever it returns at all.
  method Text(fmt: Format, buf: Data) returns (calls: seq<Entry>)
    requires Halts(fmt, buf)
    ensures EndsWith(fmt, buf, calls)
  {
    hide TakeBits, TakeBytes, Calls, EndsWith;
    ghost var n: nat :| Halted(Run(fmt, buf, n));
    var p: nat, star: Option<nat>, bitpos: nat, len: nat, m: nat := 0, None, 0, |buf|, 1;
    calls := [];
    ghost var s, steps: nat := Start(buf), 0;
    NoCalls();
    while len * 8 > bitpos
      invariant steps <= n && s == Run(fmt, buf, steps) && s == State(p, star, bitpos, len, m, false, s.log)
      invariant Sound(fmt, buf, s)
      invariant calls == Calls(s.log)
      decreases n - steps
    {
      assert steps < n;
      if p == |fmt.fields| {
        if fmt.endStar { star := Some(p); }
        s, steps := Step(fmt, buf, s), steps + 1;
        if star.None? { break; }
        p := star.value;
      } else {
        var f := fmt.fields[p];
        if f.starred { star := Some(p); }
        p := p + 1;
        var width := if f.width.Multiple? then m else f.width.width;
        ghost var before := s.(at := p, star := star);
        s, steps := Step(fmt, buf, s), steps + 1;
        if 'A' <= f.kind <= 'Z' {
          var entry;
          bitpos, entry := BytesField(f, width, bitpos, len, before);
          CallsAppend(before.log, entry);
          if width != 0 { calls := calls + [entry]; }
        } else if 'a' <= f.kind <= 'z' {
          var entry;
          bitpos, len, m, entry := BitsField(buf, f, width, bitpos, len, m, before);
          CallsAppend(before.log, entry);
          calls := calls + [entry];
        }
      }
    }
    Ended(fmt, buf, steps, calls);
  }

  lemma Ended(fmt: Format, buf: Data, n: nat, calls: seq<Entry>)
    requires Halted(Run(fmt, buf, n)) && calls == Calls(Run(fmt, buf, n).log)
    ensures EndsWith(fmt, buf, calls)
  {
  }

  lemma NoCalls()
    ensures Calls([]) == []
  {
  }

  // The calls are those of the fields, one after another: one for each, but none for an uppercase
  // field of no bytes.
  lemma CallsOfOne(e: Entry)
    ensures Calls([e]) == if Upper(e.field) && e.width == 0 then [] else [e]
  {
    assert [e][..0] == [];
  }

  lemma {:induction false} CallsOfBoth(a: seq<Entry>, b: seq<Entry>)
    ensures Calls(a + b) == Calls(a) + Calls(b)
    decreases |b|
  {
    if b == [] {
      assert a + b == a;
    } else {
      var n := |b| - 1;
      assert a + b == (a + b[..n]) + [b[n]] && b == b[..n] + [b[n]];
      CallsOfBoth(a, b[..n]);
      CallsAppend(a + b[..n], b[n]);
    }
  }
}
