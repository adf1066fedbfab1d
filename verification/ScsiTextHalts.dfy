/**
 When the reader of SCSI data comes to an end: for every format and buffer, it goes on for ever
 exactly when one round from the last star to the end of the format changes nothing.
 */
module ScsiTextHalts {
  import opened BitFields
  import opened Bytes
  import opened ScsiText
  import opened ScsiTextRuns
  import opened Wrappers

  // ----- Runs that repeat -----

  // The states agree in everything the loop goes by.
  predicate Same(s: State, t: State) {
    s.(log := []) == t.(log := [])
  }

  lemma StepSame(fmt: Format, buf: Data, s: State, t: State)
    requires Sound(fmt, buf, s) && Sound(fmt, buf, t) && !Halted(s) && Same(s, t)
    ensures !Halted(t) && Same(Step(fmt, buf, s), Step(fmt, buf, t))
  {
    hide Bits;
  }

  lemma {:induction false} RunsAlike(fmt: Format, buf: Data, n: nat, k: nat, j: nat)
    requires Same(Run(fmt, buf, n), Run(fmt, buf, k))
    ensures Same(Run(fmt, buf, n + j), Run(fmt, buf, k + j))
  {
    hide Step, Same;
    if j > 0 {
      RunsAlike(fmt, buf, n, k, j - 1);
      var s, t := Run(fmt, buf, n + j - 1), Run(fmt, buf, k + j - 1);
      SameHalted(s, t);
      if !Halted(s) { StepSame(fmt, buf, s, t); }
    }
  }

  lemma SameHalted(s: State, t: State)
    requires Same(s, t)
    ensures Halted(s) <==> Halted(t)
  {
  }

  lemma {:induction false} NeverAgain(fmt: Format, buf: Data, n: nat, d: nat, c: nat)
    requires d > 0 && Same(Run(fmt, buf, n), Run(fmt, buf, n + d)) && !Halted(Run(fmt, buf, n))
    ensures !Halted(Run(fmt, buf, n + c))
    decreases c
  {
    hide Run, Same;
    if c >= d {
      RunsAlike(fmt, buf, n, n + d, c - d);
      SameHalted(Run(fmt, buf, n + c - d), Run(fmt, buf, n + d + (c - d)));
      NeverAgain(fmt, buf, n, d, c - d);
    } else if Halted(Run(fmt, buf, n + c)) {
      RunStays(fmt, buf, n + c, d - c);
      SameHalted(Run(fmt, buf, n), Run(fmt, buf, n + d));
    }
  }

  lemma RepeatingHangs(fmt: Format, buf: Data, n: nat, d: nat)
    requires d > 0 && Same(Run(fmt, buf, n), Run(fmt, buf, n + d)) && !Halted(Run(fmt, buf, n))
    ensures !Halts(fmt, buf)
  {
    hide Run, Same;
    forall k: nat ensures !Halted(Run(fmt, buf, k)) {
      if Halted(Run(fmt, buf, k)) {
        RunStays(fmt, buf, k, n);
        NeverAgain(fmt, buf, n, d, k);
        assert n + k == k + n;
      }
    }
  }

  // ----- Rounds -----

  // Iterations from one arrival at the end of the format to the next.
  function RoundLength(fmt: Format): (d: nat)
    ensures d > 0
  {
    if Loop(fmt).None? then |fmt.fields| + 1 else |fmt.fields| - Loop(fmt).value + 1
  }

  // When the end of the format is reached for the j-th time after the first.
  function EndAt(fmt: Format, j: nat): nat {
    if j == 0 then |fmt.fields| else EndAt(fmt, j - 1) + RoundLength(fmt)
  }

  lemma HaltedStays(fmt: Format, buf: Data, n: nat)
    ensures Halted(Run(fmt, buf, n)) ==> Halted(Run(fmt, buf, n + 1))
  {
  }

  lemma {:induction false} Earlier(fmt: Format, buf: Data, n: nat, k: nat)
    requires n <= k && !Halted(Run(fmt, buf, k))
    ensures !Halted(Run(fmt, buf, n))
  {
    if n < k {
      hide Step;
      HaltedStays(fmt, buf, k - 1);
      Earlier(fmt, buf, n, k - 1);
    }
  }

  lemma {:induction false} FirstRound(fmt: Format, buf: Data, i: nat)
    requires i <= |fmt.fields| && !Halted(Run(fmt, buf, i))
    ensures Run(fmt, buf, i).at == i && Run(fmt, buf, i).star == LastStar(fmt, i)
  {
    hide Visit;
    if i > 0 {
      Earlier(fmt, buf, i - 1, i);
      FirstRound(fmt, buf, i - 1);
    }
  }

  ghost predicate AtEndOf(fmt: Format, s: State) {
    s.at == |fmt.fields| && (fmt.endStar || s.star == Loop(fmt))
  }

  // i fields into a round that begins at the end of the format.
  lemma {:induction false} InRound(fmt: Format, buf: Data, n: nat, i: nat)
    requires Loop(fmt).Some? && AtEndOf(fmt, Run(fmt, buf, n)) && i <= |fmt.fields| - Loop(fmt).value
    requires !Halted(Run(fmt, buf, n + 1 + i))
    ensures Run(fmt, buf, n + 1 + i).at == Loop(fmt).value + i && Run(fmt, buf, n + 1 + i).star == Loop(fmt)
  {
    hide Visit, LastStar;
    Earlier(fmt, buf, n + i, n + 1 + i);
    if i > 0 {
      InRound(fmt, buf, n, i - 1);
      if i > 1 { NoLaterStar(fmt, Loop(fmt).value + i - 1); }
    }
  }

  lemma {:induction false} Ends(fmt: Format, buf: Data, j: nat)
    requires !Halted(Run(fmt, buf, EndAt(fmt, j)))
    ensures AtEndOf(fmt, Run(fmt, buf, EndAt(fmt, j)))
    ensures j > 0 ==> Loop(fmt).Some? && Run(fmt, buf, EndAt(fmt, j)).star == Loop(fmt)
  {
    hide Step;
    if j == 0 {
      FirstRound(fmt, buf, |fmt.fields|);
    } else {
      var n := EndAt(fmt, j - 1);
      Earlier(fmt, buf, n, EndAt(fmt, j));
      Ends(fmt, buf, j - 1);
      if Loop(fmt).None? {
        StarlessEnds(fmt, buf, n);
        Earlier(fmt, buf, n + 1, EndAt(fmt, j));
      } else {
        InRound(fmt, buf, n, |fmt.fields| - Loop(fmt).value);
      }
    }
  }

  lemma StarlessEnds(fmt: Format, buf: Data, n: nat)
    requires Loop(fmt).None? && AtEndOf(fmt, Run(fmt, buf, n))
    ensures Halted(Run(fmt, buf, n + 1))
  {
  }

  // ----- What a round changes -----

  lemma VisitMonotone(fmt: Format, buf: Data, s: State)
    requires Sound(fmt, buf, s) && !Halted(s)
    ensures Step(fmt, buf, s).bitpos >= s.bitpos && Step(fmt, buf, s).len <= s.len
  {
    hide Bits;
  }

  lemma {:induction false} Monotone(fmt: Format, buf: Data, n: nat, k: nat)
    requires n <= k
    ensures Run(fmt, buf, k).bitpos >= Run(fmt, buf, n).bitpos && Run(fmt, buf, k).len <= Run(fmt, buf, n).len
  {
    if n < k {
      hide Step;
      Monotone(fmt, buf, n, k - 1);
      if !Halted(Run(fmt, buf, k - 1)) { VisitMonotone(fmt, buf, Run(fmt, buf, k - 1)); }
    }
  }

  // The field sets what m stands for.
  predicate SetsMultiple(f: Field) {
    Lower(f) && f.nMinus == ABSENT && f.mMinus != ABSENT
  }

  predicate AnySets(fs: seq<Field>) {
    fs != [] && (AnySets(fs[..|fs| - 1]) || SetsMultiple(fs[|fs| - 1]))
  }

  // A field that takes no bits sets m to zero, if at all.
  lemma StillVisit(buf: Data, s: State, f: Field)
    requires s.len <= |buf| && !Halted(s) && Visit(buf, s, f).bitpos == s.bitpos
    ensures Visit(buf, s, f).m == if SetsMultiple(f) then 0 else s.m
  {
    if Lower(f) { NoBits(buf, s.bitpos); }
  }

  lemma AnySetsAppend(fs: seq<Field>, f: Field)
    ensures AnySets(fs + [f]) <==> AnySets(fs) || SetsMultiple(f)
  {
    assert (fs + [f])[..|fs|] == fs;
  }

  lemma StillStep(fmt: Format, buf: Data, s: State)
    requires Sound(fmt, buf, s) && !Halted(s)
    requires s.at < |fmt.fields| ==> Step(fmt, buf, s).bitpos == s.bitpos
    ensures Step(fmt, buf, s).m == if s.at < |fmt.fields| && SetsMultiple(fmt.fields[s.at]) then 0 else s.m
  {
    hide Visit, SetsMultiple;
    if s.at < |fmt.fields| {
      var f := fmt.fields[s.at];
      StillVisit(buf, s.(at := s.at + 1, star := if f.starred then Some(s.at) else s.star), f);
    }
  }

  lemma {:induction false} StillMultiple(fmt: Format, buf: Data, n: nat, i: nat)
    requires Loop(fmt).Some? && AtEndOf(fmt, Run(fmt, buf, n)) && i <= |fmt.fields| - Loop(fmt).value
    requires !Halted(Run(fmt, buf, n + 1 + i)) && Run(fmt, buf, n + 1 + i).bitpos == Run(fmt, buf, n).bitpos
    ensures Run(fmt, buf, n + 1 + i).m ==
      if AnySets(fmt.fields[Loop(fmt).value..Loop(fmt).value + i]) then 0 else Run(fmt, buf, n).m
  {
    hide Step, LastStar, SetsMultiple, AnySets;
    var l := Loop(fmt).value;
    Earlier(fmt, buf, n + i, n + 1 + i);
    if i == 0 {
      assert fmt.fields[l..l] == [];
      NothingSets();
      StillStep(fmt, buf, Run(fmt, buf, n));
    } else {
      Monotone(fmt, buf, n, n + i);
      Monotone(fmt, buf, n + i, n + 1 + i);
      InRound(fmt, buf, n, i - 1);
      StillMultiple(fmt, buf, n, i - 1);
      StillStep(fmt, buf, Run(fmt, buf, n + i));
      var f := fmt.fields[l + i - 1];
      assert fmt.fields[l..l + i] == fmt.fields[l..l + i - 1] + [f];
      AnySetsAppend(fmt.fields[l..l + i - 1], f);
    }
  }

  lemma NothingSets()
    ensures !AnySets([])
  {
  }

  // Round c changes neither the position, nor the length, nor what m stands for.
  ghost predicate StillRound(fmt: Format, buf: Data, c: nat) {
    var s, t := Run(fmt, buf, EndAt(fmt, c)), Run(fmt, buf, EndAt(fmt, c + 1));
    !Halted(s) && !Halted(t) && s.bitpos == t.bitpos && s.len == t.len && s.m == t.m
  }

  // A star at the very end of the format is gone back to at once.
  lemma EndStarRepeats(fmt: Format, buf: Data)
    requires fmt.endStar && !Halted(Run(fmt, buf, EndAt(fmt, 1)))
    ensures Same(Run(fmt, buf, EndAt(fmt, 1)), Run(fmt, buf, EndAt(fmt, 1) + 1))
  {
    Ends(fmt, buf, 1);
  }

  lemma StillRoundHangs(fmt: Format, buf: Data, c: nat)
    requires StillRound(fmt, buf, c)
    ensures !Halts(fmt, buf)
  {
    hide Run, Halts;
    Ends(fmt, buf, c);
    Ends(fmt, buf, c + 1);
    if c == 0 && fmt.endStar {
      EndStarRepeats(fmt, buf);
      RepeatingHangs(fmt, buf, EndAt(fmt, 1), 1);
    } else {
      NotDone(fmt, buf, EndAt(fmt, c));
      RepeatingHangs(fmt, buf, EndAt(fmt, c), RoundLength(fmt));
    }
  }

  lemma NotDone(fmt: Format, buf: Data, n: nat)
    ensures !Halted(Run(fmt, buf, n)) ==> !Run(fmt, buf, n).done
  {
  }

  // The data left at the end of round j.
  ghost function Left(fmt: Format, buf: Data, j: nat): int {
    8 * Run(fmt, buf, EndAt(fmt, j)).len - Run(fmt, buf, EndAt(fmt, j)).bitpos
  }

  lemma LeftShrinks(fmt: Format, buf: Data, j: nat)
    requires !Halted(Run(fmt, buf, EndAt(fmt, j + 1)))
    ensures 0 < Left(fmt, buf, j + 1) <= Left(fmt, buf, j) <= 8 * |buf|
    ensures Left(fmt, buf, j + 1) == Left(fmt, buf, j) ==>
      var s, t := Run(fmt, buf, EndAt(fmt, j)), Run(fmt, buf, EndAt(fmt, j + 1));
      s.bitpos == t.bitpos && s.len == t.len
  {
    hide Run;
    Monotone(fmt, buf, EndAt(fmt, j), EndAt(fmt, j + 1));
    SoundLength(fmt, buf, EndAt(fmt, j));
  }

  lemma SoundLength(fmt: Format, buf: Data, n: nat)
    ensures Run(fmt, buf, n).len <= |buf|
  {
  }

  // What m is after a round that took nothing.
  lemma MultipleAfterRound(fmt: Format, buf: Data, j: nat)
    requires !Halted(Run(fmt, buf, EndAt(fmt, j + 1))) && Left(fmt, buf, j + 1) == Left(fmt, buf, j)
    ensures Loop(fmt).Some?
    ensures Run(fmt, buf, EndAt(fmt, j + 1)).m ==
      if AnySets(fmt.fields[Loop(fmt).value..]) then 0 else Run(fmt, buf, EndAt(fmt, j)).m
  {
    hide Run, AnySets;
    Ends(fmt, buf, j + 1);
    Earlier(fmt, buf, EndAt(fmt, j), EndAt(fmt, j + 1));
    Ends(fmt, buf, j);
    LeftShrinks(fmt, buf, j);
    var l := Loop(fmt).value;
    assert fmt.fields[l..l + (|fmt.fields| - l)] == fmt.fields[l..];
    StillMultiple(fmt, buf, EndAt(fmt, j), |fmt.fields| - l);
  }

  lemma {:induction false} EndAtGrows(fmt: Format, i: nat, j: nat)
    requires i <= j
    ensures EndAt(fmt, i) <= EndAt(fmt, j)
  {
    if i < j { EndAtGrows(fmt, i, j - 1); }
  }

  // Of two rounds that take nothing in a row the second is still, and there cannot be more than
  // so many that take something.
  lemma {:induction false} FindStill(fmt: Format, buf: Data, j: nat, last: nat) returns (c: nat)
    requires !Halted(Run(fmt, buf, EndAt(fmt, last))) && j + 2 <= last && j + 2 * Left(fmt, buf, j) <= last
    ensures StillRound(fmt, buf, c)
    decreases last - j
  {
    hide Run, Left;
    EndAtGrows(fmt, j + 1, last);
    EndAtGrows(fmt, j + 2, last);
    Earlier(fmt, buf, EndAt(fmt, j + 1), EndAt(fmt, last));
    Earlier(fmt, buf, EndAt(fmt, j + 2), EndAt(fmt, last));
    LeftShrinks(fmt, buf, j);
    LeftShrinks(fmt, buf, j + 1);
    if Left(fmt, buf, j + 1) < Left(fmt, buf, j) {
      c := FindStill(fmt, buf, j + 1, last);
    } else if Left(fmt, buf, j + 2) < Left(fmt, buf, j + 1) {
      c := FindStill(fmt, buf, j + 2, last);
    } else {
      MultipleAfterRound(fmt, buf, j);
      MultipleAfterRound(fmt, buf, j + 1);
      c := j + 1;
    }
  }

  lemma {:induction false} EndAtIs(fmt: Format, j: nat)
    ensures EndAt(fmt, j) == |fmt.fields| + j * RoundLength(fmt)
  {
    if j > 0 {
      EndAtIs(fmt, j - 1);
      assert (j - 1) * RoundLength(fmt) + RoundLength(fmt) == j * RoundLength(fmt);
    }
  }

  // The iterations after which a reader that has not ended never will.
  function Bound(fmt: Format, buf: Data): int {
    |fmt.fields| + (16 * |buf| + 2) * RoundLength(fmt)
  }

  lemma BoundIsAnEnd(fmt: Format, buf: Data)
    ensures Bound(fmt, buf) == EndAt(fmt, 16 * |buf| + 2)
  {
    EndAtIs(fmt, 16 * |buf| + 2);
  }

  lemma HangsFromBound(fmt: Format, buf: Data) returns (c: nat)
    requires !Halted(Run(fmt, buf, EndAt(fmt, 16 * |buf| + 2)))
    ensures StillRound(fmt, buf, c)
  {
    hide Run;
    var last := 16 * |buf| + 2;
    EndAtGrows(fmt, 1, last);
    Earlier(fmt, buf, EndAt(fmt, 1), EndAt(fmt, last));
    LeftShrinks(fmt, buf, 0);
    c := FindStill(fmt, buf, 0, last);
  }

  // Every format on every buffer: the reader goes on for ever exactly when some round from the
  // last star to the end of the format takes no bits and changes neither the data length nor m.
  lemma HangsExactlyOnAStillRound(fmt: Format, buf: Data)
    ensures !Halts(fmt, buf) <==> exists c :: StillRound(fmt, buf, c)
  {
    hide Run, StillRound;
    if !Halts(fmt, buf) {
      var c := HangsFromBound(fmt, buf);
    }
    if c: nat :| StillRound(fmt, buf, c) { StillRoundHangs(fmt, buf, c); }
  }

  // And whether it ends is known after a number of iterations that the sizes of format and buffer
  // give.
  lemma HaltsWithinBound(fmt: Format, buf: Data)
    ensures Bound(fmt, buf) >= 0 && (Halts(fmt, buf) <==> Halted(Run(fmt, buf, Bound(fmt, buf))))
  {
    hide Run, StillRound, Bound;
    BoundIsAnEnd(fmt, buf);
    if !Halted(Run(fmt, buf, Bound(fmt, buf))) {
      var c := HangsFromBound(fmt, buf);
      StillRoundHangs(fmt, buf, c);
    }
  }
}
