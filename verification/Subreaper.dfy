/** The Linux subreaper boundary: a process-wide lock, a poison mark and a kernel flag,
    kept together while any step may fail.

    An ending says how one attempt to change the flag goes: refused by the kernel, done but
    not verified, interrupted before or after the change, or verified. */
module Subreaper {

  datatype Ending = Refused | Unverified | InterruptedBefore | InterruptedAfter | Verified

  /** The process: the kernel's flag, the module's lock and its poison mark. */
  datatype World = World(flag: bool, locked: bool, poisoned: bool)

  datatype Boundary = Boundary(prior: bool, changed: bool, settled: bool, active: bool)

  const UNUSED: Boundary := Boundary(false, false, false, false)

  /** How the steps of an open end; a false step raises. */
  datatype Attempt = Attempt(linux: bool, library: bool, query: bool, enable: Ending, children: bool, rollback: Ending)

  /** A call returns, raises, or waits for the lock. */
  datatype Result = Returned | Raised | Waiting

  datatype After = After(world: World, boundary: Boundary, result: Result)

  predicate Interrupted(e: Ending) { e == InterruptedBefore || e == InterruptedAfter }

  function FlagAfter(flag: bool, enabled: bool, e: Ending): bool {
    if e == Refused || e == InterruptedBefore then flag else enabled
  }

  /** The exception path of open: undo the flag change, then release the lock. An interrupt
      of the undo keeps the lock. */
  function Undo(w: World, b: Boundary, rollback: Ending): After {
    if !b.changed then After(w.(locked := false), b, Raised)
    else
      var flag := FlagAfter(w.flag, false, rollback);
      if Interrupted(rollback) then After(w.(flag := flag), b, Raised)
      else After(World(flag, false, w.poisoned || rollback != Verified), b, Raised)
  }

  function OpenStep(w: World, b: Boundary, a: Attempt): After {
    if !a.linux then After(w, b, Raised)
    else if w.locked then After(w, b, Waiting)
    else
      var held := w.(locked := true);
      if w.poisoned || !a.library || !a.query then Undo(held, b, a.rollback)
      else
        var bound := b.(prior := w.flag, changed := !w.flag);
        var marked := if bound.changed then held.(flag := FlagAfter(w.flag, true, a.enable)) else held;
        if (bound.changed && a.enable != Verified) || !a.children then Undo(marked, bound, a.rollback)
        else After(marked, bound.(active := true), Returned)
  }

  function CloseStep(w: World, b: Boundary, restore: Ending): After {
    if !b.active then After(w, b, Returned)
    else if !b.settled then After(w.(poisoned := true, locked := false), b.(active := false), Raised)
    else if !b.changed then After(w.(locked := false), b.(active := false), Returned)
    else
      var failed := restore == Refused || restore == Unverified;
      After(World(FlagAfter(w.flag, false, restore), false, w.poisoned || failed), b.(active := false),
            if restore == Verified then Returned else Raised)
  }

  /** One round of a settlement: some step raised, or what the round saw after its signals:
      whether the root is gone, whether a candidate still runs, whether one is left unreaped. */
  datatype Round = Fault | Seen(rootGone: bool, live: bool, left: bool)

  const DONE: Round := Seen(true, false, false)

  predicate Clean(r: Round) { r.Seen? && r.rootGone && !r.live && !r.left }

  /** The rounds of both grace periods, ended by the first that raises or finds nothing left. */
  predicate Settles(rounds: seq<Round>) {
    rounds != [] && !rounds[0].Fault? && (Clean(rounds[0]) || Settles(rounds[1..]))
  }

  /** Some round found nothing left, and none before it raised. */
  lemma {:induction false} SettlesMeans(rounds: seq<Round>)
    ensures Settles(rounds)
            <==> exists k :: 0 <= k < |rounds| && rounds[k] == DONE &&
                             forall i :: 0 <= i < k ==> !rounds[i].Fault?
  {
    if rounds != [] {
      SettlesMeans(rounds[1..]);
      if Settles(rounds[1..]) && !rounds[0].Fault? {
        var k :| 0 <= k < |rounds[1..]| && rounds[1..][k] == DONE &&
                 forall i :: 0 <= i < k ==> !rounds[1..][i].Fault?;
        assert rounds[k + 1] == DONE;
        forall i | 0 <= i < k + 1 ensures !rounds[i].Fault? {
          if i > 0 {
            assert rounds[i] == rounds[1..][i - 1];
          }
        }
      }
      if k :| 0 < k < |rounds| && rounds[k] == DONE && forall i :: 0 <= i < k ==> !rounds[i].Fault? {
        assert rounds[1..][k - 1] == DONE;
        assert forall i :: 0 <= i < k - 1 ==> rounds[1..][i] == rounds[i + 1];
      }
    }
  }

  function SettleStep(w: World, b: Boundary, rounds: seq<Round>): After {
    if Settles(rounds) then After(w, b.(settled := true), Returned) else After(w, b, Raised)
  }

  // ------------------------------------------------------------ the objects

  class Process {
    var flag: bool
    var locked: bool
    var poisoned: bool

    constructor (original: bool)
      ensures Model() == World(original, false, false)
    {
      flag, locked, poisoned := original, false, false;
    }

    ghost function Model(): World
      reads this
    {
      World(flag, locked, poisoned)
    }
  }

  class LinuxBoundary {
    var prior: bool
    var changed: bool
    var settled: bool
    var active: bool

    ghost function Model(): Boundary
      reads this
    {
      Boundary(prior, changed, settled, active)
    }

    constructor ()
      ensures Model() == UNUSED
    {
      prior, changed, settled, active := false, false, false, false;
    }

    method SetSubreaper(process: Process, enabled: bool, e: Ending)
      modifies process`flag
      ensures process.flag == FlagAfter(old(process.flag), enabled, e)
    {
      if e == Refused || e == InterruptedBefore {
        return;
      }
      process.flag := enabled;
    }

    method RollBack(process: Process, e: Ending)
      modifies process
      ensures After(process.Model(), Model(), Raised) == Undo(old(process.Model()), old(Model()), e)
    {
      if changed {
        SetSubreaper(process, false, e);
        if Interrupted(e) {
          return;
        }
        if e != Verified {
          process.poisoned := true;
        }
      }
      process.locked := false;
    }

    method Open(process: Process, a: Attempt) returns (result: Result)
      modifies this, process
      ensures After(process.Model(), Model(), result) == OpenStep(old(process.Model()), old(Model()), a)
    {
      if !a.linux {
        return Raised;
      }
      if process.locked {
        return Waiting;
      }
      process.locked := true;
      if process.poisoned || !a.library || !a.query {
        RollBack(process, a.rollback);
        return Raised;
      }
      prior := process.flag;
      changed := !prior;
      if changed {
        SetSubreaper(process, true, a.enable);
        if a.enable != Verified {
          RollBack(process, a.rollback);
          return Raised;
        }
      }
      if !a.children {
        RollBack(process, a.rollback);
        return Raised;
      }
      active := true;
      return Returned;
    }

    /** The rounds under the first signal, then those under the second. */
    method Settle(terminating: seq<Round>, killing: seq<Round>) returns (result: Result)
      modifies this
      ensures forall w: World :: After(w, Model(), result) == SettleStep(w, old(Model()), terminating + killing)
    {
      var rounds := terminating + killing;
      for i := 0 to |rounds|
        invariant Model() == old(Model()) && Settles(rounds) == Settles(rounds[i..])
      {
        assert rounds[i..][0] == rounds[i] && rounds[i..][1..] == rounds[i + 1..];
        if rounds[i].Fault? {
          return Raised;
        }
        if rounds[i].rootGone && !rounds[i].live && !rounds[i].left {
          settled := true;
          return Returned;
        }
      }
      return Raised;
    }

    method Close(process: Process, restore: Ending) returns (result: Result)
      modifies this, process
      ensures After(process.Model(), Model(), result) == CloseStep(old(process.Model()), old(Model()), restore)
    {
      if !active {
        return Returned;
      }
      result := Returned;
      if !settled {
        process.poisoned := true;
        result := Raised;
      } else if changed {
        SetSubreaper(process, false, restore);
        if restore == Refused || restore == Unverified {
          process.poisoned := true;
        }
        result := if restore == Verified then Returned else Raised;
      }
      active := false;
      process.locked := false;
    }
  }

  // ------------------------------------------------------------ runs

  /** Calls on numbered boundary objects; an object may be used again. */
  datatype Call =
    | Open(id: int, attempt: Attempt)
    | Settle(id: int, rounds: seq<Round>)
    | Close(id: int, restore: Ending)

  datatype State = State(world: World, boundaries: map<int, Boundary>)

  function Lookup(boundaries: map<int, Boundary>, id: int): Boundary {
    if id in boundaries then boundaries[id] else UNUSED
  }

  function Do(s: State, c: Call): After {
    var b := Lookup(s.boundaries, c.id);
    match c
    case Open(_, a) => OpenStep(s.world, b, a)
    case Settle(_, rounds) => SettleStep(s.world, b, rounds)
    case Close(_, restore) => CloseStep(s.world, b, restore)
  }

  function Next(s: State, c: Call): State {
    State(Do(s, c).world, s.boundaries[c.id := Do(s, c).boundary])
  }

  function Run(s: State, calls: seq<Call>): State {
    if calls == [] then s else Next(Run(s, calls[..|calls| - 1]), calls[|calls| - 1])
  }

  function Start(original: bool): State { State(World(original, false, false), map[]) }

  predicate IsOpen(s: State, id: int) { Lookup(s.boundaries, id).active }

  ghost predicate SomeOpen(s: State) { exists id :: IsOpen(s, id) }

  /** What holds of the process and one boundary object, whatever the others are. */
  predicate Agrees(original: bool, w: World, b: Boundary) {
    && (b.changed ==> !original)
    && (b.active ==> w.locked && b.changed == !original)
  }

  predicate Settled(original: bool, w: World) {
    && (!w.locked && !w.poisoned ==> w.flag == original)
    && (w.locked ==> !w.poisoned && w.flag)
  }

  /** The lock is held exactly while one boundary is open, and a free, unpoisoned process
      has its original flag. */
  ghost predicate Kept(original: bool, s: State) {
    && Settled(original, s.world)
    && (forall id :: Agrees(original, s.world, Lookup(s.boundaries, id)))
    && (forall a, b :: IsOpen(s, a) && IsOpen(s, b) ==> a == b)
    && (s.world.locked ==> SomeOpen(s))
  }

  /** The open that reaches its undo with a changed flag. */
  predicate UndoesFlag(w: World, b: Boundary, a: Attempt) {
    && a.linux && !w.locked
    && if w.poisoned || !a.library || !a.query then b.changed
       else !w.flag && (a.enable != Verified || !a.children)
  }

  /** The interrupts nothing recovers from. */
  predicate Escapes(s: State, c: Call) {
    var b := Lookup(s.boundaries, c.id);
    match c
    case Open(_, a) => UndoesFlag(s.world, b, a) && Interrupted(a.rollback)
    case Settle(_, _) => false
    case Close(_, restore) => b.active && b.settled && b.changed && restore == InterruptedBefore
  }

  /** The lock is only ever taken by a free process and released by the open boundary. */
  lemma LockMoves(original: bool, s: State, c: Call)
    requires Kept(original, s)
    ensures var r := Do(s, c);
            && (s.world.locked && !IsOpen(s, c.id) ==> r.world == s.world && !r.boundary.active)
            && (!s.world.locked ==> forall id :: !IsOpen(s, id))
            && (IsOpen(s, c.id) ==> r.boundary.active == r.world.locked)
  {
    assert Agrees(original, s.world, Lookup(s.boundaries, c.id));
    forall id | !s.world.locked ensures !IsOpen(s, id) {
      assert Agrees(original, s.world, Lookup(s.boundaries, id));
    }
  }

  /** A step keeps the protocol exactly when no interrupt escapes it. */
  lemma StepKeeps(original: bool, s: State, c: Call)
    requires Kept(original, s)
    ensures Kept(original, Next(s, c)) <==> !Escapes(s, c)
  {
    var t, r := Next(s, c), Do(s, c);
    LockMoves(original, s, c);
    assert Lookup(t.boundaries, c.id) == r.boundary;
    assert forall id :: id != c.id ==> Lookup(t.boundaries, id) == Lookup(s.boundaries, id);
    if Kept(original, t) {
      assert Agrees(original, t.world, Lookup(t.boundaries, c.id));
      if t.world.locked && !r.boundary.active {
        var id :| IsOpen(t, id);
        assert IsOpen(s, id) && Agrees(original, s.world, Lookup(s.boundaries, id));
      }
    }
    if !Escapes(s, c) {
      forall id ensures Agrees(original, t.world, Lookup(t.boundaries, id)) {
        assert Agrees(original, s.world, Lookup(s.boundaries, id));
        if id != c.id && IsOpen(s, id) {
          assert !IsOpen(s, c.id);
        }
      }
      OnlyOne(original, s, c);
      if t.world.locked {
        if r.boundary.active {
          assert IsOpen(t, c.id);
        } else {
          var id :| IsOpen(s, id);
          assert IsOpen(t, id);
        }
      }
    }
  }

  lemma OnlyOne(original: bool, s: State, c: Call)
    requires Kept(original, s)
    ensures forall a, b :: IsOpen(Next(s, c), a) && IsOpen(Next(s, c), b) ==> a == b
  {
    var t := Next(s, c);
    LockMoves(original, s, c);
    forall a, b | IsOpen(t, a) && IsOpen(t, b) ensures a == b {
      if a != c.id {
        assert IsOpen(s, a) && Agrees(original, s.world, Lookup(s.boundaries, a));
      }
      if b != c.id {
        assert IsOpen(s, b) && Agrees(original, s.world, Lookup(s.boundaries, b));
      }
    }
  }

  predicate NothingEscapes(s: State, calls: seq<Call>) {
    calls == []
    || (NothingEscapes(s, calls[..|calls| - 1]) && !Escapes(Run(s, calls[..|calls| - 1]), calls[|calls| - 1]))
  }

  /** A run keeps the protocol at every point exactly when no interrupt escapes it. */
  lemma {:induction false} RunKeepsExactly(original: bool, calls: seq<Call>)
    ensures NothingEscapes(Start(original), calls)
            <==> forall k :: 0 <= k <= |calls| ==> Kept(original, Run(Start(original), calls[..k]))
  {
    hide Kept, Escapes, Next;
    assert calls[..|calls|] == calls;
    if calls == [] {
      RunKeeps(original, []);
    } else {
      var n := |calls| - 1;
      RunKeepsExactly(original, calls[..n]);
      assert forall k :: 0 <= k <= n ==> calls[..n][..k] == calls[..k];
      var before := Run(Start(original), calls[..n]);
      assert Run(Start(original), calls) == Next(before, calls[n]);
      if NothingEscapes(Start(original), calls[..n]) {
        RunKeeps(original, calls[..n]);
        StepKeeps(original, before, calls[n]);
      }
    }
  }

  /** Over every run in which no interrupt escapes. */
  lemma {:induction false} RunKeeps(original: bool, calls: seq<Call>)
    requires NothingEscapes(Start(original), calls)
    ensures Kept(original, Run(Start(original), calls))
  {
    if calls != [] {
      RunKeeps(original, calls[..|calls| - 1]);
      StepKeeps(original, Run(Start(original), calls[..|calls| - 1]), calls[|calls| - 1]);
    }
  }

  /** In words: whenever the lock is free and nothing is poisoned, the flag is the original. */
  lemma FlagRestored(original: bool, calls: seq<Call>)
    requires NothingEscapes(Start(original), calls)
    ensures var s := Run(Start(original), calls);
            && (s.world.locked <==> SomeOpen(s))
            && (!s.world.locked && !s.world.poisoned ==> s.world.flag == original)
  {
    RunKeeps(original, calls);
    var s := Run(Start(original), calls);
    if SomeOpen(s) {
      var id :| IsOpen(s, id);
      assert Agrees(original, s.world, Lookup(s.boundaries, id));
    }
  }

  /** Poison is permanent, and no call returns an open boundary any more. */
  lemma {:induction false} PoisonIsPermanent(s: State, calls: seq<Call>)
    requires s.world.poisoned
    ensures Run(s, calls).world.poisoned
  {
    if calls != [] {
      PoisonIsPermanent(s, calls[..|calls| - 1]);
    }
  }

  /** After any poisoned point of any run, opening never succeeds; a new object leaves the
      process exactly as it was. */
  lemma PoisonedNeverOpens(s: State, calls: seq<Call>, id: int, a: Attempt)
    requires s.world.poisoned
    ensures var later := Run(s, calls);
            && Do(later, Open(id, a)).result != Returned
            && (id !in later.boundaries ==> Do(later, Open(id, a)).world == later.world)
  {
    PoisonIsPermanent(s, calls);
  }

  /** A poisoned process is only touched by reopening an object whose earlier open changed
      the flag. */
  lemma PoisonedTouch(w: World, b: Boundary, a: Attempt)
    requires w.poisoned
    ensures OpenStep(w, b, a).world != w
            <==> a.linux && !w.locked && b.changed
                 && (Interrupted(a.rollback) || FlagAfter(w.flag, false, a.rollback) != w.flag)
  {
  }

  const SMOOTH: Attempt := Attempt(true, true, true, Verified, true, Verified)

  /** Such a run: an open fails after it has changed the flag, its undo is refused, and opening
      the same object again on the poisoned process puts the flag back. */
  lemma PoisonedReopen()
    ensures var failing := Attempt(true, true, true, Verified, false, Refused);
            var s := Run(Start(false), [Open(1, failing)]);
            && s.world == World(true, false, true)
            && Do(s, Open(1, SMOOTH)).result == Raised && Do(s, Open(1, SMOOTH)).world == World(false, false, true)
  {
    var calls := [Open(1, Attempt(true, true, true, Verified, false, Refused))];
    assert calls[..0] == [];
    assert Run(Start(false), calls) == Next(Start(false), calls[0]);
  }

  /** An interrupt before the restoring call leaves a free, unpoisoned process with the
      wrong flag. */
  lemma InterruptedCloseForgets()
    ensures var s := Run(Start(false), [Open(1, SMOOTH), Settle(1, [DONE]), Close(1, InterruptedBefore)]);
            !s.world.locked && !s.world.poisoned && s.world.flag
  {
    var calls := [Open(1, SMOOTH), Settle(1, [DONE]), Close(1, InterruptedBefore)];
    assert calls[..2] == [Open(1, SMOOTH), Settle(1, [DONE])] && calls[..2][..1] == [Open(1, SMOOTH)];
    assert calls[..2][..1][..0] == [];
    var s1 := Next(Start(false), calls[0]);
    assert Run(Start(false), calls[..2][..1]) == s1;
    assert s1.world == World(true, true, false) && s1.boundaries[1] == Boundary(false, true, false, true);
    var s2 := Next(s1, calls[1]);
    assert Run(Start(false), calls[..2]) == s2;
    assert s2.world == s1.world && s2.boundaries[1] == Boundary(false, true, true, true);
    assert Run(Start(false), calls) == Next(s2, calls[2]);
  }

  /** An interrupt of the undo keeps the lock with no boundary open, and every later open
      waits. */
  lemma InterruptedUndoHoldsLock(b: Boundary, a: Attempt)
    ensures var failing := Attempt(true, true, true, Verified, false, InterruptedBefore);
            var r := OpenStep(World(false, false, false), UNUSED, failing);
            r.world.locked && !r.boundary.active && (a.linux ==> OpenStep(r.world, b, a).result == Waiting)
  {
  }

  // ------------------------------------------------------------ when nothing goes wrong

  /** An open succeeds exactly on a free, unpoisoned process when none of its steps fails; the flag
      is set only if it was not set, and what it was is remembered. */
  lemma OpensExactly(w: World, b: Boundary, a: Attempt)
    ensures var r := OpenStep(w, b, a);
            && (r.result == Returned <==>
                  && !w.locked && !w.poisoned
                  && a.linux && a.library && a.query && a.children && (w.flag || a.enable == Verified))
            && (r.result == Returned ==>
                  r.world == World(true, true, false) && r.boundary == Boundary(w.flag, !w.flag, b.settled, true))
            && (r.result == Waiting <==> a.linux && w.locked)
  {
  }

  /** A failed open on a free, unpoisoned process, by an object that has changed nothing, puts it
      back as it was, unless its undo goes wrong; then the process is poisoned, or an interrupt
      keeps the lock. */
  lemma FailedOpenUndoes(w: World, b: Boundary, a: Attempt)
    requires !w.locked && !w.poisoned && !b.changed && OpenStep(w, b, a).result == Raised
    ensures var r := OpenStep(w, b, a).world;
            && (!UndoesFlag(w, b, a) || a.rollback == Verified ==> r == w)
            && (UndoesFlag(w, b, a) && a.rollback != Verified ==> r.poisoned || r.locked)
  {
  }

  /** Where the whole use of a boundary leaves the process: open, settle in some round, close. */
  lemma UseRestores(original: bool, calls: seq<Call>, id: int, a: Attempt, rounds: seq<Round>)
    requires NothingEscapes(Start(original), calls) && id !in Run(Start(original), calls).boundaries
    requires !Run(Start(original), calls).world.locked && !Run(Start(original), calls).world.poisoned
    requires Do(Run(Start(original), calls), Open(id, a)).result == Returned
    requires rounds != [] && rounds[|rounds| - 1] == DONE && forall i :: 0 <= i < |rounds| ==> !rounds[i].Fault?
    ensures var s := Run(Start(original), calls);
            var open := Next(s, Open(id, a));
            var settled := Next(open, Settle(id, rounds));
            var closed := Do(settled, Close(id, Verified));
            && open.world == World(true, true, false)
            && settled.world == open.world
            && closed.result == Returned && closed.world == s.world == World(original, false, false)
  {
    var s := Run(Start(original), calls);
    RunKeeps(original, calls);
    OpensExactly(s.world, UNUSED, a);
    SettlesMeans(rounds);
    assert Settles(rounds) by {
      assert rounds[|rounds| - 1] == DONE;
    }
    hide OpenStep, Kept, Run, NothingEscapes, Settles;
    var open := Next(s, Open(id, a));
    assert Lookup(open.boundaries, id) == Boundary(s.world.flag, !s.world.flag, false, true);
    var settled := Next(open, Settle(id, rounds));
    assert Lookup(settled.boundaries, id).settled;
  }

  /** Closing without having settled releases the lock and poisons the process, whatever the flag. */
  lemma UnsettledClosePoisons(w: World, b: Boundary, restore: Ending)
    requires b.active
    ensures var r := CloseStep(w, b, restore);
            && !r.boundary.active && !r.world.locked
            && (!b.settled ==> r.result == Raised && r.world.poisoned && r.world.flag == w.flag)
            && (b.settled ==> (r.world.poisoned <==> w.poisoned || (b.changed && restore in {Refused, Unverified})))
            && (b.settled && b.changed ==> (r.result == Returned <==> restore == Verified))
            && (b.settled && !b.changed ==> r.result == Returned && r.world.flag == w.flag)
  {
  }
}
