/** The bridge stream: after one handshake the launcher reports data facts about the
    current bridge process and turnovers announcing the next one. The runner folds the
    stream into an epoch, cross-checked by a guard against the process table.

    A raw record is Unreadable when its bytes, keys, types or schema are wrong. What the
    process table says when it is asked is part of the stream item. */
module BridgeStream {
  import opened Counting

  const VERSION := 1

  datatype Identity = Identity(pid: int, start: string)

  datatype Raw =
    | Unreadable
    | DataFact(version: int, nonce: string, launcherPid: int, bridgePid: int, restartCount: int, sequence: int)
    | Turnover(version: int, nonce: string, launcherPid: int, retiredPid: int, retiredRestart: int,
               bridgePid: int, restartCount: int, sequence: int)

  datatype Observation = Observation(identity: Identity, alive: bool, bridgeRole: bool, provenLauncher: int)

  /** One stream record with the observer's answers while it is consumed; None is a failed
      observation. */
  datatype Item = Item(raw: Raw, bridge: Option<Observation>, owner: Option<Identity>)

  datatype Handshake = Handshake(inTime: bool, readable: bool, version: int, nonce: string, launcherPid: int,
                                 bridgePid: int, restartCount: int)

  datatype Epoch = Epoch(bridgePid: int, restartCount: int, sequence: int, identity: Identity,
                         dataSequence: int, dataIdentity: Option<Identity>)

  /** The guard's fields as a value. */
  datatype Guard = Guard(identity: Identity, restartCount: int, terminal: bool)

  // ---------------------------------------------------------------- specification

  predicate HandshakeOk(h: Handshake, nonce: string, launcherPid: int) {
    && h.inTime && h.readable && h.version == VERSION && h.nonce == nonce && |nonce| == 64
    && h.launcherPid == launcherPid && launcherPid > 0
    && h.bridgePid > 0 && h.bridgePid != launcherPid && h.restartCount == 1
  }

  predicate DataOk(r: Raw, nonce: string, launcherPid: int, e: Epoch) {
    && r.DataFact? && r.version == VERSION && r.nonce == nonce && r.launcherPid == launcherPid
    && r.bridgePid == e.bridgePid && r.restartCount == e.restartCount && r.sequence > e.sequence
  }

  predicate TurnoverOk(r: Raw, nonce: string, launcherPid: int, e: Epoch) {
    && r.Turnover? && r.version == VERSION && r.nonce == nonce && r.launcherPid == launcherPid
    && r.retiredPid == e.bridgePid && r.retiredRestart == e.restartCount
    && r.bridgePid > 0 && r.bridgePid != launcherPid
    && r.restartCount == e.restartCount + 1 && r.sequence > e.sequence
  }

  /** The observer positively proves that this process is the launcher's bridge. */
  predicate Bound(pid: int, launcherPid: int, o: Option<Observation>) {
    && o.Some? && o.value.alive && o.value.identity.pid == pid
    && o.value.provenLauncher == launcherPid && o.value.bridgeRole
  }

  function Observe(g: Guard, identity: Identity, restartCount: int): Guard {
    if g.terminal || identity != g.identity || restartCount != g.restartCount then g.(terminal := true) else g
  }

  function Advance(g: Guard, identity: Identity, restartCount: int, retired: int): Guard {
    if g.terminal || retired != g.restartCount || restartCount != g.restartCount + 1 || identity == g.identity
    then g.(terminal := true)
    else Guard(identity, restartCount, false)
  }

  /** The runner's state over the stream; refused means an exception ended it. */
  datatype Session = Session(epoch: Epoch, guard: Guard, restarts: nat, refused: bool)

  /** One record. The sampled restart counter moves only after the startup cut. */
  function Consume(s: Session, item: Item, nonce: string, launcherPid: int, counting: bool): Session {
    if s.refused then s
    else if TurnoverOk(item.raw, nonce, launcherPid, s.epoch)
      && Bound(item.raw.bridgePid, launcherPid, item.bridge) then
      var r, identity := item.raw, item.bridge.value.identity;
      var g := Advance(s.guard, identity, r.restartCount, r.retiredRestart);
      if g.terminal then s.(guard := g, refused := true) else
        Session(Epoch(r.bridgePid, r.restartCount, r.sequence, identity, s.epoch.dataSequence, s.epoch.dataIdentity),
                g, if counting && identity != s.epoch.identity then s.restarts + 1 else s.restarts, false)
    else if DataOk(item.raw, nonce, launcherPid, s.epoch) && item.owner.Some? then
      var g := Observe(s.guard, item.owner.value, item.raw.restartCount);
      if g.terminal then s.(guard := g, refused := true) else
        s.(epoch := s.epoch.(sequence := item.raw.sequence, dataSequence := item.raw.sequence,
                             dataIdentity := Some(s.epoch.identity)))
    else s.(refused := true)
  }

  function Opened(h: Handshake, o: Observation): Session {
    Session(Epoch(h.bridgePid, h.restartCount, 0, o.identity, 0, None),
            Guard(o.identity, h.restartCount, false), 0, false)
  }

  /** The session after a stream whose first cut records precede the startup cut. */
  function Run(start: Session, items: seq<Item>, cut: nat, nonce: string, launcherPid: int): Session {
    if items == [] then start else
      var n := |items| - 1;
      Consume(Run(start, items[..n], cut, nonce, launcherPid), items[n], nonce, launcherPid, n >= cut)
  }

  predicate Resumed(e: Epoch, afterSequence: int) {
    e.dataSequence > afterSequence && e.dataIdentity == Some(e.identity)
  }

  // ---------------------------------------------------------------- the program

  /** Terminal guard of process identity and restart count. */
  class BridgeEpochGuard {
    var identity: Identity
    var restartCount: int
    var terminal: bool

    function Model(): Guard
      reads this
    {
      Guard(identity, restartCount, terminal)
    }

    constructor (identity: Identity)
      ensures Model() == Guard(identity, 1, false)
    {
      this.identity, this.restartCount, this.terminal := identity, 1, false;
    }

    method ObserveIdentity(id: Identity, count: int) returns (raised: bool)
      modifies this
      ensures Model() == Observe(old(Model()), id, count) && raised == terminal
    {
      if terminal { return true; }
      if id != identity || count != restartCount {
        terminal := true;
        return true;
      }
      return false;
    }

    method AdvanceTo(id: Identity, count: int, retired: int) returns (raised: bool)
      modifies this
      ensures Model() == Advance(old(Model()), id, count, retired) && raised == terminal
    {
      if terminal { return true; }
      if retired != restartCount || count != restartCount + 1 || id == identity {
        terminal := true;
        return true;
      }
      identity, restartCount := id, count;
      return false;
    }
  }

  /** The runner's loop body: epoch and sampled counter are its locals, the guard an
      object it shares. */
  method ConsumeRecord(epoch: Epoch, restarts: nat, item: Item, nonce: string, launcherPid: int, counting: bool,
                       guard: BridgeEpochGuard)
    returns (raised: bool, epoch': Epoch, restarts': nat)
    modifies guard
    ensures Session(epoch', guard.Model(), restarts', raised) ==
            Consume(Session(epoch, old(guard.Model()), restarts, false), item, nonce, launcherPid, counting)
  {
    epoch', restarts' := epoch, restarts;
    var r := item.raw;
    if r.Turnover? {
      if !TurnoverOk(r, nonce, launcherPid, epoch) || !Bound(r.bridgePid, launcherPid, item.bridge) {
        return true, epoch, restarts;
      }
      var identity := item.bridge.value.identity;
      raised := guard.AdvanceTo(identity, r.restartCount, r.retiredRestart);
      if raised { return; }
      epoch' := Epoch(r.bridgePid, r.restartCount, r.sequence, identity, epoch.dataSequence, epoch.dataIdentity);
      if counting && epoch'.identity != epoch.identity {
        restarts' := restarts + 1;
      }
      return;
    }
    if !DataOk(r, nonce, launcherPid, epoch) || item.owner.None? {
      return true, epoch, restarts;
    }
    raised := guard.ObserveIdentity(item.owner.value, r.restartCount);
    if raised { return; }
    epoch' := epoch.(sequence := r.sequence, dataSequence := r.sequence, dataIdentity := Some(epoch.identity));
  }

  // ---------------------------------------------------------------- what streams keep

  function SequenceOf(r: Raw): int {
    match r
    case Unreadable => 0
    case DataFact(_, _, _, _, _, n) => n
    case Turnover(_, _, _, _, _, _, _, n) => n
  }

  /** Turnovers at or after a position. */
  function TurnoversFrom(items: seq<Item>, cut: nat): nat {
    if items == [] then 0 else
      var n := |items| - 1;
      TurnoversFrom(items[..n], cut) + if n >= cut && items[n].raw.Turnover? then 1 else 0
  }

  ghost predicate Starts(start: Session, h: Handshake, o: Observation, nonce: string, launcherPid: int) {
    HandshakeOk(h, nonce, launcherPid) && Bound(h.bridgePid, launcherPid, Some(o)) && start == Opened(h, o)
  }

  /** Every record is of one of the two kinds and the shared sequence strictly increases. */
  ghost predicate Sequenced(items: seq<Item>) {
    && (forall i :: 0 <= i < |items| ==> items[i].raw != Unreadable && SequenceOf(items[i].raw) > 0)
    && (forall i, j :: 0 <= i < j < |items| ==> SequenceOf(items[i].raw) < SequenceOf(items[j].raw))
  }

  ghost predicate EndsAt(items: seq<Item>, sequence: int) {
    if items == [] then sequence == 0 else sequence == SequenceOf(items[|items| - 1].raw)
  }

  /** The guard and the epoch are the same incarnation. */
  ghost predicate Agree(s: Session) {
    && s.guard == Guard(s.epoch.identity, s.epoch.restartCount, false)
    && s.epoch.identity.pid == s.epoch.bridgePid
  }

  lemma ConsumeAgrees(s: Session, item: Item, nonce: string, launcherPid: int, counting: bool)
    requires Agree(s) && !s.refused && !Consume(s, item, nonce, launcherPid, counting).refused
    ensures var t := Consume(s, item, nonce, launcherPid, counting);
            && Agree(t)
            && item.raw != Unreadable && SequenceOf(item.raw) > s.epoch.sequence
            && t.epoch.sequence == SequenceOf(item.raw)
            && t.epoch.restartCount == s.epoch.restartCount + (if item.raw.Turnover? then 1 else 0)
            && t.restarts == s.restarts + (if counting && item.raw.Turnover? then 1 else 0)
            && (item.raw.Turnover? ==>
                  item.bridge.Some? && t.epoch.identity == item.bridge.value.identity &&
                  t.epoch.dataSequence == s.epoch.dataSequence && t.epoch.dataIdentity == s.epoch.dataIdentity)
            && (!item.raw.Turnover? ==>
                  t.epoch.identity == s.epoch.identity &&
                  t.epoch.dataSequence == SequenceOf(item.raw) && t.epoch.dataIdentity == Some(s.epoch.identity))
  {
  }

  lemma SequencedAppend(items: seq<Item>, item: Item, last: int)
    requires Sequenced(items) && EndsAt(items, last) && item.raw != Unreadable && SequenceOf(item.raw) > last
    ensures Sequenced(items + [item]) && EndsAt(items + [item], SequenceOf(item.raw))
  {
    var more := items + [item];
    assert last >= 0;
    forall i | 0 <= i < |items| ensures SequenceOf(items[i].raw) <= last {
      assert i < |items| - 1 ==> SequenceOf(items[i].raw) < SequenceOf(items[|items| - 1].raw);
    }
    assert forall i :: 0 <= i < |items| ==> more[i] == items[i];
  }

  /** For every accepted stream: guard and epoch hold the same incarnation, the restart
      count is one more than the turnovers so far, the sampled counter is the turnovers
      since the startup cut, and the shared sequence strictly increases. */
  lemma {:induction false} StreamKeeps(start: Session, items: seq<Item>, cut: nat, h: Handshake, o: Observation,
                                       nonce: string, launcherPid: int)
    requires Starts(start, h, o, nonce, launcherPid)
    requires !Run(start, items, cut, nonce, launcherPid).refused
    ensures var s := Run(start, items, cut, nonce, launcherPid);
            && Agree(s)
            && s.epoch.restartCount == 1 + TurnoversFrom(items, 0)
            && s.restarts == TurnoversFrom(items, cut)
            && Sequenced(items) && EndsAt(items, s.epoch.sequence)
  {
    if items != [] {
      var n := |items| - 1;
      var s := RunStep(start, items, cut, nonce, launcherPid);
      TurnoversStep(items, 0);
      TurnoversStep(items, cut);
      assert items == items[..n] + [items[n]];
      hide *;
      StreamKeeps(start, items[..n], cut, h, o, nonce, launcherPid);
      ConsumeAgrees(s, items[n], nonce, launcherPid, n >= cut);
      SequencedAppend(items[..n], items[n], s.epoch.sequence);
    } else {
      StreamStarts(start, cut, h, o, nonce, launcherPid);
    }
  }

  lemma StreamStarts(start: Session, cut: nat, h: Handshake, o: Observation, nonce: string, launcherPid: int)
    requires Starts(start, h, o, nonce, launcherPid)
    ensures Run(start, [], cut, nonce, launcherPid) == start && Agree(start)
    ensures start.epoch.restartCount == 1 && start.restarts == 0 && start.epoch.sequence == 0
    ensures TurnoversFrom([], 0) == TurnoversFrom([], cut) == 0 && Sequenced([]) && EndsAt([], 0)
  {
  }

  lemma RunStep(start: Session, items: seq<Item>, cut: nat, nonce: string, launcherPid: int) returns (s: Session)
    requires items != []
    ensures var n := |items| - 1;
            && s == Run(start, items[..n], cut, nonce, launcherPid)
            && Run(start, items, cut, nonce, launcherPid) == Consume(s, items[n], nonce, launcherPid, n >= cut)
            && (s.refused ==> Run(start, items, cut, nonce, launcherPid).refused)
  {
    s := Run(start, items[..|items| - 1], cut, nonce, launcherPid);
  }

  lemma TurnoversStep(items: seq<Item>, cut: nat)
    requires items != []
    ensures var n := |items| - 1;
            TurnoversFrom(items, cut) ==
            TurnoversFrom(items[..n], cut) + if n >= cut && items[n].raw.Turnover? then 1 else 0
  {
  }

  // ---------------------------------------------------------------- data resumed

  /** The last data record. */
  function LastData(items: seq<Item>): (k: Option<nat>)
    ensures k.Some? ==> k.value < |items| && !items[k.value].raw.Turnover?
    ensures k.Some? ==> forall j :: k.value < j < |items| ==> items[j].raw.Turnover?
    ensures k.None? ==> forall j :: 0 <= j < |items| ==> items[j].raw.Turnover?
  {
    if items == [] then None
    else if !items[|items| - 1].raw.Turnover? then Some(|items| - 1)
    else LastData(items[..|items| - 1])
  }

  /** The bridge identity in force after the first k records: the one announced by the
      last turnover among them, or the handshake's. */
  function IdentityAt(start: Session, items: seq<Item>, k: nat): Identity
    requires k <= |items|
  {
    if k == 0 then start.epoch.identity
    else if items[k - 1].raw.Turnover? && items[k - 1].bridge.Some? then items[k - 1].bridge.value.identity
    else IdentityAt(start, items, k - 1)
  }

  lemma {:induction false} IdentityAtPrefix(start: Session, items: seq<Item>, n: nat, k: nat)
    requires k <= n <= |items|
    ensures IdentityAt(start, items[..n], k) == IdentityAt(start, items, k)
  {
    if k > 0 {
      IdentityAtPrefix(start, items, n, k - 1);
    }
  }

  ghost predicate DataTracked(start: Session, items: seq<Item>, e: Epoch) {
    match LastData(items)
    case None => e.dataIdentity.None?
    case Some(k) => e.dataSequence == SequenceOf(items[k].raw) && e.dataIdentity == Some(IdentityAt(start, items, k))
  }

  lemma {:induction false} StreamTracksData(start: Session, items: seq<Item>, cut: nat, h: Handshake, o: Observation,
                                            nonce: string, launcherPid: int)
    requires Starts(start, h, o, nonce, launcherPid)
    requires !Run(start, items, cut, nonce, launcherPid).refused
    ensures var e := Run(start, items, cut, nonce, launcherPid).epoch;
            e.identity == IdentityAt(start, items, |items|) && DataTracked(start, items, e)
  {
    if items != [] {
      var n := |items| - 1;
      StreamTracksData(start, items[..n], cut, h, o, nonce, launcherPid);
      StreamKeeps(start, items[..n], cut, h, o, nonce, launcherPid);
      ConsumeAgrees(Run(start, items[..n], cut, nonce, launcherPid), items[n], nonce, launcherPid, n >= cut);
      IdentityAtPrefix(start, items, n, n);
      if LastData(items[..n]).Some? {
        IdentityAtPrefix(start, items, n, LastData(items[..n]).value);
      }
    }
  }

  // ---------------------------------------------------------------- exactly the accepted streams

  /** Beyond every sequence number before it. */
  ghost predicate Later(items: seq<Item>, i: nat, sequence: int)
    requires i <= |items|
  {
    sequence > 0 && forall j :: 0 <= j < i ==> SequenceOf(items[j].raw) < sequence
  }

  /** A data record of the incarnation in force, whose process the process table shows. */
  ghost predicate ProperData(start: Session, items: seq<Item>, i: nat, nonce: string, launcherPid: int)
    requires i < |items| && items[i].raw.DataFact?
  {
    var r, now := items[i].raw, IdentityAt(start, items, i);
    && r.version == 1 && r.nonce == nonce && r.launcherPid == launcherPid
    && r.bridgePid == now.pid && items[i].owner == Some(now)
    && r.restartCount == 1 + TurnoversFrom(items[..i], 0)
    && Later(items, i, r.sequence)
  }

  /** A turnover from the incarnation in force to a new one that lives as the launcher's bridge. */
  ghost predicate ProperTurnover(start: Session, items: seq<Item>, i: nat, nonce: string, launcherPid: int)
    requires i < |items| && items[i].raw.Turnover?
  {
    var r, now, o := items[i].raw, IdentityAt(start, items, i), items[i].bridge;
    && r.version == 1 && r.nonce == nonce && r.launcherPid == launcherPid
    && r.retiredPid == now.pid && r.retiredRestart == 1 + TurnoversFrom(items[..i], 0)
    && r.restartCount == 2 + TurnoversFrom(items[..i], 0)
    && r.bridgePid > 0 && r.bridgePid != launcherPid
    && o.Some? && o.value.alive && o.value.bridgeRole && o.value.provenLauncher == launcherPid
    && o.value.identity.pid == r.bridgePid && o.value.identity != now
    && Later(items, i, r.sequence)
  }

  ghost predicate Proper(start: Session, items: seq<Item>, i: nat, nonce: string, launcherPid: int)
    requires i < |items|
  {
    && (items[i].raw.DataFact? || items[i].raw.Turnover?)
    && (items[i].raw.DataFact? ==> ProperData(start, items, i, nonce, launcherPid))
    && (items[i].raw.Turnover? ==> ProperTurnover(start, items, i, nonce, launcherPid))
  }

  lemma LaterMeans(items: seq<Item>, last: int, sequence: int)
    requires Sequenced(items) && EndsAt(items, last)
    ensures Later(items, |items|, sequence) <==> sequence > last
  {
    if items != [] && sequence > last {
      forall j | 0 <= j < |items| ensures SequenceOf(items[j].raw) < sequence {
        assert j < |items| - 1 ==> SequenceOf(items[j].raw) < SequenceOf(items[|items| - 1].raw);
      }
    }
  }

  /** One record more is consumed exactly when it is proper after those before it. */
  lemma ConsumesProper(start: Session, s: Session, items: seq<Item>, n: nat, nonce: string, launcherPid: int,
                       counting: bool)
    requires |items| == n + 1 && Agree(s) && !s.refused
    requires s.epoch.identity == IdentityAt(start, items, n) && s.epoch.restartCount == 1 + TurnoversFrom(items[..n], 0)
    requires forall sequence :: Later(items, n, sequence) <==> sequence > s.epoch.sequence
    ensures !Consume(s, items[n], nonce, launcherPid, counting).refused <==> Proper(start, items, n, nonce, launcherPid)
  {
    hide IdentityAt, TurnoversFrom, Later;
  }

  lemma ProperPrefix(start: Session, items: seq<Item>, n: nat, i: nat, nonce: string, launcherPid: int)
    requires i < n <= |items|
    ensures Proper(start, items[..n], i, nonce, launcherPid) <==> Proper(start, items, i, nonce, launcherPid)
  {
    IdentityAtPrefix(start, items, n, i);
    hide IdentityAt, TurnoversFrom;
    assert items[..n][..i] == items[..i];
    forall sequence ensures Later(items[..n], i, sequence) <==> Later(items, i, sequence) {
      assert forall j :: 0 <= j < i ==> items[..n][j] == items[j];
    }
  }

  lemma {:induction false} RefusedStays(start: Session, items: seq<Item>, cut: nat, nonce: string, launcherPid: int)
    requires items != [] && Run(start, items[..|items| - 1], cut, nonce, launcherPid).refused
    ensures Run(start, items, cut, nonce, launcherPid).refused
  {
  }

  /** The last record, when those before it were accepted. */
  lemma LastProper(start: Session, items: seq<Item>, cut: nat, h: Handshake, o: Observation, nonce: string,
                   launcherPid: int)
    requires Starts(start, h, o, nonce, launcherPid) && items != []
    requires !Run(start, items[..|items| - 1], cut, nonce, launcherPid).refused
    ensures !Run(start, items, cut, nonce, launcherPid).refused
            <==> Proper(start, items, |items| - 1, nonce, launcherPid)
  {
    var n := |items| - 1;
    var before := items[..n];
    var s := Run(start, before, cut, nonce, launcherPid);
    StreamKeeps(start, before, cut, h, o, nonce, launcherPid);
    StreamTracksData(start, before, cut, h, o, nonce, launcherPid);
    IdentityAtPrefix(start, items, n, n);
    forall sequence ensures Later(items, n, sequence) <==> sequence > s.epoch.sequence {
      LaterMeans(before, s.epoch.sequence, sequence);
      assert forall j :: 0 <= j < n ==> before[j] == items[j];
    }
    hide Consume, Later, Proper, Agree, Sequenced, EndsAt, IdentityAt, DataTracked;
    ConsumesProper(start, s, items, n, nonce, launcherPid, n >= cut);
  }

  /** A stream is accepted exactly when every record in it is proper: data only from the incarnation
      in force, and turnovers only from it to another. */
  lemma {:induction false} AcceptedStreams(start: Session, items: seq<Item>, cut: nat, h: Handshake, o: Observation,
                                           nonce: string, launcherPid: int)
    requires Starts(start, h, o, nonce, launcherPid)
    ensures !Run(start, items, cut, nonce, launcherPid).refused
            <==> forall i :: 0 <= i < |items| ==> Proper(start, items, i, nonce, launcherPid)
  {
    hide Proper, Run, Starts;
    if items == [] {
      Unstarted(start, cut, h, o, nonce, launcherPid);
    } else {
      var n := |items| - 1;
      AcceptedStreams(start, items[..n], cut, h, o, nonce, launcherPid);
      forall i | 0 <= i < n
        ensures Proper(start, items[..n], i, nonce, launcherPid) <==> Proper(start, items, i, nonce, launcherPid)
      {
        ProperPrefix(start, items, n, i, nonce, launcherPid);
      }
      if Run(start, items[..n], cut, nonce, launcherPid).refused {
        RefusedStays(start, items, cut, nonce, launcherPid);
      } else {
        LastProper(start, items, cut, h, o, nonce, launcherPid);
      }
    }
  }

  lemma Unstarted(start: Session, cut: nat, h: Handshake, o: Observation, nonce: string, launcherPid: int)
    requires Starts(start, h, o, nonce, launcherPid)
    ensures !Run(start, [], cut, nonce, launcherPid).refused
  {
  }

  /** "Data resumed" after a marker says exactly this: the last data record lies beyond
      the marker, and the identity that emitted it is the one in force now. */
  lemma ResumedMeans(start: Session, items: seq<Item>, cut: nat, h: Handshake, o: Observation,
                     nonce: string, launcherPid: int, marker: int)
    requires Starts(start, h, o, nonce, launcherPid)
    requires !Run(start, items, cut, nonce, launcherPid).refused
    ensures Resumed(Run(start, items, cut, nonce, launcherPid).epoch, marker) <==>
            var k := LastData(items);
            k.Some? && SequenceOf(items[k.value].raw) > marker &&
            IdentityAt(start, items, k.value) == IdentityAt(start, items, |items|)
  {
    StreamTracksData(start, items, cut, h, o, nonce, launcherPid);
  }

  /** Start identities never recur: no turnover announces an identity in force before it. */
  ghost predicate NeverRecurs(start: Session, items: seq<Item>) {
    forall i, j :: 0 <= i < j <= |items| && items[j - 1].raw.Turnover? ==>
      IdentityAt(start, items, i) != IdentityAt(start, items, j)
  }

  lemma {:induction false} IdentityHolds(start: Session, items: seq<Item>, i: nat, j: nat)
    requires i <= j <= |items| && forall m :: i <= m < j ==> !items[m].raw.Turnover?
    ensures IdentityAt(start, items, i) == IdentityAt(start, items, j)
  {
    if i < j {
      IdentityHolds(start, items, i, j - 1);
    }
  }

  lemma {:induction false} LastTurnover(items: seq<Item>, i: nat, j: nat) returns (m: nat)
    requires i < j <= |items| && exists t :: i <= t < j && items[t].raw.Turnover?
    ensures i <= m < j && items[m].raw.Turnover? && forall t :: m < t < j ==> !items[t].raw.Turnover?
  {
    if items[j - 1].raw.Turnover? {
      m := j - 1;
    } else {
      m := LastTurnover(items, i, j - 1);
    }
  }

  /** When identities never recur, data has resumed exactly when some data record beyond
      the marker came after the last turnover. */
  lemma ResumedAfterLastTurnover(start: Session, items: seq<Item>, cut: nat, h: Handshake,
                                 o: Observation, nonce: string, launcherPid: int, marker: int)
    requires Starts(start, h, o, nonce, launcherPid)
    requires !Run(start, items, cut, nonce, launcherPid).refused && NeverRecurs(start, items)
    ensures Resumed(Run(start, items, cut, nonce, launcherPid).epoch, marker) <==>
            exists k :: 0 <= k < |items| && !items[k].raw.Turnover? && SequenceOf(items[k].raw) > marker &&
                        forall m :: k < m < |items| ==> !items[m].raw.Turnover?
  {
    ResumedMeans(start, items, cut, h, o, nonce, launcherPid, marker);
    StreamKeeps(start, items, cut, h, o, nonce, launcherPid);
    var last := LastData(items);
    if last.Some? {
      var k := last.value;
      if exists m :: k <= m < |items| && items[m].raw.Turnover? {
        var m := LastTurnover(items, k, |items|);
        IdentityHolds(start, items, m + 1, |items|);
        assert items[m + 1 - 1].raw.Turnover?;
      } else {
        IdentityHolds(start, items, k, |items|);
      }
      if j :| 0 <= j < |items| && !items[j].raw.Turnover? && SequenceOf(items[j].raw) > marker &&
              forall m :: j < m < |items| ==> !items[m].raw.Turnover?
      {
        assert j <= k;
        assert j < k ==> SequenceOf(items[j].raw) < SequenceOf(items[k].raw);
      }
    }
  }

  /** Without that condition the test can be fooled: a stream that returns to an earlier
      identity counts its old data as resumed although nothing followed the turnovers. */
  lemma RecurrenceMisleads() returns (start: Session, items: seq<Item>, nonce: string)
    ensures Starts(start, Handshake(true, true, 1, nonce, 10, 20, 1), Observation(start.epoch.identity, true, true, 10),
                   nonce, 10)
    ensures !Run(start, items, 0, nonce, 10).refused && Resumed(Run(start, items, 0, nonce, 10).epoch, 0)
    ensures |items| == 3 && items[1].raw.Turnover? && items[2].raw.Turnover?
  {
    var a, b := Identity(20, "a"), Identity(21, "b");
    nonce := seq(64, _ => '0');
    start := Session(Epoch(20, 1, 0, a, 0, None), Guard(a, 1, false), 0, false);
    var data := Item(DataFact(1, nonce, 10, 20, 1, 1), None, Some(a));
    var away := Item(Turnover(1, nonce, 10, 20, 1, 21, 2, 2), Some(Observation(b, true, true, 10)), None);
    var back := Item(Turnover(1, nonce, 10, 21, 2, 20, 3, 3), Some(Observation(a, true, true, 10)), None);
    RunMore(start, [], data, nonce, 10);
    RunMore(start, [data], away, nonce, 10);
    RunMore(start, [data, away], back, nonce, 10);
    assert [] + [data] == [data] && [data] + [away] == [data, away] && [data, away] + [back] == [data, away, back];
    items := [data, away, back];
  }

  lemma RunMore(start: Session, items: seq<Item>, item: Item, nonce: string, launcherPid: int)
    ensures Run(start, items + [item], 0, nonce, launcherPid) ==
            Consume(Run(start, items, 0, nonce, launcherPid), item, nonce, launcherPid, true)
  {
    assert (items + [item])[..|items|] == items;
  }
}
