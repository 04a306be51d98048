/**
 * The code of one allocator client, `pkg/tddl/tddl.go`, as loops over its fields.
 *
 * The other goroutines and processes are the schedule that is handed in: between any two
 * database accesses it lets them take any number of steps.  Each method's contract gives the
 * state that the code brings about on a schedule, and each such state is the end of a run of
 * the protocol in `Allocator`, so the theorems about runs hold of the code.
 */
module Tddl {
  import opened Wrappers
  import opened Allocator
  import opened AllocatorTheorems
  import opened Schedules

  /** The sequences table, with everybody who uses it. */
  class Database {
    var state: State

    ghost predicate Valid()
      reads this
    {
      Inv(state)
    }

    constructor ()
      ensures Valid() && state == Init
    {
      state := Init;
    }

    method Happen(e: Event)
      requires Valid()
      modifies this
      ensures Valid() && state == Apply(old(state), e)
    {
      ApplyKeepsInv(state, e);
      state := Apply(state, e);
    }

    method HappenAll(es: seq<Event>)
      requires Valid()
      modifies this
      ensures Valid() && state == After(old(state), es)
    {
      var i := 0;
      while i < |es|
        invariant 0 <= i <= |es|
        invariant Valid() && state == After(old(state), es[..i])
      {
        assert es[..i + 1][..i] == es[..i];
        Happen(es[i]);
        i := i + 1;
      }
      assert es[..|es|] == es;
    }
  }

  class TddlSequence {
    const id: Id
    const step: nat
    const conn: Database
    var curr: nat
    var max: nat
    var stopped: bool

    function Record(): Client
      reads this, conn
      requires id in conn.state.clients
    {
      conn.state.clients[id]
    }

    /** The fields are what the protocol has on record for this client. */
    ghost predicate Valid()
      reads this, conn
    {
      && conn.Valid()
      && id in conn.state.clients
      && Record().step == step && Record().curr == curr && Record().max == max && Record().stopped == stopped
    }

    /**
     * newSequence: a step below 1 is refused before anything happens; otherwise looks up
     * the row, and fails with that, or claims a first block.
     */
    static method New(conn: Database, id: Id, step: nat, start: nat, o: Opening) returns (r: Option<TddlSequence>)
      requires conn.Valid() && id !in conn.state.clients
      requires AllForeign(id, o.between) && TurnsOk(id, o.turns)
      modifies conn
      ensures conn.Valid()
      ensures conn.state == if step < 1 then old(conn.state) else AfterOpening(old(conn.state), id, step, start, o)
      ensures r.None? <==> step < 1 || (id in conn.state.clients && conn.state.clients[id].phase.Refused?)
      ensures r.Some? ==>
                && fresh(r.value) && r.value.conn == conn && r.value.id == id && r.value.Valid()
                && (r.value.Record().phase.Offering? || (r.value.Record().phase.Reading? && r.value.max == 0))
      ensures step >= 1 && Undisturbed(old(conn.state), step, start, o) ==>
                && r.Some? && r.value.Record().phase.Offering?
                && r.value.curr == (if old(conn.state.row).Some? then old(conn.state.row).value.sequence else start)
                && r.value.max == r.value.curr + step
                && conn.state.blocks == old(conn.state.blocks) + [Block(r.value.curr, r.value.max, id, false)]
    {
      if step < 1 { return None; }
      if Undisturbed(conn.state, step, start, o) { OpeningClaims(conn.state, id, step, start, o); }
      r := Open(conn, id, step, start, o);
    }

    /** newSequence for a step that is accepted. */
    static method Open(conn: Database, id: Id, step: nat, start: nat, o: Opening) returns (r: Option<TddlSequence>)
      requires conn.Valid() && id !in conn.state.clients && step >= 1
      requires AllForeign(id, o.between) && TurnsOk(id, o.turns)
      modifies conn
      ensures conn.Valid() && conn.state == AfterOpening(old(conn.state), id, step, start, o) && id in conn.state.clients
      ensures r.None? <==> conn.state.clients[id].phase.Refused?
      ensures r.Some? ==>
                && fresh(r.value) && r.value.conn == conn && r.value.id == id && r.value.Valid()
                && (r.value.Record().phase.Offering? || (r.value.Record().phase.Reading? && r.value.max == 0))
    {
      var s := new TddlSequence(conn, id, step, start);
      var ok := s.GetRowID(o);
      if !ok { return None; }
      ghost var was := s.Record();
      var rest;
      ok, rest := s.Renew(o.turns);
      assert ClientOk(conn.state, id, s.Record());
      assert !ok ==> s.Record() == was.(stopped := s.stopped) && rest == [];
      return Some(s);
    }

    constructor (conn: Database, id: Id, step: nat, start: nat)
      requires conn.Valid() && id !in conn.state.clients && step >= 1
      modifies conn
      ensures this.conn == conn && this.id == id && Valid() && Record().phase.LookingUp?
      ensures conn.state == Apply(old(conn.state), Join(id, step, start))
    {
      this.conn, this.id, this.step := conn, id, step;
      curr, max, stopped := 0, 0, false;
      new;
      conn.Happen(Join(id, step, start));
    }

    /** Others take steps; of this client only the stop channel can change. */
    method Others(es: seq<Event>)
      requires Valid() && AllForeign(id, es)
      modifies this`stopped, conn
      ensures Valid() && conn.state == After(old(conn.state), es)
      ensures Record() == old(Record()).(stopped := stopped)
    {
      ForeignFrame(conn.state, id, es);
      conn.HappenAll(es);
      stopped := conn.state.clients[id].stopped;
    }

    /** getRowID: looks the row up and creates it if there is none. */
    method GetRowID(o: Opening) returns (ok: bool)
      requires Valid() && Record().phase.LookingUp? && AllForeign(id, o.between)
      modifies this`stopped, conn
      ensures Valid() && conn.state == AfterLookup(old(conn.state), id, o)
      ensures ok ==> conn.state.row.Some? && Record().phase.Reading? && !Record().Launched()
      ensures !ok ==> (o.lookupFails || old(conn.state.row).None?) && Record().phase.Refused?
    {
      assert ClientOk(conn.state, id, Record());
      if o.lookupFails {
        conn.Happen(LookupFails(id));
        return false;
      }
      conn.Happen(FindRow(id));
      if conn.state.row.Some? {
        return true;
      }
      Others(o.between);
      ok := CreateRecord(o.reply);
    }

    /** createRecord: fails if somebody else has created the row meanwhile. */
    method CreateRecord(reply: Reply) returns (ok: bool)
      requires Valid() && Record().phase.Creating?
      modifies conn
      ensures Valid() && conn.state == Apply(old(conn.state), CreateEvent(id, reply))
      ensures ok <==> old(conn.state.row.None? && Record().start < COLUMN_LIMIT) && reply.Replied?
      ensures ok ==> conn.state.row == Some(Row(old(Record().start), 1)) && Record().phase.Reading? && !Record().Launched()
      ensures !ok ==> Record().phase.Refused?
    {
      ok := conn.state.row.None? && Record().start < COLUMN_LIMIT && reply.Replied?;
      assert ClientOk(conn.state, id, Record());
      conn.Happen(CreateEvent(id, reply));
    }

    /** Reads the row. */
    method Take() returns (seen: Row)
      requires Valid() && Record().phase.Reading? && !stopped
      modifies conn
      ensures Valid() && conn.state == Apply(old(conn.state), ReadRow(id))
      ensures conn.state.row == Some(seen) && Record() == old(Record()).(phase := Updating(seen))
    {
      assert ClientOk(conn.state, id, Record());
      seen := conn.state.row.value;
      conn.Happen(ReadRow(id));
    }

    /** Writes the row back if its version is still the one that was read. */
    method Update(seen: Row, reply: Reply) returns (ok: bool)
      requires Valid() && Record().phase == Updating(seen)
      modifies this`curr, this`max, conn
      ensures Valid() && conn.state == Apply(old(conn.state), ReplyEvent(id, reply))
      ensures ok <==> old(CasSucceeds(conn.state.row, seen, step)) && reply.Replied?
      ensures ok ==> && old(max) <= curr && max == curr + step
                     && Record() == old(Record()).(curr := curr, max := max, phase := Offering)
      ensures !ok ==> Record() == old(Record()).(phase := Reading)
    {
      ok := CasSucceeds(conn.state.row, seen, step) && reply.Replied?;
      var e := ReplyEvent(id, reply);
      if ok { UpdateOffers(conn.state, id); } else { UpdateIsRetried(conn.state, id, e); }
      conn.Happen(e);
      if ok {
        var written := seen.sequence + step;
        curr := written - step;
        max := written;
      }
    }

    /** One turn of the loop in renew: heeds the stop signal, reads the row, tries to move it on. */
    method Attempt(turn: Turn) returns (ok: bool)
      requires Valid() && Record().phase.Reading? && AllForeign(id, turn.before) && AllForeign(id, turn.between)
      modifies this, conn
      ensures Valid() && conn.state == AfterTurn(old(conn.state), id, turn)
      ensures ok ==> && old(max) <= curr && max == curr + step
                     && Record() == old(Record()).(curr := curr, max := max, phase := Offering, stopped := stopped)
      ensures !ok ==> Record() == old(Record()).(stopped := stopped)
    {
      Others(turn.before);
      if stopped || turn.readFails {
        return false;
      }
      ok := ReadAndUpdate(turn);
    }

    method ReadAndUpdate(turn: Turn) returns (ok: bool)
      requires Valid() && Record().phase.Reading? && !stopped && AllForeign(id, turn.between)
      modifies this, conn
      ensures Valid()
      ensures conn.state == Apply(After(Apply(old(conn.state), ReadRow(id)), turn.between), ReplyEvent(id, turn.reply))
      ensures ok ==> && old(max) <= curr && max == curr + step
                     && Record() == old(Record()).(curr := curr, max := max, phase := Offering, stopped := stopped)
      ensures !ok ==> Record() == old(Record()).(stopped := stopped)
    {
      var seen := Take();
      ok := UpdateLater(turn.between, seen, turn.reply);
    }

    method UpdateLater(between: seq<Event>, seen: Row, reply: Reply) returns (ok: bool)
      requires Valid() && Record().phase == Updating(seen) && AllForeign(id, between)
      modifies this, conn
      ensures Valid() && conn.state == Apply(After(old(conn.state), between), ReplyEvent(id, reply))
      ensures ok ==> && old(max) <= curr && max == curr + step
                     && Record() == old(Record()).(curr := curr, max := max, phase := Offering, stopped := stopped)
      ensures !ok ==> Record() == old(Record()).(phase := Reading, stopped := stopped)
    {
      Others(between);
      ok := Update(seen, reply);
    }

    /**
     * renew: retries until an update succeeds, and returns early on the stop signal.
     * `rest` is what is left of the schedule; what has happened, and what the rest would
     * bring about, is what the whole schedule brings about.  The fields change only on success.
     */
    method Renew(turns: seq<Turn>) returns (ok: bool, rest: seq<Turn>)
      requires Valid() && Record().phase.Reading? && TurnsOk(id, turns)
      modifies this, conn
      ensures Valid() && AfterTurns(conn.state, id, rest) == AfterTurns(old(conn.state), id, turns)
      ensures ok ==> && old(max) <= curr && max == curr + step
                     && Record() == old(Record()).(curr := curr, max := max, phase := Offering, stopped := stopped)
      ensures !ok ==> Record() == old(Record()).(stopped := stopped) && (stopped || rest == [])
      ensures ok ==> exists k: nat | k < |turns| :: WinsInTurn(old(conn.state), id, turns, k)
      ensures !ok && !stopped ==> forall k: nat | k < |turns| :: !WinsInTurn(old(conn.state), id, turns, k)
      ensures TurnsOk(id, rest) && |rest| <= |turns| && (turns != [] ==> |rest| < |turns|)
    {
      ok, rest := false, turns;
      while !ok && rest != []
        invariant Valid() && AfterTurns(conn.state, id, rest) == AfterTurns(old(conn.state), id, turns)
        invariant TurnsOk(id, rest) && |rest| <= |turns|
        invariant ok ==> |rest| < |turns|
        invariant ok ==> && old(max) <= curr && max == curr + step
                         && Record() == old(Record()).(curr := curr, max := max, phase := Offering, stopped := stopped)
        invariant !ok ==> Record() == old(Record()).(stopped := stopped)
        decreases |rest|
      {
        var turn := rest[0];
        ok := Attempt(turn);
        rest := rest[1..];
        if stopped && !ok {
          return;
        }
      }
      TurnsExactly(old(conn.state), id, turns);
    }

    /**
     * worker: offers `curr`, advances it when Next takes it, and refills before it offers
     * again.  The numbers it hands out ascend, and nobody was given any of them before.
     */
    method Worker(rounds: seq<Round>) returns (out: seq<nat>)
      requires Valid() && Record().phase.Offering? && RoundsOk(id, rounds)
      modifies this, conn
      ensures Valid() && conn.state == AfterRounds(old(conn.state), id, rounds)
      ensures Record().got == old(Record().got) + out
      ensures Increasing(out) && forall v | v in out :: !Delivered(old(conn.state), v)
      ensures Record().phase.Exited? ==> stopped
    {
      ghost var before := conn.state;
      out := Loop(rounds);
      RoundsAreRun(before, id, rounds);
      NewlyDelivered(before, conn.state, id, out);
    }

    method Loop(rounds: seq<Round>) returns (out: seq<nat>)
      requires Valid() && Record().phase.Offering? && RoundsOk(id, rounds)
      modifies this, conn
      ensures Valid() && conn.state == AfterRounds(old(conn.state), id, rounds)
      ensures Record().got == old(Record().got) + out
      ensures Record().phase.Exited? ==> stopped
    {
      out := [];
      var rest := rounds;
      ghost var got := Record().got;
      while rest != [] && Record().phase.Offering?
        invariant Valid() && RoundsOk(id, rest)
        invariant AfterRounds(conn.state, id, rest) == AfterRounds(old(conn.state), id, rounds)
        invariant Record().got == got + out
        invariant Record().phase.Exited? ==> stopped
        decreases |rest|
      {
        var given := Turned(rest[0]);
        out := out + given;
        rest := rest[1..];
      }
    }

    /** One turn of the worker's loop, with the value it gave away, if any. */
    method Turned(round: Round) returns (given: seq<nat>)
      requires Valid() && Record().phase.Offering? && AllForeign(id, round.before) && TurnsOk(id, round.refill)
      modifies this, conn
      ensures Valid() && conn.state == AfterRound(old(conn.state), id, round)
      ensures given == (if round.nextIsWaiting then [old(curr)] else [])
      ensures Record().got == old(Record().got) + given
      ensures Record().phase.Exited? <==> !round.nextIsWaiting && stopped
    {
      Others(round.before);
      given := Select(round.nextIsWaiting, round.refill);
    }

    /** The worker's select; without a receiver or a stop it waits. */
    method Select(nextIsWaiting: bool, refill: seq<Turn>) returns (given: seq<nat>)
      requires Valid() && Record().phase.Offering? && TurnsOk(id, refill)
      modifies this, conn
      ensures Valid() && conn.state == AfterSelect(old(conn.state), id, nextIsWaiting, refill)
      ensures given == if nextIsWaiting then [old(curr)] else []
      ensures Record().got == old(Record().got) + given
      ensures Record().phase.Exited? <==> !nextIsWaiting && stopped
    {
      given := [];
      if nextIsWaiting {
        var next := Send(refill);
        given := [next];
      } else if stopped {
        Leave();
      }
    }

    /** The send case of the worker's select, with the refill that may follow. */
    method Send(refill: seq<Turn>) returns (sent: nat)
      requires Valid() && Record().phase.Offering? && TurnsOk(id, refill)
      modifies this, conn
      ensures Valid() && conn.state == AfterTurns(Apply(old(conn.state), Deliver(id)), id, refill)
      ensures sent == old(curr) && Record().got == old(Record().got) + [sent]
      ensures !Record().phase.Exited?
    {
      sent := curr;
      var next := Advance();
      next := Refilled(refill);
    }

    /** The send on the queue goes through, and `curr` moves on. */
    method Advance() returns (next: nat)
      requires Valid() && Record().phase.Offering?
      modifies this`curr, conn
      ensures Valid() && conn.state == Apply(old(conn.state), Deliver(id))
      ensures Record() == HandOver(old(Record())) && next == curr == old(curr) + 1
    {
      conn.Happen(Deliver(id));
      curr := curr + 1;
      next := curr;
    }

    /** The stop case of the worker's select. */
    method Leave()
      requires Valid() && Record().phase.Offering? && stopped
      modifies conn
      ensures Valid() && conn.state == Apply(old(conn.state), Quit(id)) && Record() == old(Record()).(phase := Exited)
    {
      conn.Happen(Quit(id));
    }

    /** The worker's inner loop: renews while the block is used up, whether stopped or not. */
    method Refilled(turns: seq<Turn>) returns (next: nat)
      requires Valid() && TurnsOk(id, turns)
      requires Record().phase == if curr >= max then Reading else Offering
      modifies this, conn
      ensures Valid() && conn.state == AfterTurns(old(conn.state), id, turns)
      ensures next == curr && Record().phase == if curr >= max then Reading else Offering
      ensures Record().phase.Reading? ==> forall k: nat | k < |turns| :: !WinsInTurn(old(conn.state), id, turns, k)
      ensures Record().got == old(Record().got)
    {
      next := curr;
      var rest := turns;
      while next >= max && rest != []
        invariant Valid() && next == curr && TurnsOk(id, rest)
        invariant AfterTurns(conn.state, id, rest) == AfterTurns(old(conn.state), id, turns)
        invariant Record().phase == if next >= max then Reading else Offering
        invariant Record().got == old(Record().got)
        decreases |rest|
      {
        var ok;
        ok, rest := Renew(rest);
        assert ClientOk(conn.state, id, Record());
        next := curr;
      }
      if old(Record().phase.Reading?) {
        TurnsExactly(old(conn.state), id, turns);
      }
    }
  }

  /** What a client is given in a run is new to everybody. */
  lemma {:induction false} NewlyDelivered(s: State, s': State, id: Id, out: seq<nat>)
    requires Inv(s) && IsRun(s, s')
    requires id in s.clients && id in s'.clients && s'.clients[id].got == s.clients[id].got + out
    ensures Increasing(out)
    ensures forall v | v in out :: !Delivered(s, v)
  {
    var es: seq<Event> :| s' == After(s, es);
    RunsKeepInv(s, es);
    GotAscends(s', id);
    TailIncreases(s.clients[id].got, out);
    forall v | v in out ensures !Delivered(s, v) {
      NewValue(s, es, id, out, v);
    }
  }

  lemma {:induction false} TailIncreases(front: seq<nat>, tail: seq<nat>)
    requires Increasing(front + tail)
    ensures Increasing(tail)
  {
    var all := front + tail;
    assert forall i | 0 <= i < |tail| :: tail[i] == all[|front| + i];
  }

  lemma {:induction false} NewValue(s: State, es: seq<Event>, id: Id, out: seq<nat>, v: nat)
    requires Inv(s) && id in s.clients && id in After(s, es).clients && v in out
    requires After(s, es).clients[id].got == s.clients[id].got + out
    ensures !Delivered(s, v)
  {
    var i :| 0 <= i < |out| && out[i] == v;
    forall a | a in s.clients ensures v !in s.clients[a].got {
      NotBefore(s, es, id, |s.clients[id].got| + i, a);
    }
  }

  lemma {:induction false} NotBefore(s: State, es: seq<Event>, id: Id, i: nat, a: Id)
    requires Inv(s) && id in s.clients && a in s.clients
    requires id in After(s, es).clients && |s.clients[id].got| <= i < |After(s, es).clients[id].got|
    ensures After(s, es).clients[id].got[i] !in s.clients[a].got
  {
    var s' := After(s, es);
    var v := s'.clients[id].got[i];
    RunsKeepInv(s, es);
    GotGrows(s, es, a);
    if v in s.clients[a].got {
      var j :| 0 <= j < |s.clients[a].got| && s.clients[a].got[j] == v;
      assert s'.clients[a].got[j] == v;
      DeliveredOnce(s', a, j, id, i);
      assert false;
    }
  }
}
