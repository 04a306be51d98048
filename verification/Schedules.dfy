/**
 * What the code of an allocator client brings about on a schedule of the others' steps: the
 * specification of `Tddl`, and what it means.
 */
module Schedules {
  import opened Wrappers
  import opened Allocator
  import opened AllocatorTheorems

  /** Steps that others take: those of other clients, and a call of Close on this one. */
  predicate Foreign(id: Id, e: Event) { e.id != id || e.Close? }

  predicate AllForeign(id: Id, es: seq<Event>) {
    forall i | 0 <= i < |es| :: Foreign(id, es[i])
  }

  datatype Reply = Replied | Failed | Lost

  /** One turn of the loop in renew. */
  datatype Turn = Turn(before: seq<Event>, readFails: bool, between: seq<Event>, reply: Reply)

  predicate TurnsOk(id: Id, turns: seq<Turn>) {
    forall i | 0 <= i < |turns| :: AllForeign(id, turns[i].before) && AllForeign(id, turns[i].between)
  }

  /** One turn of the worker: who it meets in its select, and the turns of the refill that may follow. */
  datatype Round = Round(before: seq<Event>, nextIsWaiting: bool, refill: seq<Turn>)

  predicate RoundsOk(id: Id, rounds: seq<Round>) {
    forall i | 0 <= i < |rounds| :: AllForeign(id, rounds[i].before) && TurnsOk(id, rounds[i].refill)
  }

  // ------------------------------------- what a schedule brings about

  function ReplyEvent(id: Id, reply: Reply): Event {
    match reply
    case Replied => UpdateRow(id)
    case Failed => UpdateFails(id)
    case Lost => UpdateReplyLost(id)
  }

  function CreateEvent(id: Id, reply: Reply): Event {
    match reply
    case Replied => CreateRow(id)
    case Failed => CreateFails(id)
    case Lost => CreateReplyLost(id)
  }

  predicate IsOffering(s: State, id: Id) { id in s.clients && s.clients[id].phase.Offering? }

  predicate IsStopped(s: State, id: Id) { id in s.clients && s.clients[id].stopped }

  /** A client that is stopped, or that cannot read the row, does not get to its update. */
  function AfterTurn(s: State, id: Id, turn: Turn): State {
    var s1 := After(s, turn.before);
    if IsStopped(s1, id) || turn.readFails then s1
    else Apply(After(Apply(s1, ReadRow(id)), turn.between), ReplyEvent(id, turn.reply))
  }

  /** Turn after turn until one succeeds; the stop signal does not end a refill, it only idles the turns. */
  function AfterTurns(s: State, id: Id, turns: seq<Turn>): State
    decreases |turns|
  {
    if turns == [] || IsOffering(s, id) then s else AfterTurns(AfterTurn(s, id, turns[0]), id, turns[1..])
  }

  /** The worker sends, and then refills if the block is used up; or it is stopped; or it waits on. */
  function AfterSelect(s: State, id: Id, nextIsWaiting: bool, refill: seq<Turn>): State {
    if nextIsWaiting then AfterTurns(Apply(s, Deliver(id)), id, refill)
    else if IsStopped(s, id) then Apply(s, Quit(id))
    else s
  }

  function AfterRound(s: State, id: Id, round: Round): State {
    AfterSelect(After(s, round.before), id, round.nextIsWaiting, round.refill)
  }

  function AfterRounds(s: State, id: Id, rounds: seq<Round>): State
    decreases |rounds|
  {
    if rounds == [] || !IsOffering(s, id) then s else AfterRounds(AfterRound(s, id, rounds[0]), id, rounds[1..])
  }

  /** What newSequence meets: in its lookup, before and at its insertion, and in its first renewal. */
  datatype Opening = Opening(lookupFails: bool, between: seq<Event>, reply: Reply, turns: seq<Turn>)

  function AfterLookup(s: State, id: Id, o: Opening): State {
    if o.lookupFails then Apply(s, LookupFails(id))
    else
      var found := Apply(s, FindRow(id));
      if s.row.Some? then found else Apply(After(found, o.between), CreateEvent(id, o.reply))
  }

  /** A client joins, gets the row's key or is refused, and claims its first block. */
  function AfterOpening(s: State, id: Id, step: nat, start: nat, o: Opening): State {
    var s1 := AfterLookup(Apply(s, Join(id, step, start)), id, o);
    if id in s1.clients && s1.clients[id].phase.Refused? then s1 else AfterTurns(s1, id, o.turns)
  }

  // -------------------------------------------- it is a run of the protocol

  ghost predicate IsRun(s: State, s': State) {
    exists es: seq<Event> :: s' == After(s, es)
  }

  lemma RunsCompose(a: State, b: State, c: State)
    requires IsRun(a, b) && IsRun(b, c)
    ensures IsRun(a, c)
  {
    var es: seq<Event> :| b == After(a, es);
    var fs: seq<Event> :| c == After(b, fs);
    AfterConcat(a, es, fs);
  }

  lemma StepIsRun(s: State, e: Event)
    ensures IsRun(s, Apply(s, e))
  {
    AfterOne(s, e);
  }

  lemma TurnIsRun(s: State, id: Id, turn: Turn)
    ensures IsRun(s, AfterTurn(s, id, turn))
  {
    var s1 := After(s, turn.before);
    var s2 := Apply(s1, ReadRow(id));
    var s3 := After(s2, turn.between);
    StepIsRun(s1, ReadRow(id));
    StepIsRun(s3, ReplyEvent(id, turn.reply));
    RunsCompose(s, s1, s2);
    RunsCompose(s, s2, s3);
    RunsCompose(s, s3, Apply(s3, ReplyEvent(id, turn.reply)));
  }

  lemma {:induction false} TurnsAreRun(s: State, id: Id, turns: seq<Turn>)
    ensures IsRun(s, AfterTurns(s, id, turns))
    decreases |turns|
  {
    if turns == [] || IsOffering(s, id) {
      assert After(s, []) == s;
    } else {
      var s1 := AfterTurn(s, id, turns[0]);
      TurnIsRun(s, id, turns[0]);
      TurnsAreRun(s1, id, turns[1..]);
      RunsCompose(s, s1, AfterTurns(s, id, turns));
    }
  }

  lemma RoundIsRun(s: State, id: Id, round: Round)
    ensures IsRun(s, AfterRound(s, id, round))
  {
    var s1 := After(s, round.before);
    assert After(s1, []) == s1;
    StepIsRun(s1, Quit(id));
    var sent := Apply(s1, Deliver(id));
    StepIsRun(s1, Deliver(id));
    TurnsAreRun(sent, id, round.refill);
    RunsCompose(s1, sent, AfterTurns(sent, id, round.refill));
    RunsCompose(s, s1, AfterRound(s, id, round));
  }

  /** Whatever the schedule, what the worker does on it is a run of the protocol. */
  lemma {:induction false} RoundsAreRun(s: State, id: Id, rounds: seq<Round>)
    ensures IsRun(s, AfterRounds(s, id, rounds))
    decreases |rounds|
  {
    if rounds == [] || !IsOffering(s, id) {
      assert After(s, []) == s;
    } else {
      var s1 := AfterRound(s, id, rounds[0]);
      RoundIsRun(s, id, rounds[0]);
      RoundsAreRun(s1, id, rounds[1..]);
      RunsCompose(s, s1, AfterRounds(s, id, rounds));
    }
  }

  lemma LookupIsRun(s: State, id: Id, o: Opening)
    ensures IsRun(s, AfterLookup(s, id, o))
  {
    StepIsRun(s, LookupFails(id));
    StepIsRun(s, FindRow(id));
    var found := Apply(s, FindRow(id));
    var s1 := After(found, o.between);
    StepIsRun(s1, CreateEvent(id, o.reply));
    RunsCompose(s, found, s1);
    RunsCompose(s, s1, Apply(s1, CreateEvent(id, o.reply)));
  }

  /** Whatever newSequence meets, what it brings about is a run of the protocol. */
  lemma OpeningIsRun(s: State, id: Id, step: nat, start: nat, o: Opening)
    ensures IsRun(s, AfterOpening(s, id, step, start, o))
  {
    var joined := Apply(s, Join(id, step, start));
    var s1 := AfterLookup(joined, id, o);
    StepIsRun(s, Join(id, step, start));
    LookupIsRun(joined, id, o);
    RunsCompose(s, joined, s1);
    TurnsAreRun(s1, id, o.turns);
    RunsCompose(s, s1, AfterTurns(s1, id, o.turns));
  }

  lemma {:induction false} ForeignFrame(s: State, id: Id, es: seq<Event>)
    requires AllForeign(id, es) && id in s.clients
    ensures var s' := After(s, es);
            id in s'.clients && s'.clients[id] == s.clients[id].(stopped := s'.clients[id].stopped)
  {
    if es != [] {
      ForeignFrame(s, id, es[..|es| - 1]);
    }
  }

  // ------------------------------------------------------- when a turn wins

  /**
   * A turn finds the client not stopped, reads the row, nobody updates it before the
   * client does, the sum fits, and the reply arrives.
   */
  predicate TurnWins(s: State, id: Id, turn: Turn) {
    var s1 := After(s, turn.before);
    var s3 := After(Apply(s1, ReadRow(id)), turn.between);
    && id in s1.clients && !s1.clients[id].stopped && !turn.readFails && turn.reply.Replied?
    && s1.row.Some? && s3.row.Some? && s3.row.value.version == s1.row.value.version
    && s1.row.value.sequence + s1.clients[id].step < COLUMN_LIMIT
  }

  /** The client offers the first number of a block that begins at `first`; the row and the ledger say so too. */
  predicate ClaimedAt(s: State, id: Id, first: nat, version: nat) {
    && id in s.clients
    && var cl := s.clients[id];
    && cl.phase.Offering? && cl.curr == first && cl.max == first + cl.step
    && s.row == Some(Row(first + cl.step, version + 1))
    && s.blocks != [] && s.blocks[|s.blocks| - 1] == Block(first, first + cl.step, id, false)
  }

  /** A turn that wins gives the client the block at what it read; any other leaves it where it was. */
  lemma {:induction false} TurnExactly(s: State, id: Id, turn: Turn)
    requires Inv(s) && id in s.clients && s.clients[id].phase.Reading?
    requires AllForeign(id, turn.before) && AllForeign(id, turn.between)
    ensures var s1, s' := After(s, turn.before), AfterTurn(s, id, turn);
            && (TurnWins(s, id, turn) ==> ClaimedAt(s', id, s1.row.value.sequence, s1.row.value.version))
            && (!TurnWins(s, id, turn) ==>
                  id in s'.clients && s'.clients[id] == s.clients[id].(stopped := s'.clients[id].stopped))
  {
    var s1 := After(s, turn.before);
    ForeignFrame(s, id, turn.before);
    RunsKeepInv(s, turn.before);
    assert ClientOk(s1, id, s1.clients[id]);
    if !s1.clients[id].stopped && !turn.readFails {
      UpdateExactly(s1, id, turn.between, turn.reply);
    }
  }

  lemma {:induction false} UpdateExactly(s1: State, id: Id, between: seq<Event>, reply: Reply)
    requires Inv(s1) && id in s1.clients && s1.clients[id].phase.Reading? && !s1.clients[id].stopped && s1.row.Some?
    requires AllForeign(id, between)
    ensures var s3 := After(Apply(s1, ReadRow(id)), between); var s' := Apply(s3, ReplyEvent(id, reply));
            var wins := reply.Replied? && s3.row.Some? && s3.row.value.version == s1.row.value.version
                        && s1.row.value.sequence + s1.clients[id].step < COLUMN_LIMIT;
            && (wins ==> ClaimedAt(s', id, s1.row.value.sequence, s1.row.value.version))
            && (!wins ==> id in s'.clients && s'.clients[id] == s1.clients[id].(stopped := s'.clients[id].stopped))
  {
    var s2 := Apply(s1, ReadRow(id));
    var s3 := After(s2, between);
    ApplyKeepsInv(s1, ReadRow(id));
    assert s2.clients[id] == s1.clients[id].(phase := Updating(s1.row.value));
    ForeignFrame(s2, id, between);
    RunsKeepInv(s2, between);
    if CasSucceeds(s3.row, s1.row.value, s1.clients[id].step) && reply.Replied? {
      UpdateClaims(s3, id);
    } else {
      UpdateIsRetried(s3, id, ReplyEvent(id, reply));
    }
  }

  lemma {:induction false} UpdateClaims(s: State, id: Id)
    requires Inv(s) && id in s.clients && s.clients[id].phase.Updating?
    requires CasSucceeds(s.row, s.clients[id].phase.seen, s.clients[id].step)
    ensures ClaimedAt(Apply(s, UpdateRow(id)), id, s.clients[id].phase.seen.sequence, s.clients[id].phase.seen.version)
  {
    SuccessMeansCurrent(s, id);
    UpdateOffers(s, id);
  }

  /** After an update that fails, or whose reply does, the client reads again. */
  lemma UpdateIsRetried(s: State, id: Id, e: Event)
    requires id in s.clients && s.clients[id].phase.Updating? && e.id == id
    requires e.UpdateFails? || e.UpdateReplyLost?
             || (e.UpdateRow? && !CasSucceeds(s.row, s.clients[id].phase.seen, s.clients[id].step))
    ensures Apply(s, e).clients == s.clients[id := s.clients[id].(phase := Reading)]
  {
  }

  /** Turns follow each other until the client offers. */
  lemma {:induction false} OneMoreTurn(s: State, id: Id, turns: seq<Turn>, k: nat)
    requires k < |turns|
    ensures var mid := AfterTurns(s, id, turns[..k]);
            AfterTurns(s, id, turns[..k + 1]) == if IsOffering(mid, id) then mid else AfterTurn(mid, id, turns[k])
    decreases k
  {
    if k > 0 && !IsOffering(s, id) {
      OneMoreTurn(AfterTurn(s, id, turns[0]), id, turns[1..], k - 1);
      assert turns[..k][1..] == turns[1..][..k - 1] && turns[..k + 1][1..] == turns[1..][..k];
    } else if !IsOffering(s, id) {
      assert turns[..1][1..] == [];
    }
  }

  /** The k-th turn wins, after the turns before it. */
  predicate WinsInTurn(s: State, id: Id, turns: seq<Turn>, k: nat)
    requires k < |turns|
  {
    TurnWins(AfterTurns(s, id, turns[..k]), id, turns[k])
  }

  lemma {:induction false} TurnKeeps(s: State, id: Id, turn: Turn)
    requires Inv(s) && id in s.clients && s.clients[id].phase.Reading?
    requires AllForeign(id, turn.before) && AllForeign(id, turn.between)
    ensures var s' := AfterTurn(s, id, turn);
            Inv(s') && id in s'.clients && (s'.clients[id].phase.Reading? || s'.clients[id].phase.Offering?)
            && (s'.clients[id].phase.Offering? <==> TurnWins(s, id, turn))
  {
    TurnIsRun(s, id, turn);
    var es: seq<Event> :| AfterTurn(s, id, turn) == After(s, es);
    RunsKeepInv(s, es);
    TurnExactly(s, id, turn);
  }

  /** A renewal that runs out of turns without success has lost every one of them. */
  lemma {:induction false} TurnsExactly(s: State, id: Id, turns: seq<Turn>)
    requires Inv(s) && id in s.clients && s.clients[id].phase.Reading? && TurnsOk(id, turns)
    ensures var s' := AfterTurns(s, id, turns);
            && Inv(s') && id in s'.clients && (s'.clients[id].phase.Reading? || s'.clients[id].phase.Offering?)
            && (s'.clients[id].phase.Offering? <==> exists k: nat | k < |turns| :: WinsInTurn(s, id, turns, k))
    decreases |turns|
  {
    if turns != [] {
      var s1 := AfterTurn(s, id, turns[0]);
      TurnKeeps(s, id, turns[0]);
      WinsNowOrLater(s, id, turns);
      if IsOffering(s1, id) {
        assert AfterTurns(s1, id, turns[1..]) == s1;
      } else {
        TurnsExactly(s1, id, turns[1..]);
      }
    }
  }

  lemma {:induction false} WinsNowOrLater(s: State, id: Id, turns: seq<Turn>)
    requires turns != [] && !IsOffering(s, id)
    ensures WinsInTurn(s, id, turns, 0) <==> TurnWins(s, id, turns[0])
    ensures (exists k: nat | k < |turns| :: WinsInTurn(s, id, turns, k))
            <==> TurnWins(s, id, turns[0])
                 || exists k: nat | k < |turns| - 1 :: WinsInTurn(AfterTurn(s, id, turns[0]), id, turns[1..], k)
  {
    var s1 := AfterTurn(s, id, turns[0]);
    forall k: nat | 0 < k < |turns|
      ensures WinsInTurn(s, id, turns, k) <==> WinsInTurn(s1, id, turns[1..], k - 1)
    {
      assert turns[..k][1..] == turns[1..][..k - 1];
    }
    forall k: nat | k < |turns| - 1 && WinsInTurn(s1, id, turns[1..], k)
      ensures exists k: nat | k < |turns| :: WinsInTurn(s, id, turns, k)
    {
      assert WinsInTurn(s, id, turns, k + 1);
    }
  }

  // ------------------------------------------------------ rounds, and the opening

  /** A round sends one number if somebody waits for it, and then refills; otherwise it heeds the stop signal. */
  lemma {:induction false} RoundExactly(s: State, id: Id, round: Round)
    requires Inv(s) && id in s.clients && s.clients[id].phase.Offering?
    requires AllForeign(id, round.before) && TurnsOk(id, round.refill)
    ensures var s1, s' := After(s, round.before), AfterRound(s, id, round); var cl := s.clients[id];
            && id in s1.clients && id in s'.clients
            && (round.nextIsWaiting ==>
                  && cl.got + [cl.curr] <= s'.clients[id].got
                  && (s'.clients[id].phase.Offering? <==>
                        cl.curr + 1 < cl.max
                        || exists k: nat | k < |round.refill| :: WinsInTurn(Apply(s1, Deliver(id)), id, round.refill, k)))
            && (!round.nextIsWaiting ==>
                  s'.clients[id] == s1.clients[id].(phase := if s1.clients[id].stopped then Exited else Offering))
  {
    var s1 := After(s, round.before);
    ForeignFrame(s, id, round.before);
    RunsKeepInv(s, round.before);
    if round.nextIsWaiting {
      var sent := Apply(s1, Deliver(id));
      ApplyKeepsInv(s1, Deliver(id));
      assert sent.clients[id] == HandOver(s1.clients[id]);
      TurnsKeepGot(sent, id, round.refill);
      if sent.clients[id].phase.Reading? {
        TurnsExactly(sent, id, round.refill);
      }
    }
  }

  lemma {:induction false} TurnsKeepGot(s: State, id: Id, turns: seq<Turn>)
    requires id in s.clients
    ensures var s' := AfterTurns(s, id, turns); id in s'.clients && s.clients[id].got <= s'.clients[id].got
  {
    TurnsAreRun(s, id, turns);
    var es: seq<Event> :| AfterTurns(s, id, turns) == After(s, es);
    GotGrows(s, es, id);
  }

  lemma {:induction false} GotGrows(s: State, es: seq<Event>, a: Id)
    requires a in s.clients
    ensures a in After(s, es).clients && s.clients[a].got <= After(s, es).clients[a].got
  {
    if es != [] {
      GotGrows(s, es[..|es| - 1], a);
    }
  }

  /** Rounds follow each other while the client offers. */
  lemma {:induction false} OneMoreRound(s: State, id: Id, rounds: seq<Round>, k: nat)
    requires k < |rounds|
    ensures var mid := AfterRounds(s, id, rounds[..k]);
            AfterRounds(s, id, rounds[..k + 1]) == if IsOffering(mid, id) then AfterRound(mid, id, rounds[k]) else mid
    decreases k
  {
    if k > 0 && IsOffering(s, id) {
      OneMoreRound(AfterRound(s, id, rounds[0]), id, rounds[1..], k - 1);
      assert rounds[..k][1..] == rounds[1..][..k - 1] && rounds[..k + 1][1..] == rounds[1..][..k];
    } else if IsOffering(s, id) {
      assert rounds[..1][1..] == [];
    }
  }

  /** The lookup is over well exactly if it works, and the row is there or can be created. */
  lemma {:induction false} LookupExactly(s: State, id: Id, o: Opening)
    requires Inv(s) && id in s.clients && s.clients[id].phase.LookingUp? && AllForeign(id, o.between)
    ensures var s' := AfterLookup(s, id, o); var free := After(Apply(s, FindRow(id)), o.between).row.None?;
            var founds := s.row.None? && free && o.reply.Replied? && s.clients[id].start < COLUMN_LIMIT;
            && Inv(s') && id in s'.clients
            && s'.clients[id] == s.clients[id].(phase := if !o.lookupFails && (s.row.Some? || founds) then Reading else Refused,
                                                stopped := s'.clients[id].stopped)
            && (!o.lookupFails && s.row.Some? ==> s'.row == s.row && s'.blocks == s.blocks)
            && (!o.lookupFails && founds ==> s'.row == Some(Row(s.clients[id].start, 1)) && s'.blocks == [])
  {
    ApplyKeepsInv(s, FindRow(id));
    ApplyKeepsInv(s, LookupFails(id));
    if !o.lookupFails && s.row.None? {
      var found := Apply(s, FindRow(id));
      assert found.clients[id] == s.clients[id].(phase := Creating);
      CreationExactly(found, id, o.between, o.reply);
    }
  }

  lemma {:induction false} CreationExactly(s: State, id: Id, between: seq<Event>, reply: Reply)
    requires Inv(s) && id in s.clients && s.clients[id].phase.Creating? && AllForeign(id, between)
    ensures var s1 := After(s, between); var s' := Apply(s1, CreateEvent(id, reply));
            var founds := s1.row.None? && reply.Replied? && s.clients[id].start < COLUMN_LIMIT;
            && Inv(s') && id in s'.clients
            && s'.clients[id] == s.clients[id].(phase := if founds then Reading else Refused, stopped := s'.clients[id].stopped)
            && (founds ==> s'.row == Some(Row(s.clients[id].start, 1)) && s'.blocks == [])
  {
    ForeignFrame(s, id, between);
    RunsKeepInv(s, between);
    ApplyKeepsInv(After(s, between), CreateEvent(id, reply));
  }

  /** Nothing happens but a read and an update that are answered. */
  const UNDISTURBED: Turn := Turn([], false, [], Replied)

  /** Nobody disturbs the lookup, the creation of the row if there is none, and the first turn; and the sum fits. */
  predicate Undisturbed(s: State, step: nat, start: nat, o: Opening) {
    && !o.lookupFails && o.turns != [] && o.turns[0] == UNDISTURBED
    && (s.row.None? ==> o.between == [] && o.reply.Replied?)
    && (if s.row.Some? then s.row.value.sequence else start) + step < COLUMN_LIMIT
  }

  lemma {:induction false} LookupFinds(s: State, id: Id, step: nat, start: nat, o: Opening)
    requires Inv(s) && id !in s.clients && step >= 1 && AllForeign(id, o.between) && Undisturbed(s, step, start, o)
    ensures var s1 := AfterLookup(Apply(s, Join(id, step, start)), id, o);
            && Inv(s1) && id in s1.clients && s1.blocks == s.blocks
            && s1.row == (if s.row.Some? then s.row else Some(Row(start, 1)))
            && s1.clients[id] == Client(step, start, 0, 0, Reading, false, [])
  {
    var joined := Apply(s, Join(id, step, start));
    ApplyKeepsInv(s, Join(id, step, start));
    assert joined.clients[id] == Client(step, start, 0, 0, LookingUp, false, []);
    LookupExactly(joined, id, o);
    var found := Apply(joined, FindRow(id));
    assert After(found, []) == found;
  }

  /** The first block of a client: what the row held, or the start number in a new row, and a whole step from there. */
  predicate FirstBlock(s: State, s': State, id: Id, step: nat, start: nat) {
    var first, version := if s.row.Some? then s.row.value.sequence else start, if s.row.Some? then s.row.value.version else 1;
    && ClaimedAt(s', id, first, version)
    && s'.blocks == s.blocks + [Block(first, first + step, id, false)]
    && s'.clients[id].step == step && s'.clients[id].got == []
  }

  lemma {:induction false} FirstBlockFrom(s: State, s1: State, id: Id, step: nat, start: nat, turns: seq<Turn>)
    requires Inv(s1) && id in s1.clients && s1.blocks == s.blocks
    requires s1.row == if s.row.Some? then s.row else Some(Row(start, 1))
    requires s1.clients[id] == Client(step, start, 0, 0, Reading, false, [])
    requires turns != [] && turns[0] == UNDISTURBED && s1.row.value.sequence + step < COLUMN_LIMIT
    ensures FirstBlock(s, AfterTurns(s1, id, turns), id, step, start)
  {
    FirstTurnClaims(s1, id, turns);
  }

  /** newSequence claims a block: if it is not disturbed, the client ends up offering the first number of its first block. */
  lemma {:induction false} OpeningClaims(s: State, id: Id, step: nat, start: nat, o: Opening)
    requires Inv(s) && id !in s.clients && step >= 1 && AllForeign(id, o.between) && Undisturbed(s, step, start, o)
    ensures FirstBlock(s, AfterOpening(s, id, step, start, o), id, step, start)
  {
    var s1 := AfterLookup(Apply(s, Join(id, step, start)), id, o);
    LookupFinds(s, id, step, start, o);
    OpeningRenews(s, id, step, start, o);
    FirstBlockFrom(s, s1, id, step, start, o.turns);
  }

  lemma {:induction false} OpeningRenews(s: State, id: Id, step: nat, start: nat, o: Opening)
    requires var s1 := AfterLookup(Apply(s, Join(id, step, start)), id, o); id in s1.clients && !s1.clients[id].phase.Refused?
    ensures AfterOpening(s, id, step, start, o) == AfterTurns(AfterLookup(Apply(s, Join(id, step, start)), id, o), id, o.turns)
  {
  }

  lemma {:induction false} FirstTurnClaims(s: State, id: Id, turns: seq<Turn>)
    requires Inv(s) && id in s.clients && s.clients[id].phase.Reading? && !s.clients[id].stopped && s.row.Some?
    requires turns != [] && turns[0] == UNDISTURBED && s.row.value.sequence + s.clients[id].step < COLUMN_LIMIT
    ensures var s' := AfterTurns(s, id, turns);
            && ClaimedAt(s', id, s.row.value.sequence, s.row.value.version)
            && s'.blocks == s.blocks + [Block(s.row.value.sequence, s.row.value.sequence + s.clients[id].step, id, false)]
            && s'.clients[id].step == s.clients[id].step && s'.clients[id].got == s.clients[id].got
  {
    assert After(s, []) == s;
    var s2 := Apply(s, ReadRow(id));
    assert After(s2, []) == s2;
    assert AfterTurn(s, id, turns[0]) == Apply(s2, UpdateRow(id));
    TurnExactly(s, id, turns[0]);
    assert AfterTurns(AfterTurn(s, id, turns[0]), id, turns[1..]) == AfterTurn(s, id, turns[0]);
  }
}
