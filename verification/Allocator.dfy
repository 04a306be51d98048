/**
 * The distributed number allocator as a protocol: `pkg/tddl/tddl.go`.
 *
 * Any number of clients claim blocks of numbers from one versioned database row and hand
 * them out one by one.  A run is a sequence of events; an event that is not enabled in a
 * state changes nothing, so every sequence of events is a run and every interleaving of
 * the clients is one of them.
 */
module Allocator {
  import opened Wrappers

  /** The `sequence` column is a signed 64-bit integer: an update past it is a database error. */
  const COLUMN_LIMIT: nat := 0x8000_0000_0000_0000

  type Id = nat

  datatype Row = Row(sequence: nat, version: nat)

  /** Where a client's control stands. */
  datatype Phase =
    | LookingUp                // getRowID, before the query
    | Creating                 // getRowID found no row
    | Reading                  // top of the loop in renew
    | Updating(seen: Row)      // renew has read the row and is about to update it
    | Offering                 // the worker is blocked in its select
    | Exited                   // the worker has returned
    | Refused                  // newSequence returned an error
    | Crashed

  /**
   * The fields of one tddlSequence.  `got` is a history of the values that Next has
   * returned from this client.
   */
  datatype Client = Client(step: nat, start: nat, curr: nat, max: nat, phase: Phase, stopped: bool, got: seq<nat>)
  {
    /** The worker is started once the first renew has filled `max`. */
    predicate Launched() { max > 0 }

    predicate Gone() { phase.Exited? || phase.Refused? || phase.Crashed? }
  }

  /** A history record of one successful update; `lost` when its reply never arrived. */
  datatype Block = Block(lo: nat, hi: nat, owner: Id, lost: bool)

  datatype State = State(row: Option<Row>, start: nat, blocks: seq<Block>, clients: map<Id, Client>)

  datatype Event =
    | Join(id: Id, step: nat, start: nat)
    | FindRow(id: Id)
    | LookupFails(id: Id)      // the query fails for another reason than a missing row
    | CreateRow(id: Id)
    | CreateFails(id: Id)
    | CreateReplyLost(id: Id)
    | ReadRow(id: Id)
    | UpdateRow(id: Id)
    | UpdateFails(id: Id)      // the database reports an error and has changed nothing
    | UpdateReplyLost(id: Id)  // the database reports an error, and has committed if it could
    | Deliver(id: Id)
    | Close(id: Id)
    | Quit(id: Id)             // the worker's select takes the stop case
    | Crash(id: Id)

  const Init: State := State(None, 0, [], map[])

  /** The optimistic-lock update: it succeeds iff the version is still the one that was read. */
  predicate CasSucceeds(row: Option<Row>, seen: Row, step: nat) {
    row.Some? && row.value.version == seen.version && seen.sequence + step < COLUMN_LIMIT
  }

  function Bumped(seen: Row, step: nat): Row {
    Row(seen.sequence + step, seen.version + 1)
  }

  /** What renew does after its break, and where the caller goes on from there. */
  function Refill(cl: Client, seen: Row): Client {
    var written := seen.sequence + cl.step;
    var curr, max := written - cl.step, written;
    cl.(curr := curr, max := max,
        phase := if cl.Launched() && curr >= max then Reading else Offering)
  }

  /** The worker hands over `curr`, then refills if the block is used up. */
  function HandOver(cl: Client): Client {
    var next := cl.curr + 1;
    cl.(got := cl.got + [cl.curr], curr := next, phase := if next >= cl.max then Reading else Offering)
  }

  /** The database side of a successful update, with what the client makes of it. */
  function Commit(s: State, id: Id, cl: Client, seen: Row, lost: bool): State {
    s.(row := Some(Bumped(seen, cl.step)),
       blocks := s.blocks + [Block(seen.sequence, seen.sequence + cl.step, id, lost)],
       clients := s.clients[id := if lost then cl.(phase := Reading) else Refill(cl, seen)])
  }

  /** The row's creation, with the phase its creator is in afterwards. */
  function Founded(s: State, id: Id, cl: Client, phase: Phase): State {
    s.(row := Some(Row(cl.start, 1)), start := cl.start, clients := s.clients[id := cl.(phase := phase)])
  }

  predicate Enabled(s: State, e: Event) {
    if e.Join? then e.id !in s.clients && e.step >= 1
    else
      e.id in s.clients &&
      var cl := s.clients[e.id];
      match e
      case FindRow(_) => cl.phase.LookingUp?
      case LookupFails(_) => cl.phase.LookingUp?
      case CreateRow(_) => cl.phase.Creating?
      case CreateFails(_) => cl.phase.Creating?
      case CreateReplyLost(_) => cl.phase.Creating?
      case ReadRow(_) => cl.phase.Reading? && !cl.stopped && s.row.Some?
      case UpdateRow(_) => cl.phase.Updating?
      case UpdateFails(_) => cl.phase.Updating?
      case UpdateReplyLost(_) => cl.phase.Updating?
      case Deliver(_) => cl.phase.Offering?
      case Close(_) => cl.Launched() && !cl.stopped
      case Quit(_) => cl.phase.Offering? && cl.stopped
      case Crash(_) => true
  }

  /** The state after one event. */
  function Apply(s: State, e: Event): State {
    if !Enabled(s, e) then s
    else if e.Join? then
      s.(clients := s.clients[e.id := Client(e.step, e.start, 0, 0, LookingUp, false, [])])
    else
      var cl := s.clients[e.id];
      match e
      case FindRow(id) =>
        s.(clients := s.clients[id := cl.(phase := if s.row.Some? then Reading else Creating)])
      case LookupFails(id) =>
        s.(clients := s.clients[id := cl.(phase := Refused)])
      case CreateRow(id) =>
        if s.row.None? && cl.start < COLUMN_LIMIT then Founded(s, id, cl, Reading)
        else s.(clients := s.clients[id := cl.(phase := Refused)])
      case CreateFails(id) =>
        s.(clients := s.clients[id := cl.(phase := Refused)])
      case CreateReplyLost(id) =>
        if s.row.None? && cl.start < COLUMN_LIMIT then Founded(s, id, cl, Refused)
        else s.(clients := s.clients[id := cl.(phase := Refused)])
      case ReadRow(id) =>
        s.(clients := s.clients[id := cl.(phase := Updating(s.row.value))])
      case UpdateRow(id) =>
        if CasSucceeds(s.row, cl.phase.seen, cl.step) then Commit(s, id, cl, cl.phase.seen, false)
        else s.(clients := s.clients[id := cl.(phase := Reading)])
      case UpdateFails(id) =>
        s.(clients := s.clients[id := cl.(phase := Reading)])
      case UpdateReplyLost(id) =>
        if CasSucceeds(s.row, cl.phase.seen, cl.step) then Commit(s, id, cl, cl.phase.seen, true)
        else s.(clients := s.clients[id := cl.(phase := Reading)])
      case Deliver(id) =>
        s.(clients := s.clients[id := HandOver(cl)])
      case Close(id) =>
        s.(clients := s.clients[id := cl.(stopped := true)])
      case Quit(id) =>
        s.(clients := s.clients[id := cl.(phase := Exited)])
      case Crash(id) =>
        s.(clients := s.clients[id := cl.(phase := Crashed)])
  }

  /** The state at the end of a run. */
  function After(s: State, es: seq<Event>): State {
    if es == [] then s else Apply(After(s, es[..|es| - 1]), es[|es| - 1])
  }

  lemma {:induction false} AfterConcat(s: State, es: seq<Event>, fs: seq<Event>)
    ensures After(s, es + fs) == After(After(s, es), fs)
  {
    if fs == [] {
      assert es + fs == es;
    } else {
      AfterConcat(s, es, fs[..|fs| - 1]);
      assert (es + fs)[..|es + fs| - 1] == es + fs[..|fs| - 1];
    }
  }

  // --------------------------------------------------------------- invariant

  function Range(lo: int, hi: int): (r: seq<nat>)
    requires 0 <= lo
    ensures |r| == if lo <= hi then hi - lo else 0
    ensures forall i | 0 <= i < |r| :: r[i] == lo + i
  {
    seq(if lo <= hi then hi - lo else 0, i requires 0 <= i => lo + i)
  }

  /** The numbers of the blocks a client has claimed, in claiming order. */
  function Claimed(blocks: seq<Block>, id: Id): seq<nat> {
    if blocks == [] then []
    else
      var b := blocks[|blocks| - 1];
      Claimed(blocks[..|blocks| - 1], id) + if b.owner == id && !b.lost then Range(b.lo, b.hi) else []
  }

  /** What the row's column held once the first k updates were done. */
  function RowAt(s: State, k: nat): nat
    requires k <= |s.blocks|
  {
    if k == 0 then s.start else s.blocks[k - 1].hi
  }

  /** A block is non-empty and begins where the one before it ended. */
  predicate TileOk(s: State, k: nat)
    requires k < |s.blocks|
  {
    RowAt(s, k) == s.blocks[k].lo < s.blocks[k].hi
  }

  predicate Tiled(s: State) {
    forall k: nat | k < |s.blocks| :: TileOk(s, k)
  }

  predicate RowOk(s: State) {
    match s.row
    case None => s.blocks == []
    case Some(r) => r == Row(RowAt(s, |s.blocks|), |s.blocks| + 1) && r.sequence < COLUMN_LIMIT
  }

  predicate PhaseOk(s: State, cl: Client) {
    && (cl.phase.LookingUp? || cl.phase.Creating? || cl.phase.Refused? ==> !cl.Launched())
    && (cl.phase.Reading? || cl.phase.Updating? ==> cl.curr == cl.max && s.row.Some?)
    && (cl.Launched() ==> s.row.Some? && cl.max <= s.row.value.sequence)
    && (cl.phase.Offering? ==> cl.curr < cl.max)
    && (cl.phase.Updating? ==>
      && 1 <= cl.phase.seen.version <= |s.blocks| + 1
      && cl.phase.seen.sequence == RowAt(s, cl.phase.seen.version - 1))
    && (cl.stopped ==> cl.Launched())
  }

  /** A client has delivered what it has claimed, except for the rest of its current block. */
  predicate ClientOk(s: State, id: Id, cl: Client) {
    && cl.step >= 1
    && cl.curr <= cl.max
    && PhaseOk(s, cl)
    && Claimed(s.blocks, id) == cl.got + Range(cl.curr, cl.max)
  }

  predicate Inv(s: State) {
    && Tiled(s)
    && RowOk(s)
    && (forall k | 0 <= k < |s.blocks| :: s.blocks[k].owner in s.clients)
    && (forall id | id in s.clients :: ClientOk(s, id, s.clients[id]))
  }

  lemma {:induction false} NothingClaimed(blocks: seq<Block>, id: Id)
    requires forall k | 0 <= k < |blocks| :: blocks[k].owner != id
    ensures Claimed(blocks, id) == []
  {
    if blocks != [] {
      NothingClaimed(blocks[..|blocks| - 1], id);
    }
  }

  /** A block appended to the ledger extends its owner's claim, and nobody else's. */
  lemma ClaimedAppend(blocks: seq<Block>, b: Block, id: Id)
    ensures Claimed(blocks + [b], id)
         == Claimed(blocks, id) + if b.owner == id && !b.lost then Range(b.lo, b.hi) else []
  {
    assert (blocks + [b])[..|blocks|] == blocks;
  }

  /** An update that succeeds finds the row exactly as the client had read it. */
  lemma SuccessMeansCurrent(s: State, id: Id)
    requires Inv(s) && id in s.clients && s.clients[id].phase.Updating?
    requires CasSucceeds(s.row, s.clients[id].phase.seen, s.clients[id].step)
    ensures s.row == Some(s.clients[id].phase.seen)
    ensures Apply(s, UpdateRow(id)).row.value.version == s.row.value.version + 1
  {
  }

  /** A client that does not move stays consistent when somebody's block is appended. */
  lemma OthersUnaffected(s: State, s': State, b: Block, i: Id, cl: Client)
    requires ClientOk(s, i, cl) && (b.owner != i || b.lost)
    requires s'.blocks == s.blocks + [b] && s'.start == s.start
    requires s'.row.Some? && (s.row.Some? ==> s.row.value.sequence <= s'.row.value.sequence)
    ensures ClientOk(s', i, cl)
  {
    ClaimedAppend(s.blocks, b, i);
    if cl.phase.Updating? {
      var k := cl.phase.seen.version - 1;
      assert RowAt(s', k) == RowAt(s, k);
    }
  }

  lemma TilesGrow(s: State, s': State, b: Block)
    requires Tiled(s) && s'.blocks == s.blocks + [b] && s'.start == s.start
    requires b.lo == RowAt(s, |s.blocks|) && b.lo < b.hi
    ensures Tiled(s')
  {
    forall k: nat | k < |s'.blocks| ensures TileOk(s', k) {
      assert k < |s.blocks| ==> TileOk(s, k);
    }
  }

  lemma RefillOk(s: State, s': State, b: Block, id: Id, cl: Client, seen: Row)
    requires ClientOk(s, id, cl) && cl.phase == Updating(seen)
    requires b == Block(seen.sequence, seen.sequence + cl.step, id, false)
    requires s'.blocks == s.blocks + [b] && s'.start == s.start && s'.row == Some(Bumped(seen, cl.step))
    ensures ClientOk(s', id, Refill(cl, seen))
  {
    ClaimedAppend(s.blocks, b, id);
    assert cl.got + Range(cl.curr, cl.max) == cl.got;
  }

  lemma CommitKeepsInv(s: State, id: Id, cl: Client, seen: Row, lost: bool)
    requires Inv(s) && id in s.clients && cl == s.clients[id] && cl.phase == Updating(seen)
    requires CasSucceeds(s.row, seen, cl.step)
    ensures Inv(Commit(s, id, cl, seen, lost))
  {
    var s' := Commit(s, id, cl, seen, lost);
    var b := Block(seen.sequence, seen.sequence + cl.step, id, lost);
    SuccessMeansCurrent(s, id);
    TilesGrow(s, s', b);
    if lost {
      assert ClientOk(s, id, cl.(phase := Reading));
      OthersUnaffected(s, s', b, id, cl.(phase := Reading));
    } else {
      RefillOk(s, s', b, id, cl, seen);
    }
    forall i | i in s.clients && i != id ensures ClientOk(s', i, s.clients[i]) {
      OthersUnaffected(s, s', b, i, s.clients[i]);
    }
  }

  /** An event that leaves the row and the ledger alone needs only its own client checked. */
  lemma LocalKeepsInv(s: State, s': State, id: Id)
    requires Inv(s)
    requires id in s'.clients && s' == s.(clients := s.clients[id := s'.clients[id]])
    requires ClientOk(s', id, s'.clients[id])
    ensures Inv(s')
  {
    forall i | i in s'.clients && i != id ensures ClientOk(s', i, s'.clients[i]) {
      assert ClientOk(s, i, s.clients[i]);
    }
    assert forall k: nat | k < |s.blocks| :: TileOk(s, k) ==> TileOk(s', k);
  }

  lemma CreateKeepsInv(s: State, e: Event)
    requires Inv(s) && Enabled(s, e) && (e.CreateRow? || e.CreateReplyLost?) && s.row.None?
    ensures Inv(Apply(s, e))
  {
    var s' := Apply(s, e);
    forall i | i in s'.clients ensures ClientOk(s', i, s'.clients[i]) {
      assert ClientOk(s, i, s.clients[i]);
    }
  }

  lemma HandOverOk(s: State, id: Id, cl: Client)
    requires ClientOk(s, id, cl) && cl.phase.Offering?
    ensures ClientOk(s, id, HandOver(cl))
  {
    assert Range(cl.curr, cl.max) == [cl.curr] + Range(cl.curr + 1, cl.max);
    assert cl.got + Range(cl.curr, cl.max) == HandOver(cl).got + Range(cl.curr + 1, cl.max);
  }

  lemma ApplyKeepsInv(s: State, e: Event)
    requires Inv(s)
    ensures Inv(Apply(s, e))
  {
    if Enabled(s, e) {
      var s' := Apply(s, e);
      if (e.UpdateReplyLost? || e.UpdateRow?) && CasSucceeds(s.row, s.clients[e.id].phase.seen, s.clients[e.id].step) {
        CommitKeepsInv(s, e.id, s.clients[e.id], s.clients[e.id].phase.seen, e.UpdateReplyLost?);
      } else if (e.CreateRow? || e.CreateReplyLost?) && s.row.None? {
        CreateKeepsInv(s, e);
      } else {
        if e.Join? { NothingClaimed(s.blocks, e.id); }
        if e.Deliver? { HandOverOk(s, e.id, s.clients[e.id]); }
        if !e.Join? { assert ClientOk(s, e.id, s.clients[e.id]); }
        LocalKeepsInv(s, s', e.id);
      }
    }
  }

  /** The invariant holds at the end of every run. */
  lemma {:induction false} RunsKeepInv(s: State, es: seq<Event>)
    requires Inv(s)
    ensures Inv(After(s, es))
  {
    if es != [] {
      RunsKeepInv(s, es[..|es| - 1]);
      ApplyKeepsInv(After(s, es[..|es| - 1]), es[|es| - 1]);
    }
  }
}
