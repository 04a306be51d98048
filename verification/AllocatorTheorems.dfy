/** What every run of the number allocator guarantees. */
module AllocatorTheorems {
  import opened Wrappers
  import opened Allocator

  predicate In(b: Block, v: nat) { b.lo <= v < b.hi }

  predicate Owns(blocks: seq<Block>, id: Id, v: nat) {
    exists k | 0 <= k < |blocks| :: blocks[k].owner == id && !blocks[k].lost && In(blocks[k], v)
  }

  predicate Increasing(q: seq<nat>) {
    forall i, j | 0 <= i < j < |q| :: q[i] < q[j]
  }

  /** Returned by Next to somebody. */
  predicate Delivered(s: State, v: nat) {
    exists id | id in s.clients :: v in s.clients[id].got
  }

  predicate Holds(cl: Client, v: nat) { cl.curr <= v < cl.max }

  /** Still to be handed out by a client that can do so. */
  predicate Pending(s: State, v: nat) {
    exists id | id in s.clients :: !s.clients[id].Gone() && Holds(s.clients[id], v)
  }

  /** In a block whose update lost its reply, or in the rest of a block of a client that is gone. */
  predicate Abandoned(s: State, v: nat) {
    || (exists k | 0 <= k < |s.blocks| :: s.blocks[k].lost && In(s.blocks[k], v))
    || (exists id | id in s.clients :: s.clients[id].Gone() && Holds(s.clients[id], v))
  }

  // ---------------------------------------------------------------- the ledger

  lemma {:induction false} ClaimedMembers(blocks: seq<Block>, id: Id, v: nat)
    ensures v in Claimed(blocks, id) <==> Owns(blocks, id, v)
  {
    if blocks != [] {
      var n := |blocks| - 1;
      var front, b := blocks[..n], blocks[n];
      ClaimedMembers(front, id, v);
      if Owns(front, id, v) {
        var k :| 0 <= k < n && front[k].owner == id && !front[k].lost && In(front[k], v);
        assert blocks[k] == front[k];
      }
      if Owns(blocks, id, v) {
        var k :| 0 <= k < |blocks| && blocks[k].owner == id && !blocks[k].lost && In(blocks[k], v);
        assert k < n ==> front[k] == blocks[k];
        if k == n { assert Range(b.lo, b.hi)[v - b.lo] == v; }
      }
    }
  }

  /** Blocks claimed earlier lie below blocks claimed later. */
  lemma {:induction false} BlocksAscend(s: State, j: nat, k: nat)
    requires Tiled(s) && j <= k <= |s.blocks|
    ensures RowAt(s, j) <= RowAt(s, k)
    ensures j < k ==> s.blocks[j].hi <= RowAt(s, k)
    decreases k
  {
    if j < k {
      BlocksAscend(s, j, k - 1);
      assert TileOk(s, k - 1);
    }
  }

  /** The blocks are pairwise disjoint. */
  lemma BlocksDisjoint(s: State, j: nat, k: nat, v: nat)
    requires Tiled(s) && j < |s.blocks| && k < |s.blocks|
    requires In(s.blocks[j], v) && In(s.blocks[k], v)
    ensures j == k
  {
    assert TileOk(s, j) && TileOk(s, k);
    if j < k { BlocksAscend(s, j, k); }
    if k < j { BlocksAscend(s, k, j); }
  }

  /** The first n blocks cover exactly the numbers from the start to what the row held then. */
  lemma {:induction false} BlocksCover(s: State, n: nat, v: nat)
    requires Tiled(s) && n <= |s.blocks|
    ensures s.start <= v < RowAt(s, n) <==> exists k: nat | k < n :: In(s.blocks[k], v)
  {
    if n > 0 {
      BlocksCover(s, n - 1, v);
      BlocksAscend(s, 0, n - 1);
      assert TileOk(s, n - 1);
      assert RowAt(s, n - 1) <= v < RowAt(s, n) <==> In(s.blocks[n - 1], v);
    }
  }

  lemma {:induction false} ClaimedAscends(s: State, n: nat, id: Id)
    requires Tiled(s) && n <= |s.blocks|
    ensures Increasing(Claimed(s.blocks[..n], id))
    ensures forall v | v in Claimed(s.blocks[..n], id) :: v < RowAt(s, n)
  {
    if n > 0 {
      ClaimedAscends(s, n - 1, id);
      assert s.blocks[..n][..n - 1] == s.blocks[..n - 1];
      assert TileOk(s, n - 1);
      var front := Claimed(s.blocks[..n - 1], id);
      assert forall i | 0 <= i < |front| :: front[i] in front;
    }
  }

  lemma GotIsClaimed(s: State, id: Id, v: nat)
    requires Inv(s) && id in s.clients
    ensures Owns(s.blocks, id, v) <==> v in s.clients[id].got || Holds(s.clients[id], v)
  {
    var cl := s.clients[id];
    ClaimedMembers(s.blocks, id, v);
    assert ClientOk(s, id, cl);
    if Holds(cl, v) { assert Range(cl.curr, cl.max)[v - cl.curr] == v; }
  }

  lemma GotAscends(s: State, id: Id)
    requires Inv(s) && id in s.clients
    ensures Increasing(s.clients[id].got)
    ensures forall v, w: nat | v in s.clients[id].got && Holds(s.clients[id], w) :: v < w
  {
    var cl := s.clients[id];
    ClaimedAscends(s, |s.blocks|, id);
    assert s.blocks[..|s.blocks|] == s.blocks;
    assert ClientOk(s, id, cl);
    var all := cl.got + Range(cl.curr, cl.max);
    assert forall i | 0 <= i < |cl.got| :: all[i] == cl.got[i];
    forall v, w: nat | v in cl.got && Holds(cl, w) ensures v < w {
      var i :| 0 <= i < |cl.got| && cl.got[i] == v;
      assert all[i] < all[|cl.got| + (w - cl.curr)] == w;
    }
  }

  /** A number has at most one owner. */
  lemma OwnerIsUnique(s: State, a: Id, b: Id, v: nat)
    requires Tiled(s) && Owns(s.blocks, a, v) && Owns(s.blocks, b, v)
    ensures a == b
  {
    var j :| 0 <= j < |s.blocks| && s.blocks[j].owner == a && !s.blocks[j].lost && In(s.blocks[j], v);
    var k :| 0 <= k < |s.blocks| && s.blocks[k].owner == b && !s.blocks[k].lost && In(s.blocks[k], v);
    BlocksDisjoint(s, j, k, v);
  }

  // ---------------------------------------------------------------- theorems

  lemma Reachable(es: seq<Event>)
    ensures Inv(After(Init, es))
  {
    RunsKeepInv(Init, es);
  }

  /** Global uniqueness: no run delivers a number twice, in one client or across clients. */
  lemma NoNumberTwice(es: seq<Event>, a: Id, i: nat, b: Id, j: nat)
    requires var cs := After(Init, es).clients;
             && a in cs && i < |cs[a].got| && b in cs && j < |cs[b].got|
             && cs[a].got[i] == cs[b].got[j]
    ensures a == b && i == j
  {
    Reachable(es);
    DeliveredOnce(After(Init, es), a, i, b, j);
  }

  lemma DeliveredOnce(s: State, a: Id, i: nat, b: Id, j: nat)
    requires Inv(s) && a in s.clients && i < |s.clients[a].got| && b in s.clients && j < |s.clients[b].got|
    requires s.clients[a].got[i] == s.clients[b].got[j]
    ensures a == b && i == j
  {
    var v := s.clients[a].got[i];
    GotIsClaimed(s, a, v);
    GotIsClaimed(s, b, v);
    OwnerIsUnique(s, a, b, v);
    GotAscends(s, a);
  }

  lemma Fates(s: State, v: nat, k: nat)
    requires Inv(s) && k < |s.blocks| && In(s.blocks[k], v)
    ensures Delivered(s, v) <==> !s.blocks[k].lost && v in s.clients[s.blocks[k].owner].got
    ensures Pending(s, v) <==>
            var cl := s.clients[s.blocks[k].owner]; !s.blocks[k].lost && !cl.Gone() && Holds(cl, v)
    ensures Abandoned(s, v) <==>
            var cl := s.clients[s.blocks[k].owner]; s.blocks[k].lost || (cl.Gone() && Holds(cl, v))
  {
    var b := s.blocks[k];
    forall id | id in s.clients && (v in s.clients[id].got || Holds(s.clients[id], v))
      ensures id == b.owner && !b.lost
    {
      GotIsClaimed(s, id, v);
      var j :| 0 <= j < |s.blocks| && s.blocks[j].owner == id && !s.blocks[j].lost && In(s.blocks[j], v);
      BlocksDisjoint(s, j, k, v);
    }
    forall j: nat | j < |s.blocks| && s.blocks[j].lost && In(s.blocks[j], v) ensures b.lost {
      BlocksDisjoint(s, j, k, v);
    }
  }

  function Count(p: bool): nat { if p then 1 else 0 }

  /**
   * Conservation: a number between the start and the row's column is exactly one of
   * delivered, pending and abandoned; a number elsewhere is none of them.
   */
  lemma Conservation(es: seq<Event>, v: nat)
    ensures var s := After(Init, es);
            Count(Delivered(s, v)) + Count(Pending(s, v)) + Count(Abandoned(s, v))
            == Count(s.row.Some? && s.start <= v < s.row.value.sequence)
  {
    var s := After(Init, es);
    Reachable(es);
    BlocksCover(s, |s.blocks|, v);
    if s.row.Some? && s.start <= v < s.row.value.sequence {
      var k: nat :| k < |s.blocks| && In(s.blocks[k], v);
      Fates(s, v, k);
      if !s.blocks[k].lost {
        var id := s.blocks[k].owner;
        GotIsClaimed(s, id, v);
        GotAscends(s, id);
      }
    } else {
      forall id | id in s.clients ensures v !in s.clients[id].got && !Holds(s.clients[id], v) {
        GotIsClaimed(s, id, v);
      }
    }
  }

  /** A pending number is pending in one client only. */
  lemma PendingInOne(es: seq<Event>, a: Id, b: Id, v: nat)
    requires var cs := After(Init, es).clients;
             a in cs && b in cs && Holds(cs[a], v) && Holds(cs[b], v)
    ensures a == b
  {
    var s := After(Init, es);
    Reachable(es);
    GotIsClaimed(s, a, v);
    GotIsClaimed(s, b, v);
    OwnerIsUnique(s, a, b, v);
  }

  /** Each client's stream strictly increases and runs through its blocks in claiming order without a gap. */
  lemma StreamFollowsBlocks(es: seq<Event>, id: Id)
    requires id in After(Init, es).clients
    ensures var s := After(Init, es);
            Increasing(s.clients[id].got) && s.clients[id].got <= Claimed(s.blocks, id)
  {
    var s := After(Init, es);
    Reachable(es);
    GotAscends(s, id);
    assert ClientOk(s, id, s.clients[id]);
  }

  /** Increasing numbers that leave out none from `lo` on are `lo` and its successors. */
  lemma {:induction false} FullIsRange(q: seq<nat>, lo: nat, i: nat)
    requires Increasing(q) && i < |q|
    requires forall x | x in q :: lo <= x && forall u: nat | lo <= u <= x :: u in q
    ensures q[i] == lo + i
  {
    assert q[i] in q;
    if i > 0 {
      FullIsRange(q, lo, i - 1);
      assert forall j | 0 <= j < i :: q[j] <= q[i - 1];
    }
    assert lo + i <= q[i];
    assert lo + i in q;
    var j :| 0 <= j < |q| && q[j] == lo + i;
    assert j >= i;
  }

  lemma BeforeLost(s: State, id: Id, v: nat, u: nat)
    requires Inv(s) && id in s.clients && forall k | 0 <= k < |s.blocks| :: s.blocks[k].owner == id
    requires v in s.clients[id].got && s.start <= u <= v
    requires forall k | 0 <= k < |s.blocks| && s.blocks[k].lost :: v < s.blocks[k].lo
    ensures u in s.clients[id].got
  {
    GotIsClaimed(s, id, v);
    GotIsClaimed(s, id, u);
    GotAscends(s, id);
    BlocksCover(s, |s.blocks|, v);
    BlocksCover(s, |s.blocks|, u);
    assert u < RowAt(s, |s.blocks|);
    var k: nat :| k < |s.blocks| && In(s.blocks[k], u);
    assert !s.blocks[k].lost;
  }

  lemma LostIsNotGot(s: State, id: Id, k: nat, v: nat)
    requires Inv(s) && id in s.clients && k < |s.blocks| && s.blocks[k].lost && In(s.blocks[k], v)
    ensures v !in s.clients[id].got
  {
    Fates(s, v, k);
    assert !Delivered(s, v);
  }

  lemma GotFromStart(s: State, id: Id, v: nat)
    requires Inv(s) && id in s.clients && v in s.clients[id].got
    ensures s.start <= v
  {
    GotIsClaimed(s, id, v);
    BlocksCover(s, |s.blocks|, v);
  }

  lemma RangeHas(lo: nat, n: nat, v: nat)
    requires lo <= v < lo + n
    ensures v in Range(lo, lo + n)
  {
    assert Range(lo, lo + n)[v - lo] == v;
  }

  lemma LoneStream(s: State, id: Id)
    requires Inv(s) && id in s.clients && forall k | 0 <= k < |s.blocks| :: s.blocks[k].owner == id
    ensures var got := s.clients[id].got;
            got == Range(s.start, s.start + |got|)
            <==> forall k, v | 0 <= k < |s.blocks| && s.blocks[k].lost && v in got :: v < s.blocks[k].lo
  {
    var got := s.clients[id].got;
    GotAscends(s, id);
    if forall k, v | 0 <= k < |s.blocks| && s.blocks[k].lost && v in got :: v < s.blocks[k].lo {
      forall x, u: nat | x in got && s.start <= u <= x ensures u in got { BeforeLost(s, id, x, u); }
      forall x | x in got ensures s.start <= x { GotFromStart(s, id, x); }
      forall i: nat | i < |got| ensures got[i] == s.start + i { FullIsRange(got, s.start, i); }
      assert got == Range(s.start, s.start + |got|);
    }
    if got == Range(s.start, s.start + |got|) {
      forall k, v | 0 <= k < |s.blocks| && s.blocks[k].lost && v in got ensures v < s.blocks[k].lo {
        var lo := s.blocks[k].lo;
        assert TileOk(s, k);
        BlocksAscend(s, 0, k);
        if lo <= v { RangeHas(s.start, |got|, lo); }
        LostIsNotGot(s, id, k, lo);
      }
    }
  }

  /**
   * A lone client delivers the start number and its successors without a gap exactly as
   * long as it has delivered nothing past a block whose update lost its reply.
   */
  lemma LoneClientHasNoGaps(es: seq<Event>, id: Id)
    requires After(Init, es).clients.Keys == {id}
    ensures var s := After(Init, es); var got := s.clients[id].got;
            got == Range(s.start, s.start + |got|)
            <==> forall k, v | 0 <= k < |s.blocks| && s.blocks[k].lost && v in got :: v < s.blocks[k].lo
  {
    Reachable(es);
    LoneStream(After(Init, es), id);
  }

  /**
   * Stop safety: whatever is closed or crashes at whatever moment, a worker offers only
   * numbers of a block its client has claimed, which nobody has been given yet.
   */
  lemma OffersAreOwnAndFresh(es: seq<Event>, id: Id)
    requires var s := After(Init, es); id in s.clients && s.clients[id].phase.Offering?
    ensures var s := After(Init, es);
            Owns(s.blocks, id, s.clients[id].curr) && !Delivered(s, s.clients[id].curr)
  {
    var s := After(Init, es);
    Reachable(es);
    FreshOffer(s, id);
  }

  lemma FreshOffer(s: State, id: Id)
    requires Inv(s) && id in s.clients && s.clients[id].phase.Offering?
    ensures Owns(s.blocks, id, s.clients[id].curr) && !Delivered(s, s.clients[id].curr)
  {
    var v := s.clients[id].curr;
    assert ClientOk(s, id, s.clients[id]);
    GotIsClaimed(s, id, v);
    var k :| 0 <= k < |s.blocks| && s.blocks[k].owner == id && !s.blocks[k].lost && In(s.blocks[k], v);
    Fates(s, v, k);
    GotAscends(s, id);
  }

  lemma DeliveredForever(s: State, e: Event, v: nat)
    requires Delivered(s, v)
    ensures Delivered(Apply(s, e), v)
  {
    var id :| id in s.clients && v in s.clients[id].got;
    assert id in Apply(s, e).clients && v in Apply(s, e).clients[id].got;
  }

  /** Every delivered number fits the column, and so the 64 bits it is computed in. */
  lemma DeliveredFits(s: State, v: nat)
    requires Inv(s) && Delivered(s, v)
    ensures v < COLUMN_LIMIT
  {
    var id :| id in s.clients && v in s.clients[id].got;
    GotIsClaimed(s, id, v);
    BlocksCover(s, |s.blocks|, v);
  }

  /**
   * A successful update read the current row, raises the version, starts its block at or
   * above all the client had before, and ends the refill loop.
   */
  lemma UpdateEndsRefill(es: seq<Event>, id: Id)
    requires var s := After(Init, es);
             && id in s.clients && s.clients[id].phase.Updating?
             && CasSucceeds(s.row, s.clients[id].phase.seen, s.clients[id].step)
    ensures var s := After(Init, es); var s' := Apply(s, UpdateRow(id));
            && s.row == Some(s.clients[id].phase.seen)
            && s'.row.value.version > s.row.value.version
            && StartsBlock(s, s', id)
  {
    var s := After(Init, es);
    Reachable(es);
    SuccessMeansCurrent(s, id);
    UpdateOffers(s, id);
  }

  /** The client gets a block of its own step at or above its old one, and offers its first number. */
  predicate StartsBlock(s: State, s': State, id: Id)
    requires id in s.clients
  {
    && id in s'.clients
    && var cl, cl' := s.clients[id], s'.clients[id];
    && s'.blocks == s.blocks + [Block(cl'.curr, cl'.max, id, false)]
    && cl.max <= cl'.curr < cl'.max == cl'.curr + cl.step
    && cl'.phase.Offering?
  }

  lemma UpdateOffers(s: State, id: Id)
    requires Inv(s) && id in s.clients && s.clients[id].phase.Updating?
    requires CasSucceeds(s.row, s.clients[id].phase.seen, s.clients[id].step)
    ensures StartsBlock(s, Apply(s, UpdateRow(id)), id)
  {
    assert ClientOk(s, id, s.clients[id]);
    SuccessMeansCurrent(s, id);
  }

  /** An update that fails on the version was overtaken by another client's success since its read. */
  lemma FailureMeansProgress(es: seq<Event>, id: Id)
    requires var s := After(Init, es);
             && id in s.clients && s.clients[id].phase.Updating?
             && s.clients[id].phase.seen.sequence + s.clients[id].step < COLUMN_LIMIT
    ensures var s := After(Init, es); var seen := s.clients[id].phase.seen;
            !CasSucceeds(s.row, seen, s.clients[id].step) <==> |s.blocks| > seen.version - 1
  {
    var s := After(Init, es);
    Reachable(es);
    assert ClientOk(s, id, s.clients[id]);
  }

  // ------------------------------------------------- when Close can return

  /** The worker of a closed client can still reach its return. */
  ghost predicate MayExit(s: State, id: Id) {
    exists es: seq<Event> :: var s' := After(s, es); id in s'.clients && s'.clients[id].phase.Exited?
  }

  /** The worker still gets to its select: it is there, or a renewal under way will take it there. */
  predicate ReachesSelect(s: State, id: Id)
    requires id in s.clients
  {
    var cl := s.clients[id];
    || cl.phase.Offering?
    || cl.phase.Exited?
    || (cl.phase.Updating? && CasSucceeds(s.row, cl.phase.seen, cl.step))
  }

  lemma StuckStep(s: State, id: Id, e: Event)
    requires Inv(s) && id in s.clients && s.clients[id].stopped && !ReachesSelect(s, id)
    ensures var s' := Apply(s, e);
            id in s'.clients && s'.clients[id].stopped && !ReachesSelect(s', id)
  {
    assert ClientOk(s, id, s.clients[id]);
  }

  lemma {:induction false} StuckForever(s: State, id: Id, es: seq<Event>)
    requires Inv(s) && id in s.clients && s.clients[id].stopped && !ReachesSelect(s, id)
    ensures var s' := After(s, es);
            id in s'.clients && s'.clients[id].stopped && !ReachesSelect(s', id)
  {
    if es != [] {
      var front := es[..|es| - 1];
      StuckForever(s, id, front);
      RunsKeepInv(s, front);
      StuckStep(After(s, front), id, es[|es| - 1]);
    }
  }

  /**
   * Close waits for the worker.  The worker of a closed client can return exactly when it
   * is in its select or about to get there; once a refill meets the stop signal, the inner
   * loop, which does not look at it, spins for ever.
   */
  lemma CloseReturns(s: State, id: Id)
    requires Inv(s) && id in s.clients && s.clients[id].stopped
    ensures MayExit(s, id) <==> ReachesSelect(s, id)
  {
    var cl := s.clients[id];
    assert ClientOk(s, id, cl);
    if ReachesSelect(s, id) {
      var es := if cl.phase.Exited? then []
                else if cl.phase.Offering? then [Quit(id)]
                else [UpdateRow(id), Quit(id)];
      ExitRun(s, id, es);
    } else {
      forall es: seq<Event> ensures id in After(s, es).clients && !After(s, es).clients[id].phase.Exited? {
        StuckForever(s, id, es);
      }
    }
  }

  lemma ExitRun(s: State, id: Id, es: seq<Event>)
    requires Inv(s) && id in s.clients && s.clients[id].stopped && ReachesSelect(s, id)
    requires var p := s.clients[id].phase;
             es == if p.Exited? then [] else if p.Offering? then [Quit(id)] else [UpdateRow(id), Quit(id)]
    ensures MayExit(s, id)
  {
    if s.clients[id].phase.Updating? {
      var s1 := Apply(s, UpdateRow(id));
      assert s1.clients[id].phase.Offering? by { assert ClientOk(s, id, s.clients[id]); }
      AfterConcat(s, [UpdateRow(id)], [Quit(id)]);
      assert es == [UpdateRow(id)] + [Quit(id)];
      AfterOne(s, UpdateRow(id));
      AfterOne(s1, Quit(id));
    } else if s.clients[id].phase.Offering? {
      AfterOne(s, Quit(id));
    }
    assert After(s, es).clients[id].phase.Exited?;
  }

  lemma AfterOne(s: State, e: Event)
    ensures After(s, [e]) == Apply(s, e)
  {
    assert [e][..0] == [];
  }

  // ------------------------------------- when Close is sure to return

  /** The worker of a closed client has not returned, and never will. */
  ghost predicate Hangs(s: State, id: Id) {
    id in s.clients && s.clients[id].stopped && !s.clients[id].phase.Crashed? && !MayExit(s, id)
  }

  ghost predicate MayHang(s: State, id: Id) {
    exists es: seq<Event> :: Hangs(After(s, es), id)
  }

  function Deliveries(id: Id, k: nat): seq<Event> {
    if k == 0 then [] else Deliveries(id, k - 1) + [Deliver(id)]
  }

  /** Receivers can use a block up, stopped or not. */
  lemma {:induction false} Drain(s: State, id: Id, k: nat)
    requires id in s.clients && s.clients[id].phase.Offering? && k <= s.clients[id].max - s.clients[id].curr
    requires s.clients[id].curr < s.clients[id].max
    ensures var cl := s.clients[id]; var s' := After(s, Deliveries(id, k));
            && id in s'.clients
            && var cl' := s'.clients[id];
            && cl'.stopped == cl.stopped && cl'.max == cl.max && cl'.curr == cl.curr + k
            && cl'.phase == if cl'.curr >= cl.max then Reading else Offering
  {
    if k > 0 {
      Drain(s, id, k - 1);
      var es := Deliveries(id, k);
      assert es[..|es| - 1] == Deliveries(id, k - 1);
    }
  }

  lemma {:induction false} GoneStays(s: State, id: Id, es: seq<Event>)
    requires id in s.clients && (s.clients[id].phase.Exited? || s.clients[id].phase.Crashed?)
    ensures var s' := After(s, es); id in s'.clients && (s'.clients[id].phase.Exited? || s'.clients[id].phase.Crashed?)
  {
    if es != [] { GoneStays(s, id, es[..|es| - 1]); }
  }

  lemma SpinningHangs(s: State, id: Id, es: seq<Event>)
    requires Inv(s) && var s' := After(s, es); id in s'.clients && s'.clients[id].stopped && s'.clients[id].phase.Reading?
    ensures MayHang(s, id)
  {
    RunsKeepInv(s, es);
    CloseReturns(After(s, es), id);
    assert Hangs(After(s, es), id);
  }

  /** The worker of a closed client may hang exactly when it has not returned or crashed, wherever else it is. */
  lemma CloseMayHang(s: State, id: Id)
    requires Inv(s) && id in s.clients && s.clients[id].stopped
    ensures MayHang(s, id) <==> s.clients[id].phase.Offering? || s.clients[id].phase.Updating? || s.clients[id].phase.Reading?
  {
    var cl := s.clients[id];
    assert ClientOk(s, id, cl);
    if cl.phase.Offering? {
      Drain(s, id, cl.max - cl.curr);
      SpinningHangs(s, id, Deliveries(id, cl.max - cl.curr));
    } else if cl.phase.Updating? {
      AfterOne(s, UpdateFails(id));
      SpinningHangs(s, id, [UpdateFails(id)]);
    } else if cl.phase.Reading? {
      SpinningHangs(s, id, []);
    } else {
      forall es: seq<Event> ensures !Hangs(After(s, es), id) {
        GoneStays(s, id, es);
        assert After(After(s, es), []) == After(s, es);
      }
    }
  }

  /** Nobody receives from a client any more, and it does not crash. */
  predicate Quiet(id: Id, es: seq<Event>) {
    forall i | 0 <= i < |es| :: es[i] != Deliver(id) && es[i] != Crash(id)
  }

  /** Whatever the others do, the worker can return as long as nobody receives from it. */
  ghost predicate SureToReturn(s: State, id: Id) {
    forall es: seq<Event> | Quiet(id, es) :: MayExit(After(s, es), id)
  }

  lemma {:induction false} QuietOfferStays(s: State, id: Id, es: seq<Event>)
    requires Quiet(id, es) && id in s.clients && s.clients[id].stopped
    requires s.clients[id].phase.Offering? || s.clients[id].phase.Exited?
    ensures var s' := After(s, es);
            id in s'.clients && s'.clients[id].stopped && (s'.clients[id].phase.Offering? || s'.clients[id].phase.Exited?)
  {
    if es != [] {
      QuietOfferStays(s, id, es[..|es| - 1]);
      assert es[|es| - 1] != Deliver(id) && es[|es| - 1] != Crash(id);
    }
  }

  /** While nobody receives from a closed client, its worker is sure to return exactly when it has, or is in its select. */
  lemma CloseIsSure(s: State, id: Id)
    requires Inv(s) && id in s.clients && s.clients[id].stopped
    ensures SureToReturn(s, id) <==> s.clients[id].phase.Exited? || s.clients[id].phase.Offering?
  {
    var cl := s.clients[id];
    if cl.phase.Exited? || cl.phase.Offering? {
      forall es: seq<Event> | Quiet(id, es) ensures MayExit(After(s, es), id) {
        QuietOfferStays(s, id, es);
        RunsKeepInv(s, es);
        CloseReturns(After(s, es), id);
      }
    } else {
      var es := if cl.phase.Updating? then [UpdateFails(id)] else [];
      AfterOne(s, UpdateFails(id));
      assert Quiet(id, es);
      RunsKeepInv(s, es);
      CloseReturns(After(s, es), id);
    }
  }

  lemma OneMore(es: seq<Event>, i: nat)
    requires i < |es|
    ensures After(Init, es[..i + 1]) == Apply(After(Init, es[..i]), es[i])
  {
    assert es[..i + 1][..i] == es[..i];
  }

  /** A client that has claimed one block of one number, 7, and offers it. */
  const ONE_BLOCK: seq<Event> := [Join(0, 1, 7), FindRow(0), CreateRow(0), ReadRow(0), UpdateRow(0)]

  lemma OneBlock()
    ensures var s := After(Init, ONE_BLOCK);
            && s.clients.Keys == {0}
            && s.clients[0] == Client(1, 7, 7, 8, Offering, false, [])
  {
    var es := ONE_BLOCK;
    OneMore(es, 0);
    OneMore(es, 1);
    OneMore(es, 2);
    OneMore(es, 3);
    OneMore(es, 4);
    assert es[..5] == es;
  }

  /** A run that ends with a Close that can never return: the block is used up when it arrives. */
  lemma CloseCanHang()
    ensures Hangs(After(Init, ONE_BLOCK + [Deliver(0), Close(0)]), 0)
  {
    var s := After(Init, ONE_BLOCK);
    OneBlock();
    Reachable(ONE_BLOCK);
    AfterConcat(Init, ONE_BLOCK, [Deliver(0), Close(0)]);
    AfterConcat(s, [Deliver(0)], [Close(0)]);
    AfterOne(s, Deliver(0));
    var used := Apply(s, Deliver(0));
    AfterOne(used, Close(0));
    ApplyKeepsInv(s, Deliver(0));
    ApplyKeepsInv(used, Close(0));
    CloseReturns(Apply(used, Close(0)), 0);
    assert [Deliver(0), Close(0)] == [Deliver(0)] + [Close(0)];
  }

  /** Another: the worker is in its select, and a receiver that is waiting beats the stop signal. */
  lemma LateCloseCanHang()
    ensures var s := After(Init, ONE_BLOCK + [Close(0)]);
            MayExit(s, 0) && Hangs(Apply(s, Deliver(0)), 0)
  {
    var s := After(Init, ONE_BLOCK);
    OneBlock();
    Reachable(ONE_BLOCK);
    AfterConcat(Init, ONE_BLOCK, [Close(0)]);
    AfterOne(s, Close(0));
    var closed := Apply(s, Close(0));
    ApplyKeepsInv(s, Close(0));
    ApplyKeepsInv(closed, Deliver(0));
    CloseReturns(closed, 0);
    CloseReturns(Apply(closed, Deliver(0)), 0);
  }
}
