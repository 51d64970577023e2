/** What a batch makes of every row of the ledger: left as it was, raised with a definite status, or retired in
    favour of a row of the batch, each with its time. */
module PromotionOutcomes {
  import opened Wrappers
  import opened PromotionTables
  import opened PromotionTheory
  import opened PromotionRuns

  /** Candidate `i` made row `p` current: a row that owns a signal is promoted, another one has the status
      the candidate asks for. */
  ghost predicate RaisedBy(row: Promotion, cs: seq<Candidate>, rows: seq<Id>, i: nat, p: Id) {
    && i < |rows| == |cs| && rows[i] == p
    && row.status == (if row.signal.Some? then Promoted else cs[i].status)
    && row.supersededBy.None? && row.supersededAt.None?
  }

  /** A row the batch has written is stamped; it is current because a candidate asked for it, or has been
      superseded, now, by a row of the batch. */
  ghost predicate WrittenBy(row: Promotion, cs: seq<Candidate>, rows: seq<Id>, now: Time, p: Id) {
    && row.updatedAt == now
    && (row.isCurrent ==> exists i: nat :: RaisedBy(row, cs, rows, i, p))
    && (!row.isCurrent ==>
          row.status == Superseded && row.supersededAt == Some(now)
          && row.supersededBy.Some? && row.supersededBy.value in rows)
  }

  ghost predicate AccountedFor(t: Tables, t': Tables, cs: seq<Candidate>, rows: seq<Id>, now: Time, p: Id)
    requires p in t'.promotions
  {
    (p in t.promotions && t'.promotions[p] == t.promotions[p]) || WrittenBy(t'.promotions[p], cs, rows, now, p)
  }

  ghost predicate AllAccountedFor(t: Tables, t': Tables, cs: seq<Candidate>, rows: seq<Id>, now: Time) {
    forall p {:trigger AccountedFor(t, t', cs, rows, now, p)} | p in t'.promotions ::
      AccountedFor(t, t', cs, rows, now, p)
  }

  lemma NothingToAccountFor(t: Tables, cs: seq<Candidate>, rows: seq<Id>, now: Time)
    ensures AllAccountedFor(t, t, cs, rows, now)
  {
  }

  lemma TransferIsAccountedFor(t: Tables, t': Tables, c: Candidate, x: Id, status: PromotionStatus, now: Time)
    requires Transfers(t, t', x, status, now)
    requires status == if t.promotions[x].signal.Some? then Promoted else c.status
    ensures AllAccountedFor(t, t', [c], [x], now)
  {
    forall p | p in t'.promotions ensures AccountedFor(t, t', [c], [x], now, p) {
      if p == x {
        assert RaisedBy(t'.promotions[p], [c], [x], 0, p);
      }
    }
  }

  lemma CreatedIsAccountedFor(t: Tables, c: Candidate, ids: NewIds, now: Time)
    requires Inv(t) && c.company.Some? && Fresh(t, ids) && Create(t, c, ids, now).Success?
    ensures AllAccountedFor(t, Created(t, c, ids, now), [c], [ids.promotion], now)
  {
    var u, t', r := WithSignal(t, c, ids, now), Created(t, c, ids, now), ids.promotion;
    NewVersionIsReady(t, c, ids, now);
    HandOverTransfers(u, r, c.status, now);
    InsertRecords(t, c, ids, now);
    TransferIsAccountedFor(u, t', c, r, c.status, now);
    CreatedExtends(t, c, ids, now);
    InsertedBesides(t, u, t', c, ids, now);
  }

  /** Where the new row is accounted for, so is the insertion of it. */
  lemma InsertedBesides(t: Tables, u: Tables, t': Tables, c: Candidate, ids: NewIds, now: Time)
    requires c.company.Some? && !LacksQuality(c) && u == WithSignal(t, c, ids, now)
    requires ids.promotion in t'.promotions && t'.promotions[ids.promotion].isCurrent
    requires AllAccountedFor(u, t', [c], [ids.promotion], now) && !u.promotions[ids.promotion].isCurrent
    ensures AllAccountedFor(t, t', [c], [ids.promotion], now)
  {
    forall p | p in t'.promotions ensures AccountedFor(t, t', [c], [ids.promotion], now, p) {
      assert AccountedFor(u, t', [c], [ids.promotion], now, p);
      assert p != ids.promotion && p in u.promotions ==> p in t.promotions && u.promotions[p] == t.promotions[p];
    }
  }

  lemma ReplayedIsAccountedFor(t: Tables, c: Candidate, x: Id, now: Time)
    requires Inv(t) && HasProjection(t, x)
    ensures AllAccountedFor(t, Replayed(t, c, x, now), [c], [x], now)
  {
    if t.promotions[x].isCurrent {
      NothingToAccountFor(t, [c], [x], now);
    } else {
      HandOverTransfers(t, x, RevivedStatus(t.promotions[x], c), now);
      TransferIsAccountedFor(t, Replayed(t, c, x, now), c, x, RevivedStatus(t.promotions[x], c), now);
    }
  }

  lemma WrittenByMore(row: Promotion, c: Candidate, cs: seq<Candidate>, x: Id, rows: seq<Id>, now: Time, p: Id)
    requires WrittenBy(row, [c], [x], now, p) || WrittenBy(row, cs, rows, now, p)
    requires |cs| == |rows|
    ensures WrittenBy(row, [c] + cs, [x] + rows, now, p)
  {
    if row.isCurrent {
      if WrittenBy(row, [c], [x], now, p) {
        var i: nat :| RaisedBy(row, [c], [x], i, p);
        assert RaisedBy(row, [c] + cs, [x] + rows, i, p);
      } else {
        var i: nat :| RaisedBy(row, cs, rows, i, p);
        assert RaisedBy(row, [c] + cs, [x] + rows, i + 1, p);
      }
    }
  }

  /** What the first candidate and the rest account for, the batch does. */
  lemma AccountsAdd(t: Tables, t1: Tables, t': Tables, cs: seq<Candidate>, rows: seq<Id>, now: Time)
    requires cs != [] && |rows| == |cs|
    requires AllAccountedFor(t, t1, [cs[0]], [rows[0]], now)
    requires AllAccountedFor(t1, t', cs[1..], rows[1..], now)
    ensures AllAccountedFor(t, t', cs, rows, now)
  {
    assert [cs[0]] + cs[1..] == cs && [rows[0]] + rows[1..] == rows;
    forall p | p in t'.promotions ensures AccountedFor(t, t', cs, rows, now, p) {
      assert AccountedFor(t1, t', cs[1..], rows[1..], now, p);
      assert p in t1.promotions ==> AccountedFor(t, t1, [cs[0]], [rows[0]], now, p);
      if !(p in t.promotions && t'.promotions[p] == t.promotions[p]) {
        WrittenByMore(t'.promotions[p], cs[0], cs[1..], rows[0], rows[1..], now, p);
      }
    }
  }

  lemma {:induction false} CreateAllIsAccountedFor(t: Tables, cs: seq<Candidate>, ids: seq<NewIds>,
                                                   now: Time, t': Tables)
    requires Inv(t) && |ids| == |cs| && Resolved(cs) && AllFresh(t, ids)
    requires CreateAll(t, cs, ids, now) == Success(t')
    ensures AllAccountedFor(t, t', cs, PromotionIds(ids), now)
    decreases |cs|
  {
    if cs == [] {
      NothingToAccountFor(t, cs, PromotionIds(ids), now);
    } else {
      CreateHead(t, cs, ids, now, t');
      CreatedIsAccountedFor(t, cs[0], ids[0], now);
      CreateAllIsAccountedFor(Created(t, cs[0], ids[0], now), cs[1..], ids[1..], now, t');
      assert PromotionIds(ids)[1..] == PromotionIds(ids[1..]);
      AccountsAdd(t, Created(t, cs[0], ids[0], now), t', cs, PromotionIds(ids), now);
    }
  }

  lemma {:induction false} ReplayAllIsAccountedFor(t: Tables, cs: seq<Candidate>, rows: seq<Id>, now: Time)
    requires Inv(t) && RowsOf(t, cs, rows)
    ensures forall p :: p in rows ==> HasProjection(t, p)
    ensures AllAccountedFor(t, ReplayAll(t, cs, rows, now), cs, rows, now)
    decreases |cs|
  {
    RowsHaveProjections(t, rows);
    if cs == [] {
      NothingToAccountFor(t, cs, rows, now);
    } else {
      var t1 := Replayed(t, cs[0], rows[0], now);
      HeadStep(t, cs, rows, now);
      ReplayedIsAccountedFor(t, cs[0], rows[0], now);
      ReplayAllIsAccountedFor(t1, cs[1..], rows[1..], now);
      AccountsAdd(t, t1, ReplayAll(t, cs, rows, now), cs, rows, now);
    }
  }

  /** Every batch that succeeds accounts for every row: it leaves it exactly as it was, raises it for one of
      its candidates, or retires it in favour of one of its rows; and a batch it creates is recorded
      candidate by candidate. */
  lemma BatchIsAccountedFor(t: Tables, cs: seq<Candidate>, ids: seq<NewIds>, now: Time)
    requires Inv(t) && |ids| == |cs| && AllFresh(t, ids)
    requires Apply(t, cs, ids, now).Success?
    ensures var o := Apply(t, cs, ids, now).value;
            && AllAccountedFor(t, o.tables, cs, o.rows, now)
            && (o.created ==>
                  && |o.rows| == |cs|
                  && forall i :: 0 <= i < |cs| ==> RecordsCandidate(o.tables, o.rows[i], cs[i], now))
  {
    var o := Apply(t, cs, ids, now).value;
    if cs == [] {
      NothingToAccountFor(t, cs, o.rows, now);
    } else if AllStored(t, cs) {
      ReplayAllIsAccountedFor(t, cs, o.rows, now);
    } else {
      CreateAllIsAccountedFor(t, cs, ids, now, o.tables);
      CreateAllKeepsInv(t, cs, ids, now, o.tables);
    }
  }
}
