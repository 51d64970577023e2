/** What replaying a batch of stored candidates does, row by row. */
module PromotionReplay {
  import opened Wrappers
  import opened PromotionTables
  import opened PromotionTheory
  import opened PromotionRuns

  // ------------------------------------------------------------------ a replay as a trace

  /** What replaying row `x` does to each row. */
  ghost predicate Settles(t: Tables, t1: Tables, x: Id, now: Time) {
    && x in t.promotions && t1.promotions.Keys == t.promotions.Keys && Current(t1, x)
    && forall p {:trigger RowSettles(t, t1, x, now, p)} | p in t.promotions :: RowSettles(t, t1, x, now, p)
  }

  /** The row itself becomes current, the rest of its group is out of use, and other groups stay; a row
      that is written at all is stamped. */
  ghost predicate RowSettles(t: Tables, t1: Tables, x: Id, now: Time, p: Id)
    requires x in t.promotions && p in t.promotions && p in t1.promotions
  {
    var row, row1, ours := t.promotions[p], t1.promotions[p], t.promotions[p].group == t.promotions[x].group;
    && row1.group == row.group
    && (!ours ==> row1 == row)
    && (ours && p != x ==> !row1.isCurrent && (!row.isCurrent ==> row1 == row))
    && (p == x && row.isCurrent ==> row1 == row)
    && (row1 == row || row1.updatedAt == now)
    && row1.supersededBy == (if p == x then None else if ours && row.isCurrent then Some(x) else row.supersededBy)
  }

  /** What one replay step does to the links of any row. */
  lemma ReplayedLinks(t: Tables, c: Candidate, x: Id, now: Time, p: Id)
    requires Inv(t) && x in t.promotions && p in t.promotions
    ensures HasProjection(t, x) && p in Replayed(t, c, x, now).promotions
    ensures var row, row' := t.promotions[p], Replayed(t, c, x, now).promotions[p];
            var replaced := row.isCurrent && row.group == t.promotions[x].group && p != x;
            && row'.isCurrent == (p == x || (row.isCurrent && !replaced))
            && row'.supersededBy == (if p == x then None else if replaced then Some(x)
                                     else row.supersededBy)
            && row'.group == row.group
  {
    assert OwnsProjection(t, x) && WellThreaded(t, x);
    if t.promotions[x].isCurrent {
      assert Current(t, x) && (Current(t, p) ==> p == x || t.promotions[p].group != t.promotions[x].group);
    } else {
      HandOverTransfers(t, x, RevivedStatus(t.promotions[x], c), now);
    }
  }

  lemma ReplayedSettles(t: Tables, c: Candidate, x: Id, now: Time)
    requires Inv(t) && x in t.promotions
    ensures HasProjection(t, x) && Settles(t, Replayed(t, c, x, now), x, now)
  {
    assert OwnsProjection(t, x);
    if !t.promotions[x].isCurrent {
      HandOverTransfers(t, x, RevivedStatus(t.promotions[x], c), now);
    }
    var t1 := Replayed(t, c, x, now);
    forall p | p in t.promotions ensures RowSettles(t, t1, x, now, p) {
      ReplayedLinks(t, c, x, now, p);
      assert Current(t, x) && Current(t, p) ==> p == x || t.promotions[p].group != t.promotions[x].group;
    }
  }

  ghost predicate SettlesAt(states: seq<Tables>, rows: seq<Id>, now: Time, i: nat)
    requires i < |rows| && |states| == |rows| + 1
  {
    Settles(states[i], states[i + 1], rows[i], now)
  }

  /** The states a replay goes through: before, between and after its rows. */
  ghost predicate IsReplay(states: seq<Tables>, rows: seq<Id>, now: Time) {
    && |states| == |rows| + 1
    && forall i: nat {:trigger SettlesAt(states, rows, now, i)} | i < |rows| :: SettlesAt(states, rows, now, i)
  }

  lemma {:induction false} ReplayTrace(t: Tables, cs: seq<Candidate>, rows: seq<Id>, now: Time)
    returns (states: seq<Tables>)
    requires Inv(t) && RowsOf(t, cs, rows)
    ensures forall q :: q in rows ==> HasProjection(t, q)
    ensures IsReplay(states, rows, now) && states[0] == t && states[|rows|] == ReplayAll(t, cs, rows, now)
    decreases |cs|
  {
    RowsHaveProjections(t, rows);
    states := [t];
    if cs != [] {
      HeadStep(t, cs, rows, now);
      ReplayedSettles(t, cs[0], rows[0], now);
      var rest := ReplayTrace(Replayed(t, cs[0], rows[0], now), cs[1..], rows[1..], now);
      PrependState(t, rest, rows, now);
      states := [t] + rest;
    }
  }

  lemma PrependState(t: Tables, rest: seq<Tables>, rows: seq<Id>, now: Time)
    requires rows != [] && IsReplay(rest, rows[1..], now) && Settles(t, rest[0], rows[0], now)
    ensures IsReplay([t] + rest, rows, now)
  {
    var states := [t] + rest;
    forall i: nat | i < |rows| ensures SettlesAt(states, rows, now, i) {
      if i > 0 {
        assert SettlesAt(rest, rows[1..], now, i - 1);
      }
    }
  }

  lemma {:induction false} GroupsStay(states: seq<Tables>, rows: seq<Id>, now: Time, k: nat)
    requires IsReplay(states, rows, now) && k <= |rows|
    ensures states[k].promotions.Keys == states[0].promotions.Keys
    ensures forall p | p in states[0].promotions :: states[k].promotions[p].group == states[0].promotions[p].group
    decreases k
  {
    if k > 0 {
      GroupsStay(states, rows, now, k - 1);
      assert SettlesAt(states, rows, now, k - 1);
      forall p | p in states[0].promotions
        ensures states[k].promotions[p].group == states[0].promotions[p].group
      {
        assert RowSettles(states[k - 1], states[k], rows[k - 1], now, p);
      }
    }
  }

  /** Replaying row `x` does not touch row `p`, which is current or not. */
  ghost predicate Spares(t: Tables, x: Id, p: Id, current: bool)
    requires x in t.promotions && p in t.promotions
  {
    t.promotions[x].group != t.promotions[p].group || ((x == p) == current)
  }

  lemma {:induction false} SparedStays(states: seq<Tables>, rows: seq<Id>, now: Time, i: nat, k: nat, p: Id)
    requires IsReplay(states, rows, now) && i <= k <= |rows| && p in states[0].promotions
    requires forall j: nat :: i <= j < k ==> rows[j] in states[0].promotions
    requires p in states[i].promotions
    requires forall j: nat :: i <= j < k ==> Spares(states[0], rows[j], p, states[i].promotions[p].isCurrent)
    ensures p in states[k].promotions && states[k].promotions[p] == states[i].promotions[p]
    decreases k
  {
    if i < k {
      SparedStays(states, rows, now, i, k - 1, p);
      GroupsStay(states, rows, now, k - 1);
      assert SettlesAt(states, rows, now, k - 1);
      assert Spares(states[0], rows[k - 1], p, states[i].promotions[p].isCurrent);
      assert RowSettles(states[k - 1], states[k], rows[k - 1], now, p);
    }
  }

  /** A row is as it was, or it is stamped. */
  lemma {:induction false} StampedOrSame(states: seq<Tables>, rows: seq<Id>, now: Time, i: nat, k: nat, p: Id)
    requires IsReplay(states, rows, now) && i <= k <= |rows| && p in states[0].promotions
    ensures p in states[i].promotions && p in states[k].promotions
    ensures states[k].promotions[p] == states[i].promotions[p] || states[k].promotions[p].updatedAt == now
    decreases k
  {
    GroupsStay(states, rows, now, i);
    GroupsStay(states, rows, now, k);
    if i < k {
      StampedOrSame(states, rows, now, i, k - 1, p);
      assert SettlesAt(states, rows, now, k - 1);
      assert RowSettles(states[k - 1], states[k], rows[k - 1], now, p);
    }
  }

  // ------------------------------------------------------------------ which rows end up current

  /** Row `i` is the last one of its group among the rows a batch names. */
  ghost predicate LastOfGroup(t: Tables, rows: seq<Id>, i: nat)
    requires i < |rows| && forall j :: 0 <= j < |rows| ==> rows[j] in t.promotions
  {
    forall j :: i < j < |rows| ==>
      t.promotions[rows[j]].group == t.promotions[rows[i]].group ==> rows[j] == rows[i]
  }

  /** A row outside the groups a batch names, or already current when the batch names no other row
      of its group, is left exactly as it was. */
  lemma ReplayAllLeavesAlone(t: Tables, cs: seq<Candidate>, rows: seq<Id>, now: Time, p: Id)
    requires Inv(t) && RowsOf(t, cs, rows) && p in t.promotions
    requires forall j :: 0 <= j < |rows| ==>
               t.promotions[rows[j]].group != t.promotions[p].group || (rows[j] == p && Current(t, p))
    ensures forall q :: q in rows ==> HasProjection(t, q)
    ensures p in ReplayAll(t, cs, rows, now).promotions
    ensures ReplayAll(t, cs, rows, now).promotions[p] == t.promotions[p]
  {
    var states := ReplayTrace(t, cs, rows, now);
    SparedStays(states, rows, now, 0, |rows|, p);
  }

  /** A superseded row that a batch does not name is left exactly as it was. */
  lemma ReplayLeavesHistory(t: Tables, cs: seq<Candidate>, rows: seq<Id>, now: Time, p: Id)
    requires Inv(t) && RowsOf(t, cs, rows) && p in t.promotions
    requires p !in rows && !Current(t, p)
    ensures forall q :: q in rows ==> HasProjection(t, q)
    ensures p in ReplayAll(t, cs, rows, now).promotions
    ensures ReplayAll(t, cs, rows, now).promotions[p] == t.promotions[p]
  {
    var states := ReplayTrace(t, cs, rows, now);
    SparedStays(states, rows, now, 0, |rows|, p);
  }

  /** Of the rows a batch names, the last one of each group ends up current. */
  lemma ReplayAllMakesCurrent(t: Tables, cs: seq<Candidate>, rows: seq<Id>, now: Time, i: nat)
    requires Inv(t) && RowsOf(t, cs, rows) && i < |rows| && LastOfGroup(t, rows, i)
    ensures forall q :: q in rows ==> HasProjection(t, q)
    ensures Current(ReplayAll(t, cs, rows, now), rows[i])
  {
    var states := ReplayTrace(t, cs, rows, now);
    assert SettlesAt(states, rows, now, i);
    SparedStays(states, rows, now, i + 1, |rows|, rows[i]);
  }

  /** A batch that names another row of its group takes a row out of use. */
  lemma ReplayReplaces(t: Tables, cs: seq<Candidate>, rows: seq<Id>, now: Time, p: Id, i: nat)
    requires Inv(t) && RowsOf(t, cs, rows) && p in t.promotions && p !in rows
    requires i < |rows| && t.promotions[rows[i]].group == t.promotions[p].group
    ensures forall q :: q in rows ==> HasProjection(t, q)
    ensures !Current(ReplayAll(t, cs, rows, now), p)
  {
    var states := ReplayTrace(t, cs, rows, now);
    GroupsStay(states, rows, now, i);
    assert SettlesAt(states, rows, now, i);
    assert RowSettles(states[i], states[i + 1], rows[i], now, p);
    SparedStays(states, rows, now, i + 1, |rows|, p);
  }

  // --------------------------------------------------------- what a replay changes

  ghost predicate AllCurrent(t: Tables, rows: seq<Id>) {
    forall i :: 0 <= i < |rows| ==> Current(t, rows[i])
  }

  lemma {:induction false} ReplayOfCurrentRowsIsNothing(t: Tables, cs: seq<Candidate>,
                                                        rows: seq<Id>, now: Time)
    requires Inv(t) && RowsOf(t, cs, rows) && AllCurrent(t, rows)
    ensures forall q :: q in rows ==> HasProjection(t, q)
    ensures ReplayAll(t, cs, rows, now) == t
    decreases |cs|
  {
    RowsHaveProjections(t, rows);
    if cs != [] {
      assert Current(t, rows[0]);
      ReplayOfCurrentRowsIsNothing(t, cs[1..], rows[1..], now);
    }
  }

  /** A replay that names a row that is not current stamps it. */
  lemma ReplayStamps(t: Tables, cs: seq<Candidate>, rows: seq<Id>, now: Time, i: nat)
    requires Inv(t) && RowsOf(t, cs, rows) && i < |rows| && !Current(t, rows[i])
    ensures forall q :: q in rows ==> HasProjection(t, q)
    ensures rows[i] in ReplayAll(t, cs, rows, now).promotions
    ensures ReplayAll(t, cs, rows, now).promotions[rows[i]].updatedAt == now
  {
    var states := ReplayTrace(t, cs, rows, now);
    TraceStamps(states, rows, now, i);
  }

  lemma TraceStamps(states: seq<Tables>, rows: seq<Id>, now: Time, i: nat)
    requires IsReplay(states, rows, now) && i < |rows|
    requires rows[i] in states[0].promotions && !states[0].promotions[rows[i]].isCurrent
    ensures rows[i] in states[|rows|].promotions && states[|rows|].promotions[rows[i]].updatedAt == now
  {
    assert SettlesAt(states, rows, now, i);
    StampedOrSame(states, rows, now, 0, i + 1, rows[i]);
    StampedOrSame(states, rows, now, i + 1, |rows|, rows[i]);
  }

  /** A replay leaves the tables exactly as they were if and only if every row it names is
      already current (the clock having moved since the rows were last written). */
  lemma ReplayIsNothingIff(t: Tables, cs: seq<Candidate>, rows: seq<Id>, now: Time)
    requires Inv(t) && RowsOf(t, cs, rows)
    requires forall p :: p in t.promotions ==> t.promotions[p].updatedAt != now
    ensures forall q :: q in rows ==> HasProjection(t, q)
    ensures ReplayAll(t, cs, rows, now) == t <==> AllCurrent(t, rows)
  {
    RowsHaveProjections(t, rows);
    if AllCurrent(t, rows) {
      ReplayOfCurrentRowsIsNothing(t, cs, rows, now);
    } else {
      var i :| 0 <= i < |rows| && !Current(t, rows[i]);
      ReplayStamps(t, cs, rows, now, i);
    }
  }

  /** A batch that names two rows of one group writes to the tables on every replay. */
  lemma RivalRowsAreRewritten(t: Tables, cs: seq<Candidate>, rows: seq<Id>, now: Time, i: nat, j: nat)
    requires Inv(t) && RowsOf(t, cs, rows) && i < |rows| && j < |rows|
    requires forall p :: p in t.promotions ==> t.promotions[p].updatedAt != now
    requires rows[i] != rows[j] && t.promotions[rows[i]].group == t.promotions[rows[j]].group
    ensures forall q :: q in rows ==> HasProjection(t, q)
    ensures ReplayAll(t, cs, rows, now) != t
  {
    ReplayIsNothingIff(t, cs, rows, now);
    assert !(Current(t, rows[i]) && Current(t, rows[j]));
  }

  // ----------------------------------------------- replaying with repeated kinds

  ghost predicate SameLinks(t: Tables, u: Tables, p: Id) {
    && p in t.promotions && p in u.promotions
    && t.promotions[p].isCurrent == u.promotions[p].isCurrent
    && t.promotions[p].supersededBy == u.promotions[p].supersededBy
    && t.promotions[p].group == u.promotions[p].group
  }

  ghost predicate SameGroups(t: Tables, u: Tables) {
    && t.promotions.Keys == u.promotions.Keys
    && forall p :: p in t.promotions ==> t.promotions[p].group == u.promotions[p].group
  }

  /** Two replays of the same rows: what a row's links are after a step does not depend on what they
      were before, once the row has been named. */
  lemma {:induction false} TracesAgree(ss: seq<Tables>, us: seq<Tables>, rows: seq<Id>, now: Time, now': Time,
                                       k: nat, p: Id)
    requires IsReplay(ss, rows, now) && IsReplay(us, rows, now') && k <= |rows|
    requires SameGroups(ss[0], us[0]) && p in ss[0].promotions
    requires p in rows[..k] || SameLinks(ss[0], us[0], p)
    ensures SameLinks(ss[k], us[k], p)
    decreases k
  {
    if k > 0 {
      var x := rows[k - 1];
      assert rows[..k] == rows[..k - 1] + [x];
      if p != x || SameLinks(ss[0], us[0], p) {
        TracesAgree(ss, us, rows, now, now', k - 1, p);
      }
      GroupsStay(ss, rows, now, k - 1);
      GroupsStay(us, rows, now', k - 1);
      assert SettlesAt(ss, rows, now, k - 1) && SettlesAt(us, rows, now', k - 1);
      assert RowSettles(ss[k - 1], ss[k], x, now, p) && RowSettles(us[k - 1], us[k], x, now', p);
    }
  }

  /** Replaying any stored batch a second time, even one that repeats kinds, leaves every current
      flag and every supersession link as the first replay left them. */
  lemma ReplayTwiceKeepsLinks(t: Tables, cs: seq<Candidate>, rows: seq<Id>, now: Time, now': Time,
                              p: Id)
    requires Inv(t) && RowsOf(t, cs, rows) && p in t.promotions
    ensures forall q :: q in rows ==> HasProjection(t, q)
    ensures var t1 := ReplayAll(t, cs, rows, now);
            && (forall q :: q in rows ==> HasProjection(t1, q))
            && SameLinks(t1, ReplayAll(t1, cs, rows, now'), p)
  {
    ReplayAllKeepsInv(t, cs, rows, now);
    var t1 := ReplayAll(t, cs, rows, now);
    RowsStayRows(t, t1, cs, rows);
    RowsHaveProjections(t1, rows);
    forall q | q in t.promotions ensures t1.promotions[q].group == t.promotions[q].group {
      assert Recorded(t1.promotions[q]) == Recorded(t.promotions[q]);
    }
    if p in rows {
      NamedRowsAgree(t, t1, cs, rows, now, now', p);
    } else if i :| 0 <= i < |rows| && t.promotions[rows[i]].group == t.promotions[p].group {
      ReplayReplaces(t, cs, rows, now, p, i);
      ReplayLeavesHistory(t1, cs, rows, now', p);
    } else {
      ReplayAllLeavesAlone(t1, cs, rows, now', p);
    }
  }

  /** The links a batch leaves on the rows it names do not depend on the links it found. */
  lemma NamedRowsAgree(t: Tables, u: Tables, cs: seq<Candidate>, rows: seq<Id>, now: Time, now': Time, p: Id)
    requires Inv(t) && RowsOf(t, cs, rows) && p in rows && SameGroups(t, u)
    requires Inv(u) && RowsOf(u, cs, rows)
    ensures forall q :: q in rows ==> HasProjection(t, q)
    ensures forall q :: q in rows ==> HasProjection(u, q)
    ensures SameLinks(ReplayAll(t, cs, rows, now), ReplayAll(u, cs, rows, now'), p)
  {
    var ss := ReplayTrace(t, cs, rows, now);
    var us := ReplayTrace(u, cs, rows, now');
    NamedInTraces(ss, us, rows, now, now', p);
  }

  lemma NamedInTraces(ss: seq<Tables>, us: seq<Tables>, rows: seq<Id>, now: Time, now': Time, p: Id)
    requires IsReplay(ss, rows, now) && IsReplay(us, rows, now')
    requires SameGroups(ss[0], us[0]) && p in rows
    ensures SameLinks(ss[|rows|], us[|rows|], p)
  {
    var i: nat :| i < |rows| && rows[i] == p;
    GroupsStay(ss, rows, now, i);
    assert SettlesAt(ss, rows, now, i);
    assert rows[..|rows|] == rows;
    TracesAgree(ss, us, rows, now, now', |rows|, p);
  }
}
