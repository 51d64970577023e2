/** A table of versions: rows are grouped, keyed within their group, and at most one row of a group
    is current. Both evidence tables are instances of it. */
module VersionedTable {
  import opened Wrappers

  type Id = nat
  type Time = int

  datatype Row<G, K, C> =
    Row(group: G, key: K, content: C, isCurrent: bool, supersededAt: Option<Time>)

  type Table<G, K, C> = map<Id, Row<G, K, C>>

  /** One call that saves a version; `isCurrent` and `supersededAt` come with the version. */
  datatype Save<G, K, C> =
    Save(id: Id, group: G, key: K, content: C, isCurrent: bool, supersededAt: Option<Time>, now: Time)

  predicate Holds<G(==), K(==), C>(t: Table<G, K, C>, id: Id, g: G, k: K) {
    id in t && t[id].group == g && t[id].key == k
  }

  predicate IsSaved<G(==), K(==), C>(t: Table<G, K, C>, g: G, k: K) {
    exists id :: id in t && Holds(t, id, g, k)
  }

  function Superseded<G(==), K, C>(t: Table<G, K, C>, g: G, now: Time): Table<G, K, C> {
    map id | id in t ::
      if t[id].group == g && t[id].isCurrent
      then t[id].(isCurrent := false, supersededAt := Some(now)) else t[id]
  }

  function Reactivated<G(==), K, C>(t: Table<G, K, C>, id: Id, now: Time): Table<G, K, C>
    requires id in t
  {
    if t[id].isCurrent then t
    else Superseded(t, t[id].group, now)[id := t[id].(isCurrent := true, supersededAt := None)]
  }

  function Inserted<G(==), K, C>(t: Table<G, K, C>, s: Save<G, K, C>): Table<G, K, C> {
    Superseded(t, s.group, s.now)[s.id := Row(s.group, s.key, s.content, s.isCurrent, s.supersededAt)]
  }

  /** `t'` is `t` after the save. */
  ghost predicate Steps<G, K, C>(t: Table<G, K, C>, s: Save<G, K, C>, t': Table<G, K, C>) {
    if IsSaved(t, s.group, s.key)
    then exists id: Id :: Holds(t, id, s.group, s.key) && t' == Reactivated(t, id, s.now)
    else s.id !in t && t' == Inserted(t, s)
  }

  // ----------------------------------------------------- what a history of saves means

  /** The content first saved under a key, if any. */
  ghost function First<G, K, C>(h: seq<Save<G, K, C>>, g: G, k: K): Option<C>
    decreases |h|
  {
    if h == [] then None
    else
      var before, s := First(h[..|h| - 1], g, k), h[|h| - 1];
      if before.Some? then before
      else if s.group == g && s.key == k then Some(s.content)
      else None
  }

  /** The key a group was last saved under, unless that save brought in a version marked as not
      current. */
  ghost function Kept<G, K, C>(h: seq<Save<G, K, C>>, g: G): Option<K>
    decreases |h|
  {
    if h == [] then None
    else
      var before, s := h[..|h| - 1], h[|h| - 1];
      if s.group != g then Kept(before, g)
      else if First(before, g, s.key).Some? || s.isCurrent then Some(s.key)
      else None
  }

  /** A row has the content first saved under its key, and is current exactly when its key is the
      one kept for its group. */
  ghost predicate RowMeans<G, K, C>(t: Table<G, K, C>, h: seq<Save<G, K, C>>, id: Id)
    requires id in t
  {
    && First(h, t[id].group, t[id].key) == Some(t[id].content)
    && (t[id].isCurrent <==> Kept(h, t[id].group) == Some(t[id].key))
  }

  ghost predicate KeysAreUnique<G, K, C>(t: Table<G, K, C>) {
    forall i, j {:trigger Holds(t, i, t[j].group, t[j].key)} | i in t && j in t ::
      Holds(t, i, t[j].group, t[j].key) ==> i == j
  }

  /** The table holds exactly the keys of the history, each of them once. */
  ghost predicate Refines<G(!new), K(!new), C(!new)>(t: Table<G, K, C>, h: seq<Save<G, K, C>>) {
    && (forall id {:trigger RowMeans(t, h, id)} | id in t :: RowMeans(t, h, id))
    && (forall g, k {:trigger IsSaved(t, g, k)} | First(h, g, k).Some? :: IsSaved(t, g, k))
    && KeysAreUnique(t)
  }

  lemma KeptIsSaved<G, K, C>(h: seq<Save<G, K, C>>, g: G)
    requires Kept(h, g).Some?
    ensures First(h, g, Kept(h, g).value).Some?
    decreases |h|
  {
    if h[|h| - 1].group != g { KeptIsSaved(h[..|h| - 1], g); }
  }

  /** No save removes a row or changes what it records. */
  lemma SaveKeepsRows<G, K, C>(t: Table<G, K, C>, s: Save<G, K, C>, t': Table<G, K, C>)
    requires Steps(t, s, t')
    ensures t.Keys <= t'.Keys
    ensures forall id | id in t ::
              t'[id].group == t[id].group && t'[id].key == t[id].key && t'[id].content == t[id].content
  {
    if IsSaved(t, s.group, s.key) {
      var x :| Holds(t, x, s.group, s.key) && t' == Reactivated(t, x, s.now);
    }
  }

  /** A save stamps exactly the rows it takes out of use and clears the stamp of the one it revives; a row it
      inserts is as the save brings it in. */
  lemma SaveStamps<G, K, C>(t: Table<G, K, C>, s: Save<G, K, C>, t': Table<G, K, C>, id: Id)
    requires Steps(t, s, t') && id in t'
    ensures if id !in t then
              t'[id] == Row(s.group, s.key, s.content, s.isCurrent, s.supersededAt)
            else if t[id].isCurrent && !t'[id].isCurrent then
              t[id].group == s.group && t'[id].supersededAt == Some(s.now)
            else if !t[id].isCurrent && t'[id].isCurrent then
              t[id].group == s.group && t[id].key == s.key && t'[id].supersededAt == None
            else t'[id] == t[id]
  {
    if IsSaved(t, s.group, s.key) {
      var x :| Holds(t, x, s.group, s.key) && t' == Reactivated(t, x, s.now);
    }
  }

  /** What one more save adds to the meaning of a history. */
  lemma HistoryGrows<G(!new), K(!new), C(!new)>(h: seq<Save<G, K, C>>, s: Save<G, K, C>)
    ensures forall g, k :: First(h + [s], g, k) ==
              if First(h, g, k).Some? then First(h, g, k)
              else if s.group == g && s.key == k then Some(s.content) else None
    ensures forall g :: Kept(h + [s], g) ==
              if s.group != g then Kept(h, g)
              else if First(h, g, s.key).Some? || s.isCurrent then Some(s.key) else None
  {
    assert (h + [s])[..|h|] == h;
  }

  lemma InsertRefines<G(!new), K(!new), C(!new)>(
    t: Table<G, K, C>, h: seq<Save<G, K, C>>, s: Save<G, K, C>)
    requires Refines(t, h) && !IsSaved(t, s.group, s.key) && s.id !in t
    ensures Refines(Inserted(t, s), h + [s])
  {
    var t' := Inserted(t, s);
    HistoryGrows(h, s);
    assert First(h, s.group, s.key).Some? ==> IsSaved(t, s.group, s.key);
    forall id | id in t' ensures RowMeans(t', h + [s], id) {
      assert id != s.id ==> RowMeans(t, h, id) && !Holds(t, id, s.group, s.key);
    }
    forall g, k | First(h + [s], g, k).Some? ensures IsSaved(t', g, k) {
      if First(h, g, k).Some? {
        assert IsSaved(t, g, k);
        var id: Id :| id in t && Holds(t, id, g, k);
        assert Holds(t', id, g, k);
      } else {
        assert Holds(t', s.id, g, k);
      }
    }
    forall i, j | i in t' && j in t' && Holds(t', i, t'[j].group, t'[j].key) ensures i == j {
      assert i != s.id && j != s.id ==> Holds(t, i, t[j].group, t[j].key);
      assert i != s.id ==> !Holds(t, i, s.group, s.key);
      assert j != s.id ==> !Holds(t, j, s.group, s.key);
    }
  }

  lemma ReactivateRefines<G(!new), K(!new), C(!new)>(
    t: Table<G, K, C>, h: seq<Save<G, K, C>>, s: Save<G, K, C>, x: Id)
    requires Refines(t, h) && x in t && Holds(t, x, s.group, s.key)
    ensures Refines(Reactivated(t, x, s.now), h + [s])
  {
    var t' := Reactivated(t, x, s.now);
    HistoryGrows(h, s);
    assert RowMeans(t, h, x);
    forall id | id in t' ensures RowMeans(t', h + [s], id) {
      assert RowMeans(t, h, id);
      assert id != x ==> !Holds(t, id, t[x].group, t[x].key);
    }
    forall g, k | First(h + [s], g, k).Some? ensures IsSaved(t', g, k) {
      assert First(h, g, k).Some? && IsSaved(t, g, k);
      var id: Id :| id in t && Holds(t, id, g, k);
      assert Holds(t', id, g, k);
    }
    forall i, j | i in t' && j in t' && Holds(t', i, t'[j].group, t'[j].key) ensures i == j {
      assert Holds(t, i, t[j].group, t[j].key);
    }
  }

  /** A save takes the meaning of the history to the meaning of the longer history. */
  lemma SaveRefines<G(!new), K(!new), C(!new)>(
    t: Table<G, K, C>, h: seq<Save<G, K, C>>, s: Save<G, K, C>, t': Table<G, K, C>)
    requires Refines(t, h) && Steps(t, s, t')
    ensures Refines(t', h + [s])
  {
    if IsSaved(t, s.group, s.key) {
      var x: Id :| Holds(t, x, s.group, s.key) && t' == Reactivated(t, x, s.now);
      ReactivateRefines(t, h, s, x);
    } else {
      InsertRefines(t, h, s);
    }
  }

  /** `tables` is the table before, between and after the saves of `h`, starting empty. */
  ghost predicate IsRun<G, K, C>(tables: seq<Table<G, K, C>>, h: seq<Save<G, K, C>>) {
    && |tables| == |h| + 1 && tables[0] == map[]
    && forall i {:trigger h[i]} :: 0 <= i < |h| ==> Steps(tables[i], h[i], tables[i + 1])
  }

  /** After any sequence of saves the table is what the history of the saves means. */
  lemma {:induction false} RunRefines<G(!new), K(!new), C(!new)>(
    tables: seq<Table<G, K, C>>, h: seq<Save<G, K, C>>, n: nat)
    requires IsRun(tables, h) && n <= |h|
    ensures Refines(tables[n], h[..n])
    decreases n
  {
    if n > 0 {
      RunRefines(tables, h, n - 1);
      SaveRefines(tables[n - 1], h[..n - 1], h[n - 1], tables[n]);
      assert h[..n] == h[..n - 1] + [h[n - 1]];
    }
  }

  /** No row is ever removed, and none ever records anything but what it first recorded. */
  lemma {:induction false} RunKeepsRows<G(!new), K(!new), C(!new)>(
    tables: seq<Table<G, K, C>>, h: seq<Save<G, K, C>>, m: nat, n: nat, id: Id)
    requires IsRun(tables, h) && m <= n <= |h| && id in tables[m]
    ensures id in tables[n] && tables[n][id].group == tables[m][id].group
    ensures tables[n][id].key == tables[m][id].key && tables[n][id].content == tables[m][id].content
    decreases n
  {
    if m < n {
      RunKeepsRows(tables, h, m, n - 1, id);
      SaveKeepsRows(tables[n - 1], h[n - 1], tables[n]);
    }
  }

  ghost predicate IsCurrentOf<G, K, C>(t: Table<G, K, C>, g: G, id: Id) {
    id in t && t[id].group == g && t[id].isCurrent
  }

  /** A group has a current row exactly when the history keeps a key for it; the row is then the
      only one, it has that key, and its content is what was first saved under it. */
  lemma CurrentRowIsKept<G(!new), K(!new), C(!new)>(t: Table<G, K, C>, h: seq<Save<G, K, C>>, g: G)
    requires Refines(t, h)
    ensures Kept(h, g).Some? <==> exists id: Id :: IsCurrentOf(t, g, id)
    ensures forall id | IsCurrentOf(t, g, id) ::
              t[id].key == Kept(h, g).value && First(h, g, t[id].key) == Some(t[id].content)
    ensures forall i, j | IsCurrentOf(t, g, i) && IsCurrentOf(t, g, j) :: i == j
  {
    forall id | IsCurrentOf(t, g, id) ensures RowMeans(t, h, id) {}
    forall i, j | IsCurrentOf(t, g, i) && IsCurrentOf(t, g, j) ensures i == j {
      assert RowMeans(t, h, i) && RowMeans(t, h, j);
      assert Holds(t, i, t[j].group, t[j].key);
    }
    if Kept(h, g).Some? {
      KeptIsSaved(h, g);
      assert IsSaved(t, g, Kept(h, g).value);
      var id :| id in t && Holds(t, id, g, Kept(h, g).value);
      assert RowMeans(t, h, id) && IsCurrentOf(t, g, id);
    }
  }

  /** Save `i` is the last one of its group. */
  ghost predicate LastOfGroup<G, K, C>(h: seq<Save<G, K, C>>, i: nat)
    requires i < |h|
  {
    forall j :: i < j < |h| ==> h[j].group != h[i].group
  }

  /** The kept key is the one last saved, if and only if that save named a known key or brought
      in a version marked as current. Versions are marked as current by default. */
  lemma {:induction false} LastSaveIsKeptIff<G(!new), K(!new), C(!new)>(h: seq<Save<G, K, C>>, i: nat)
    requires i < |h| && LastOfGroup(h, i)
    ensures Kept(h, h[i].group) == Some(h[i].key) <==>
            h[i].isCurrent || First(h[..i], h[i].group, h[i].key).Some?
    ensures Kept(h, h[i].group).Some? ==> Kept(h, h[i].group) == Some(h[i].key)
    decreases |h|
  {
    if i < |h| - 1 {
      var before := h[..|h| - 1];
      assert before[i] == h[i] && before[..i] == h[..i];
      forall j | i < j < |before| ensures before[j].group != before[i].group {
        assert before[j] == h[j];
      }
      LastSaveIsKeptIff(before, i);
    }
  }
}
