/** Shipments and the raw records they were seen in. */
module ShipmentProvenance {
  import opened Wrappers

  type Id = nat

  datatype Shipment = Shipment(fingerprint: string, content: string, rawIds: seq<Id>)

  /** One call: a shipment as normalised from one raw record. */
  datatype Arrival = Arrival(id: Id, fingerprint: string, content: string, raw: Id)

  function Appended(t: map<Id, Shipment>, p: Id, raw: Id): map<Id, Shipment>
    requires p in t
  {
    if raw in t[p].rawIds then t else t[p := t[p].(rawIds := t[p].rawIds + [raw])]
  }

  predicate OncePerFingerprint(t: map<Id, Shipment>) {
    forall p, q | p in t && q in t :: t[p].fingerprint == t[q].fingerprint ==> p == q
  }

  predicate IsStored(t: map<Id, Shipment>, fingerprint: string) {
    exists p :: p in t && t[p].fingerprint == fingerprint
  }

  /** `t'` is `t` after the arrival. */
  ghost predicate Arrives(t: map<Id, Shipment>, a: Arrival, t': map<Id, Shipment>) {
    if IsStored(t, a.fingerprint)
    then exists p :: p in t && t[p].fingerprint == a.fingerprint && t' == Appended(t, p, a.raw)
    else a.id !in t && t' == t[a.id := Shipment(a.fingerprint, a.content, [a.raw])]
  }

  /** The first arrival of a fingerprint. */
  ghost predicate IsFirst(h: seq<Arrival>, i: nat, fingerprint: string) {
    i < |h| && h[i].fingerprint == fingerprint &&
    forall j :: 0 <= j < i ==> h[j].fingerprint != fingerprint
  }

  ghost predicate Saw(h: seq<Arrival>, fingerprint: string, raw: Id) {
    exists i :: 0 <= i < |h| && h[i].fingerprint == fingerprint && h[i].raw == raw
  }

  /** When a raw record was first seen for a fingerprint. */
  ghost function SeenAt(h: seq<Arrival>, fingerprint: string, raw: Id): (i: nat)
    requires Saw(h, fingerprint, raw)
    ensures i < |h| && h[i].fingerprint == fingerprint && h[i].raw == raw
    ensures forall j :: 0 <= j < i ==> !(h[j].fingerprint == fingerprint && h[j].raw == raw)
  {
    if h[0].fingerprint == fingerprint && h[0].raw == raw then 0
    else
      assert Saw(h[1..], fingerprint, raw) by {
        var k :| 0 <= k < |h| && h[k].fingerprint == fingerprint && h[k].raw == raw;
        assert h[1..][k - 1] == h[k];
      }
      var k := SeenAt(h[1..], fingerprint, raw);
      assert forall j :: 0 < j < k + 1 ==> h[j] == h[1..][j - 1];
      k + 1
  }

  /** A stored shipment is the first arrival of its fingerprint, and its provenance lists every
      raw record seen with that fingerprint, once each, in the order they were first seen. */
  ghost predicate Provenance(s: Shipment, id: Id, h: seq<Arrival>) {
    && (exists i: nat :: IsFirst(h, i, s.fingerprint) && h[i].id == id && h[i].content == s.content)
    && (forall raw :: raw in s.rawIds <==> Saw(h, s.fingerprint, raw))
    && (forall i, j :: 0 <= i < j < |s.rawIds| ==>
          SeenAt(h, s.fingerprint, s.rawIds[i]) < SeenAt(h, s.fingerprint, s.rawIds[j]))
  }

  ghost predicate Refines(t: map<Id, Shipment>, h: seq<Arrival>) {
    && OncePerFingerprint(t)
    && (forall p {:trigger Provenance(t[p], p, h)} | p in t :: Provenance(t[p], p, h))
    && (forall i {:trigger h[i]} :: 0 <= i < |h| ==> IsStored(t, h[i].fingerprint))
  }

  lemma SightingsStay(h: seq<Arrival>, a: Arrival, fingerprint: string, raw: Id)
    requires Saw(h, fingerprint, raw)
    ensures Saw(h + [a], fingerprint, raw)
    ensures SeenAt(h + [a], fingerprint, raw) == SeenAt(h, fingerprint, raw)
  {
    var k := SeenAt(h, fingerprint, raw);
    assert (h + [a])[k] == h[k];
    assert forall j :: 0 <= j < |h| ==> (h + [a])[j] == h[j];
  }

  lemma NewSighting(h: seq<Arrival>, a: Arrival, fingerprint: string, raw: Id)
    requires !Saw(h, fingerprint, raw)
    ensures Saw(h + [a], fingerprint, raw) <==> a.fingerprint == fingerprint && a.raw == raw
    ensures Saw(h + [a], fingerprint, raw) ==> SeenAt(h + [a], fingerprint, raw) == |h|
  {
    assert (h + [a])[|h|] == a;
    assert forall j :: 0 <= j < |h| ==> (h + [a])[j] == h[j];
  }

  lemma FirstStays(h: seq<Arrival>, a: Arrival, i: nat, fingerprint: string)
    requires IsFirst(h, i, fingerprint)
    ensures IsFirst(h + [a], i, fingerprint) && (h + [a])[i] == h[i]
  {
  }

  /** One more arrival keeps every row's provenance exact. */
  lemma ArrivalKeepsProvenance(s: Shipment, id: Id, h: seq<Arrival>, a: Arrival)
    requires Provenance(s, id, h)
    ensures var rawIds := if a.fingerprint == s.fingerprint && a.raw !in s.rawIds
                          then s.rawIds + [a.raw] else s.rawIds;
            Provenance(s.(rawIds := rawIds), id, h + [a])
  {
    var i: nat :| IsFirst(h, i, s.fingerprint) && h[i].id == id && h[i].content == s.content;
    FirstStays(h, a, i, s.fingerprint);
    forall raw ensures Saw(h + [a], s.fingerprint, raw) <==>
                       raw in s.rawIds || (a.fingerprint == s.fingerprint && a.raw == raw)
    {
      if Saw(h, s.fingerprint, raw) { SightingsStay(h, a, s.fingerprint, raw); }
      else { NewSighting(h, a, s.fingerprint, raw); }
    }
    forall k | 0 <= k < |s.rawIds|
      ensures SeenAt(h + [a], s.fingerprint, s.rawIds[k]) == SeenAt(h, s.fingerprint, s.rawIds[k])
    {
      assert s.rawIds[k] in s.rawIds;
      SightingsStay(h, a, s.fingerprint, s.rawIds[k]);
    }
    if a.fingerprint == s.fingerprint && a.raw !in s.rawIds {
      NewSighting(h, a, s.fingerprint, a.raw);
    }
  }

  /** The first arrival of a fingerprint starts a provenance of its own. */
  lemma FirstArrivalHasProvenance(h: seq<Arrival>, a: Arrival)
    requires forall i :: 0 <= i < |h| ==> h[i].fingerprint != a.fingerprint
    ensures Provenance(Shipment(a.fingerprint, a.content, [a.raw]), a.id, h + [a])
  {
    assert IsFirst(h + [a], |h|, a.fingerprint);
    forall raw ensures Saw(h + [a], a.fingerprint, raw) <==> raw == a.raw {
      NewSighting(h, a, a.fingerprint, raw);
    }
  }

  lemma RepeatRefines(t: map<Id, Shipment>, h: seq<Arrival>, a: Arrival, p: Id)
    requires Refines(t, h) && p in t && t[p].fingerprint == a.fingerprint
    ensures Refines(Appended(t, p, a.raw), h + [a])
  {
    var t' := Appended(t, p, a.raw);
    forall q | q in t ensures Provenance(t'[q], q, h + [a]) {
      assert Provenance(t[q], q, h);
      ArrivalKeepsProvenance(t[q], q, h, a);
      assert q != p ==> t[q].fingerprint != a.fingerprint;
    }
    forall i | 0 <= i < |h + [a]| ensures IsStored(t', (h + [a])[i].fingerprint) {
      StillStored(t, t', (h + [a])[i].fingerprint);
    }
  }

  lemma StillStored(t: map<Id, Shipment>, t': map<Id, Shipment>, fingerprint: string)
    requires forall p | p in t :: p in t' && t'[p].fingerprint == t[p].fingerprint
    ensures IsStored(t, fingerprint) ==> IsStored(t', fingerprint)
  {
    if IsStored(t, fingerprint) {
      var p :| p in t && t[p].fingerprint == fingerprint;
      assert p in t' && t'[p].fingerprint == fingerprint;
    }
  }

  lemma InsertRefines(t: map<Id, Shipment>, h: seq<Arrival>, a: Arrival)
    requires Refines(t, h) && !IsStored(t, a.fingerprint) && a.id !in t
    ensures Refines(t[a.id := Shipment(a.fingerprint, a.content, [a.raw])], h + [a])
  {
    var t' := t[a.id := Shipment(a.fingerprint, a.content, [a.raw])];
    forall i | 0 <= i < |h| ensures h[i].fingerprint != a.fingerprint {
      assert IsStored(t, h[i].fingerprint);
    }
    FirstArrivalHasProvenance(h, a);
    forall q | q in t' ensures Provenance(t'[q], q, h + [a]) {
      if q != a.id {
        assert Provenance(t[q], q, h);
        ArrivalKeepsProvenance(t[q], q, h, a);
      }
    }
    forall i | 0 <= i < |h + [a]| ensures IsStored(t', (h + [a])[i].fingerprint) {
      StillStored(t, t', (h + [a])[i].fingerprint);
      assert a.id in t' && t'[a.id].fingerprint == a.fingerprint;
    }
  }

  /** An arrival takes a table that is exact for a history to one that is exact for the longer
      history: provenance is merged without loss, duplication or reordering. */
  lemma ArrivalRefines(t: map<Id, Shipment>, h: seq<Arrival>, a: Arrival, t': map<Id, Shipment>)
    requires Refines(t, h) && Arrives(t, a, t')
    ensures Refines(t', h + [a])
  {
    if IsStored(t, a.fingerprint) {
      var p :| p in t && t[p].fingerprint == a.fingerprint && t' == Appended(t, p, a.raw);
      RepeatRefines(t, h, a, p);
    } else {
      InsertRefines(t, h, a);
    }
  }

  /** `tables` is the table before, between and after the arrivals of `h`, starting empty. */
  ghost predicate IsRun(tables: seq<map<Id, Shipment>>, h: seq<Arrival>) {
    && |tables| == |h| + 1 && tables[0] == map[]
    && forall i {:trigger h[i]} :: 0 <= i < |h| ==> Arrives(tables[i], h[i], tables[i + 1])
  }

  lemma {:induction false} RunRefines(tables: seq<map<Id, Shipment>>, h: seq<Arrival>, n: nat)
    requires IsRun(tables, h) && n <= |h|
    ensures Refines(tables[n], h[..n])
    decreases n
  {
    if n > 0 {
      RunRefines(tables, h, n - 1);
      ArrivalRefines(tables[n - 1], h[..n - 1], h[n - 1], tables[n]);
      assert h[..n] == h[..n - 1] + [h[n - 1]];
    }
  }
}
