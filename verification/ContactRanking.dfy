/** rank_contacts (apps/backend/app/services/contact_discovery.py) and what it makes of extracted contacts. */
module ContactRanking {
  import opened ContactExtraction
  import opened Contacts
  import opened Rounding
  import opened Text
  import opened Wrappers

  datatype Ranked = Ranked(contact: Contact, score: real)

  datatype Selection = Selection(
    primary: Option<Ranked>,
    alternatives: seq<Ranked>,
    supporting: seq<Ranked>,
    rejected: seq<Ranked>,
    reviewRequired: bool
  )

  // -------- Scores --------

  function Round3(x: real): real {
    RoundAt(x, 1000.0)
  }

  predicate IsPersonContact(c: Contact) {
    c.sourceType == Named && c.name != ""
  }

  predicate IsMailbox(c: Contact) {
    !IsPersonContact(c) && c.email != ""
  }

  predicate IsSupporting(c: Contact) {
    !IsPersonContact(c) && c.email == ""
  }

  function RoleConfidence(reader: Reader, c: Contact): real {
    reader.classify(if c.title == "" then None else Some(c.title)).confidence
  }

  function PersonScore(reader: Reader, c: Contact): real {
    Round3(RoleConfidence(reader, c) * 0.7 + (if c.email != "" then 0.2 else 0.0) + 0.1)
  }

  // The position of the first prefix the mailbox starts with, or the number of prefixes.
  function Preference(local: string, prefixes: seq<string>): (i: nat)
    ensures i <= |prefixes|
    ensures i < |prefixes| ==> StartsWith(local, prefixes[i])
    ensures forall k | 0 <= k < i :: !StartsWith(local, prefixes[k])
  {
    if prefixes == [] || StartsWith(local, prefixes[0]) then 0 else 1 + Preference(local, prefixes[1..])
  }

  function MailboxScore(reader: Reader, c: Contact): real {
    var plain := 0.5 - Preference(Lower(Before(c.email, '@')), reader.words.departments) as real * 0.03;
    Round3(if plain < 0.05 then 0.05 else plain)
  }

  function Rank(reader: Reader, c: Contact): Ranked {
    Ranked(c, if IsPersonContact(c) then PersonScore(reader, c)
              else if c.email != "" then MailboxScore(reader, c)
              else 0.1)
  }

  lemma MailboxScores(reader: Reader, c: Contact)
    ensures 0.05 <= MailboxScore(reader, c) <= 0.5
    ensures |reader.words.departments| <= 12 ==> 0.14 <= MailboxScore(reader, c)
  {
    var i := Preference(Lower(Before(c.email, '@')), reader.words.departments);
    var plain := 0.5 - i as real * 0.03;
    var score := if plain < 0.05 then 0.05 else plain;
    RoundingKeeps(0.05, 1000.0, 50);
    RoundingKeeps(0.14, 1000.0, 140);
    RoundingKeeps(0.5, 1000.0, 500);
    RoundingIsMonotone(0.05, score, 1000.0);
    RoundingIsMonotone(score, 0.5, 1000.0);
    if i <= 12 {
      RoundingIsMonotone(0.14, score, 1000.0);
    }
  }

  // A mailbox prefers the department prefixes in their order: 0.5 for the first, 0.03 less for each that comes
  // later, and 0.05 at least.
  lemma MailboxScoreIs(reader: Reader, c: Contact, i: nat)
    requires IsMailbox(c)
    requires var local, prefixes := Lower(Before(c.email, '@')), reader.words.departments;
             && i <= |prefixes| && (forall k | 0 <= k < i :: !StartsWith(local, prefixes[k]))
             && (i < |prefixes| ==> StartsWith(local, prefixes[i]))
    ensures Rank(reader, c).score == if i <= 15 then 0.5 - 0.03 * i as real else 0.05
  {
    var local, prefixes := Lower(Before(c.email, '@')), reader.words.departments;
    assert Preference(local, prefixes) == i;
    RoundingKeeps(0.05, 1000.0, 50);
    RoundingKeeps(0.5 - i as real * 0.03, 1000.0, 500 - 30 * i);
  }

  lemma PersonScoreIsNear(reader: Reader, c: Contact)
    requires IsPersonContact(c) && c.title != ""
    ensures var plain := reader.classify(Some(c.title)).confidence * 0.7 + (if c.email != "" then 0.3 else 0.1);
            plain - 0.0005 <= Rank(reader, c).score <= plain + 0.0005
  {
    RoundingIsNear(RoleConfidence(reader, c) * 0.7 + (if c.email != "" then 0.2 else 0.0) + 0.1, 1000.0);
  }

  lemma PersonScores(reader: Reader, c: Contact)
    requires RoleConfidence(reader, c) >= 0.5 && c.email != ""
    ensures PersonScore(reader, c) >= 0.65
  {
    RoundingKeeps(0.65, 1000.0, 650);
    RoundingIsMonotone(0.65, RoleConfidence(reader, c) * 0.7 + 0.2 + 0.1, 1000.0);
  }

  // -------- The order --------

  // The key (-score, email, name), compared as Python compares tuples.
  predicate Precedes(a: Ranked, b: Ranked) {
    a.score > b.score || (a.score == b.score && TieBroken(a.contact, b.contact))
  }

  predicate TieBroken(a: Contact, b: Contact) {
    if a.email == b.email then UpTo(a.name, b.name) else UpTo(a.email, b.email)
  }

  lemma PrecedesTotal(a: Ranked, b: Ranked)
    ensures Precedes(a, b) || Precedes(b, a)
  {
    UpToTotal(a.contact.email, b.contact.email);
    UpToTotal(a.contact.name, b.contact.name);
  }

  lemma PrecedesTransitive(a: Ranked, b: Ranked, c: Ranked)
    requires Precedes(a, b) && Precedes(b, c)
    ensures Precedes(a, c)
  {
    var x, y, z := a.contact, b.contact, c.contact;
    if a.score == b.score == c.score {
      if x.email == y.email {
        if y.email == z.email {
          UpToTransitive(x.name, y.name, z.name);
        }
      } else if y.email != z.email {
        UpToTransitive(x.email, y.email, z.email);
        if x.email == z.email {
          UpToAntisymmetric(x.email, y.email);
        }
      }
    }
  }

  // Two entries the sort cannot tell apart.
  predicate Tied(a: Ranked, b: Ranked) {
    a.score == b.score && a.contact.email == b.contact.email && a.contact.name == b.contact.name
  }

  // list.sort: a stable insertion sort.
  function Insert(s: seq<Ranked>, x: Ranked): seq<Ranked> {
    if s == [] || Precedes(s[|s| - 1], x) then s + [x]
    else Insert(s[..|s| - 1], x) + [s[|s| - 1]]
  }

  function Sort(s: seq<Ranked>): seq<Ranked> {
    if s == [] then [] else Insert(Sort(s[..|s| - 1]), s[|s| - 1])
  }

  ghost predicate IsSorted(s: seq<Ranked>) {
    forall i, j | 0 <= i < j < |s| :: Precedes(s[i], s[j])
  }

  // The entries tied with the given one, in their order.
  function TiedWith(s: seq<Ranked>, x: Ranked): seq<Ranked> {
    if s == [] then []
    else TiedWith(s[..|s| - 1], x) + (if Tied(s[|s| - 1], x) then [s[|s| - 1]] else [])
  }

  lemma {:induction false} InsertAdds(s: seq<Ranked>, x: Ranked)
    ensures multiset(Insert(s, x)) == multiset(s) + multiset{x}
  {
    if s != [] && !Precedes(s[|s| - 1], x) {
      var front, last := s[..|s| - 1], s[|s| - 1];
      assert s == front + [last];
      InsertAdds(front, x);
    }
  }

  lemma {:induction false} InsertSorts(s: seq<Ranked>, x: Ranked)
    requires IsSorted(s)
    ensures IsSorted(Insert(s, x))
  {
    if s != [] && !Precedes(s[|s| - 1], x) {
      var front, last := s[..|s| - 1], s[|s| - 1];
      InsertSorts(front, x);
      PrecedesTotal(last, x);
      MembersOfInsert(front, x);
      LastIsLast(Insert(front, x), last);
    } else if s != [] {
      forall i | 0 <= i < |s|
        ensures Precedes(s[i], x)
      {
        if i < |s| - 1 {
          PrecedesTransitive(s[i], s[|s| - 1], x);
        }
      }
    }
  }

  lemma MembersOfInsert(s: seq<Ranked>, x: Ranked)
    ensures forall r | r in Insert(s, x) :: r in s || r == x
  {
    InsertAdds(s, x);
    forall r | r in Insert(s, x)
      ensures r in s || r == x
    {
      assert r in multiset(Insert(s, x));
    }
  }

  lemma LastIsLast(s: seq<Ranked>, last: Ranked)
    requires IsSorted(s) && forall r | r in s :: Precedes(r, last)
    ensures IsSorted(s + [last])
  {
    assert forall i | 0 <= i < |s| :: s[i] in s;
  }

  lemma {:induction false} SortSorts(s: seq<Ranked>)
    ensures IsSorted(Sort(s))
    ensures multiset(Sort(s)) == multiset(s)
  {
    if s != [] {
      assert s == s[..|s| - 1] + [s[|s| - 1]];
      SortSorts(s[..|s| - 1]);
      InsertSorts(Sort(s[..|s| - 1]), s[|s| - 1]);
      InsertAdds(Sort(s[..|s| - 1]), s[|s| - 1]);
    }
  }

  lemma {:induction false} InsertIsStable(s: seq<Ranked>, x: Ranked, k: Ranked)
    requires IsSorted(s)
    ensures TiedWith(Insert(s, x), k) == TiedWith(s + [x], k)
  {
    if s != [] && !Precedes(s[|s| - 1], x) {
      var front, last := s[..|s| - 1], s[|s| - 1];
      InsertIsStable(front, x, k);
      var r := Insert(front, x) + [last];
      assert r[..|r| - 1] == Insert(front, x);
      assert (s + [x])[..|s|] == s && (front + [x])[..|front|] == front;
      if Tied(x, k) && Tied(last, k) {
        assert Tied(last, x);
        UpToTotal(x.contact.name, x.contact.name);
        assert false;
      }
    }
  }

  // Tied entries keep their order.
  lemma {:induction false} SortIsStable(s: seq<Ranked>, k: Ranked)
    ensures TiedWith(Sort(s), k) == TiedWith(s, k)
  {
    if s != [] {
      var front, last := s[..|s| - 1], s[|s| - 1];
      SortIsStable(front, k);
      SortSorts(front);
      InsertIsStable(Sort(front), last, k);
      assert (Sort(front) + [last])[..|Sort(front)|] == Sort(front);
    }
  }

  // -------- rank_contacts --------

  function RankedOf(reader: Reader, contacts: seq<Contact>): seq<Ranked> {
    if contacts == [] then []
    else
      var last := contacts[|contacts| - 1];
      RankedOf(reader, contacts[..|contacts| - 1]) + (if IsSupporting(last) then [] else [Rank(reader, last)])
  }

  function SupportingOf(reader: Reader, contacts: seq<Contact>): seq<Ranked> {
    if contacts == [] then []
    else
      var last := contacts[|contacts| - 1];
      SupportingOf(reader, contacts[..|contacts| - 1]) + (if IsSupporting(last) then [Rank(reader, last)] else [])
  }

  // The primary, the alternatives and the rejected, in this order.
  function InOrder(sel: Selection): seq<Ranked> {
    (if sel.primary.Some? then [sel.primary.value] else []) + sel.alternatives + sel.rejected
  }

  ghost predicate Selects(reader: Reader, contacts: seq<Contact>, sel: Selection) {
    && InOrder(sel) == Sort(RankedOf(reader, contacts))
    && sel.supporting == SupportingOf(reader, contacts)
    && |sel.alternatives| <= 4
    && (sel.alternatives != [] ==> sel.primary.Some?)
    && (sel.rejected != [] ==> |sel.alternatives| == 4)
    && (sel.reviewRequired <==> sel.primary.None? || sel.primary.value.contact.sourceType != Named)
  }

  method RankContacts(reader: Reader, contacts: seq<Contact>) returns (sel: Selection)
    ensures Selects(reader, contacts, sel)
  {
    var ranked: seq<Ranked>, supporting: seq<Ranked> := [], [];
    for i := 0 to |contacts|
      invariant ranked == RankedOf(reader, contacts[..i])
      invariant supporting == SupportingOf(reader, contacts[..i])
    {
      var c := contacts[i];
      if c.sourceType == Named && c.name != "" {
        ranked := ranked + [Ranked(c, PersonScore(reader, c))];
      } else if c.email != "" {
        ranked := ranked + [Ranked(c, MailboxScore(reader, c))];
      } else {
        supporting := supporting + [Ranked(c, 0.1)];
      }
      OneMoreContact(reader, contacts, i);
    }
    assert contacts[..|contacts|] == contacts;
    ranked := Sort(ranked);
    if ranked == [] {
      return Selection(None, [], supporting, [], true);
    }
    sel := Distribute(ranked, supporting);
  }

  lemma OneMoreContact(reader: Reader, contacts: seq<Contact>, i: nat)
    requires i < |contacts|
    ensures var c := contacts[i];
            && RankedOf(reader, contacts[..i + 1]) ==
               RankedOf(reader, contacts[..i]) + (if IsSupporting(c) then [] else [Rank(reader, c)])
            && SupportingOf(reader, contacts[..i + 1]) ==
               SupportingOf(reader, contacts[..i]) + (if IsSupporting(c) then [Rank(reader, c)] else [])
  {
    assert contacts[..i + 1][..i] == contacts[..i];
  }

  // The first is the primary, the next four are the alternatives, the others are rejected.
  function Distribute(ranked: seq<Ranked>, supporting: seq<Ranked>): (sel: Selection)
    requires ranked != []
    ensures InOrder(sel) == ranked && sel.supporting == supporting
    ensures sel.primary.Some? && |sel.alternatives| <= 4 && (sel.rejected != [] ==> |sel.alternatives| == 4)
    ensures sel.reviewRequired <==> sel.primary.value.contact.sourceType != Named
  {
    var primary, rest := ranked[0], ranked[1..];
    var cut := Min(4, |rest|);
    assert [primary] + rest[..cut] + rest[cut..] == ranked;
    Selection(Some(primary), rest[..cut], supporting, rest[cut..], primary.contact.sourceType != Named)
  }

  // -------- What is selected --------

  function RankAll(reader: Reader, contacts: seq<Contact>): (r: seq<Ranked>)
    ensures |r| == |contacts|
  {
    if contacts == [] then []
    else RankAll(reader, contacts[..|contacts| - 1]) + [Rank(reader, contacts[|contacts| - 1])]
  }

  lemma {:induction false} RankAllAt(reader: Reader, contacts: seq<Contact>)
    ensures forall i | 0 <= i < |contacts| :: RankAll(reader, contacts)[i] == Rank(reader, contacts[i])
  {
    if contacts != [] {
      RankAllAt(reader, contacts[..|contacts| - 1]);
    }
  }

  lemma {:induction false} RankedOnce(reader: Reader, contacts: seq<Contact>)
    ensures multiset(RankedOf(reader, contacts)) + multiset(SupportingOf(reader, contacts)) ==
            multiset(RankAll(reader, contacts))
  {
    if contacts != [] {
      RankedOnce(reader, contacts[..|contacts| - 1]);
    }
  }

  // Every contact is in exactly one place of the selection, with its score, and nothing else is.
  lemma {:induction false} SelectionIsPermutation(reader: Reader, contacts: seq<Contact>, sel: Selection)
    requires Selects(reader, contacts, sel)
    ensures multiset(InOrder(sel)) + multiset(sel.supporting) == multiset(RankAll(reader, contacts))
    ensures forall i | 0 <= i < |contacts| :: RankAll(reader, contacts)[i] == Rank(reader, contacts[i])
  {
    RankAllAt(reader, contacts);
    RankedOnce(reader, contacts);
    SortSorts(RankedOf(reader, contacts));
  }

  // The order is by score, address and name, and contacts that agree in all three stay in the order they came.
  lemma SelectionIsSorted(reader: Reader, contacts: seq<Contact>, sel: Selection, k: Ranked)
    requires Selects(reader, contacts, sel)
    ensures IsSorted(InOrder(sel))
    ensures TiedWith(InOrder(sel), k) == TiedWith(RankedOf(reader, contacts), k)
  {
    SortSorts(RankedOf(reader, contacts));
    SortIsStable(RankedOf(reader, contacts), k);
  }

  lemma {:induction false} RankedAre(reader: Reader, contacts: seq<Contact>)
    ensures forall r | r in RankedOf(reader, contacts) ::
              r.contact in contacts && !IsSupporting(r.contact) && r == Rank(reader, r.contact)
    ensures forall c | c in contacts && !IsSupporting(c) :: Rank(reader, c) in RankedOf(reader, contacts)
  {
    if contacts != [] {
      var front, last := contacts[..|contacts| - 1], contacts[|contacts| - 1];
      assert contacts == front + [last];
      RankedAre(reader, front);
    }
  }

  lemma InOrderAre(reader: Reader, contacts: seq<Contact>, sel: Selection)
    requires Selects(reader, contacts, sel)
    ensures forall r | r in InOrder(sel) ::
              r.contact in contacts && !IsSupporting(r.contact) && r == Rank(reader, r.contact)
    ensures forall c | c in contacts && !IsSupporting(c) :: Rank(reader, c) in InOrder(sel)
  {
    RankedAre(reader, contacts);
    SortSorts(RankedOf(reader, contacts));
    SameMembers(InOrder(sel), RankedOf(reader, contacts));
  }

  lemma SameMembers(s: seq<Ranked>, t: seq<Ranked>)
    requires multiset(s) == multiset(t)
    ensures forall r :: r in s <==> r in t
  {
    forall r
      ensures r in s <==> r in t
    {
      assert r in s <==> r in multiset(s);
    }
  }

  // There is no primary exactly when no contact has an address or is a named person.
  lemma NoPrimaryIff(reader: Reader, contacts: seq<Contact>, sel: Selection)
    requires Selects(reader, contacts, sel)
    ensures sel.primary.None? <==> forall c | c in contacts :: c.email == "" && !(c.sourceType == Named && c.name != "")
  {
    InOrderAre(reader, contacts, sel);
    if sel.primary.None? {
      assert InOrder(sel) == [];
    } else {
      assert InOrder(sel)[0] == sel.primary.value && sel.primary.value in InOrder(sel);
    }
  }

  // A person with an address and a role.
  predicate IsReachablePerson(reader: Reader, c: Contact) {
    IsPersonContact(c) && c.email != "" && RoleConfidence(reader, c) >= 0.5
  }

  // Wherever they stand, a reachable person comes before a mailbox.
  lemma PersonBeforeMailbox(reader: Reader, contacts: seq<Contact>, sel: Selection, i: nat, j: nat)
    requires Selects(reader, contacts, sel)
    requires i < |InOrder(sel)| && j < |InOrder(sel)|
    requires IsReachablePerson(reader, InOrder(sel)[i].contact) && IsMailbox(InOrder(sel)[j].contact)
    ensures i < j
    ensures InOrder(sel)[i].score >= 0.65 && 0.05 <= InOrder(sel)[j].score <= 0.5
  {
    var s := InOrder(sel);
    InOrderAre(reader, contacts, sel);
    assert s[i] in s && s[j] in s;
    PersonScores(reader, s[i].contact);
    MailboxScores(reader, s[j].contact);
    SelectionIsSorted(reader, contacts, sel, s[i]);
    assert j < i ==> Precedes(s[j], s[i]);
  }

  // The mailbox starts with the prefix.
  predicate IsMailboxOf(c: Contact, prefix: string) {
    IsMailbox(c) && StartsWith(Lower(Before(c.email, '@')), prefix)
  }

  lemma HigherScoreFirst(reader: Reader, contacts: seq<Contact>, sel: Selection, i: nat, j: nat)
    requires Selects(reader, contacts, sel) && i < |InOrder(sel)| && j < |InOrder(sel)|
    requires Rank(reader, InOrder(sel)[i].contact).score > Rank(reader, InOrder(sel)[j].contact).score
    ensures i < j
  {
    EntryIsRanked(reader, contacts, sel, i);
    EntryIsRanked(reader, contacts, sel, j);
    SelectionIsSorted(reader, contacts, sel, InOrder(sel)[i]);
    if j <= i {
      SortedByScore(InOrder(sel), j, i);
    }
  }

  lemma EntryIsRanked(reader: Reader, contacts: seq<Contact>, sel: Selection, i: nat)
    requires Selects(reader, contacts, sel) && i < |InOrder(sel)|
    ensures InOrder(sel)[i] == Rank(reader, InOrder(sel)[i].contact)
  {
    InOrderAre(reader, contacts, sel);
    assert InOrder(sel)[i] in InOrder(sel);
  }

  lemma SortedByScore(s: seq<Ranked>, i: nat, j: nat)
    requires IsSorted(s) && i <= j < |s|
    ensures s[i].score >= s[j].score
  {
    assert i < j ==> Precedes(s[i], s[j]);
  }

  // Among mailboxes the order of the department prefixes decides: one of the first fifteen prefixes comes before
  // every mailbox that starts neither with it nor with an earlier one.
  lemma MailboxesInOrder(reader: Reader, contacts: seq<Contact>, sel: Selection, i: nat, j: nat, n: nat)
    requires Selects(reader, contacts, sel) && i < |InOrder(sel)| && j < |InOrder(sel)|
    requires n < |reader.words.departments| && n < 15
    requires IsMailboxOf(InOrder(sel)[i].contact, reader.words.departments[n]) && IsMailbox(InOrder(sel)[j].contact)
    requires forall k | 0 <= k <= n :: !IsMailboxOf(InOrder(sel)[j].contact, reader.words.departments[k])
    ensures i < j
  {
    var a, b, prefixes := InOrder(sel)[i].contact, InOrder(sel)[j].contact, reader.words.departments;
    var first := Preference(Lower(Before(a.email, '@')), prefixes);
    var other := Preference(Lower(Before(b.email, '@')), prefixes);
    MailboxScoreIs(reader, a, first);
    MailboxScoreIs(reader, b, other);
    assert first <= n;
    assert other > n by {
      assert other <= n ==> IsMailboxOf(b, prefixes[other]);
    }
    HigherScoreFirst(reader, contacts, sel, i, j);
  }

  // Among persons that can be reached alike, the one whose title says more clearly that it matters comes first.
  lemma PersonsInOrder(reader: Reader, contacts: seq<Contact>, sel: Selection, i: nat, j: nat)
    requires Selects(reader, contacts, sel) && i < |InOrder(sel)| && j < |InOrder(sel)|
    requires var a, b := InOrder(sel)[i].contact, InOrder(sel)[j].contact;
             && IsPersonContact(a) && IsPersonContact(b) && a.title != "" && b.title != ""
             && (b.email != "" ==> a.email != "")
             && var more := reader.classify(Some(a.title)).confidence - reader.classify(Some(b.title)).confidence;
                if a.email != "" && b.email == "" then more > -0.28 else more > 0.0015
    ensures i < j
  {
    PersonScoreIsNear(reader, InOrder(sel)[i].contact);
    PersonScoreIsNear(reader, InOrder(sel)[j].contact);
    HigherScoreFirst(reader, contacts, sel, i, j);
  }

  // What supports a selection has neither a name nor an address, scores 0.1 and is never ranked.
  lemma SupportingAre(reader: Reader, contacts: seq<Contact>, sel: Selection, r: Ranked)
    requires Selects(reader, contacts, sel)
    ensures r in sel.supporting <==>
            r.contact in contacts && r.score == 0.1 && r.contact.email == ""
            && !(r.contact.sourceType == Named && r.contact.name != "")
    ensures r in sel.supporting ==> r !in InOrder(sel)
  {
    InOrderAre(reader, contacts, sel);
    SupportingHas(reader, contacts, r);
  }

  lemma {:induction false} SupportingHas(reader: Reader, contacts: seq<Contact>, r: Ranked)
    ensures r in SupportingOf(reader, contacts) <==>
            r.contact in contacts && r == Rank(reader, r.contact) && IsSupporting(r.contact)
  {
    if contacts != [] {
      var front, last := contacts[..|contacts| - 1], contacts[|contacts| - 1];
      assert contacts == front + [last];
      SupportingHas(reader, front, r);
    }
  }

  // One reachable person is enough for a primary that is a named person, and then no review is asked for.
  lemma PersonIsPrimary(reader: Reader, contacts: seq<Contact>, sel: Selection, c: Contact)
    requires Selects(reader, contacts, sel)
    requires c in contacts && IsReachablePerson(reader, c)
    ensures sel.primary.Some? && IsPersonContact(sel.primary.value.contact)
    ensures sel.primary.value.score >= 0.65
    ensures !sel.reviewRequired
  {
    var s := InOrder(sel);
    InOrderAre(reader, contacts, sel);
    assert Rank(reader, c) in s;
    var i :| 0 <= i < |s| && s[i] == Rank(reader, c);
    NoPrimaryIff(reader, contacts, sel);
    assert s[0] == sel.primary.value && s[0] in s;
    if IsMailbox(s[0].contact) {
      PersonBeforeMailbox(reader, contacts, sel, i, 0);
    }
    PersonScores(reader, c);
    SelectionIsSorted(reader, contacts, sel, s[0]);
    assert i == 0 || Precedes(s[0], s[i]);
  }

  // -------- Extraction and ranking together --------

  predicate HasRole(reader: Reader, c: Contact) {
    IsPersonContact(c) && c.title != "" && TitleNamesARole(reader.classify(Some(c.title)))
  }

  // A named contact has the name and the title of a match that stands for a person.
  lemma NamedHit(reader: Reader, page: PageText, c: Contact) returns (h: NameTitle)
    requires Faithful(reader) && ReadFrom(reader, page, c) && c.sourceType == Named
    ensures IsPerson(reader, h) && c.name == NameOf(h) != "" && c.title == TitleOf(h) != ""
  {
    if f :| OnPage(reader, page, f) && AddressContact(reader, page, f) == Some(c) {
      h := HitOfAddress(reader, page, f, c);
    } else {
      h :| h in reader.nameTitles(page.flat) && IsPerson(reader, h) && c == PersonContact(reader, page, h);
      PersonIsNamed(reader, h);
      TitleIsNotBlank(h, page.flat);
    }
  }

  lemma HitOfAddress(reader: Reader, page: PageText, f: Found, c: Contact) returns (h: NameTitle)
    requires Faithful(reader) && AddressContact(reader, page, f) == Some(c) && c.sourceType == Named
    ensures IsPerson(reader, h) && c.name == NameOf(h) != "" && c.title == TitleOf(h) != ""
  {
    h := LastPerson(reader, NearbyHits(reader, page.flat, f.address)).value;
    NearbyHit(reader, page.flat, f.address, h);
  }

  // extract_contacts calls a contact named only when its title is not blank and names a role, with a confidence of
  // one half at least and no role that is unknown, and its name is of two or three words that may be a name.
  lemma NamedHasRole(reader: Reader, page: PageText, c: Contact)
    requires Faithful(reader) && ReadFrom(reader, page, c) && c.sourceType == Named
    ensures HasRole(reader, c)
    ensures var found := reader.classify(Some(c.title));
            c.title != "" && found.confidence >= 0.5 && found.roles != [] && UnknownRole !in found.roles
    ensures 2 <= |Words(c.name)| <= 3 && forall w | w in Words(c.name) :: Lower(w) !in reader.words.nonNames
  {
    var h := NamedHit(reader, page, c);
    PersonIff(reader, h);
  }

  lemma NearbyHit(reader: Reader, flat: string, needle: string, h: NameTitle)
    requires Faithful(reader) && h in NearbyHits(reader, flat, needle) && IsPerson(reader, h)
    ensures NameOf(h) != "" && TitleOf(h) != ""
  {
    PersonIsNamed(reader, h);
    TitleIsNotBlank(h, Around(flat, needle, Find(flat, needle), NAME_RADIUS));
  }

  // For any pages: when one named contact with an address was extracted, the primary is a named person, no review
  // is asked for, and every named contact with an address stands before every mailbox.
  lemma NamedContactWins(reader: Reader, pages: seq<Page>, contacts: seq<Contact>, sel: Selection, c: Contact)
    requires Faithful(reader) && Extracted(reader, pages, contacts) && Selects(reader, contacts, sel)
    requires c in contacts && c.sourceType == Named && c.email != ""
    ensures sel.primary.Some? && sel.primary.value.contact.sourceType == Named && !sel.reviewRequired
    ensures forall i, j | 0 <= i < |InOrder(sel)| && 0 <= j < |InOrder(sel)| &&
              InOrder(sel)[i].contact == c && InOrder(sel)[j].contact.sourceType != Named :: i < j
  {
    var k :| 0 <= k < |contacts| && contacts[k] == c;
    var p :| 0 <= p < |pages| && ReadFrom(reader, Flattened(pages[p]), contacts[k]);
    NamedHasRole(reader, Flattened(pages[p]), c);
    PersonIsPrimary(reader, contacts, sel, c);
    InOrderAre(reader, contacts, sel);
    forall i, j | 0 <= i < |InOrder(sel)| && 0 <= j < |InOrder(sel)| &&
      InOrder(sel)[i].contact == c && InOrder(sel)[j].contact.sourceType != Named
      ensures i < j
    {
      assert InOrder(sel)[j] in InOrder(sel);
      PersonBeforeMailbox(reader, contacts, sel, i, j);
    }
  }

  // Every extracted contact has a page of its address among the pages, and evidence on it.
  lemma ExtractedIsEvident(reader: Reader, pages: seq<Page>, contacts: seq<Contact>, c: Contact)
    requires Faithful(reader) && Extracted(reader, pages, contacts) && c in contacts
    ensures exists k | 0 <= k < |pages| :: pages[k].url == c.sourceUrl && Evident(Flattened(pages[k]), c)
  {
    var i :| 0 <= i < |contacts| && contacts[i] == c;
    var k :| 0 <= k < |pages| && ReadFrom(reader, Flattened(pages[k]), contacts[i]);
    EvidenceOfContact(reader, Flattened(pages[k]), c);
    ReadFromUrl(reader, Flattened(pages[k]), c);
  }

  lemma ReadFromUrl(reader: Reader, page: PageText, c: Contact)
    requires ReadFrom(reader, page, c)
    ensures c.sourceUrl == page.url
  {
  }

  // -------- Where classifying and ranking a mailbox disagree --------

  // The classifier drops separators before it compares prefixes and the ranking does not, so a mailbox
  // whose prefix is only found without them counts as a department and still gets the last preference.
  lemma SeparatorsLoseThePreference(local: string, words: Vocabulary)
    requires !StartsWithAny(Squashed(local), words.ignored)
    ensures ClassifyEmail(words, local) == Some(Department) &&
            Preference(Lower(local), words.departments) == |words.departments|
            <==>
            StartsWithAny(Squashed(local), words.departments) && !StartsWithAny(Lower(local), words.departments)
  {
    var i := Preference(Lower(local), words.departments);
    if i < |words.departments| {
      assert StartsWith(Lower(local), words.departments[i]);
    }
  }

  // Such a mailbox under the lists of the source: supply-chain@ is a department, of the preference
  // of an unknown mailbox.
  lemma SupplyChainMailbox(words: Vocabulary)
    requires words == SHIPPED_WORDS
    ensures ClassifyEmail(words, "supply-chain") == Some(Department)
    ensures Preference("supply-chain", words.departments) == |words.departments|
  {
    SupplyChainStarts();
    SupplyChainKind(words);
  }

  lemma SupplyChainKind(words: Vocabulary)
    requires words.departments == SHIPPED_DEPARTMENTS
    requires forall i | 0 <= i < |words.ignored| :: !StartsWith("supplychain", words.ignored[i])
    ensures ClassifyEmail(words, "supply-chain") == Some(Department)
  {
    assert "supply-chain" == "supply" + ("-" + "chain") && "supplychain" == "supply" + "chain";
    SquashedDash("supply", "chain");
    assert StartsWith("supplychain", words.departments[5]);
  }

  lemma SquashedDash(a: string, b: string)
    requires IsSquashed(a) && IsSquashed(b)
    ensures Squashed(a + ("-" + b)) == a + b
  {
    var s := a + ("-" + b);
    assert forall i | 0 <= i < |s| :: s[i] in a || s[i] == '-' || s[i] in b;
    assert Lower(s) == s;
    WithoutAppended(a, "-" + b, {'-', '_', '.'});
    assert ("-" + b)[1..] == b;
    WithoutNothing(a, {'-', '_', '.'});
    WithoutNothing(b, {'-', '_', '.'});
  }

  lemma SupplyChainStarts()
    ensures forall i | 0 <= i < |SHIPPED_IGNORED| :: !StartsWith("supplychain", SHIPPED_IGNORED[i])
    ensures forall i | 0 <= i < |SHIPPED_DEPARTMENTS| :: !StartsWith("supply-chain", SHIPPED_DEPARTMENTS[i])
  {
    assert forall i | 0 <= i < |SHIPPED_IGNORED| :: SHIPPED_IGNORED[i][0] != 's';
    assert forall i | 0 <= i < |SHIPPED_DEPARTMENTS| && i != 5 && i != 7 :: SHIPPED_DEPARTMENTS[i][0] != 's';
    assert SHIPPED_DEPARTMENTS[5][6] == 'c' && SHIPPED_DEPARTMENTS[7][1] == 'a';
  }

  // An ignored prefix with a dash in it ignores nothing.
  lemma DashedPrefixIgnoresNothing(local: string, prefix: string)
    requires '-' in prefix
    ensures !StartsWith(Squashed(local), prefix)
  {
    assert '-' !in Squashed(local);
    var i :| 0 <= i < |prefix| && prefix[i] == '-';
    assert i < |Squashed(local)| ==> Squashed(local)[i] in Squashed(local);
  }
}
