/** extract_contacts and the loops it is made of (apps/backend/app/services/contact_discovery.py). */
module ContactExtraction {
  import opened Contacts
  import opened Text
  import opened Wrappers

  // -------- What is on a page --------

  datatype Found = Found(address: string, snippet: string)

  function MailtoAddress(reader: Reader, raw: string): string {
    Lower(Strip(reader.unescape(raw)))
  }

  // The page has a mailto: link with this address.
  ghost predicate Linked(reader: Reader, page: PageText, address: string) {
    reader.isEmail(address) && exists m | m in reader.mailtos(page.html) :: MailtoAddress(reader, m) == address
  }

  // The address is in the visible text, and this is the first way it is spelled there.
  ghost predicate FirstSpelling(reader: Reader, page: PageText, address: string, spelling: string) {
    var ms := reader.emails(page.flat);
    exists k | 0 <= k < |ms| :: SpelledAt(ms, k, address) && ms[k] == spelling
  }

  ghost predicate SpelledAt(ms: seq<string>, k: int, address: string)
    requires 0 <= k < |ms|
  {
    Lower(ms[k]) == address && forall j | 0 <= j < k :: Lower(ms[j]) != address
  }

  ghost predicate Visible(reader: Reader, page: PageText, address: string) {
    exists m | m in reader.emails(page.flat) :: Lower(m) == address
  }

  // An address with its evidence: a linked one is looked up as it stands, another as it is first spelled.
  ghost predicate OnPage(reader: Reader, page: PageText, f: Found) {
    if Linked(reader, page, f.address) then f.snippet == Snippet(page.flat, f.address)
    else
      exists spelling ::
        FirstSpelling(reader, page, f.address, spelling) && f.snippet == Snippet(page.flat, spelling)
  }

  predicate HasAddress(found: seq<Found>, address: string) {
    exists i | 0 <= i < |found| :: found[i].address == address
  }

  ghost predicate DistinctAddresses(found: seq<Found>) {
    forall i, j | 0 <= i < j < |found| :: found[i].address != found[j].address
  }

  // Every address of the page once, links and visible text alike.
  ghost predicate IsAddressBook(reader: Reader, page: PageText, found: seq<Found>) {
    && DistinctAddresses(found)
    && AllOnPage(reader, page, found)
    && (forall a: string | Linked(reader, page, a) || Visible(reader, page, a) :: HasAddress(found, a))
  }

  ghost predicate AllOnPage(reader: Reader, page: PageText, found: seq<Found>) {
    forall f | f in found :: OnPage(reader, page, f)
  }

  // -------- The dictionary of addresses --------

  // An address keeps the first evidence it is entered with.
  function Entered(found: seq<Found>, f: Found): seq<Found> {
    if HasAddress(found, f.address) then found else found + [f]
  }

  function Dictionary(entries: seq<Found>): seq<Found> {
    if entries == [] then []
    else Entered(Dictionary(entries[..|entries| - 1]), entries[|entries| - 1])
  }

  function LinkEntry(reader: Reader, page: PageText, raw: string): Found {
    Found(MailtoAddress(reader, raw), Snippet(page.flat, MailtoAddress(reader, raw)))
  }

  function TextEntry(page: PageText, spelling: string): Found {
    Found(Lower(spelling), Snippet(page.flat, spelling))
  }

  // The links that are whole addresses, in turn ...
  function LinkEntries(reader: Reader, page: PageText, raws: seq<string>): seq<Found> {
    if raws == [] then []
    else
      var entry := LinkEntry(reader, page, raws[|raws| - 1]);
      LinkEntries(reader, page, raws[..|raws| - 1]) + if reader.isEmail(entry.address) then [entry] else []
  }

  // ... and the addresses of the text.
  function TextEntries(page: PageText, spellings: seq<string>): seq<Found> {
    seq(|spellings|, i requires 0 <= i < |spellings| => TextEntry(page, spellings[i]))
  }

  function Entries(reader: Reader, page: PageText): seq<Found> {
    LinkEntries(reader, page, reader.mailtos(page.html)) + TextEntries(page, reader.emails(page.flat))
  }

  function Book(reader: Reader, page: PageText): seq<Found> {
    Dictionary(Entries(reader, page))
  }

  ghost predicate FirstAt(entries: seq<Found>, k: int, f: Found)
    requires 0 <= k < |entries|
  {
    entries[k] == f && forall j | 0 <= j < k :: entries[j].address != f.address
  }

  lemma DictionaryTakes(entries: seq<Found>, f: Found)
    ensures Dictionary(entries + [f]) == Entered(Dictionary(entries), f)
  {
    assert (entries + [f])[..|entries|] == entries;
  }

  lemma AddressOfAppended(found: seq<Found>, f: Found, a: string)
    ensures HasAddress(found + [f], a) <==> HasAddress(found, a) || f.address == a
  {
    var now := found + [f];
    assert now[|found|] == f && forall i | 0 <= i < |found| :: now[i] == found[i];
    if HasAddress(now, a) && f.address != a {
      var i :| 0 <= i < |now| && now[i].address == a;
      assert found[i].address == a;
    }
  }

  // No address twice, and none missing.
  lemma {:induction false} DictionaryIsExact(entries: seq<Found>)
    ensures DistinctAddresses(Dictionary(entries))
    ensures forall a: string :: HasAddress(Dictionary(entries), a) <==> HasAddress(entries, a)
    decreases |entries|
  {
    if entries != [] {
      var rest, f := entries[..|entries| - 1], entries[|entries| - 1];
      DictionaryIsExact(rest);
      assert rest + [f] == entries;
      forall a: string ensures HasAddress(Dictionary(entries), a) <==> HasAddress(entries, a) {
        AddressOfAppended(rest, f, a);
        AddressOfAppended(Dictionary(rest), f, a);
      }
    }
  }

  // Each entry that was kept is the first one of its address.
  lemma {:induction false} KeptIsFirst(entries: seq<Found>, f: Found) returns (k: nat)
    requires f in Dictionary(entries)
    ensures k < |entries| && FirstAt(entries, k, f)
    decreases |entries|
  {
    var rest := entries[..|entries| - 1];
    if f in Dictionary(rest) {
      k := KeptIsFirst(rest, f);
    } else {
      k := |rest|;
      DictionaryIsExact(rest);
      assert forall j | 0 <= j < |rest| :: entries[j] == rest[j];
    }
  }

  lemma {:induction false} LinkEntryIsLinked(reader: Reader, page: PageText, raws: seq<string>, f: Found)
    requires f in LinkEntries(reader, page, raws)
    ensures reader.isEmail(f.address) && exists raw | raw in raws :: f == LinkEntry(reader, page, raw)
    decreases |raws|
  {
    var rest := raws[..|raws| - 1];
    if f in LinkEntries(reader, page, rest) {
      LinkEntryIsLinked(reader, page, rest, f);
    } else {
      assert f == LinkEntry(reader, page, raws[|raws| - 1]);
    }
  }

  lemma {:induction false} LinkIsEntered(reader: Reader, page: PageText, raws: seq<string>, raw: string)
    requires raw in raws && reader.isEmail(MailtoAddress(reader, raw))
    ensures LinkEntry(reader, page, raw) in LinkEntries(reader, page, raws)
    decreases |raws|
  {
    var rest := raws[..|raws| - 1];
    if raw != raws[|raws| - 1] {
      assert raws == rest + [raws[|raws| - 1]];
      LinkIsEntered(reader, page, rest, raw);
    }
  }

  // Exactly the linked addresses are entered from the links, each looked up as it stands.
  lemma LinksAreEntered(reader: Reader, page: PageText)
    ensures var entries := LinkEntries(reader, page, reader.mailtos(page.html));
            && (forall a: string :: HasAddress(entries, a) <==> Linked(reader, page, a))
            && forall f | f in entries :: Linked(reader, page, f.address) && f.snippet == Snippet(page.flat, f.address)
  {
    var raws := reader.mailtos(page.html);
    var entries := LinkEntries(reader, page, raws);
    forall f | f in entries
      ensures Linked(reader, page, f.address) && f.snippet == Snippet(page.flat, f.address)
    {
      LinkEntryIsLinked(reader, page, raws, f);
    }
    forall a: string ensures HasAddress(entries, a) <==> Linked(reader, page, a) {
      if Linked(reader, page, a) {
        var raw :| raw in raws && MailtoAddress(reader, raw) == a;
        LinkIsEntered(reader, page, raws, raw);
      }
    }
  }

  // The dictionary of a page is what the reader of a page looks for.
  lemma DictionaryIsAddressBook(reader: Reader, page: PageText)
    ensures IsAddressBook(reader, page, Book(reader, page))
  {
    var entries := Entries(reader, page);
    DictionaryIsExact(entries);
    forall f | f in Dictionary(entries) ensures OnPage(reader, page, f) {
      var k := KeptIsFirst(entries, f);
      FirstEntryIsOnPage(reader, page, k);
    }
    forall a: string | Linked(reader, page, a) || Visible(reader, page, a) ensures HasAddress(entries, a) {
      AddressIsEntered(reader, page, a);
    }
  }

  lemma FirstEntryIsOnPage(reader: Reader, page: PageText, k: nat)
    requires k < |Entries(reader, page)| && FirstAt(Entries(reader, page), k, Entries(reader, page)[k])
    ensures OnPage(reader, page, Entries(reader, page)[k])
  {
    var entries, links := Entries(reader, page), LinkEntries(reader, page, reader.mailtos(page.html));
    var ms := reader.emails(page.flat);
    LinksAreEntered(reader, page);
    if k < |links| {
      assert links[k] in links;
    } else {
      var n, address := k - |links|, entries[k].address;
      assert forall j | 0 <= j < |links| :: entries[j] == links[j];
      assert !HasAddress(links, address);
      forall j | 0 <= j < n ensures Lower(ms[j]) != address {
        assert entries[|links| + j] == TextEntry(page, ms[j]);
      }
      assert SpelledAt(ms, n, address);
    }
  }

  lemma AddressIsEntered(reader: Reader, page: PageText, a: string)
    requires Linked(reader, page, a) || Visible(reader, page, a)
    ensures HasAddress(Entries(reader, page), a)
  {
    var entries, links := Entries(reader, page), LinkEntries(reader, page, reader.mailtos(page.html));
    LinksAreEntered(reader, page);
    if Linked(reader, page, a) {
      var i :| 0 <= i < |links| && links[i].address == a;
      assert entries[i].address == a;
    } else {
      var ms := reader.emails(page.flat);
      var i :| 0 <= i < |ms| && Lower(ms[i]) == a;
      assert entries[|links| + i] == TextEntry(page, ms[i]);
    }
  }

  // The dictionary is filled from the links first ...
  method LinkedEmails(reader: Reader, page: PageText) returns (found: seq<Found>)
    ensures found == Dictionary(LinkEntries(reader, page, reader.mailtos(page.html)))
    ensures DistinctAddresses(found)
    ensures forall a: string :: HasAddress(found, a) <==> Linked(reader, page, a)
  {
    found := [];
    var flat := page.flat;
    var links := reader.mailtos(page.html);
    for i := 0 to |links|
      invariant found == Dictionary(LinkEntries(reader, page, links[..i]))
    {
      var address := MailtoAddress(reader, links[i]);
      LinkTaken(reader, page, links, i);
      if reader.isEmail(address) && !HasAddress(found, address) {
        found := found + [Found(address, if Find(flat, address) >= 0 then Snippet(flat, address) else address)];
      }
    }
    assert links[..|links|] == links;
    LinksAreEntered(reader, page);
    DictionaryIsExact(LinkEntries(reader, page, links));
  }

  lemma LinkTaken(reader: Reader, page: PageText, raws: seq<string>, i: nat)
    requires i < |raws|
    ensures Dictionary(LinkEntries(reader, page, raws[..i + 1])) ==
            if reader.isEmail(MailtoAddress(reader, raws[i]))
            then Entered(Dictionary(LinkEntries(reader, page, raws[..i])), LinkEntry(reader, page, raws[i]))
            else Dictionary(LinkEntries(reader, page, raws[..i]))
  {
    var was := LinkEntries(reader, page, raws[..i]);
    assert raws[..i + 1][..i] == raws[..i] && was + [] == was;
    DictionaryTakes(was, LinkEntry(reader, page, raws[i]));
  }

  // ... and then from the visible text.
  method EmailsIn(reader: Reader, page: PageText) returns (found: seq<Found>)
    ensures found == Book(reader, page)
    ensures IsAddressBook(reader, page, found)
  {
    var flat := page.flat;
    found := LinkedEmails(reader, page);
    ghost var linked := LinkEntries(reader, page, reader.mailtos(page.html));
    var ms := reader.emails(flat);
    assert linked + TextEntries(page, ms[..0]) == linked;
    for i := 0 to |ms|
      invariant found == Dictionary(linked + TextEntries(page, ms[..i]))
    {
      var address := Lower(ms[i]);
      SpellingTaken(page, linked, ms, i);
      if !HasAddress(found, address) {
        found := found + [Found(address, Snippet(flat, ms[i]))];
      }
    }
    assert ms[..|ms|] == ms;
    DictionaryIsAddressBook(reader, page);
  }

  lemma SpellingTaken(page: PageText, linked: seq<Found>, ms: seq<string>, i: nat)
    requires i < |ms|
    ensures Dictionary(linked + TextEntries(page, ms[..i + 1])) ==
            Entered(Dictionary(linked + TextEntries(page, ms[..i])), TextEntry(page, ms[i]))
  {
    DictionaryTakes(linked + TextEntries(page, ms[..i]), TextEntry(page, ms[i]));
    assert linked + TextEntries(page, ms[..i + 1]) ==
           linked + TextEntries(page, ms[..i]) + [TextEntry(page, ms[i])];
  }

  // -------- The person beside an address --------

  // The last match that stands for a person.
  function LastPerson(reader: Reader, hits: seq<NameTitle>): (r: Option<NameTitle>)
    ensures r.Some? ==> r.value in hits && IsPerson(reader, r.value)
    ensures r.None? <==> forall h | h in hits :: !IsPerson(reader, h)
  {
    if hits == [] then None
    else if IsPerson(reader, hits[|hits| - 1]) then Some(hits[|hits| - 1])
    else LastPerson(reader, hits[..|hits| - 1])
  }

  function NearbyHits(reader: Reader, flat: string, needle: string): seq<NameTitle> {
    var index := Find(flat, needle);
    if index < 0 then [] else reader.nameTitles(Around(flat, needle, index, NAME_RADIUS))
  }

  // The matches near an address are those of a window of the page around it: 200 characters before and behind.
  lemma NearbyWindow(reader: Reader, flat: string, needle: string)
    ensures if !IsPart(needle, flat) then NearbyHits(reader, flat, needle) == []
            else exists window ::
              && NearbyHits(reader, flat, needle) == reader.nameTitles(window)
              && IsPart(window, flat) && IsPart(needle, window) && |window| <= |needle| + 400
  {
    FindIsFirst(flat, needle);
    var index := Find(flat, needle);
    if index >= 0 {
      var window := Around(flat, needle, index, NAME_RADIUS);
      AroundKeeps(flat, needle, index, NAME_RADIUS);
      assert NearbyHits(reader, flat, needle) == reader.nameTitles(window);
    }
  }

  lemma OneMoreHit(reader: Reader, hits: seq<NameTitle>, i: nat)
    requires i < |hits|
    ensures LastPerson(reader, hits[..i + 1]) ==
            if IsPerson(reader, hits[i]) then Some(hits[i]) else LastPerson(reader, hits[..i])
  {
    assert hits[..i + 1][..i] == hits[..i];
  }

  method NameNear(reader: Reader, flat: string, needle: string) returns (best: Option<NameTitle>)
    ensures best == LastPerson(reader, NearbyHits(reader, flat, needle))
  {
    best := None;
    var index := Find(flat, needle);
    if index < 0 {
      return;
    }
    var hits := reader.nameTitles(Around(flat, needle, index, NAME_RADIUS));
    for i := 0 to |hits|
      invariant best == LastPerson(reader, hits[..i])
    {
      OneMoreHit(reader, hits, i);
      if PlausiblePersonName(reader, NameOf(hits[i])) && TitleNamesARole(reader.classify(Some(TitleOf(hits[i])))) {
        best := Some(hits[i]);
      }
    }
    assert hits[..|hits|] == hits;
  }

  // -------- Where a contact comes from --------

  type Key = (string, string, string)

  function PhoneKey(phone: string, url: string): Key {
    ("", "tel:" + phone, url)
  }

  function KeyOf(c: Contact): Key {
    if c.name == "" && c.email == "" then PhoneKey(c.phone, c.sourceUrl)
    else (Lower(c.name), c.email, c.sourceUrl)
  }

  // The contact an address of a page makes, if it is not one to ignore.
  function AddressContact(reader: Reader, page: PageText, f: Found): Option<Contact> {
    var kind := ClassifyEmail(reader.words, Before(f.address, '@'));
    if kind.None? then None
    else
      var person :=
        if kind.value == Generic then LastPerson(reader, NearbyHits(reader, page.flat, f.address)) else None;
      Some(match person
           case Some(h) => Contact(NameOf(h), TitleOf(h), f.address, "", page.url, Named, f.snippet, 0.85)
           case None => Contact("", "", f.address, "", page.url, kind.value, f.snippet, 0.6))
  }

  function PersonContact(reader: Reader, page: PageText, h: NameTitle): Contact {
    var half := 0.4 + reader.classify(Some(TitleOf(h))).confidence / 2.0;
    Contact(NameOf(h), TitleOf(h), "", "", page.url, Named, Snippet(page.flat, h.whole),
            if half < 0.75 then half else 0.75)
  }

  function PhoneContact(page: PageText, raw: string): Contact {
    Contact("", "", "", Strip(raw), page.url, Generic, Snippet(page.flat, Strip(raw)), 0.3)
  }

  ghost predicate ReadFrom(reader: Reader, page: PageText, c: Contact) {
    || (exists f :: OnPage(reader, page, f) && AddressContact(reader, page, f) == Some(c))
    || (exists h :: h in reader.nameTitles(page.flat) && IsPerson(reader, h) && c == PersonContact(reader, page, h))
    || (exists raw :: raw in reader.tels(page.html) && c == PhoneContact(page, raw))
  }

  predicate SamePerson(c: Contact, name: string, url: string) {
    Lower(c.name) == Lower(name) && c.sourceUrl == url
  }

  predicate NameOnly(c: Contact) {
    c.name != "" && c.email == ""
  }

  ghost predicate HasKey(contacts: seq<Contact>, k: Key) {
    exists i | 0 <= i < |contacts| :: KeyOf(contacts[i]) == k
  }

  predicate HasPerson(contacts: seq<Contact>, name: string, url: string) {
    exists i | 0 <= i < |contacts| :: SamePerson(contacts[i], name, url)
  }

  ghost predicate HasEmail(contacts: seq<Contact>, address: string, url: string) {
    exists i | 0 <= i < |contacts| :: contacts[i].email == address && contacts[i].sourceUrl == url
  }

  // No two contacts have the same key, and no bare name repeats a person seen before on the same page.
  ghost predicate Distinct(contacts: seq<Contact>) {
    && (forall i, j {:trigger KeyOf(contacts[i]), KeyOf(contacts[j])} | 0 <= i < j < |contacts| ::
          KeyOf(contacts[i]) != KeyOf(contacts[j]))
    && (forall i, j {:trigger SamePerson(contacts[i], contacts[j].name, contacts[j].sourceUrl)}
          | 0 <= i < j < |contacts| && NameOnly(contacts[j]) ::
          !SamePerson(contacts[i], contacts[j].name, contacts[j].sourceUrl))
  }

  // The contact is there already: its key is, or it is a bare name and that person of the page is.
  ghost predicate Known(contacts: seq<Contact>, c: Contact) {
    HasKey(contacts, KeyOf(c)) || (NameOnly(c) && HasPerson(contacts, c.name, c.sourceUrl))
  }

  // What one address, match or number adds: its own contact, at the end, unless there is none or it is known.
  ghost function Offered(was: seq<Contact>, offer: Option<Contact>): seq<Contact> {
    if offer.Some? && !Known(was, offer.value) then was + [offer.value] else was
  }

  ghost function OfferAll(was: seq<Contact>, offers: seq<Option<Contact>>): seq<Contact> {
    if offers == [] then was
    else Offered(OfferAll(was, offers[..|offers| - 1]), offers[|offers| - 1])
  }

  function PersonOffer(reader: Reader, page: PageText, h: NameTitle): Option<Contact> {
    if IsPerson(reader, h) then Some(PersonContact(reader, page, h)) else None
  }

  function AddressOffers(reader: Reader, page: PageText, book: seq<Found>): seq<Option<Contact>> {
    seq(|book|, i requires 0 <= i < |book| => AddressContact(reader, page, book[i]))
  }

  function PersonOffers(reader: Reader, page: PageText, hits: seq<NameTitle>): seq<Option<Contact>> {
    seq(|hits|, i requires 0 <= i < |hits| => PersonOffer(reader, page, hits[i]))
  }

  function PhoneOffers(page: PageText, tels: seq<string>): seq<Option<Contact>> {
    seq(|tels|, i requires 0 <= i < |tels| => Some(PhoneContact(page, tels[i])))
  }

  // All a page offers: its addresses, then its names, then its numbers.
  function PageOffers(reader: Reader, page: PageText): seq<Option<Contact>> {
    AddressOffers(reader, page, Book(reader, page))
    + PersonOffers(reader, page, reader.nameTitles(page.flat))
    + PhoneOffers(page, reader.tels(page.html))
  }

  function Offers(reader: Reader, pages: seq<Page>): seq<Option<Contact>> {
    if pages == [] then []
    else Offers(reader, pages[..|pages| - 1]) + PageOffers(reader, Flattened(pages[|pages| - 1]))
  }

  // The first n offers have made the contacts.
  ghost predicate Took(was: seq<Contact>, offers: seq<Option<Contact>>, n: nat, contacts: seq<Contact>) {
    n <= |offers| && contacts == OfferAll(was, offers[..n])
  }

  lemma TookNone(was: seq<Contact>, offers: seq<Option<Contact>>)
    ensures Took(was, offers, 0, was)
  {
  }

  lemma TookOne(was: seq<Contact>, offers: seq<Option<Contact>>, n: nat, before: seq<Contact>, contacts: seq<Contact>)
    requires n < |offers| && Took(was, offers, n, before) && contacts == Offered(before, offers[n])
    ensures Took(was, offers, n + 1, contacts)
  {
    assert offers[..n + 1][..n] == offers[..n];
  }

  lemma TookAll(was: seq<Contact>, offers: seq<Option<Contact>>, contacts: seq<Contact>)
    requires Took(was, offers, |offers|, contacts)
    ensures contacts == OfferAll(was, offers)
  {
    assert offers[..|offers|] == offers;
  }

  lemma {:induction false} OfferBoth(was: seq<Contact>, a: seq<Option<Contact>>, b: seq<Option<Contact>>)
    ensures OfferAll(was, a + b) == OfferAll(OfferAll(was, a), b)
    decreases |b|
  {
    if b == [] {
      assert a + b == a;
    } else {
      var last := |b| - 1;
      assert (a + b)[..|a| + last] == a + b[..last];
      OfferBoth(was, a, b[..last]);
    }
  }

  // The contacts stand at ascending places among the offers.
  ghost predicate StandsAt(contacts: seq<Contact>, offers: seq<Option<Contact>>, at: seq<nat>) {
    && |at| == |contacts|
    && (forall i | 0 <= i < |at| :: at[i] < |offers| && offers[at[i]] == Some(contacts[i]))
    && (forall i, j | 0 <= i < j < |at| :: at[i] < at[j])
  }

  // Nothing is reordered and nothing invented: the contacts are a subsequence of the offers.
  lemma {:induction false} OffersStayInOrder(offers: seq<Option<Contact>>)
    ensures exists at :: StandsAt(OfferAll([], offers), offers, at)
    decreases |offers|
  {
    if offers == [] {
      assert StandsAt(OfferAll([], offers), offers, []);
    } else {
      var last := |offers| - 1;
      OffersStayInOrder(offers[..last]);
      var at :| StandsAt(OfferAll([], offers[..last]), offers[..last], at);
      var next := if OfferAll([], offers) == OfferAll([], offers[..last]) then at else at + [last];
      StandsOn(OfferAll([], offers[..last]), offers, at, OfferAll([], offers), next);
    }
  }

  lemma StandsOn(was: seq<Contact>, offers: seq<Option<Contact>>, at: seq<nat>, now: seq<Contact>, next: seq<nat>)
    requires offers != [] && StandsAt(was, offers[..|offers| - 1], at)
    requires now == Offered(was, offers[|offers| - 1])
    requires next == if now == was then at else at + [|offers| - 1]
    ensures StandsAt(now, offers, next)
  {
  }

  // Whatever was offered is in the end known.
  lemma {:induction false} OffersAreKnown(offers: seq<Option<Contact>>, k: nat)
    requires k < |offers| && offers[k].Some?
    ensures Known(OfferAll([], offers), offers[k].value)
    decreases |offers|
  {
    var last := |offers| - 1;
    var was := OfferAll([], offers[..last]);
    if k < last {
      OffersAreKnown(offers[..last], k);
    }
    OfferIsKnown(was, offers[last], offers[k].value);
  }

  lemma OfferIsKnown(was: seq<Contact>, offer: Option<Contact>, c: Contact)
    requires offer == Some(c) || Known(was, c)
    ensures Known(Offered(was, offer), c)
  {
    var now := Offered(was, offer);
    if Known(was, c) {
      KnownStays(was, now, c);
    } else {
      assert KeyOf(now[|was|]) == KeyOf(c);
    }
  }

  lemma KnownStays(was: seq<Contact>, now: seq<Contact>, c: Contact)
    requires was <= now && Known(was, c)
    ensures Known(now, c)
  {
    KeysStay(was, now, KeyOf(c));
    PersonsStay(was, now, c.name, c.sourceUrl);
  }

  ghost predicate Tracks(contacts: seq<Contact>, seen: set<Key>) {
    Distinct(contacts) && forall k: Key :: k in seen <==> HasKey(contacts, k)
  }

  ghost predicate Usable(reader: Reader, address: string) {
    ClassifyEmail(reader.words, Before(address, '@')).Some?
  }

  // Nothing the page offers is missing.
  ghost predicate Covers(reader: Reader, page: PageText, contacts: seq<Contact>) {
    && (forall a: string | (Linked(reader, page, a) || Visible(reader, page, a)) && Usable(reader, a) ::
          HasEmail(contacts, a, page.url))
    && (forall h | h in reader.nameTitles(page.flat) && IsPerson(reader, h) ::
          HasPerson(contacts, NameOf(h), page.url))
    && (forall raw | raw in reader.tels(page.html) :: HasKey(contacts, PhoneKey(Strip(raw), page.url)))
  }

  // Only contacts of the page were appended.
  ghost predicate Grown(reader: Reader, page: PageText, was: seq<Contact>, now: seq<Contact>) {
    was <= now && forall i | |was| <= i < |now| :: ReadFrom(reader, page, now[i])
  }

  lemma GrownOn(reader: Reader, page: PageText, was: seq<Contact>, mid: seq<Contact>, now: seq<Contact>)
    requires Grown(reader, page, was, mid) && Grown(reader, page, mid, now)
    ensures Grown(reader, page, was, now)
  {
  }

  // Adding a contact with a new key.
  lemma Added(contacts: seq<Contact>, seen: set<Key>, c: Contact)
    requires Tracks(contacts, seen)
    requires KeyOf(c) !in seen
    requires NameOnly(c) ==> !HasPerson(contacts, c.name, c.sourceUrl)
    ensures Tracks(contacts + [c], seen + {KeyOf(c)})
  {
    var now := contacts + [c];
    forall i | 0 <= i < |contacts|
      ensures KeyOf(now[i]) != KeyOf(c) && (NameOnly(c) ==> !SamePerson(now[i], c.name, c.sourceUrl))
    {
      assert HasKey(contacts, KeyOf(contacts[i]));
    }
    forall k: Key
      ensures k in seen + {KeyOf(c)} <==> HasKey(now, k)
    {
      KeysStay(contacts, now, k);
      if k == KeyOf(c) {
        assert KeyOf(now[|contacts|]) == k;
      } else if HasKey(now, k) {
        var i :| 0 <= i < |now| && KeyOf(now[i]) == k;
        assert KeyOf(contacts[i]) == k;
      }
    }
  }

  lemma KeysStay(was: seq<Contact>, now: seq<Contact>, k: Key)
    requires was <= now
    ensures HasKey(was, k) ==> HasKey(now, k)
  {
    if HasKey(was, k) {
      var i :| 0 <= i < |was| && KeyOf(was[i]) == k;
      assert KeyOf(now[i]) == k;
    }
  }

  lemma PersonsStay(was: seq<Contact>, now: seq<Contact>, name: string, url: string)
    requires was <= now
    ensures HasPerson(was, name, url) ==> HasPerson(now, name, url)
  {
    if HasPerson(was, name, url) {
      var i :| 0 <= i < |was| && SamePerson(was[i], name, url);
      assert SamePerson(now[i], name, url);
    }
  }

  lemma EmailsStay(was: seq<Contact>, now: seq<Contact>, address: string, url: string)
    requires was <= now
    ensures HasEmail(was, address, url) ==> HasEmail(now, address, url)
  {
    if HasEmail(was, address, url) {
      var i :| 0 <= i < |was| && was[i].email == address && was[i].sourceUrl == url;
      assert now[i].email == address;
    }
  }

  lemma CoversStays(reader: Reader, page: PageText, was: seq<Contact>, now: seq<Contact>)
    requires Covers(reader, page, was) && was <= now
    ensures Covers(reader, page, now)
  {
    forall a: string | (Linked(reader, page, a) || Visible(reader, page, a)) && Usable(reader, a)
      ensures HasEmail(now, a, page.url)
    {
      EmailsStay(was, now, a, page.url);
    }
    forall h | h in reader.nameTitles(page.flat) && IsPerson(reader, h)
      ensures HasPerson(now, NameOf(h), page.url)
    {
      PersonsStay(was, now, NameOf(h), page.url);
    }
    forall raw | raw in reader.tels(page.html)
      ensures HasKey(now, PhoneKey(Strip(raw), page.url))
    {
      KeysStay(was, now, PhoneKey(Strip(raw), page.url));
    }
  }

  // -------- The three loops over a page --------

  predicate Plain(address: string) {
    address != "" && ':' !in address
  }

  ghost predicate AllPlain(found: seq<Found>) {
    forall f | f in found :: Plain(f.address)
  }

  lemma AddressIsPlain(reader: Reader, page: PageText, f: Found)
    requires Faithful(reader) && OnPage(reader, page, f)
    ensures Plain(f.address)
  {
    if !Linked(reader, page, f.address) {
      var spelling :| FirstSpelling(reader, page, f.address, spelling);
      SpellingIsAddress(reader, page, f.address, spelling);
    }
    AddressesArePlain(reader, f.address);
  }

  lemma SpellingIsAddress(reader: Reader, page: PageText, address: string, spelling: string)
    requires Faithful(reader) && FirstSpelling(reader, page, address, spelling)
    ensures reader.isEmail(address) && IsPart(spelling, page.flat) && Trimmed(spelling)
    ensures Lower(spelling) == address
  {
    assert spelling in reader.emails(page.flat);
  }

  lemma AddressesArePlain(reader: Reader, address: string)
    requires Faithful(reader) && reader.isEmail(address)
    ensures Plain(address) && Trimmed(address)
  {
  }

  lemma BookIsPlain(reader: Reader, page: PageText, found: seq<Found>)
    requires Faithful(reader) && AllOnPage(reader, page, found)
    ensures AllPlain(found)
  {
    forall f | f in found
      ensures Plain(f.address)
    {
      AddressIsPlain(reader, page, f);
    }
  }

  lemma AddressKey(reader: Reader, page: PageText, f: Found, c: Contact)
    requires f.address != "" && AddressContact(reader, page, f) == Some(c)
    ensures KeyOf(c) == (Lower(c.name), f.address, page.url)
    ensures c.email == f.address && c.evidence == f.snippet && c.sourceUrl == page.url
    ensures !NameOnly(c)
  {
  }

  lemma EmailOfKey(contacts: seq<Contact>, k: Key)
    requires HasKey(contacts, k) && k.1 != "" && ':' !in k.1
    ensures HasEmail(contacts, k.1, k.2)
  {
    var i :| 0 <= i < |contacts| && KeyOf(contacts[i]) == k;
    assert forall phone: string :: ("tel:" + phone)[3] == ':' && ':' in "tel:" + phone;
    assert contacts[i].email == k.1;
  }

  lemma PersonOfKey(contacts: seq<Contact>, name: string, url: string)
    requires HasKey(contacts, (Lower(name), "", url)) && name != ""
    ensures HasPerson(contacts, name, url)
  {
    var i :| 0 <= i < |contacts| && KeyOf(contacts[i]) == (Lower(name), "", url);
    assert SamePerson(contacts[i], name, url);
  }

  ghost predicate AddressesCovered(reader: Reader, page: PageText, found: seq<Found>, n: nat, contacts: seq<Contact>)
    requires n <= |found|
  {
    forall k | 0 <= k < n :: AddressCovered(reader, page, found[k], contacts)
  }

  ghost predicate AddressCovered(reader: Reader, page: PageText, f: Found, contacts: seq<Contact>) {
    Usable(reader, f.address) ==> HasEmail(contacts, f.address, page.url)
  }

  lemma OneMoreAddress(reader: Reader, page: PageText, found: seq<Found>, n: nat, was: seq<Contact>, now: seq<Contact>)
    requires n < |found| && AddressesCovered(reader, page, found, n, was) && was <= now
    requires AddressCovered(reader, page, found[n], now)
    ensures AddressesCovered(reader, page, found, n + 1, now)
  {
    forall k | 0 <= k < n
      ensures AddressCovered(reader, page, found[k], now)
    {
      EmailsStay(was, now, found[k].address, page.url);
    }
  }

  ghost predicate PersonsCovered(reader: Reader, page: PageText, hits: seq<NameTitle>, n: nat, contacts: seq<Contact>)
    requires n <= |hits|
  {
    forall k | 0 <= k < n :: PersonCovered(reader, page, hits[k], contacts)
  }

  ghost predicate PersonCovered(reader: Reader, page: PageText, h: NameTitle, contacts: seq<Contact>) {
    IsPerson(reader, h) ==> HasPerson(contacts, NameOf(h), page.url)
  }

  lemma OneMorePerson(reader: Reader, page: PageText, hits: seq<NameTitle>, n: nat,
                      was: seq<Contact>, now: seq<Contact>)
    requires n < |hits| && PersonsCovered(reader, page, hits, n, was) && was <= now
    requires PersonCovered(reader, page, hits[n], now)
    ensures PersonsCovered(reader, page, hits, n + 1, now)
  {
    forall k | 0 <= k < n
      ensures PersonCovered(reader, page, hits[k], now)
    {
      assert PersonCovered(reader, page, hits[k], was);
      PersonsStay(was, now, NameOf(hits[k]), page.url);
    }
  }

  ghost predicate PhonesCovered(page: PageText, tels: seq<string>, n: nat, contacts: seq<Contact>)
    requires n <= |tels|
  {
    forall k | 0 <= k < n :: PhoneCovered(page, tels[k], contacts)
  }

  ghost predicate PhoneCovered(page: PageText, raw: string, contacts: seq<Contact>) {
    HasKey(contacts, PhoneKey(Strip(raw), page.url))
  }

  lemma OneMorePhone(page: PageText, tels: seq<string>, n: nat, was: seq<Contact>, now: seq<Contact>)
    requires n < |tels| && PhonesCovered(page, tels, n, was) && was <= now
    requires PhoneCovered(page, tels[n], now)
    ensures PhonesCovered(page, tels, n + 1, now)
  {
    forall k | 0 <= k < n
      ensures PhoneCovered(page, tels[k], now)
    {
      KeysStay(was, now, PhoneKey(Strip(tels[k]), page.url));
    }
  }

  method ReadAddress(reader: Reader, page: PageText, f: Found, was: seq<Contact>, wasSeen: set<Key>)
    returns (contacts: seq<Contact>, seen: set<Key>)
    requires Tracks(was, wasSeen) && OnPage(reader, page, f) && Plain(f.address)
    ensures Tracks(contacts, seen) && Grown(reader, page, was, contacts)
    ensures AddressCovered(reader, page, f, contacts)
    ensures contacts == Offered(was, AddressContact(reader, page, f))
  {
    contacts, seen := was, wasSeen;
    var kind := ClassifyEmail(reader.words, Before(f.address, '@'));
    if kind.None? {
      return;
    }
    var c := Contact("", "", f.address, "", page.url, kind.value, f.snippet, 0.6);
    if kind.value == Generic {
      var pair := NameNear(reader, page.flat, f.address);
      if pair.Some? {
        c := Contact(NameOf(pair.value), TitleOf(pair.value), f.address, "", page.url, Named, f.snippet, 0.85);
      }
    }
    assert AddressContact(reader, page, f) == Some(c);
    AddressKey(reader, page, f, c);
    TakeAddress(reader, page, f, contacts, seen, c);
    var key := (Lower(c.name), f.address, page.url);
    if key !in seen {
      contacts, seen := contacts + [c], seen + {key};
    }
  }

  lemma TakeAddress(reader: Reader, page: PageText, f: Found, was: seq<Contact>, seen: set<Key>, c: Contact)
    requires Tracks(was, seen) && OnPage(reader, page, f) && Plain(f.address)
    requires AddressContact(reader, page, f) == Some(c)
    ensures KeyOf(c) in seen ==> Known(was, c) && HasEmail(was, f.address, page.url)
    ensures KeyOf(c) !in seen ==>
              && !Known(was, c) && Tracks(was + [c], seen + {KeyOf(c)})
              && Grown(reader, page, was, was + [c]) && HasEmail(was + [c], f.address, page.url)
  {
    AddressKey(reader, page, f, c);
    if KeyOf(c) in seen {
      EmailOfKey(was, KeyOf(c));
    } else {
      Added(was, seen, c);
      assert (was + [c])[|was|].email == f.address;
    }
  }

  method ReadAddresses(reader: Reader, page: PageText, book: seq<Found>, was: seq<Contact>, wasSeen: set<Key>)
    returns (contacts: seq<Contact>, seen: set<Key>)
    requires Tracks(was, wasSeen) && AllOnPage(reader, page, book) && AllPlain(book)
    ensures Tracks(contacts, seen) && Grown(reader, page, was, contacts)
    ensures AddressesCovered(reader, page, book, |book|, contacts)
    ensures contacts == OfferAll(was, AddressOffers(reader, page, book))
  {
    contacts, seen := was, wasSeen;
    ghost var offers := AddressOffers(reader, page, book);
    TookNone(was, offers);
    for i := 0 to |book|
      invariant Tracks(contacts, seen) && Grown(reader, page, was, contacts)
      invariant AddressesCovered(reader, page, book, i, contacts)
      invariant Took(was, offers, i, contacts)
    {
      assert book[i] in book;
      ghost var before := contacts;
      contacts, seen := ReadAddress(reader, page, book[i], contacts, seen);
      GrownOn(reader, page, was, before, contacts);
      OneMoreAddress(reader, page, book, i, before, contacts);
      TookOne(was, offers, i, before, contacts);
    }
    TookAll(was, offers, contacts);
  }

  method ReadPerson(reader: Reader, page: PageText, h: NameTitle, was: seq<Contact>, wasSeen: set<Key>)
    returns (contacts: seq<Contact>, seen: set<Key>)
    requires Tracks(was, wasSeen) && h in reader.nameTitles(page.flat)
    ensures Tracks(contacts, seen) && Grown(reader, page, was, contacts)
    ensures PersonCovered(reader, page, h, contacts)
    ensures contacts == Offered(was, PersonOffer(reader, page, h))
  {
    contacts, seen := was, wasSeen;
    if !PlausiblePersonName(reader, NameOf(h)) || !TitleNamesARole(reader.classify(Some(TitleOf(h)))) {
      return;
    }
    PersonIsNamed(reader, h);
    var c := PersonContact(reader, page, h);
    assert ReadFrom(reader, page, c);
    var key := (Lower(c.name), "", page.url);
    if key in seen {
      PersonOfKey(contacts, c.name, page.url);
      return;
    }
    if HasPerson(contacts, c.name, page.url) {
      return;
    }
    Added(contacts, seen, c);
    contacts, seen := contacts + [c], seen + {key};
    assert SamePerson(contacts[|was|], c.name, page.url);
  }

  method ReadPersons(reader: Reader, page: PageText, was: seq<Contact>, wasSeen: set<Key>)
    returns (contacts: seq<Contact>, seen: set<Key>)
    requires Tracks(was, wasSeen)
    ensures Tracks(contacts, seen) && Grown(reader, page, was, contacts)
    ensures var hits := reader.nameTitles(page.flat);
            PersonsCovered(reader, page, hits, |hits|, contacts)
    ensures contacts == OfferAll(was, PersonOffers(reader, page, reader.nameTitles(page.flat)))
  {
    contacts, seen := was, wasSeen;
    var hits := reader.nameTitles(page.flat);
    ghost var offers := PersonOffers(reader, page, hits);
    TookNone(was, offers);
    for i := 0 to |hits|
      invariant Tracks(contacts, seen) && Grown(reader, page, was, contacts)
      invariant PersonsCovered(reader, page, hits, i, contacts)
      invariant Took(was, offers, i, contacts)
    {
      assert hits[i] in hits;
      ghost var before := contacts;
      contacts, seen := ReadPerson(reader, page, hits[i], contacts, seen);
      GrownOn(reader, page, was, before, contacts);
      OneMorePerson(reader, page, hits, i, before, contacts);
      TookOne(was, offers, i, before, contacts);
    }
    TookAll(was, offers, contacts);
  }

  method ReadPhone(reader: Reader, page: PageText, raw: string, was: seq<Contact>, wasSeen: set<Key>)
    returns (contacts: seq<Contact>, seen: set<Key>)
    requires Tracks(was, wasSeen) && raw in reader.tels(page.html)
    ensures Tracks(contacts, seen) && Grown(reader, page, was, contacts)
    ensures PhoneCovered(page, raw, contacts)
    ensures contacts == Offered(was, Some(PhoneContact(page, raw)))
  {
    contacts, seen := was, wasSeen;
    var c := PhoneContact(page, raw);
    assert ReadFrom(reader, page, c);
    var key := PhoneKey(Strip(raw), page.url);
    if key !in seen {
      Added(contacts, seen, c);
      contacts, seen := contacts + [c], seen + {key};
      assert KeyOf(contacts[|was|]) == key;
    }
  }

  method ReadPhones(reader: Reader, page: PageText, was: seq<Contact>, wasSeen: set<Key>)
    returns (contacts: seq<Contact>, seen: set<Key>)
    requires Tracks(was, wasSeen)
    ensures Tracks(contacts, seen) && Grown(reader, page, was, contacts)
    ensures var tels := reader.tels(page.html);
            PhonesCovered(page, tels, |tels|, contacts)
    ensures contacts == OfferAll(was, PhoneOffers(page, reader.tels(page.html)))
  {
    contacts, seen := was, wasSeen;
    var tels := reader.tels(page.html);
    ghost var offers := PhoneOffers(page, tels);
    TookNone(was, offers);
    for i := 0 to |tels|
      invariant Tracks(contacts, seen) && Grown(reader, page, was, contacts)
      invariant PhonesCovered(page, tels, i, contacts)
      invariant Took(was, offers, i, contacts)
    {
      assert tels[i] in tels;
      ghost var before := contacts;
      contacts, seen := ReadPhone(reader, page, tels[i], contacts, seen);
      GrownOn(reader, page, was, before, contacts);
      OneMorePhone(page, tels, i, before, contacts);
      TookOne(was, offers, i, before, contacts);
    }
    TookAll(was, offers, contacts);
  }

  // -------- extract_contacts --------

  ghost predicate Extracted(reader: Reader, pages: seq<Page>, contacts: seq<Contact>) {
    ExtractedSoFar(reader, pages, |pages|, contacts)
  }

  ghost predicate ExtractedSoFar(reader: Reader, pages: seq<Page>, n: nat, contacts: seq<Contact>)
    requires n <= |pages|
  {
    && Distinct(contacts)
    && (forall i | 0 <= i < |contacts| :: Sourced(reader, pages, n, contacts[i]))
    && (forall k | 0 <= k < n :: Covers(reader, Flattened(pages[k]), contacts))
  }

  // One of the first n pages offers the contact.
  ghost predicate Sourced(reader: Reader, pages: seq<Page>, n: nat, c: Contact)
    requires n <= |pages|
  {
    exists k | 0 <= k < n :: ReadFrom(reader, Flattened(pages[k]), c)
  }

  // Every contact was read from one of the pages, none is there twice, and no page's offer is missing.
  method ExtractContacts(reader: Reader, pages: seq<Page>) returns (contacts: seq<Contact>)
    requires Faithful(reader)
    ensures Extracted(reader, pages, contacts)
    ensures contacts == OfferAll([], Offers(reader, pages))
  {
    contacts := [];
    var seen: set<Key> := {};
    for i := 0 to |pages|
      invariant Tracks(contacts, seen)
      invariant ExtractedSoFar(reader, pages, i, contacts)
      invariant contacts == OfferAll([], Offers(reader, pages[..i]))
    {
      ghost var before := contacts;
      contacts, seen := ReadPage(reader, Flattened(pages[i]), contacts, seen);
      PageRead(reader, pages, i, before, contacts);
      OneMorePage(reader, pages, i);
      MoreOffered(Offers(reader, pages[..i]), PageOffers(reader, Flattened(pages[i])), before, contacts);
    }
    assert pages[..|pages|] == pages;
  }

  lemma OneMorePage(reader: Reader, pages: seq<Page>, n: nat)
    requires n < |pages|
    ensures Offers(reader, pages[..n + 1]) == Offers(reader, pages[..n]) + PageOffers(reader, Flattened(pages[n]))
  {
    assert pages[..n + 1][..n] == pages[..n];
  }

  // Offers that come after others are taken after them.
  lemma MoreOffered(a: seq<Option<Contact>>, b: seq<Option<Contact>>, was: seq<Contact>, contacts: seq<Contact>)
    requires was == OfferAll([], a) && contacts == OfferAll(was, b)
    ensures contacts == OfferAll([], a + b)
  {
    OfferBoth([], a, b);
  }

  lemma PageRead(reader: Reader, pages: seq<Page>, n: nat, was: seq<Contact>, contacts: seq<Contact>)
    requires n < |pages| && ExtractedSoFar(reader, pages, n, was)
    requires Grown(reader, Flattened(pages[n]), was, contacts)
    requires Distinct(contacts) && Covers(reader, Flattened(pages[n]), contacts)
    ensures ExtractedSoFar(reader, pages, n + 1, contacts)
  {
    forall k | 0 <= k < n
      ensures Covers(reader, Flattened(pages[k]), contacts)
    {
      CoversStays(reader, Flattened(pages[k]), was, contacts);
    }
    forall i | 0 <= i < |contacts|
      ensures Sourced(reader, pages, n + 1, contacts[i])
    {
      if i < |was| {
        assert contacts[i] == was[i];
        var k :| 0 <= k < n && ReadFrom(reader, Flattened(pages[k]), was[i]);
        assert ReadFrom(reader, Flattened(pages[k]), contacts[i]);
      } else {
        assert ReadFrom(reader, Flattened(pages[n]), contacts[i]);
      }
    }
  }

  lemma ThreeOffered(reader: Reader, page: PageText, was: seq<Contact>, addressed: seq<Contact>,
                     named: seq<Contact>, contacts: seq<Contact>)
    requires addressed == OfferAll(was, AddressOffers(reader, page, Book(reader, page)))
    requires named == OfferAll(addressed, PersonOffers(reader, page, reader.nameTitles(page.flat)))
    requires contacts == OfferAll(named, PhoneOffers(page, reader.tels(page.html)))
    ensures contacts == OfferAll(was, PageOffers(reader, page))
  {
    var addresses := AddressOffers(reader, page, Book(reader, page));
    var persons := PersonOffers(reader, page, reader.nameTitles(page.flat));
    OfferBoth(was, addresses, persons);
    OfferBoth(was, addresses + persons, PhoneOffers(page, reader.tels(page.html)));
  }

  method ReadPage(reader: Reader, page: PageText, was: seq<Contact>, wasSeen: set<Key>)
    returns (contacts: seq<Contact>, seen: set<Key>)
    requires Faithful(reader) && Tracks(was, wasSeen)
    ensures Tracks(contacts, seen) && Grown(reader, page, was, contacts)
    ensures Covers(reader, page, contacts)
    ensures contacts == OfferAll(was, PageOffers(reader, page))
  {
    var found := EmailsIn(reader, page);
    BookIsPlain(reader, page, found);
    contacts, seen := ReadAddresses(reader, page, found, was, wasSeen);
    ghost var addressed := contacts;
    contacts, seen := ReadPersons(reader, page, contacts, seen);
    ghost var named := contacts;
    contacts, seen := ReadPhones(reader, page, contacts, seen);
    GrownOn(reader, page, was, addressed, named);
    GrownOn(reader, page, was, named, contacts);
    PageCovered(reader, page, found, addressed, named, contacts);
    ThreeOffered(reader, page, was, addressed, named, contacts);
  }

  lemma PageCovered(reader: Reader, page: PageText, found: seq<Found>,
                    addressed: seq<Contact>, named: seq<Contact>, all: seq<Contact>)
    requires addressed <= named <= all
    requires IsAddressBook(reader, page, found) && AddressesCovered(reader, page, found, |found|, addressed)
    requires PersonsCovered(reader, page, reader.nameTitles(page.flat), |reader.nameTitles(page.flat)|, named)
    requires PhonesCovered(page, reader.tels(page.html), |reader.tels(page.html)|, all)
    ensures Covers(reader, page, all)
  {
    forall a: string | (Linked(reader, page, a) || Visible(reader, page, a)) && Usable(reader, a)
      ensures HasEmail(all, a, page.url)
    {
      assert HasAddress(found, a);
      var k :| 0 <= k < |found| && found[k].address == a;
      assert AddressCovered(reader, page, found[k], addressed);
      EmailsStay(addressed, all, a, page.url);
    }
    var hits := reader.nameTitles(page.flat);
    forall h | h in hits && IsPerson(reader, h)
      ensures HasPerson(all, NameOf(h), page.url)
    {
      var k :| 0 <= k < |hits| && hits[k] == h;
      assert PersonCovered(reader, page, hits[k], named);
      PersonsStay(named, all, NameOf(h), page.url);
    }
    var tels := reader.tels(page.html);
    forall raw | raw in tels
      ensures HasKey(all, PhoneKey(Strip(raw), page.url))
    {
      var k :| 0 <= k < |tels| && tels[k] == raw;
      assert PhoneCovered(page, tels[k], all);
    }
  }

  // -------- What an extracted contact shows --------

  // The evidence is a part of the page, or, for what only a link says, the address or number itself;
  // and it holds what was read: the address in some spelling, the number, or the name and the title.
  // A name and its title are on the page, whatever the evidence is.
  ghost predicate Evident(page: PageText, c: Contact) {
    && (IsPart(c.evidence, page.flat) || c.evidence == c.email || c.evidence == c.phone)
    && (c.email != "" ==> IsPart(c.email, Lower(c.evidence)))
    && (c.email == "" && c.name == "" ==> IsPart(c.phone, c.evidence))
    && (NameOnly(c) ==> IsPart(c.name, c.evidence) && IsPart(c.title, c.evidence))
    && (c.name != "" ==> IsPart(c.name, page.flat) && IsPart(c.title, page.flat))
  }

  // An extracted address never belongs to an ignored mailbox, and its contact is a department's exactly when the
  // mailbox is; a contact without an address is a person or a number.
  lemma KindOfContact(reader: Reader, page: PageText, c: Contact)
    requires Faithful(reader) && ReadFrom(reader, page, c)
    ensures c.email != "" ==>
              var mailbox := Squashed(Before(c.email, '@'));
              && (forall p | p in reader.words.ignored :: !StartsWith(mailbox, p))
              && (c.sourceType == Department <==> exists p | p in reader.words.departments :: StartsWith(mailbox, p))
    ensures c.email == "" ==> c.sourceType != Department
    ensures c.sourceType == Named <==> c.name != ""
  {
    if f :| OnPage(reader, page, f) && AddressContact(reader, page, f) == Some(c) {
      AddressIsPlain(reader, page, f);
      KindOfAddress(reader, page, f, c);
    } else if h :| h in reader.nameTitles(page.flat) && IsPerson(reader, h) && c == PersonContact(reader, page, h) {
      PersonIsNamed(reader, h);
    }
  }

  lemma KindOfAddress(reader: Reader, page: PageText, f: Found, c: Contact)
    requires AddressContact(reader, page, f) == Some(c)
    ensures c.email == f.address && (c.sourceType == Named <==> c.name != "")
    ensures var mailbox := Squashed(Before(f.address, '@'));
            && (forall p | p in reader.words.ignored :: !StartsWith(mailbox, p))
            && (c.sourceType == Department <==> exists p | p in reader.words.departments :: StartsWith(mailbox, p))
  {
    var mailbox := Squashed(Before(f.address, '@'));
    StartsWithSome(mailbox, reader.words.ignored);
    StartsWithSome(mailbox, reader.words.departments);
    if c.sourceType == Named {
      PersonIsNamed(reader, LastPerson(reader, NearbyHits(reader, page.flat, f.address)).value);
    }
  }

  lemma StartsWithSome(s: string, prefixes: seq<string>)
    ensures StartsWithAny(s, prefixes) <==> exists p | p in prefixes :: StartsWith(s, p)
  {
    if p :| p in prefixes && StartsWith(s, p) {
      var i :| 0 <= i < |prefixes| && prefixes[i] == p;
      assert StartsWith(s, prefixes[i]);
    }
  }

  lemma EvidenceOfContact(reader: Reader, page: PageText, c: Contact)
    requires Faithful(reader) && ReadFrom(reader, page, c)
    ensures Evident(page, c)
  {
    if f :| OnPage(reader, page, f) && AddressContact(reader, page, f) == Some(c) {
      AddressIsPlain(reader, page, f);
      AddressKey(reader, page, f, c);
      AddressEvidence(reader, page, f);
      if c.name != "" {
        NameBesideAddress(reader, page, f, c);
      }
    } else if h :| h in reader.nameTitles(page.flat) && IsPerson(reader, h) && c == PersonContact(reader, page, h) {
      PersonEvidence(reader, page, h, c);
    } else {
      var raw :| raw in reader.tels(page.html) && c == PhoneContact(page, raw);
      PhoneEvidence(page, raw);
    }
  }

  lemma PhoneEvidence(page: PageText, raw: string)
    ensures Evident(page, PhoneContact(page, raw))
  {
    StripIsPart(raw, WHITE);
    SnippetIsEvidence(page.flat, Strip(raw));
  }

  lemma AddressEvidence(reader: Reader, page: PageText, f: Found)
    requires Faithful(reader) && OnPage(reader, page, f)
    ensures IsPart(f.snippet, page.flat) || f.snippet == f.address
    ensures IsPart(f.address, Lower(f.snippet))
  {
    if Linked(reader, page, f.address) {
      AddressesArePlain(reader, f.address);
      SnippetIsEvidence(page.flat, f.address);
      LinkIsLower(reader, page, f.address);
      LowerKeepsParts(f.address, f.snippet);
    } else {
      var spelling :| FirstSpelling(reader, page, f.address, spelling) && f.snippet == Snippet(page.flat, spelling);
      SpellingIsAddress(reader, page, f.address, spelling);
      SnippetIsEvidence(page.flat, spelling);
      LowerKeepsParts(spelling, f.snippet);
    }
  }

  lemma NameBesideAddress(reader: Reader, page: PageText, f: Found, c: Contact)
    requires Faithful(reader) && AddressContact(reader, page, f) == Some(c) && c.name != ""
    ensures IsPart(c.name, page.flat) && IsPart(c.title, page.flat)
  {
    var index := Find(page.flat, f.address);
    FindIsFirst(page.flat, f.address);
    var h := LastPerson(reader, NearbyHits(reader, page.flat, f.address)).value;
    HitNearIsOnPage(h, page.flat, f.address, index);
  }

  // What is read from a window is on the page.
  lemma HitNearIsOnPage(h: NameTitle, flat: string, needle: string, index: nat)
    requires At(flat, needle, index) && FaithfulHit(h, Around(flat, needle, index, NAME_RADIUS))
    ensures IsPart(NameOf(h), flat) && IsPart(TitleOf(h), flat)
  {
    var window := Around(flat, needle, index, NAME_RADIUS);
    AroundKeeps(flat, needle, index, NAME_RADIUS);
    PartOfPart(h.whole, window, flat);
    HitParts(h, window, flat);
  }

  lemma LinkIsLower(reader: Reader, page: PageText, address: string)
    requires Linked(reader, page, address)
    ensures Lower(address) == address
  {
    var m :| m in reader.mailtos(page.html) && MailtoAddress(reader, m) == address;
    LowerTwice(Strip(reader.unescape(m)));
  }

  lemma PersonEvidence(reader: Reader, page: PageText, h: NameTitle, c: Contact)
    requires Faithful(reader) && h in reader.nameTitles(page.flat) && IsPerson(reader, h)
    requires c == PersonContact(reader, page, h)
    ensures Evident(page, c)
  {
    PersonIsNamed(reader, h);
    assert FaithfulHit(h, page.flat);
    SnippetIsEvidence(page.flat, h.whole);
    HitParts(h, page.flat, c.evidence);
    HitParts(h, page.flat, page.flat);
  }

  lemma HitParts(h: NameTitle, s: string, evidence: string)
    requires FaithfulHit(h, s) && IsPart(h.whole, evidence)
    ensures IsPart(NameOf(h), evidence) && IsPart(TitleOf(h), evidence)
  {
    StripIsPart(h.name, WHITE);
    StripIsPart(h.title, TITLE_EDGES);
    PartOfPart(NameOf(h), h.name, h.whole);
    PartOfPart(TitleOf(h), h.title, h.whole);
    PartOfPart(NameOf(h), h.whole, evidence);
    PartOfPart(TitleOf(h), h.whole, evidence);
  }

  // -------- Extraction by the columns of a contact --------

  // How sure a contact is: 0.85 for a person with an address and 0.6 for a mailbox, 0.3 for a number; a person
  // without an address has 0.4 and half the confidence of the title, but no more than 0.75.
  lemma ConfidenceOfContact(reader: Reader, page: PageText, c: Contact)
    requires Faithful(reader) && ReadFrom(reader, page, c)
    ensures c.email != "" ==> c.phone == "" && c.confidence == if c.name != "" then 0.85 else 0.6
    ensures c.email == "" && c.name == "" ==> c.title == "" && c.confidence == 0.3
    ensures c.email == "" && c.name != "" ==>
              var sure := reader.classify(Some(c.title)).confidence;
              && c.phone == "" && 0.65 <= c.confidence <= 0.75
              && (sure <= 0.7 ==> c.confidence == 0.4 + 0.5 * sure) && (sure >= 0.7 ==> c.confidence == 0.75)
  {
    if f :| OnPage(reader, page, f) && AddressContact(reader, page, f) == Some(c) {
      AddressIsPlain(reader, page, f);
      if ClassifyEmail(reader.words, Before(f.address, '@')) == Some(Generic)
         && LastPerson(reader, NearbyHits(reader, page.flat, f.address)).Some? {
        PersonIsNamed(reader, LastPerson(reader, NearbyHits(reader, page.flat, f.address)).value);
      }
    } else if h :| h in reader.nameTitles(page.flat) && IsPerson(reader, h) && c == PersonContact(reader, page, h) {
      PersonIsNamed(reader, h);
    }
  }

  // Whatever a page says is among the contacts of its URL: every usable address, ...
  lemma AddressIsThere(reader: Reader, pages: seq<Page>, contacts: seq<Contact>, k: nat, a: string)
    requires Extracted(reader, pages, contacts) && k < |pages|
    requires Linked(reader, Flattened(pages[k]), a) || Visible(reader, Flattened(pages[k]), a)
    requires ClassifyEmail(reader.words, Before(a, '@')).Some?
    ensures exists c | c in contacts :: c.sourceUrl == pages[k].url && c.email == a
  {
    assert Covers(reader, Flattened(pages[k]), contacts) && Usable(reader, a);
    var i :| 0 <= i < |contacts| && contacts[i].email == a && contacts[i].sourceUrl == pages[k].url;
    assert contacts[i] in contacts;
  }

  // ... every person, ...
  lemma PersonIsThere(reader: Reader, pages: seq<Page>, contacts: seq<Contact>, k: nat, h: NameTitle)
    requires Extracted(reader, pages, contacts) && k < |pages|
    requires h in reader.nameTitles(Flattened(pages[k]).flat) && IsPerson(reader, h)
    ensures exists c | c in contacts :: c.sourceUrl == pages[k].url && Lower(c.name) == Lower(NameOf(h))
  {
    assert Covers(reader, Flattened(pages[k]), contacts);
    var i :| 0 <= i < |contacts| && SamePerson(contacts[i], NameOf(h), pages[k].url);
    assert contacts[i] in contacts;
  }

  // ... and every number.
  lemma NumberIsThere(reader: Reader, pages: seq<Page>, contacts: seq<Contact>, k: nat, raw: string)
    requires Faithful(reader) && Extracted(reader, pages, contacts) && k < |pages|
    requires raw in reader.tels(pages[k].html)
    ensures exists c | c in contacts ::
              c.sourceUrl == pages[k].url && c.phone == Strip(raw) && c.name == "" && c.email == ""
  {
    assert Covers(reader, Flattened(pages[k]), contacts);
    var i :| 0 <= i < |contacts| && KeyOf(contacts[i]) == PhoneKey(Strip(raw), pages[k].url);
    var n :| 0 <= n < |pages| && ReadFrom(reader, Flattened(pages[n]), contacts[i]);
    NumberOfKey(reader, Flattened(pages[n]), contacts[i], Strip(raw), pages[k].url);
    assert contacts[i] in contacts;
  }

  lemma NumberOfKey(reader: Reader, page: PageText, c: Contact, phone: string, url: string)
    requires Faithful(reader) && ReadFrom(reader, page, c) && KeyOf(c) == PhoneKey(phone, url)
    ensures c.sourceUrl == url && c.phone == phone && c.name == "" && c.email == ""
  {
    if f :| OnPage(reader, page, f) && AddressContact(reader, page, f) == Some(c) {
      AddressIsPlain(reader, page, f);
    } else if h :| h in reader.nameTitles(page.flat) && IsPerson(reader, h) && c == PersonContact(reader, page, h) {
      PersonIsNamed(reader, h);
    }
    assert "tel:"[3] == ':' && ("tel:" + phone)[3] == ':';
    assert ("tel:" + phone)[3] in "tel:" + phone;
    assert "tel:" == ['t', 'e', 'l', ':'];
    assert ("tel:" + phone)[4..] == phone;
    assert ("tel:" + c.phone)[4..] == c.phone;
  }

  // No two contacts of a URL agree in name and address, unless they are two different numbers; and no person
  // without an address follows another contact of that name.
  lemma NothingTwice(reader: Reader, pages: seq<Page>, contacts: seq<Contact>, i: nat, j: nat)
    requires Extracted(reader, pages, contacts) && i < j < |contacts|
    requires contacts[i].sourceUrl == contacts[j].sourceUrl && Lower(contacts[i].name) == Lower(contacts[j].name)
    ensures contacts[j].email == "" ==> contacts[j].name == ""
    ensures contacts[i].email == contacts[j].email ==>
              contacts[j].email == "" && contacts[i].phone != contacts[j].phone
  {
    assert KeyOf(contacts[i]) != KeyOf(contacts[j]);
    assert NameOnly(contacts[j]) ==>
        !SamePerson(contacts[i], contacts[j].name, contacts[j].sourceUrl);
  }
}
