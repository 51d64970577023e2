/**
 * The data of contact discovery (apps/backend/app/services/contact_discovery.py). What the regular expressions
 * find, how HTML entities are decoded, how a title is classified and the word lists
 * are the fields of a Reader; SHIPPED_WORDS holds the lists of the source.
 */
module Contacts {
  import opened Text
  import opened Wrappers

  datatype SourceType = Named | Department | Generic

  datatype Contact = Contact(
    name: string,
    title: string,
    email: string,
    phone: string,
    sourceUrl: string,
    sourceType: SourceType,
    evidence: string,
    confidence: real
  )

  datatype Page = Page(url: string, html: string, text: string)

  // A page with its text on one line.
  datatype PageText = PageText(url: string, html: string, flat: string)

  function Flattened(page: Page): PageText {
    PageText(page.url, page.html, Flatten(page.text))
  }

  // The whole match of the name and title pattern, and its two groups.
  datatype NameTitle = NameTitle(whole: string, name: string, title: string)

  datatype Role = UnknownRole | KnownRole(value: string)

  datatype Classification = Classification(confidence: real, roles: seq<Role>)

  datatype Reader = Reader(
    mailtos: string -> seq<string>,
    tels: string -> seq<string>,
    emails: string -> seq<string>,
    isEmail: string -> bool,
    nameTitles: string -> seq<NameTitle>,
    unescape: string -> string,
    classify: Option<string> -> Classification,
    words: Vocabulary
  )

  datatype Vocabulary = Vocabulary(ignored: seq<string>, departments: seq<string>, nonNames: set<string>)

  // What is relied on about a reader: a match is part of the text it was found in, an address is not empty, has no
  // outer white space and no colon, a title starts with a capital letter, and a confidence is between 0 and 1.
  ghost predicate Faithful(reader: Reader) {
    && (forall s: string, m: string | m in reader.emails(s) ::
          IsPart(m, s) && Trimmed(m) && reader.isEmail(Lower(m)))
    && (forall a: string | reader.isEmail(a) :: a != "" && Trimmed(a) && ':' !in a)
    && (forall s: string, h: NameTitle | h in reader.nameTitles(s) :: FaithfulHit(h, s))
    && (forall t: Option<string> :: 0.0 <= reader.classify(t).confidence <= 1.0)
  }

  ghost predicate FaithfulHit(h: NameTitle, s: string) {
    && IsPart(h.whole, s) && IsPart(h.name, h.whole) && IsPart(h.title, h.whole)
    && Trimmed(h.whole)
    && h.title != "" && 'A' <= h.title[0] <= 'Z'
  }

  // A reader that knows one address and one match, finds them wherever they stand, and takes every title for a role.
  ghost function ReaderOf(address: string, hit: NameTitle, words: Vocabulary): Reader {
    Reader(
      (html: string) => [],
      (html: string) => [],
      (s: string) => if IsPart(address, s) then [address] else [],
      (a: string) => a == address,
      (s: string) => if IsPart(hit.whole, s) then [hit] else [],
      (s: string) => s,
      (title: Option<string>) => Classification(1.0, [KnownRole("role")]),
      words
    )
  }

  // There are faithful readers that find something: one for each address and match of the expected form.
  lemma ReaderOfIsFaithful(address: string, hit: NameTitle, words: Vocabulary)
    requires address != "" && Trimmed(address) && ':' !in address && Lower(address) == address
    requires FaithfulHit(hit, hit.whole)
    ensures var reader := ReaderOf(address, hit, words);
            && Faithful(reader)
            && (forall s: string :: address in reader.emails(s) <==> IsPart(address, s))
            && (forall s: string :: hit in reader.nameTitles(s) <==> IsPart(hit.whole, s))
            && (IsPerson(reader, hit) <==> PlausiblePersonName(reader, NameOf(hit)))
  {
  }

  ghost predicate Reads(reader: Reader, address: string, hit: NameTitle) {
    Faithful(reader) && reader.emails(address) == [address] && reader.nameTitles(hit.whole) == [hit]
  }

  lemma ReaderOfReads(address: string, hit: NameTitle, words: Vocabulary)
    requires address != "" && Trimmed(address) && ':' !in address && Lower(address) == address
    requires FaithfulHit(hit, hit.whole)
    ensures Reads(ReaderOf(address, hit, words), address, hit)
  {
    ReaderOfIsFaithful(address, hit, words);
    WholeIsPart(address);
    WholeIsPart(hit.whole);
  }

  // In particular one that reads an address and a name with a title, under any word lists.
  lemma FaithfulReaderExists(words: Vocabulary) returns (reader: Reader, address: string, hit: NameTitle)
    ensures Reads(reader, address, hit) && reader.words == words
  {
    address, hit := "a@b.co", NameTitle("Bo Al Buyer", "Bo Al", "Buyer");
    AddressIsProper(address);
    HitIsProper(hit);
    ReaderOfReads(address, hit, words);
    reader := ReaderOf(address, hit, words);
  }

  lemma WholeIsPart(s: string)
    ensures IsPart(s, s)
  {
    assert At(s, s, 0);
  }

  lemma AddressIsProper(address: string)
    requires address == "a@b.co"
    ensures Trimmed(address) && ':' !in address && Lower(address) == address
  {
  }

  lemma HitIsProper(hit: NameTitle)
    requires hit == NameTitle("Bo Al Buyer", "Bo Al", "Buyer")
    ensures FaithfulHit(hit, hit.whole)
  {
    assert At(hit.whole, hit.whole, 0) && At(hit.whole, hit.name, 0) && At(hit.whole, hit.title, 6);
  }

  const SHIPPED_IGNORED: seq<string> := ["noreply", "no-reply", "donotreply", "webmaster", "abuse", "privacy"]

  const SHIPPED_DEPARTMENTS: seq<string> := [
    "purchasing", "procurement", "import", "imports", "logistics", "supplychain",
    "operations", "sales", "info", "contact", "office", "hello"
  ]

  const SHIPPED_NON_NAMES: set<string> := {
    "product", "products", "development", "customer", "customers", "service", "services", "quality", "team",
    "sales", "support", "manufacturing", "engineering", "operations", "company", "tools", "about", "contact",
    "contacts", "privacy", "policy", "terms", "united", "states", "america", "american", "new", "free", "shop",
    "home", "careers", "press", "media", "news", "catalog", "warranty", "resources", "training", "safety",
    "education", "distributor", "distributors", "dealer", "locator", "search", "account", "order", "orders",
    "international", "global", "corporate", "group", "division", "department", "journeyman", "lineman"
  }

  const SHIPPED_WORDS := Vocabulary(SHIPPED_IGNORED, SHIPPED_DEPARTMENTS, SHIPPED_NON_NAMES)

  const SNIPPET_RADIUS := 120
  const NAME_RADIUS := 200

  function Squashed(local: string): string {
    Without(Lower(local), {'-', '_', '.'})
  }

  function ClassifyEmail(words: Vocabulary, local: string): Option<SourceType> {
    if StartsWithAny(Squashed(local), words.ignored) then None
    else if StartsWithAny(Squashed(local), words.departments) then Some(Department)
    else Some(Generic)
  }

  predicate IsSquashed(s: string) {
    forall c | c in s :: LowerChar(c) == c && c !in {'-', '_', '.'}
  }

  lemma SquashedAppended(a: string, b: string)
    ensures Squashed(a + b) == Squashed(a) + Squashed(b)
  {
    assert Lower(a + b) == Lower(a) + Lower(b);
    WithoutAppended(Lower(a), Lower(b), {'-', '_', '.'});
  }

  lemma SquashedAlready(s: string)
    requires IsSquashed(s)
    ensures Squashed(s) == s
  {
    assert forall i | 0 <= i < |s| :: s[i] in s;
    assert Lower(s) == s;
    WithoutNothing(s, {'-', '_', '.'});
  }

  // A mailbox that starts with an ignored prefix is dropped; one that starts with a department's is that
  // department's, unless it is dropped; and any other one is generic.
  lemma KindOfMailbox(words: Vocabulary, prefix: string, rest: string)
    requires IsSquashed(prefix)
    ensures prefix in words.ignored ==> ClassifyEmail(words, prefix + rest) == None
    ensures prefix in words.departments && ClassifyEmail(words, prefix + rest).Some? ==>
              ClassifyEmail(words, prefix + rest) == Some(Department)
  {
    SquashedAppended(prefix, rest);
    SquashedAlready(prefix);
    assert StartsWith(Squashed(prefix + rest), prefix);
  }

  lemma KindOfOther(words: Vocabulary, local: string)
    requires forall p | p in words.ignored || p in words.departments :: !StartsWith(Squashed(local), p)
    ensures ClassifyEmail(words, local) == Some(Generic)
  {
  }

  lemma SquashedSeparator(c: char)
    requires c in {'-', '_', '.'}
    ensures Squashed([c]) == ""
  {
    var s := Lower([c]);
    assert s == [c];
    assert s[1..] == "" && Without(s[1..], {'-', '_', '.'}) == "";
  }

  lemma SquashedWithin(a: string, separator: char, b: string)
    requires separator in {'-', '_', '.'}
    ensures Squashed(a + ([separator] + b)) == Squashed(a + b)
  {
    SquashedAppended(a, [separator] + b);
    SquashedAppended([separator], b);
    SquashedAppended(a, b);
    SquashedSeparator(separator);
  }

  // Neither the case of its letters nor a separator anywhere in it matters for the kind of a mailbox.
  lemma SpellingOfMailbox(words: Vocabulary, a: string, b: string)
    ensures SameLetters(a, b) ==> ClassifyEmail(words, a) == ClassifyEmail(words, b)
    ensures forall separator | separator in {'-', '_', '.'} ::
              ClassifyEmail(words, a + ([separator] + b)) == ClassifyEmail(words, a + b)
  {
    LowerForgetsCase(a, b);
    forall separator | separator in {'-', '_', '.'}
      ensures Squashed(a + ([separator] + b)) == Squashed(a + b)
    {
      SquashedWithin(a, separator, b);
    }
  }

  // Under the lists of the source: noreply@ is dropped and sales@ is a department's.
  lemma ShippedKinds()
    ensures ClassifyEmail(SHIPPED_WORDS, "noreply") == None
    ensures ClassifyEmail(SHIPPED_WORDS, "sales") == Some(Department)
  {
    ListedKind(SHIPPED_WORDS, "noreply", "sales");
  }

  lemma ListedKind(words: Vocabulary, ignored: string, department: string)
    requires words.ignored == SHIPPED_IGNORED && words.departments == SHIPPED_DEPARTMENTS
    requires ignored == "noreply" && department == "sales"
    ensures ClassifyEmail(words, ignored) == None && ClassifyEmail(words, department) == Some(Department)
  {
    assert ignored == words.ignored[0] && department == words.departments[7];
    KindOfMailbox(words, ignored, "");
    KindOfMailbox(words, department, "");
    assert ignored + "" == ignored && department + "" == department;
    NotIgnored(words.ignored, department);
  }

  lemma NotIgnored(ignored: seq<string>, department: string)
    requires ignored == SHIPPED_IGNORED && department == "sales"
    ensures IsSquashed(department) && !StartsWithAny(Squashed(department), ignored)
  {
    SquashedAlready(department);
    assert forall i | 0 <= i < |ignored| :: ignored[i][0] != 's';
  }

  predicate PlausiblePersonName(reader: Reader, name: string) {
    2 <= |Words(name)| <= 3 && forall w | w in Words(name) :: Lower(w) !in reader.words.nonNames
  }

  predicate TitleNamesARole(c: Classification) {
    c.confidence >= 0.5 && c.roles != [] && UnknownRole !in c.roles
  }

  const TITLE_EDGES: set<char> := {' ', ',', '\U{2013}', '\U{2014}', '-', '|', ':'}

  function TitleOf(h: NameTitle): string {
    StripOf(h.title, TITLE_EDGES)
  }

  function NameOf(h: NameTitle): string {
    Strip(h.name)
  }

  // A match that stands for a person: a plausible name with a title that names a role.
  predicate IsPerson(reader: Reader, h: NameTitle) {
    PlausiblePersonName(reader, NameOf(h)) && TitleNamesARole(reader.classify(Some(TitleOf(h))))
  }

  // That is: two or three words, none of them a word that is no name, and a title that is classified with a
  // confidence of one half or more as known roles alone.
  lemma PersonIff(reader: Reader, h: NameTitle)
    ensures IsPerson(reader, h) <==>
            && (|Words(Strip(h.name))| == 2 || |Words(Strip(h.name))| == 3)
            && (forall w | w in Words(Strip(h.name)) :: Lower(w) !in reader.words.nonNames)
            && var found := reader.classify(Some(TitleOf(h)));
               found.confidence >= 0.5 && found.roles != [] && forall r | r in found.roles :: r != UnknownRole
  {
  }

  lemma TitleIsNotBlank(h: NameTitle, s: string)
    requires FaithfulHit(h, s)
    ensures TitleOf(h) != ""
  {
    assert h.title[0] !in TITLE_EDGES;
    assert Leading(h.title, TITLE_EDGES) == 0;
    assert h.title[0..] == h.title;
    TrailingRun(h.title, TITLE_EDGES);
    assert Trailing(h.title, TITLE_EDGES) < |h.title|;
  }

  lemma PersonIsNamed(reader: Reader, h: NameTitle)
    requires IsPerson(reader, h)
    ensures NameOf(h) != ""
  {
  }

  // -------- Evidence --------

  function Max(a: int, b: int): int {
    if a < b then b else a
  }

  function Min(a: int, b: int): int {
    if a < b then a else b
  }

  // The text around a needle found at the index.
  function Around(flat: string, needle: string, index: nat, radius: nat): string
    requires index + |needle| <= |flat|
  {
    flat[Max(0, index - radius)..Min(|flat|, index + |needle| + radius)]
  }

  function Snippet(flat: string, needle: string): string {
    var index := Find(flat, needle);
    if index < 0 then needle else Strip(Around(flat, needle, index, SNIPPET_RADIUS))
  }

  lemma AroundKeeps(flat: string, needle: string, index: nat, radius: nat)
    requires At(flat, needle, index)
    ensures IsPart(Around(flat, needle, index, radius), flat)
    ensures At(Around(flat, needle, index, radius), needle, Min(index, radius))
    ensures |Around(flat, needle, index, radius)| <= |needle| + 2 * radius
  {
    SliceKeeps(flat, needle, index, Max(0, index - radius), Min(|flat|, index + |needle| + radius));
  }

  // The evidence for text that is on the page is a part of the page that holds the text,
  // and is at most 240 characters longer; text that is not there is its own evidence.
  lemma SnippetIsEvidence(flat: string, needle: string)
    requires Trimmed(needle)
    ensures IsPart(needle, Snippet(flat, needle))
    ensures IsPart(needle, flat) ==> IsPart(Snippet(flat, needle), flat)
    ensures !IsPart(needle, flat) ==> Snippet(flat, needle) == needle
    ensures |Snippet(flat, needle)| <= |needle| + 240
  {
    var index := Find(flat, needle);
    FindIsFirst(flat, needle);
    if index < 0 {
      assert At(needle, needle, 0);
    } else {
      var window := Around(flat, needle, index, SNIPPET_RADIUS);
      AroundKeeps(flat, needle, index, SNIPPET_RADIUS);
      StripKeeps(window, needle, WHITE, Min(index, SNIPPET_RADIUS));
      StripIsPart(window, WHITE);
      PartOfPart(Strip(window), window, flat);
    }
  }

  // -------- The salutation of a mailbox --------

  const SHIPPED_DISPLAY_NAMES: seq<(string, string)> := [
    ("purchasing", "Purchasing Team"), ("procurement", "Procurement Team"), ("import", "Import Team"),
    ("imports", "Import Team"), ("logistics", "Logistics Team"), ("supplychain", "Supply Chain Team"),
    ("operations", "Operations Team"), ("sales", "Sales Team"), ("info", "Team"), ("contact", "Team"),
    ("office", "Team"), ("hello", "Team")
  ]

  // The keys of the table differ, as those of a dictionary do.
  lemma ShippedDisplayNamesDiffer()
    ensures forall i, j | 0 <= i < j < |SHIPPED_DISPLAY_NAMES| ::
              SHIPPED_DISPLAY_NAMES[i].0 != SHIPPED_DISPLAY_NAMES[j].0
  {
    DisplayNamesDiffer(SHIPPED_DISPLAY_NAMES, [10, 11, 6, 7, 9, 11, 10, 5, 4, 7, 6, 5], "ppiilsosicoh");
  }

  lemma DisplayNamesDiffer(names: seq<(string, string)>, lengths: seq<nat>, initials: string)
    requires |names| == |lengths| == |initials|
    requires forall i | 0 <= i < |names| :: |names[i].0| == lengths[i] > 0 && names[i].0[0] == initials[i]
    requires forall i, j | 0 <= i < j < |names| :: lengths[i] != lengths[j] || initials[i] != initials[j]
    ensures forall i, j | 0 <= i < j < |names| :: names[i].0 != names[j].0
  {
  }

  predicate Matches(names: seq<(string, string)>, local: string, i: int)
    requires 0 <= i < |names|
  {
    names[i].0 != "" && StartsWith(local, names[i].0)
  }

  // The one matching prefix that is longer than every other.
  ghost predicate IsLongest(names: seq<(string, string)>, local: string, i: int, n: nat)
    requires 0 <= i < n <= |names|
  {
    && Matches(names, local, i)
    && forall j | 0 <= j < n && j != i && Matches(names, local, j) :: |names[j].0| < |names[i].0|
  }

  // The display name of the longest matching prefix, or the default when none matches.
  method DepartmentDisplayName(names: seq<(string, string)>, email: string) returns (display: string)
    requires forall i, j | 0 <= i < j < |names| :: names[i].0 != names[j].0
    ensures var local := Squashed(Before(email, '@'));
            || (display == "Team" && forall i | 0 <= i < |names| :: !Matches(names, local, i))
            || (exists i | 0 <= i < |names| :: IsLongest(names, local, i, |names|) && display == names[i].1)
  {
    var local := Squashed(Before(email, '@'));
    var best := -1;
    for k := 0 to |names|
      invariant -1 <= best < k || best == -1
      invariant best == -1 ==> forall j | 0 <= j < k :: !Matches(names, local, j)
      invariant best >= 0 ==> IsLongest(names, local, best, k)
    {
      if StartsWith(local, names[k].0) && |names[k].0| > (if best == -1 then 0 else |names[best].0|) {
        best := k;
      } else if best >= 0 && StartsWith(local, names[k].0) && |names[k].0| == |names[best].0| {
        PrefixOfLength(local, names[k].0, names[best].0);
      }
    }
    display := if best >= 0 then names[best].1 else "Team";
  }

  lemma PrefixOfLength(s: string, a: string, b: string)
    requires StartsWith(s, a) && StartsWith(s, b) && |a| == |b|
    ensures a == b
  {
  }
}
