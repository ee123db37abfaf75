/**
 * The record builder of the vCard QR generator: the nine-field contact
 * form and `generateVCard`, which turns it into a vCard 3.0 text block or
 * into "not ready" (`null`) when a mandatory field is empty.
 *
 * The builder follows the component, not RFC 2426: lines end in a bare
 * line feed, the last line has no terminator, no value is escaped, and
 * only the address is rewritten (its line feeds become ", ").
 */
module VCard {
  import opened Text

  datatype Option<T> = None | Some(value: T)

  /** The form record `formData`. */
  datatype Contact = Contact(
    firstName: string,
    lastName: string,
    phone: string,
    email: string,
    company: string,
    title: string,
    website: string,
    address: string,
    notes: string)

  /** The form as it is before any input. */
  const EmptyContact := Contact("", "", "", "", "", "", "", "", "")

  /** The keys `handleInputChange` is called with. */
  datatype Field = FirstName | LastName | Phone | Email | Company | Title | Website | Address | Notes

  function Get(c: Contact, f: Field): string {
    match f
    case FirstName => c.firstName
    case LastName => c.lastName
    case Phone => c.phone
    case Email => c.email
    case Company => c.company
    case Title => c.title
    case Website => c.website
    case Address => c.address
    case Notes => c.notes
  }

  /** `{ ...c, [f]: v }`: field `f` replaced, the other eight kept. */
  function With(c: Contact, f: Field, v: string): (r: Contact)
    ensures Get(r, f) == v
    ensures forall g :: g != f ==> Get(r, g) == Get(c, g)
  {
    match f
    case FirstName => c.(firstName := v)
    case LastName => c.(lastName := v)
    case Phone => c.(phone := v)
    case Email => c.(email := v)
    case Company => c.(company := v)
    case Title => c.(title := v)
    case Website => c.(website := v)
    case Address => c.(address := v)
    case Notes => c.(notes := v)
  }

  /** Two records with the same nine fields are the same record. */
  lemma SameFields(c: Contact, d: Contact)
    requires forall f :: Get(c, f) == Get(d, f)
    ensures c == d
  {
    assert Get(c, FirstName) == Get(d, FirstName) && Get(c, LastName) == Get(d, LastName);
    assert Get(c, Phone) == Get(d, Phone) && Get(c, Email) == Get(d, Email);
    assert Get(c, Company) == Get(d, Company) && Get(c, Title) == Get(d, Title);
    assert Get(c, Website) == Get(d, Website) && Get(c, Address) == Get(d, Address);
    assert Get(c, Notes) == Get(d, Notes);
  }

  /** JavaScript truthiness of a string: only the empty string is absent. */
  predicate Present(s: string) {
    s != ""
  }

  /** The three mandatory fields are all present. */
  predicate Ready(c: Contact) {
    Present(c.firstName) && Present(c.lastName) && Present(c.phone)
  }

  /**
   * Only the three required fields decide readiness: editing one of the six
   * optional fields never changes it, and editing a required field makes the
   * form ready exactly when the new value and the other two are non-empty.
   */
  lemma ReadyAfterEdit(c: Contact, f: Field, v: string)
    ensures f !in {FirstName, LastName, Phone} ==> Ready(With(c, f, v)) == Ready(c)
    ensures f == FirstName ==> (Ready(With(c, f, v)) <==> v != "" && c.lastName != "" && c.phone != "")
    ensures f == LastName ==> (Ready(With(c, f, v)) <==> v != "" && c.firstName != "" && c.phone != "")
    ensures f == Phone ==> (Ready(With(c, f, v)) <==> v != "" && c.firstName != "" && c.lastName != "")
  {
  }

  // ---------------------------------------------------------------
  // The lines of the card
  // ---------------------------------------------------------------

  /** The vCard properties the builder can emit, in emission order. */
  datatype Prop = FN | N | TEL | EMAIL | ORG | TITLE | URL | ADR | NOTE

  const Begin := "BEGIN:VCARD"
  const Version := "VERSION:3.0"
  const End := "END:VCARD"

  /** Property name and parameters, up to and including the colon. */
  function Tag(p: Prop): string {
    match p
    case FN => "FN:"
    case N => "N:"
    case TEL => "TEL;TYPE=CELL:"
    case EMAIL => "EMAIL:"
    case ORG => "ORG:"
    case TITLE => "TITLE:"
    case URL => "URL:"
    case ADR => "ADR;TYPE=WORK:"
    case NOTE => "NOTE:"
  }

  /** Property value as the builder writes it (no escaping). */
  function Value(c: Contact, p: Prop): string {
    match p
    case FN => c.firstName + " " + c.lastName
    case N => c.lastName + ";" + c.firstName + ";;;"
    case TEL => c.phone
    case EMAIL => c.email
    case ORG => c.company
    case TITLE => c.title
    case URL => c.website
    case ADR => ";;" + FlattenNewlines(c.address) + ";;;;"
    case NOTE => c.notes
  }

  function Line(c: Contact, p: Prop): string {
    Tag(p) + Value(c, p)
  }

  /** The text of the three required property lines, written out. */
  lemma RequiredLineTexts(c: Contact)
    ensures Line(c, FN) == "FN:" + c.firstName + " " + c.lastName
    ensures Line(c, N) == "N:" + c.lastName + ";" + c.firstName + ";;;"
    ensures Line(c, TEL) == "TEL;TYPE=CELL:" + c.phone
  {
  }

  /** The address line: the flattened address between the empty components. */
  lemma AddressLineText(c: Contact)
    ensures Line(c, ADR) == "ADR;TYPE=WORK:;;" + FlattenNewlines(c.address) + ";;;;"
  {
    assert "ADR;TYPE=WORK:;;" == "ADR;TYPE=WORK:" + ";;";
  }

  /** The text of the six optional property lines, written out. */
  lemma OptionalLineTexts(c: Contact)
    ensures Line(c, EMAIL) == "EMAIL:" + c.email
    ensures Line(c, ORG) == "ORG:" + c.company
    ensures Line(c, TITLE) == "TITLE:" + c.title
    ensures Line(c, URL) == "URL:" + c.website
    ensures Line(c, ADR) == "ADR;TYPE=WORK:;;" + FlattenNewlines(c.address) + ";;;;"
    ensures Line(c, NOTE) == "NOTE:" + c.notes
  {
    AddressLineText(c);
  }

  /** The form field whose presence gates the property. */
  function Source(p: Prop): Field {
    match p
    case FN => FirstName
    case N => LastName
    case TEL => Phone
    case EMAIL => Email
    case ORG => Company
    case TITLE => Title
    case URL => Website
    case ADR => Address
    case NOTE => Notes
  }

  /** Position of a property in the fixed emission order. */
  function Rank(p: Prop): nat {
    match p
    case FN => 0
    case N => 1
    case TEL => 2
    case EMAIL => 3
    case ORG => 4
    case TITLE => 5
    case URL => 6
    case ADR => 7
    case NOTE => 8
  }

  predicate IsOptional(p: Prop) {
    p in {EMAIL, ORG, TITLE, URL, ADR, NOTE}
  }

  function Keep(c: Contact, p: Prop): seq<Prop> {
    if Present(Get(c, Source(p))) then [p] else []
  }

  /** The optional properties whose field is present, in emission order. */
  function Emitted(c: Contact): seq<Prop> {
    Keep(c, EMAIL) + Keep(c, ORG) + Keep(c, TITLE) + Keep(c, URL) + Keep(c, ADR) + Keep(c, NOTE)
  }

  function LinesOf(c: Contact, ps: seq<Prop>): seq<string> {
    seq(|ps|, i requires 0 <= i < |ps| => Line(c, ps[i]))
  }

  /** The five fixed lines that open every card. */
  function Header(c: Contact): seq<string> {
    [Begin, Version, Line(c, FN), Line(c, N), Line(c, TEL)]
  }

  /** Every line of the card, first to last. */
  function Lines(c: Contact): seq<string> {
    Header(c) + LinesOf(c, Emitted(c)) + [End]
  }

  /** The card: its lines joined by line feeds, or None when not ready. */
  function Card(c: Contact): (r: Option<string>)
    ensures r.None? <==> !Ready(c)
  {
    if Ready(c) then Some(Join(Lines(c), "\n")) else None
  }

  // ---------------------------------------------------------------
  // generateVCard
  // ---------------------------------------------------------------

  /** `text` is `lines`, each terminated by a line feed. */
  ghost predicate Builds(text: string, lines: seq<string>) {
    |lines| >= 1 && text == Join(lines, "\n") + "\n"
  }

  lemma Extend(text: string, lines: seq<string>, l: string, text': string)
    requires Builds(text, lines) && text' == text + l + "\n"
    ensures Builds(text', lines + [l])
  {
    JoinSnoc(lines, l, "\n");
  }

  function LinesOfKeep(c: Contact, p: Prop): (r: seq<string>)
    ensures r == if Present(Get(c, Source(p))) then [Line(c, p)] else []
  {
    LinesOf(c, Keep(c, p))
  }

  lemma LinesOfAppend(c: Contact, a: seq<Prop>, b: seq<Prop>)
    ensures LinesOf(c, a + b) == LinesOf(c, a) + LinesOf(c, b)
  {
  }

  /** The optional lines, one gated block per property. */
  lemma EmittedLines(c: Contact)
    ensures LinesOf(c, Emitted(c)) ==
      LinesOfKeep(c, EMAIL) + LinesOfKeep(c, ORG) + LinesOfKeep(c, TITLE)
      + LinesOfKeep(c, URL) + LinesOfKeep(c, ADR) + LinesOfKeep(c, NOTE)
  {
    var e1 := Keep(c, EMAIL) + Keep(c, ORG);
    var e2 := e1 + Keep(c, TITLE);
    var e3 := e2 + Keep(c, URL);
    var e4 := e3 + Keep(c, ADR);
    LinesOfAppend(c, Keep(c, EMAIL), Keep(c, ORG));
    LinesOfAppend(c, e1, Keep(c, TITLE));
    LinesOfAppend(c, e2, Keep(c, URL));
    LinesOfAppend(c, e3, Keep(c, ADR));
    LinesOfAppend(c, e4, Keep(c, NOTE));
  }

  /** Only regroups a concatenation of seven sequences; no meaning of its own. */
  lemma Regroup(h: seq<string>, a: seq<string>, b: seq<string>, c: seq<string>,
                 d: seq<string>, e: seq<string>, f: seq<string>)
    ensures h + a + b + c + d + e + f == h + (a + b + c + d + e + f)
  {
  }

  /**
   * One `if (value) vcard += `${tag}${value}\n`` step of the builder, for
   * the property `p` gated by its form field.
   */
  method AppendProperty(vcard: string, c: Contact, p: Prop, ghost lines: seq<string>)
    returns (vcard': string, ghost lines': seq<string>)
    requires Builds(vcard, lines)
    ensures Builds(vcard', lines')
    ensures lines' == lines + LinesOfKeep(c, p)
  {
    vcard', lines' := vcard, lines;
    if Get(c, Source(p)) != "" {
      Extend(vcard, lines, Line(c, p), vcard + Tag(p) + Value(c, p) + "\n");
      vcard' := vcard + Tag(p) + Value(c, p) + "\n";
      lines' := lines + [Line(c, p)];
    }
  }

  lemma FnLine(c: Contact, text: string)
    ensures text + "FN:" + c.firstName + " " + c.lastName + "\n" == text + Line(c, FN) + "\n"
  {
    assert Line(c, FN) == "FN:" + (c.firstName + " " + c.lastName);
  }

  lemma NLine(c: Contact, text: string)
    ensures text + "N:" + c.lastName + ";" + c.firstName + ";;;\n" == text + Line(c, N) + "\n"
  {
    assert Line(c, N) == "N:" + (c.lastName + ";" + c.firstName + ";;;");
    assert ";;;\n" == ";;;" + "\n";
    var t := text + "N:" + c.lastName + ";" + c.firstName;
    assert t + ";;;\n" == t + ";;;" + "\n";
  }

  /** Closing the card: the text with `END:VCARD` appended is the card. */
  lemma Finish(c: Contact, text: string, lines: seq<string>)
    requires Ready(c) && Builds(text, lines)
    requires lines == Header(c) + LinesOfKeep(c, EMAIL) + LinesOfKeep(c, ORG) + LinesOfKeep(c, TITLE)
      + LinesOfKeep(c, URL) + LinesOfKeep(c, ADR) + LinesOfKeep(c, NOTE)
    ensures Card(c) == Some(text + "END:VCARD")
  {
    Regroup(Header(c), LinesOfKeep(c, EMAIL), LinesOfKeep(c, ORG), LinesOfKeep(c, TITLE),
      LinesOfKeep(c, URL), LinesOfKeep(c, ADR), LinesOfKeep(c, NOTE));
    EmittedLines(c);
    JoinSnoc(lines, End, "\n");
  }

  /**
   * The component's `generateVCard`: a local text extended line by line.
   * It is not ready exactly when first name, last name or phone is the
   * empty string; otherwise it yields the card.
   */
  method GenerateVCard(c: Contact) returns (r: Option<string>)
    ensures r.None? <==> (c.firstName == "" || c.lastName == "" || c.phone == "")
    ensures r == Card(c)
  {
    if c.firstName == "" || c.lastName == "" || c.phone == "" {
      return None;
    }

    var vcard := "BEGIN:VCARD\n";
    ghost var lines := [Begin];
    assert Builds(vcard, lines);
    assert vcard + "VERSION:3.0\n" == vcard + Version + "\n";
    Extend(vcard, lines, Version, vcard + "VERSION:3.0\n");
    vcard, lines := vcard + "VERSION:3.0\n", lines + [Version];
    FnLine(c, vcard);
    Extend(vcard, lines, Line(c, FN), vcard + "FN:" + c.firstName + " " + c.lastName + "\n");
    vcard, lines := vcard + "FN:" + c.firstName + " " + c.lastName + "\n", lines + [Line(c, FN)];
    NLine(c, vcard);
    Extend(vcard, lines, Line(c, N), vcard + "N:" + c.lastName + ";" + c.firstName + ";;;\n");
    vcard, lines := vcard + "N:" + c.lastName + ";" + c.firstName + ";;;\n", lines + [Line(c, N)];

    // Always taken: the guard above has already returned when phone is empty.
    vcard, lines := AppendProperty(vcard, c, TEL, lines);
    assert lines == Header(c);
    vcard, lines := AppendProperty(vcard, c, EMAIL, lines);
    vcard, lines := AppendProperty(vcard, c, ORG, lines);
    vcard, lines := AppendProperty(vcard, c, TITLE, lines);
    vcard, lines := AppendProperty(vcard, c, URL, lines);
    vcard, lines := AppendProperty(vcard, c, ADR, lines);
    vcard, lines := AppendProperty(vcard, c, NOTE, lines);

    Finish(c, vcard, lines);
    vcard := vcard + "END:VCARD";

    return Some(vcard);
  }
}
