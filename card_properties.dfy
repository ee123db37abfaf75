/**
 * What the record builder promises about the cards it produces: the fixed
 * opening and closing, the gating of each optional line, the fixed order,
 * and the line structure of the text.
 */
module CardProperties {
  import opened Text
  import opened VCard

  // ---------------------------------------------------------------
  // Opening and closing
  // ---------------------------------------------------------------

  lemma HeaderText(c: Contact)
    ensures Join(Header(c), "\n") ==
      "BEGIN:VCARD" + "\n" + "VERSION:3.0" + "\n" + Line(c, FN) + "\n" + Line(c, N) + "\n" + Line(c, TEL)
  {
    JoinSnoc([Begin], Version, "\n");
    assert [Begin] + [Version] == [Begin, Version];
    JoinSnoc([Begin, Version], Line(c, FN), "\n");
    assert [Begin, Version] + [Line(c, FN)] == [Begin, Version, Line(c, FN)];
    JoinSnoc([Begin, Version, Line(c, FN)], Line(c, N), "\n");
    assert [Begin, Version, Line(c, FN)] + [Line(c, N)] == [Begin, Version, Line(c, FN), Line(c, N)];
    JoinSnoc([Begin, Version, Line(c, FN), Line(c, N)], Line(c, TEL), "\n");
    assert [Begin, Version, Line(c, FN), Line(c, N)] + [Line(c, TEL)] == Header(c);
  }

  /** Only regroups a concatenation of twelve strings; no meaning of its own. */
  lemma Regroup12(b: string, v: string, fnT: string, nT: string, telT: string, nl: string,
                   sp: string, sc: string, sss: string, f: string, l: string, p: string)
    ensures b + nl + v + nl + (fnT + (f + sp + l)) + nl + (nT + (l + sc + f + sss)) + nl + (telT + p) + nl
         == (b + nl + v + nl + fnT) + f + sp + l + (nl + nT) + l + sc + f + (sss + nl + telT) + p + nl
  {
  }

  /** Only splits the opening literals into their pieces; no meaning of its own. */
  lemma HeaderLiterals()
    ensures "BEGIN:VCARD\nVERSION:3.0\nFN:" == "BEGIN:VCARD" + "\n" + "VERSION:3.0" + "\n" + "FN:"
    ensures "\nN:" == "\n" + "N:"
    ensures ";;;\nTEL;TYPE=CELL:" == ";;;" + "\n" + "TEL;TYPE=CELL:"
  {
  }

  /** The five opening lines, each with its line feed, as one literal. */
  lemma HeaderLiteral(c: Contact)
    ensures Join(Header(c), "\n") + "\n"
      == "BEGIN:VCARD\nVERSION:3.0\nFN:" + c.firstName + " " + c.lastName
         + "\nN:" + c.lastName + ";" + c.firstName + ";;;\nTEL;TYPE=CELL:" + c.phone + "\n"
  {
    HeaderText(c);
    assert Line(c, FN) == "FN:" + (c.firstName + " " + c.lastName);
    assert Line(c, N) == "N:" + (c.lastName + ";" + c.firstName + ";;;");
    assert Line(c, TEL) == "TEL;TYPE=CELL:" + c.phone;
    Regroup12("BEGIN:VCARD", "VERSION:3.0", "FN:", "N:", "TEL;TYPE=CELL:", "\n", " ", ";", ";;;",
      c.firstName, c.lastName, c.phone);
    HeaderLiterals();
  }

  /**
   * A ready card opens with BEGIN, VERSION, FN, N and, always, the TEL
   * line, each terminated by a line feed.
   */
  lemma CardPrefix(c: Contact)
    requires Ready(c)
    ensures Card(c).Some?
    ensures HasPrefix(Card(c).value,
      "BEGIN:VCARD\nVERSION:3.0\nFN:" + c.firstName + " " + c.lastName
      + "\nN:" + c.lastName + ";" + c.firstName + ";;;\nTEL;TYPE=CELL:" + c.phone + "\n")
  {
    var rest := LinesOf(c, Emitted(c)) + [End];
    assert Lines(c) == Header(c) + rest;
    JoinAppend(Header(c), rest, "\n");
    HeaderLiteral(c);
    PrefixOfAppend(Join(Header(c), "\n") + "\n", Join(rest, "\n"));
  }

  lemma JoinLast(body: seq<string>, last: string)
    requires |body| >= 1
    ensures Join(body + [last], "\n") == Join(body, "\n") + ("\n" + last)
  {
    JoinSnoc(body, last, "\n");
  }

  lemma CardEndsWithEnd(c: Contact)
    requires Ready(c)
    ensures Card(c).Some?
    ensures Card(c).value == Join(Header(c) + LinesOf(c, Emitted(c)), "\n") + ("\n" + End)
  {
    JoinLast(Header(c) + LinesOf(c, Emitted(c)), End);
  }

  /** A ready card closes with the line `END:VCARD` and no line feed after it. */
  lemma CardSuffix(c: Contact)
    requires Ready(c)
    ensures Card(c).Some?
    ensures HasSuffix(Card(c).value, "\nEND:VCARD")
    ensures Card(c).value[|Card(c).value| - 1] == 'D'
  {
    CardEndsWithEnd(c);
    assert "\n" + End == "\nEND:VCARD";
    var t := Join(Header(c) + LinesOf(c, Emitted(c)), "\n");
    SuffixOfAppend(t, "\nEND:VCARD");
    assert "\nEND:VCARD"[9] == 'D';
  }

  // ---------------------------------------------------------------
  // Which optional lines appear, and in what order
  // ---------------------------------------------------------------

  lemma KeepMember(c: Contact, p: Prop, q: Prop)
    ensures p in Keep(c, q) <==> p == q && Present(Get(c, Source(q)))
  {
  }

  /** Exactly the optional properties whose form field is present are emitted. */
  lemma EmittedIffPresent(c: Contact, p: Prop)
    ensures p in Emitted(c) <==> IsOptional(p) && Present(Get(c, Source(p)))
  {
    KeepMember(c, p, EMAIL);
    KeepMember(c, p, ORG);
    KeepMember(c, p, TITLE);
    KeepMember(c, p, URL);
    KeepMember(c, p, ADR);
    KeepMember(c, p, NOTE);
    assert p in Emitted(c) <==>
      p in Keep(c, EMAIL) || p in Keep(c, ORG) || p in Keep(c, TITLE)
      || p in Keep(c, URL) || p in Keep(c, ADR) || p in Keep(c, NOTE);
    assert IsOptional(p) <==> p == EMAIL || p == ORG || p == TITLE || p == URL || p == ADR || p == NOTE;
  }

  /** Each optional line is gated by its own form field. */
  lemma EmittedByField(c: Contact)
    ensures EMAIL in Emitted(c) <==> c.email != ""
    ensures ORG in Emitted(c) <==> c.company != ""
    ensures TITLE in Emitted(c) <==> c.title != ""
    ensures URL in Emitted(c) <==> c.website != ""
    ensures ADR in Emitted(c) <==> c.address != ""
    ensures NOTE in Emitted(c) <==> c.notes != ""
  {
    EmittedIffPresent(c, EMAIL);
    EmittedIffPresent(c, ORG);
    EmittedIffPresent(c, TITLE);
    EmittedIffPresent(c, URL);
    EmittedIffPresent(c, ADR);
    EmittedIffPresent(c, NOTE);
  }

  /** Strictly increasing rank: the fixed order, with nothing repeated. */
  predicate InOrder(ps: seq<Prop>) {
    forall i, j :: 0 <= i < j < |ps| ==> Rank(ps[i]) < Rank(ps[j])
  }

  /** Only optional properties, all ranked below `r`. */
  predicate OptionalBelow(ps: seq<Prop>, r: nat) {
    forall i :: 0 <= i < |ps| ==> IsOptional(ps[i]) && Rank(ps[i]) < r
  }

  lemma KeepExtends(c: Contact, ps: seq<Prop>, p: Prop)
    requires IsOptional(p) && InOrder(ps) && OptionalBelow(ps, Rank(p))
    ensures InOrder(ps + Keep(c, p)) && OptionalBelow(ps + Keep(c, p), Rank(p) + 1)
  {
  }

  /**
   * The emitted properties keep the fixed order EMAIL, ORG, TITLE, URL,
   * ADR, NOTE; so none appears twice.
   */
  lemma EmittedInOrder(c: Contact)
    ensures forall i, j :: 0 <= i < j < |Emitted(c)| ==> Rank(Emitted(c)[i]) < Rank(Emitted(c)[j])
    ensures forall i :: 0 <= i < |Emitted(c)| ==> IsOptional(Emitted(c)[i])
  {
    var e0 := Keep(c, EMAIL);
    KeepExtends(c, [], EMAIL);
    assert [] + e0 == e0;
    var e1 := e0 + Keep(c, ORG);
    KeepExtends(c, e0, ORG);
    var e2 := e1 + Keep(c, TITLE);
    KeepExtends(c, e1, TITLE);
    var e3 := e2 + Keep(c, URL);
    KeepExtends(c, e2, URL);
    var e4 := e3 + Keep(c, ADR);
    KeepExtends(c, e3, ADR);
    KeepExtends(c, e4, NOTE);
    assert InOrder(Emitted(c)) && OptionalBelow(Emitted(c), Rank(NOTE) + 1);
  }

  // ---------------------------------------------------------------
  // Each property line appears at most once
  // ---------------------------------------------------------------

  /** Number of lines in `ls` that begin with `tag`. */
  function CountTagged(ls: seq<string>, tag: string): (n: nat)
    ensures n <= |ls|
  {
    if ls == [] then 0 else (if HasPrefix(ls[0], tag) then 1 else 0) + CountTagged(ls[1..], tag)
  }

  lemma {:induction false} CountTaggedAppend(a: seq<string>, b: seq<string>, tag: string)
    ensures CountTagged(a + b, tag) == CountTagged(a, tag) + CountTagged(b, tag)
  {
    if a == [] {
      assert a + b == b;
    } else {
      assert (a + b)[0] == a[0];
      assert (a + b)[1..] == a[1..] + b;
      CountTaggedAppend(a[1..], b, tag);
    }
  }

  lemma CountTaggedOne(l: string, tag: string)
    ensures CountTagged([l], tag) == if HasPrefix(l, tag) then 1 else 0
  {
    assert [l][1..] == [];
  }

  /** The first two characters of each tag and of each fixed line. */
  function Initials(p: Prop): (char, char) {
    match p
    case FN => ('F', 'N')
    case N => ('N', ':')
    case TEL => ('T', 'E')
    case EMAIL => ('E', 'M')
    case ORG => ('O', 'R')
    case TITLE => ('T', 'I')
    case URL => ('U', 'R')
    case ADR => ('A', 'D')
    case NOTE => ('N', 'O')
  }

  lemma TagInitials(p: Prop)
    ensures |Tag(p)| >= 2 && Tag(p)[0] == Initials(p).0 && Tag(p)[1] == Initials(p).1
  {
  }

  /** The initials tell every property tag and fixed line apart. */
  lemma InitialsDiffer(p: Prop, q: Prop)
    ensures p != q ==> Initials(p) != Initials(q)
    ensures Initials(p) != ('B', 'E') && Initials(p) != ('V', 'E') && Initials(p) != ('E', 'N')
  {
  }

  lemma NotTagged(l: string, t: string, u: string)
    requires |t| >= 2 && |u| >= 2 && HasPrefix(l, u) && (t[0] != u[0] || t[1] != u[1])
    ensures !HasPrefix(l, t)
  {
    assert l[0] == u[0] && l[1] == u[1];
  }

  /** A property line begins with its own tag and with no other. */
  lemma LineTagged(c: Contact, p: Prop, q: Prop)
    ensures HasPrefix(Line(c, q), Tag(p)) <==> p == q
  {
    PrefixOfAppend(Tag(q), Value(c, q));
    if p != q {
      TagInitials(p);
      TagInitials(q);
      InitialsDiffer(p, q);
      NotTagged(Line(c, q), Tag(p), Tag(q));
    }
  }

  lemma FixedLineUntagged(l: string, p: Prop)
    requires l == Begin || l == Version || l == End
    ensures CountTagged([l], Tag(p)) == 0
  {
    CountTaggedOne(l, Tag(p));
    TagInitials(p);
    InitialsDiffer(p, p);
    assert |l| >= 2 && (l[0], l[1]) in {('B', 'E'), ('V', 'E'), ('E', 'N')};
    assert l[..|l|] == l;
    NotTagged(l, Tag(p), l);
  }

  lemma CountLine(c: Contact, p: Prop, q: Prop)
    ensures CountTagged([Line(c, q)], Tag(p)) == if p == q then 1 else 0
  {
    CountTaggedOne(Line(c, q), Tag(p));
    LineTagged(c, p, q);
  }

  lemma CountHeader(c: Contact, p: Prop)
    ensures CountTagged(Header(c), Tag(p)) == if IsOptional(p) then 0 else 1
  {
    FixedLineUntagged(Begin, p);
    FixedLineUntagged(Version, p);
    CountLine(c, p, FN);
    CountLine(c, p, N);
    CountLine(c, p, TEL);
    assert Header(c) == [Begin] + [Version] + [Line(c, FN)] + [Line(c, N)] + [Line(c, TEL)];
    CountTaggedAppend([Begin], [Version], Tag(p));
    CountTaggedAppend([Begin] + [Version], [Line(c, FN)], Tag(p));
    CountTaggedAppend([Begin] + [Version] + [Line(c, FN)], [Line(c, N)], Tag(p));
    CountTaggedAppend([Begin] + [Version] + [Line(c, FN)] + [Line(c, N)], [Line(c, TEL)], Tag(p));
  }

  lemma LinesOfCons(c: Contact, ps: seq<Prop>)
    requires ps != []
    ensures LinesOf(c, ps) == [Line(c, ps[0])] + LinesOf(c, ps[1..])
  {
    var l, r := LinesOf(c, ps), [Line(c, ps[0])] + LinesOf(c, ps[1..]);
    assert |l| == |r|;
    forall i | 0 <= i < |l|
      ensures l[i] == r[i]
    {
      if i > 0 {
        assert r[i] == LinesOf(c, ps[1..])[i - 1];
        assert ps[1..][i - 1] == ps[i];
      }
    }
    assert l == r;
  }

  lemma CountTaggedCons(l: string, ls: seq<string>, tag: string)
    ensures CountTagged([l] + ls, tag) == (if HasPrefix(l, tag) then 1 else 0) + CountTagged(ls, tag)
  {
    assert ([l] + ls)[1..] == ls;
  }

  lemma MultisetCons(ps: seq<Prop>, p: Prop)
    requires ps != []
    ensures multiset(ps)[p] == (if ps[0] == p then 1 else 0) + multiset(ps[1..])[p]
  {
    assert ps == [ps[0]] + ps[1..];
  }

  /** Each line of `LinesOf(c, ps)` carries the tag of its own property. */
  lemma {:induction false} CountLinesOf(c: Contact, ps: seq<Prop>, p: Prop)
    ensures CountTagged(LinesOf(c, ps), Tag(p)) == multiset(ps)[p]
  {
    if ps != [] {
      LinesOfCons(c, ps);
      CountTaggedCons(Line(c, ps[0]), LinesOf(c, ps[1..]), Tag(p));
      MultisetCons(ps, p);
      LineTagged(c, p, ps[0]);
      CountLinesOf(c, ps[1..], p);
    }
  }

  /** Dropping the head keeps the order, and the head does not come back. */
  lemma InOrderTail(ps: seq<Prop>)
    requires InOrder(ps) && ps != []
    ensures InOrder(ps[1..]) && ps[0] !in ps[1..]
  {
    var tail := ps[1..];
    forall i, j | 0 <= i < j < |tail|
      ensures Rank(tail[i]) < Rank(tail[j])
    {
      assert tail[i] == ps[i + 1] && tail[j] == ps[j + 1];
    }
    forall i | 0 <= i < |tail|
      ensures tail[i] != ps[0]
    {
      assert Rank(ps[0]) < Rank(ps[i + 1]);
    }
  }

  /** A list in strictly increasing rank holds each property at most once. */
  lemma {:induction false} InOrderOnce(ps: seq<Prop>, p: Prop)
    requires InOrder(ps)
    ensures multiset(ps)[p] == if p in ps then 1 else 0
  {
    if ps != [] {
      assert ps == [ps[0]] + ps[1..];
      InOrderTail(ps);
      InOrderOnce(ps[1..], p);
    }
  }

  /** The optional properties whose form field is non-empty. */
  function PresentOptional(c: Contact): set<Prop> {
    set p | p in {EMAIL, ORG, TITLE, URL, ADR, NOTE} && Present(Get(c, Source(p)))
  }

  /** A list in strictly increasing rank has as many distinct entries as entries. */
  lemma {:induction false} InOrderDistinct(ps: seq<Prop>)
    requires InOrder(ps)
    ensures |set p | p in ps| == |ps|
  {
    if ps != [] {
      var tail := ps[1..];
      InOrderTail(ps);
      InOrderDistinct(tail);
      assert (set p | p in ps) == {ps[0]} + (set p | p in tail) by {
        assert ps == [ps[0]] + tail;
      }
    }
  }

  /** One optional line is emitted for each non-empty optional field. */
  lemma EmittedCount(c: Contact)
    ensures |Emitted(c)| == |PresentOptional(c)|
  {
    EmittedInOrder(c);
    InOrderDistinct(Emitted(c));
    forall p
      ensures p in Emitted(c) <==> p in PresentOptional(c)
    {
      EmittedIffPresent(c, p);
    }
    assert (set p | p in Emitted(c)) == PresentOptional(c);
  }

  lemma CountEmitted(c: Contact, p: Prop)
    ensures CountTagged(LinesOf(c, Emitted(c)), Tag(p)) ==
      if IsOptional(p) && Present(Get(c, Source(p))) then 1 else 0
  {
    CountLinesOf(c, Emitted(c), p);
    EmittedInOrder(c);
    InOrderOnce(Emitted(c), p);
    EmittedIffPresent(c, p);
  }

  /**
   * In a ready card the FN, N and TEL lines occur exactly once, and each
   * optional line occurs once when its form field is non-empty and not at
   * all otherwise.
   */
  lemma LineOccurrences(c: Contact, p: Prop)
    ensures CountTagged(Lines(c), Tag(p)) ==
      if !IsOptional(p) then 1
      else if Present(Get(c, Source(p))) then 1
      else 0
  {
    CountHeader(c, p);
    CountEmitted(c, p);
    FixedLineUntagged(End, p);
    CountTaggedAppend(Header(c), LinesOf(c, Emitted(c)), Tag(p));
    CountTaggedAppend(Header(c) + LinesOf(c, Emitted(c)), [End], Tag(p));
  }

  // ---------------------------------------------------------------
  // The text splits back into its lines
  // ---------------------------------------------------------------

  /** No field but the address holds a line feed (the address is flattened). */
  predicate SingleLineFields(c: Contact) {
    '\n' !in c.firstName && '\n' !in c.lastName && '\n' !in c.phone && '\n' !in c.email
    && '\n' !in c.company && '\n' !in c.title && '\n' !in c.website && '\n' !in c.notes
  }

  lemma LineSingle(c: Contact, p: Prop)
    requires SingleLineFields(c)
    ensures '\n' !in Line(c, p)
  {
    assert '\n' !in Tag(p);
    if p == ADR {
      assert '\n' !in ";;" && '\n' !in ";;;;";
      assert '\n' !in FlattenNewlines(c.address);
    } else {
      assert '\n' !in " " && '\n' !in ";" && '\n' !in ";;;";
    }
  }

  lemma HeaderSingle(c: Contact)
    requires SingleLineFields(c)
    ensures forall i :: 0 <= i < |Header(c)| ==> '\n' !in Header(c)[i]
  {
    assert '\n' !in Begin && '\n' !in Version;
    LineSingle(c, FN);
    LineSingle(c, N);
    LineSingle(c, TEL);
  }

  lemma LinesOfSingle(c: Contact, ps: seq<Prop>)
    requires SingleLineFields(c)
    ensures forall i :: 0 <= i < |LinesOf(c, ps)| ==> '\n' !in LinesOf(c, ps)[i]
  {
    forall i | 0 <= i < |LinesOf(c, ps)|
      ensures '\n' !in LinesOf(c, ps)[i]
    {
      LineSingle(c, ps[i]);
    }
  }

  lemma ConcatSingle(a: seq<string>, b: seq<string>, d: seq<string>)
    requires forall i :: 0 <= i < |a| ==> '\n' !in a[i]
    requires forall i :: 0 <= i < |b| ==> '\n' !in b[i]
    requires forall i :: 0 <= i < |d| ==> '\n' !in d[i]
    ensures forall i :: 0 <= i < |a + b + d| ==> '\n' !in (a + b + d)[i]
  {
  }

  lemma LinesSingle(c: Contact)
    requires SingleLineFields(c)
    ensures forall i :: 0 <= i < |Lines(c)| ==> '\n' !in Lines(c)[i]
  {
    HeaderSingle(c);
    LinesOfSingle(c, Emitted(c));
    assert '\n' !in End;
    ConcatSingle(Header(c), LinesOf(c, Emitted(c)), [End]);
  }

  /**
   * When no field but the address holds a line feed, splitting the card
   * text at line feeds gives back exactly its lines: the five fixed
   * opening lines, one per emitted optional property, and END:VCARD.
   */
  lemma CardSplitsIntoLines(c: Contact)
    requires Ready(c) && SingleLineFields(c)
    ensures Card(c).Some?
    ensures Split(Card(c).value, '\n') == Lines(c)
    ensures |Split(Card(c).value, '\n')| == 6 + |Emitted(c)|
    ensures |Split(Card(c).value, '\n')| == 5 + |PresentOptional(c)| + 1
  {
    EmittedCount(c);
    LinesSingle(c);
    assert "\n" == ['\n'];
    SplitJoin(Lines(c), '\n');
  }

  /**
   * The address is flattened onto its line; the notes are inserted as
   * they are, so a line feed in them splits the NOTE line.
   */
  lemma NotesVerbatim(c: Contact)
    ensures '\n' !in Line(c, ADR)
    ensures '\n' in Line(c, NOTE) <==> '\n' in c.notes
    ensures Line(c, NOTE) == "NOTE:" + c.notes
  {
    assert '\n' !in Tag(ADR) && '\n' !in ";;" && '\n' !in ";;;;";
    assert '\n' !in FlattenNewlines(c.address);
    assert '\n' !in Tag(NOTE);
  }
}
