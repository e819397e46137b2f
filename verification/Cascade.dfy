/** The enrichment cascade: each missing field of an article takes the first value
    that some source of the cascade has for it. */
module Cascade {
  import opened Wrappers
  import opened Text

  const MAX_ABSTRACT := 8000

  /** What one source of the cascade knows; empty means it does not. */
  datatype Enrichment = Enrichment(authors: seq<string>, abstract_: string, year: Option<int>,
                                   volume: string, issue: string, pages: string)

  datatype Field = Authors | Abstract | Year | Volume | Issue | Pages

  /** The fields the cascade can fill, and the rest of the article. */
  datatype Card = Card(abstract_: string, year: Option<int>, volume: string, issue: string, pages: string, rest: string)

  predicate UnknownAuthor(authors: seq<string>) {
    authors == [] || exists n :: n in authors && TrimSpace(n) == "Unknown author"
  }

  function MissingFields(c: Card, authors: seq<string>): set<Field> {
    (if UnknownAuthor(authors) then {Authors} else {})
    + (if c.abstract_ == "" then {Abstract} else {}) + (if c.year == None then {Year} else {})
    + (if c.volume == "" then {Volume} else {}) + (if c.issue == "" then {Issue} else {})
    + (if c.pages == "" then {Pages} else {})
  }

  // ----- the specification: first come, first served

  predicate Has(e: Enrichment, f: Field) {
    match f
    case Authors => e.authors != []
    case Abstract => e.abstract_ != ""
    case Year => e.year.Some?
    case Volume => e.volume != ""
    case Issue => e.issue != ""
    case Pages => e.pages != ""
  }

  /** The place of the first source that has the field; the length if none has. */
  function FirstWith(es: seq<Enrichment>, f: Field): (i: nat)
    ensures i <= |es| && (i < |es| ==> Has(es[i], f)) && forall j :: 0 <= j < i ==> !Has(es[j], f)
  {
    if es == [] || Has(es[0], f) then 0 else FirstWith(es[1..], f) + 1
  }

  predicate Found(es: seq<Enrichment>, f: Field) {
    FirstWith(es, f) < |es|
  }

  /** The cascade's choice for a field, if it is missing and some source has it. */
  predicate Chosen(es: seq<Enrichment>, missing: set<Field>, f: Field) {
    f in missing && Found(es, f)
  }

  function Choice(es: seq<Enrichment>, f: Field): Enrichment
    requires Found(es, f)
  {
    es[FirstWith(es, f)]
  }

  function Filled(c: Card, missing: set<Field>, es: seq<Enrichment>): Card {
    Card(if Chosen(es, missing, Abstract) then TruncateRunes(Choice(es, Abstract).abstract_, MAX_ABSTRACT) else c.abstract_,
         if Chosen(es, missing, Year) then Choice(es, Year).year else c.year,
         if Chosen(es, missing, Volume) then Choice(es, Volume).volume else c.volume,
         if Chosen(es, missing, Issue) then Choice(es, Issue).issue else c.issue,
         if Chosen(es, missing, Pages) then Choice(es, Pages).pages else c.pages,
         c.rest)
  }

  lemma FirstWithMore(es: seq<Enrichment>, e: Enrichment, f: Field)
    ensures Found(es, f) ==> FirstWith(es + [e], f) == FirstWith(es, f) && Choice(es + [e], f) == Choice(es, f)
    ensures !Found(es, f) ==> FirstWith(es + [e], f) == if Has(e, f) then |es| else |es| + 1
  {
    var more := es + [e];
    assert forall j :: 0 <= j < |es| ==> more[j] == es[j];
    assert more[|es|] == e;
  }

  /** Some missing field is filled. */
  predicate AnyChosen(es: seq<Enrichment>, missing: set<Field>) {
    || Chosen(es, missing, Authors) || Chosen(es, missing, Abstract) || Chosen(es, missing, Year)
    || Chosen(es, missing, Volume) || Chosen(es, missing, Issue) || Chosen(es, missing, Pages)
  }

  // ----- one source

  predicate Takes(e: Enrichment, missing: set<Field>, f: Field) {
    f in missing && Has(e, f)
  }

  /** What one source fills. */
  function Take(c: Card, missing: set<Field>, e: Enrichment): Card {
    Card(if Takes(e, missing, Abstract) then TruncateRunes(e.abstract_, MAX_ABSTRACT) else c.abstract_,
         if Takes(e, missing, Year) then e.year else c.year,
         if Takes(e, missing, Volume) then e.volume else c.volume,
         if Takes(e, missing, Issue) then e.issue else c.issue,
         if Takes(e, missing, Pages) then e.pages else c.pages,
         c.rest)
  }

  predicate TakesAny(e: Enrichment, missing: set<Field>) {
    || Takes(e, missing, Abstract) || Takes(e, missing, Year) || Takes(e, missing, Volume)
    || Takes(e, missing, Issue) || Takes(e, missing, Pages)
  }

  predicate IsFilled(c: Card, f: Field) {
    match f
    case Authors => false
    case Abstract => c.abstract_ != ""
    case Year => c.year.Some?
    case Volume => c.volume != ""
    case Issue => c.issue != ""
    case Pages => c.pages != ""
  }

  /** What is missing after some sources: what was missing and none of them had. */
  function StillMissing(missing: set<Field>, es: seq<Enrichment>): set<Field> {
    set f | f in missing && !Found(es, f)
  }

  lemma ChosenMore(es: seq<Enrichment>, e: Enrichment, missing: set<Field>, f: Field)
    ensures Chosen(es + [e], missing, f) <==> Chosen(es, missing, f) || Takes(e, StillMissing(missing, es), f)
    ensures Chosen(es, missing, f) ==> Choice(es + [e], f) == Choice(es, f)
    ensures Takes(e, StillMissing(missing, es), f) ==> !Chosen(es, missing, f) && Choice(es + [e], f) == e
  {
    FirstWithMore(es, e, f);
  }

  lemma AllChosenMore(es: seq<Enrichment>, e: Enrichment, missing: set<Field>)
    ensures AnyChosen(es + [e], missing) <==>
            AnyChosen(es, missing) || Takes(e, StillMissing(missing, es), Authors) || TakesAny(e, StillMissing(missing, es))
    ensures forall c :: Filled(c, missing, es + [e]) == Take(Filled(c, missing, es), StillMissing(missing, es), e)
  {
    ChosenMore(es, e, missing, Authors);
    ChosenMore(es, e, missing, Abstract);
    ChosenMore(es, e, missing, Year);
    ChosenMore(es, e, missing, Volume);
    ChosenMore(es, e, missing, Issue);
    ChosenMore(es, e, missing, Pages);
  }

  /** A missing field is filled as soon as a source has it. */
  lemma FilledIff(c: Card, authors: seq<string>, es: seq<Enrichment>, f: Field)
    requires f != Authors && f in MissingFields(c, authors)
    ensures IsFilled(Filled(c, MissingFields(c, authors), es), f) <==> Found(es, f)
  {
  }

  function NextPending(pending: seq<string>, missing: set<Field>, e: Enrichment): seq<string> {
    if pending == [] && Takes(e, missing, Authors) then e.authors else pending
  }

  function NextMissing(missing: set<Field>, c: Card, pending: seq<string>): set<Field> {
    set f | f in missing && !IsFilled(c, f) && (f == Authors ==> pending == [])
  }

  /** The authors that wait for the article after some sources. */
  function Pending(missing: set<Field>, es: seq<Enrichment>): seq<string> {
    if Chosen(es, missing, Authors) then Choice(es, Authors).authors else []
  }

  lemma PendingMore(es: seq<Enrichment>, e: Enrichment, missing: set<Field>)
    ensures Pending(missing, es + [e]) == NextPending(Pending(missing, es), StillMissing(missing, es), e)
    ensures Takes(e, StillMissing(missing, es), Authors) ==> Pending(missing, es) == []
    ensures Authors in missing ==> (Pending(missing, es + [e]) == [] <==> !Found(es + [e], Authors))
  {
    ChosenMore(es, e, missing, Authors);
  }

  lemma MissingMore(c: Card, authors: seq<string>, es: seq<Enrichment>, e: Enrichment)
    ensures var missing := MissingFields(c, authors);
      StillMissing(missing, es + [e])
      == NextMissing(StillMissing(missing, es), Filled(c, missing, es + [e]), Pending(missing, es + [e]))
  {
    var missing := MissingFields(c, authors);
    forall f | f in missing
      ensures f in StillMissing(missing, es + [e])
        <==> f in NextMissing(StillMissing(missing, es), Filled(c, missing, es + [e]), Pending(missing, es + [e]))
    {
      FirstWithMore(es, e, f);
      if f == Authors {
        PendingMore(es, e, missing);
      } else {
        FilledIff(c, authors, es + [e], f);
      }
    }
  }

  /** The state after one more source is one step of the loop's body. */
  lemma CascadeStep(c: Card, authors: seq<string>, es: seq<Enrichment>, e: Enrichment)
    ensures var missing := MissingFields(c, authors); var still := StillMissing(missing, es);
      var pending := Pending(missing, es); var more := es + [e];
      && Filled(c, missing, more) == Take(Filled(c, missing, es), still, e)
      && Pending(missing, more) == NextPending(pending, still, e)
      && StillMissing(missing, more) == NextMissing(still, Filled(c, missing, more), Pending(missing, more))
      && (AnyChosen(more, missing)
          <==> AnyChosen(es, missing) || (pending == [] && Takes(e, still, Authors)) || TakesAny(e, still))
  {
    var missing := MissingFields(c, authors);
    PendingMore(es, e, missing);
    AllChosenMore(es, e, missing);
    MissingMore(c, authors, es, e);
  }

  /** The i-th source is the first that has the field. */
  predicate FirstAt(es: seq<Enrichment>, i: nat, f: Field)
    requires i < |es|
  {
    Has(es[i], f) && forall j :: 0 <= j < i ==> !Has(es[j], f)
  }

  /** A missing field takes the value of the first source that has one; other fields
      and fields that no source has stay. */
  lemma FirstSourceWins(c: Card, missing: set<Field>, es: seq<Enrichment>, i: nat)
    requires i < |es|
    ensures var r := Filled(c, missing, es);
      && (Abstract in missing && FirstAt(es, i, Abstract) ==>
            && |r.abstract_| <= 8000 && r.abstract_ <= es[i].abstract_
            && (|r.abstract_| == 8000 || r.abstract_ == es[i].abstract_))
      && (Year in missing && FirstAt(es, i, Year) ==> r.year == es[i].year)
      && (Volume in missing && FirstAt(es, i, Volume) ==> r.volume == es[i].volume)
      && (Issue in missing && FirstAt(es, i, Issue) ==> r.issue == es[i].issue)
      && (Pages in missing && FirstAt(es, i, Pages) ==> r.pages == es[i].pages)
      && (Authors in missing && FirstAt(es, i, Authors) ==> Pending(missing, es) == es[i].authors)
  {
    FirstFound(es, i, Abstract);
    FirstFound(es, i, Year);
    FirstFound(es, i, Volume);
    FirstFound(es, i, Issue);
    FirstFound(es, i, Pages);
    FirstFound(es, i, Authors);
  }

  lemma FirstFound(es: seq<Enrichment>, i: nat, f: Field)
    requires i < |es|
    ensures FirstAt(es, i, f) ==> Found(es, f) && Choice(es, f) == es[i]
  {
  }

  lemma OthersStay(c: Card, missing: set<Field>, es: seq<Enrichment>)
    ensures var r := Filled(c, missing, es);
      && r.rest == c.rest
      && (Abstract !in missing || !Found(es, Abstract) ==> r.abstract_ == c.abstract_)
      && (Year !in missing || !Found(es, Year) ==> r.year == c.year)
      && (Volume !in missing || !Found(es, Volume) ==> r.volume == c.volume)
      && (Issue !in missing || !Found(es, Issue) ==> r.issue == c.issue)
      && (Pages !in missing || !Found(es, Pages) ==> r.pages == c.pages)
  {
  }

  /** What is missing: the empty fields, and authors that are none or a placeholder. */
  lemma MissingIff(c: Card, authors: seq<string>)
    ensures var missing := MissingFields(c, authors);
      && (Abstract in missing <==> c.abstract_ == "") && (Year in missing <==> c.year.None?)
      && (Volume in missing <==> c.volume == "") && (Issue in missing <==> c.issue == "")
      && (Pages in missing <==> c.pages == "")
      && (Authors in missing <==> authors == [] || exists n :: n in authors && TrimSpace(n) == "Unknown author")
  {
  }

  /** After the cascade a field is missing exactly if it was and no source has it. */
  lemma StillMissingIff(c: Card, authors: seq<string>, es: seq<Enrichment>, f: Field)
    requires f != Authors
    ensures var missing := MissingFields(c, authors);
      f in MissingFields(Filled(c, missing, es), authors) <==> f in missing && forall e :: e in es ==> !Has(e, f)
  {
    var missing := MissingFields(c, authors);
    FoundIff(es, f);
    MissingIsEmpty(c, authors, f);
    MissingIsEmpty(Filled(c, missing, es), authors, f);
    if f in missing {
      FilledIff(c, authors, es, f);
    } else {
      FilledStays(c, missing, es, f);
    }
  }

  lemma MissingIsEmpty(c: Card, authors: seq<string>, f: Field)
    requires f != Authors
    ensures f in MissingFields(c, authors) <==> !IsFilled(c, f)
  {
  }

  lemma FilledStays(c: Card, missing: set<Field>, es: seq<Enrichment>, f: Field)
    requires f !in missing
    ensures IsFilled(Filled(c, missing, es), f) <==> IsFilled(c, f)
  {
  }

  lemma FoundIff(es: seq<Enrichment>, f: Field)
    ensures Found(es, f) <==> exists e :: e in es && Has(e, f)
  {
  }

  // ----- the loop

  class Article {
    var abstract_: string
    var year: Option<int>
    var volume: string
    var issue: string
    var pages: string
    const rest: string

    constructor (c: Card)
      ensures View() == c
    {
      abstract_, year, volume, issue, pages, rest := c.abstract_, c.year, c.volume, c.issue, c.pages, c.rest;
    }

    function View(): Card
      reads this
    {
      Card(abstract_, year, volume, issue, pages, rest)
    }

    /** The text fields of one source: take what is still missing. */
    method TakeMissing(e: Enrichment, missing: set<Field>) returns (changed: bool)
      modifies this
      ensures View() == Take(old(View()), missing, e)
      ensures changed <==> TakesAny(e, missing)
    {
      changed := false;
      if e.abstract_ != "" && Abstract in missing {
        abstract_ := TruncateRunes(e.abstract_, MAX_ABSTRACT);
        changed := true;
      }
      if e.year.Some? && Year in missing {
        year := e.year;
        changed := true;
      }
      var placed := TakePlace(e, missing);
      changed := changed || placed;
    }

    /** The fields that say where in the journal the article is. */
    method TakePlace(e: Enrichment, missing: set<Field>) returns (changed: bool)
      modifies this`volume, this`issue, this`pages
      ensures volume == if Takes(e, missing, Volume) then e.volume else old(volume)
      ensures issue == if Takes(e, missing, Issue) then e.issue else old(issue)
      ensures pages == if Takes(e, missing, Pages) then e.pages else old(pages)
      ensures changed <==> Takes(e, missing, Volume) || Takes(e, missing, Issue) || Takes(e, missing, Pages)
    {
      changed := false;
      if e.volume != "" && Volume in missing {
        volume := e.volume;
        changed := true;
      }
      if e.issue != "" && Issue in missing {
        issue := e.issue;
        changed := true;
      }
      if e.pages != "" && Pages in missing {
        pages := e.pages;
        changed := true;
      }
    }

    /** `applyCascade`, on the fields that `missingFields` finds. */
    /** One source: the loop's body. */
    method ApplyOne(e: Enrichment, missing0: set<Field>, pending0: seq<string>)
      returns (changed: bool, missing: set<Field>, pending: seq<string>)
      modifies this
      ensures View() == Take(old(View()), missing0, e)
      ensures pending == NextPending(pending0, missing0, e)
      ensures changed <==> (pending0 == [] && Takes(e, missing0, Authors)) || TakesAny(e, missing0)
      ensures missing == NextMissing(missing0, View(), pending)
    {
      changed, pending := false, pending0;
      if |e.authors| > 0 && Authors in missing0 && |pending| == 0 {
        pending := e.authors;
        changed := true;
      }
      var more := TakeMissing(e, missing0);
      changed := changed || more;
      missing := set f | f in missing0 && !IsFilled(View(), f);
      if |pending| > 0 {
        missing := missing - {Authors};
      }
    }

    method ApplyCascade(initialMissing: set<Field>, es: seq<Enrichment>, ghost authors: seq<string>)
      returns (changed: bool, pendingAuthors: seq<string>)
      requires initialMissing == MissingFields(View(), authors)
      modifies this
      ensures View() == Filled(old(View()), initialMissing, es)
      ensures pendingAuthors == Pending(initialMissing, es)
      ensures changed <==> AnyChosen(es, initialMissing)
    {
      var missing := initialMissing;
      changed, pendingAuthors := false, [];
      ghost var start := View();
      assert es[..0] == [];
      for i := 0 to |es|
        invariant View() == Filled(start, initialMissing, es[..i])
        invariant pendingAuthors == Pending(initialMissing, es[..i])
        invariant missing == StillMissing(initialMissing, es[..i])
        invariant changed <==> AnyChosen(es[..i], initialMissing)
      {
        assert es[..i + 1] == es[..i] + [es[i]];
        CascadeStep(start, authors, es[..i], es[i]);
        var more;
        more, missing, pendingAuthors := ApplyOne(es[i], missing, pendingAuthors);
        changed := changed || more;
      }
      assert es[..|es|] == es;
    }
  }
}
