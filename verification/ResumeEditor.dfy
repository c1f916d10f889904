/** The editing code itself: dictionaries and lists changed in place on a deep copy, proved to compute
    ResumeEdits.ApplyAll and to leave the caller's objects alone. */
module ResumeEditor {
  import opened Options
  import opened PyText
  import opened ResumeEdits
  import opened ResumeOutcomes

  /** A list of strings: highlights or skills. */
  class TextList {
    var items: seq<string>

    constructor (items: seq<string>)
      ensures this.items == items
    {
      this.items := items;
    }
  }

  function ListOf(field: Field<TextList>): set<TextList> {
    if field.Present? then {field.value} else {}
  }

  ghost function Texts(field: Field<TextList>): Field<seq<string>>
    reads ListOf(field)
  {
    match field
    case Absent => Absent
    case Malformed => Malformed
    case Present(list) => Present(list.items)
  }

  method CopyList(field: Field<TextList>) returns (copy: Field<TextList>)
    ensures fresh(ListOf(copy)) && Texts(copy) == old(Texts(field))
  {
    match field {
      case Absent => copy := Absent;
      case Malformed => copy := Malformed;
      case Present(list) =>
        var twin := new TextList(list.items);
        copy := Present(twin);
    }
  }

  // ---------------------------------------------------------------------------------------------
  // One entry
  // ---------------------------------------------------------------------------------------------

  lemma FirstMatchIs(hs: seq<string>, test: string -> bool, i: nat)
    requires i < |hs| && test(hs[i]) && forall k :: 0 <= k < i ==> !test(hs[k])
    ensures FirstMatch(hs, test) == Some(i)
  {
    assert FirstMatch(hs, test).Some?;
  }

  lemma FirstEntryIs(slots: seq<Slot>, test: string -> bool, k: nat)
    requires k < |slots| && HasMatch(slots[k], test) && forall m :: 0 <= m < k ==> !HasMatch(slots[m], test)
    ensures FirstEntry(slots, test) == Some(k)
  {
    assert FirstEntry(slots, test).Some?;
  }

  method ReplaceHighlight(highlights: TextList, test: string -> bool, suggested: string) returns (replaced: bool)
    modifies highlights
    ensures replaced <==> FirstMatch(old(highlights.items), test).Some?
    ensures highlights.items == RewriteHighlights(old(highlights.items), test, suggested)
  {
    for index := 0 to |highlights.items|
      invariant highlights.items == old(highlights.items)
      invariant forall k :: 0 <= k < index ==> !test(highlights.items[k])
    {
      if test(highlights.items[index]) {
        FirstMatchIs(highlights.items, test, index);
        highlights.items := highlights.items[index := suggested];
        return true;
      }
    }
    replaced := false;
  }

  /** One experience or project dictionary. Contents is what it holds, Repr the dictionary and its list. */
  class EntryDict {
    const name: string
    const rest: string
    var highlights: Field<TextList>
    ghost var Contents: Slot
    ghost var Repr: set<object>

    ghost predicate Valid()
      reads this, Repr
    {
      && this in Repr && ListOf(highlights) <= Repr
      && Contents == Entry(name, rest, Texts(highlights))
    }

    constructor (name: string, rest: string, highlights: Field<TextList>)
      ensures Valid() && Repr == {this} + ListOf(highlights)
      ensures Contents == Entry(name, rest, Texts(highlights))
    {
      this.name, this.rest, this.highlights := name, rest, highlights;
      Contents, Repr := Entry(name, rest, Texts(highlights)), {this} + ListOf(highlights);
    }

    method Copy() returns (copy: EntryDict)
      requires Valid()
      ensures copy.Valid() && fresh(copy.Repr) && copy.Contents == Contents
    {
      var twin := CopyList(highlights);
      copy := new EntryDict(name, rest, twin);
    }

    method Rewrite(test: string -> bool, suggested: string) returns (replaced: bool)
      requires Valid()
      modifies Repr
      ensures Valid() && Repr == old(Repr)
      ensures replaced <==> HasMatch(old(Contents), test)
      ensures Contents ==
              if replaced
              then WithHighlights(old(Contents), RewriteHighlights(Highlights(old(Contents)), test, suggested))
              else old(Contents)
    {
      replaced := false;
      if highlights.Present? {
        replaced := ReplaceHighlight(highlights.value, test, suggested);
        Contents := Entry(name, rest, Texts(highlights));
      }
    }

    /** setdefault, then append unless it is there: the step both loops and the fallback take. */
    method TryAppend(suggested: string) returns (appended: bool)
      requires Valid()
      modifies Repr
      ensures Valid() && fresh(Repr - old(Repr))
      ensures appended <==> CanTake(old(Contents), suggested)
      ensures Contents ==
              if appended then WithHighlights(old(Contents), Highlights(old(Contents)) + [suggested]) else old(Contents)
    {
      if highlights.Absent? {
        var list := new TextList([]);
        highlights, Repr := Present(list), Repr + {list};
      }
      appended := false;
      if highlights.Present? {
        var list := highlights.value;
        if suggested !in list.items {
          list.items := list.items + [suggested];
          appended := true;
        }
      }
      Contents := Entry(name, rest, Texts(highlights));
    }
  }

  // ---------------------------------------------------------------------------------------------
  // A list of entries
  // ---------------------------------------------------------------------------------------------

  datatype SlotRef = Dict(entry: EntryDict) | Other(raw: string)

  lemma FirstTakerIs(slots: seq<Slot>, suggested: string, hint: string, k: nat)
    requires k < |slots| && Hinted(slots[k], hint) && CanTake(slots[k], suggested)
    requires forall m :: 0 <= m < k ==> !(Hinted(slots[m], hint) && CanTake(slots[m], suggested))
    ensures Taker(slots, suggested, hint) == Some(k)
  {
    assert FirstTaker(slots, suggested, hint).Some?;
  }

  ghost predicate SlotHolds(r: SlotRef, value: Slot, repr: set<object>)
    reads if r.Dict? then {r.entry} + r.entry.Repr else {}
  {
    match r
    case Dict(entry) => entry in repr && entry.Repr <= repr && entry.Valid() && value == entry.Contents
    case Other(raw) => value == NotADict(raw)
  }

  /** The experience or projects list. No dictionary and no list of strings occurs in it twice. */
  class EntryList {
    const slots: seq<SlotRef>
    ghost var Contents: seq<Slot>
    ghost var Repr: set<object>

    ghost predicate SlotIs(k: nat)
      requires k < |slots| == |Contents|
      reads this, Repr
    {
      match slots[k]
      case Dict(entry) =>
        entry in Repr && entry.Repr <= Repr && this !in entry.Repr && entry.Valid() && Contents[k] == entry.Contents
      case Other(raw) => Contents[k] == NotADict(raw)
    }

    ghost predicate SlotsApart(i: nat, j: nat)
      requires |slots| == |Contents| && i < |slots| && j < |slots| && SlotIs(i) && SlotIs(j)
      reads this, Repr
    {
      slots[i].Dict? && slots[j].Dict? ==> slots[i].entry.Repr !! slots[j].entry.Repr
    }

    ghost predicate Valid()
      reads this, Repr
    {
      && this in Repr && |slots| == |Contents|
      && (forall k :: 0 <= k < |slots| ==> SlotIs(k))
      && (forall i, j :: 0 <= i < j < |slots| ==> SlotsApart(i, j))
    }

    constructor Empty()
      ensures Valid() && Contents == [] && fresh(Repr)
    {
      slots, Contents, Repr := [], [], {this};
    }

    /** Builds a list from dictionaries that share nothing. */
    constructor (slots: seq<SlotRef>, ghost contents: seq<Slot>, ghost repr: set<object>)
      requires |slots| == |contents|
      requires forall k :: 0 <= k < |slots| ==> SlotHolds(slots[k], contents[k], repr)
      requires forall i, j :: 0 <= i < j < |slots| && slots[i].Dict? && slots[j].Dict? ==>
                 slots[i].entry.Repr !! slots[j].entry.Repr
      ensures Valid() && Contents == contents && Repr == {this} + repr
    {
      this.slots, Contents, Repr := slots, contents, {this} + repr;
    }

    method Copy() returns (copy: EntryList)
      requires Valid()
      ensures copy.Valid() && fresh(copy.Repr) && copy.Contents == Contents
    {
      var twins: seq<SlotRef> := [];
      ghost var repr: set<object> := {};
      for k := 0 to |slots|
        invariant |twins| == k && fresh(repr)
        invariant forall m :: 0 <= m < k ==> SlotHolds(twins[m], Contents[m], repr)
        invariant forall i, j :: 0 <= i < j < k && twins[i].Dict? && twins[j].Dict? ==>
                    twins[i].entry.Repr !! twins[j].entry.Repr
      {
        assert SlotIs(k);
        match slots[k] {
          case Other(raw) => twins := twins + [Other(raw)];
          case Dict(entry) =>
            var twin := entry.Copy();
            twins := twins + [Dict(twin)];
            repr := repr + twin.Repr;
        }
      }
      copy := new EntryList(twins, Contents, repr);
    }

    /** Writing within one dictionary leaves the others as they are, and apart from it. */
    twostate lemma OthersStay(k: nat)
      requires old(Valid()) && k < |slots| && slots[k].Dict? && |Contents| == |slots| && old(Repr) <= Repr
      requires slots[k].entry.Valid() && slots[k].entry.Repr <= Repr && this !in slots[k].entry.Repr
      requires fresh(slots[k].entry.Repr - old(slots[k].entry.Repr))
      requires Contents == old(Contents)[k := slots[k].entry.Contents]
      requires forall o :: o in old(Repr) && o != this && o !in old(slots[k].entry.Repr) ==> unchanged(o)
      ensures Valid()
    {
      forall m | 0 <= m < |slots| && m != k && slots[m].Dict?
        ensures slots[m].entry.Repr == old(slots[m].entry.Repr) && slots[m].entry.Repr !! slots[k].entry.Repr
        ensures SlotIs(m)
      {
        assert old(SlotIs(m)) && old(SlotIs(k));
        assert if m < k then old(SlotsApart(m, k)) else old(SlotsApart(k, m));
        assert unchanged(slots[m].entry);
      }
      forall m | 0 <= m < |slots| ensures SlotIs(m) {
        assert old(SlotIs(m));
      }
      forall i, j | 0 <= i < j < |slots| ensures SlotsApart(i, j) {
        assert old(SlotsApart(i, j));
      }
    }

    method RewriteAt(k: nat, test: string -> bool, suggested: string) returns (replaced: bool)
      requires Valid() && k < |slots| && slots[k].Dict?
      modifies Repr
      ensures Valid() && Repr == old(Repr)
      ensures replaced <==> HasMatch(old(Contents)[k], test)
      ensures Contents ==
              if replaced
              then old(Contents)[k := WithHighlights(old(Contents)[k],
                                                     RewriteHighlights(Highlights(old(Contents)[k]), test, suggested))]
              else old(Contents)
    {
      assert SlotIs(k);
      replaced := slots[k].entry.Rewrite(test, suggested);
      Contents := Contents[k := slots[k].entry.Contents];
      OthersStay(k);
    }

    method RewriteEntries(test: string -> bool, suggested: string)
      requires Valid()
      modifies Repr
      ensures Valid() && Repr == old(Repr)
      ensures Contents == RewriteSlots(old(Contents), test, suggested)
    {
      for k := 0 to |slots|
        invariant Valid() && Repr == old(Repr) && Contents == old(Contents)
        invariant forall m :: 0 <= m < k ==> !HasMatch(Contents[m], test)
      {
        assert SlotIs(k);
        if slots[k].Dict? {
          var replaced := RewriteAt(k, test, suggested);
          if replaced {
            FirstEntryIs(old(Contents), test, k);
            return;
          }
        }
      }
    }

    method TryAppendAt(k: nat, suggested: string) returns (appended: bool)
      requires Valid() && k < |slots| && slots[k].Dict?
      modifies Repr
      ensures Valid() && fresh(Repr - old(Repr))
      ensures appended <==> CanTake(old(Contents)[k], suggested)
      ensures Contents ==
              if appended
              then old(Contents)[k := WithHighlights(old(Contents)[k], Highlights(old(Contents)[k]) + [suggested])]
              else old(Contents)
    {
      assert SlotIs(k);
      appended := slots[k].entry.TryAppend(suggested);
      Repr := Repr + slots[k].entry.Repr;
      Contents := Contents[k := slots[k].entry.Contents];
      OthersStay(k);
    }

    method AppendHighlight(suggested: string, hint: string)
      requires Valid()
      modifies Repr
      ensures Valid() && fresh(Repr - old(Repr))
      ensures Contents == AppendSlots(old(Contents), suggested, hint)
    {
      for k := 0 to |slots|
        invariant Valid() && fresh(Repr - old(Repr)) && Contents == old(Contents)
        invariant forall m :: 0 <= m < k ==> !(Hinted(Contents[m], hint) && CanTake(Contents[m], suggested))
      {
        assert SlotIs(k);
        if slots[k].Dict? && (hint == "" || Contains(LowerText(slots[k].entry.name), hint)) {
          var appended := TryAppendAt(k, suggested);
          if appended {
            FirstTakerIs(old(Contents), suggested, hint, k);
            return;
          }
        }
      }
      if slots != [] {
        assert SlotIs(0);
        if slots[0].Dict? {
          var appended := TryAppendAt(0, suggested);
        }
      }
    }
  }

  // ---------------------------------------------------------------------------------------------
  // The document
  // ---------------------------------------------------------------------------------------------

  function EntryListOf(field: Field<EntryList>): set<EntryList> {
    if field.Present? then {field.value} else {}
  }

  ghost function ReprOf(field: Field<EntryList>): set<object>
    reads EntryListOf(field)
  {
    if field.Present? then {field.value} + field.value.Repr else {}
  }

  ghost predicate ValidField(field: Field<EntryList>)
    reads ReprOf(field)
  {
    field.Present? ==> field.value.Valid()
  }

  ghost function ContentsOf(field: Field<EntryList>): Field<seq<Slot>>
    reads EntryListOf(field)
  {
    match field
    case Absent => Absent
    case Malformed => Malformed
    case Present(list) => Present(list.Contents)
  }

  method CopyField(field: Field<EntryList>) returns (copy: Field<EntryList>)
    requires ValidField(field)
    ensures ValidField(copy) && fresh(ReprOf(copy)) && ContentsOf(copy) == ContentsOf(field)
  {
    match field {
      case Absent => copy := Absent;
      case Malformed => copy := Malformed;
      case Present(list) =>
        var twin := list.Copy();
        copy := Present(twin);
    }
  }

  method CopyParts(skills: Field<TextList>, experience: Field<EntryList>, projects: Field<EntryList>)
    returns (skillsTwin: Field<TextList>, experienceTwin: Field<EntryList>, projectsTwin: Field<EntryList>)
    requires ValidField(experience) && ValidField(projects)
    ensures fresh(ListOf(skillsTwin) + ReprOf(experienceTwin) + ReprOf(projectsTwin))
    ensures ListOf(skillsTwin) !! ReprOf(experienceTwin) && ListOf(skillsTwin) !! ReprOf(projectsTwin)
    ensures ReprOf(experienceTwin) !! ReprOf(projectsTwin)
    ensures ValidField(experienceTwin) && ValidField(projectsTwin)
    ensures Texts(skillsTwin) == Texts(skills)
    ensures ContentsOf(experienceTwin) == ContentsOf(experience) && ContentsOf(projectsTwin) == ContentsOf(projects)
  {
    experienceTwin := CopyField(experience);
    projectsTwin := CopyField(projects);
    skillsTwin := CopyList(skills);
  }

  /** What a suggestion for a list of entries does to the value under its key. */
  method EditField(field: Field<EntryList>, sg: Suggestion) returns (after: Field<EntryList>)
    requires ValidField(field)
    modifies ReprOf(field)
    ensures ValidField(after) && fresh(ReprOf(after) - old(ReprOf(field)))
    ensures ContentsOf(after) == EditEntries(old(ContentsOf(field)), sg)
  {
    after := field;
    if field.Malformed? {
      return;
    }
    if Rewrites(sg) {
      if field.Present? {
        field.value.RewriteEntries(Matching(sg.current.value), sg.suggested);
      }
    } else if sg.action.Add? {
      if field.Absent? {
        var list := new EntryList.Empty();
        after := Present(list);
      }
      after.value.AppendHighlight(sg.suggested, Hint(sg.targetLabel));
    }
  }

  class ResumeDoc {
    var headline: Option<string>
    var skills: Field<TextList>
    var experience: Field<EntryList>
    var projects: Field<EntryList>
    const others: seq<string>
    ghost var Contents: Structured
    ghost var Repr: set<object>

    /** A tree: no dictionary and no list is reached twice. */
    ghost predicate Valid()
      reads this, Repr
    {
      && this in Repr && ListOf(skills) <= Repr && EntryListOf(experience) <= Repr && EntryListOf(projects) <= Repr
      && ReprOf(experience) <= Repr && ReprOf(projects) <= Repr
      && this !in ReprOf(experience) && this !in ReprOf(projects)
      && ListOf(skills) !! ReprOf(experience) && ListOf(skills) !! ReprOf(projects)
      && ReprOf(experience) !! ReprOf(projects)
      && ValidField(experience) && ValidField(projects)
      && Contents == Structured(headline, Texts(skills), ContentsOf(experience), ContentsOf(projects), others)
    }

    constructor (headline: Option<string>, skills: Field<TextList>, experience: Field<EntryList>,
                 projects: Field<EntryList>, others: seq<string>)
      requires ListOf(skills) !! ReprOf(experience) && ListOf(skills) !! ReprOf(projects)
      requires ReprOf(experience) !! ReprOf(projects)
      requires ValidField(experience) && ValidField(projects)
      ensures Valid() && Repr == {this} + ListOf(skills) + ReprOf(experience) + ReprOf(projects)
      ensures Contents == Structured(headline, Texts(skills), ContentsOf(experience), ContentsOf(projects), others)
    {
      this.headline, this.skills, this.experience := headline, skills, experience;
      this.projects, this.others := projects, others;
      Contents := Structured(headline, Texts(skills), ContentsOf(experience), ContentsOf(projects), others);
      Repr := {this} + ListOf(skills) + ReprOf(experience) + ReprOf(projects);
    }

    method EditSkillList(sg: Suggestion)
      requires Valid()
      modifies Repr
      ensures Valid() && fresh(Repr - old(Repr))
      ensures Contents == old(Contents).(skills := EditSkills(old(Contents).skills, sg))
    {
      if !skills.Present? {
        var list := new TextList([]);
        skills, Repr := Present(list), Repr + {list};
      }
      var list := skills.value;
      if sg.action.Add? && !SkillExists(list.items, sg.suggested, SkillKey) {
        list.items := list.items + [sg.suggested];
      }
      Contents := Contents.(skills := Texts(skills));
    }

    method EditExperience(sg: Suggestion)
      requires Valid()
      modifies Repr
      ensures Valid() && fresh(Repr - old(Repr))
      ensures Contents == old(Contents).(experience := EditEntries(old(Contents).experience, sg))
    {
      experience := EditField(experience, sg);
      assert ValidField(projects);
      Repr := Repr + ReprOf(experience);
      Contents := Contents.(experience := ContentsOf(experience));
    }

    method EditProjects(sg: Suggestion)
      requires Valid()
      modifies Repr
      ensures Valid() && fresh(Repr - old(Repr))
      ensures Contents == old(Contents).(projects := EditEntries(old(Contents).projects, sg))
    {
      projects := EditField(projects, sg);
      assert ValidField(experience);
      Repr := Repr + ReprOf(projects);
      Contents := Contents.(projects := ContentsOf(projects));
    }

    method Edit(sg: Suggestion)
      requires Valid()
      modifies Repr
      ensures Valid() && fresh(Repr - old(Repr))
      ensures Contents == EditStructured(old(Contents), sg)
    {
      match sg.section {
        case Headline =>
          headline := Some(sg.suggested);
          Contents := Contents.(headline := headline);
        case Skills => EditSkillList(sg);
        case Experience => EditExperience(sg);
        case Projects => EditProjects(sg);
      }
    }

    method DeepCopy() returns (copy: ResumeDoc)
      requires Valid()
      ensures copy.Valid() && fresh(copy.Repr) && copy.Contents == Contents
    {
      var skillsTwin, experienceTwin, projectsTwin := CopyParts(skills, experience, projects);
      copy := new ResumeDoc(headline, skillsTwin, experienceTwin, projectsTwin, others);
    }
  }

  ghost function Footprint(doc: ResumeDoc?): set<object>
    reads doc
  {
    if doc == null then {} else {doc} + doc.Repr
  }

  ghost predicate ValidIfAny(doc: ResumeDoc?)
    reads Footprint(doc)
  {
    doc != null ==> doc.Valid()
  }

  ghost function ValueOf(doc: ResumeDoc?): Option<Structured>
    reads doc
  {
    if doc == null then None else Some(doc.Contents)
  }

  method ReplaceOnce(text: string, current: string, suggested: string) returns (r: string)
    ensures r == ReplaceFirst(text, current, suggested)
  {
    var i := Find(text, current, 0);
    r := if i < 0 then text else text[..i] + suggested + text[i + |current|..];
  }

  /** copy.deepcopy(structured_data) if structured_data else None */
  method CopyIfAny(doc: ResumeDoc?) returns (copy: ResumeDoc?)
    requires ValidIfAny(doc)
    ensures ValidIfAny(copy) && fresh(Footprint(copy))
    ensures ValueOf(copy) == if doc == null || NoKeys(doc.Contents) then None else ValueOf(doc)
  {
    copy := null;
    if doc != null && (doc.headline.Some? || !doc.skills.Absent? || !doc.experience.Absent? || !doc.projects.Absent?
                       || doc.others != []) {
      copy := doc.DeepCopy();
    }
  }

  /** One suggestion: the text, the headline, and the document if there is one. */
  method ApplySuggestion(text: string, doc: ResumeDoc?, headline: Option<string>, sg: Suggestion)
    returns (newText: string, newHeadline: Option<string>)
    requires ValidIfAny(doc)
    modifies Footprint(doc)
    ensures ValidIfAny(doc) && fresh(Footprint(doc) - old(Footprint(doc)))
    ensures Draft(newText, ValueOf(doc), newHeadline) == ApplyOne(Draft(text, old(ValueOf(doc)), headline), sg)
  {
    newText, newHeadline := text, headline;
    if Rewrites(sg) {
      newText := ReplaceOnce(newText, sg.current.value, sg.suggested);
    }
    if sg.section.Headline? {
      newHeadline := Some(sg.suggested);
    }
    if doc != null {
      doc.Edit(sg);
    }
  }

  lemma ApplyNext(d: Draft, sgs: seq<Suggestion>, i: nat)
    requires i < |sgs|
    ensures ApplyAll(d, sgs[..i + 1]) == ApplyOne(ApplyAll(d, sgs[..i]), sgs[i])
  {
    assert sgs[..i + 1][..i] == sgs[..i];
  }

  /** Applies the suggestions in order. structured is a tree, as a JSON value is. None of the caller's dictionaries
      and lists is modified: what is returned, down to every list, is new. */
  method ApplySuggestions(text: string, structured: ResumeDoc?, headline: Option<string>, suggestions: seq<Suggestion>)
    returns (newText: string, doc: ResumeDoc?, newHeadline: Option<string>, ghost first: Draft)
    requires ValidIfAny(structured)
    ensures ValidIfAny(doc) && fresh(Footprint(doc))
    ensures Begins(first, text, old(ValueOf(structured)), headline)
    ensures ComesTo(first, Draft(newText, ValueOf(doc), newHeadline), suggestions)
    ensures Draft(newText, ValueOf(doc), newHeadline) ==
            ApplyAll(Started(text, old(ValueOf(structured)), headline), suggestions)
    ensures ValueOf(structured) == old(ValueOf(structured))
    ensures forall o :: o in old(Footprint(structured)) ==> unchanged(o)
  {
    doc := CopyIfAny(structured);
    newText, newHeadline := text, headline;
    first := Draft(text, ValueOf(doc), headline);
    for i := 0 to |suggestions|
      invariant ValidIfAny(doc) && fresh(Footprint(doc))
      invariant Draft(newText, ValueOf(doc), newHeadline) == ApplyAll(first, suggestions[..i])
    {
      ApplyNext(first, suggestions, i);
      newText, newHeadline := ApplySuggestion(newText, doc, newHeadline, suggestions[i]);
    }
    assert suggestions[..|suggestions|] == suggestions;
    ComesToIff(first, ApplyAll(first, suggestions), suggestions);
  }
}
