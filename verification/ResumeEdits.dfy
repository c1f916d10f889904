/** What applying a list of suggestions does to a resume: its text, its structured data and its headline.
    A field of the structured data may be absent or hold the wrong kind of value. */
module ResumeEdits {
  import opened Options
  import opened PyText

  datatype Field<+T> = Absent | Malformed | Present(value: T)

  datatype Section = Headline | Skills | Experience | Projects
  datatype Action = Rewrite | Emphasize | Add

  datatype Suggestion = Suggestion(section: Section, action: Action, targetLabel: string, current: Option<string>,
                                   suggested: string)

  /** One element of the experience or projects list. name is the company or the project name, rest stands
      for the keys that are not touched. */
  datatype Slot = Entry(name: string, rest: string, highlights: Field<seq<string>>) | NotADict(raw: string)

  /** others stands for education and every other key. */
  datatype Structured = Structured(headline: Option<string>, skills: Field<seq<string>>, experience: Field<seq<Slot>>,
                                   projects: Field<seq<Slot>>, others: seq<string>)

  datatype Draft = Draft(text: string, structured: Option<Structured>, headline: Option<string>)

  // ---------------------------------------------------------------------------------------------
  // Highlights
  // ---------------------------------------------------------------------------------------------

  predicate Matches(highlight: string, current: string) {
    Contains(highlight, current) || Strip(highlight) == Strip(current)
  }

  /** The test of one rewrite. */
  function Matching(current: string): string -> bool {
    (highlight: string) => Matches(highlight, current)
  }

  function FirstMatch(hs: seq<string>, test: string -> bool): (r: Option<nat>)
    ensures r.Some? ==> r.value < |hs| && test(hs[r.value])
    ensures r.Some? ==> forall k :: 0 <= k < r.value ==> !test(hs[k])
    ensures r.None? ==> forall k :: 0 <= k < |hs| ==> !test(hs[k])
  {
    if hs == [] then None
    else if test(hs[0]) then Some(0)
    else var r := FirstMatch(hs[1..], test); if r.None? then None else Some(r.value + 1)
  }

  function Highlights(slot: Slot): seq<string> {
    if slot.Entry? && slot.highlights.Present? then slot.highlights.value else []
  }

  predicate HasMatch(slot: Slot, test: string -> bool) {
    FirstMatch(Highlights(slot), test).Some?
  }

  /** The first entry that has a matching highlight. */
  function FirstEntry(slots: seq<Slot>, test: string -> bool): (r: Option<nat>)
    ensures r.Some? ==> r.value < |slots| && HasMatch(slots[r.value], test)
    ensures r.Some? ==> forall k :: 0 <= k < r.value ==> !HasMatch(slots[k], test)
    ensures r.None? ==> forall k :: 0 <= k < |slots| ==> !HasMatch(slots[k], test)
  {
    if slots == [] then None
    else if HasMatch(slots[0], test) then Some(0)
    else var r := FirstEntry(slots[1..], test); if r.None? then None else Some(r.value + 1)
  }

  function WithHighlights(slot: Slot, hs: seq<string>): Slot {
    if slot.Entry? then slot.(highlights := Present(hs)) else slot
  }

  function RewriteHighlights(hs: seq<string>, test: string -> bool, suggested: string): seq<string> {
    var i := FirstMatch(hs, test);
    if i.None? then hs else hs[i.value := suggested]
  }

  function RewriteSlots(slots: seq<Slot>, test: string -> bool, suggested: string): seq<Slot> {
    var k := FirstEntry(slots, test);
    if k.None? then slots
    else slots[k.value :=
           WithHighlights(slots[k.value], RewriteHighlights(Highlights(slots[k.value]), test, suggested))]
  }

  const DASH: char := '\U{2014}'

  /** The part of the label before a dash, if it has one. */
  function Hint(targetLabel: string): string {
    if DASH in targetLabel then LowerText(Strip(Before(targetLabel, DASH))) else ""
  }

  predicate Hinted(slot: Slot, hint: string) {
    slot.Entry? && (hint == "" || Contains(LowerText(slot.name), hint))
  }

  /** The entry has a highlight list, or can be given one, that does not hold the suggestion yet. */
  predicate CanTake(slot: Slot, suggested: string) {
    slot.Entry? && !slot.highlights.Malformed? && suggested !in Highlights(slot)
  }

  function FirstTaker(slots: seq<Slot>, suggested: string, hint: string): (r: Option<nat>)
    ensures r.Some? ==> r.value < |slots| && Hinted(slots[r.value], hint) && CanTake(slots[r.value], suggested)
    ensures r.Some? ==> forall k :: 0 <= k < r.value ==> !(Hinted(slots[k], hint) && CanTake(slots[k], suggested))
    ensures r.None? ==> forall k :: 0 <= k < |slots| ==> !(Hinted(slots[k], hint) && CanTake(slots[k], suggested))
  {
    if slots == [] then None
    else if Hinted(slots[0], hint) && CanTake(slots[0], suggested) then Some(0)
    else var r := FirstTaker(slots[1..], suggested, hint); if r.None? then None else Some(r.value + 1)
  }

  /** The entry that gets the suggestion: the first that the hint admits, else the very first. */
  function Taker(slots: seq<Slot>, suggested: string, hint: string): (r: Option<nat>)
    ensures r.Some? ==> r.value < |slots| && CanTake(slots[r.value], suggested)
    ensures r.None? <==> (forall k :: 0 <= k < |slots| ==> !(Hinted(slots[k], hint) && CanTake(slots[k], suggested)))
                         && (slots != [] ==> !CanTake(slots[0], suggested))
  {
    var r := FirstTaker(slots, suggested, hint);
    if r.Some? then r else if slots != [] && CanTake(slots[0], suggested) then Some(0) else None
  }

  function AppendSlots(slots: seq<Slot>, suggested: string, hint: string): seq<Slot> {
    var k := Taker(slots, suggested, hint);
    if k.None? then slots else
      slots[k.value := WithHighlights(slots[k.value], Highlights(slots[k.value]) + [suggested])]
  }

  predicate Rewrites(sg: Suggestion) {
    !sg.action.Add? && sg.current.Some? && sg.current.value != ""
  }

  function SlotsOf(field: Field<seq<Slot>>): seq<Slot> {
    if field.Present? then field.value else []
  }

  function EditEntries(field: Field<seq<Slot>>, sg: Suggestion): Field<seq<Slot>> {
    if field.Malformed? then field
    else if Rewrites(sg) then
      if field.Present? then Present(RewriteSlots(field.value, Matching(sg.current.value), sg.suggested)) else field
    else if sg.action.Add? then Present(AppendSlots(SlotsOf(field), sg.suggested, Hint(sg.targetLabel)))
    else field
  }

  // ---------------------------------------------------------------------------------------------
  // Skills, text, headline
  // ---------------------------------------------------------------------------------------------

  function SkillKey(skill: string): string {
    LowerText(Strip(skill))
  }

  predicate SkillExists(skills: seq<string>, skill: string, key: string -> string) {
    exists k :: 0 <= k < |skills| && key(skills[k]) == key(skill)
  }

  function SkillsOf(field: Field<seq<string>>): seq<string> {
    if field.Present? then field.value else []
  }

  function AddSkill(skills: seq<string>, skill: string, key: string -> string): seq<string> {
    if SkillExists(skills, skill, key) then skills else skills + [skill]
  }

  function EditSkills(field: Field<seq<string>>, sg: Suggestion): Field<seq<string>> {
    Present(if sg.action.Add? then AddSkill(SkillsOf(field), sg.suggested, SkillKey) else SkillsOf(field))
  }

  function ReplaceFirst(text: string, current: string, suggested: string): string {
    var i := Find(text, current, 0);
    if i < 0 then text else text[..i] + suggested + text[i + |current|..]
  }

  function EditText(text: string, sg: Suggestion): string {
    if Rewrites(sg) then ReplaceFirst(text, sg.current.value, sg.suggested) else text
  }

  function EditStructured(s: Structured, sg: Suggestion): Structured {
    match sg.section
    case Headline => s.(headline := Some(sg.suggested))
    case Skills => s.(skills := EditSkills(s.skills, sg))
    case Experience => s.(experience := EditEntries(s.experience, sg))
    case Projects => s.(projects := EditEntries(s.projects, sg))
  }

  function ApplyOne(d: Draft, sg: Suggestion): Draft {
    Draft(EditText(d.text, sg),
          if d.structured.Some? then Some(EditStructured(d.structured.value, sg)) else None,
          if sg.section.Headline? then Some(sg.suggested) else d.headline)
  }

  function ApplyAll(d: Draft, sgs: seq<Suggestion>): Draft {
    if sgs == [] then d else ApplyOne(ApplyAll(d, sgs[..|sgs| - 1]), sgs[|sgs| - 1])
  }

  /** A structured value with no key at all is treated as missing. */
  predicate NoKeys(s: Structured) {
    s.headline.None? && s.skills.Absent? && s.experience.Absent? && s.projects.Absent? && s.others == []
  }

  function Started(text: string, structured: Option<Structured>, headline: Option<string>): Draft {
    Draft(text, if structured.Some? && NoKeys(structured.value) then None else structured, headline)
  }

  // ---------------------------------------------------------------------------------------------
  // Conservation
  // ---------------------------------------------------------------------------------------------

  /** The entry without its highlights. */
  function Identity(slot: Slot): Slot {
    if slot.Entry? then slot.(highlights := Absent) else slot
  }

  ghost predicate SameEntries(a: seq<Slot>, b: seq<Slot>) {
    |a| == |b| && forall k :: 0 <= k < |a| ==> Identity(a[k]) == Identity(b[k])
  }

  function Total(slots: seq<Slot>): nat {
    if slots == [] then 0 else Total(slots[..|slots| - 1]) + |Highlights(slots[|slots| - 1])|
  }

  lemma {:induction false} TotalUpdate(slots: seq<Slot>, k: nat, slot: Slot)
    requires k < |slots|
    ensures Total(slots[k := slot]) == Total(slots) - |Highlights(slots[k])| + |Highlights(slot)|
  {
    var n := |slots| - 1;
    if k < n {
      TotalUpdate(slots[..n], k, slot);
      assert slots[k := slot][..n] == slots[..n][k := slot];
    } else {
      assert slots[k := slot][..n] == slots[..n];
    }
  }

  lemma RewriteConserves(slots: seq<Slot>, test: string -> bool, suggested: string)
    ensures var r := RewriteSlots(slots, test, suggested);
            SameEntries(slots, r) && Total(r) == Total(slots)
  {
    var k := FirstEntry(slots, test);
    if k.Some? {
      var hs := Highlights(slots[k.value]);
      TotalUpdate(slots, k.value, WithHighlights(slots[k.value], RewriteHighlights(hs, test, suggested)));
    }
  }

  lemma AppendConserves(slots: seq<Slot>, suggested: string, hint: string)
    ensures var r := AppendSlots(slots, suggested, hint);
            SameEntries(slots, r) && Total(r) == Total(slots) + if Taker(slots, suggested, hint).Some? then 1 else 0
  {
    var k := Taker(slots, suggested, hint);
    if k.Some? {
      TotalUpdate(slots, k.value, WithHighlights(slots[k.value], Highlights(slots[k.value]) + [suggested]));
    }
  }

  lemma EditConserves(field: Field<seq<Slot>>, sg: Suggestion)
    ensures var r := EditEntries(field, sg);
            && SameEntries(SlotsOf(field), SlotsOf(r))
            && Total(SlotsOf(field)) <= Total(SlotsOf(r)) <= Total(SlotsOf(field)) + 1
            && (field.Malformed? <==> r.Malformed?)
  {
    if field.Present? && Rewrites(sg) {
      RewriteConserves(field.value, Matching(sg.current.value), sg.suggested);
    } else if !field.Malformed? && sg.action.Add? {
      AppendConserves(SlotsOf(field), sg.suggested, Hint(sg.targetLabel));
    }
  }

  function HighlightCount(s: Structured): nat {
    Total(SlotsOf(s.experience)) + Total(SlotsOf(s.projects))
  }

  ghost predicate SameShape(a: Structured, b: Structured) {
    SameEntries(SlotsOf(a.experience), SlotsOf(b.experience)) && SameEntries(SlotsOf(a.projects), SlotsOf(b.projects))
    && a.others == b.others
  }

  lemma OneConserves(s: Structured, sg: Suggestion)
    ensures var r := EditStructured(s, sg);
            && SameShape(s, r)
            && HighlightCount(s) <= HighlightCount(r) <= HighlightCount(s) + 1
            && SkillsOf(s.skills) <= SkillsOf(r.skills)
  {
    match sg.section
    case Headline =>
    case Skills =>
    case Experience => EditConserves(s.experience, sg);
    case Projects => EditConserves(s.projects, sg);
  }

  /** Any list of suggestions: the same experience and project entries in the same order, education and the
      other keys untouched, no highlight lost, at most one gained for each suggestion, and the old skills
      still in front. */
  lemma {:induction false} AllConserves(d: Draft, sgs: seq<Suggestion>)
    requires d.structured.Some?
    ensures ApplyAll(d, sgs).structured.Some?
    ensures var s, r := d.structured.value, ApplyAll(d, sgs).structured.value;
            && SameShape(s, r)
            && HighlightCount(s) <= HighlightCount(r) <= HighlightCount(s) + |sgs|
            && SkillsOf(s.skills) <= SkillsOf(r.skills)
  {
    if sgs != [] {
      var before := ApplyAll(d, sgs[..|sgs| - 1]);
      AllConserves(d, sgs[..|sgs| - 1]);
      OneConserves(before.structured.value, sgs[|sgs| - 1]);
    }
  }

  /** Without structured data only the text and the headline change. */
  lemma {:induction false} NothingStructured(d: Draft, sgs: seq<Suggestion>)
    requires d.structured.None?
    ensures ApplyAll(d, sgs).structured.None?
    ensures (forall k :: 0 <= k < |sgs| ==> !sgs[k].section.Headline?) ==> ApplyAll(d, sgs).headline == d.headline
  {
    if sgs != [] {
      NothingStructured(d, sgs[..|sgs| - 1]);
    }
  }

  // ---------------------------------------------------------------------------------------------
  // What one suggestion can touch
  // ---------------------------------------------------------------------------------------------

  /** The two lists differ in at most the highlight at position i of entry k. */
  ghost predicate DifferAt(a: seq<Slot>, b: seq<Slot>, k: nat, i: nat) {
    && |a| == |b|
    && (forall m :: 0 <= m < |a| && m != k ==> a[m] == b[m])
    && (k < |a| ==> |Highlights(a[k])| == |Highlights(b[k])|)
    && (k < |a| ==> forall m :: 0 <= m < |Highlights(a[k])| && m != i ==> Highlights(a[k])[m] == Highlights(b[k])[m])
  }

  /** A rewrite changes at most one highlight: the first match, in entry order and then list order, which
      becomes the suggestion. Without a match it changes nothing. */
  lemma RewriteTouchesFirstMatch(slots: seq<Slot>, test: string -> bool, suggested: string, k: nat, i: nat)
    requires IsFirstMatch(slots, test, k, i)
    ensures DifferAt(slots, RewriteSlots(slots, test, suggested), k, i)
    ensures Highlights(RewriteSlots(slots, test, suggested)[k])[i] == suggested
  {
    FirstMatchIsUnique(slots, test, k, i);
    RewriteAt(slots[k], test, suggested, i);
  }

  lemma RewriteAt(slot: Slot, test: string -> bool, suggested: string, i: nat)
    requires FirstMatch(Highlights(slot), test) == Some(i)
    ensures Highlights(WithHighlights(slot, RewriteHighlights(Highlights(slot), test, suggested))) ==
            Highlights(slot)[i := suggested]
  {
  }

  lemma RewriteWithoutMatch(slots: seq<Slot>, test: string -> bool, suggested: string)
    ensures RewriteSlots(slots, test, suggested) == slots || exists k: nat, i: nat :: IsFirstMatch(slots, test, k, i)
  {
    var e := FirstEntry(slots, test);
    if e.Some? {
      var i := FirstMatch(Highlights(slots[e.value]), test);
      assert forall k :: 0 <= k < e.value ==> !HasMatch(slots[k], test);
      assert IsFirstMatch(slots, test, e.value, i.value);
    }
  }

  lemma FirstMatchIsUnique(slots: seq<Slot>, test: string -> bool, k: nat, i: nat)
    requires IsFirstMatch(slots, test, k, i)
    ensures FirstEntry(slots, test) == Some(k) && FirstMatch(Highlights(slots[k]), test) == Some(i)
  {
    var hs := Highlights(slots[k]);
    assert FirstMatch(hs, test).Some?;
    assert HasMatch(slots[k], test);
    forall e | 0 <= e < k ensures !HasMatch(slots[e], test) {
    }
  }

  ghost predicate IsFirstMatch(slots: seq<Slot>, test: string -> bool, k: nat, i: nat) {
    && k < |slots| && i < |Highlights(slots[k])| && test(Highlights(slots[k])[i])
    && (forall m :: 0 <= m < i ==> !test(Highlights(slots[k])[m]))
    && (forall e, m :: 0 <= e < k && 0 <= m < |Highlights(slots[e])| ==> !test(Highlights(slots[e])[m]))
  }

  ghost predicate Distinct(xs: seq<string>) {
    forall i, j :: 0 <= i < j < |xs| ==> xs[i] != xs[j]
  }

  ghost predicate NoDoubles(slots: seq<Slot>) {
    forall k :: 0 <= k < |slots| ==> Distinct(Highlights(slots[k]))
  }

  /** An add never doubles a highlight within its entry. */
  lemma AddNeverDoubles(field: Field<seq<Slot>>, sg: Suggestion)
    requires sg.action.Add? && NoDoubles(SlotsOf(field))
    ensures NoDoubles(SlotsOf(EditEntries(field, sg)))
  {
    var slots := SlotsOf(field);
    var k := Taker(slots, sg.suggested, Hint(sg.targetLabel));
    if !field.Malformed? && k.Some? {
      var hs := Highlights(slots[k.value]);
      forall i | 0 <= i < |hs| ensures hs[i] != sg.suggested {
        assert hs[i] in hs;
      }
    }
  }

  /** Where an add lands: at the end of the first entry that the hint admits and that can take it, failing
      that of the very first entry; no other highlight changes. */
  lemma AddLandsAtTaker(slots: seq<Slot>, suggested: string, hint: string, k: nat)
    requires k < |slots| && CanTake(slots[k], suggested)
    requires if Hinted(slots[k], hint)
             then forall m :: 0 <= m < k ==> !(Hinted(slots[m], hint) && CanTake(slots[m], suggested))
             else k == 0 && forall m :: 0 <= m < |slots| ==> !(Hinted(slots[m], hint) && CanTake(slots[m], suggested))
    ensures var r := AppendSlots(slots, suggested, hint);
            && |r| == |slots|
            && Highlights(r[k]) == Highlights(slots[k]) + [suggested]
            && forall m :: 0 <= m < |slots| && m != k ==> r[m] == slots[m]
  {
    assert Taker(slots, suggested, hint) == Some(k);
  }

  /** Exactly when an added highlight is lost: the list is malformed, or no admitted entry and not the first
      one either can take it. */
  lemma AddIsLostIff(field: Field<seq<Slot>>, sg: Suggestion)
    requires sg.action.Add?
    ensures var slots := SlotsOf(field);
            Total(SlotsOf(EditEntries(field, sg))) == Total(slots) <==>
              || field.Malformed?
              || ((forall k :: 0 <= k < |slots| ==>
                     !(Hinted(slots[k], Hint(sg.targetLabel)) && CanTake(slots[k], sg.suggested)))
                  && (slots != [] ==> !CanTake(slots[0], sg.suggested)))
  {
    AppendConserves(SlotsOf(field), sg.suggested, Hint(sg.targetLabel));
  }

  // Skills

  ghost predicate DistinctSkills(skills: seq<string>, key: string -> string) {
    forall i, j :: 0 <= i < j < |skills| ==> key(skills[i]) != key(skills[j])
  }

  lemma AddKeepsSkillsDistinct(skills: seq<string>, skill: string, key: string -> string)
    ensures DistinctSkills(skills, key) ==> DistinctSkills(AddSkill(skills, skill, key), key)
    ensures SkillExists(AddSkill(skills, skill, key), skill, key)
  {
    var r := AddSkill(skills, skill, key);
    if !SkillExists(skills, skill, key) {
      assert r[|skills|] == skill;
    }
  }

  /** The skills list after a list of suggestions: only the added skills matter. */
  function SkillFold(skills: seq<string>, sgs: seq<Suggestion>, key: string -> string): seq<string> {
    if sgs == [] then skills else
      var before, sg := SkillFold(skills, sgs[..|sgs| - 1], key), sgs[|sgs| - 1];
      if sg.section.Skills? && sg.action.Add? then AddSkill(before, sg.suggested, key) else before
  }

  lemma {:induction false} SkillsAreFold(d: Draft, sgs: seq<Suggestion>)
    requires d.structured.Some?
    ensures ApplyAll(d, sgs).structured.Some?
    ensures SkillsOf(ApplyAll(d, sgs).structured.value.skills) ==
            SkillFold(SkillsOf(d.structured.value.skills), sgs, SkillKey)
  {
    if sgs != [] {
      SkillsAreFold(d, sgs[..|sgs| - 1]);
    }
  }

  lemma {:induction false} FoldKeepsDistinct(skills: seq<string>, sgs: seq<Suggestion>, key: string -> string)
    requires DistinctSkills(skills, key)
    ensures DistinctSkills(SkillFold(skills, sgs, key), key)
  {
    if sgs != [] {
      FoldKeepsDistinct(skills, sgs[..|sgs| - 1], key);
      AddKeepsSkillsDistinct(SkillFold(skills, sgs[..|sgs| - 1], key), sgs[|sgs| - 1].suggested, key);
    }
  }

  lemma {:induction false} FoldArrives(skills: seq<string>, sgs: seq<Suggestion>, k: nat, key: string -> string)
    requires k < |sgs| && sgs[k].section.Skills? && sgs[k].action.Add?
    ensures SkillExists(SkillFold(skills, sgs, key), sgs[k].suggested, key)
  {
    var n := |sgs| - 1;
    var before := SkillFold(skills, sgs[..n], key);
    AddKeepsSkillsDistinct(before, sgs[n].suggested, key);
    if k < n {
      FoldArrives(skills, sgs[..n], k, key);
      MoreSkillsStillExist(before, SkillFold(skills, sgs, key), sgs[k].suggested, key);
    }
  }

  lemma MoreSkillsStillExist(skills: seq<string>, more: seq<string>, skill: string, key: string -> string)
    requires skills <= more && SkillExists(skills, skill, key)
    ensures SkillExists(more, skill, key)
  {
    var i :| 0 <= i < |skills| && key(skills[i]) == key(skill);
    assert more[i] == skills[i];
  }

  /** Skills that differ without regard to case and outer whitespace still do after any list of suggestions,
      and every skill that is suggested is there in the end, in some spelling. */
  lemma AllKeepSkillsDistinct(d: Draft, sgs: seq<Suggestion>)
    requires d.structured.Some? && DistinctSkills(SkillsOf(d.structured.value.skills), SkillKey)
    ensures ApplyAll(d, sgs).structured.Some?
    ensures DistinctSkills(SkillsOf(ApplyAll(d, sgs).structured.value.skills), SkillKey)
  {
    SkillsAreFold(d, sgs);
    FoldKeepsDistinct(SkillsOf(d.structured.value.skills), sgs, SkillKey);
  }

  lemma AddedSkillsArrive(d: Draft, sgs: seq<Suggestion>, k: nat)
    requires d.structured.Some? && k < |sgs| && sgs[k].section.Skills? && sgs[k].action.Add?
    ensures ApplyAll(d, sgs).structured.Some?
    ensures SkillExists(SkillsOf(ApplyAll(d, sgs).structured.value.skills), sgs[k].suggested, SkillKey)
  {
    SkillsAreFold(d, sgs);
    FoldArrives(SkillsOf(d.structured.value.skills), sgs, k, SkillKey);
  }
}
