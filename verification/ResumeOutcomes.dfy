/** What a suggestion does to a resume, told by where its text occurs and not by how it is searched for. */
module ResumeOutcomes {
  import opened Options
  import opened PyText
  import opened ResumeEdits

  // ---------------------------------------------------------------------------------------------
  // The text
  // ---------------------------------------------------------------------------------------------

  ghost predicate OccursAt(text: string, part: string, i: nat) {
    i + |part| <= |text| && text[i..i + |part|] == part
  }

  ghost predicate Occurs(text: string, part: string) {
    exists i: nat :: OccursAt(text, part, i)
  }

  ghost predicate FirstOccursAt(text: string, part: string, i: nat) {
    OccursAt(text, part, i) && forall j: nat :: j < i ==> !OccursAt(text, part, j)
  }

  /** The first occurrence of current is replaced, and where there is none the text stays. */
  ghost predicate FirstReplaced(before: string, after: string, current: string, suggested: string) {
    && (forall i: nat :: FirstOccursAt(before, current, i) ==>
          after == before[..i] + suggested + before[i + |current|..])
    && (!Occurs(before, current) ==> after == before)
  }

  /** A rewrite or an emphasis that quotes what it replaces. */
  predicate Quotes(sg: Suggestion) {
    (sg.action == Rewrite || sg.action == Emphasize) && sg.current.Some? && sg.current.value != ""
  }

  lemma ContainsIff(text: string, part: string)
    ensures Contains(text, part) <==> Occurs(text, part)
  {
    var i := Find(text, part, 0);
    if i >= 0 {
      assert OccursAt(text, part, i);
    }
    if j: nat :| OccursAt(text, part, j) {
      assert MatchesAt(text, part, j);
    }
  }

  lemma FindsFirst(text: string, part: string)
    ensures var i := Find(text, part, 0);
            && (i >= 0 ==> FirstOccursAt(text, part, i)) && (i < 0 ==> !Occurs(text, part))
  {
    forall j: nat ensures MatchesAt(text, part, j) <==> OccursAt(text, part, j) {}
  }

  lemma FirstReplacedIff(before: string, after: string, current: string, suggested: string)
    ensures FirstReplaced(before, after, current, suggested) <==> after == ReplaceFirst(before, current, suggested)
  {
    FindsFirst(before, current);
    forall i: nat, j: nat | FirstOccursAt(before, current, i) && FirstOccursAt(before, current, j) ensures i == j {}
  }

  // ---------------------------------------------------------------------------------------------
  // Entries
  // ---------------------------------------------------------------------------------------------

  /** The highlight holds the quoted text, or is it but for outer white space. */
  ghost predicate Quoted(highlight: string, current: string) {
    Occurs(highlight, current) || Strip(highlight) == Strip(current)
  }

  predicate Listed(slot: Slot) {
    slot.Entry? && slot.highlights.Present?
  }

  /** The first highlight that is quoted, in the order of the entries and then of their lists. */
  ghost predicate FirstQuotedAt(slots: seq<Slot>, current: string, k: nat, i: nat) {
    && k < |slots| && Listed(slots[k]) && i < |slots[k].highlights.value|
    && Quoted(slots[k].highlights.value[i], current)
    && (forall m :: 0 <= m < i ==> !Quoted(slots[k].highlights.value[m], current))
    && (forall e, m :: 0 <= e < k && Listed(slots[e]) && 0 <= m < |slots[e].highlights.value| ==>
          !Quoted(slots[e].highlights.value[m], current))
  }

  /** The first quoted highlight becomes the suggestion and nothing else changes; without one nothing does. */
  ghost predicate FirstRewritten(before: seq<Slot>, after: seq<Slot>, current: string, suggested: string) {
    && (forall k: nat, i: nat :: FirstQuotedAt(before, current, k, i) ==>
          after == before[k := before[k].(highlights := Present(before[k].highlights.value[i := suggested]))])
    && ((forall k: nat, i: nat :: !FirstQuotedAt(before, current, k, i)) ==> after == before)
  }

  lemma MatchesIff(highlight: string, current: string)
    ensures Matching(current)(highlight) <==> Quoted(highlight, current)
  {
    ContainsIff(highlight, current);
  }

  lemma FirstQuotedMatches(slots: seq<Slot>, current: string, k: nat, i: nat)
    requires FirstQuotedAt(slots, current, k, i)
    ensures IsFirstMatch(slots, Matching(current), k, i)
  {
    MatchesIff(Highlights(slots[k])[i], current);
    forall e, m | 0 <= e <= k && 0 <= m < |Highlights(slots[e])| && (e < k || m < i)
      ensures !Matching(current)(Highlights(slots[e])[m])
    {
      assert Listed(slots[e]);
      MatchesIff(Highlights(slots[e])[m], current);
    }
  }

  lemma FirstMatchIsQuoted(slots: seq<Slot>, current: string, k: nat, i: nat)
    requires IsFirstMatch(slots, Matching(current), k, i)
    ensures FirstQuotedAt(slots, current, k, i)
  {
    MatchesIff(Highlights(slots[k])[i], current);
    forall e, m | 0 <= e <= k && Listed(slots[e]) && 0 <= m < |slots[e].highlights.value| && (e < k || m < i)
      ensures !Quoted(slots[e].highlights.value[m], current)
    {
      assert !Matching(current)(Highlights(slots[e])[m]);
      MatchesIff(Highlights(slots[e])[m], current);
    }
  }

  lemma RewriteSlotsAt(slots: seq<Slot>, test: string -> bool, suggested: string, k: nat, i: nat)
    requires IsFirstMatch(slots, test, k, i)
    ensures Listed(slots[k])
    ensures RewriteSlots(slots, test, suggested) ==
            slots[k := slots[k].(highlights := Present(slots[k].highlights.value[i := suggested]))]
  {
    FirstMatchIsUnique(slots, test, k, i);
    RewriteAt(slots[k], test, suggested, i);
  }

  lemma FirstRewrittenIff(before: seq<Slot>, after: seq<Slot>, current: string, suggested: string)
    ensures FirstRewritten(before, after, current, suggested) <==>
              after == RewriteSlots(before, Matching(current), suggested)
  {
    forall k: nat, i: nat
      ensures FirstQuotedAt(before, current, k, i) <==> IsFirstMatch(before, Matching(current), k, i)
    {
      if FirstQuotedAt(before, current, k, i) {
        FirstQuotedMatches(before, current, k, i);
      }
      if IsFirstMatch(before, Matching(current), k, i) {
        FirstMatchIsQuoted(before, current, k, i);
      }
    }
    forall k: nat, i: nat | FirstQuotedAt(before, current, k, i)
      ensures RewriteSlots(before, Matching(current), suggested) ==
              before[k := before[k].(highlights := Present(before[k].highlights.value[i := suggested]))]
    {
      RewriteSlotsAt(before, Matching(current), suggested, k, i);
    }
    RewriteWithoutMatch(before, Matching(current), suggested);
  }

  // Adding

  /** The hint of a label: what stands before its first dash, trimmed and in lower case; without a dash it is empty. */
  ghost predicate HintOf(hint: string, target: string) {
    if DASH !in target then hint == ""
    else exists i :: 0 <= i < |target| && target[i] == DASH && DASH !in target[..i]
                     && hint == LowerText(Strip(target[..i]))
  }

  lemma HintOfIff(hint: string, target: string)
    ensures HintOf(hint, target) <==> hint == Hint(target)
  {
    if DASH in target {
      var left := Before(target, DASH);
      DashSplits(target);
      forall i | 0 <= i < |target| && target[i] == DASH && DASH !in target[..i] ensures target[..i] == left {
        BeforeConcat(target[..i], DASH, target[i + 1..]);
        assert target == target[..i] + [DASH] + target[i + 1..];
      }
      assert target[..|left|] == left;
    }
  }

  lemma DashSplits(target: string)
    requires DASH in target
    ensures |Before(target, DASH)| < |target|
  {
    assert |Before(target, DASH)| == |target| ==> Before(target, DASH) == target;
  }

  /** An entry whose name has the hint in it. */
  ghost predicate Admitted(slot: Slot, hint: string) {
    slot.Entry? && (hint == "" || Occurs(LowerText(slot.name), hint))
  }

  /** An entry with no list of highlights, or with one that does not have the suggestion. */
  predicate Takes(slot: Slot, suggested: string) {
    slot.Entry? && (slot.highlights.Absent? || (slot.highlights.Present? && suggested !in slot.highlights.value))
  }

  /** The first entry that is admitted and takes the suggestion; failing that the very first, if it takes it. */
  ghost predicate PlaceOf(slots: seq<Slot>, suggested: string, hint: string, k: nat) {
    && k < |slots| && Takes(slots[k], suggested)
    && if Admitted(slots[k], hint)
       then forall m :: 0 <= m < k ==> !(Admitted(slots[m], hint) && Takes(slots[m], suggested))
       else k == 0 && forall m :: 0 <= m < |slots| ==> !(Admitted(slots[m], hint) && Takes(slots[m], suggested))
  }

  function Extended(slot: Slot, suggested: string): Slot
    requires Takes(slot, suggested)
  {
    slot.(highlights := Present((if slot.highlights.Present? then slot.highlights.value else []) + [suggested]))
  }

  /** The suggestion goes to the end of the list at its place and nothing else changes; without a place nothing does. */
  ghost predicate AddedAtPlace(before: seq<Slot>, after: seq<Slot>, suggested: string, hint: string) {
    && (forall k: nat :: PlaceOf(before, suggested, hint, k) ==> after == before[k := Extended(before[k], suggested)])
    && ((forall k: nat :: !PlaceOf(before, suggested, hint, k)) ==> after == before)
  }

  lemma AdmitsIff(slot: Slot, suggested: string, hint: string)
    ensures Admitted(slot, hint) <==> Hinted(slot, hint)
    ensures Takes(slot, suggested) <==> CanTake(slot, suggested)
  {
    if slot.Entry? {
      ContainsIff(LowerText(slot.name), hint);
    }
  }

  lemma PlaceIsTaker(slots: seq<Slot>, suggested: string, hint: string, k: nat)
    ensures PlaceOf(slots, suggested, hint, k) <==> Taker(slots, suggested, hint) == Some(k)
  {
    forall m | 0 <= m < |slots|
      ensures Admitted(slots[m], hint) <==> Hinted(slots[m], hint)
      ensures Takes(slots[m], suggested) <==> CanTake(slots[m], suggested)
    {
      AdmitsIff(slots[m], suggested, hint);
    }
    if PlaceOf(slots, suggested, hint, k) {
      AddLandsAtTaker(slots, suggested, hint, k);
      TakerIs(slots, suggested, hint, k);
    }
  }

  lemma TakerIs(slots: seq<Slot>, suggested: string, hint: string, k: nat)
    requires k < |slots| && CanTake(slots[k], suggested)
    requires if Hinted(slots[k], hint)
             then forall m :: 0 <= m < k ==> !(Hinted(slots[m], hint) && CanTake(slots[m], suggested))
             else k == 0 && forall m :: 0 <= m < |slots| ==> !(Hinted(slots[m], hint) && CanTake(slots[m], suggested))
    ensures Taker(slots, suggested, hint) == Some(k)
  {
  }

  lemma AddedAtPlaceIff(before: seq<Slot>, after: seq<Slot>, suggested: string, hint: string)
    ensures AddedAtPlace(before, after, suggested, hint) <==> after == AppendSlots(before, suggested, hint)
  {
    forall k: nat ensures PlaceOf(before, suggested, hint, k) <==> Taker(before, suggested, hint) == Some(k) {
      PlaceIsTaker(before, suggested, hint, k);
    }
    var r := Taker(before, suggested, hint);
    if r.Some? {
      assert PlaceOf(before, suggested, hint, r.value);
    }
  }

  // ---------------------------------------------------------------------------------------------
  // One suggestion
  // ---------------------------------------------------------------------------------------------

  /** A value that is no list stays. A quoting suggestion rewrites in a list that is there; an add makes the list if it
      is missing; a rewrite that quotes nothing does nothing. */
  ghost predicate EntriesEdited(before: Field<seq<Slot>>, after: Field<seq<Slot>>, sg: Suggestion) {
    if before.Malformed? then after == before
    else if Quotes(sg) then
      if before.Absent? then after == before
      else after.Present? && FirstRewritten(before.value, after.value, sg.current.value, sg.suggested)
    else if sg.action != Add then after == before
    else
      && after.Present?
      && exists hint :: HintOf(hint, sg.targetLabel)
                        && AddedAtPlace(if before.Present? then before.value else [], after.value, sg.suggested, hint)
  }

  lemma EntriesEditedIff(before: Field<seq<Slot>>, after: Field<seq<Slot>>, sg: Suggestion)
    ensures EntriesEdited(before, after, sg) <==> after == EditEntries(before, sg)
  {
    if before.Malformed? {
    } else if Quotes(sg) {
      if before.Present? && after.Present? {
        FirstRewrittenIff(before.value, after.value, sg.current.value, sg.suggested);
      }
    } else if sg.action == Add && after.Present? {
      var slots := if before.Present? then before.value else [];
      forall hint ensures HintOf(hint, sg.targetLabel) <==> hint == Hint(sg.targetLabel) {
        HintOfIff(hint, sg.targetLabel);
      }
      assert HintOf(Hint(sg.targetLabel), sg.targetLabel);
      AddedAtPlaceIff(slots, after.value, sg.suggested, Hint(sg.targetLabel));
    }
  }

  /** The list is there afterwards, an empty one where there was none. An added skill that is not there in some case and
      outer spacing goes to its end. */
  ghost predicate SkillsEdited(before: Field<seq<string>>, after: Field<seq<string>>, sg: Suggestion) {
    var skills := if before.Present? then before.value else [];
    && after.Present?
    && after.value ==
       if sg.action == Add
          && forall skill :: skill in skills ==> LowerText(Strip(skill)) != LowerText(Strip(sg.suggested))
       then skills + [sg.suggested] else skills
  }

  lemma SkillsEditedIff(before: Field<seq<string>>, after: Field<seq<string>>, sg: Suggestion)
    ensures SkillsEdited(before, after, sg) <==> after == EditSkills(before, sg)
  {
    var skills := if before.Present? then before.value else [];
    if SkillExists(skills, sg.suggested, SkillKey) {
      var k :| 0 <= k < |skills| && SkillKey(skills[k]) == SkillKey(sg.suggested);
      assert skills[k] in skills;
    }
  }

  /** What one suggestion makes of a draft. Only the section it names changes, and the text if it quotes some of it. */
  ghost predicate Edited(before: Draft, after: Draft, sg: Suggestion) {
    && (if Quotes(sg) then FirstReplaced(before.text, after.text, sg.current.value, sg.suggested)
        else after.text == before.text)
    && after.headline == (if sg.section == Headline then Some(sg.suggested) else before.headline)
    && (before.structured.None? <==> after.structured.None?)
    && (before.structured.Some? ==> SectionEdited(before.structured.value, after.structured.value, sg))
  }

  ghost predicate SectionEdited(before: Structured, after: Structured, sg: Suggestion) {
    match sg.section
    case Headline => after == before.(headline := Some(sg.suggested))
    case Skills => after == before.(skills := after.skills) && SkillsEdited(before.skills, after.skills, sg)
    case Experience =>
      after == before.(experience := after.experience) && EntriesEdited(before.experience, after.experience, sg)
    case Projects => after == before.(projects := after.projects) && EntriesEdited(before.projects, after.projects, sg)
  }

  lemma SectionEditedIff(before: Structured, after: Structured, sg: Suggestion)
    ensures SectionEdited(before, after, sg) <==> after == EditStructured(before, sg)
  {
    match sg.section
    case Headline =>
    case Skills => SkillsEditedIff(before.skills, after.skills, sg);
    case Experience => EntriesEditedIff(before.experience, after.experience, sg);
    case Projects => EntriesEditedIff(before.projects, after.projects, sg);
  }

  /** Applying one suggestion makes exactly this of the draft. */
  lemma EditedIff(before: Draft, after: Draft, sg: Suggestion)
    ensures Edited(before, after, sg) <==> after == ApplyOne(before, sg)
  {
    if Quotes(sg) {
      FirstReplacedIff(before.text, after.text, sg.current.value, sg.suggested);
    }
    if before.structured.Some? && after.structured.Some? {
      SectionEditedIff(before.structured.value, after.structured.value, sg);
    }
  }

  // ---------------------------------------------------------------------------------------------
  // All suggestions
  // ---------------------------------------------------------------------------------------------

  /** The drafts from the first to the last, one suggestion apart. */
  ghost predicate EditedInOrder(drafts: seq<Draft>, sgs: seq<Suggestion>) {
    && |drafts| == |sgs| + 1
    && forall i, next :: 0 <= i < |sgs| && next == i + 1 ==> Edited(drafts[i], drafts[next], sgs[i])
  }

  ghost predicate ComesTo(first: Draft, last: Draft, sgs: seq<Suggestion>) {
    exists drafts :: EditedInOrder(drafts, sgs) && drafts[0] == first && drafts[|sgs|] == last
  }

  lemma {:induction false} RunIsUnique(drafts: seq<Draft>, sgs: seq<Suggestion>)
    requires EditedInOrder(drafts, sgs)
    ensures drafts[|sgs|] == ApplyAll(drafts[0], sgs)
  {
    if sgs != [] {
      var n := |sgs| - 1;
      RunIsUnique(drafts[..n + 1], sgs[..n]);
      EditedIff(drafts[n], drafts[n + 1], sgs[n]);
    }
  }

  lemma {:induction false} RunExists(first: Draft, sgs: seq<Suggestion>) returns (drafts: seq<Draft>)
    ensures EditedInOrder(drafts, sgs) && drafts[0] == first && drafts[|sgs|] == ApplyAll(first, sgs)
  {
    if sgs == [] {
      drafts := [first];
    } else {
      var n := |sgs| - 1;
      var before := RunExists(first, sgs[..n]);
      EditedIff(before[n], ApplyAll(first, sgs), sgs[n]);
      drafts := before + [ApplyAll(first, sgs)];
    }
  }

  /** A list of suggestions, each applied to what the one before it left. */
  lemma ComesToIff(first: Draft, last: Draft, sgs: seq<Suggestion>)
    ensures ComesTo(first, last, sgs) <==> last == ApplyAll(first, sgs)
  {
    var run := RunExists(first, sgs);
    if drafts :| EditedInOrder(drafts, sgs) && drafts[0] == first && drafts[|sgs|] == last {
      RunIsUnique(drafts, sgs);
    }
  }

  /** What the edits start from: structured data without any key counts as none. */
  ghost predicate Begins(first: Draft, text: string, structured: Option<Structured>, headline: Option<string>) {
    && first.text == text && first.headline == headline
    && first.structured ==
       if structured.Some? && (structured.value.headline.Some? || !structured.value.skills.Absent?
                               || !structured.value.experience.Absent? || !structured.value.projects.Absent?
                               || structured.value.others != [])
       then structured else None
  }
}
