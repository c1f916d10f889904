/** What a resume is split into: which chunks there are, what each says, and in which order they come. */
module ResumeChunks {
  import opened Options
  import opened PyText
  import opened RagChunking

  // ---------------------------------------------------------------------------------------------
  // Numbers in ids
  // ---------------------------------------------------------------------------------------------

  /** The number a text of digits spells. */
  function Value(digits: string): int {
    if digits == "" then 0 else 10 * Value(digits[..|digits| - 1]) + (digits[|digits| - 1] as int - '0' as int)
  }

  lemma {:induction false} DecimalSpells(n: nat)
    ensures Value(Decimal(n)) == n && Decimal(n) != ""
    ensures n > 0 ==> Decimal(n)[0] != '0'
    ensures forall i :: 0 <= i < |Decimal(n)| ==> '0' <= Decimal(n)[i] <= '9'
  {
    if n < 10 {
      assert Decimal(n)[..0] == "";
      assert Value(Decimal(n)) == 10 * Value("") + n;
    } else {
      DecimalSpells(n / 10);
      assert Decimal(n)[..|Decimal(n)| - 1] == Decimal(n / 10);
    }
  }

  // ---------------------------------------------------------------------------------------------
  // Which chunks there are
  // ---------------------------------------------------------------------------------------------

  /** A highlight that is not blank, trimmed, behind its caption. */
  predicate SaysHighlight(text: string, caption: string, highlights: seq<string>, j: nat) {
    j < |highlights| && Strip(highlights[j]) != "" && text == caption + ": " + Strip(highlights[j])
  }

  predicate SaysDegree(text: string, e: EducationEntry) {
    text == e.degree + " at " + e.school +
            if e.duration.Some? && e.duration.value != "" then " (" + e.duration.value + ")" else ""
  }

  predicate SaysProject(text: string, e: ProjectEntry) {
    e.description.Some? && Strip(e.description.value) != "" && text == e.name + ": " + Strip(e.description.value)
  }

  /** The part of the resume the key stands for has a chunk, and this is its text. */
  predicate Says(resume: Resume, key: Key, text: string) {
    match key
    case Top(Headline, i) =>
      i == 0 && resume.headline.Some? && resume.headline.value != "" && text == Strip(resume.headline.value)
    case Top(Skill, i) => i < |resume.skills| && Strip(resume.skills[i]) != "" && text == Strip(resume.skills[i])
    case Top(Education, i) => i < |resume.education| && SaysDegree(text, resume.education[i])
    case Top(Project, i) => i < |resume.projects| && SaysProject(text, resume.projects[i])
    case Highlight(Experience, i, j) =>
      i < |resume.experience|
      && SaysHighlight(text, resume.experience[i].title + " at " + resume.experience[i].company,
                       resume.experience[i].highlights, j)
    case Highlight(Education, i, j) =>
      i < |resume.education|
      && SaysHighlight(text, resume.education[i].degree + " at " + resume.education[i].school,
                       resume.education[i].highlights, j)
    case Highlight(Project, i, j) =>
      i < |resume.projects| && SaysHighlight(text, resume.projects[i].name, resume.projects[i].highlights, j)
    case _ => false
  }

  lemma {:induction false} SkillMembers(skills: seq<string>, n: nat, k: Keyed)
    requires n <= |skills|
    ensures k in SkillChunks(skills, n) <==>
              k.key.Top? && k.key.section == Skill && k.key.index < n && skills[k.key.index] != ""
              && k.text == skills[k.key.index]
  {
    if n > 0 {
      SkillMembers(skills, n - 1, k);
      PlainSkill(skills[n - 1], n - 1);
    }
  }

  lemma PlainSkill(skill: string, i: nat)
    ensures NonEmpty(Top(Skill, i), "", skill) == if skill == "" then [] else [Keyed(Top(Skill, i), skill)]
  {
    assert "" + skill == skill;
  }

  lemma {:induction false} HighlightMembers(section: Section, index: nat, view: EntryView, n: nat, k: Keyed)
    requires n <= |view.highlights|
    ensures k in HighlightChunks(section, index, view, n) <==>
              k.key.Highlight? && k.key.section == section && k.key.index == index && k.key.highlight < n
              && view.highlights[k.key.highlight] != ""
              && k.text == view.caption + ": " + view.highlights[k.key.highlight]
  {
    if n > 0 {
      HighlightMembers(section, index, view, n - 1, k);
    }
  }

  predicate InEntry(view: EntryView, k: Keyed) {
    match k.key
    case Top(_, _) => view.top == Some(k.text)
    case Highlight(_, _, j) =>
      j < |view.highlights| && view.highlights[j] != "" && k.text == view.caption + ": " + view.highlights[j]
  }

  lemma EntryMembers(section: Section, index: nat, view: EntryView, k: Keyed)
    ensures k in EntryChunks(section, index, view) <==>
              k.key.section == section && k.key.index == index && InEntry(view, k)
  {
    HighlightMembers(section, index, view, |view.highlights|, k);
    assert k in TopChunk(section, index, view) <==>
             view.top.Some? && k.key == Top(section, index) && k.text == view.top.value;
  }

  lemma {:induction false} SectionMembers(section: Section, views: seq<EntryView>, n: nat, k: Keyed)
    requires n <= |views|
    ensures k in SectionChunks(section, views, n) <==>
              k.key.section == section && k.key.index < n && InEntry(views[k.key.index], k)
  {
    if n > 0 {
      SectionMembers(section, views, n - 1, k);
      EntryMembers(section, n - 1, views[n - 1], k);
    }
  }

  lemma ExperienceMembers(resume: Resume, k: Keyed)
    ensures k in SectionChunks(Experience, ExperienceViews(resume), |resume.experience|) <==>
              k.key.section == Experience && Says(resume, k.key, k.text)
  {
    SectionMembers(Experience, ExperienceViews(resume), |resume.experience|, k);
  }

  lemma EducationMembers(resume: Resume, k: Keyed)
    ensures k in SectionChunks(Education, EducationViews(resume), |resume.education|) <==>
              k.key.section == Education && Says(resume, k.key, k.text)
  {
    SectionMembers(Education, EducationViews(resume), |resume.education|, k);
    if k.key.section == Education && k.key.index < |resume.education| {
      DegreeText(resume.education[k.key.index]);
    }
  }

  lemma DegreeText(e: EducationEntry)
    ensures forall text :: EducationView(e).top == Some(text) <==> SaysDegree(text, e)
  {
    var base := e.degree + " at " + e.school;
    if e.duration.Some? && e.duration.value != "" {
      ConcatAssoc(base, " (" + e.duration.value, ")");
      ConcatAssoc(base, " (", e.duration.value);
    } else {
      assert base + "" == base;
    }
  }

  lemma ProjectMembers(resume: Resume, k: Keyed)
    ensures k in SectionChunks(Project, ProjectViews(resume), |resume.projects|) <==>
              k.key.section == Project && Says(resume, k.key, k.text)
  {
    SectionMembers(Project, ProjectViews(resume), |resume.projects|, k);
  }

  /** Exactly the parts of the resume that say something have a chunk, and what it says. */
  lemma PartsAreChunks(resume: Resume, k: Keyed)
    ensures k in StructuredChunks(resume) <==> Says(resume, k.key, k.text)
  {
    SkillMembers(StripAll(resume.skills), |resume.skills|, k);
    ExperienceMembers(resume, k);
    EducationMembers(resume, k);
    ProjectMembers(resume, k);
    HeadlineMembers(resume, k);
  }

  lemma HeadlineMembers(resume: Resume, k: Keyed)
    ensures k in HeadlineChunks(resume) <==> k.key.section == Headline && Says(resume, k.key, k.text)
  {
  }

  /** The id of a part's chunk. */
  function PartId(key: Key): string {
    (match key.section
     case Headline => "headline-"
     case Skill => "skill-"
     case Experience => "exp-"
     case Education => "edu-"
     case Project => "proj-"
     case ResumeText => "resume_text-")
    + Decimal(key.index) + if key.Highlight? then "-hl-" + Decimal(key.highlight) else ""
  }

  lemma PartIdIs(key: Key)
    ensures PartId(key) == IdOf(key)
  {
    var prefix, number := IdPrefix(key.section) + "-", Decimal(key.index);
    PrefixWithDash(key.section);
    if key.Highlight? {
      LongId(prefix, number, Decimal(key.highlight));
    } else {
      assert prefix + number + "" == prefix + number;
    }
  }

  lemma PrefixWithDash(section: Section)
    ensures IdPrefix(section) + "-" ==
            match section
            case Headline => "headline-"
            case Skill => "skill-"
            case Experience => "exp-"
            case Education => "edu-"
            case Project => "proj-"
            case ResumeText => "resume_text-"
  {
  }

  lemma LongId(prefix: string, number: string, highlight: string)
    ensures prefix + (number + "-" + ("hl-" + highlight)) == prefix + number + ("-hl-" + highlight)
  {
    assert "-" + ("hl-" + highlight) == "-hl-" + highlight;
    ConcatAssoc(number, "-", "hl-" + highlight);
    ConcatAssoc(prefix, number, "-hl-" + highlight);
  }

  /** A structured resume's chunks: for each part that says something one with its id, its text and its section. */
  lemma ChunksOfResume(resume: Resume, c: Chunk)
    ensures c in ToChunks(StructuredChunks(resume)) <==>
              exists key :: Says(resume, key, c.text) && c.id == PartId(key) && c.section == key.section
  {
    var ks := StructuredChunks(resume);
    if c in ToChunks(ks) {
      var i :| 0 <= i < |ks| && ToChunks(ks)[i] == c;
      PartsAreChunks(resume, ks[i]);
      PartIdIs(ks[i].key);
    }
    if key :| Says(resume, key, c.text) && c.id == PartId(key) && c.section == key.section {
      PartsAreChunks(resume, Keyed(key, c.text));
      PartIdIs(key);
      var i :| 0 <= i < |ks| && ks[i] == Keyed(key, c.text);
      assert ToChunks(ks)[i] == c;
    }
  }

  // ---------------------------------------------------------------------------------------------
  // Their order
  // ---------------------------------------------------------------------------------------------

  function Rank(section: Section): nat {
    match section
    case Headline => 0
    case Skill => 1
    case Experience => 2
    case Education => 3
    case Project => 4
    case ResumeText => 5
  }

  /** By section, then by entry, an entry's own chunk before its highlights and those by number. */
  predicate Precedes(a: Key, b: Key) {
    if Rank(a.section) != Rank(b.section) then Rank(a.section) < Rank(b.section)
    else if a.index != b.index then a.index < b.index
    else b.Highlight? && (a.Top? || a.highlight < b.highlight)
  }

  ghost predicate InOrder(ks: seq<Keyed>) {
    forall i, j :: 0 <= i < j < |ks| ==> Precedes(ks[i].key, ks[j].key)
  }

  lemma OrderedConcat(a: seq<Keyed>, b: seq<Keyed>)
    requires InOrder(a) && InOrder(b) && forall x, y :: x in a && y in b ==> Precedes(x.key, y.key)
    ensures InOrder(a + b)
  {
    forall i, j | 0 <= i < |a| && |a| <= j < |a + b| ensures Precedes((a + b)[i].key, (a + b)[j].key) {
      assert (a + b)[i] in a && (a + b)[j] in b;
    }
  }

  lemma {:induction false} SkillsInOrder(skills: seq<string>, n: nat)
    requires n <= |skills|
    ensures InOrder(SkillChunks(skills, n))
  {
    if n > 0 {
      SkillsInOrder(skills, n - 1);
      forall k | k in SkillChunks(skills, n - 1) ensures k.key.section == Skill && k.key.Top? && k.key.index < n - 1 {
        SkillMembers(skills, n - 1, k);
      }
      OrderedConcat(SkillChunks(skills, n - 1), NonEmpty(Top(Skill, n - 1), "", skills[n - 1]));
    }
  }

  lemma {:induction false} HighlightsInOrder(section: Section, index: nat, view: EntryView, n: nat)
    requires n <= |view.highlights|
    ensures InOrder(HighlightChunks(section, index, view, n))
  {
    if n > 0 {
      HighlightsInOrder(section, index, view, n - 1);
      var before := HighlightChunks(section, index, view, n - 1);
      forall k | k in before ensures Precedes(k.key, Highlight(section, index, n - 1)) {
        HighlightMembers(section, index, view, n - 1, k);
      }
      OrderedConcat(before, HighlightChunk(section, index, view, n - 1));
    }
  }

  lemma EntryInOrder(section: Section, index: nat, view: EntryView)
    ensures InOrder(EntryChunks(section, index, view))
  {
    var n := |view.highlights|;
    HighlightsInOrder(section, index, view, n);
    forall k | k in HighlightChunks(section, index, view, n) ensures Precedes(Top(section, index), k.key) {
      HighlightMembers(section, index, view, n, k);
    }
    OrderedConcat(TopChunk(section, index, view), HighlightChunks(section, index, view, n));
  }

  lemma {:induction false} SectionInOrder(section: Section, views: seq<EntryView>, n: nat)
    requires n <= |views|
    ensures InOrder(SectionChunks(section, views, n))
  {
    if n > 0 {
      SectionInOrder(section, views, n - 1);
      EntryInOrder(section, n - 1, views[n - 1]);
      var before, last := SectionChunks(section, views, n - 1), EntryChunks(section, n - 1, views[n - 1]);
      forall x, y | x in before && y in last ensures Precedes(x.key, y.key) {
        SectionMembers(section, views, n - 1, x);
        EntryMembers(section, n - 1, views[n - 1], y);
      }
      OrderedConcat(before, last);
    }
  }

  ghost predicate UpTo(ks: seq<Keyed>, rank: int) {
    forall k :: k in ks ==> Rank(k.key.section) <= rank
  }

  ghost predicate Only(ks: seq<Keyed>, section: Section) {
    forall k :: k in ks ==> k.key.section == section
  }

  lemma LaterSection(a: seq<Keyed>, b: seq<Keyed>, section: Section)
    requires InOrder(a) && InOrder(b) && UpTo(a, Rank(section) - 1) && Only(b, section)
    ensures InOrder(a + b) && UpTo(a + b, Rank(section))
  {
    OrderedConcat(a, b);
  }

  /** The chunks come by section, then by entry, an entry's own before its highlights. */
  lemma ResumeInOrder(resume: Resume)
    ensures InOrder(StructuredChunks(resume))
  {
    SkillsAreSkills(StripAll(resume.skills), |resume.skills|);
    SectionIsSection(Experience, ExperienceViews(resume), |ExperienceViews(resume)|);
    SectionIsSection(Education, EducationViews(resume), |EducationViews(resume)|);
    SectionIsSection(Project, ProjectViews(resume), |ProjectViews(resume)|);
    FiveSections(HeadlineChunks(resume), SkillChunks(StripAll(resume.skills), |resume.skills|),
                 SectionChunks(Experience, ExperienceViews(resume), |ExperienceViews(resume)|),
                 SectionChunks(Education, EducationViews(resume), |EducationViews(resume)|),
                 SectionChunks(Project, ProjectViews(resume), |ProjectViews(resume)|));
  }

  lemma FiveSections(h: seq<Keyed>, skills: seq<Keyed>, exp: seq<Keyed>, edu: seq<Keyed>, proj: seq<Keyed>)
    requires InOrder(h) && InOrder(skills) && InOrder(exp) && InOrder(edu) && InOrder(proj)
    requires Only(h, Headline) && Only(skills, Skill) && Only(exp, Experience) && Only(edu, Education)
    requires Only(proj, Project)
    ensures InOrder(h + skills + exp + edu + proj)
  {
    LaterSection(h, skills, Skill);
    LaterSection(h + skills, exp, Experience);
    LaterSection(h + skills + exp, edu, Education);
    LaterSection(h + skills + exp + edu, proj, Project);
  }

  lemma SkillsAreSkills(skills: seq<string>, n: nat)
    requires n <= |skills|
    ensures InOrder(SkillChunks(skills, n)) && Only(SkillChunks(skills, n), Skill)
  {
    SkillsInOrder(skills, n);
    forall k | k in SkillChunks(skills, n) ensures k.key.section == Skill {
      SkillMembers(skills, n, k);
    }
  }

  lemma SectionIsSection(section: Section, views: seq<EntryView>, n: nat)
    requires n <= |views|
    ensures InOrder(SectionChunks(section, views, n)) && Only(SectionChunks(section, views, n), section)
  {
    SectionInOrder(section, views, n);
    forall k | k in SectionChunks(section, views, n) ensures k.key.section == section {
      SectionMembers(section, views, n, k);
    }
  }

  // ---------------------------------------------------------------------------------------------
  // Plain text
  // ---------------------------------------------------------------------------------------------

  lemma {:induction false} ParagraphsConcat(a: seq<string>, b: seq<string>)
    ensures Paragraphs(a + b) == Paragraphs(a) + Paragraphs(b)
  {
    if a == [] {
      assert a + b == b;
    } else {
      ParagraphsConcat(a[1..], b);
      assert (a + b)[0] == a[0] && (a + b)[1..] == a[1..] + b;
      ConcatAssoc(if Strip(a[0]) == "" then [] else [Strip(a[0])], Paragraphs(a[1..]), Paragraphs(b));
    }
  }

  lemma LoneParagraph(part: string)
    ensures Paragraphs([part]) == if Strip(part) == "" then [] else [Strip(part)]
  {
    assert [part][1..] == [];
  }

  /** A part that is not blank is a paragraph, trimmed, after those before it. */
  lemma ParagraphOf(before: seq<string>, part: string, after: seq<string>)
    ensures Paragraphs(before + [part] + after) ==
            Paragraphs(before) + (if Strip(part) == "" then [] else [Strip(part)]) + Paragraphs(after)
  {
    ParagraphsConcat(before + [part], after);
    ParagraphsConcat(before, [part]);
    LoneParagraph(part);
  }

  /** A plain resume has one chunk for each paragraph, numbered in order, or one for the whole text. */
  lemma ChunksOfPlainText(text: string, parts: seq<string>)
    ensures var paragraphs := if forall i :: 0 <= i < |parts| ==> Strip(parts[i]) == "" then [text]
                              else Paragraphs(parts);
            var chunks := ToChunks(PlainChunks(text, parts));
            && |chunks| == |paragraphs|
            && forall i :: 0 <= i < |chunks| ==>
                 chunks[i] == Chunk("resume_text-" + Decimal(i), paragraphs[i], ResumeText)
  {
    NoParagraphsIff(parts);
    forall i: nat | i < |PlainChunks(text, parts)| ensures IdOf(Top(ResumeText, i)) == "resume_text-" + Decimal(i) {
      PartIdIs(Top(ResumeText, i));
      assert "resume_text-" + Decimal(i) + "" == "resume_text-" + Decimal(i);
    }
  }

  lemma {:induction false} NoParagraphsIff(parts: seq<string>)
    ensures Paragraphs(parts) == [] <==> forall i :: 0 <= i < |parts| ==> Strip(parts[i]) == ""
  {
    if parts != [] {
      NoParagraphsIff(parts[1..]);
      assert parts == [parts[0]] + parts[1..];
    }
  }
}
