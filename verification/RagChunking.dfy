/** Splitting a resume into citeable chunks, and why no two chunks share an id. */
module RagChunking {
  import opened Options
  import opened PyText

  datatype Section = Headline | Skill | Experience | Education | Project | ResumeText

  datatype Chunk = Chunk(id: string, text: string, section: Section)

  datatype ExperienceEntry = ExperienceEntry(title: string, company: string, highlights: seq<string>)

  datatype EducationEntry =
    EducationEntry(degree: string, school: string, duration: Option<string>, highlights: seq<string>)

  datatype ProjectEntry = ProjectEntry(name: string, description: Option<string>, highlights: seq<string>)

  datatype Resume = Resume(
    headline: Option<string>,
    skills: seq<string>,
    experience: seq<ExperienceEntry>,
    education: seq<EducationEntry>,
    projects: seq<ProjectEntry>)

  // ---------------------------------------------------------------------------------------------
  // Ids
  // ---------------------------------------------------------------------------------------------

  function Digit(d: nat): char
    requires d < 10
  {
    ('0' as int + d) as char
  }

  /** str(n) */
  function Decimal(n: nat): string {
    if n < 10 then [Digit(n)] else Decimal(n / 10) + [Digit(n % 10)]
  }

  lemma {:induction false} DecimalInjective(m: nat, n: nat)
    requires Decimal(m) == Decimal(n)
    ensures m == n
  {
    DecimalShape(m);
    DecimalShape(n);
    var last := Decimal(m)[|Decimal(m)| - 1];
    assert Decimal(m)[..|Decimal(m)| - 1] == Decimal(n)[..|Decimal(n)| - 1];
    if m >= 10 && n >= 10 {
      assert Decimal(m)[..|Decimal(m)| - 1] == Decimal(m / 10);
      assert Decimal(n)[..|Decimal(n)| - 1] == Decimal(n / 10);
      DecimalInjective(m / 10, n / 10);
    }
  }

  lemma {:induction false} DecimalShape(n: nat)
    ensures |Decimal(n)| >= 1 && (|Decimal(n)| == 1 <==> n < 10)
    ensures forall i :: 0 <= i < |Decimal(n)| ==> '0' <= Decimal(n)[i] <= '9'
  {
    if n >= 10 {
      DecimalShape(n / 10);
    }
  }

  /** What a chunk's id encodes: an entry of a section, or a highlight of one. */
  datatype Key = Top(section: Section, index: nat) | Highlight(section: Section, index: nat, highlight: nat)

  function IdPrefix(section: Section): string {
    match section
    case Headline => "headline"
    case Skill => "skill"
    case Experience => "exp"
    case Education => "edu"
    case Project => "proj"
    case ResumeText => "resume_text"
  }

  function IdOf(key: Key): string {
    match key
    case Top(section, index) => IdPrefix(section) + "-" + Decimal(index)
    case Highlight(section, index, highlight) =>
      IdPrefix(section) + "-" + (Decimal(index) + "-" + ("hl-" + Decimal(highlight)))
  }

  lemma DecimalHasNoDash(n: nat)
    ensures '-' !in Decimal(n)
  {
    DecimalShape(n);
  }

  lemma PrefixInjective(a: Section, b: Section)
    ensures '-' !in IdPrefix(a)
    ensures IdPrefix(a) == IdPrefix(b) ==> a == b
  {
    assert IdPrefix(Headline)[0] == 'h' && IdPrefix(Skill)[0] == 's' && IdPrefix(ResumeText)[0] == 'r';
    assert IdPrefix(Experience)[1] == 'x' && IdPrefix(Education)[1] == 'd' && IdPrefix(Project)[1] == 'r';
  }

  function IdBody(key: Key): string {
    match key
    case Top(_, index) => Decimal(index)
    case Highlight(_, index, highlight) => Decimal(index) + "-" + ("hl-" + Decimal(highlight))
  }

  lemma IdBodyInjective(a: Key, b: Key)
    requires IdBody(a) == IdBody(b)
    ensures a.index == b.index && a.Top? == b.Top? && (a.Highlight? ==> a.highlight == b.highlight)
  {
    BodyParses(a);
    BodyParses(b);
    DecimalInjective(a.index, b.index);
    if a.Highlight? {
      SplitConcat("hl-", Decimal(a.highlight));
      SplitConcat("hl-", Decimal(b.highlight));
      DecimalInjective(a.highlight, b.highlight);
    }
  }

  lemma BodyParses(key: Key)
    ensures Before(IdBody(key), '-') == Decimal(key.index)
    ensures key.Top? <==> '-' !in IdBody(key)
    ensures key.Highlight? ==> After(IdBody(key), '-') == "hl-" + Decimal(key.highlight)
  {
    DecimalHasNoDash(key.index);
    if key.Top? {
      BeforeAbsent(IdBody(key), '-');
    } else {
      BeforeConcat(Decimal(key.index), '-', "hl-" + Decimal(key.highlight));
      assert IdBody(key)[|Decimal(key.index)|] == '-';
    }
  }

  /** Ids parse uniquely. */
  lemma IdInjective(a: Key, b: Key)
    requires IdOf(a) == IdOf(b)
    ensures a == b
  {
    PrefixInjective(a.section, b.section);
    PrefixInjective(b.section, a.section);
    assert IdOf(a) == IdPrefix(a.section) + "-" + IdBody(a) && IdOf(b) == IdPrefix(b.section) + "-" + IdBody(b);
    BeforeConcat(IdPrefix(a.section), '-', IdBody(a));
    BeforeConcat(IdPrefix(b.section), '-', IdBody(b));
    IdBodyInjective(a, b);
  }

  // ---------------------------------------------------------------------------------------------
  // Chunks
  // ---------------------------------------------------------------------------------------------

  datatype Keyed = Keyed(key: Key, text: string)

  function ToChunk(k: Keyed): Chunk {
    Chunk(IdOf(k.key), k.text, k.key.section)
  }

  function ToChunks(ks: seq<Keyed>): (r: seq<Chunk>)
    ensures |r| == |ks|
  {
    seq(|ks|, i requires 0 <= i < |ks| => ToChunk(ks[i]))
  }

  /** What a section's entry contributes: perhaps a chunk of its own, and its highlights, stripped. */
  datatype EntryView = EntryView(top: Option<string>, caption: string, highlights: seq<string>)

  function StripAll(texts: seq<string>): (r: seq<string>)
    ensures |r| == |texts|
  {
    seq(|texts|, i requires 0 <= i < |texts| => Strip(texts[i]))
  }

  function ExperienceView(e: ExperienceEntry): EntryView {
    EntryView(None, e.title + " at " + e.company, StripAll(e.highlights))
  }

  function EducationView(e: EducationEntry): EntryView {
    var base := e.degree + " at " + e.school;
    var timed := if e.duration.Some? && e.duration.value != "" then base + " (" + e.duration.value + ")" else base;
    EntryView(Some(timed), base, StripAll(e.highlights))
  }

  function ProjectView(e: ProjectEntry): EntryView {
    var top := if e.description.Some? && Strip(e.description.value) != ""
               then Some(e.name + ": " + Strip(e.description.value)) else None;
    EntryView(top, e.name, StripAll(e.highlights))
  }

  /** A chunk for a stripped text that is not empty, behind a lead-in. */
  function NonEmpty(key: Key, lead: string, text: string): seq<Keyed> {
    if text == "" then [] else [Keyed(key, lead + text)]
  }

  function SkillChunks(skills: seq<string>, n: nat): seq<Keyed>
    requires n <= |skills|
  {
    if n == 0 then [] else SkillChunks(skills, n - 1) + NonEmpty(Top(Skill, n - 1), "", skills[n - 1])
  }

  function HighlightChunk(section: Section, index: nat, view: EntryView, j: nat): seq<Keyed>
    requires j < |view.highlights|
  {
    NonEmpty(Highlight(section, index, j), view.caption + ": ", view.highlights[j])
  }

  function HighlightChunks(section: Section, index: nat, view: EntryView, n: nat): seq<Keyed>
    requires n <= |view.highlights|
  {
    if n == 0 then [] else
      HighlightChunks(section, index, view, n - 1) + HighlightChunk(section, index, view, n - 1)
  }

  function TopChunk(section: Section, index: nat, view: EntryView): seq<Keyed> {
    if view.top.Some? then [Keyed(Top(section, index), view.top.value)] else []
  }

  function EntryChunks(section: Section, index: nat, view: EntryView): seq<Keyed> {
    TopChunk(section, index, view) + HighlightChunks(section, index, view, |view.highlights|)
  }

  function SectionChunks(section: Section, views: seq<EntryView>, n: nat): seq<Keyed>
    requires n <= |views|
  {
    if n == 0 then [] else SectionChunks(section, views, n - 1) + EntryChunks(section, n - 1, views[n - 1])
  }

  function ExperienceViews(resume: Resume): seq<EntryView> {
    seq(|resume.experience|, i requires 0 <= i < |resume.experience| => ExperienceView(resume.experience[i]))
  }

  function EducationViews(resume: Resume): seq<EntryView> {
    seq(|resume.education|, i requires 0 <= i < |resume.education| => EducationView(resume.education[i]))
  }

  function ProjectViews(resume: Resume): seq<EntryView> {
    seq(|resume.projects|, i requires 0 <= i < |resume.projects| => ProjectView(resume.projects[i]))
  }

  function HeadlineChunks(resume: Resume): seq<Keyed> {
    if resume.headline.Some? && resume.headline.value != ""
    then [Keyed(Top(Headline, 0), Strip(resume.headline.value))] else []
  }

  /** A headline of blanks only would make an empty chunk text, which the chunk schema rejects. */
  predicate HeadlineRejected(resume: Resume) {
    resume.headline.Some? && resume.headline.value != "" && Strip(resume.headline.value) == ""
  }

  function StructuredChunks(resume: Resume): seq<Keyed> {
    HeadlineChunks(resume)
    + SkillChunks(StripAll(resume.skills), |resume.skills|)
    + SectionChunks(Experience, ExperienceViews(resume), |ExperienceViews(resume)|)
    + SectionChunks(Education, EducationViews(resume), |EducationViews(resume)|)
    + SectionChunks(Project, ProjectViews(resume), |ProjectViews(resume)|)
  }

  lemma ToChunksConcat(a: seq<Keyed>, b: seq<Keyed>)
    ensures ToChunks(a + b) == ToChunks(a) + ToChunks(b)
  {
  }

  lemma ToChunksAppend(before: seq<Chunk>, a: seq<Keyed>, b: seq<Keyed>)
    ensures before + ToChunks(a) + ToChunks(b) == before + ToChunks(a + b)
  {
    ToChunksConcat(a, b);
  }

  method AppendNonEmpty(key: Key, lead: string, text: string, before: seq<Chunk>) returns (chunks: seq<Chunk>)
    ensures chunks == before + ToChunks(NonEmpty(key, lead, text))
  {
    if text == "" {
      return before;
    }
    chunks := before + [Chunk(IdOf(key), lead + text, key.section)];
  }

  method AppendHighlights(section: Section, index: nat, view: EntryView, before: seq<Chunk>)
    returns (chunks: seq<Chunk>)
    ensures chunks == before + ToChunks(HighlightChunks(section, index, view, |view.highlights|))
  {
    chunks := before;
    for j := 0 to |view.highlights|
      invariant chunks == before + ToChunks(HighlightChunks(section, index, view, j))
    {
      ghost var done := HighlightChunks(section, index, view, j);
      ghost var more := HighlightChunk(section, index, view, j);
      chunks := AppendNonEmpty(Highlight(section, index, j), view.caption + ": ", view.highlights[j], chunks);
      ToChunksAppend(before, done, more);
      assert HighlightChunks(section, index, view, j + 1) == done + more;
    }
  }

  method AppendEntries(section: Section, views: seq<EntryView>, before: seq<Chunk>) returns (chunks: seq<Chunk>)
    ensures chunks == before + ToChunks(SectionChunks(section, views, |views|))
  {
    chunks := before;
    for i := 0 to |views|
      invariant chunks == before + ToChunks(SectionChunks(section, views, i))
    {
      var view := views[i];
      ghost var start := chunks;
      if view.top.Some? {
        chunks := chunks + [Chunk(IdOf(Top(section, i)), view.top.value, section)];
      }
      ghost var top, hl := TopChunk(section, i, view), HighlightChunks(section, i, view, |view.highlights|);
      assert chunks == start + ToChunks(top);
      chunks := AppendHighlights(section, i, view, chunks);
      ToChunksAppend(start, top, hl);
      ghost var done := SectionChunks(section, views, i);
      ToChunksAppend(before, done, top + hl);
      assert SectionChunks(section, views, i + 1) == done + (top + hl);
    }
  }

  method AppendSkills(skills: seq<string>, before: seq<Chunk>) returns (chunks: seq<Chunk>)
    ensures chunks == before + ToChunks(SkillChunks(skills, |skills|))
  {
    chunks := before;
    for i := 0 to |skills|
      invariant chunks == before + ToChunks(SkillChunks(skills, i))
    {
      chunks := AppendNonEmpty(Top(Skill, i), "", skills[i], chunks);
      ToChunksAppend(before, SkillChunks(skills, i), NonEmpty(Top(Skill, i), "", skills[i]));
    }
  }

  method ChunkStructuredResume(resume: Resume) returns (chunks: Option<seq<Chunk>>)
    ensures chunks == if HeadlineRejected(resume) then None else Some(ToChunks(StructuredChunks(resume)))
  {
    var acc: seq<Chunk> := [];
    if resume.headline.Some? && resume.headline.value != "" {
      if Strip(resume.headline.value) == "" {
        return None;
      }
      acc := [Chunk(IdOf(Top(Headline, 0)), Strip(resume.headline.value), Headline)];
    }
    var exp, edu, proj := ExperienceViews(resume), EducationViews(resume), ProjectViews(resume);
    ghost var parts := [HeadlineChunks(resume), SkillChunks(StripAll(resume.skills), |resume.skills|),
                        SectionChunks(Experience, exp, |exp|), SectionChunks(Education, edu, |edu|)];
    assert acc == ToChunks(parts[0]);
    acc := AppendSkills(StripAll(resume.skills), acc);
    ToChunksConcat(parts[0], parts[1]);
    acc := AppendEntries(Experience, exp, acc);
    ToChunksConcat(parts[0] + parts[1], parts[2]);
    acc := AppendEntries(Education, edu, acc);
    ToChunksConcat(parts[0] + parts[1] + parts[2], parts[3]);
    acc := AppendEntries(Project, proj, acc);
    ToChunksConcat(parts[0] + parts[1] + parts[2] + parts[3], SectionChunks(Project, proj, |proj|));
    chunks := Some(acc);
  }

  /** The non-blank paragraphs, stripped; the regular-expression split into paragraphs is given. */
  function Paragraphs(parts: seq<string>): seq<string> {
    if parts == [] then [] else (if Strip(parts[0]) == "" then [] else [Strip(parts[0])]) + Paragraphs(parts[1..])
  }

  function PlainChunks(text: string, parts: seq<string>): seq<Keyed> {
    var paragraphs := if Paragraphs(parts) == [] then [text] else Paragraphs(parts);
    seq(|paragraphs|, i requires 0 <= i < |paragraphs| => Keyed(Top(ResumeText, i), paragraphs[i]))
  }

  // ---------------------------------------------------------------------------------------------
  // No two chunks share an id
  // ---------------------------------------------------------------------------------------------

  ghost predicate DistinctKeys(ks: seq<Keyed>) {
    forall i, j :: 0 <= i < j < |ks| ==> ks[i].key != ks[j].key
  }

  ghost predicate DistinctChunks(chunks: seq<Chunk>) {
    forall i, j :: 0 <= i < j < |chunks| ==> chunks[i].id != chunks[j].id
  }

  lemma DistinctKeysMakeDistinctIds(ks: seq<Keyed>)
    requires DistinctKeys(ks)
    ensures DistinctChunks(ToChunks(ks))
  {
    forall i, j | 0 <= i < j < |ks| ensures IdOf(ks[i].key) != IdOf(ks[j].key) {
      if IdOf(ks[i].key) == IdOf(ks[j].key) {
        IdInjective(ks[i].key, ks[j].key);
      }
    }
  }

  /** Every key belongs to the section and has an index below n. */
  ghost predicate Within(ks: seq<Keyed>, section: Section, n: nat) {
    forall i :: 0 <= i < |ks| ==> ks[i].key.section == section && ks[i].key.index < n
  }

  lemma DistinctConcat(a: seq<Keyed>, b: seq<Keyed>)
    requires DistinctKeys(a) && DistinctKeys(b)
    requires forall i, j :: 0 <= i < |a| && 0 <= j < |b| ==> a[i].key != b[j].key
    ensures DistinctKeys(a + b)
  {
  }

  lemma WithinConcat(a: seq<Keyed>, b: seq<Keyed>, section: Section, n: nat)
    requires Within(a, section, n) && Within(b, section, n)
    ensures Within(a + b, section, n)
  {
  }

  /** Keys of distinct highlights of one entry, numbered below n. */
  ghost predicate HighlightsOk(ks: seq<Keyed>, section: Section, index: nat, n: nat) {
    && DistinctKeys(ks)
    && forall i :: 0 <= i < |ks| ==>
         ks[i].key.Highlight? && ks[i].key.highlight < n && ks[i].key.section == section && ks[i].key.index == index
  }

  lemma HighlightsStep(ks: seq<Keyed>, more: seq<Keyed>, section: Section, index: nat, n: nat)
    requires HighlightsOk(ks, section, index, n) && |more| <= 1
    requires |more| == 1 ==> more[0].key == Highlight(section, index, n)
    ensures HighlightsOk(ks + more, section, index, n + 1)
  {
  }

  lemma {:induction false} HighlightKeys(section: Section, index: nat, view: EntryView, n: nat)
    requires n <= |view.highlights|
    ensures HighlightsOk(HighlightChunks(section, index, view, n), section, index, n)
  {
    if n > 0 {
      HighlightKeys(section, index, view, n - 1);
      HighlightsStep(HighlightChunks(section, index, view, n - 1), HighlightChunk(section, index, view, n - 1),
                     section, index, n - 1);
    }
  }

  /** Distinct keys of one entry. */
  ghost predicate EntryOk(ks: seq<Keyed>, section: Section, index: nat) {
    DistinctKeys(ks) && forall i :: 0 <= i < |ks| ==> ks[i].key.section == section && ks[i].key.index == index
  }

  lemma EntryStep(top: seq<Keyed>, hl: seq<Keyed>, section: Section, index: nat, n: nat)
    requires HighlightsOk(hl, section, index, n) && |top| <= 1
    requires |top| == 1 ==> top[0].key == Top(section, index)
    ensures EntryOk(top + hl, section, index)
  {
  }

  lemma EntryKeys(section: Section, index: nat, view: EntryView)
    ensures EntryOk(EntryChunks(section, index, view), section, index)
  {
    var hl := HighlightChunks(section, index, view, |view.highlights|);
    HighlightKeys(section, index, view, |view.highlights|);
    EntryStep(TopChunk(section, index, view), hl, section, index, |view.highlights|);
  }

  /** Distinct keys of a section's first n entries. */
  ghost predicate SectionOk(ks: seq<Keyed>, section: Section, n: nat) {
    DistinctKeys(ks) && Within(ks, section, n)
  }

  lemma SectionStep(ks: seq<Keyed>, more: seq<Keyed>, section: Section, n: nat)
    requires SectionOk(ks, section, n) && EntryOk(more, section, n)
    ensures SectionOk(ks + more, section, n + 1)
  {
    DistinctConcat(ks, more);
    WithinConcat(ks, more, section, n + 1);
  }

  lemma {:induction false} SectionKeys(section: Section, views: seq<EntryView>, n: nat)
    requires n <= |views|
    ensures SectionOk(SectionChunks(section, views, n), section, n)
  {
    if n > 0 {
      SectionKeys(section, views, n - 1);
      EntryKeys(section, n - 1, views[n - 1]);
      SectionStep(SectionChunks(section, views, n - 1), EntryChunks(section, n - 1, views[n - 1]), section, n - 1);
    }
  }

  lemma {:induction false} SkillKeys(skills: seq<string>, n: nat)
    requires n <= |skills|
    ensures SectionOk(SkillChunks(skills, n), Skill, n)
  {
    if n > 0 {
      SkillKeys(skills, n - 1);
      SectionStep(SkillChunks(skills, n - 1), NonEmpty(Top(Skill, n - 1), "", skills[n - 1]), Skill, n - 1);
    }
  }

  /** The ids of the chunks of any structured resume are pairwise distinct. */
  lemma StructuredIdsDistinct(resume: Resume)
    ensures DistinctChunks(ToChunks(StructuredChunks(resume)))
  {
    var exp, edu, proj := ExperienceViews(resume), EducationViews(resume), ProjectViews(resume);
    var a, b := HeadlineChunks(resume), SkillChunks(StripAll(resume.skills), |resume.skills|);
    var c, d, e := SectionChunks(Experience, exp, |exp|), SectionChunks(Education, edu, |edu|),
      SectionChunks(Project, proj, |proj|);
    SkillKeys(StripAll(resume.skills), |resume.skills|);
    SectionKeys(Experience, exp, |exp|);
    SectionKeys(Education, edu, |edu|);
    SectionKeys(Project, proj, |proj|);
    SectionsDistinct(a, b, c, d, e);
    DistinctKeysMakeDistinctIds(a + b + c + d + e);
  }

  lemma SectionsDistinct(a: seq<Keyed>, b: seq<Keyed>, c: seq<Keyed>, d: seq<Keyed>, e: seq<Keyed>)
    requires DistinctKeys(a) && DistinctKeys(b) && DistinctKeys(c) && DistinctKeys(d) && DistinctKeys(e)
    requires AllIn(a, Headline) && AllIn(b, Skill) && AllIn(c, Experience) && AllIn(d, Education) && AllIn(e, Project)
    ensures DistinctKeys(a + b + c + d + e)
  {
    DistinctConcat(a, b);
    DistinctConcat(a + b, c);
    DistinctConcat(a + b + c, d);
    DistinctConcat(a + b + c + d, e);
  }

  ghost predicate AllIn(ks: seq<Keyed>, section: Section) {
    forall i :: 0 <= i < |ks| ==> ks[i].key.section == section
  }

  /** So are those of any plain-text resume. */
  lemma PlainIdsDistinct(text: string, parts: seq<string>)
    ensures DistinctChunks(ToChunks(PlainChunks(text, parts)))
  {
    DistinctKeysMakeDistinctIds(PlainChunks(text, parts));
  }

  // ---------------------------------------------------------------------------------------------
  // Re-indexing
  // ---------------------------------------------------------------------------------------------

  /** The embeddings table, keyed by (profile_id, chunk_id). */
  type Table = map<(nat, string), Chunk>

  function DeleteProfile(table: Table, profile: nat): Table {
    map k | k in table && k.0 != profile :: table[k]
  }

  /** Adding rows one by one; None when the primary key is violated. */
  function AddRows(table: Table, profile: nat, chunks: seq<Chunk>): Option<Table> {
    if chunks == [] then Some(table) else
      var before := AddRows(table, profile, chunks[..|chunks| - 1]);
      var last := chunks[|chunks| - 1];
      if before.None? || (profile, last.id) in before.value then None
      else Some(before.value[(profile, last.id) := last])
  }

  function Reindex(table: Table, profile: nat, chunks: seq<Chunk>): Option<Table> {
    AddRows(DeleteProfile(table, profile), profile, chunks)
  }

  lemma {:induction false} AddRowsFacts(table: Table, profile: nat, chunks: seq<Chunk>)
    requires DistinctChunks(chunks) && forall k :: k in table ==> k.0 != profile
    ensures AddRows(table, profile, chunks).Some?
    ensures var t := AddRows(table, profile, chunks).value;
            && (forall k: (nat, string) :: k.0 != profile ==> (k in t <==> k in table) && (k in t ==> t[k] == table[k]))
            && (forall id :: (profile, id) in t ==> t[(profile, id)] in chunks && t[(profile, id)].id == id)
            && (forall c :: c in chunks ==> (profile, c.id) in t && t[(profile, c.id)] == c)
  {
    if chunks != [] {
      var init, last := chunks[..|chunks| - 1], chunks[|chunks| - 1];
      AddRowsFacts(table, profile, init);
      assert chunks == init + [last];
      assert forall i :: 0 <= i < |init| ==> init[i].id != last.id;
      assert (profile, last.id) !in AddRows(table, profile, init).value;
    }
  }

  /** Re-indexing a profile never violates the primary key: afterwards its rows are exactly its chunks and every
      other profile's rows are untouched. */
  lemma ReindexNeverCollides(table: Table, profile: nat, chunks: seq<Chunk>)
    requires DistinctChunks(chunks)
    ensures Reindex(table, profile, chunks).Some?
    ensures var t := Reindex(table, profile, chunks).value;
            && (forall k: (nat, string) :: k.0 != profile ==> (k in t <==> k in table) && (k in t ==> t[k] == table[k]))
            && (forall id :: (profile, id) in t <==> exists c :: c in chunks && c.id == id)
            && (forall c :: c in chunks ==> t[(profile, c.id)] == c)
  {
    AddRowsFacts(DeleteProfile(table, profile), profile, chunks);
  }

  lemma {:induction false} AddedRowsAreDistinct(table: Table, profile: nat, chunks: seq<Chunk>)
    requires AddRows(table, profile, chunks).Some?
    ensures DistinctChunks(chunks)
    ensures forall c :: c in chunks ==> (profile, c.id) in AddRows(table, profile, chunks).value
  {
    if chunks != [] {
      var init, last := chunks[..|chunks| - 1], chunks[|chunks| - 1];
      AddedRowsAreDistinct(table, profile, init);
      assert chunks == init + [last];
      forall i | 0 <= i < |init| ensures init[i].id != last.id {
        assert init[i] in init;
      }
    }
  }

  /** Re-indexing goes through exactly for chunks with distinct ids. */
  lemma ReindexSucceedsIff(table: Table, profile: nat, chunks: seq<Chunk>)
    ensures Reindex(table, profile, chunks).Some? <==> DistinctChunks(chunks)
  {
    if DistinctChunks(chunks) {
      ReindexNeverCollides(table, profile, chunks);
    } else if Reindex(table, profile, chunks).Some? {
      AddedRowsAreDistinct(DeleteProfile(table, profile), profile, chunks);
    }
  }

  lemma ReindexResume(table: Table, profile: nat, resume: Resume)
    ensures Reindex(table, profile, ToChunks(StructuredChunks(resume))).Some?
  {
    StructuredIdsDistinct(resume);
    ReindexNeverCollides(table, profile, ToChunks(StructuredChunks(resume)));
  }
}
