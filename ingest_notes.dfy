/** Notes sections and note links of src/ingest.py
    (extract_note_no_from_title, save_notes_sections, build_note_links) and
    the benchmark-name lookup get_benchmark_company_name_from_db. The
    database tables are sequences of rows; stable_id is replaced by the
    values it hashes. */
module IngestNotes {
  import opened Common
  import opened Normalize
  import opened TextUtil
  import opened IngestFacts
  import opened MarketData

  // ---------------------------------------------------------------------------
  // extract_note_no_from_title: ^\s*(\d+)\.\s* on title.strip()
  // ---------------------------------------------------------------------------

  /** End of the run of digits starting at i. */
  function DigitEnd(t: string, i: nat): (e: nat)
    requires i <= |t|
    ensures i <= e <= |t| && (e < |t| ==> !IsDigit(t[e]))
    ensures forall k :: i <= k < e ==> IsDigit(t[k])
    decreases |t| - i
  {
    if i < |t| && IsDigit(t[i]) then DigitEnd(t, i + 1) else i
  }

  /** The leading integer of the stripped title when a '.' follows it. An
      empty title gives None. */
  function NoteNoFromTitle(title: string): (r: Option<nat>) {
    if title == [] then None
    else
      var t := Strip(title);
      var n := DigitEnd(t, 0);
      if 0 < n < |t| && t[n] == '.' then Some(DigitsValue(t[..n])) else None
  }

  lemma {:induction false} LStripLead(lead: string, x: string)
    requires forall k :: 0 <= k < |lead| ==> IsSpace(lead[k])
    requires x != [] && !IsSpace(x[0])
    ensures LStrip(lead + x) == x
    decreases |lead|
  {
    if lead != [] {
      assert (lead + x)[1..] == lead[1..] + x;
      LStripLead(lead[1..], x);
    }
  }

  /** The stripped title starts with the digits d and then '.'. */
  lemma NoteNoOfStripped(title: string, d: string)
    requires title != [] && IsDigits(d)
    requires |d| < |Strip(title)| && Strip(title)[..|d|] == d && Strip(title)[|d|] == '.'
    ensures NoteNoFromTitle(title) == Some(DigitsValue(d))
  {
    DigitEndOf(Strip(title), d);
  }

  lemma DigitEndOf(t: string, d: string)
    requires |d| < |t| && t[..|d|] == d && IsDigits(d) && !IsDigit(t[|d|])
    ensures DigitEnd(t, 0) == |d|
  {
  }

  /** RStrip keeps everything up to a non-space character. */
  lemma RStripKeeps(x: string, n: nat)
    requires n < |x| && !IsSpace(x[n])
    ensures n < |RStrip(x)| && RStrip(x)[..n + 1] == x[..n + 1]
  {
  }

  /** Stripping whitespace, digits, '.', rest keeps the digits and the dot. */
  lemma StripNumbered(lead: string, x: string, d: string)
    requires forall k :: 0 <= k < |lead| ==> IsSpace(lead[k])
    requires IsDigits(d) && |d| < |x| && x[..|d|] == d && x[|d|] == '.'
    ensures |d| < |Strip(lead + x)| && Strip(lead + x)[..|d|] == d && Strip(lead + x)[|d|] == '.'
  {
    assert x[0] == d[0];
    LStripLead(lead, x);
    RStripKeeps(x, |d|);
    assert RStrip(x)[..|d|] == RStrip(x)[..|d| + 1][..|d|];
  }

  /** A title written as whitespace, str(n), '.', anything, gives n. */
  lemma NoteNoOfNumbered(lead: string, n: nat, rest: string)
    requires forall k :: 0 <= k < |lead| ==> IsSpace(lead[k])
    ensures NoteNoFromTitle(lead + NatToString(n) + "." + rest) == Some(n)
  {
    var d := NatToString(n);
    var x := d + "." + rest;
    assert lead + d + "." + rest == lead + x;
    assert x[..|d|] == d;
    StripNumbered(lead, x, d);
    NoteNoOfStripped(lead + x, d);
  }

  /** A stripped title that does not start with a digit has no note number. */
  lemma NoteNoOfUnnumbered(title: string)
    requires Strip(title) == [] || !IsDigit(Strip(title)[0])
    ensures NoteNoFromTitle(title) == None
  {
  }

  // ---------------------------------------------------------------------------
  // save_notes_sections
  // ---------------------------------------------------------------------------

  /** The values stable_id hashes into a section_id. */
  datatype SectionKey = SectionKey(reportId: string, code: string)

  datatype NotesSection = NotesSection(
    sectionId: SectionKey, code: string, sectionType: string, noteNo: Option<nat>,
    titleKo: string, sortOrder: int, rawHtml: string)

  /** "III-3-{note_no}", or "III-3-X{i}" for a title without a number. */
  function SectionCode(noteNo: Option<nat>, i: nat): string {
    if noteNo.Some? then "III-3-" + NatToString(noteNo.value) else "III-3-X" + NatToString(i)
  }

  function NotesSectionAt(reportId: string, i: nat, title: string, html: string): NotesSection {
    var no := NoteNoFromTitle(title);
    var code := SectionCode(no, i);
    NotesSection(SectionKey(reportId, code), code, "notes", no, CleanTitleKo(title), 3000 + i, html)
  }

  /** The section rows of save_notes_sections, in input order: section i
      gets sort_order 3000 + i, the note number read from its title and the
      cleaned title. */
  function NotesSections(reportId: string, sections: seq<(string, string)>): (r: seq<NotesSection>)
    ensures |r| == |sections|
    ensures forall i :: 0 <= i < |sections| ==> r[i] == NotesSectionAt(reportId, i, sections[i].0, sections[i].1)
  {
    MapIndexed(sections, (i: nat, s: (string, string)) => NotesSectionAt(reportId, i, s.0, s.1))
  }

  lemma NotesSectionsSnoc(reportId: string, sections: seq<(string, string)>, s: (string, string))
    ensures NotesSections(reportId, sections + [s]) ==
      NotesSections(reportId, sections) + [NotesSectionAt(reportId, |sections|, s.0, s.1)]
  {
    MapIndexedSnoc(sections, s, (i: nat, s: (string, string)) => NotesSectionAt(reportId, i, s.0, s.1));
  }

  method SaveNotesSections(reportId: string, sections: seq<(string, string)>)
    returns (out: seq<NotesSection>)
    ensures out == NotesSections(reportId, sections)
  {
    out := [];
    for i := 0 to |sections|
      invariant out == NotesSections(reportId, sections[..i])
    {
      var (title, html) := sections[i];
      var row := NotesSectionRow(reportId, i, title, html);
      assert sections[..i + 1] == sections[..i] + [sections[i]];
      NotesSectionsSnoc(reportId, sections[..i], sections[i]);
      out := out + [row];
    }
    assert sections[..|sections|] == sections;
  }

  /** The row of section i: its code from the title's note number, or the
      "X" code of its position. */
  method NotesSectionRow(reportId: string, i: nat, title: string, html: string) returns (row: NotesSection)
    ensures row == NotesSectionAt(reportId, i, title, html)
  {
    var noteNo := NoteNoFromTitle(title);
    var code: string;
    if noteNo.Some? {
      code := "III-3-" + NatToString(noteNo.value);
    } else {
      code := "III-3-X" + NatToString(i);
    }
    row := NotesSection(SectionKey(reportId, code), code, "notes", noteNo,
                        CleanTitleKo(title), 3000 + i, html);
  }

  lemma NatToStringInjective(a: nat, b: nat)
    requires NatToString(a) == NatToString(b)
    ensures a == b
  {
  }

  /** Two sections share a code (and so a section_id) iff both titles carry
      the same note number, or neither carries one and they are the same
      section: a numbered code never equals an "X" code. */
  lemma SectionCodeClash(a: Option<nat>, i: nat, b: Option<nat>, j: nat)
    ensures SectionCode(a, i) == SectionCode(b, j) <==>
      (a.Some? && a == b) || (a.None? && b.None? && i == j)
  {
    var p, q := SectionCode(a, i), SectionCode(b, j);
    if p == q {
      if a.Some? && b.Some? {
        assert p[6..] == NatToString(a.value) && q[6..] == NatToString(b.value);
        NatToStringInjective(a.value, b.value);
      } else if a.None? && b.None? {
        assert p[7..] == NatToString(i) && q[7..] == NatToString(j);
        NatToStringInjective(i, j);
      }
    }
    if a.Some? && b.None? {
      assert IsDigit(p[6]) && q[6] == 'X';
    }
    if a.None? && b.Some? {
      assert p[6] == 'X' && IsDigit(q[6]);
    }
  }

  /** Sort orders follow input order and start at 3000. */
  lemma SortOrderStrict(reportId: string, sections: seq<(string, string)>, i: nat, j: nat)
    requires i < j < |sections|
    ensures 3000 <= NotesSections(reportId, sections)[i].sortOrder < NotesSections(reportId, sections)[j].sortOrder
  {
  }

  // ---------------------------------------------------------------------------
  // build_note_links
  // ---------------------------------------------------------------------------

  /** (section_id, note_no) of a notes section. */
  datatype NoteRow = NoteRow(sectionId: string, noteNo: Option<nat>)

  /** {no: sid for (sid, no) in note_rows if no is not None}: a later row
      overwrites an earlier one. */
  function NoteMapOf(rows: seq<NoteRow>): map<nat, string> {
    if rows == [] then map[]
    else
      var r := rows[|rows| - 1];
      var m := NoteMapOf(rows[..|rows| - 1]);
      if r.noteNo.Some? then m[r.noteNo.value := r.sectionId] else m
  }

  /** A note number is mapped iff some notes section has it. */
  lemma {:induction false} NoteMapKeys(rows: seq<NoteRow>, no: nat)
    ensures no in NoteMapOf(rows) <==> exists k :: 0 <= k < |rows| && rows[k].noteNo == Some(no)
  {
    if rows != [] {
      var n := |rows|;
      var init := rows[..n - 1];
      NoteMapKeys(init, no);
      if no in NoteMapOf(init) {
        var k :| 0 <= k < |init| && init[k].noteNo == Some(no);
        assert rows[k] == init[k];
      }
      if exists k :: 0 <= k < n && rows[k].noteNo == Some(no) {
        var k :| 0 <= k < n && rows[k].noteNo == Some(no);
        if k < n - 1 {
          assert init[k] == rows[k];
        }
      }
    }
  }

  /** rows[k] is the last notes section numbered no. */
  predicate LastNoteRow(rows: seq<NoteRow>, k: int, no: nat) {
    0 <= k < |rows| && rows[k].noteNo == Some(no)
    && forall k2 :: k < k2 < |rows| ==> rows[k2].noteNo != Some(no)
  }

  /** The mapped section is the last one with that number. */
  lemma {:induction false} NoteMapLastWins(rows: seq<NoteRow>, k: nat, no: nat)
    requires LastNoteRow(rows, k, no)
    ensures no in NoteMapOf(rows) && NoteMapOf(rows)[no] == rows[k].sectionId
  {
    var n := |rows|;
    var init := rows[..n - 1];
    if k < n - 1 {
      forall k2 | k < k2 < |init| ensures init[k2].noteNo != Some(no) {
        assert init[k2] == rows[k2];
      }
      assert init[k] == rows[k];
      NoteMapLastWins(init, k, no);
    }
  }

  /** (line_item_id, note_nos, note_refs_raw) of a fact. */
  datatype FactNotes = FactNotes(lineItem: LineItemKey, noteNos: Option<seq<nat>>,
                                 noteRefsRaw: Option<string>)

  datatype NoteLink = NoteLink(lineItem: LineItemKey, noteNo: nat, sectionId: Option<string>,
                               confidence: real)

  /** The note numbers a fact row contributes: note_nos when the column
      exists, else the numbers split_note_refs reads from note_refs_raw;
      rows where that column is NULL are not selected. */
  function NumsOf(f: FactNotes, hasNoteNos: bool): seq<nat> {
    if hasNoteNos then (if f.noteNos.Some? then f.noteNos.value else [])
    else if f.noteRefsRaw.Some? then SplitNoteRefs(f.noteRefsRaw.value).noteNos
    else []
  }

  /** 0.95 with the section when a notes section with that number exists
      (and its id is not empty), else 0.20 with no section. */
  function LinkFor(noteMap: map<nat, string>, li: LineItemKey, no: nat): NoteLink {
    if no in noteMap && noteMap[no] != "" then NoteLink(li, no, Some(noteMap[no]), 0.95)
    else NoteLink(li, no, None, 0.20)
  }

  function LinksOfNums(noteMap: map<nat, string>, li: LineItemKey, nums: seq<nat>): seq<NoteLink> {
    if nums == [] then []
    else LinksOfNums(noteMap, li, nums[..|nums| - 1]) + [LinkFor(noteMap, li, nums[|nums| - 1])]
  }

  function Links(noteMap: map<nat, string>, facts: seq<FactNotes>, hasNoteNos: bool): seq<NoteLink> {
    if facts == [] then []
    else
      var f := facts[|facts| - 1];
      Links(noteMap, facts[..|facts| - 1], hasNoteNos) + LinksOfNums(noteMap, f.lineItem, NumsOf(f, hasNoteNos))
  }

  /** The inserts for one fact row: for each note number, the section of
      that number with confidence 0.95 when one exists, else none with
      0.20. */
  method AppendLinks(noteMap: map<nat, string>, li: LineItemKey, nums: seq<nat>, acc: seq<NoteLink>)
    returns (out: seq<NoteLink>)
    ensures out == acc + LinksOfNums(noteMap, li, nums)
  {
    out := acc;
    for k := 0 to |nums|
      invariant out == acc + LinksOfNums(noteMap, li, nums[..k])
    {
      var no := nums[k];
      var link: NoteLink;
      if no in noteMap && noteMap[no] != "" {
        link := NoteLink(li, no, Some(noteMap[no]), 0.95);
      } else {
        link := NoteLink(li, no, None, 0.20);
      }
      assert nums[..k + 1] == nums[..k] + [no];
      out := out + [link];
    }
    assert nums[..|nums|] == nums;
  }

  /** The inserts of build_note_links, in fact-row order. */
  method BuildNoteLinks(noteRows: seq<NoteRow>, facts: seq<FactNotes>, hasNoteNos: bool)
    returns (links: seq<NoteLink>)
    ensures links == Links(NoteMapOf(noteRows), facts, hasNoteNos)
  {
    var noteMap := NoteMapOf(noteRows);
    links := [];
    for i := 0 to |facts|
      invariant links == Links(noteMap, facts[..i], hasNoteNos)
    {
      var f := facts[i];
      var nums: seq<nat>;
      if hasNoteNos {
        nums := if f.noteNos.Some? then f.noteNos.value else [];
      } else if f.noteRefsRaw.Some? {
        var refs := SplitNoteRefs(f.noteRefsRaw.value);
        nums := refs.noteNos;
      } else {
        nums := [];
      }
      assert facts[..i + 1][..i] == facts[..i];
      links := AppendLinks(noteMap, f.lineItem, nums, links);
    }
    assert facts[..|facts|] == facts;
  }

  /** Some link is for the pair (li, no). */
  predicate HasPair(links: seq<NoteLink>, li: LineItemKey, no: nat) {
    exists k :: 0 <= k < |links| && links[k].lineItem == li && links[k].noteNo == no
  }

  /** Some selected fact row of line item li carries note number no. */
  predicate CarriedBy(facts: seq<FactNotes>, hasNoteNos: bool, li: LineItemKey, no: nat) {
    CarriedIn(facts, NumsFn(hasNoteNos), li, no)
  }

  function NumsFn(hasNoteNos: bool): FactNotes -> seq<nat> { f => NumsOf(f, hasNoteNos) }

  /** CarriedBy with the note numbers of a row given as a function. */
  predicate CarriedIn(facts: seq<FactNotes>, nums: FactNotes -> seq<nat>, li: LineItemKey, no: nat) {
    exists i :: 0 <= i < |facts| && facts[i].lineItem == li && no in nums(facts[i])
  }

  predicate AllLinkFor(noteMap: map<nat, string>, links: seq<NoteLink>) {
    forall k :: 0 <= k < |links| ==> links[k] == LinkFor(noteMap, links[k].lineItem, links[k].noteNo)
  }

  lemma HasPairAppend(a: seq<NoteLink>, b: seq<NoteLink>, li: LineItemKey, no: nat)
    ensures HasPair(a + b, li, no) <==> HasPair(a, li, no) || HasPair(b, li, no)
  {
    if HasPair(a + b, li, no) {
      var k :| 0 <= k < |a + b| && (a + b)[k].lineItem == li && (a + b)[k].noteNo == no;
      if k >= |a| {
        assert b[k - |a|] == (a + b)[k];
      }
    }
    if HasPair(b, li, no) {
      var k :| 0 <= k < |b| && b[k].lineItem == li && b[k].noteNo == no;
      assert (a + b)[k + |a|] == b[k];
    }
    if HasPair(a, li, no) {
      var k :| 0 <= k < |a| && a[k].lineItem == li && a[k].noteNo == no;
      assert (a + b)[k] == a[k];
    }
  }

  lemma AllLinkForAppend(noteMap: map<nat, string>, a: seq<NoteLink>, b: seq<NoteLink>)
    requires AllLinkFor(noteMap, a) && AllLinkFor(noteMap, b)
    ensures AllLinkFor(noteMap, a + b)
  {
    forall k | 0 <= k < |a + b|
      ensures (a + b)[k] == LinkFor(noteMap, (a + b)[k].lineItem, (a + b)[k].noteNo)
    {
      if k >= |a| {
        assert (a + b)[k] == b[k - |a|];
      } else {
        assert (a + b)[k] == a[k];
      }
    }
  }

  /** The links of one fact row: one per number it carries, each LinkFor. */
  lemma {:induction false} LinksOfNumsSpec(noteMap: map<nat, string>, li0: LineItemKey, nums: seq<nat>,
                                           li: LineItemKey, no: nat)
    ensures HasPair(LinksOfNums(noteMap, li0, nums), li, no) <==> li0 == li && no in nums
    ensures AllLinkFor(noteMap, LinksOfNums(noteMap, li0, nums))
  {
    if nums != [] {
      var n := |nums|;
      var init := nums[..n - 1];
      var l := LinkFor(noteMap, li0, nums[n - 1]);
      LinksOfNumsSpec(noteMap, li0, init, li, no);
      HasPairAppend(LinksOfNums(noteMap, li0, init), [l], li, no);
      AllLinkForAppend(noteMap, LinksOfNums(noteMap, li0, init), [l]);
      assert nums == init + [nums[n - 1]];
      assert HasPair([l], li, no) <==> li0 == li && no == nums[n - 1] by {
        if HasPair([l], li, no) {
          var k :| 0 <= k < 1 && [l][k].lineItem == li && [l][k].noteNo == no;
        }
        if li0 == li && no == nums[n - 1] {
          assert [l][0] == l;
        }
      }
    }
  }

  lemma CarriedBySnoc(facts: seq<FactNotes>, hasNoteNos: bool, li: LineItemKey, no: nat)
    requires facts != []
    ensures CarriedBy(facts, hasNoteNos, li, no) <==>
      CarriedBy(facts[..|facts| - 1], hasNoteNos, li, no)
      || (facts[|facts| - 1].lineItem == li && no in NumsOf(facts[|facts| - 1], hasNoteNos))
  {
    CarriedInSnoc(facts, NumsFn(hasNoteNos), li, no);
  }

  lemma CarriedInSnoc(facts: seq<FactNotes>, nums: FactNotes -> seq<nat>, li: LineItemKey, no: nat)
    requires facts != []
    ensures CarriedIn(facts, nums, li, no) <==>
      CarriedIn(facts[..|facts| - 1], nums, li, no)
      || (facts[|facts| - 1].lineItem == li && no in nums(facts[|facts| - 1]))
  {
    var n := |facts|;
    var init := facts[..n - 1];
    if CarriedIn(facts, nums, li, no) {
      var i :| 0 <= i < n && facts[i].lineItem == li && no in nums(facts[i]);
      if i < n - 1 {
        assert init[i] == facts[i];
      }
    }
    if CarriedIn(init, nums, li, no) {
      var i :| 0 <= i < n - 1 && init[i].lineItem == li && no in nums(init[i]);
      assert init[i] == facts[i];
    }
  }

  /** A link is inserted for (li, no) iff a selected fact row of li carries
      no. */
  lemma {:induction false} LinksPairs(noteMap: map<nat, string>, facts: seq<FactNotes>, hasNoteNos: bool,
                                      li: LineItemKey, no: nat)
    ensures HasPair(Links(noteMap, facts, hasNoteNos), li, no) <==> CarriedBy(facts, hasNoteNos, li, no)
  {
    if facts != [] {
      var n := |facts|;
      var init := facts[..n - 1];
      var f := facts[n - 1];
      LinksPairs(noteMap, init, hasNoteNos, li, no);
      LinksOfNumsSpec(noteMap, f.lineItem, NumsOf(f, hasNoteNos), li, no);
      HasPairAppend(Links(noteMap, init, hasNoteNos),
                    LinksOfNums(noteMap, f.lineItem, NumsOf(f, hasNoteNos)), li, no);
      CarriedBySnoc(facts, hasNoteNos, li, no);
    }
  }

  /** Every inserted link is LinkFor of its own pair. */
  lemma {:induction false} LinksAreLinkFor(noteMap: map<nat, string>, facts: seq<FactNotes>, hasNoteNos: bool)
    ensures AllLinkFor(noteMap, Links(noteMap, facts, hasNoteNos))
  {
    if facts != [] {
      var n := |facts|;
      var f := facts[n - 1];
      LinksAreLinkFor(noteMap, facts[..n - 1], hasNoteNos);
      LinksOfNumsSpec(noteMap, f.lineItem, NumsOf(f, hasNoteNos), f.lineItem, 0);
      AllLinkForAppend(noteMap, Links(noteMap, facts[..n - 1], hasNoteNos),
                       LinksOfNums(noteMap, f.lineItem, NumsOf(f, hasNoteNos)));
    }
  }

  /** Confidence 0.95 goes with a section id, 0.20 with none. */
  lemma LinkForSpec(noteMap: map<nat, string>, li: LineItemKey, no: nat)
    ensures LinkFor(noteMap, li, no).lineItem == li && LinkFor(noteMap, li, no).noteNo == no
    ensures LinkFor(noteMap, li, no).confidence == 0.95 <==> LinkFor(noteMap, li, no).sectionId.Some?
    ensures LinkFor(noteMap, li, no).sectionId.Some? <==> no in noteMap && noteMap[no] != ""
    ensures LinkFor(noteMap, li, no).sectionId.Some? ==>
      LinkFor(noteMap, li, no).sectionId.value == noteMap[no]
    ensures LinkFor(noteMap, li, no).confidence == 0.95 || LinkFor(noteMap, li, no).confidence == 0.20
  {
  }

  /** note_links after INSERT OR REPLACE keyed by (line_item_id, note_no). */
  type LinkTable = map<(LineItemKey, nat), NoteLink>

  function Upsert(table: LinkTable, links: seq<NoteLink>): LinkTable {
    if links == [] then table
    else
      var l := links[|links| - 1];
      Upsert(table, links[..|links| - 1])[(l.lineItem, l.noteNo) := l]
  }

  /** After the upsert, a (line item, note) pair holds a link iff it held one
      before or a link for it was inserted; an inserted pair holds LinkFor of
      it, whichever duplicate came last. */
  lemma {:induction false} UpsertSpec(noteMap: map<nat, string>, table: LinkTable, links: seq<NoteLink>,
                                      li: LineItemKey, no: nat)
    requires AllLinkFor(noteMap, links)
    ensures (li, no) in Upsert(table, links) <==> (li, no) in table || HasPair(links, li, no)
    ensures HasPair(links, li, no) ==> Upsert(table, links)[(li, no)] == LinkFor(noteMap, li, no)
  {
    if links != [] {
      var n := |links|;
      var init := links[..n - 1];
      assert AllLinkFor(noteMap, init) by {
        forall k | 0 <= k < |init| ensures init[k] == links[k] { }
      }
      UpsertSpec(noteMap, table, init, li, no);
      HasPairAppend(init, [links[n - 1]], li, no);
      assert links == init + [links[n - 1]];
      assert HasPair([links[n - 1]], li, no) <==> links[n - 1].lineItem == li && links[n - 1].noteNo == no by {
        if HasPair([links[n - 1]], li, no) {
          var k :| 0 <= k < 1 && [links[n - 1]][k].lineItem == li && [links[n - 1]][k].noteNo == no;
        }
        if links[n - 1].lineItem == li && links[n - 1].noteNo == no {
          assert [links[n - 1]][0] == links[n - 1];
        }
      }
    }
  }

  /** build_note_links leaves one link per (line item, note number) that a
      selected fact row carries, and no other: confidence 0.95 with the
      section id of the last notes section with that number when there is
      one, and 0.20 with no section otherwise. */
  lemma NoteLinksTable(noteRows: seq<NoteRow>, facts: seq<FactNotes>, hasNoteNos: bool,
                       li: LineItemKey, no: nat)
    ensures (li, no) in Upsert(map[], Links(NoteMapOf(noteRows), facts, hasNoteNos)) <==>
      CarriedBy(facts, hasNoteNos, li, no)
    ensures CarriedBy(facts, hasNoteNos, li, no) ==>
      Upsert(map[], Links(NoteMapOf(noteRows), facts, hasNoteNos))[(li, no)] ==
        LinkFor(NoteMapOf(noteRows), li, no)
  {
    var nm := NoteMapOf(noteRows);
    LinksPairs(nm, facts, hasNoteNos, li, no);
    LinksAreLinkFor(nm, facts, hasNoteNos);
    UpsertSpec(nm, map[], Links(nm, facts, hasNoteNos), li, no);
  }

  // ---------------------------------------------------------------------------
  // get_benchmark_company_name_from_db
  // ---------------------------------------------------------------------------

  predicate MapRowFor(target: string, year: int, b: BenchmarkMapRow) {
    b.corpCode == target && b.year == year
  }

  predicate MarketRowFor(code8: string, year: int, benchmarkOnly: bool, m: MarketRow) {
    m.corpCode == code8 && m.year == year && (benchmarkOnly ==> m.corpRole == "benchmark")
  }

  function FirstMapRow(bmap: seq<BenchmarkMapRow>, target: string, year: int): Option<nat> {
    FirstIndex(bmap, (b: BenchmarkMapRow) => MapRowFor(target, year, b))
  }

  function FirstMarketRow(market: seq<MarketRow>, code8: string, year: int, benchmarkOnly: bool): Option<nat> {
    FirstIndex(market, (m: MarketRow) => MarketRowFor(code8, year, benchmarkOnly, m))
  }

  /** `if r and r[0]: return str(r[0]).strip()` on the first market row. */
  function NameOfRow(market: seq<MarketRow>, i: Option<nat>): Option<string>
    requires i.Some? ==> i.value < |market|
  {
    if i.Some? && market[i.value].corpNameKr.Some? && market[i.value].corpNameKr.value != ""
    then Some(Strip(market[i.value].corpNameKr.value))
    else None
  }

  /** normalize_corp_code(bench_code); NULL becomes "". */
  function BenchCode8(b: BenchmarkMapRow): string {
    NormalizeCorpCode(if b.benchCorpCode.Some? then Text(b.benchCorpCode.value) else Missing)
  }

  function BenchmarkName(bmap: seq<BenchmarkMapRow>, market: seq<MarketRow>, target: string, year: int)
    : Option<string>
  {
    match FirstMapRow(bmap, target, year)
    case None => None
    case Some(i) =>
      var b := bmap[i];
      if b.benchmarkNameKr.Some? && Strip(b.benchmarkNameKr.value) != "" then
        Some(Strip(b.benchmarkNameKr.value))
      else
        var code8 := BenchCode8(b);
        var byRole := NameOfRow(market, FirstMarketRow(market, code8, year, true));
        if byRole.Some? then byRole
        else NameOfRow(market, FirstMarketRow(market, code8, year, false))
  }

  /** benchmark_name_kr of the map row is present and not blank. */
  predicate HasMapName(b: BenchmarkMapRow) {
    b.benchmarkNameKr.Some? && Strip(b.benchmarkNameKr.value) != ""
  }

  /** No benchmark_map row for (target, year) gives None. */
  lemma BenchmarkNameNoMapRow(bmap: seq<BenchmarkMapRow>, market: seq<MarketRow>, target: string, year: int)
    requires forall i :: 0 <= i < |bmap| ==> !MapRowFor(target, year, bmap[i])
    ensures BenchmarkName(bmap, market, target, year).None?
  {
  }

  /** A non-blank benchmark_name_kr on the first map row for (target, year)
      is the answer, stripped, whatever market_data holds. */
  lemma BenchmarkNameFromMap(bmap: seq<BenchmarkMapRow>, market: seq<MarketRow>, target: string, year: int,
                             i: nat)
    requires i < |bmap| && MapRowFor(target, year, bmap[i]) && HasMapName(bmap[i])
    requires forall j :: 0 <= j < i ==> !MapRowFor(target, year, bmap[j])
    ensures BenchmarkName(bmap, market, target, year) == Some(Strip(bmap[i].benchmarkNameKr.value))
  {
    assert FirstMapRow(bmap, target, year) == Some(i);
  }

  /** Without a map name the answer comes from market_data: the first row of
      the benchmark's code and year with role "benchmark" wins when its name
      is not empty. */
  lemma BenchmarkNamePrefersRole(bmap: seq<BenchmarkMapRow>, market: seq<MarketRow>, target: string, year: int,
                                 i: nat, j: nat)
    requires i < |bmap| && MapRowFor(target, year, bmap[i]) && !HasMapName(bmap[i])
    requires forall i2 :: 0 <= i2 < i ==> !MapRowFor(target, year, bmap[i2])
    requires j < |market| && MarketRowFor(BenchCode8(bmap[i]), year, true, market[j])
    requires forall j2 :: 0 <= j2 < j ==> !MarketRowFor(BenchCode8(bmap[i]), year, true, market[j2])
    requires market[j].corpNameKr.Some? && market[j].corpNameKr.value != ""
    ensures BenchmarkName(bmap, market, target, year) == Some(Strip(market[j].corpNameKr.value))
  {
    assert FirstMapRow(bmap, target, year) == Some(i);
    assert FirstMarketRow(market, BenchCode8(bmap[i]), year, true) == Some(j);
  }

  /** Without a map name and without a usable benchmark-role row, the first
      row of the code and year in any role decides. */
  lemma BenchmarkNameAnyRole(bmap: seq<BenchmarkMapRow>, market: seq<MarketRow>, target: string, year: int,
                             i: nat)
    requires i < |bmap| && MapRowFor(target, year, bmap[i]) && !HasMapName(bmap[i])
    requires forall i2 :: 0 <= i2 < i ==> !MapRowFor(target, year, bmap[i2])
    requires NameOfRow(market, FirstMarketRow(market, BenchCode8(bmap[i]), year, true)).None?
    ensures BenchmarkName(bmap, market, target, year) ==
      NameOfRow(market, FirstMarketRow(market, BenchCode8(bmap[i]), year, false))
  {
    assert FirstMapRow(bmap, target, year) == Some(i);
  }

  /** market[j] answers the query for (code8, year) with the name v. */
  predicate NameFrom(market: seq<MarketRow>, code8: string, year: int, benchmarkOnly: bool, j: int, v: string) {
    0 <= j < |market| && MarketRowFor(code8, year, benchmarkOnly, market[j])
    && market[j].corpNameKr.Some? && market[j].corpNameKr.value != ""
    && v == Strip(market[j].corpNameKr.value)
  }

  /** A market name, when found, belongs to the first row of its query and
      is that row's non-empty corp_name_kr, stripped; None means the first
      row is missing or has no name. */
  lemma NameOfRowSpec(market: seq<MarketRow>, code8: string, year: int, benchmarkOnly: bool)
    ensures var i := FirstMarketRow(market, code8, year, benchmarkOnly);
      NameOfRow(market, i).Some? <==> i.Some? && NameFrom(market, code8, year, benchmarkOnly, i.value, NameOfRow(market, i).GetOr(""))
  {
  }

  lemma NameOfRowStripped(market: seq<MarketRow>, i: Option<nat>)
    requires i.Some? ==> i.value < |market|
    ensures NameOfRow(market, i).Some? ==> Strip(NameOfRow(market, i).value) == NameOfRow(market, i).value
  {
    if NameOfRow(market, i).Some? {
      StripOfStripped(NameOfRow(market, i).value);
    }
  }

  /** A name found is always stripped. */
  lemma BenchmarkNameStripped(bmap: seq<BenchmarkMapRow>, market: seq<MarketRow>, target: string, year: int)
    ensures BenchmarkName(bmap, market, target, year).Some? ==>
      Strip(BenchmarkName(bmap, market, target, year).value) == BenchmarkName(bmap, market, target, year).value
  {
    match FirstMapRow(bmap, target, year)
    case None =>
    case Some(i) =>
      if HasMapName(bmap[i]) {
        StripOfStripped(Strip(bmap[i].benchmarkNameKr.value));
      } else {
        var code8 := BenchCode8(bmap[i]);
        NameOfRowStripped(market, FirstMarketRow(market, code8, year, true));
        NameOfRowStripped(market, FirstMarketRow(market, code8, year, false));
      }
  }

  /** A market name of only spaces is truthy, so the lookup can return "". */
  lemma BenchmarkNameBlank(target: string, year: int, code: string)
    requires |code| == 8 && IsDigits(code)
    ensures var bmap := [BenchmarkMapRow(target, year, None, Some(code))];
      var market := [MarketRow(code, Some(" "), None, None, year, None, None, None, None, "rcept_date", "benchmark")];
      BenchmarkName(bmap, market, target, year) == Some("")
  {
    var bmap := [BenchmarkMapRow(target, year, None, Some(code))];
    assert FirstMapRow(bmap, target, year) == Some(0);
    assert DigitsOnly(code) == code;
    assert BenchCode8(bmap[0]) == code;
    assert Strip(" ") == "" by {
      StripAllSpace(" ");
    }
  }
}
