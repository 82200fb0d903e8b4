/** The Markdown-to-PDF stage of scripts/build_report_pdf.py: evidence-label
    rewriting, the section sort key, inline bold/escaping, pipe tables and
    the line dispatch that turns a section's Markdown into a list of
    flowables (paragraphs, spacers and tables). Fonts, styles and the
    reportlab drawing itself are outside the model. */
module ReportPdf {
  import opened Common
  import opened Json
  import Templates

  // ---------------------------------------------------------------------------
  // Shared scanning helpers
  // ---------------------------------------------------------------------------

  /** The end of the whitespace run starting at i (a greedy `\s*`). */
  function SkipSpace(s: string, i: nat): (j: nat)
    requires i <= |s|
    ensures i <= j <= |s|
    ensures forall k :: i <= k < j ==> IsSpace(s[k])
    ensures j == |s| || !IsSpace(s[j])
    decreases |s| - i
  {
    if i < |s| && IsSpace(s[i]) then SkipSpace(s, i + 1) else i
  }

  /** The first position at or after i holding c, if any. */
  function FindChar(s: string, i: nat, c: char): (r: Option<nat>)
    requires i <= |s|
    ensures r.Some? ==> i <= r.value < |s| && s[r.value] == c
    ensures r.Some? ==> forall k :: i <= k < r.value ==> s[k] != c
    ensures r.None? ==> forall k :: i <= k < |s| ==> s[k] != c
    decreases |s| - i
  {
    if i == |s| then None else if s[i] == c then Some(i) else FindChar(s, i + 1, c)
  }

  // ---------------------------------------------------------------------------
  // sanitize_evidence_labels
  // ---------------------------------------------------------------------------

  const LABEL_OPEN := "(근거:"
  /** The three parameter names a label carries, in order. */
  const NOTE_KEY := "note_no"
  const SECTION_KEY := "section_code"
  const CHUNK_KEY := "chunk_id"

  /** The label pattern's opening "(근거:" stands at i. */
  predicate OpensAt(s: string, i: nat) {
    i + |LABEL_OPEN| <= |s| && s[i..i + |LABEL_OPEN|] == LABEL_OPEN
  }

  /** The lower-case ASCII word w stands at i, letters compared without
      regard to case (the pattern is compiled with IGNORECASE). */
  predicate WordAt(s: string, i: nat, w: string) {
    i + |w| <= |s| && Lower(s[i..i + |w|]) == w
  }

  /** `\s*<key>\s*=\s*([^<stop>]+?)\s*<stop>` from i: the text between
      '=' and the first stop character (it must not be empty), and the
      position after the stop character. The lazy group followed by
      `\s*<stop>` cannot pass the first stop character, so the group is this
      text less some blanks at either end, and the group's strip is the
      text's strip. */
  function FieldAt(s: string, i: nat, key: string, stop: char): (r: Option<(string, nat)>)
    requires i <= |s|
    ensures r.Some? ==> i < r.value.1 <= |s|
  {
    var a := SkipSpace(s, i);
    if !WordAt(s, a, key) then None else ValueAt(s, SkipSpace(s, a + |key|), stop)
  }

  /** `=\s*([^<stop>]+?)\s*<stop>` at b. */
  function ValueAt(s: string, b: nat, stop: char): (r: Option<(string, nat)>)
    requires b <= |s|
    ensures r.Some? ==> b < r.value.1 <= |s|
  {
    if b == |s| || s[b] != '=' then None
    else
      match FindChar(s, b + 1, stop)
      case None => None
      case Some(e) => if e == b + 1 then None else Some((s[b + 1..e], e + 1))
  }

  /** The human-readable label that replaces a match. */
  function HumanLabel(note: string, sec: string, cid: string): string {
    "(근거: 주석 " + note + ", " + sec + ", 근거ID " + cid + ")"
  }

  /** EVID_RE matched at i: the replacement text and the end of the match. */
  function LabelAt(s: string, i: nat): (r: Option<(string, nat)>)
    requires i <= |s|
    ensures r.Some? ==> i < r.value.1 <= |s|
  {
    if !OpensAt(s, i) then None
    else
      match FieldAt(s, i + |LABEL_OPEN|, NOTE_KEY, ',')
      case None => None
      case Some((note, p)) =>
        match FieldAt(s, p, SECTION_KEY, ',')
        case None => None
        case Some((sec, q)) =>
          match FieldAt(s, q, CHUNK_KEY, ')')
          case None => None
          case Some((cid, e)) => Some((HumanLabel(Strip(note), Strip(sec), Strip(cid)), e))
  }

  /** re.sub from position i: leftmost matches, scanning on after each one. */
  function SanitizeFrom(s: string, i: nat): string
    requires i <= |s|
    decreases |s| - i
  {
    if i == |s| then []
    else
      match LabelAt(s, i)
      case Some((rep, e)) => rep + SanitizeFrom(s, e)
      case None => [s[i]] + SanitizeFrom(s, i + 1)
  }

  /** sanitize_evidence_labels: an empty text is returned as is. */
  function SanitizeEvidenceLabels(text: string): string {
    if text == "" then text else SanitizeFrom(text, 0)
  }

  /** A text with no "(근거:" anywhere is left unchanged. */
  lemma SanitizeNoLabel(text: string)
    requires forall i :: 0 <= i < |text| ==> !OpensAt(text, i)
    ensures SanitizeEvidenceLabels(text) == text
  {
    if text != "" {
      SanitizeFromNoLabel(text, 0);
    }
  }

  lemma {:induction false} SanitizeFromNoLabel(s: string, i: nat)
    requires i <= |s|
    requires forall k :: i <= k < |s| ==> !OpensAt(s, k)
    ensures SanitizeFrom(s, i) == s[i..]
    decreases |s| - i
  {
    if i < |s| {
      SanitizeFromNoLabel(s, i + 1);
      assert s[i..] == [s[i]] + s[i + 1..];
    }
  }

  /** A field as the report generator writes it: " <key>=<value><stop>". */
  function FieldText(key: string, v: string, stop: char): string {
    " " + key + "=" + v + [stop]
  }

  /** A key that starts with a non-blank and has no upper-case letter. */
  predicate PlainKey(key: string) {
    key != [] && !IsSpace(key[0]) && forall k :: 0 <= k < |key| ==> !IsUpper(key[k])
  }

  lemma {:induction false} LowerPlain(x: string)
    requires forall k :: 0 <= k < |x| ==> !IsUpper(x[k])
    ensures Lower(x) == x
  {
    if x != [] {
      LowerPlain(x[1..]);
      assert x == [x[0]] + x[1..];
    }
  }

  /** A plain key written at j is matched there. */
  lemma WordPlaced(s: string, j: nat, key: string)
    requires PlainKey(key) && j + |key| <= |s| && s[j..j + |key|] == key
    ensures WordAt(s, j, key)
  {
    LowerPlain(key);
  }

  lemma LabelKeysPlain()
    ensures PlainKey(NOTE_KEY) && PlainKey(SECTION_KEY) && PlainKey(CHUNK_KEY)
  {
  }

  /** s holds the field " <key>=<value><stop>" at i, the value being
      n characters without the stop character. */
  predicate FieldPlaced(s: string, i: nat, key: string, stop: char, n: nat) {
    i + |key| + n + 3 <= |s|
    && s[i] == ' ' && s[i + 1 + |key|] == '=' && s[i + 2 + |key| + n] == stop
    && s[i + 1..i + 1 + |key|] == key
    && stop !in s[i + 2 + |key|..i + 2 + |key| + n]
  }

  /** A field written plainly is placed where it was written. */
  lemma FieldTextPlaced(pre: string, key: string, stop: char, v: string, post: string)
    requires stop !in v
    ensures FieldPlaced(pre + FieldText(key, v, stop) + post, |pre|, key, stop, |v|)
    ensures (pre + FieldText(key, v, stop) + post)[|pre| + 2 + |key|..|pre| + 2 + |key| + |v|] == v
  {
  }

  /** A placed field reads back its value, stripped. */
  lemma FieldAtPlaced(s: string, i: nat, key: string, stop: char, n: nat)
    requires key != [] && !IsSpace(key[0]) && n > 0 && FieldPlaced(s, i, key, stop, n)
    requires WordAt(s, i + 1, key)
    ensures FieldAt(s, i, key, stop) == Some((s[i + 2 + |key|..i + 2 + |key| + n], i + 3 + |key| + n))
  {
    assert s[i + 1] == s[i + 1..i + 1 + |key|][0];
    assert SkipSpace(s, i) == i + 1;
    var b := i + 1 + |key|;
    assert SkipSpace(s, b) == b;
    var e := b + 1 + n;
    forall k | b + 1 <= k < e ensures s[k] != stop {
      assert s[k] == s[b + 1..e][k - b - 1];
    }
    FindCharAt(s, b + 1, stop, e);
    assert ValueAt(s, b, stop).Some?;
    assert ValueAt(s, b, stop) == Some((s[b + 1..e], e + 1));
  }

  lemma {:induction false} FindCharAt(s: string, i: nat, c: char, e: nat)
    requires i <= e < |s| && s[e] == c
    requires forall k :: i <= k < e ==> s[k] != c
    ensures FindChar(s, i, c) == Some(e)
    decreases e - i
  {
    if i < e {
      FindCharAt(s, i + 1, c, e);
    }
  }

  /** The label as the report generator writes it:
      "(근거: note_no=N, section_code=S, chunk_id=C)". */
  function MachineLabel(note: string, sec: string, cid: string): string {
    LABEL_OPEN + FieldText(NOTE_KEY, note, ',') + FieldText(SECTION_KEY, sec, ',')
      + FieldText(CHUNK_KEY, cid, ')')
  }

  /** A label written with the internal parameter names becomes the
      human-readable one, each value stripped. */
  lemma SanitizeLabel(note: string, sec: string, cid: string)
    requires note != [] && sec != [] && cid != []
    requires ',' !in note && ',' !in sec && ')' !in cid
    ensures SanitizeEvidenceLabels(MachineLabel(note, sec, cid))
            == HumanLabel(Strip(note), Strip(sec), Strip(cid))
  {
    var s := MachineLabel(note, sec, cid);
    var p, q := MachineFields(s, note, sec, cid);
    LabelAtFields(s, 0, note, p, sec, q, cid, |s|);
    SanitizeWhole(s, HumanLabel(Strip(note), Strip(sec), Strip(cid)));
  }

  /** The three fields of a machine label, read in turn. */
  lemma MachineFields(s: string, note: string, sec: string, cid: string) returns (p: nat, q: nat)
    requires note != [] && sec != [] && cid != []
    requires ',' !in note && ',' !in sec && ')' !in cid
    requires s == MachineLabel(note, sec, cid)
    ensures |LABEL_OPEN| <= |s| && s[0..|LABEL_OPEN|] == LABEL_OPEN && p <= |s| && q <= |s|
    ensures FieldAt(s, |LABEL_OPEN|, NOTE_KEY, ',') == Some((note, p))
    ensures FieldAt(s, p, SECTION_KEY, ',') == Some((sec, q))
    ensures FieldAt(s, q, CHUNK_KEY, ')') == Some((cid, |s|))
  {
    var f1 := FieldText(NOTE_KEY, note, ',');
    var f2 := FieldText(SECTION_KEY, sec, ',');
    var f3 := FieldText(CHUNK_KEY, cid, ')');
    p := NoteField(s, f1, f2, f3, note);
    q := SectionField(s, f1, f2, f3, sec, p);
    ChunkField(s, f1, f2, f3, cid, q);
  }

  lemma NoteField(s: string, f1: string, f2: string, f3: string, note: string) returns (p: nat)
    requires note != [] && ',' !in note && f1 == FieldText(NOTE_KEY, note, ',')
    requires s == LABEL_OPEN + f1 + f2 + f3
    ensures |LABEL_OPEN| <= |s| && s[0..|LABEL_OPEN|] == LABEL_OPEN
    ensures p == |LABEL_OPEN| + |f1| && p <= |s|
    ensures FieldAt(s, |LABEL_OPEN|, NOTE_KEY, ',') == Some((note, p))
  {
    p := |LABEL_OPEN| + |f1|;
    assert s == LABEL_OPEN + f1 + (f2 + f3);
    NoteReads(s, LABEL_OPEN, note, f2 + f3, |LABEL_OPEN|, |LABEL_OPEN| + |f1|);
  }

  lemma SectionField(s: string, f1: string, f2: string, f3: string, sec: string, p: nat) returns (q: nat)
    requires sec != [] && ',' !in sec && f2 == FieldText(SECTION_KEY, sec, ',')
    requires s == LABEL_OPEN + f1 + f2 + f3 && p == |LABEL_OPEN| + |f1|
    ensures q == p + |f2| && q <= |s|
    ensures FieldAt(s, p, SECTION_KEY, ',') == Some((sec, q))
  {
    q := p + |f2|;
    SectionReads(s, LABEL_OPEN + f1, sec, f3, |LABEL_OPEN| + |f1|, |LABEL_OPEN| + |f1| + |f2|);
  }

  lemma ChunkField(s: string, f1: string, f2: string, f3: string, cid: string, q: nat)
    requires cid != [] && ')' !in cid && f3 == FieldText(CHUNK_KEY, cid, ')')
    requires s == LABEL_OPEN + f1 + f2 + f3 && q == |LABEL_OPEN| + |f1| + |f2|
    ensures FieldAt(s, q, CHUNK_KEY, ')') == Some((cid, |s|))
  {
    var pre := LABEL_OPEN + f1 + f2;
    assert |pre| == q;
    assert s == pre + f3;
    ChunkReadsToEnd(s, pre, cid);
  }

  lemma ChunkReadsToEnd(s: string, pre: string, v: string)
    requires v != [] && ')' !in v && s == pre + FieldText(CHUNK_KEY, v, ')')
    ensures FieldAt(s, |pre|, CHUNK_KEY, ')') == Some((v, |s|))
  {
    assert s == pre + FieldText(CHUNK_KEY, v, ')') + [];
    ChunkReads(s, pre, v, [], |pre|, |s|);
  }

  /** A field written plainly between any two texts reads back its value. */
  lemma FieldReads(s: string, pre: string, key: string, stop: char, v: string, post: string)
    requires PlainKey(key) && v != [] && stop !in v
    requires s == pre + FieldText(key, v, stop) + post
    ensures FieldAt(s, |pre|, key, stop) == Some((v, |pre| + |FieldText(key, v, stop)|))
  {
    FieldTextPlaced(pre, key, stop, v, post);
    WordPlaced(s, |pre| + 1, key);
    FieldAtPlaced(s, |pre|, key, stop, |v|);
  }

  lemma NoteReads(s: string, pre: string, v: string, post: string, at: nat, end: nat)
    requires v != [] && ',' !in v && s == pre + FieldText(NOTE_KEY, v, ',') + post
    requires at == |pre| && end == |s| - |post|
    ensures at <= |s| && FieldAt(s, at, NOTE_KEY, ',') == Some((v, end))
  {
    LabelKeysPlain();
    FieldReads(s, pre, NOTE_KEY, ',', v, post);
  }

  lemma SectionReads(s: string, pre: string, v: string, post: string, at: nat, end: nat)
    requires v != [] && ',' !in v && s == pre + FieldText(SECTION_KEY, v, ',') + post
    requires at == |pre| && end == |s| - |post|
    ensures at <= |s| && FieldAt(s, at, SECTION_KEY, ',') == Some((v, end))
  {
    LabelKeysPlain();
    FieldReads(s, pre, SECTION_KEY, ',', v, post);
  }

  lemma ChunkReads(s: string, pre: string, v: string, post: string, at: nat, end: nat)
    requires v != [] && ')' !in v && s == pre + FieldText(CHUNK_KEY, v, ')') + post
    requires at == |pre| && end == |s| - |post|
    ensures at <= |s| && FieldAt(s, at, CHUNK_KEY, ')') == Some((v, end))
  {
    LabelKeysPlain();
    FieldReads(s, pre, CHUNK_KEY, ')', v, post);
  }

  /** The three fields read one after another make a match. */
  lemma LabelAtFields(s: string, i: nat, note: string, p: nat, sec: string, q: nat, cid: string, e: nat)
    requires i + |LABEL_OPEN| <= |s| && s[i..i + |LABEL_OPEN|] == LABEL_OPEN && p <= |s| && q <= |s|
    requires FieldAt(s, i + |LABEL_OPEN|, NOTE_KEY, ',') == Some((note, p))
    requires FieldAt(s, p, SECTION_KEY, ',') == Some((sec, q))
    requires FieldAt(s, q, CHUNK_KEY, ')') == Some((cid, e))
    ensures LabelAt(s, i) == Some((HumanLabel(Strip(note), Strip(sec), Strip(cid)), e))
  {
  }

  /** A text that is one match from end to end is replaced as a whole. */
  lemma SanitizeWhole(s: string, rep: string)
    requires s != [] && LabelAt(s, 0) == Some((rep, |s|))
    ensures SanitizeEvidenceLabels(s) == rep
  {
    assert SanitizeFrom(s, |s|) == [];
  }

  // ---------------------------------------------------------------------------
  // key_section_sort
  // ---------------------------------------------------------------------------

  /** The rank given to a section-id component that int() rejects (10**9). */
  const NON_INT_RANK: int := 1000000000

  /** One component of the section id: int(x), or NON_INT_RANK on ValueError. */
  function SectionPart(x: string): int {
    match PyInt(JStr(x))
    case Ok(v) => v
    case Err(_) => NON_INT_RANK
  }

  /** str(item.get("section_id", "")).strip(). */
  function SectionId(item: Dict, show: Show): string {
    Strip(PyStr(GetOr(item, "section_id", JStr("")), show))
  }

  /** The ranks of the components, in order. */
  function PartRanks(parts: seq<string>): (r: seq<int>)
    ensures |r| == |parts|
    ensures forall i :: 0 <= i < |parts| ==> r[i] == SectionPart(parts[i])
  {
    seq(|parts|, i requires 0 <= i < |parts| => SectionPart(parts[i]))
  }

  /** The sort key of a section JSON object: the ranks of the components of
      its id split on '.', then str(id). */
  function SectionKey(item: Dict, show: Show): (seq<int>, string) {
    (PartRanks(Split(SectionId(item, show), '.')), PyStr(GetOr(item, "id", JStr("")), show))
  }

  /** Python's list order on integer lists: element by element, a proper
      prefix first. */
  predicate IntsLess(a: seq<int>, b: seq<int>)
    decreases |a|
  {
    if a == [] then b != []
    else if b == [] then false
    else if a[0] != b[0] then a[0] < b[0]
    else IntsLess(a[1..], b[1..])
  }

  /** Python's tuple order on two sort keys. */
  predicate KeyLess(x: (seq<int>, string), y: (seq<int>, string)) {
    IntsLess(x.0, y.0) || (x.0 == y.0 && LexLess(x.1, y.1))
  }

  lemma {:induction false} IntsLessTransitive(a: seq<int>, b: seq<int>, c: seq<int>)
    requires IntsLess(a, b) && IntsLess(b, c)
    ensures IntsLess(a, c)
    decreases |a|
  {
    if a != [] && b != [] && c != [] && a[0] == b[0] && b[0] == c[0] {
      IntsLessTransitive(a[1..], b[1..], c[1..]);
    }
  }

  lemma {:induction false} IntsLessTotal(a: seq<int>, b: seq<int>)
    ensures IntsLess(a, b) || IntsLess(b, a) || a == b
    ensures !(IntsLess(a, b) && IntsLess(b, a))
    decreases |a|
  {
    if a != [] && b != [] && a[0] == b[0] {
      IntsLessTotal(a[1..], b[1..]);
      assert a == [a[0]] + a[1..] && b == [b[0]] + b[1..];
    }
  }

  /** The key order is a strict total order: transitive, and exactly one of
      x < y, y < x, x == y holds. */
  lemma KeyLessOrder(x: (seq<int>, string), y: (seq<int>, string), z: (seq<int>, string))
    ensures KeyLess(x, y) && KeyLess(y, z) ==> KeyLess(x, z)
    ensures KeyLess(x, y) || KeyLess(y, x) || x == y
    ensures !(KeyLess(x, y) && KeyLess(y, x))
  {
    IntsLessTotal(x.0, y.0);
    LexLessTotal(x.1, y.1);
    if KeyLess(x, y) && KeyLess(y, z) {
      if IntsLess(x.0, y.0) && IntsLess(y.0, z.0) {
        IntsLessTransitive(x.0, y.0, z.0);
      } else if x.0 == y.0 && y.0 == z.0 {
        LexLessTransitive(x.1, y.1, z.1);
      }
    }
  }

  /** A component of ASCII digits (possibly padded with blanks) counts by its
      numeric value, and every such value below 10**9 sorts before a
      component int() rejects. */
  lemma SectionPartDigits(x: string, y: string)
    requires IsDigits(Strip(x))
    requires PyInt(JStr(y)).Err?
    ensures SectionPart(x) == DigitsValue(Strip(x))
    ensures DigitsValue(Strip(x)) < NON_INT_RANK ==> SectionPart(x) < SectionPart(y)
  {
  }

  /** A two-component id "x.y" of ASCII digits gives the key [int(x), int(y)]. */
  lemma TwoPartKey(item: Dict, show: Show, x: string, y: string)
    requires IsDigits(x) && IsDigits(y)
    requires GetOr(item, "section_id", JStr("")) == JStr(x + "." + y)
    ensures SectionKey(item, show).0 == [DigitsValue(x), DigitsValue(y)]
  {
    DigitsStripped(x + "." + y, x, y);
    SplitDigits(x, y);
    DigitsRank(x);
    DigitsRank(y);
  }

  lemma DigitsStripped(s: string, x: string, y: string)
    requires IsDigits(x) && IsDigits(y) && s == x + "." + y
    ensures Strip(s) == s
  {
    assert s[0] == x[0] && s[|s| - 1] == y[|y| - 1];
    StripOfStripped(s);
  }

  lemma SplitDigits(x: string, y: string)
    requires IsDigits(x) && IsDigits(y)
    ensures Split(x + "." + y, '.') == [x, y]
  {
    assert Templates.Free(x, '.') && Templates.Free(y, '.') by {
      assert forall k :: 0 <= k < |x| ==> IsDigit(x[k]);
      assert forall k :: 0 <= k < |y| ==> IsDigit(y[k]);
    }
    assert x + "." + y == x + ['.'] + y;
    Templates.SplitAfter(x, '.', y);
    Templates.SplitFree(y, '.');
  }

  lemma DigitsRank(x: string)
    requires IsDigits(x)
    ensures SectionPart(x) == DigitsValue(x)
  {
    StripOfStripped(x);
  }

  /** Ids compare by their numbers, not their text: of two ids "x.y" and
      "x.z" the one with the smaller last number comes first. */
  lemma NumericSectionOrder(a: Dict, b: Dict, show: Show, x: string, y: string, z: string)
    requires IsDigits(x) && IsDigits(y) && IsDigits(z) && DigitsValue(y) < DigitsValue(z)
    requires GetOr(a, "section_id", JStr("")) == JStr(x + "." + y)
    requires GetOr(b, "section_id", JStr("")) == JStr(x + "." + z)
    ensures KeyLess(SectionKey(a, show), SectionKey(b, show))
  {
    TwoPartKey(a, show, x, y);
    TwoPartKey(b, show, x, z);
    PairLess(DigitsValue(x), DigitsValue(y), DigitsValue(z));
  }

  lemma PairLess(p: int, q: int, r: int)
    requires q < r
    ensures IntsLess([p, q], [p, r])
  {
    assert [p, q][1..] == [q] && [p, r][1..] == [r];
  }

  /** Section "1.2" sorts before section "1.10", the reverse of their text order. */
  lemma SectionTwoBeforeTen(a: Dict, b: Dict, show: Show)
    requires GetOr(a, "section_id", JStr("")) == JStr("1.2")
    requires GetOr(b, "section_id", JStr("")) == JStr("1.10")
    ensures KeyLess(SectionKey(a, show), SectionKey(b, show))
    ensures LexLess("1.10", "1.2")
  {
    assert "1.2" == "1" + "." + "2";
    assert "1.10" == "1" + "." + "10";
    assert DigitsValue("10") == 10 by {
      assert "10"[..1] == "1";
    }
    NumericSectionOrder(a, b, show, "1", "2", "10");
    TenBeforeTwoAsText();
  }

  lemma TenBeforeTwoAsText()
    ensures LexLess("1.10", "1.2")
  {
    assert "1.10" == "1." + "10" && "1.2" == "1." + "2";
    assert LexLess("10", "2");
  }

  /** items.sort(key=key_section_sort): an item may precede another when its
      key is not greater. */
  function SectionLe(show: Show): (Dict, Dict) -> bool {
    (a: Dict, b: Dict) => !KeyLess(SectionKey(b, show), SectionKey(a, show))
  }

  function SortSections(items: seq<Dict>, show: Show): seq<Dict> {
    SortBy(items, SectionLe(show))
  }

  /** The sorted sections are the same items, in key order. */
  lemma SortSectionsSpec(items: seq<Dict>, show: Show)
    ensures multiset(SortSections(items, show)) == multiset(items)
    ensures |SortSections(items, show)| == |items|
    ensures forall i, j :: 0 <= i < j < |items| ==>
      !KeyLess(SectionKey(SortSections(items, show)[j], show), SectionKey(SortSections(items, show)[i], show))
  {
    var le := SectionLe(show);
    assert TotalPreorder(le) by {
      forall a, b ensures le(a, b) || le(b, a) {
        KeyLessOrder(SectionKey(a, show), SectionKey(b, show), SectionKey(a, show));
      }
      forall a, b, c | le(a, b) && le(b, c) ensures le(a, c) {
        KeyLessOrder(SectionKey(c, show), SectionKey(b, show), SectionKey(a, show));
        KeyLessOrder(SectionKey(b, show), SectionKey(a, show), SectionKey(c, show));
        KeyLessOrder(SectionKey(c, show), SectionKey(a, show), SectionKey(b, show));
      }
    }
    SortBySorted(items, le);
    SortByMembers(items, le);
  }
}
