/** Whitespace normalisation, corp-code padding, note-reference splitting and
    number parsing for statement cells (src/utils/normalize.py). */
module Normalize {
  import opened Common

  // ---------------------------------------------------------------------------
  // normalize_space: re.sub(r"\s+", " ", s).strip()
  // ---------------------------------------------------------------------------

  /** Every maximal run of whitespace replaced by one ' ' (the regex substitution). */
  function CollapseSpace(s: string): (r: string)
    decreases |s|
  {
    if s == [] then []
    else if IsSpace(s[0]) then " " + CollapseSpace(LStrip(s))
    else [s[0]] + CollapseSpace(s[1..])
  }

  /** The substitution leaves no whitespace but ' ' and no two adjacent spaces. */
  lemma {:induction false} CollapseSpaceShape(s: string)
    ensures SingleSpaced(CollapseSpace(s))
    ensures (CollapseSpace(s) != [] && CollapseSpace(s)[0] == ' ') <==> (s != [] && IsSpace(s[0]))
    ensures CollapseSpace(s) == [] <==> s == []
    decreases |s|
  {
    if s == [] {
    } else if IsSpace(s[0]) {
      var t := LStrip(s);
      CollapseSpaceShape(t);
      var r := " " + CollapseSpace(t);
      assert forall k :: 1 <= k < |r| ==> r[k] == CollapseSpace(t)[k - 1];
    } else {
      CollapseSpaceShape(s[1..]);
      var r := [s[0]] + CollapseSpace(s[1..]);
      assert forall k :: 1 <= k < |r| ==> r[k] == CollapseSpace(s[1..])[k - 1];
    }
  }

  function NormalizeSpace(s: string): string {
    Strip(CollapseSpace(s))
  }

  /** The only whitespace is ' ' and no two spaces are adjacent. */
  predicate SingleSpaced(t: string) {
    (forall k :: 0 <= k < |t| && IsSpace(t[k]) ==> t[k] == ' ')
    && (forall k :: 0 <= k < |t| - 1 ==> !(t[k] == ' ' && t[k + 1] == ' '))
  }

  /** What normalize_space promises: single-spaced, nothing at either end. */
  predicate SpaceNormal(t: string) {
    SingleSpaced(t) && (t == [] || (!IsSpace(t[0]) && !IsSpace(t[|t| - 1])))
  }

  /** The non-whitespace characters of s, in order. */
  function Ink(s: string): string {
    if s == [] then [] else (if IsSpace(s[0]) then [] else [s[0]]) + Ink(s[1..])
  }

  lemma {:induction false} InkOfLeadingSpace(s: string)
    ensures Ink(LStrip(s)) == Ink(s)
    decreases |s|
  {
    if s != [] && IsSpace(s[0]) {
      InkOfLeadingSpace(s[1..]);
    }
  }

  lemma {:induction false} InkOfCollapse(s: string)
    ensures Ink(CollapseSpace(s)) == Ink(s)
    decreases |s|
  {
    if s == [] {
    } else if IsSpace(s[0]) {
      var t := LStrip(s);
      InkOfCollapse(t);
      InkOfLeadingSpace(s);
      assert CollapseSpace(s) == " " + CollapseSpace(t);
      assert Ink(" " + CollapseSpace(t)) == Ink(CollapseSpace(t)) by {
        assert (" " + CollapseSpace(t))[1..] == CollapseSpace(t);
      }
    } else {
      InkOfCollapse(s[1..]);
      assert ([s[0]] + CollapseSpace(s[1..]))[1..] == CollapseSpace(s[1..]);
    }
  }

  lemma {:induction false} InkOfStrip(s: string)
    ensures Ink(Strip(s)) == Ink(s)
  {
    InkOfLeadingSpace(s);
    InkOfTrailingSpace(LStrip(s));
  }

  lemma {:induction false} InkOfTrailingSpace(s: string)
    ensures Ink(RStrip(s)) == Ink(s)
    decreases |s|
  {
    if s != [] && IsSpace(s[|s| - 1]) {
      var p := s[..|s| - 1];
      InkOfTrailingSpace(p);
      InkAppend(p, [s[|s| - 1]]);
      assert s == p + [s[|s| - 1]];
    }
  }

  lemma {:induction false} InkAppend(a: string, b: string)
    ensures Ink(a + b) == Ink(a) + Ink(b)
    decreases |a|
  {
    if a != [] {
      InkAppend(a[1..], b);
      assert (a + b)[1..] == a[1..] + b;
    } else {
      assert a + b == b;
    }
  }

  /** normalize_space keeps every non-whitespace character, in order, and
      leaves a single-spaced string with nothing at either end. */
  lemma NormalizeSpaceShape(s: string)
    ensures SpaceNormal(NormalizeSpace(s))
    ensures Ink(NormalizeSpace(s)) == Ink(s)
  {
    var c := CollapseSpace(s);
    CollapseSpaceShape(s);
    var l := LStrip(c);
    var t := RStrip(l);
    LStripSuffix(c);
    assert t == l[..|t|];
    forall k | 0 <= k < |t|
      ensures t[k] == c[|c| - |l| + k]
    {
    }
    assert SingleSpaced(t) by {
      forall k | 0 <= k < |t| - 1
        ensures !(t[k] == ' ' && t[k + 1] == ' ')
      {
        assert t[k] == c[|c| - |l| + k] && t[k + 1] == c[|c| - |l| + k + 1];
      }
    }
    InkOfCollapse(s);
    InkOfStrip(c);
  }

  lemma {:induction false} CollapseFixed(t: string)
    requires SingleSpaced(t)
    ensures CollapseSpace(t) == t
    decreases |t|
  {
    if t == [] {
    } else if IsSpace(t[0]) {
      assert t[1..] == [] || !IsSpace(t[1]);
      assert LStrip(t[1..]) == t[1..];
      assert LStrip(t) == t[1..];
      CollapseFixed(t[1..]);
      assert t == " " + t[1..];
    } else {
      CollapseFixed(t[1..]);
      assert t == [t[0]] + t[1..];
    }
  }

  /** normalize_space is idempotent. */
  lemma NormalizeSpaceIdempotent(s: string)
    ensures NormalizeSpace(NormalizeSpace(s)) == NormalizeSpace(s)
  {
    var t := NormalizeSpace(s);
    NormalizeSpaceShape(s);
    CollapseFixed(t);
    StripOfStripped(t);
  }

  // ---------------------------------------------------------------------------
  // normalize_corp_code
  // ---------------------------------------------------------------------------

  /** A spreadsheet cell as pandas hands it over: NaN/None, a number (already
      truncated to an int by int(x)), or text. */
  datatype Cell = Missing | Number(n: int) | Text(s: string)

  function NormalizeCorpCode(x: Cell): (r: string)
    ensures x.Missing? ==> r == ""
    ensures !x.Missing? ==> |r| >= 8
    ensures forall k :: 0 <= k < |r| ==> IsDigit(r[k])
  {
    match x
    case Missing => ""
    case Number(n) => ZFill(DigitsOnly(IntToString(n)), 8)
    case Text(s) => ZFill(DigitsOnly(s), 8)
  }

  /** The padded code ends with exactly the digits of the input, in order, and
      is never cut to 8: a longer digit string is kept whole. */
  lemma NormalizeCorpCodeKeepsDigits(s: string)
    ensures NormalizeCorpCode(Text(s))[|NormalizeCorpCode(Text(s))| - |DigitsOnly(s)|..] == DigitsOnly(s)
    ensures |NormalizeCorpCode(Text(s))| == Max(8, |DigitsOnly(s)|)
  {
  }

  /** A number is written in decimal before padding: 1234 becomes "00001234". */
  lemma NormalizeCorpCodeOfNumber(n: nat)
    ensures NormalizeCorpCode(Number(n)) == ZFill(NatToString(n), 8)
  {
    assert DigitsOnly(NatToString(n)) == NatToString(n);
  }

  // ---------------------------------------------------------------------------
  // split_note_refs: _NOTE_RE = r"\(\s*주\s*([0-9,\s]+)\)"
  // ---------------------------------------------------------------------------

  predicate IsNoteBodyChar(c: char) { IsDigit(c) || c == ',' || IsSpace(c) }

  /** Length of the run of whitespace starting at i. */
  function SpaceRun(s: string, i: nat): (n: nat)
    requires i <= |s|
    ensures i + n <= |s|
    ensures forall k :: i <= k < i + n ==> IsSpace(s[k])
    ensures i + n == |s| || !IsSpace(s[i + n])
    decreases |s| - i
  {
    if i < |s| && IsSpace(s[i]) then 1 + SpaceRun(s, i + 1) else 0
  }

  /** Length of the run of [0-9,\s] characters starting at i. */
  function BodyRun(s: string, i: nat): (n: nat)
    requires i <= |s|
    ensures i + n <= |s|
    ensures forall k :: i <= k < i + n ==> IsNoteBodyChar(s[k])
    ensures i + n == |s| || !IsNoteBodyChar(s[i + n])
    decreases |s| - i
  {
    if i < |s| && IsNoteBodyChar(s[i]) then 1 + BodyRun(s, i + 1) else 0
  }

  /** One match of the marker: s[start..end], whose character run between '주'
      and the closing ')' is s[lo..hi]. */
  datatype Marker = Marker(start: nat, lo: nat, hi: nat, end: nat)

  /** The marker matched at position i, if any. Because ')' is not in the body
      class, the backtracking regex succeeds exactly when the maximal body run
      after '주' is non-empty and is followed by ')'. */
  function MatchAt(s: string, i: nat): (m: Option<Marker>)
    requires i <= |s|
    ensures m.Some? ==> m.value.start == i && i < m.value.lo <= m.value.hi < m.value.end <= |s|
    ensures m.Some? ==>
      (s[i] == '(' && s[m.value.lo - 1] == '주' && s[m.value.hi] == ')' && m.value.end == m.value.hi + 1)
    ensures m.Some? ==> forall k :: m.value.lo <= k < m.value.hi ==> IsNoteBodyChar(s[k])
  {
    if i < |s| && s[i] == '(' then
      var j := i + 1 + SpaceRun(s, i + 1);
      if j < |s| && s[j] == '주' then
        var n := BodyRun(s, j + 1);
        if n > 0 && j + 1 + n < |s| && s[j + 1 + n] == ')' then
          Some(Marker(i, j + 1, j + 1 + n, j + 2 + n))
        else None
      else None
    else None
  }

  /** re.search from position `from`: the leftmost match at or after it. */
  function FirstMatch(s: string, from: nat): (m: Option<Marker>)
    requires from <= |s|
    ensures m.Some? ==> from <= m.value.start <= |s| && MatchAt(s, m.value.start) == m
    decreases |s| - from
  {
    if MatchAt(s, from).Some? then MatchAt(s, from)
    else if from == |s| then None
    else FirstMatch(s, from + 1)
  }

  /** re.search semantics: the match found is the leftmost one, and None means
      no position matches. */
  lemma FirstMatchLeftmost(s: string, from: nat)
    requires from <= |s|
    ensures FirstMatch(s, from).Some? ==>
      forall i :: from <= i < FirstMatch(s, from).value.start ==> MatchAt(s, i).None?
    ensures FirstMatch(s, from).None? ==> forall i :: from <= i <= |s| ==> MatchAt(s, i).None?
  {
    if FirstMatch(s, from).Some? {
      forall i | from <= i < FirstMatch(s, from).value.start ensures MatchAt(s, i).None? {
        FirstMatchSkips(s, from, i);
      }
    } else {
      NoFirstMatch(s, from);
    }
  }

  lemma {:induction false} FirstMatchSkips(s: string, from: nat, i: nat)
    requires from <= |s| && FirstMatch(s, from).Some? && from <= i < FirstMatch(s, from).value.start
    ensures MatchAt(s, i).None?
    decreases |s| - from
  {
    if i > from {
      assert MatchAt(s, from) != FirstMatch(s, from);
      assert FirstMatch(s, from) == FirstMatch(s, from + 1);
      FirstMatchSkips(s, from + 1, i);
    }
  }

  lemma {:induction false} NoFirstMatch(s: string, from: nat)
    requires from <= |s| && FirstMatch(s, from).None?
    ensures forall i :: from <= i <= |s| ==> MatchAt(s, i).None?
    decreases |s| - from
  {
    assert MatchAt(s, from).None?;
    if from < |s| {
      assert FirstMatch(s, from) == FirstMatch(s, from + 1);
      NoFirstMatch(s, from + 1);
    }
  }

  /** re.sub(_NOTE_RE, "", s[from..]): every match removed, scanning left to right. */
  function RemoveMarkers(s: string, from: nat): (r: string)
    requires from <= |s|
    ensures |r| <= |s| - from
    decreases |s| - from
  {
    match FirstMatch(s, from)
    case None => s[from..]
    case Some(m) => s[from..m.start] + RemoveMarkers(s, m.end)
  }

  predicate IsNoteSep(c: char) { c == ',' || IsSpace(c) }

  function DropSeps(x: string): (r: string)
    ensures |r| <= |x| && r == x[|x| - |r|..]
    ensures r == [] || !IsNoteSep(r[0])
  {
    if x != [] && IsNoteSep(x[0]) then DropSeps(x[1..]) else x
  }

  /** re.split(r"[,\s]+", x). */
  function SplitSeps(x: string): (r: seq<string>)
    ensures |r| >= 1
    decreases |x|
  {
    if x == [] then [[]]
    else if IsNoteSep(x[0]) then [[]] + SplitSeps(DropSeps(x))
    else
      var rest := SplitSeps(x[1..]);
      [[x[0]] + rest[0]] + rest[1..]
  }

  /** int(tok) for every token with tok.isdigit(), in order. */
  function DigitTokens(toks: seq<string>): (ns: seq<nat>)
    ensures |ns| <= |toks|
  {
    if toks == [] then []
    else (if IsDigits(toks[0]) then [DigitsValue(toks[0])] else []) + DigitTokens(toks[1..])
  }

  datatype NoteRefs = NoteRefs(clean: string, noteNos: seq<nat>, raw: string)

  function SplitNoteRefs(s: string): NoteRefs {
    if s == [] then NoteRefs("", [], "")
    else
      match FirstMatch(s, 0)
      case None => NoteRefs(Strip(s), [], "")
      case Some(m) =>
        var raw := Strip(s[m.lo..m.hi]);
        NoteRefs(Strip(RemoveMarkers(s, 0)), DigitTokens(SplitSeps(raw)), raw)
  }

  /** Empty input and input without a marker. */
  lemma SplitNoteRefsNoMarker(s: string)
    ensures s == [] ==> SplitNoteRefs(s) == NoteRefs("", [], "")
    ensures FirstMatch(s, 0).None? ==> SplitNoteRefs(s) == NoteRefs(Strip(s), [], "")
  {
  }

  // Round trip: a label followed by one marker written from a list of note numbers.

  function JoinNums(ns: seq<nat>): (r: string)
    requires |ns| > 0
    ensures |r| > 0 && IsDigit(r[0]) && IsDigit(r[|r| - 1])
    ensures forall k :: 0 <= k < |r| ==> IsDigit(r[k]) || r[k] == ','
  {
    if |ns| == 1 then NatToString(ns[0])
    else NatToString(ns[0]) + "," + JoinNums(ns[1..])
  }

  function ToStrings(ns: seq<nat>): (r: seq<string>)
    ensures |r| == |ns|
    ensures forall k :: 0 <= k < |r| ==> r[k] == NatToString(ns[k])
  {
    if ns == [] then [] else [NatToString(ns[0])] + ToStrings(ns[1..])
  }

  lemma {:induction false} SplitDigitsThenRest(d: string, rest: string)
    requires IsDigits(d)
    requires rest == [] || IsNoteSep(rest[0])
    ensures SplitSeps(d + rest) == [d + SplitSeps(rest)[0]] + SplitSeps(rest)[1..]
    decreases |d|
  {
    var x := d + rest;
    var S := SplitSeps(rest);
    assert x[0] == d[0] && x[1..] == d[1..] + rest;
    SplitSepsCons(x);
    if |d| > 1 {
      SplitDigitsThenRest(d[1..], rest);
      assert [d[0]] + (d[1..] + S[0]) == d + S[0];
    } else {
      assert d == [d[0]] && d[1..] + rest == rest;
    }
  }

  /** A token character starts the first piece. */
  lemma SplitSepsCons(x: string)
    requires x != [] && !IsNoteSep(x[0])
    ensures SplitSeps(x) == [[x[0]] + SplitSeps(x[1..])[0]] + SplitSeps(x[1..])[1..]
  {
  }

  lemma {:induction false} SplitJoinNums(ns: seq<nat>)
    requires |ns| > 0
    ensures SplitSeps(JoinNums(ns)) == ToStrings(ns)
    decreases |ns|
  {
    var d := NatToString(ns[0]);
    if |ns| == 1 {
      SplitDigitsAlone(d);
    } else {
      var tail := JoinNums(ns[1..]);
      SplitJoinNums(ns[1..]);
      SplitDigitsComma(d, tail);
      assert ToStrings(ns) == [d] + ToStrings(ns[1..]);
    }
  }

  lemma SplitDigitsAlone(d: string)
    requires IsDigits(d)
    ensures SplitSeps(d) == [d]
  {
    SplitDigitsThenRest(d, []);
    assert d + [] == d;
    assert SplitSeps([]) == [[]];
  }

  lemma SplitDigitsComma(d: string, tail: string)
    requires IsDigits(d) && tail != [] && !IsNoteSep(tail[0])
    ensures SplitSeps(d + "," + tail) == [d] + SplitSeps(tail)
  {
    var rest := "," + tail;
    assert d + "," + tail == d + rest;
    SplitDigitsThenRest(d, rest);
    SplitAfterComma(tail);
    assert d + [] == d;
  }

  lemma SplitAfterComma(tail: string)
    requires tail != [] && !IsNoteSep(tail[0])
    ensures SplitSeps("," + tail) == [[]] + SplitSeps(tail)
  {
    var rest := "," + tail;
    assert rest[1..] == tail;
    assert DropSeps(tail) == tail;
    assert DropSeps(rest) == tail;
  }

  lemma {:induction false} DigitTokensOfStrings(ns: seq<nat>)
    ensures DigitTokens(ToStrings(ns)) == ns
  {
    if ns != [] {
      DigitTokensOfStrings(ns[1..]);
      assert ToStrings(ns)[1..] == ToStrings(ns[1..]);
    }
  }

  /** Splitting undoes writing: a label without '(' followed by
      "(주" + "n1,n2,..." + ")" gives back the stripped label, the note numbers
      in order and the numbers' text, e.g. "매출채권(주4,28)" gives
      ("매출채권", [4, 28], "4,28"). */
  lemma SplitNoteRefsRoundTrip(name: string, ns: seq<nat>)
    requires '(' !in name
    requires |ns| > 0
    ensures SplitNoteRefs(name + "(주" + JoinNums(ns) + ")")
      == NoteRefs(Strip(name), ns, JoinNums(ns))
  {
    var body := JoinNums(ns);
    var m := TrailingMarker(name, body);
    NoteBodyTokens(ns);
    SplitNoteRefsAt(name + "(주" + body + ")", m, name, body);
  }

  /** The numbers' text strips to itself and its tokens are the numbers. */
  lemma NoteBodyTokens(ns: seq<nat>)
    requires |ns| > 0
    ensures Strip(JoinNums(ns)) == JoinNums(ns)
    ensures DigitTokens(SplitSeps(JoinNums(ns))) == ns
  {
    StripOfStripped(JoinNums(ns));
    SplitJoinNums(ns);
    DigitTokensOfStrings(ns);
  }

  lemma SplitNoteRefsAt(s: string, m: Marker, clean: string, raw: string)
    requires s != [] && FirstMatch(s, 0) == Some(m)
    requires RemoveMarkers(s, 0) == clean && m.lo <= m.hi <= |s| && s[m.lo..m.hi] == raw
    ensures SplitNoteRefs(s) == NoteRefs(Strip(clean), DigitTokens(SplitSeps(Strip(raw))), Strip(raw))
  {
  }

  /** The marker written after a '('-free label is the first match, and
      removing matches leaves the label. */
  lemma TrailingMarker(name: string, body: string) returns (m: Marker)
    requires '(' !in name
    requires |body| > 0 && forall k :: 0 <= k < |body| ==> IsDigit(body[k]) || body[k] == ','
    ensures var s := name + "(주" + body + ")";
      m == Marker(|name|, |name| + 2, |name| + 2 + |body|, |s|)
      && FirstMatch(s, 0) == Some(m) && RemoveMarkers(s, 0) == name
      && s[m.lo..m.hi] == body
  {
    var s := name + "(주" + body + ")";
    var L := |name|;
    m := Marker(L, L + 2, L + 2 + |body|, L + 3 + |body|);
    MarkerAfterName(name, body, m);
    NoMatchInName(name, body);
    FirstMatchFinds(s, 0, m);
    assert s[..L] == name;
    RemoveTrailingMarker(s, m, name);
  }

  lemma MarkerAfterName(name: string, body: string, m: Marker)
    requires |body| > 0 && forall k :: 0 <= k < |body| ==> IsDigit(body[k]) || body[k] == ','
    requires m == Marker(|name|, |name| + 2, |name| + 2 + |body|, |name| + 3 + |body|)
    ensures var s := name + "(주" + body + ")";
      MatchAt(s, |name|) == Some(m) && s[m.lo..m.hi] == body && m.end == |s|
  {
    var s := name + "(주" + body + ")";
    var L := |name|;
    assert s[L] == '(' && s[L + 1] == '주';
    assert SpaceRun(s, L + 1) == 0;
    assert s[L + 2..L + 2 + |body|] == body;
    assert s[L + 2 + |body|] == ')';
    BodyRunExact(s, L + 2, |body|);
  }

  lemma NoMatchInName(name: string, body: string)
    requires '(' !in name
    ensures var s := name + "(주" + body + ")";
      forall i :: 0 <= i < |name| ==> MatchAt(s, i).None?
  {
    var s := name + "(주" + body + ")";
    forall i | 0 <= i < |name| ensures MatchAt(s, i).None? {
      assert s[i] == name[i];
    }
  }

  lemma RemoveTrailingMarker(s: string, m: Marker, name: string)
    requires m.start == |name| <= |s| && m.end == |s| && s[..|name|] == name
    requires FirstMatch(s, 0) == Some(m)
    ensures RemoveMarkers(s, 0) == name
  {
    assert FirstMatch(s, |s|) == None by {
      assert MatchAt(s, |s|).None?;
    }
    assert RemoveMarkers(s, |s|) == [];
    assert s[0..|name|] == name;
  }

  lemma {:induction false} BodyRunExact(s: string, i: nat, n: nat)
    requires i + n < |s|
    requires forall k :: i <= k < i + n ==> IsNoteBodyChar(s[k])
    requires !IsNoteBodyChar(s[i + n])
    ensures BodyRun(s, i) == n
    decreases n
  {
    if n > 0 {
      BodyRunExact(s, i + 1, n - 1);
    }
  }

  lemma {:induction false} FirstMatchFinds(s: string, from: nat, m: Marker)
    requires from <= m.start <= |s|
    requires MatchAt(s, m.start) == Some(m)
    requires forall i :: from <= i < m.start ==> MatchAt(s, i).None?
    ensures FirstMatch(s, from) == Some(m)
    decreases m.start - from
  {
    if from < m.start {
      assert MatchAt(s, from).None? && from < |s|;
      FirstMatchFinds(s, from + 1, m);
    } else {
      assert MatchAt(s, from).Some?;
    }
  }

  // ---------------------------------------------------------------------------
  // parse_num
  // ---------------------------------------------------------------------------

  function Pow10(n: nat): (p: nat)
    ensures p >= 1
  {
    if n == 0 then 1 else 10 * Pow10(n - 1)
  }

  /** Index of the first '.' in u, or |u|. */
  function FirstDot(u: string): (p: nat)
    ensures p <= |u|
    ensures p < |u| ==> u[p] == '.'
    ensures forall k :: 0 <= k < p ==> u[k] != '.'
  {
    if u == [] then 0 else if u[0] == '.' then 0 else 1 + FirstDot(u[1..])
  }

  /** `\d+(\.\d+)?` */
  predicate UnsignedSyntax(u: string) {
    var p := FirstDot(u);
    IsDigits(u[..p]) && (p == |u| || IsDigits(u[p + 1..]))
  }

  /** `^\-?\d+(\.\d+)?$` */
  predicate NumberSyntax(t: string) {
    if StartsWith(t, "-") then UnsignedSyntax(t[1..]) else UnsignedSyntax(t)
  }

  function UnsignedValue(u: string): real
    requires UnsignedSyntax(u)
  {
    var p := FirstDot(u);
    if p == |u| then DigitsValue(u) as real
    else DigitsValue(u[..p]) as real + DigitsValue(u[p + 1..]) as real / Pow10(|u| - p - 1) as real
  }

  /** float(t) for text that passed the syntax check. */
  function DecimalValue(t: string): real
    requires NumberSyntax(t)
  {
    if StartsWith(t, "-") then -UnsignedValue(t[1..]) else UnsignedValue(t)
  }

  predicate IsBlankOrDash(t: string) {
    t == "" || t == "-" || t == "—" || t == "–"
  }

  /** parse_num: None for None, blank or a dash; otherwise the text after
      whitespace normalisation is read by ParseNormalized. */
  function ParseNum(text: Option<string>): Option<real> {
    match text
    case None => None
    case Some(raw) =>
      var t := NormalizeSpace(raw);
      if IsBlankOrDash(t) then None else ParseNormalized(t)
  }

  /** No text, blank text and a lone dash (after whitespace normalisation)
      are no number. */
  lemma ParseNumBlank(text: Option<string>)
    ensures text.None? ==> ParseNum(text).None?
    ensures text.Some? && IsBlankOrDash(NormalizeSpace(text.value)) ==> ParseNum(text).None?
  {
  }

  /** "(x)" negates x, commas are dropped, and anything that is not
      `-?digits(.digits)?` is None. */
  function ParseNormalized(t: string): Option<real> {
    var bare := RemoveChar(Unwrapped(t), ',');
    if !NumberSyntax(bare) then None
    else if Wrapped(t) then Some(-DecimalValue(bare)) else Some(DecimalValue(bare))
  }

  /** Accounting negatives are written in parentheses. */
  predicate Wrapped(t: string) { StartsWith(t, "(") && EndsWith(t, ")") }

  function Unwrapped(t: string): string {
    if Wrapped(t) then
      assert t[..1][0] == t[0] && t[|t| - 1..][0] == t[|t| - 1];
      t[1..|t| - 1]
    else t
  }

  /** Text the number syntax rejects (after unwrapping and dropping commas)
      is no number, whatever else it holds. */
  lemma ParseNormalizedRejects(t: string)
    requires !NumberSyntax(RemoveChar(Unwrapped(t), ','))
    ensures ParseNormalized(t) == None
  {
  }

  /** Plain number text reads as float(t). */
  lemma ParseNormalizedPlain(t: string)
    requires !Wrapped(t) && RemoveChar(t, ',') == t && NumberSyntax(t)
    ensures ParseNormalized(t) == Some(DecimalValue(t))
  {
  }

  /** "(u)" reads as -float(u with its commas dropped). */
  lemma ParseNormalizedWrapped(w: string, u: string, d: string)
    requires w == "(" + u + ")" && RemoveChar(u, ',') == d && NumberSyntax(d)
    ensures ParseNormalized(w) == Some(-DecimalValue(d))
  {
    assert Wrapped(w) && Unwrapped(w) == u;
  }

  /** int(d) as a float. */
  function DigitsReal(d: string): real
    requires forall k :: 0 <= k < |d| ==> IsDigit(d[k])
  {
    DigitsValue(d) as real
  }

  lemma DigitsSyntax(d: string)
    requires IsDigits(d)
    ensures FirstDot(d) == |d| && NumberSyntax(d) && DecimalValue(d) == DigitsReal(d)
  {
    assert d[..|d|] == d;
  }

  /** A plain digit string parses to its value (so does str(n) for every n). */
  lemma ParseNumOfDigits(d: string)
    requires IsDigits(d)
    ensures ParseNum(Some(d)) == Some(DigitsReal(d))
  {
    DigitsNormal(d);
    DigitsSyntax(d);
    assert d[0] != '(';
    RemoveCharAbsent(d, ',');
    ParseNormalizedPlain(d);
    ParseNumOfNormal(d, d);
  }

  /** Wrapped in parentheses, a digit string parses to its negation (the
      accounting convention for negative amounts). */
  lemma ParseNumOfWrappedDigits(d: string)
    requires IsDigits(d)
    ensures ParseNum(Some("(" + d + ")")) == Some(-DigitsReal(d))
  {
    WrappedDigitsNormal(d);
    WrappedDigitsNormalized(d);
    ParseNumOfNormal("(" + d + ")", "(" + d + ")");
  }

  lemma WrappedDigitsNormalized(d: string)
    requires IsDigits(d)
    ensures ParseNormalized("(" + d + ")") == Some(-DigitsReal(d))
  {
    DigitsSyntax(d);
    NoCommaInDigits(d);
    ParseNormalizedWrapped("(" + d + ")", d, d);
  }

  lemma ParseNumOfNormal(raw: string, t: string)
    requires NormalizeSpace(raw) == t && !IsBlankOrDash(t)
    ensures ParseNum(Some(raw)) == ParseNormalized(t)
  {
  }

  lemma DigitsNormal(d: string)
    requires IsDigits(d)
    ensures NormalizeSpace(d) == d && !IsBlankOrDash(d)
  {
    NoSpaceNormal(d);
    assert d[0] != '-';
  }

  lemma WrappedDigitsNormal(d: string)
    requires IsDigits(d)
    ensures NormalizeSpace("(" + d + ")") == "(" + d + ")" && !IsBlankOrDash("(" + d + ")")
  {
    var w := "(" + d + ")";
    NoSpaceNormal(w);
    assert w[0] == '(';
  }

  /** A string without whitespace is left alone by normalize_space. */
  lemma NoSpaceNormal(t: string)
    requires forall k :: 0 <= k < |t| ==> !IsSpace(t[k])
    ensures NormalizeSpace(t) == t
  {
    CollapseFixed(t);
    StripOfStripped(t);
  }

  /** A dash padded with blanks normalises to the bare dash, which is no number. */
  lemma ParseNumOfPaddedDash(pre: string, post: string)
    requires forall k :: 0 <= k < |pre| ==> IsSpace(pre[k])
    requires forall k :: 0 <= k < |post| ==> IsSpace(post[k])
    ensures ParseNum(Some(pre + "-" + post)) == None
  {
    PaddedStrip(pre, "-", post);
  }

  /** Blanks around a single non-blank character vanish under normalize_space. */
  lemma PaddedStrip(pre: string, x: string, post: string)
    requires |x| == 1 && !IsSpace(x[0])
    requires forall k :: 0 <= k < |pre| ==> IsSpace(pre[k])
    requires forall k :: 0 <= k < |post| ==> IsSpace(post[k])
    ensures NormalizeSpace(pre + x + post) == x
  {
    NormalizeSpaceShape(pre + x + post);
    InkOfPadded(pre, x, post);
    SingleInkStrip(NormalizeSpace(pre + x + post), x);
  }

  lemma InkOfPadded(pre: string, x: string, post: string)
    requires |x| == 1 && !IsSpace(x[0])
    requires forall k :: 0 <= k < |pre| ==> IsSpace(pre[k])
    requires forall k :: 0 <= k < |post| ==> IsSpace(post[k])
    ensures Ink(pre + x + post) == x
  {
    InkAppend(pre + x, post);
    InkAppend(pre, x);
    InkOfAllSpace(pre);
    InkOfAllSpace(post);
    assert Ink(x) == x by { assert x[1..] == []; }
  }

  lemma {:induction false} InkOfAllSpace(s: string)
    requires forall k :: 0 <= k < |s| ==> IsSpace(s[k])
    ensures Ink(s) == []
    decreases |s|
  {
    if s != [] {
      InkOfAllSpace(s[1..]);
    }
  }

  /** A whitespace-normal string with one visible character is that character. */
  lemma SingleInkStrip(r: string, x: string)
    requires SpaceNormal(r) && |x| == 1 && Ink(r) == x
    ensures r == x
  {
    assert r != [];
    InkBothEnds(r);
    assert Ink(r) == [r[0]] + Ink(r[1..]);
  }

  /** Visible first and last characters both reach the ink. */
  lemma InkBothEnds(r: string)
    requires r != [] && !IsSpace(r[0]) && !IsSpace(r[|r| - 1])
    ensures |r| >= 2 ==> |Ink(r)| >= 2
  {
    if |r| >= 2 {
      var p := r[..|r| - 1];
      InkAppend(p, [r[|r| - 1]]);
      assert r == p + [r[|r| - 1]];
      assert p[0] == r[0];
      assert Ink(p) == [p[0]] + Ink(p[1..]);
      assert Ink([r[|r| - 1]]) == [r[|r| - 1]];
    }
  }

  lemma {:induction false} RemoveCharAppend(x: string, y: string, c: char)
    ensures RemoveChar(x + y, c) == RemoveChar(x, c) + RemoveChar(y, c)
    decreases |x|
  {
    if x == [] {
      assert x + y == y;
    } else {
      var h := if x[0] == c then [] else [x[0]];
      RemoveCharAppend(x[1..], y, c);
      assert (x + y)[0] == x[0] && (x + y)[1..] == x[1..] + y;
      assert RemoveChar(x + y, c) == h + RemoveChar(x[1..] + y, c);
      assert RemoveChar(x, c) == h + RemoveChar(x[1..], c);
    }
  }

  /** Thousands separators are dropped inside an accounting negative:
      "(1,234)" is -1234. */
  lemma ParseNumOfThousands(a: string, b: string)
    requires IsDigits(a) && IsDigits(b)
    ensures ParseNum(Some("(" + a + "," + b + ")")) == Some(-DigitsReal(a + b))
  {
    ThousandsNormal(a, b);
    ThousandsNormalized(a, b);
    ParseNumOfNormal("(" + a + "," + b + ")", "(" + a + "," + b + ")");
  }

  lemma ThousandsNormal(a: string, b: string)
    requires IsDigits(a) && IsDigits(b)
    ensures NormalizeSpace("(" + a + "," + b + ")") == "(" + a + "," + b + ")"
    ensures !IsBlankOrDash("(" + a + "," + b + ")")
  {
    var w := "(" + a + "," + b + ")";
    NoSpaceNormal(w);
    assert w[0] == '(';
  }

  lemma ThousandsNormalized(a: string, b: string)
    requires IsDigits(a) && IsDigits(b)
    ensures ParseNormalized("(" + a + "," + b + ")") == Some(-DigitsReal(a + b))
  {
    ThousandsShape(a, b);
    ThousandsBare(a, b);
    ParseNormalizedWrapped("(" + (a + "," + b) + ")", a + "," + b, a + b);
  }

  lemma ThousandsBare(a: string, b: string)
    requires IsDigits(a) && IsDigits(b)
    ensures RemoveChar(a + "," + b, ',') == a + b
    ensures NumberSyntax(a + b) && DecimalValue(a + b) == DigitsReal(a + b)
  {
    DropComma(a, b);
    DigitsSyntax(a + b);
  }

  lemma ThousandsShape(a: string, b: string)
    requires IsDigits(a) && IsDigits(b)
    ensures "(" + a + "," + b + ")" == "(" + (a + "," + b) + ")"
  {
  }

  lemma DropComma(a: string, b: string)
    requires IsDigits(a) && IsDigits(b)
    ensures RemoveChar(a + "," + b, ',') == a + b && IsDigits(a + b)
  {
    RemoveCharAroundComma(a, b);
    NoCommaInDigits(a);
    NoCommaInDigits(b);
    DigitsAppend(a, b);
  }

  lemma RemoveCharAroundComma(a: string, b: string)
    ensures RemoveChar(a + "," + b, ',') == RemoveChar(a, ',') + RemoveChar(b, ',')
  {
    RemoveCharSingle(',');
    RemoveCharAround(a, ",", b, ',');
  }

  lemma RemoveCharSingle(c: char)
    ensures RemoveChar([c], c) == []
  {
    assert [c][1..] == [];
  }

  lemma RemoveCharAround(a: string, m: string, b: string, c: char)
    requires RemoveChar(m, c) == []
    ensures RemoveChar(a + m + b, c) == RemoveChar(a, c) + RemoveChar(b, c)
  {
    RemoveCharAppend(a + m, b, c);
    RemoveCharAppend(a, m, c);
    assert RemoveChar(a, c) + [] == RemoveChar(a, c);
  }

  lemma NoCommaInDigits(d: string)
    requires IsDigits(d)
    ensures RemoveChar(d, ',') == d
  {
    RemoveCharAbsent(d, ',');
  }

  lemma DigitsAppend(a: string, b: string)
    requires IsDigits(a) && IsDigits(b)
    ensures IsDigits(a + b)
  {
  }

  /** The exact value of the decimal a.f. */
  function FractionValue(a: string, f: string): real
    requires IsDigits(a) && IsDigits(f)
  {
    DigitsValue(a) as real + DigitsValue(f) as real / Pow10(|f|) as real
  }

  /** A decimal fraction is read exactly: "1234.5" is 1234 + 5/10. */
  lemma ParseNumOfFraction(a: string, f: string)
    requires IsDigits(a) && IsDigits(f)
    ensures ParseNum(Some(a + "." + f)) == Some(FractionValue(a, f))
  {
    FractionSyntax(a, f);
    FractionPlain(a, f);
  }

  lemma FractionPlain(a: string, f: string)
    requires IsDigits(a) && IsDigits(f) && NumberSyntax(a + "." + f)
    ensures ParseNum(Some(a + "." + f)) == Some(DecimalValue(a + "." + f))
  {
    FractionChars(a, f);
    ParseNumOfPlain(a + "." + f);
  }

  lemma FractionChars(a: string, f: string)
    requires IsDigits(a) && IsDigits(f)
    ensures forall k :: 0 <= k < |a + "." + f| ==> !IsSpace((a + "." + f)[k]) && (a + "." + f)[k] != ','
    ensures |a + "." + f| >= 3 && (a + "." + f)[0] == a[0]
  {
  }

  /** Number text with no blanks, commas or parentheses reads as float(t). */
  lemma ParseNumOfPlain(t: string)
    requires |t| >= 2 && t[0] != '('
    requires forall k :: 0 <= k < |t| ==> !IsSpace(t[k]) && t[k] != ','
    requires NumberSyntax(t)
    ensures ParseNum(Some(t)) == Some(DecimalValue(t))
  {
    NoSpaceNormal(t);
    ParseNumOfNormal(t, t);
    RemoveCharAbsent(t, ',');
    ParseNormalizedPlain(t);
  }

  lemma FractionSyntax(a: string, f: string)
    requires IsDigits(a) && IsDigits(f)
    ensures NumberSyntax(a + "." + f)
    ensures DecimalValue(a + "." + f) == FractionValue(a, f)
  {
    var t := a + "." + f;
    FractionSplit(a, f);
    assert !StartsWith(t, "-");
    assert UnsignedValue(t) == FractionValue(a, f);
  }

  /** The dot of a + "." + f is the first one and splits it into a and f. */
  lemma FractionSplit(a: string, f: string)
    requires IsDigits(a) && IsDigits(f)
    ensures FirstDot(a + "." + f) == |a|
    ensures (a + "." + f)[..|a|] == a && (a + "." + f)[|a| + 1..] == f
    ensures |a + "." + f| == |a| + 1 + |f| && (a + "." + f)[0] != '-'
  {
    var t := a + "." + f;
    assert t == a + ("." + f);
    FirstDotAfterDigits(a, "." + f);
    assert t[..|a|] == a && t[|a| + 1..] == f;
  }

  lemma {:induction false} FirstDotAfterDigits(a: string, rest: string)
    requires forall k :: 0 <= k < |a| ==> IsDigit(a[k])
    requires rest != [] && rest[0] == '.'
    ensures FirstDot(a + rest) == |a|
    decreases |a|
  {
    if a == [] {
      assert a + rest == rest;
    } else {
      FirstDotAfterDigits(a[1..], rest);
      assert (a + rest)[1..] == a[1..] + rest;
    }
  }
}
