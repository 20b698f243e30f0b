/** The parsers of the AI actions' text output (packages/shared/src/ai-actions.ts):
    `LABEL: value` lines, a `LABEL:` line followed by `- item` lines, and a block of
    `Q:`/`A:` lines. Each regular expression is rendered over the text's lines, as
    the `m` flag reads it: `^` matches at the start of the text and after every `\n`,
    `.` matches anything but `\n`. Labels are plain upper-case words, so they carry no
    pattern syntax. */
module AiActions {
  import opened Outcomes
  import opened Strings
  import opened Seqs

  datatype SeoFields = SeoFields(
    metaTitle: string, metaDescription: string, keywords: seq<string>,
    ogTitle: string, ogDescription: string)

  datatype QA = QA(question: string, answer: string)

  datatype GeoFields = GeoFields(
    aiSummary: string, aiBestFor: seq<string>, aiIntents: seq<string>,
    aiKeyPoints: seq<string>, aiDifferentiators: seq<string>, aiCompetitors: seq<string>,
    aiFaq: seq<QA>)

  /** The lines of a text: `text.split('\n')`. */
  function Lines(text: string): seq<string> {
    Split(text, '\n')
  }

  // ---------------------------------------------------------------- the label scan

  /** The first match of `^LABEL:<rest of pattern>`: the lines are tried in order, and
      `rule` says what the rest of the pattern gives when it is matched against the text
      that follows `LABEL:` (`None` when it fails there, and the next line is tried). */
  function Scan(s: string, key: string, rule: string -> Option<string>): Option<string>
    decreases |s|
  {
    var here := if StartsWith(s, key + ":") then rule(s[|key| + 1..]) else None;
    if here.Some? then here
    else
      var line := BeforeFirst(s, '\n');
      if |line| < |s| then Scan(s[|line| + 1..], key, rule) else None
  }

  /** No line of `s` starts with `LABEL:`. */
  predicate NoLabelLine(lines: seq<string>, key: string) {
    forall j :: 0 <= j < |lines| ==> !StartsWith(lines[j], key + ":")
  }

  /** Without a `LABEL:` line, the pattern matches nowhere. */
  lemma {:induction false} ScanAbsent(s: string, key: string, rule: string -> Option<string>)
    requires '\n' !in key
    requires NoLabelLine(Lines(s), key)
    ensures Scan(s, key, rule) == None
    decreases |s|
  {
    var line := BeforeFirst(s, '\n');
    SplitFirst(s, '\n');
    StartsWithFirstPiece(s, key + ":", '\n');
    assert Lines(s)[0] == line;
    if |line| < |s| {
      var rest := s[|line| + 1..];
      assert Lines(s) == [line] + Lines(rest);
      assert forall j :: 0 <= j < |Lines(rest)| ==> Lines(rest)[j] == Lines(s)[j + 1];
      ScanAbsent(rest, key, rule);
    }
  }

  /** The match is found on the first `LABEL:` line when the rest of the pattern matches
      there. `Tail(s, k)` is the text from the start of line `k` on. */
  lemma {:induction false} ScanFirstLine(s: string, key: string, rule: string -> Option<string>, k: nat)
    requires '\n' !in key
    requires k < |Lines(s)| && StartsWith(Tail(s, k), key + ":")
    requires forall j :: 0 <= j < k ==> !StartsWith(Lines(s)[j], key + ":")
    requires rule(Tail(s, k)[|key| + 1..]).Some?
    ensures Scan(s, key, rule) == rule(Tail(s, k)[|key| + 1..])
    decreases k
  {
    if k > 0 {
      var rest := ScanSkipsLine(s, key, rule);
      forall j | 0 <= j < k - 1 ensures !StartsWith(Lines(rest)[j], key + ":") {
        assert Lines(rest)[j] == Lines(s)[j + 1];
      }
      ScanFirstLine(rest, key, rule, k - 1);
    }
  }

  /** A first line that does not start with `LABEL:` is skipped: the scan, the later lines
      and the tails carry on in the text after it. */
  lemma ScanSkipsLine(s: string, key: string, rule: string -> Option<string>) returns (rest: string)
    requires '\n' !in key
    requires 1 < |Lines(s)| && !StartsWith(Lines(s)[0], key + ":")
    ensures var line := BeforeFirst(s, '\n');
      |line| < |s| && rest == s[|line| + 1..] && Lines(s) == [line] + Lines(rest)
    ensures Scan(s, key, rule) == Scan(rest, key, rule)
  {
    var line := BeforeFirst(s, '\n');
    SplitFirst(s, '\n');
    assert |line| < |s|;
    rest := s[|line| + 1..];
    StartsWithFirstPiece(s, key + ":", '\n');
  }

  /** The text from the start of line `k` on. */
  function Tail(s: string, k: nat): string
    requires k < |Lines(s)|
    decreases k
  {
    if k == 0 then s
    else
      var line := BeforeFirst(s, '\n');
      SplitFirst(s, '\n');
      Tail(s[|line| + 1..], k - 1)
  }

  /** Line `k` is the part of its tail before the first line end. */
  lemma {:induction false} TailLine(s: string, k: nat)
    requires k < |Lines(s)|
    ensures BeforeFirst(Tail(s, k), '\n') == Lines(s)[k]
    decreases k
  {
    SplitFirst(s, '\n');
    if k > 0 {
      TailLine(s[|BeforeFirst(s, '\n')| + 1..], k - 1);
    } else {
      SplitHead(s, '\n');
    }
  }

  /** The tail after line `k` is the text of the following lines. */
  lemma {:induction false} TailNext(s: string, k: nat)
    requires k + 1 < |Lines(s)|
    ensures |Lines(s)[k]| < |Tail(s, k)|
    ensures Tail(s, k)[|Lines(s)[k]| + 1..] == Tail(s, k + 1)
    ensures Lines(Tail(s, k + 1)) == Lines(s)[k + 1..]
    decreases k
  {
    var line := BeforeFirst(s, '\n');
    SplitFirst(s, '\n');
    var rest := s[|line| + 1..];
    if k > 0 {
      TailNext(rest, k - 1);
      assert Lines(s)[k + 1..] == Lines(rest)[k..];
    } else {
      SplitHead(s, '\n');
      assert Lines(s)[1..] == Lines(rest);
    }
  }

  // ---------------------------------------------------------------- extractValue

  /** Only line ends. */
  predicate OnlyNewlines(s: string) {
    forall k :: 0 <= k < |s| ==> s[k] == '\n'
  }

  /** What `\s*(.+)` captures after `LABEL:`, trimmed. The greedy `\s*` takes the whole
      run of blanks, line ends included, and gives back one blank only when nothing
      else is left for `.+`: a label with nothing after it on its line takes the next
      non-blank line, and a text of line ends alone does not match. */
  function ValueAt(rest: string): Option<string> {
    var t := TrimStart(rest);
    if t == [] && OnlyNewlines(rest) then None
    else Some(Trim(BeforeFirst(t, '\n')))
  }

  /** `extractValue(output, key)`. */
  function ExtractValue(output: string, key: string): string {
    Scan(output, key, ValueAt).GetOr("")
  }

  /** No whitespace at either end. */
  predicate Trimmed(v: string) {
    v == [] || (!IsSpace(v[0]) && !IsSpace(v[|v| - 1]))
  }

  /** A value is trimmed and lies on one line. */
  lemma ExtractValueShape(output: string, key: string)
    ensures var v := ExtractValue(output, key); '\n' !in v && Trimmed(v)
  {
    ScanValueShape(output, key);
  }

  lemma {:induction false} ScanValueShape(s: string, key: string)
    ensures var r := Scan(s, key, ValueAt); r.Some? ==> '\n' !in r.value && Trimmed(r.value)
    decreases |s|
  {
    if StartsWith(s, key + ":") {
      ValueAtShape(s[|key| + 1..]);
    }
    var line := BeforeFirst(s, '\n');
    if |line| < |s| {
      ScanValueShape(s[|line| + 1..], key);
    }
  }

  lemma ValueAtShape(rest: string)
    ensures var r := ValueAt(rest); r.Some? ==> '\n' !in r.value && Trimmed(r.value)
  {
    var line := BeforeFirst(TrimStart(rest), '\n');
    BeforeFirstSpec(TrimStart(rest), '\n');
    TrimKeepsOut(line, '\n');
    TrimSpec(line);
  }

  /** Whatever the scan gives is what the rest of the pattern gave at some point. */
  lemma {:induction false} ScanResult(s: string, key: string, rule: string -> Option<string>, r: Option<string>)
    requires r == Scan(s, key, rule)
    ensures r.Some? ==> exists rest :: rule(rest) == r
    decreases |s|
  {
    var line := BeforeFirst(s, '\n');
    if StartsWith(s, key + ":") && rule(s[|key| + 1..]).Some? {
    } else if |line| < |s| {
      ScanResult(s[|line| + 1..], key, rule, r);
    }
  }

  /** The value of the first `LABEL:` line that has something after the label: the
      rest of that line, trimmed; and `''` when no line starts with the label. */
  lemma ExtractValueOfLine(output: string, key: string, k: nat)
    requires '\n' !in key
    requires k < |Lines(output)| && StartsWith(Lines(output)[k], key + ":")
    requires forall j :: 0 <= j < k ==> !StartsWith(Lines(output)[j], key + ":")
    requires !AllSpace(Lines(output)[k][|key| + 1..])
    ensures ExtractValue(output, key) == Trim(Lines(output)[k][|key| + 1..])
  {
    var line := Lines(output)[k];
    TailLine(output, k);
    var tail := Tail(output, k);
    StartsWithFirstPiece(tail, key + ":", '\n');
    BeforeFirstSpec(tail, '\n');
    BeforeFirstDrop(tail, |key| + 1, '\n');
    var rest := tail[|key| + 1..];
    assert BeforeFirst(rest, '\n') == line[|key| + 1..];
    TrimFirstPiece(rest, '\n');
    ScanFirstLine(output, key, ValueAt, k);
  }

  lemma ExtractValueAbsent(output: string, key: string)
    requires '\n' !in key
    requires NoLabelLine(Lines(output), key)
    ensures ExtractValue(output, key) == ""
  {
    ScanAbsent(output, key, ValueAt);
  }

  /** Because `\s*` crosses line ends, a label left empty takes the next line. */
  lemma EmptyValueTakesNextLine()
    ensures ExtractValue("AI_SUMMARY:\nBEST_FOR:", "AI_SUMMARY") == "BEST_FOR:"
  {
    var key, next := "AI_SUMMARY", "BEST_FOR:";
    var s := (key + ":") + ("\n" + next);
    assert s == "AI_SUMMARY:\nBEST_FOR:";
    assert StartsWith(s, key + ":") && s[|key| + 1..] == "\n" + next;
    ValueAtNextLine(next);
  }

  /** After a label with nothing else on its line, the next line is the value. */
  lemma ValueAtNextLine(next: string)
    requires next != [] && '\n' !in next && !IsSpace(next[0]) && !IsSpace(next[|next| - 1])
    ensures ValueAt("\n" + next) == Some(next)
  {
    var rest := "\n" + next;
    assert TrimStart(rest) == next by {
      assert rest[1..] == next;
    }
    BeforeFirstConcat(next, [], '\n');
    assert next + [] == next;
    TrimmedIsTrimFixpoint(next);
  }

  // ---------------------------------------------------------------- extractListItems

  /** Where `\s*\n` leaves off after `LABEL:`: just after the last line end of the run
      of blanks that follows the label (`None` when that run holds no line end). */
  function ListStart(rest: string): Option<string> {
    if rest == [] || !IsSpace(rest[0]) then None
    else
      var later := ListStart(rest[1..]);
      if later.Some? then later
      else if rest[0] == '\n' then Some(rest[1..]) else None
  }

  /** What `ListStart` skips is blank and ends with a line end; what it leaves starts
      with no line end among its leading blanks. */
  lemma {:induction false} ListStartSpec(rest: string)
    ensures var r := ListStart(rest);
      r.Some? ==> (
        && |r.value| < |rest| && rest[|rest| - |r.value|..] == r.value
        && AllSpace(rest[..|rest| - |r.value|]) && rest[|rest| - |r.value| - 1] == '\n'
        && (forall k :: 0 <= k < |r.value| - |TrimStart(r.value)| ==> r.value[k] != '\n'))
  {
    if rest != [] && IsSpace(rest[0]) {
      ListStartSpec(rest[1..]);
      var later := ListStart(rest[1..]);
      if later.Some? {
        var n := |rest| - |later.value|;
        assert rest[..n] == [rest[0]] + rest[1..][..n - 1];
      } else if rest[0] == '\n' {
        NoLineEndInLead(rest[1..]);
      }
    }
  }

  /** When `ListStart` finds no line end, the leading blanks hold none. */
  lemma NoLineEndInLead(x: string)
    requires ListStart(x).None?
    ensures forall k :: 0 <= k < |x| - |TrimStart(x)| ==> x[k] != '\n'
  {
    TrimStartSpec(x);
    var m := |x| - |TrimStart(x)|;
    forall k | 0 <= k < m ensures x[k] != '\n' {
      if x[k] == '\n' {
        assert x[..k] == x[..m][..k];
        ListStartFromNewline(x, k);
      }
    }
  }

  /** A line end inside the leading blanks makes `ListStart` succeed. */
  lemma {:induction false} ListStartFromNewline(x: string, k: nat)
    requires k < |x| && x[k] == '\n' && AllSpace(x[..k])
    ensures ListStart(x).Some?
  {
    if k > 0 {
      assert x[0] == x[..k][0];
      assert x[1..][..k - 1] == x[..k][1..];
      ListStartFromNewline(x[1..], k - 1);
    }
  }

  /** `/^- .+/`: a list line has at least one character after its `- `. */
  predicate IsItemLine(line: string) {
    |line| > 2 && line[..2] == "- "
  }

  /** The items of the consecutive list lines at the start of `lines`: the regex group
      `(?:- .+\n?)*` takes these lines, and the code strips `- `, trims, and drops
      what is empty. */
  function ItemsOfLines(lines: seq<string>): seq<string> {
    if lines == [] || !IsItemLine(lines[0]) then []
    else
      var item := Trim(lines[0][2..]);
      (if item == "" then [] else [item]) + ItemsOfLines(lines[1..])
  }

  /** `extractListItems(output, key)`. */
  function ExtractListItems(output: string, key: string): seq<string> {
    match Scan(output, key, ListStart)
    case Some(block) => ItemsOfLines(Lines(block))
    case None => []
  }

  /** Every item is non-empty, trimmed, and on one line. */
  lemma {:induction false} ItemsOfLinesShape(lines: seq<string>)
    requires AllOneLine(lines)
    ensures forall i :: 0 <= i < |ItemsOfLines(lines)| ==> CleanValue(ItemsOfLines(lines)[i])
  {
    if lines != [] && IsItemLine(lines[0]) {
      AllOneLineTail(lines);
      ItemsOfLinesShape(lines[1..]);
      ItemShape(lines[0]);
    }
  }

  /** An item is its line after `- `, trimmed: clean when it is not empty. */
  lemma ItemShape(line: string)
    requires '\n' !in line && IsItemLine(line)
    ensures Trim(line[2..]) != "" ==> CleanValue(Trim(line[2..]))
  {
    NotInSlice(line, '\n', 2, |line|);
    TrimKeepsOut(line[2..], '\n');
    TrimSpec(line[2..]);
  }

  /** No line holds a line end. */
  predicate AllOneLine(lines: seq<string>) {
    forall j :: 0 <= j < |lines| ==> '\n' !in lines[j]
  }

  lemma AllOneLineTail(lines: seq<string>)
    requires lines != [] && AllOneLine(lines)
    ensures '\n' !in lines[0] && AllOneLine(lines[1..])
  {
    forall j | 0 <= j < |lines| - 1 ensures '\n' !in lines[1..][j] {
      assert lines[1..][j] == lines[j + 1];
    }
  }

  lemma ExtractListItemsShape(output: string, key: string)
    ensures forall i :: 0 <= i < |ExtractListItems(output, key)| ==>
      CleanValue(ExtractListItems(output, key)[i])
  {
    var r := Scan(output, key, ListStart);
    if r.Some? {
      ItemsOfLinesShape(Lines(r.value));
    }
  }

  lemma ExtractListItemsAbsent(output: string, key: string)
    requires '\n' !in key
    requires NoLabelLine(Lines(output), key)
    ensures ExtractListItems(output, key) == []
  {
    ScanAbsent(output, key, ListStart);
  }

  /** For a `LABEL:` line with only blanks after the label, followed by a line that
      does not start blank: the items are those of the list lines that come next. */
  lemma ExtractListItemsOfLine(output: string, key: string, k: nat)
    requires '\n' !in key
    requires k + 1 < |Lines(output)| && StartsWith(Lines(output)[k], key + ":")
    requires forall j :: 0 <= j < k ==> !StartsWith(Lines(output)[j], key + ":")
    requires AllSpace(Lines(output)[k][|key| + 1..])
    requires Lines(output)[k + 1] != [] && !IsSpace(Lines(output)[k + 1][0])
    ensures ExtractListItems(output, key) == ItemsOfLines(Lines(output)[k + 1..])
  {
    var line := Lines(output)[k];
    TailLine(output, k);
    TailNext(output, k);
    var tail := Tail(output, k);
    var next := Tail(output, k + 1);
    StartsWithFirstPiece(tail, key + ":", '\n');
    var blanks := line[|key| + 1..];
    assert tail[|key| + 1..] == blanks + ("\n" + next) by {
      BeforeFirstSpec(tail, '\n');
      assert tail == line + tail[|line|..];
      assert tail[|line|..] == "\n" + next;
    }
    assert Lines(next)[0] == Lines(output)[k + 1];
    SplitHead(next, '\n');
    BeforeFirstSpec(next, '\n');
    BeforeFirstSpec(line, '\n');
    ListStartAfterBlanks(blanks, next);
    ScanFirstLine(output, key, ListStart, k);
  }

  /** Blanks without a line end, a line end, then a line that does not start blank. */
  lemma {:induction false} ListStartAfterBlanks(blanks: string, next: string)
    requires AllSpace(blanks) && '\n' !in blanks
    requires next != [] && !IsSpace(next[0])
    ensures ListStart(blanks + ("\n" + next)) == Some(next)
  {
    var s := blanks + ("\n" + next);
    if blanks == [] {
      assert s == "\n" + next;
      assert s[1..] == next;
    } else {
      assert s[1..] == blanks[1..] + ("\n" + next);
      assert blanks[0] in blanks;
      ListStartAfterBlanks(blanks[1..], next);
    }
  }

  // ---------------------------------------------------------------- parseSeoOutput

  /** `raw ? raw.split(',').map(k => k.trim()).filter(Boolean) : []`. */
  function Keywords(raw: string): seq<string> {
    if raw == "" then [] else NonEmpty(TrimAll(Split(raw, ',')))
  }

  function TrimAll(parts: seq<string>): (r: seq<string>)
    ensures |r| == |parts|
  {
    if parts == [] then [] else TrimAll(parts[..|parts| - 1]) + [Trim(parts[|parts| - 1])]
  }

  /** `parseSeoOutput(output)`. */
  function ParseSeoOutput(output: string): SeoFields {
    SeoFields(
      ExtractValue(output, "META_TITLE"),
      ExtractValue(output, "META_DESCRIPTION"),
      Keywords(ExtractValue(output, "KEYWORDS")),
      ExtractValue(output, "OG_TITLE"),
      ExtractValue(output, "OG_DESCRIPTION"))
  }

  /** A value the parser gives back as it is: trimmed, non-empty, on one line. */
  predicate CleanValue(v: string) {
    v != [] && '\n' !in v && !IsSpace(v[0]) && !IsSpace(v[|v| - 1])
  }

  /** A keyword the parser gives back as it is: also free of commas. */
  predicate CleanKeyword(k: string) {
    CleanValue(k) && ',' !in k
  }

  /** A non-empty list of clean keywords. */
  predicate CleanKeywords(ks: seq<string>) {
    ks != [] && forall i :: 0 <= i < |ks| ==> CleanKeyword(ks[i])
  }

  const SeoLabels: seq<string> := ["META_TITLE", "META_DESCRIPTION", "KEYWORDS", "OG_TITLE", "OG_DESCRIPTION"]

  function SeoValues(f: SeoFields): seq<string> {
    [f.metaTitle, f.metaDescription, Join(f.keywords, ", "), f.ogTitle, f.ogDescription]
  }

  /** The text the SEO action is asked to write, one `LABEL: value` line per field. */
  function RenderSeo(f: SeoFields): (lines: seq<string>)
    ensures |lines| == 5
    ensures forall j :: 0 <= j < 5 ==> lines[j] == SeoLabels[j] + ": " + SeoValues(f)[j]
  {
    var v := SeoValues(f);
    [ SeoLabels[0] + ": " + v[0], SeoLabels[1] + ": " + v[1], SeoLabels[2] + ": " + v[2],
      SeoLabels[3] + ": " + v[3], SeoLabels[4] + ": " + v[4] ]
  }

  /** Parsing the documented format gives back every field, provided no value is
      empty (an empty one would take the next line) and no keyword holds a comma. */
  lemma SeoRoundTrip(f: SeoFields)
    requires CleanValue(f.metaTitle) && CleanValue(f.metaDescription)
    requires CleanValue(f.ogTitle) && CleanValue(f.ogDescription)
    requires CleanKeywords(f.keywords)
    ensures ParseSeoOutput(Join(RenderSeo(f), "\n")) == f
  {
    KeywordsRoundTrip(f.keywords);
    SeoFieldsRead(f);
  }

  /** Each of the five labels reads back the value written after it. */
  lemma SeoFieldsRead(f: SeoFields)
    requires CleanValue(f.metaTitle) && CleanValue(f.metaDescription)
    requires CleanValue(Join(f.keywords, ", "))
    requires CleanValue(f.ogTitle) && CleanValue(f.ogDescription)
    ensures var text := Join(RenderSeo(f), "\n");
      && ExtractValue(text, "META_TITLE") == f.metaTitle
      && ExtractValue(text, "META_DESCRIPTION") == f.metaDescription
      && ExtractValue(text, "KEYWORDS") == Join(f.keywords, ", ")
      && ExtractValue(text, "OG_TITLE") == f.ogTitle
      && ExtractValue(text, "OG_DESCRIPTION") == f.ogDescription
  {
    var text := Join(RenderSeo(f), "\n");
    SeoLines(f);
    SeoField(text, f, 0);
    SeoField(text, f, 1);
    SeoField(text, f, 2);
    SeoField(text, f, 3);
    SeoField(text, f, 4);
  }

  /** The rendered SEO text splits back into its five lines. */
  lemma SeoLines(f: SeoFields)
    requires forall j :: 0 <= j < 5 ==> '\n' !in SeoValues(f)[j]
    ensures Lines(Join(RenderSeo(f), "\n")) == RenderSeo(f)
  {
    var lines := RenderSeo(f);
    forall j | 0 <= j < 5 ensures '\n' !in lines[j] {
      LabelLineOneLine(SeoLabels[j], SeoValues(f)[j]);
    }
    SplitJoin(lines, '\n');
  }

  lemma LabelLineOneLine(key: string, v: string)
    requires '\n' !in key && '\n' !in v
    ensures '\n' !in key + ": " + v
  {
  }

  /** The five labels differ in their first or their sixth character. */
  lemma SeoLabelsDiffer(j: nat, k: nat)
    requires j < 5 && k < 5 && j != k
    ensures |SeoLabels[j]| > 5 && |SeoLabels[k]| > 5
    ensures SeoLabels[j][0] != SeoLabels[k][0] || SeoLabels[j][5] != SeoLabels[k][5]
  {
  }

  /** One field of the round trip: its label starts line `k` and no earlier line. */
  lemma SeoField(text: string, f: SeoFields, k: nat)
    requires k < 5 && Lines(text) == RenderSeo(f) && CleanValue(SeoValues(f)[k])
    ensures ExtractValue(text, SeoLabels[k]) == SeoValues(f)[k]
  {
    var key, v := SeoLabels[k], SeoValues(f)[k];
    assert RenderSeo(f)[k] == key + ": " + v;
    LabelLineParts(key, v);
    EarlierLabelsDiffer(f, k);
    assert '\n' !in key;
    ExtractValueOfLine(text, key, k);
    TrimLeadingSpace(v);
  }

  /** A `LABEL: value` line starts with `LABEL:`, and a clean value makes its rest non-blank. */
  lemma LabelLineParts(key: string, v: string)
    requires CleanValue(v)
    ensures var line := key + ": " + v;
      StartsWith(line, key + ":") && line[|key| + 1..] == " " + v && !AllSpace(line[|key| + 1..])
  {
    var line := key + ": " + v;
    assert line[..|key| + 1] == key + ":";
    assert line[|key| + 1..] == " " + v;
    assert (" " + v)[1] == v[0];
  }

  /** No line before line `k` starts with label `k`. */
  lemma EarlierLabelsDiffer(f: SeoFields, k: nat)
    requires k < 5
    ensures forall j :: 0 <= j < k ==> !StartsWith(RenderSeo(f)[j], SeoLabels[k] + ":")
  {
    var lines := RenderSeo(f);
    forall j | 0 <= j < k ensures !StartsWith(lines[j], SeoLabels[k] + ":") {
      SeoLabelsDiffer(j, k);
      assert lines[j][0] == SeoLabels[j][0] && lines[j][5] == SeoLabels[j][5];
    }
  }

  /** A clean value after a single space trims back to itself. */
  lemma TrimLeadingSpace(v: string)
    requires CleanValue(v)
    ensures Trim(" " + v) == v
  {
    assert TrimStart(" " + v) == TrimStart(v) by { assert (" " + v)[1..] == v; }
    TrimmedIsTrimFixpoint(v);
  }

  /** Keywords written as `kw1, kw2, …` are read back in order. */
  lemma {:induction false} KeywordsRoundTrip(ks: seq<string>)
    requires CleanKeywords(ks)
    ensures Keywords(Join(ks, ", ")) == ks
    ensures CleanValue(Join(ks, ", "))
  {
    var raw := Join(ks, ", ");
    var pieces := [ks[0]] + SpacePrefixed(ks[1..]);
    JoinAsPieces(ks);
    assert Join(ks, ", ") == Join(pieces, ",");
    assert forall i :: 0 <= i < |pieces| ==> ',' !in pieces[i];
    SplitJoin(pieces, ',');
    TrimAllPieces(ks);
    NonEmptyOfNonEmpty(ks);
    JoinKeepsOut(ks, ", ", '\n');
    JoinClean(ks);
  }

  /** `" " + k` for every keyword. */
  function SpacePrefixed(ks: seq<string>): (r: seq<string>)
    ensures |r| == |ks|
    ensures forall i :: 0 <= i < |ks| ==> r[i] == " " + ks[i]
  {
    if ks == [] then [] else SpacePrefixed(ks[..|ks| - 1]) + [" " + ks[|ks| - 1]]
  }

  lemma {:induction false} JoinAsPieces(ks: seq<string>)
    requires ks != []
    ensures Join(ks, ", ") == Join([ks[0]] + SpacePrefixed(ks[1..]), ",")
  {
    if |ks| > 1 {
      JoinAsPieces(ks[1..]);
      var tail := SpacePrefixed(ks[1..]);
      assert SpacePrefixed(ks[2..]) == tail[1..];
      assert ([ks[0]] + tail)[1..] == tail;
      assert Join([ks[1]] + tail[1..], ",") == ks[1] + "," + Join(tail[1..], ",")
          || |tail| == 1;
      assert Join(ks[1..], ", ") == Join([ks[1]] + tail[1..], ",");
      if |tail| == 1 {
        assert Join(ks, ", ") == ks[0] + ", " + ks[1];
      } else {
        assert Join(ks, ", ") == ks[0] + ", " + (ks[1] + ", " + Join(ks[2..], ", "));
        assert Join([ks[1]] + tail[1..], ",") == ks[1] + "," + Join(tail[1..], ",");
        assert Join(tail, ",") == (" " + ks[1]) + "," + Join(tail[1..], ",");
      }
    }
  }

  lemma {:induction false} TrimAllPieces(ks: seq<string>)
    requires CleanKeywords(ks)
    ensures TrimAll([ks[0]] + SpacePrefixed(ks[1..])) == ks
  {
    var pieces := [ks[0]] + SpacePrefixed(ks[1..]);
    forall i | 0 <= i < |ks| ensures TrimAll(pieces)[i] == ks[i] {
      TrimAllAt(pieces, i);
      TrimPiece(ks, i);
    }
  }

  /** Piece `i` of the joined keywords trims back to keyword `i`. */
  lemma TrimPiece(ks: seq<string>, i: nat)
    requires CleanKeywords(ks) && i < |ks|
    ensures Trim(([ks[0]] + SpacePrefixed(ks[1..]))[i]) == ks[i]
  {
    assert CleanValue(ks[i]);
    if i == 0 {
      TrimmedIsTrimFixpoint(ks[0]);
    } else {
      assert ([ks[0]] + SpacePrefixed(ks[1..]))[i] == " " + ks[i];
      TrimLeadingSpace(ks[i]);
    }
  }

  lemma {:induction false} TrimAllAt(parts: seq<string>, i: nat)
    requires i < |parts|
    ensures TrimAll(parts)[i] == Trim(parts[i])
  {
    if i < |parts| - 1 {
      TrimAllAt(parts[..|parts| - 1], i);
    }
  }

  lemma {:induction false} NonEmptyOfNonEmpty(ks: seq<string>)
    requires forall i :: 0 <= i < |ks| ==> ks[i] != ""
    ensures NonEmpty(ks) == ks
  {
    if ks != [] {
      NonEmptyOfNonEmpty(ks[..|ks| - 1]);
    }
  }

  /** A list of clean keywords joined with `, ` is a clean value. */
  lemma {:induction false} JoinClean(ks: seq<string>)
    requires CleanKeywords(ks)
    ensures var s := Join(ks, ", "); s != [] && !IsSpace(s[0]) && !IsSpace(s[|s| - 1])
  {
    if |ks| > 1 {
      JoinClean(ks[1..]);
      var rest := Join(ks[1..], ", ");
      assert Join(ks, ", ") == ks[0] + (", " + rest);
    }
  }

  // ---------------------------------------------------------------- parseFaqBlock

  /** `^Q:\s*(.+)` on one line: anything after `Q:` matches, and the capture trims to
      the rest of the line trimmed (a blank rest gives `''`). */
  function LineAfter(line: string, tag: string): Option<string> {
    if StartsWith(line, tag) && |line| > |tag| then Some(Trim(line[|tag|..])) else None
  }

  /** The pairing loop, from a state with pending question `q`: a `Q:` line replaces the
      pending question, an `A:` line pairs with it when it is not empty and clears it,
      and every other line is ignored. */
  function Pairs(lines: seq<string>, q: string): seq<QA> {
    if lines == [] then []
    else
      match LineAfter(lines[0], "Q:")
      case Some(t) => Pairs(lines[1..], t)
      case None =>
        match LineAfter(lines[0], "A:")
        case Some(a) =>
          if q != "" then [QA(q, a)] + Pairs(lines[1..], "") else Pairs(lines[1..], q)
        case None => Pairs(lines[1..], q)
  }

  /** `for (const line of lines) { ... }` with the mutable `currentQ` and `pairs`. */
  method PairLines(lines: seq<string>) returns (pairs: seq<QA>)
    ensures pairs == Pairs(lines, "")
  {
    pairs := [];
    var currentQ := "";
    for i := 0 to |lines|
      invariant pairs + Pairs(lines[i..], currentQ) == Pairs(lines, "")
    {
      var line := lines[i];
      assert lines[i..][1..] == lines[i + 1..];
      var qMatch := LineAfter(line, "Q:");
      var aMatch := LineAfter(line, "A:");
      if qMatch.Some? {
        currentQ := qMatch.value;
      } else if aMatch.Some? && currentQ != "" {
        AppendAssoc(pairs, [QA(currentQ, aMatch.value)], Pairs(lines[i + 1..], ""));
        pairs := pairs + [QA(currentQ, aMatch.value)];
        currentQ := "";
      }
    }
  }

  /** What follows a tag is trimmed and stays on its line. */
  lemma LineAfterShape(line: string, tag: string)
    requires '\n' !in line
    ensures var r := LineAfter(line, tag); r.Some? ==> '\n' !in r.value && Trimmed(r.value)
  {
    if StartsWith(line, tag) && |line| > |tag| {
      var rest := line[|tag|..];
      NotInSlice(line, '\n', |tag|, |line|);
      TrimKeepsOut(rest, '\n');
      TrimSpec(rest);
    }
  }

  /** Every question and answer is trimmed and one line long, and no question is empty. */
  lemma {:induction false} PairsShape(lines: seq<string>, q: string)
    requires AllOneLine(lines)
    requires '\n' !in q && Trimmed(q)
    ensures forall p :: p in Pairs(lines, q) ==> PairShape(p)
  {
    if lines != [] {
      var line := lines[0];
      AllOneLineTail(lines);
      LineAfterShape(line, "Q:");
      LineAfterShape(line, "A:");
      var qm := LineAfter(line, "Q:");
      if qm.Some? {
        PairsShape(lines[1..], qm.value);
      } else if LineAfter(line, "A:").Some? && q != "" {
        PairsShape(lines[1..], "");
      } else {
        PairsShape(lines[1..], q);
      }
    }
  }

  /** A question that is not empty, and a question and answer trimmed, each on one line. */
  predicate PairShape(p: QA) {
    && p.question != [] && '\n' !in p.question && '\n' !in p.answer
    && Trimmed(p.question) && Trimmed(p.answer)
  }

  /** One line never gives a pair: a pair needs a `Q:` line and a later `A:` line. */
  lemma OneLineNoPairs(line: string)
    ensures Pairs([line], "") == []
  {
    assert [line][1..] == [];
  }

  /** The lines the FAQ is asked to be written in. */
  function RenderFaq(pairs: seq<QA>): seq<string> {
    if pairs == [] then []
    else ["Q: " + pairs[0].question, "A: " + pairs[0].answer] + RenderFaq(pairs[1..])
  }

  /** Questions and answers the parser gives back as they are. */
  predicate CleanPairs(pairs: seq<QA>) {
    forall i :: 0 <= i < |pairs| ==> CleanValue(pairs[i].question) && CleanValue(pairs[i].answer)
  }

  lemma CleanPairsTail(pairs: seq<QA>)
    requires pairs != [] && CleanPairs(pairs)
    ensures CleanValue(pairs[0].question) && CleanValue(pairs[0].answer) && CleanPairs(pairs[1..])
  {
    forall i | 0 <= i < |pairs| - 1
      ensures CleanValue(pairs[1..][i].question) && CleanValue(pairs[1..][i].answer)
    {
      assert pairs[1..][i] == pairs[i + 1];
    }
  }

  /** Pairing the documented lines gives back the pairs, for clean questions and answers. */
  lemma {:induction false} PairsRoundTrip(pairs: seq<QA>)
    requires CleanPairs(pairs)
    ensures Pairs(RenderFaq(pairs), "") == pairs
  {
    if pairs != [] {
      var p := pairs[0];
      CleanPairsTail(pairs);
      PairsRoundTrip(pairs[1..]);
      FirstPairLines(p.question, p.answer, RenderFaq(pairs[1..]));
      assert RenderFaq(pairs) == ["Q: " + p.question, "A: " + p.answer] + RenderFaq(pairs[1..]);
    }
  }

  /** A clean question line and a clean answer line give their pair, then pairing goes on. */
  lemma FirstPairLines(q: string, a: string, rest: seq<string>)
    requires CleanValue(q) && CleanValue(a)
    ensures Pairs(["Q: " + q, "A: " + a] + rest, "") == [QA(q, a)] + Pairs(rest, "")
  {
    var lines := ["Q: " + q, "A: " + a] + rest;
    TaggedLine("Q:", q);
    TaggedLine("A:", a);
    assert "Q:" + " " == "Q: " && "A:" + " " == "A: ";
    AnswerIsNoQuestion(a);
    PairsStep(lines, q, a);
    assert lines[2..] == rest;
  }

  /** A question line followed by an answer line gives one pair, then pairing goes on. */
  lemma PairsStep(lines: seq<string>, q: string, a: string)
    requires |lines| >= 2 && q != ""
    requires LineAfter(lines[0], "Q:") == Some(q)
    requires LineAfter(lines[1], "Q:") == None && LineAfter(lines[1], "A:") == Some(a)
    ensures Pairs(lines, "") == [QA(q, a)] + Pairs(lines[2..], "")
  {
    assert lines[1..][1..] == lines[2..];
  }

  lemma AnswerIsNoQuestion(a: string)
    ensures LineAfter("A: " + a, "Q:") == None
  {
    assert ("A: " + a)[0] == 'A';
  }

  /** The text after `tag` and a space reads back as the clean value written there. */
  lemma TaggedLine(tag: string, v: string)
    requires |tag| == 2 && CleanValue(v)
    ensures LineAfter(tag + " " + v, tag) == Some(v)
  {
    var line := tag + " " + v;
    assert line[..2] == tag;
    assert line[2..] == " " + v;
    TrimLeadingSpace(v);
  }

  /** `[A-Z_]+:` at the start of the text. */
  predicate UpperLabelAhead(t: string) {
    exists n :: 0 < n < |t| && t[n] == ':' && forall k :: 0 <= k < n ==> IsUpperOrUnderscore(t[k])
  }

  predicate IsUpperOrUnderscore(c: char) {
    'A' <= c <= 'Z' || c == '_'
  }

  /** The block the FAQ regex means to capture: everything up to a blank line followed by
      the next `LABEL:` line, or up to the end of the text. */
  function UntilNextLabel(x: string): string
    decreases |x|
  {
    if x == [] then []
    else if |x| >= 2 && x[0] == '\n' && x[1] == '\n' && UpperLabelAhead(x[2..]) then []
    else [x[0]] + UntilNextLabel(x[1..])
  }

  /** The capture of `^FAQ:\s*\n([\s\S]*?)(?:\n\n[A-Z_]+:|$)` with the `m` flag as written:
      `$` also matches at every line end, so the lazy group stops at the first one. */
  function FaqCaptureAsWritten(rest: string): Option<string> {
    match ListStart(rest)
    case Some(x) => Some(BeforeFirst(x, '\n'))
    case None => None
  }

  /** The capture the pattern is meant to make: the whole block. */
  function FaqCapture(rest: string): Option<string> {
    match ListStart(rest)
    case Some(x) => Some(UntilNextLabel(x))
    case None => None
  }

  /** The pairs of a captured block: `if (!faqMatch?.[1]) return []`, then the lines. */
  function BlockPairs(block: Option<string>): seq<QA> {
    match block
    case Some(b) => if b == "" then [] else Pairs(Lines(b), "")
    case None => []
  }

  /** `parseFaqBlock(output)` exactly as written: it never returns a pair. */
  method ParseFaqBlockAsWritten(output: string) returns (pairs: seq<QA>)
    ensures pairs == []
  {
    var faqMatch := Scan(output, "FAQ", FaqCaptureAsWritten);
    if faqMatch.None? || faqMatch.value == "" {
      return [];
    }
    var captured := faqMatch.value;
    FaqCaptureIsOneLine(output, captured);
    SplitOneLine(captured);
    pairs := PairLines(Lines(captured));
    OneLineNoPairs(captured);
  }

  /** The as-written capture never holds a line end. */
  lemma FaqCaptureIsOneLine(output: string, captured: string)
    requires Scan(output, "FAQ", FaqCaptureAsWritten) == Some(captured)
    ensures '\n' !in captured
  {
    ScanResult(output, "FAQ", FaqCaptureAsWritten, Some(captured));
    var rest :| FaqCaptureAsWritten(rest) == Some(captured);
    BeforeFirstSpec(ListStart(rest).value, '\n');
  }

  lemma SplitOneLine(s: string)
    requires '\n' !in s
    ensures Lines(s) == [s]
  {
    SplitFirst(s, '\n');
    BeforeFirstSpec(s, '\n');
  }

  /** The pairs of the FAQ block, read as the pattern means it. */
  function FaqPairs(output: string): seq<QA> {
    BlockPairs(Scan(output, "FAQ", FaqCapture))
  }

  /** `parseFaqBlock(output)`, with the block read to its end. */
  method ParseFaqBlock(output: string) returns (pairs: seq<QA>)
    ensures pairs == FaqPairs(output)
  {
    var faqMatch := Scan(output, "FAQ", FaqCapture);
    if faqMatch.None? || faqMatch.value == "" {
      return [];
    }
    pairs := PairLines(Lines(faqMatch.value));
  }

  /** No `FAQ:` line, no pairs. */
  lemma FaqAbsent(output: string)
    requires NoLabelLine(Lines(output), "FAQ")
    ensures FaqPairs(output) == []
  {
    ScanAbsent(output, "FAQ", FaqCapture);
  }

  /** A text without two line ends in a row holds no block end. */
  lemma {:induction false} UntilNextLabelWhole(x: string)
    requires forall k :: 0 <= k < |x| - 1 ==> !(x[k] == '\n' && x[k + 1] == '\n')
    ensures UntilNextLabel(x) == x
  {
    if x != [] {
      UntilNextLabelWhole(x[1..]);
      assert x == [x[0]] + x[1..];
    }
  }

  /** The FAQ written as documented, `FAQ:` then one `Q:` and one `A:` line per pair,
      is read back pair for pair; the parser as written reads none of it. */
  lemma FaqRoundTrip(pairs: seq<QA>)
    requires pairs != []
    requires CleanPairs(pairs)
    ensures FaqPairs(Join(["FAQ:"] + RenderFaq(pairs), "\n")) == pairs
  {
    RenderFaqShape(pairs);
    FaqOfLines(RenderFaq(pairs));
    PairsRoundTrip(pairs);
  }

  /** Non-empty lines written right below `FAQ:`, the first not starting with a blank,
      are all paired. */
  lemma FaqOfLines(lines: seq<string>)
    requires lines != [] && OneLines(lines) && !IsSpace(lines[0][0])
    ensures FaqPairs(Join(["FAQ:"] + lines, "\n")) == Pairs(lines, "")
  {
    var body := Join(lines, "\n");
    JoinCons("FAQ:", lines, "\n");
    JoinNoDoubleNewline(lines);
    FaqBlockCapture(body);
    SplitJoin(lines, '\n');
  }

  lemma JoinCons(first: string, rest: seq<string>, sep: string)
    requires rest != []
    ensures Join([first] + rest, sep) == first + sep + Join(rest, sep)
  {
    assert ([first] + rest)[1..] == rest;
  }

  /** A block right below `FAQ:` that starts with a letter and holds no blank line is
      captured whole. */
  lemma FaqBlockCapture(body: string)
    requires body != [] && !IsSpace(body[0])
    requires forall k :: 0 <= k < |body| - 1 ==> !(body[k] == '\n' && body[k + 1] == '\n')
    ensures Scan("FAQ:" + "\n" + body, "FAQ", FaqCapture) == Some(body)
  {
    FaqCaptureWhole(body);
    LabelLine("FAQ", "\n" + body);
    assert "FAQ" + ":" + ("\n" + body) == "FAQ:" + "\n" + body;
    ScanHere("FAQ:" + "\n" + body, "FAQ", FaqCapture);
  }

  lemma FaqCaptureWhole(body: string)
    requires body != [] && !IsSpace(body[0])
    requires forall k :: 0 <= k < |body| - 1 ==> !(body[k] == '\n' && body[k + 1] == '\n')
    ensures FaqCapture("\n" + body) == Some(body)
  {
    ListStartAfterBlanks("", body);
    assert "" + ("\n" + body) == "\n" + body;
    UntilNextLabelWhole(body);
  }

  /** `LABEL:` followed by `rest` starts with `LABEL:` and leaves `rest`. */
  lemma LabelLine(key: string, rest: string)
    ensures StartsWith(key + ":" + rest, key + ":") && (key + ":" + rest)[|key| + 1..] == rest
  {
  }

  /** A text whose first line starts with `LABEL:` and matches there gives that match. */
  lemma ScanHere(s: string, key: string, rule: string -> Option<string>)
    requires StartsWith(s, key + ":") && rule(s[|key| + 1..]).Some?
    ensures Scan(s, key, rule) == rule(s[|key| + 1..])
  {
  }

  /** The rendered lines are non-empty, one line each, and the first starts with `Q`. */
  lemma {:induction false} RenderFaqShape(pairs: seq<QA>)
    requires CleanPairs(pairs)
    ensures |RenderFaq(pairs)| == 2 * |pairs| && OneLines(RenderFaq(pairs))
    ensures pairs != [] ==> RenderFaq(pairs)[0][0] == 'Q'
  {
    if pairs != [] {
      CleanPairsTail(pairs);
      RenderFaqShape(pairs[1..]);
      var p := pairs[0];
      assert forall c :: c in "Q: " + p.question ==> c in "Q: " || c in p.question;
      assert forall c :: c in "A: " + p.answer ==> c in "A: " || c in p.answer;
    }
  }

  /** Lines that are not empty and hold no line end. */
  predicate OneLines(lines: seq<string>) {
    forall j :: 0 <= j < |lines| ==> lines[j] != [] && '\n' !in lines[j]
  }

  /** Joining non-empty lines leaves no blank line and starts with the first line. */
  lemma {:induction false} JoinNoDoubleNewline(lines: seq<string>)
    requires lines != [] && OneLines(lines)
    ensures var s := Join(lines, "\n");
      && s != [] && s[0] == lines[0][0]
      && forall k :: 0 <= k < |s| - 1 ==> !(s[k] == '\n' && s[k + 1] == '\n')
  {
    if |lines| > 1 {
      JoinNoDoubleNewline(lines[1..]);
      var rest := Join(lines[1..], "\n");
      var s := Join(lines, "\n");
      var l := lines[0];
      assert s == l + "\n" + rest;
      forall k | 0 <= k < |s| - 1 ensures !(s[k] == '\n' && s[k + 1] == '\n') {
        if k < |l| {
          assert s[k] == l[k];
          assert l[k] in l;
        } else if k == |l| {
          assert s[k + 1] == rest[0] == lines[1][0];
          assert lines[1][0] in lines[1];
        } else {
          assert s[k] == rest[k - |l| - 1] && s[k + 1] == rest[k - |l|];
        }
      }
    }
  }

  /** The input of the finding: one question and its answer are read back. */
  lemma FaqExample()
    ensures FaqPairs("FAQ:\nQ: Why?\nA: Because.") == [QA("Why?", "Because.")]
  {
    var p := QA("Why?", "Because.");
    assert CleanPairs([p]);
    FaqRoundTrip([p]);
    ExampleText(p);
  }

  lemma ExampleText(p: QA)
    requires p == QA("Why?", "Because.")
    ensures Join(["FAQ:"] + RenderFaq([p]), "\n") == "FAQ:\nQ: Why?\nA: Because."
  {
    var l1, l2 := "Q: " + "Why?", "A: " + "Because.";
    assert [p][1..] == [];
    assert RenderFaq([p]) == [l1, l2];
    JoinCons("FAQ:", [l1, l2], "\n");
    JoinCons(l1, [l2], "\n");
    assert [l1, l2][1..] == [l2];
  }

  // ---------------------------------------------------------------- parseGeoOutput

  /** `parseGeoOutput(output)`: each field read from its own label, the FAQ from its block. */
  method ParseGeoOutput(output: string) returns (g: GeoFields)
    ensures g.aiSummary == ExtractValue(output, "AI_SUMMARY")
    ensures g.aiBestFor == ExtractListItems(output, "BEST_FOR")
    ensures g.aiIntents == ExtractListItems(output, "SEARCH_INTENTS")
    ensures g.aiKeyPoints == ExtractListItems(output, "KEY_POINTS")
    ensures g.aiDifferentiators == ExtractListItems(output, "DIFFERENTIATORS")
    ensures g.aiCompetitors == ExtractListItems(output, "COMPETITORS")
    ensures g.aiFaq == FaqPairs(output)
  {
    var faq := ParseFaqBlock(output);
    g := GeoFields(
      ExtractValue(output, "AI_SUMMARY"),
      ExtractListItems(output, "BEST_FOR"),
      ExtractListItems(output, "SEARCH_INTENTS"),
      ExtractListItems(output, "KEY_POINTS"),
      ExtractListItems(output, "DIFFERENTIATORS"),
      ExtractListItems(output, "COMPETITORS"),
      faq);
  }
}
