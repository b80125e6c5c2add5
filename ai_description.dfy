/** lib/ai-description.ts: picking a one-line description out of a README,
  * and the four-step fallback chain that always yields some description. */
module AiDescription {
  import opened Types
  import opened JsText

  // ---------------------------------------------------------------------
  // The two regular expressions applied before scanning
  // ---------------------------------------------------------------------

  /** The characters a regular-expression `.` does not match. */
  predicate IsLineTerminator(c: char) {
    c == '\n' || c == '\r' || c == '\U{2028}' || c == '\U{2029}'
  }

  /** `pat` occurs in `s` at position `i`. */
  predicate At(s: string, i: nat, pat: string) {
    i + |pat| <= |s| && s[i..i + |pat|] == pat
  }

  /** The leftmost occurrence of `pat` at or after `i`; with `sameLine`, one
    * reached without crossing a line terminator (a lazy `.*?` followed by
    * `pat`), otherwise anywhere (a lazy `[\s\S]*?`). */
  function FindFrom(s: string, i: nat, pat: string, sameLine: bool): (r: Option<nat>)
    requires i <= |s|
    requires pat != [] && !IsLineTerminator(pat[0])
    ensures r.Some? ==> i <= r.value && At(s, r.value, pat)
    ensures r.Some? ==> forall k :: i <= k < r.value ==> !At(s, k, pat)
    ensures r.Some? && sameLine ==> forall k :: i <= k < r.value ==> !IsLineTerminator(s[k])
    ensures r.None? && !sameLine ==> forall k :: i <= k <= |s| ==> !At(s, k, pat)
    decreases |s| - i
  {
    if At(s, i, pat) then Some(i)
    else if i == |s| || (sameLine && IsLineTerminator(s[i])) then None
    else FindFrom(s, i + 1, pat, sameLine)
  }

  /** Where a match of `/!\[.*?\]\(.*?\)/` starting at the front of `s` ends:
    * "![", then the first "](" on the same line, then the first ")" after it
    * on the same line. (A later "](" cannot help when the first one finds no
    * ")": every ")" it could reach, the first one reaches too.) */
  function BadgeEnd(s: string): (r: Option<nat>)
    ensures r.Some? ==> 5 <= r.value <= |s| && StartsWith(s, "![") && s[r.value - 1] == ')'
    ensures r.Some? ==> forall k :: 0 <= k < r.value ==> !IsLineTerminator(s[k])
  {
    if !StartsWith(s, "![") then None
    else
      match FindFrom(s, 2, "](", true)
      case None => None
      case Some(i) =>
        match FindFrom(s, i + 2, ")", true)
        case None => None
        case Some(j) =>
          assert s[0] == '!' && s[1] == '[' by { assert s[..2] == "!["; }
          assert s[i] == ']' && s[i + 1] == '(' by { assert s[i..i + 2] == "]("; }
          assert s[j] == ')' by { assert s[j..j + 1] == ")"; }
          Some(j + 1)
  }

  /** `readme.replace(/!\[.*?\]\(.*?\)/g, '')`: the scan tries each position
    * in turn and resumes after each removed span. */
  function StripBadges(s: string): (r: string)
    ensures |r| <= |s|
    decreases |s|
  {
    if s == [] then []
    else
      match BadgeEnd(s)
      case Some(e) => StripBadges(s[e..])
      case None => [s[0]] + StripBadges(s[1..])
  }

  /** Where a match of `/<!--[\s\S]*?-->/` starting at the front of `s` ends:
    * the first "-->" after the opening "<!--", across lines. */
  function CommentEnd(s: string): (r: Option<nat>)
    ensures r.Some? ==> 7 <= r.value <= |s| && StartsWith(s, "<!--") && s[r.value - 3..r.value] == "-->"
  {
    if !StartsWith(s, "<!--") then None
    else
      match FindFrom(s, 4, "-->", false)
      case None => None
      case Some(i) => Some(i + 3)
  }

  /** `content.replace(/<!--[\s\S]*?-->/g, '')`. */
  function StripComments(s: string): (r: string)
    ensures |r| <= |s|
    decreases |s|
  {
    if s == [] then []
    else
      match CommentEnd(s)
      case Some(e) => StripComments(s[e..])
      case None => [s[0]] + StripComments(s[1..])
  }

  lemma {:induction false} FilterAppend<T>(a: seq<T>, b: seq<T>, keep: T -> bool)
    ensures Filter(a + b, keep) == Filter(a, keep) + Filter(b, keep)
    decreases |a|
  {
    if a == [] {
      assert a + b == b;
    } else {
      assert (a + b)[0] == a[0];
      assert (a + b)[1..] == a[1..] + b;
      FilterAppend(a[1..], b, keep);
    }
  }

  lemma {:induction false} FilterNone<T>(a: seq<T>, keep: T -> bool)
    requires forall k :: 0 <= k < |a| ==> !keep(a[k])
    ensures Filter(a, keep) == []
    decreases |a|
  {
    if a != [] {
      FilterNone(a[1..], keep);
    }
  }

  /** Badge removal never crosses a line: the text keeps exactly its line
    * terminators, in order, so it keeps its lines. */
  lemma {:induction false} BadgesKeepLineBreaks(s: string)
    ensures Filter(StripBadges(s), IsLineTerminator) == Filter(s, IsLineTerminator)
    decreases |s|
  {
    if s != [] {
      match BadgeEnd(s)
      case Some(e) =>
        BadgesKeepLineBreaks(s[e..]);
        assert s == s[..e] + s[e..];
        FilterAppend(s[..e], s[e..], IsLineTerminator);
        FilterNone(s[..e], IsLineTerminator);
      case None =>
        BadgesKeepLineBreaks(s[1..]);
        assert s == [s[0]] + s[1..];
        FilterAppend([s[0]], s[1..], IsLineTerminator);
        FilterAppend([s[0]], StripBadges(s[1..]), IsLineTerminator);
    }
  }

  /** Text without "![" has no badge to remove. */
  lemma {:induction false} StripBadgesNoop(s: string)
    requires !Includes(s, "![")
    ensures StripBadges(s) == s
    decreases |s|
  {
    if s != [] {
      assert BadgeEnd(s).None?;
      assert !Includes(s[1..], "![");
      StripBadgesNoop(s[1..]);
    }
  }

  /** Text without "<!--" has no comment to remove. */
  lemma {:induction false} StripCommentsNoop(s: string)
    requires !Includes(s, "<!--")
    ensures StripComments(s) == s
    decreases |s|
  {
    if s != [] {
      assert CommentEnd(s).None?;
      assert !Includes(s[1..], "<!--");
      StripCommentsNoop(s[1..]);
    }
  }

  /** `line => line.trim()` as a filter: the line is not blank. */
  predicate NotBlank(line: string) {
    Trim(line) != ""
  }

  /** The README's lines after badge and comment removal, blank ones dropped. */
  function ReadmeLines(readme: string): (lines: seq<string>)
    ensures forall k :: 0 <= k < |lines| ==> NotBlank(lines[k]) && '\n' !in lines[k]
  {
    var parts := Split(StripComments(StripBadges(readme)), '\n');
    var kept := Filter(parts, NotBlank);
    FilterAllKept(parts, NotBlank);
    kept
  }

  // ---------------------------------------------------------------------
  // The line scan
  // ---------------------------------------------------------------------

  predicate Header(line: string) {
    StartsWith(line, "#")
  }

  /** The lower-cased line mentions installation or setup. */
  predicate StopLine(line: string) {
    var l := Lower(line);
    Includes(l, "install") || Includes(l, "setup") || Includes(l, "getting started")
  }

  /** A line the main scan returns (trimmed). */
  predicate Qualifies(line: string) {
    !Header(line) && !StopLine(line) && JsLength(line) > 50
  }

  /** A line the main scan moves past. */
  predicate Passed(line: string) {
    Header(line) || (!StopLine(line) && JsLength(line) <= 50)
  }

  /** How the main scan ends: returning line `k`, breaking at line `k`, or
    * running off the end. */
  datatype ScanOutcome = Found(k: nat) | Stopped(k: nat) | Exhausted

  /** The main scan from line `i` on. */
  function MainScan(lines: seq<string>, i: nat): (r: ScanOutcome)
    requires i <= |lines|
    ensures r.Found? ==> i <= r.k < |lines| && Qualifies(lines[r.k])
    ensures r.Stopped? ==> i <= r.k < |lines| && !Header(lines[r.k]) && StopLine(lines[r.k])
    ensures !r.Exhausted? ==> forall j :: i <= j < r.k ==> Passed(lines[j])
    ensures r.Exhausted? ==> forall j :: i <= j < |lines| ==> Passed(lines[j])
    decreases |lines| - i
  {
    if i == |lines| then Exhausted
    else if Header(lines[i]) then MainScan(lines, i + 1)
    else if StopLine(lines[i]) then Stopped(i)
    else if JsLength(lines[i]) > 50 then Found(i)
    else MainScan(lines, i + 1)
  }

  /** A line the fallback accepts. */
  predicate Paragraph(line: string) {
    !Header(line) && JsLength(line) > 20
  }

  /** `lines.find(line => !line.startsWith('#') && line.length > 20)`, as an
    * index: it looks at every line, also those past a stop line. */
  function FirstParagraph(lines: seq<string>, i: nat): (r: Option<nat>)
    requires i <= |lines|
    ensures r.Some? ==> i <= r.value < |lines| && Paragraph(lines[r.value])
    ensures r.Some? ==> forall j :: i <= j < r.value ==> !Paragraph(lines[j])
    ensures r.None? ==> forall j :: i <= j < |lines| ==> !Paragraph(lines[j])
    decreases |lines| - i
  {
    if i == |lines| then None
    else if Paragraph(lines[i]) then Some(i)
    else FirstParagraph(lines, i + 1)
  }

  /** The result of the scan and the fallback over non-blank lines. It is
    * empty exactly when neither finds a line, and a header line is never
    * what it returns. */
  function DescriptionFromLines(lines: seq<string>): (d: string)
    requires forall k :: 0 <= k < |lines| ==> NotBlank(lines[k])
    ensures d == "" <==> !MainScan(lines, 0).Found? && FirstParagraph(lines, 0).None?
    ensures MainScan(lines, 0).Found? ==>
      d == Trim(lines[MainScan(lines, 0).k]) && !Header(lines[MainScan(lines, 0).k])
    ensures !MainScan(lines, 0).Found? && FirstParagraph(lines, 0).Some? ==>
      d == lines[FirstParagraph(lines, 0).value] && !Header(d) && JsLength(d) > 20
  {
    var scan := MainScan(lines, 0);
    var first := FirstParagraph(lines, 0);
    if scan.Found? then
      assert NotBlank(lines[scan.k]);
      Trim(lines[scan.k])
    else if first.Some? then lines[first.value]
    else ""
  }

  /** What `extractDescriptionFromReadme` returns. */
  function DescriptionFromReadme(readme: string): string {
    DescriptionFromLines(ReadmeLines(readme))
  }

  /** `extractDescriptionFromReadme(readme)`: the indexed loop with its
    * `continue`, `break` and early `return`, then the fallback. */
  method ExtractDescriptionFromReadme(readme: string) returns (d: string)
    ensures d == DescriptionFromReadme(readme)
  {
    var content := StripBadges(readme);
    content := StripComments(content);
    var lines := Filter(Split(content, '\n'), NotBlank);
    assert lines == ReadmeLines(readme);
    var i := 0;
    while i < |lines|
      invariant 0 <= i <= |lines|
      invariant MainScan(lines, 0) == MainScan(lines, i)
      decreases |lines| - i
    {
      var line := lines[i];
      if StartsWith(line, "#") {
        i := i + 1;
        continue;
      }
      var lower := Lower(line);
      if Includes(lower, "install") || Includes(lower, "setup") || Includes(lower, "getting started") {
        break;
      }
      if JsLength(line) > 50 {
        return Trim(line);
      }
      i := i + 1;
    }
    var first := FirstParagraph(lines, 0);
    d := if first.Some? then lines[first.value] else "";
  }

  // ---------------------------------------------------------------------
  // generateSmartDescription
  // ---------------------------------------------------------------------

  /** The README gives no description: it is empty or absent, or nothing
    * is extracted from it. */
  predicate NoReadmeDescription(p: Project) {
    !Truthy(p.readmeContent) || DescriptionFromReadme(p.readmeContent.value) == ""
  }

  /** `generateSmartDescription(project)`: README extraction, else the
    * description, else a sentence from the tech stack, else the name. It is
    * never empty, and each source is used exactly when every earlier one
    * gives nothing. */
  function SmartDescription(p: Project): (r: string)
    ensures r != ""
    ensures Truthy(p.readmeContent) && DescriptionFromReadme(p.readmeContent.value) != "" ==>
      r == DescriptionFromReadme(p.readmeContent.value)
    ensures (Truthy(p.readmeContent) && r == DescriptionFromReadme(p.readmeContent.value))
      || (Truthy(p.description) && r == p.description.value)
      || EndsWith(r, " project")
    ensures NoReadmeDescription(p) && Truthy(p.description) ==> r == p.description.value
    ensures NoReadmeDescription(p) && !Truthy(p.description) && p.techStack.Some? && |p.techStack.value| > 0 ==>
      r == "A " + Join(p.techStack.value, ", ") + " project"
    ensures NoReadmeDescription(p) && !Truthy(p.description) && (p.techStack.None? || p.techStack.value == []) ==>
      r == p.name + " project"
  {
    if Truthy(p.readmeContent) && DescriptionFromReadme(p.readmeContent.value) != "" then
      DescriptionFromReadme(p.readmeContent.value)
    else if Truthy(p.description) then p.description.value
    else if p.techStack.Some? && |p.techStack.value| > 0 then
      "A " + Join(p.techStack.value, ", ") + " project"
    else p.name + " project"
  }
}
