/** src/report_generator.py: the one Markdown report of a run.

    The clock, the `:.1f` rendering of a float and `Path.exists` are inputs
    (an `Environment`); writing the file is left to the caller, which gets
    the path, the lines and their "\n"-joined text back. */
module Reports {
  import opened Common
  import opened Gemini
  import Paths
  import Parallel

  /** What `generate` reads from outside its arguments: the two
      `datetime.now()` renderings (`%Y-%m-%d_%H-%M` for the file name,
      `%Y-%m-%d %H:%M:%S` for the header), `f"{x:.1f}"` and
      `Path.exists`. */
  datatype Environment = Environment(
    fileStamp: string,
    headerStamp: string,
    fmt: real -> string,
    fileExists: string -> bool)

  /** The written report: where it goes, its lines and the file's text. */
  datatype Report = Report(path: string, lines: seq<string>, content: string)

  predicate IsSuccess(r: SolveResult) { r.success }

  predicate IsFailure(r: SolveResult) { !r.success }

  /** `[r for r in results if r["success"]]`. */
  function Successful(rs: seq<SolveResult>): seq<SolveResult> {
    Filter(rs, IsSuccess)
  }

  /** `[r for r in results if not r["success"]]`. */
  function Failed(rs: seq<SolveResult>): seq<SolveResult> {
    Filter(rs, IsFailure)
  }

  /** `sum(r["time_taken"] for r in results)`. */
  function TotalTime(rs: seq<SolveResult>): real {
    if rs == [] then 0.0 else TotalTime(rs[..|rs| - 1]) + rs[|rs| - 1].timeTaken
  }

  lemma TotalTimeSnoc(rs: seq<SolveResult>, x: SolveResult)
    ensures TotalTime(rs + [x]) == TotalTime(rs) + x.timeTaken
  {
    assert (rs + [x])[..|rs|] == rs;
  }

  /** Every result lands in exactly one of the two lists, which count the
      successes and the failures. */
  lemma {:induction false} PartitionSizes(rs: seq<SolveResult>)
    ensures |Successful(rs)| == Parallel.SuccessCount(rs)
    ensures |Failed(rs)| == Parallel.FailureCount(rs)
    ensures |Successful(rs)| + |Failed(rs)| == |rs|
  {
    if rs != [] {
      PartitionSizes(rs[..|rs| - 1]);
    }
  }

  /** The two lists together hold each result exactly as often as the input,
      and each keeps the input's order (filtering commutes with concatenation). */
  lemma PartitionExactly(rs: seq<SolveResult>, x: SolveResult, a: seq<SolveResult>, b: seq<SolveResult>)
    requires rs == a + b
    ensures multiset(Successful(rs))[x] + multiset(Failed(rs))[x] == multiset(rs)[x]
    ensures x in Failed(rs) <==> x in rs && !x.success
    ensures Successful(rs) == Successful(a) + Successful(b)
    ensures Failed(rs) == Failed(a) + Failed(b)
  {
    FilterCounts(rs, IsSuccess, x);
    FilterCounts(rs, IsFailure, x);
    FilterMembership(rs, IsFailure, x);
    FilterAppend(a, b, IsSuccess);
    FilterAppend(a, b, IsFailure);
  }

  /** The total time is the time of the successes plus that of the failures. */
  lemma {:induction false} TotalTimeSplits(rs: seq<SolveResult>)
    ensures TotalTime(rs) == TotalTime(Successful(rs)) + TotalTime(Failed(rs))
  {
    if rs != [] {
      var init := rs[..|rs| - 1];
      var last := rs[|rs| - 1];
      TotalTimeSplits(init);
      assert Successful(rs) == Successful(init) + (if last.success then [last] else []);
      assert Failed(rs) == Failed(init) + (if last.success then [] else [last]);
      assert TotalTime(rs) == TotalTime(init) + last.timeTaken;
      if last.success {
        TotalTimeSnoc(Successful(init), last);
        assert Failed(rs) == Failed(init);
        assert TotalTime(Successful(rs)) == TotalTime(Successful(init)) + last.timeTaken;
      } else {
        TotalTimeSnoc(Failed(init), last);
        assert Successful(rs) == Successful(init);
        assert TotalTime(Failed(rs)) == TotalTime(Failed(init)) + last.timeTaken;
      }
    }
  }

  /** `avg_time = total_time / len(results)` (the report is built only for
      a non-empty list). */
  function AverageTime(rs: seq<SolveResult>): (avg: real)
    requires rs != []
    ensures avg * (|rs| as real) == TotalTime(rs)
  {
    TotalTime(rs) / (|rs| as real)
  }

  /** `len(successful) / len(results) * 100`: a percentage, 100 exactly
      when nothing failed and 0 exactly when nothing succeeded. */
  function SuccessRate(rs: seq<SolveResult>): (rate: real)
    requires rs != []
    ensures 0.0 <= rate <= 100.0
    ensures rate == 100.0 <==> Failed(rs) == []
    ensures rate == 0.0 <==> Successful(rs) == []
  {
    PartitionSizes(rs);
    (|Successful(rs)| as real) / (|rs| as real) * 100.0
  }

  /** `f"{result['error']}"`: the message, or `None` when there is none. */
  function ErrorText(error: Option<string>): (t: string)
    ensures error.Some? ==> t == error.value
    ensures error.None? ==> t == "None"
  {
    error.GetOr("None")
  }

  /** A result the report can render: `"\n".join` needs a successful
      result's solution to be a string. */
  predicate Renderable(r: SolveResult) {
    r.success ==> r.solution.Some?
  }

  predicate AllRenderable(rs: seq<SolveResult>) {
    forall i :: 0 <= i < |rs| ==> Renderable(rs[i])
  }

  /** The statistics table of a report. */
  datatype Summary = Summary(total: nat, successful: nat, failed: nat, successRate: real,
                             totalTime: real, averageTime: real)

  /** The statistics `generate` computes before writing anything. */
  function Summarize(rs: seq<SolveResult>): (s: Summary)
    requires rs != []
    ensures s.total == |rs| && s.successful + s.failed == s.total
    ensures s.successful == Parallel.SuccessCount(rs) && s.failed == Parallel.FailureCount(rs)
    ensures s.totalTime == TotalTime(Successful(rs)) + TotalTime(Failed(rs))
    ensures s.averageTime == AverageTime(rs) && s.successRate == SuccessRate(rs)
  {
    PartitionSizes(rs);
    TotalTimeSplits(rs);
    Summary(|rs|, |Successful(rs)|, |Failed(rs)|, SuccessRate(rs), TotalTime(rs), AverageTime(rs))
  }

  /** The first line of every report. */
  const Title: string := "# 📝 Soru Çözüm Raporu"

  /** The title of the failure list. */
  const FailedTitle: string := "## ⚠️ Başarısız Sorular"

  /** The statistics row with the number of questions. */
  function TotalLine(n: nat): string {
    "| **Toplam Soru** | " + NatToString(n) + " |"
  }

  /** The fixed title, the stamp, the source folder and the statistics table. */
  function Header(s: Summary, questionsDir: string, env: Environment): seq<string>
  {
    [ Title,
      "",
      "**Oluşturulma Tarihi**: " + env.headerStamp,
      "**Kaynak Klasör**: `" + questionsDir + "`",
      "",
      "---",
      "",
      "## 📊 Özet İstatistikler",
      "",
      "| Metrik | Değer |",
      "|--------|-------|",
      TotalLine(s.total),
      "| **Başarılı** | " + NatToString(s.successful) + " ✅ |",
      "| **Başarısız** | " + NatToString(s.failed) + " ❌ |",
      "| **Başarı Oranı** | " + env.fmt(s.successRate) + "% |",
      "| **Toplam Süre** | " + env.fmt(s.totalTime) + " saniye |",
      "| **Ortalama Süre** | " + env.fmt(s.averageTime) + " saniye/soru |",
      "",
      "---",
      "",
      "## 📋 Çözümler",
      "" ]
  }

  /** The number of header lines before the first question. */
  const HeaderLength: nat := 22

  lemma HeaderLengthIs(s: Summary, questionsDir: string, env: Environment)
    ensures |Header(s, questionsDir, env)| == HeaderLength
    ensures Header(s, questionsDir, env)[0] == Title
    ensures Header(s, questionsDir, env)[11] == TotalLine(s.total)
  {
  }

  lemma Associative(a: seq<string>, b: seq<string>, c: seq<string>)
    ensures a + b + c == a + (b + c)
  {
  }

  /** The first part of a four-part list is its prefix, the last its suffix. */
  lemma FirstAndLastParts(a: seq<string>, b: seq<string>, c: seq<string>, d: seq<string>)
    ensures |a + b + c + d| == |a| + |b| + |c| + |d|
    ensures (a + b + c + d)[..|a|] == a
    ensures (a + b + c + d)[|a + b + c|..] == d
  {
  }

  /** A slice of the middle part of a three-part list. */
  lemma SliceOfSecond(a: seq<string>, b: seq<string>, c: seq<string>, d: seq<string>, i: nat, j: nat)
    requires i <= j <= |b|
    ensures |a + b + c + d| == |a| + |b| + |c| + |d|
    ensures (a + b + c + d)[|a| + i..|a| + j] == b[i..j]
  {
  }

  function Heading(i: nat, filename: string): string {
    "### Soru " + NatToString(i) + ": `" + filename + "`"
  }

  function ImageLine(filename: string, path: string): string {
    "![" + filename + "](" + path + ")"
  }

  function TimeLine(r: SolveResult, env: Environment): string {
    "**⏱️ Çözüm Süresi**: " + env.fmt(r.timeTaken) + "s"
  }

  function ErrorLine(r: SolveResult): string {
    "**❌ Hata**: " + ErrorText(r.error)
  }

  /** The lines of question `i` (counted from 1): heading, the image when it
      exists under the questions folder, then the solution or the error, then
      a rule. */
  function Entry(i: nat, r: SolveResult, questionsDir: string, env: Environment): seq<string>
    requires Renderable(r)
  {
    var path := Paths.Join(questionsDir, r.filename);
    [Heading(i, r.filename), ""]
    + (if env.fileExists(path) then [ImageLine(r.filename, path), ""] else [])
    + (if r.success then [TimeLine(r, env), "", "#### 💡 Çözüm:", "", r.solution.value, ""]
       else [ErrorLine(r), ""])
    + ["---", ""]
  }

  /** Where each part of an entry sits: the image line only when the file
      exists, the time, the heading and the solution only on success, the
      error only on failure. */
  lemma EntryLayout(i: nat, r: SolveResult, questionsDir: string, env: Environment)
    requires Renderable(r)
    ensures var e := Entry(i, r, questionsDir, env);
      var path := Paths.Join(questionsDir, r.filename);
      var b := if env.fileExists(path) then 4 else 2;
      |e| == b + (if r.success then 6 else 2) + 2
      && e[0] == Heading(i, r.filename) && e[1] == ""
      && (env.fileExists(path) ==> e[2] == ImageLine(r.filename, path) && e[3] == "")
      && (r.success ==> e[b] == TimeLine(r, env) && e[b + 2] == "#### 💡 Çözüm:"
                        && e[b + 4] == r.solution.value)
      && (!r.success ==> e[b] == ErrorLine(r))
      && e[|e| - 2] == "---" && e[|e| - 1] == ""
  {
  }

  lemma EntryOpens(i: nat, r: SolveResult, questionsDir: string, env: Environment)
    requires Renderable(r)
    ensures |Entry(i, r, questionsDir, env)| >= 2 && Entry(i, r, questionsDir, env)[0] == Heading(i, r.filename)
  {
  }

  /** The entries of the first `n` results, numbered from 1. */
  function EntriesUpTo(rs: seq<SolveResult>, n: nat, questionsDir: string, env: Environment): seq<string>
    requires n <= |rs| && AllRenderable(rs)
  {
    if n == 0 then [] else EntriesUpTo(rs, n - 1, questionsDir, env) + Entry(n, rs[n - 1], questionsDir, env)
  }

  /** The entries of fewer results are a prefix of those of more. */
  lemma {:induction false} EntriesPrefix(rs: seq<SolveResult>, m: nat, n: nat, questionsDir: string, env: Environment)
    requires m <= n <= |rs| && AllRenderable(rs)
    ensures var short := EntriesUpTo(rs, m, questionsDir, env);
      var long := EntriesUpTo(rs, n, questionsDir, env);
      |short| <= |long| && long[..|short|] == short
    decreases n - m
  {
    if m < n {
      EntriesPrefix(rs, m, n - 1, questionsDir, env);
      var short := EntriesUpTo(rs, m, questionsDir, env);
      var mid := EntriesUpTo(rs, n - 1, questionsDir, env);
      assert (mid + Entry(n, rs[n - 1], questionsDir, env))[..|short|] == mid[..|short|];
    }
  }

  /** Where the entry of result `k` (0-based) starts among the entries. */
  function Offset(rs: seq<SolveResult>, k: nat, questionsDir: string, env: Environment): nat
    requires k <= |rs| && AllRenderable(rs)
  {
    |EntriesUpTo(rs, k, questionsDir, env)|
  }

  /** The entries come in result order: result `k` is rendered, numbered
      `k + 1`, between `Offset(k)` and `Offset(k + 1)`. */
  lemma EntryAt(rs: seq<SolveResult>, n: nat, k: nat, questionsDir: string, env: Environment)
    requires k < n <= |rs| && AllRenderable(rs)
    ensures var all := EntriesUpTo(rs, n, questionsDir, env);
      Offset(rs, k, questionsDir, env) < Offset(rs, k + 1, questionsDir, env) <= |all|
      && all[Offset(rs, k, questionsDir, env)..Offset(rs, k + 1, questionsDir, env)]
         == Entry(k + 1, rs[k], questionsDir, env)
  {
    EntriesPrefix(rs, k + 1, n, questionsDir, env);
    var all := EntriesUpTo(rs, n, questionsDir, env);
    var before := EntriesUpTo(rs, k, questionsDir, env);
    var e := Entry(k + 1, rs[k], questionsDir, env);
    var upTo := EntriesUpTo(rs, k + 1, questionsDir, env);
    assert upTo == before + e;
    assert all[..|upTo|] == upTo;
    assert all[|before|..|upTo|] == upTo[|before|..];
    assert upTo[|before|..] == e;
  }

  /** `f"- `{result['filename']}`: {result['error']}"`. */
  function FailedLine(r: SolveResult): string {
    "- `" + r.filename + "`: " + ErrorText(r.error)
  }

  function FailedItems(fs: seq<SolveResult>): (items: seq<string>)
    ensures |items| == |fs| && forall j :: 0 <= j < |fs| ==> items[j] == FailedLine(fs[j])
  {
    seq(|fs|, j requires 0 <= j < |fs| => FailedLine(fs[j]))
  }

  lemma FailedItemsSnoc(fs: seq<SolveResult>, j: nat)
    requires j < |fs|
    ensures FailedItems(fs[..j + 1]) == FailedItems(fs[..j]) + [FailedLine(fs[j])]
  {
  }

  /** The list of failed questions, present only when something failed. */
  function FailedSection(fs: seq<SolveResult>): seq<string> {
    if fs == [] then [] else [FailedTitle, ""] + FailedItems(fs) + ["", "---", ""]
  }

  const FooterLine: string := "*Bu rapor Gemini Parallel Question Solver tarafından otomatik oluşturulmuştur.*"

  /** All the lines of the report, in order. */
  function ReportLines(rs: seq<SolveResult>, questionsDir: string, env: Environment): seq<string>
    requires rs != [] && AllRenderable(rs)
  {
    Header(Summarize(rs), questionsDir, env) + EntriesUpTo(rs, |rs|, questionsDir, env)
    + FailedSection(Failed(rs)) + ["", FooterLine]
  }

  /** The report opens with the title and the header and closes with the footer. */
  lemma ReportFrame(rs: seq<SolveResult>, questionsDir: string, env: Environment)
    requires rs != [] && AllRenderable(rs)
    ensures var lines := ReportLines(rs, questionsDir, env);
      |lines| >= HeaderLength + 2
      && lines[..HeaderLength] == Header(Summarize(rs), questionsDir, env)
      && lines[0] == Title
      && lines[11] == "| **Toplam Soru** | " + NatToString(|rs|) + " |"
      && lines[|lines| - 2] == "" && lines[|lines| - 1] == FooterLine
  {
    var h := Header(Summarize(rs), questionsDir, env);
    var e := EntriesUpTo(rs, |rs|, questionsDir, env);
    var f := FailedSection(Failed(rs));
    var tail := ["", FooterLine];
    var lines := ReportLines(rs, questionsDir, env);
    assert lines == h + e + f + tail;
    HeaderLengthIs(Summarize(rs), questionsDir, env);
    FirstAndLastParts(h, e, f, tail);
    assert lines[0] == h[0];
    assert lines[11] == h[11];
    assert lines[|lines| - 2..] == tail;
  }

  /** The text of the report starts with its title line and ends with the footer. */
  lemma ReportText(rs: seq<SolveResult>, questionsDir: string, env: Environment)
    requires rs != [] && AllRenderable(rs)
    ensures var content := Join("\n", ReportLines(rs, questionsDir, env));
      |content| >= |FooterLine| && content[|content| - |FooterLine|..] == FooterLine
      && StartsWith(content, Title + "\n")
  {
    var lines := ReportLines(rs, questionsDir, env);
    ReportFrame(rs, questionsDir, env);
    JoinEndsWithLast("\n", lines);
    JoinStartsWithFirst("\n", lines);
  }

  /** The entry of every result appears right after the header, in result order. */
  lemma ReportEntry(rs: seq<SolveResult>, k: nat, questionsDir: string, env: Environment)
    requires k < |rs| && AllRenderable(rs)
    ensures var lines := ReportLines(rs, questionsDir, env);
      var start := HeaderLength + Offset(rs, k, questionsDir, env);
      var end := HeaderLength + Offset(rs, k + 1, questionsDir, env);
      start < end <= |lines| && lines[start..end] == Entry(k + 1, rs[k], questionsDir, env)
      && lines[start] == Heading(k + 1, rs[k].filename)
  {
    EntryAt(rs, |rs|, k, questionsDir, env);
    var h := Header(Summarize(rs), questionsDir, env);
    HeaderLengthIs(Summarize(rs), questionsDir, env);
    var all := EntriesUpTo(rs, |rs|, questionsDir, env);
    var f := FailedSection(Failed(rs));
    var start := Offset(rs, k, questionsDir, env);
    var end := Offset(rs, k + 1, questionsDir, env);
    var lines := ReportLines(rs, questionsDir, env);
    assert lines == h + all + f + ["", FooterLine];
    SliceOfSecond(h, all, f, ["", FooterLine], start, end);
    var e := Entry(k + 1, rs[k], questionsDir, env);
    assert lines[HeaderLength + start..HeaderLength + end] == e;
    EntryOpens(k + 1, rs[k], questionsDir, env);
    assert lines[HeaderLength + start] == e[0];
  }

  /** The failure list appears after the entries exactly when some result
      failed, and names every failure, in result order. */
  lemma ReportFailures(rs: seq<SolveResult>, questionsDir: string, env: Environment)
    requires rs != [] && AllRenderable(rs)
    ensures Failed(rs) == [] <==> forall i :: 0 <= i < |rs| ==> rs[i].success
    ensures var lines := ReportLines(rs, questionsDir, env);
      var base := HeaderLength + |EntriesUpTo(rs, |rs|, questionsDir, env)|;
      var fs := Failed(rs);
      (fs == [] ==> |lines| == base + 2)
      && (fs != [] ==> |lines| == base + |fs| + 7
                       && lines[base] == FailedTitle
                       && forall j :: 0 <= j < |fs| ==> lines[base + 2 + j] == FailedLine(fs[j]))
  {
    var fs := Failed(rs);
    if fs == [] {
      forall i | 0 <= i < |rs| ensures rs[i].success {
        FilterMembership(rs, IsFailure, rs[i]);
      }
    } else {
      assert IsFailure(fs[0]);
      FilterMembership(rs, IsFailure, fs[0]);
    }
    var h := Header(Summarize(rs), questionsDir, env);
    var e := EntriesUpTo(rs, |rs|, questionsDir, env);
    var f := FailedSection(fs);
    var lines := ReportLines(rs, questionsDir, env);
    assert lines == h + e + f + ["", FooterLine];
    HeaderLengthIs(Summarize(rs), questionsDir, env);
    FailedSectionLayout(fs);
    forall k | 0 <= k < |f| ensures lines[|h| + |e| + k] == f[k] {
      ThirdPart(h, e, f, ["", FooterLine], k);
    }
  }

  /** Where the lines of the failure list sit. */
  lemma FailedSectionLayout(fs: seq<SolveResult>)
    ensures fs == [] ==> FailedSection(fs) == []
    ensures fs != [] ==> |FailedSection(fs)| == |fs| + 5 && FailedSection(fs)[0] == FailedTitle
                         && forall j :: 0 <= j < |fs| ==> FailedSection(fs)[2 + j] == FailedLine(fs[j])
  {
    if fs != [] {
      var items := FailedItems(fs);
      var section := [FailedTitle, ""] + items + ["", "---", ""];
      assert FailedSection(fs) == section;
      forall j | 0 <= j < |fs| ensures section[2 + j] == FailedLine(fs[j]) {
        assert section[2 + j] == items[j];
      }
    }
  }

  /** An element of the third part of a four-part list. */
  lemma ThirdPart(a: seq<string>, b: seq<string>, c: seq<string>, d: seq<string>, k: nat)
    requires k < |c|
    ensures |a + b + c + d| == |a| + |b| + |c| + |d|
    ensures (a + b + c + d)[|a| + |b| + k] == c[k]
  {
  }

  /** `output_filename`, or `rapor_<stamp>.md` when it is missing or empty. */
  function OutputName(outputFilename: Option<string>, stamp: string): (name: string)
    ensures outputFilename.Some? && outputFilename.value != "" ==> name == outputFilename.value
    ensures outputFilename.None? || outputFilename.value == "" ==>
              StartsWith(name, "rapor_") && name[|name| - 3..] == ".md"
  {
    if outputFilename.Some? && outputFilename.value != "" then outputFilename.value
    else "rapor_" + stamp + ".md"
  }

  /** One pass of the `for i, result in enumerate(results, 1)` loop: the
      lines of question `i` appended to `lines`. */
  method AppendEntry(lines: seq<string>, i: nat, result: SolveResult, questionsDir: string,
                     env: Environment) returns (out: seq<string>)
    requires Renderable(result)
    ensures out == lines + Entry(i, result, questionsDir, env)
  {
    out := lines + [Heading(i, result.filename), ""];
    var imagePath := Paths.Join(questionsDir, result.filename);
    if env.fileExists(imagePath) {
      out := out + [ImageLine(result.filename, imagePath), ""];
    }
    if result.success {
      out := out + [TimeLine(result, env), "", "#### 💡 Çözüm:", "", result.solution.value, ""];
    } else {
      out := out + [ErrorLine(result), ""];
    }
    out := out + ["---", ""];
  }

  /** The `if failed:` block: the title, one line per failed result in
      order, and a closing rule, appended to `lines`; nothing when no result
      failed. */
  method AppendFailedSection(lines: seq<string>, failed: seq<SolveResult>) returns (out: seq<string>)
    ensures out == lines + FailedSection(failed)
  {
    out := lines;
    if failed != [] {
      out := out + [FailedTitle, ""];
      ghost var titled := out;
      for j := 0 to |failed|
        invariant out == titled + FailedItems(failed[..j])
      {
        FailedItemsSnoc(failed, j);
        Associative(titled, FailedItems(failed[..j]), [FailedLine(failed[j])]);
        out := out + [FailedLine(failed[j])];
      }
      assert failed[..|failed|] == failed;
      Associative(lines, [FailedTitle, ""], FailedItems(failed));
      Associative(lines, [FailedTitle, ""] + FailedItems(failed), ["", "---", ""]);
      out := out + ["", "---", ""];
    }
  }

  /** The `report_lines` list `generate` builds: the header, the entries in
      result order, the failure list and the footer. */
  method RenderLines(results: seq<SolveResult>, questionsDir: string, env: Environment) returns (lines: seq<string>)
    requires results != [] && AllRenderable(results)
    ensures lines == ReportLines(results, questionsDir, env)
  {
    lines := Header(Summarize(results), questionsDir, env);
    ghost var header := lines;
    for i := 0 to |results|
      invariant lines == header + EntriesUpTo(results, i, questionsDir, env)
    {
      ghost var before := EntriesUpTo(results, i, questionsDir, env);
      lines := AppendEntry(lines, i + 1, results[i], questionsDir, env);
      Associative(header, before, Entry(i + 1, results[i], questionsDir, env));
    }
    lines := AppendFailedSection(lines, Failed(results));
    lines := lines + ["", FooterLine];
  }

  class ReportGenerator {
    const outputDir: string

    /** `ReportGenerator(output_dir)`: the directory given, else OUTPUT_DIR
        (passed in as `defaultDir`); an empty string is falsy and counts as
        not given. */
    constructor (outputDir: Option<string>, defaultDir: string)
      ensures outputDir.Some? && outputDir.value != "" ==> this.outputDir == outputDir.value
      ensures outputDir.None? || outputDir.value == "" ==> this.outputDir == defaultDir
    {
      this.outputDir := if outputDir.Some? && outputDir.value != "" then outputDir.value else defaultDir;
    }

    /** `generate(results, questions_dir, output_filename)`: no report for
        no results; otherwise the report's path under the output directory,
        its lines and the text written there. */
    method Generate(results: seq<SolveResult>, questionsDir: string, outputFilename: Option<string>,
                    env: Environment) returns (r: Option<Report>)
      requires AllRenderable(results)
      ensures r.None? <==> results == []
      ensures r.Some? ==> r.value.path == Paths.Join(outputDir, OutputName(outputFilename, env.fileStamp))
      ensures r.Some? ==> r.value.lines == ReportLines(results, questionsDir, env)
      ensures r.Some? ==> r.value.content == Join("\n", r.value.lines)
    {
      if results == [] {
        return None;
      }
      var filename := OutputName(outputFilename, env.fileStamp);
      var outputPath := Paths.Join(outputDir, filename);
      var lines := RenderLines(results, questionsDir, env);
      var content := Join("\n", lines);
      r := Some(Report(outputPath, lines, content));
    }
  }
}
