/** The parallel retriever of a BagIt package: reading the retrieval order
    (fetch.txt, whose lines are "url length filepath" as in section 2.2.3 of
    RFC 8493), choosing a fetch tool by URL prefix, and classifying the tool's
    exit status. Worker threads, queues, progress reporting, option parsing and
    the subprocesses themselves are outside the model: the retrieval order is
    given as its lines and a tool's exit status is an input. */
module Retriever {
  import Tokens
  import opened Text
  import opened Wrappers

  /** The characters Python 2's str.strip() and str.split() treat as whitespace. */
  predicate IsSpace(c: char) {
    c == ' ' || c == '\t' || c == '\n' || c == '\r' || c == '\U{000B}' || c == '\U{000C}'
  }

  /** line.strip().split() */
  function Fields(line: string): seq<string> {
    Tokens.Runs(Tokens.Trim(line, IsSpace), IsSpace)
  }

  /** The strip() is redundant: the fields are the maximal whitespace-free runs of
      the raw line, so the line's trailing newline never matters. */
  lemma FieldsIgnoreStrip(line: string)
    ensures Fields(line) == Tokens.Runs(line, IsSpace)
    ensures Tokens.WellFormed(Fields(line), IsSpace)
  {
    Tokens.RunsOfTrim(line, IsSpace);
  }

  /** One queued fetch: the tuple (url, size, filename) of a line's three fields. */
  datatype FetchItem = FetchItem(url: string, size: string, filename: string)

  predicate IsBlank(line: string) {
    |Fields(line)| == 0
  }

  predicate HasThreeFields(line: string) {
    |Fields(line)| == 3
  }

  /** A line the loop accepts: skipped when blank, queued when it has three fields. */
  predicate Accepted(line: string) {
    IsBlank(line) || HasThreeFields(line)
  }

  function ItemOf(line: string): FetchItem
    requires HasThreeFields(line)
  {
    var f := Fields(line);
    FetchItem(f[0], f[1], f[2])
  }

  /** The reference list of fetch items: one per three-field line, in file order. */
  function ItemsOf(lines: seq<string>): seq<FetchItem>
  {
    if lines == [] then []
    else
      var last := lines[|lines| - 1];
      ItemsOf(lines[..|lines| - 1]) + (if HasThreeFields(last) then [ItemOf(last)] else [])
  }

  /** The status sys.exit(-1) hands the operating system: -1 modulo 256. */
  const BadLineExitCode: int := -1

  function ProcessStatus(code: int): (status: int)
    ensures 0 <= status < 256
  {
    code % 256
  }

  /** How the queue-filling loop ends. */
  datatype Ending = AllQueued | Exited(code: int, lineIndex: nat)

  /** The loop of retrieve_package that fills the fetch queue. A blank line is skipped;
      a three-field line queues its tuple without any check of the size field; any
      other line stops the program with exit code -1. Items queued before that line
      have already been handed to the workers. */
  method EnqueueFetchItems(lines: seq<string>) returns (items: seq<FetchItem>, ending: Ending)
    ensures ending.AllQueued? <==> forall i :: 0 <= i < |lines| ==> Accepted(lines[i])
    ensures ending.AllQueued? ==> items == ItemsOf(lines)
    ensures ending.Exited? ==>
      && ending.code == BadLineExitCode
      && ProcessStatus(ending.code) == 255
      && ending.lineIndex < |lines|
      && !Accepted(lines[ending.lineIndex])
      && (forall i :: 0 <= i < ending.lineIndex ==> Accepted(lines[i]))
      && items == ItemsOf(lines[..ending.lineIndex])
  {
    items := [];
    var i := 0;
    while i < |lines|
      invariant 0 <= i <= |lines|
      invariant forall j :: 0 <= j < i ==> Accepted(lines[j])
      invariant items == ItemsOf(lines[..i])
    {
      var parts := Fields(lines[i]);
      assert lines[..i + 1][..i] == lines[..i];
      if |parts| == 0 {
        i := i + 1;
        continue;
      }
      if |parts| != 3 {
        ending := Exited(BadLineExitCode, i);
        return;
      }
      items := items + [FetchItem(parts[0], parts[1], parts[2])];
      i := i + 1;
    }
    assert lines[..i] == lines;
    ending := AllQueued;
  }

  /** The size field is carried but never read: any text is accepted there. */
  lemma SizeNeverValidated(url: string, size: string, filename: string)
    requires Tokens.WellFormed([url, size, filename], IsSpace)
    ensures HasThreeFields(url + " " + size + " " + filename)
    ensures ItemOf(url + " " + size + " " + filename) == FetchItem(url, size, filename)
  {
    var line := url + " " + size + " " + filename;
    Tokens.RunsOfTerminated([url, size, filename], ' ', IsSpace);
    assert [url, size, filename][1..] == [size, filename];
    assert [size, filename][1..] == [filename];
    assert Tokens.Terminated([filename], ' ') == filename + " ";
    assert Tokens.Terminated([size, filename], ' ') == size + " " + (filename + " ");
    assert Tokens.Terminated([url, size, filename], ' ') == line + " ";
    Tokens.RunsAppendSep(line, ' ', IsSpace);
    FieldsIgnoreStrip(line);
  }

  // ---------------------------------------------------------------------------
  // Choosing the fetch tool
  // ---------------------------------------------------------------------------

  datatype Fetcher = Wget | Rsync | UrlCopy

  /** The prefix tests of fetch, in their order; None is the "unexpected url type" exception. */
  function SelectFetcher(url: string): (r: Option<Fetcher>)
    // the first test that matches decides; "https" adds nothing to "http"
    ensures r == Some(Wget) <==> HasPrefix(url, "http")
    ensures HasPrefix(url, "https") ==> r == Some(Wget)
    ensures r == Some(Rsync) <==> HasPrefix(url, "rsync") && !HasPrefix(url, "http")
    ensures r == Some(UrlCopy) <==> HasPrefix(url, "file") && !HasPrefix(url, "http") && !HasPrefix(url, "rsync")
    ensures r.None? <==> !HasPrefix(url, "http") && !HasPrefix(url, "rsync") && !HasPrefix(url, "file")
  {
    HttpsIsHttp(url);
    if HasPrefix(url, "http") || HasPrefix(url, "https") then Some(Wget)
    else if HasPrefix(url, "rsync") then Some(Rsync)
    else if HasPrefix(url, "file") then Some(UrlCopy)
    else None
  }

  /** The separate "https" test can never fire: every https URL already starts with "http". */
  lemma HttpsIsHttp(url: string)
    ensures HasPrefix(url, "https") ==> HasPrefix(url, "http")
  {
    if HasPrefix(url, "https") {
      PrefixTransitive(url, "https", "http");
    }
  }

  function ProgramName(t: Fetcher): string
    requires t != UrlCopy
  {
    if t == Wget then "wget" else "rsync"
  }

  predicate IsOption(arg: string) {
    |arg| > 0 && arg[0] == '-'
  }

  /** A command line whose arguments after the program name are only options and
      the two operands, the URL and the target file. */
  predicate OnlyOptionsAndOperands(argv: seq<string>, filename: string, url: string) {
    |argv| > 0 && forall i :: 1 <= i < |argv| ==> IsOption(argv[i]) || argv[i] == filename || argv[i] == url
  }

  /** The argument list fetch hands to subprocess.call, as written: the program name
      appears twice, so the tool receives its own name as an extra operand. */
  function ToolArgvAsWritten(t: Fetcher, filename: string, url: string): (argv: seq<string>)
    requires t != UrlCopy
    ensures argv == [ProgramName(t)] + ToolArgv(t, filename, url)
  {
    if t == Wget then ["wget", "wget", "-q", "-O", filename, url]
    else ["rsync", "rsync", "-ar", url, filename]
  }

  lemma AsWrittenPassesProgramNameAsOperand(t: Fetcher, filename: string, url: string)
    requires t != UrlCopy
    requires filename != ProgramName(t) && url != ProgramName(t)
    ensures ToolArgvAsWritten(t, filename, url)[1] == ProgramName(t)
    ensures !OnlyOptionsAndOperands(ToolArgvAsWritten(t, filename, url), filename, url)
  {
    assert !IsOption(ToolArgvAsWritten(t, filename, url)[1]);
  }

  /** The argument list with the program name once, as the tools expect. */
  function ToolArgv(t: Fetcher, filename: string, url: string): (argv: seq<string>)
    requires t != UrlCopy
    ensures |argv| >= 4 && argv[0] == ProgramName(t)
    ensures OnlyOptionsAndOperands(argv, filename, url)
    ensures url in argv[1..] && filename in argv[1..]
  {
    var argv := if t == Wget then ["wget", "-q", "-O", filename, url] else ["rsync", "-ar", url, filename];
    assert argv[1..][|argv| - 2] == argv[|argv| - 1];
    assert argv[1..][|argv| - 3] == argv[|argv| - 2];
    argv
  }

  /** What fetch does for a URL: run a tool, copy through urlopen, or raise. */
  datatype Action = Spawn(argv: seq<string>) | CopyFromUrl(url: string) | Raise(message: string)

  /** The branch fetch takes, as written: wget or rsync get their program name twice. */
  function Plan(filename: string, url: string): (a: Action)
    ensures a.Raise? <==> SelectFetcher(url).None?
    ensures a.Raise? ==> a.message == "unexpected url type"
    ensures a.CopyFromUrl? <==> SelectFetcher(url) == Some(UrlCopy)
    ensures a.CopyFromUrl? ==> a.url == url
    ensures a.Spawn? ==>
      && |a.argv| >= 5 && a.argv[0] == a.argv[1]
      && (a.argv[0] == "wget" <==> HasPrefix(url, "http"))
      && url in a.argv[2..] && filename in a.argv[2..]
  {
    match SelectFetcher(url)
    case None => Raise("unexpected url type")
    case Some(UrlCopy) => CopyFromUrl(url)
    case Some(t) =>
      var argv := ToolArgvAsWritten(t, filename, url);
      assert argv[2..] == ToolArgv(t, filename, url)[1..];
      Spawn(argv)
  }

  /** The branch fetch evidently means to take: the same, with the program name once. */
  function IntendedPlan(filename: string, url: string): (a: Action)
    ensures a.Raise? <==> SelectFetcher(url).None?
    ensures a.Raise? ==> a.message == "unexpected url type"
    ensures a.CopyFromUrl? <==> SelectFetcher(url) == Some(UrlCopy)
    ensures a.CopyFromUrl? ==> a.url == url
    ensures a.Spawn? ==> OnlyOptionsAndOperands(a.argv, filename, url) && url in a.argv[1..] && filename in a.argv[1..]
  {
    match SelectFetcher(url)
    case None => Raise("unexpected url type")
    case Some(UrlCopy) => CopyFromUrl(url)
    case Some(t) => Spawn(ToolArgv(t, filename, url))
  }

  /** The two plans take the same branch and differ only by the repeated program name. */
  lemma PlanRepeatsProgramName(filename: string, url: string)
    ensures Plan(filename, url).Spawn? <==> IntendedPlan(filename, url).Spawn?
    ensures Plan(filename, url).Spawn? ==>
      Plan(filename, url).argv == [IntendedPlan(filename, url).argv[0]] + IntendedPlan(filename, url).argv
    ensures !Plan(filename, url).Spawn? ==> Plan(filename, url) == IntendedPlan(filename, url)
  {
  }

  // ---------------------------------------------------------------------------
  // Classifying the outcome
  // ---------------------------------------------------------------------------

  /** Finished: the file is reported on the progress queue. Signalled and ChildError
      are logged, and fetch returns the raw code. UnexpectedUrl is the exception. */
  datatype FetchOutcome =
    | Finished(path: string)
    | Signalled(signal: int, code: int)
    | ChildError(code: int)
    | UnexpectedUrl

  /** The return-code branches of fetch. */
  function Classify(ret: int, filename: string): (o: FetchOutcome)
    ensures o.Finished? <==> ret == 0
    ensures o.Finished? ==> o.path == filename
    ensures o.Signalled? <==> ret < 0
    ensures o.Signalled? ==> o.signal > 0 && o.signal == -ret
    ensures o.ChildError? <==> ret > 0
    ensures !o.UnexpectedUrl?
  {
    if ret == 0 then Finished(filename)
    else if ret < 0 then Signalled(-ret, ret)
    else ChildError(ret)
  }

  /** fetch(filename, url) for a child whose exit status would be childStatus; a
      urlopen copy always ends with code 0. */
  function Fetch(filename: string, url: string, childStatus: int): (o: FetchOutcome)
    ensures o.UnexpectedUrl? <==> SelectFetcher(url).None?
    ensures Plan(filename, url).CopyFromUrl? ==> o == Finished(filename)
    ensures Plan(filename, url).Spawn? ==> o == Classify(childStatus, filename)
  {
    match Plan(filename, url)
    case Raise(_) => UnexpectedUrl
    case CopyFromUrl(_) => Classify(0, filename)
    case Spawn(_) => Classify(childStatus, filename)
  }

  /** The value fetch returns: None when finished, the child's code otherwise. */
  function ReturnValue(o: FetchOutcome): Option<int>
    requires !o.UnexpectedUrl?
  {
    match o
    case Finished(_) => None
    case Signalled(_, code) => Some(code)
    case ChildError(code) => Some(code)
  }

  /** Both failure kinds return the child's exit status unchanged; success returns None. */
  lemma ReturnValueIsNonzeroStatus(ret: int, filename: string)
    ensures ReturnValue(Classify(ret, filename)) == (if ret == 0 then None else Some(ret))
  {
  }

  // ---------------------------------------------------------------------------
  // Paths
  // ---------------------------------------------------------------------------

  predicate IsAbsolute(p: string) {
    HasPrefix(p, "/")
  }

  /** posixpath.join(a, b) of Python 2. */
  function PathJoin(a: string, b: string): (r: string)
    ensures IsAbsolute(b) ==> r == b
    ensures !IsAbsolute(b) ==> HasPrefix(r, a) && HasSuffix(r, b)
    // a separator goes in exactly when a is non-empty and does not end in one
    ensures !IsAbsolute(b) && (a == "" || a[|a| - 1] == '/') ==> |r| == |a| + |b|
    ensures !IsAbsolute(b) && a != "" && a[|a| - 1] != '/' ==> |r| == |a| + 1 + |b| && r[|a|] == '/'
  {
    if IsAbsolute(b) then b
    else if a == "" || a[|a| - 1] == '/' then
      PrefixOfAppend(a, b); SuffixOfAppend(a, b);
      a + b
    else
      PrefixOfAppend(a, "/" + b); SuffixOfAppend(a + "/", b);
      assert a + "/" + b == a + ("/" + b);
      a + "/" + b
  }

  /** retrieve_package's package directory: join(destination_path, package_identifier). */
  function PackageDirectory(destinationPath: string, packageIdentifier: string): string {
    PathJoin(destinationPath, packageIdentifier)
  }

  /** What a worker does with one queued item: fetch it to join(package_directory, filename). */
  function Work(packageDirectory: string, item: FetchItem, childStatus: int): FetchOutcome {
    Fetch(PathJoin(packageDirectory, item.filename), item.url, childStatus)
  }

  /** The target of an item: inside the package directory for a relative file path; an
      absolute file path is used as it stands. The size plays no part. */
  lemma WorkTarget(destinationPath: string, packageIdentifier: string, item: FetchItem, size: string, childStatus: int)
    ensures var dir := PackageDirectory(destinationPath, packageIdentifier);
      var target := PathJoin(dir, item.filename);
      && Work(dir, item, childStatus) == Work(dir, item.(size := size), childStatus)
      // a relative file name lands inside dir, starting at a path boundary
      && (!IsAbsolute(item.filename) ==>
            && HasPrefix(target, dir)
            && (dir == "" || dir[|dir| - 1] == '/' || (|target| > |dir| && target[|dir|] == '/')))
      && (IsAbsolute(item.filename) ==> target == item.filename)
      && (Work(dir, item, childStatus).Finished? ==> Work(dir, item, childStatus).path == target)
  {
    var resized := item.(size := size);
    assert resized.url == item.url && resized.filename == item.filename;
  }
}
