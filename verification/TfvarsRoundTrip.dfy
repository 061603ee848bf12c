/**
  Printer and parser of the registry file undo each other on exactly the registries whose
  names can be written on a line; a host that ends with a newline is lost.
 */
module TfvarsRoundTrip {
  import opened Common
  import opened HostPolicy
  import opened Sorting
  import opened TextLines
  import opened Tfvars

  /** Not empty, no quote, no line break. */
  predicate Name(s: string) {
    s != "" && OneLine(s) && NoQuote(s)
  }

  predicate NoQuote(s: string) {
    forall i :: 0 <= i < |s| ==> s[i] != '"'
  }

  predicate Names(s: seq<string>) {
    forall i :: 0 <= i < |s| ==> Name(s[i])
  }

  predicate Clean(registry: Registry) {
    forall l :: l in registry ==> Name(l) && Name(registry[l])
  }

  /** A host that the printer breaks over three lines, none of which the parser reads. */
  predicate Broken(host: string, repo: string) {
    && host != "" && Last(host) == '\n' && Name(Front(host)) && !Blank(Last(Front(host)))
    && repo != "" && !Blank(repo[0]) && repo[0] != '='
  }

  predicate Printable(host: string, repo: string) {
    Name(repo) && (Name(host) || Broken(host, repo))
  }

  predicate AllPrintable(registry: Registry) {
    forall l :: l in registry ==> Printable(l, registry[l])
  }

  /** The part of a registry that can be read back. */
  function Legible(registry: Registry): Registry {
    map l | l in registry && Name(l) :: registry[l]
  }

  /** A header of comments: it ends its last line, and its other lines are empty or start with a hash. */
  predicate CommentsOnly(header: string) {
    && (header == "" || LineBreak(Last(header)))
    && forall i :: 0 <= i < |Lines(header)| ==> Lines(header)[i] == "" || Lines(header)[i][0] == '#'
  }

  // ---- One line ----

  lemma {:induction false} ToQuoteIs(name: string, tail: string)
    requires NoQuote(name)
    ensures ToQuote(name + "\"" + tail) == |name|
  {
    var s := name + "\"" + tail;
    if name == "" {
      assert s[0] == '"';
    } else {
      assert s[0] == name[0] && s[1..] == name[1..] + "\"" + tail;
      ToQuoteIs(name[1..], tail);
    }
  }

  lemma QuotedIs(name: string, tail: string)
    requires name != "" && NoQuote(name)
    ensures Quoted("\"" + name + "\"" + tail) == Some((name, tail))
  {
    var s := "\"" + name + "\"" + tail;
    assert s[1..] == name + "\"" + tail;
    ToQuoteIs(name, tail);
    assert s[1..|name| + 1] == name && s[|name| + 2..] == tail;
  }

  lemma LineIs(host: string, repo: string, gap: string, tail: string)
    requires Name(host) && Name(repo)
    requires forall i :: 0 <= i < |gap| ==> gap[i] == ' '
    ensures ParseLine("\"" + host + "\"" + (gap + ("= " + ("\"" + repo + "\"" + tail)))) == Some((host, repo))
  {
    var quoted := "\"" + repo + "\"" + tail;
    var equals := "= " + quoted;
    QuotedIs(host, gap + equals);
    SkipBlanksPast(gap, equals);
    assert equals[1..] == " " + quoted;
    SkipBlanksPast(" ", quoted);
    QuotedIs(repo, tail);
  }

  function Gap(width: nat, host: string): string {
    Spaces(if |host| + 2 < width then width - |host| - 2 else 0)
  }

  function Bare(repo: string, width: nat, host: string): string {
    "\"" + host + "\"" + (Gap(width, host) + ("= " + ("\"" + repo + "\"" + (" # " + host + ".prod.fuzefront.com"))))
  }

  lemma EntryLineIs(repo: string, width: nat, host: string)
    ensures EntryLine(repo, width, host) == "  " + Bare(repo, width, host)
  {
    assert |"\"" + host + "\""| == |host| + 2;
  }

  lemma StripEntry(repo: string, width: nat, host: string)
    ensures Strip(EntryLine(repo, width, host)) == Bare(repo, width, host)
  {
    var line := Bare(repo, width, host);
    EntryLineIs(repo, width, host);
    assert line[0] == '"' && Last(line) == 'm';
    SkipBlanksPast("  ", line);
  }

  lemma EntryIs(parse: LineParser, line: string, bare: string, host: string, repo: string)
    requires Strip(line) == bare && parse(bare) == Some((host, repo))
    ensures EntryWith(parse)(line) == map[host := repo]
  {
  }

  lemma EntryLineParses(repo: string, width: nat, host: string)
    requires Name(host) && Name(repo)
    ensures LineEntry()(EntryLine(repo, width, host)) == map[host := repo]
  {
    StripEntry(repo, width, host);
    LineIs(host, repo, Gap(width, host), " # " + host + ".prod.fuzefront.com");
    EntryIs(ParseLine, EntryLine(repo, width, host), Bare(repo, width, host), host, repo);
  }

  /** The parser takes nothing from a line that does not start with a quote. */
  ghost predicate NeedsQuote(parse: LineParser) {
    forall s: string :: (s == "" || s[0] != '"') ==> parse(s) == None
  }

  lemma ParseLineNeedsQuote()
    ensures NeedsQuote(ParseLine)
  {
  }

  lemma NothingParsed(parse: LineParser, line: string)
    requires NeedsQuote(parse) && (SkipBlanks(line) == "" || SkipBlanks(line)[0] != '"')
    ensures EntryWith(parse)(line) == map[]
  {
    var s := SkipBlanks(line);
    if s != "" {
      StripKeepsStart(s);
    }
    assert parse(Strip(line)) == None;
  }

  lemma NoEntry(line: string)
    requires SkipBlanks(line) == "" || SkipBlanks(line)[0] != '"'
    ensures LineEntry()(line) == map[]
  {
    ParseLineNeedsQuote();
    NothingParsed(ParseLine, line);
  }

  // ---- A host that ends with a newline ----

  /** The first of its lines, without the blanks in front. */
  function Opening(name: string): string {
    "\"" + name
  }

  /** The second of its lines. */
  function Closing(gap: string, repo: string, name: string): string {
    "\"" + (gap + "= ") + "\"" + (repo + ("\" # " + name))
  }

  lemma {:induction false} NoQuoteFound(s: string)
    requires NoQuote(s)
    ensures ToQuote(s) == |s|
  {
    if s != "" {
      NoQuoteFound(s[1..]);
    }
  }

  lemma OpeningParsesNot(name: string)
    requires NoQuote(name)
    ensures ParseLine(Opening(name)) == None
  {
    assert Opening(name)[1..] == name;
    NoQuoteFound(name);
  }

  lemma ClosingParsesNot(gap: string, repo: string, name: string)
    requires NoQuote(gap) && repo != "" && !Blank(repo[0]) && repo[0] != '='
    ensures ParseLine(Closing(gap, repo, name)) == None
  {
    var rest := repo + ("\" # " + name);
    QuotedIs(gap + "= ", rest);
    assert rest[0] == repo[0] && SkipBlanks(rest) == rest;
  }

  lemma StripOpening(name: string)
    requires name != "" && !Blank(Last(name))
    ensures Strip("  " + Opening(name)) == Opening(name)
  {
    assert Last(Opening(name)) == Last(name);
    SkipBlanksPast("  ", Opening(name));
  }

  lemma StripClosing(gap: string, repo: string, name: string)
    requires name != "" && !Blank(Last(name))
    ensures Strip(Closing(gap, repo, name)) == Closing(gap, repo, name)
  {
    assert Last(Closing(gap, repo, name)) == Last(name);
  }

  lemma NothingWith(parse: LineParser, line: string, bare: string)
    requires Strip(line) == bare && parse(bare) == None
    ensures EntryWith(parse)(line) == map[]
  {
  }

  ghost predicate SkipsBroken(f: string -> Registry, gap: string, repo: string, name: string) {
    f("  " + Opening(name)) == map[] && f(Closing(gap, repo, name)) == map[]
  }

  lemma LineEntrySkipsBroken(gap: string, repo: string, name: string)
    requires NoQuote(gap) && Broken(name + "\n", repo)
    ensures SkipsBroken(LineEntry(), gap, repo, name)
  {
    Snoc(name, '\n');
    StripOpening(name);
    OpeningParsesNot(name);
    NothingWith(ParseLine, "  " + Opening(name), Opening(name));
    StripClosing(gap, repo, name);
    ClosingParsesNot(gap, repo, name);
    NothingWith(ParseLine, Closing(gap, repo, name), Closing(gap, repo, name));
  }

  const SUFFIX := ".prod.fuzefront.com"

  lemma BrokenEntryText(repo: string, width: nat, name: string)
    ensures EntryLine(repo, width, name + "\n")
            == ("  " + Opening(name) + "\n") + (Closing(Gap(width, name + "\n"), repo, name) + "\n") + SUFFIX
  {
    EntryLineIs(repo, width, name + "\n");
  }

  lemma OpeningIsOneLine(name: string)
    requires OneLine(name)
    ensures OneLine("  " + Opening(name))
  {
  }

  lemma ClosingIsOneLine(gap: string, repo: string, name: string)
    requires OneLine(gap) && OneLine(repo) && OneLine(name)
    ensures OneLine(Closing(gap, repo, name))
  {
  }

  lemma ThreeLines(a: string, b: string, c: string)
    requires OneLine(a) && OneLine(b) && OneLine(c)
    ensures Lines((a + "\n") + (b + "\n") + c + "\n") == [a, b, c]
  {
    LinesOfOne(a, '\n');
    LinesOfOne(b, '\n');
    LinesOfOne(c, '\n');
    LinesSplit(b + "\n", c + "\n");
    LinesSplit(a + "\n", (b + "\n") + (c + "\n"));
    assert (a + "\n") + (b + "\n") + c + "\n" == (a + "\n") + ((b + "\n") + (c + "\n"));
  }

  // ---- Reading what is printed as one line ----

  /** What the lines of one printed line give. */
  ghost function Chunk(f: string -> Registry): string -> Registry {
    (line: string) => Merge(Lines(line + "\n"), f)
  }

  lemma ChunkOfOne(line: string, f: string -> Registry)
    requires OneLine(line)
    ensures Chunk(f)(line) == f(line)
  {
    LinesOfOne(line, '\n');
    MergeOne(line, f);
  }

  lemma ChunkOfThree(a: string, b: string, c: string, f: string -> Registry)
    requires OneLine(a) && OneLine(b) && OneLine(c) && f(a) == map[] && f(b) == map[] && f(c) == map[]
    ensures Chunk(f)((a + "\n") + (b + "\n") + c) == map[]
  {
    ThreeLines(a, b, c);
    Framed(a, [b], c, f);
    MergeOne(b, f);
    assert [a] + [b] + [c] == [a, b, c];
  }

  lemma {:induction false} UnlinesReads(ls: seq<string>, f: string -> Registry)
    ensures Merge(Lines(Unlines(ls)), f) == Merge(ls, Chunk(f))
    ensures Unlines(ls) == "" || Last(Unlines(ls)) == '\n'
  {
    if ls != [] {
      UnlinesReads(Front(ls), f);
      var line := EndLine()(Last(ls));
      LinesSplit(Unlines(Front(ls)), line);
      MergeConcat(Lines(Unlines(Front(ls))), Lines(line), f);
    }
  }

  ghost predicate ReadsEntry(g: string -> Registry, repo: string, width: nat, host: string) {
    Printable(host, repo) ==> g(EntryLine(repo, width, host)) == if Name(host) then map[host := repo] else map[]
  }

  ghost predicate ReadsEntries(g: string -> Registry) {
    forall repo, width, host :: ReadsEntry(g, repo, width, host)
  }

  ghost predicate SkipsRepos(g: string -> Registry) {
    forall repo :: OneLine(repo) ==> g(CommentLine(repo)) == map[]
  }

  /** A line that is empty or starts with neither a blank nor a quote. */
  predicate Word(line: string) {
    line == "" || (!Blank(line[0]) && line[0] != '"')
  }

  ghost predicate SkipsWords(g: string -> Registry) {
    forall line :: Word(line) && OneLine(line) ==> g(line) == map[]
  }

  /** What the printer relies on in a reader of what it prints as one line. */
  ghost predicate Reader(g: string -> Registry) {
    ReadsEntries(g) && SkipsRepos(g) && SkipsWords(g)
  }

  lemma OneLineConcat(a: string, b: string)
    requires OneLine(a) && OneLine(b)
    ensures OneLine(a + b)
  {
  }

  lemma EntryIsOneLine(repo: string, width: nat, host: string)
    requires Name(host) && Name(repo)
    ensures OneLine(EntryLine(repo, width, host))
  {
  }

  lemma SuffixIsWord()
    ensures OneLine(SUFFIX) && Word(SUFFIX)
  {
  }

  lemma BrokenIsLost(repo: string, width: nat, name: string, f: string -> Registry)
    requires Name(repo) && Name(name) && SkipsBroken(f, Gap(width, name + "\n"), repo, name) && f(SUFFIX) == map[]
    ensures Chunk(f)(EntryLine(repo, width, name + "\n")) == map[]
  {
    var gap := Gap(width, name + "\n");
    OpeningIsOneLine(name);
    ClosingIsOneLine(gap, repo, name);
    SuffixIsWord();
    ChunkOfThree("  " + Opening(name), Closing(gap, repo, name), SUFFIX, f);
    BrokenEntryText(repo, width, name);
  }

  lemma PrintedEntryReads(repo: string, width: nat, host: string)
    ensures ReadsEntry(Chunk(LineEntry()), repo, width, host)
  {
    if Name(repo) && Name(host) {
      EntryIsOneLine(repo, width, host);
      ChunkOfOne(EntryLine(repo, width, host), LineEntry());
      EntryLineParses(repo, width, host);
    } else if Printable(host, repo) {
      assert host == Front(host) + "\n";
      LineEntrySkipsBroken(Gap(width, host), repo, Front(host));
      SuffixIsWord();
      NoEntry(SUFFIX);
      BrokenIsLost(repo, width, Front(host), LineEntry());
    }
  }

  lemma CommentLineSkipped(repo: string)
    requires OneLine(repo)
    ensures Chunk(LineEntry())(CommentLine(repo)) == map[]
  {
    OneLineConcat("  # ", repo);
    ChunkOfOne(CommentLine(repo), LineEntry());
    SkipBlanksPast("  ", "# " + repo);
    assert CommentLine(repo) == "  " + ("# " + repo);
    NoEntry(CommentLine(repo));
  }

  lemma LineEntryReads()
    ensures Reader(Chunk(LineEntry()))
    ensures SkipsWords(LineEntry())
  {
    forall repo, width, host ensures ReadsEntry(Chunk(LineEntry()), repo, width, host) {
      PrintedEntryReads(repo, width, host);
    }
    forall repo | OneLine(repo) ensures Chunk(LineEntry())(CommentLine(repo)) == map[] {
      CommentLineSkipped(repo);
    }
    forall line | Word(line) && OneLine(line)
      ensures LineEntry()(line) == map[] && Chunk(LineEntry())(line) == map[]
    {
      NoEntry(line);
      ChunkOfOne(line, LineEntry());
    }
  }

  // ---- Blocks ----

  ghost function OneHost(repo: string): string -> Registry {
    (host: string) => if Name(host) then map[host := repo] else map[]
  }

  lemma {:induction false} OneHostEach(hosts: seq<string>, repo: string)
    ensures Merge(hosts, OneHost(repo)) == map l | l in hosts && Name(l) :: repo
  {
    if hosts != [] {
      OneHostEach(Front(hosts), repo);
      assert hosts == Front(hosts) + [Last(hosts)];
    }
  }

  predicate HostsPrintable(hosts: seq<string>, repo: string) {
    Name(repo) && forall i :: 0 <= i < |hosts| ==> Printable(hosts[i], repo)
  }

  lemma EntriesParse(hosts: seq<string>, repo: string, width: nat, g: string -> Registry)
    requires HostsPrintable(hosts, repo) && Reader(g)
    ensures Merge(Gather(hosts, EntryLines(repo, width)), g) == map l | l in hosts && Name(l) :: repo
  {
    forall i | 0 <= i < |hosts| ensures Merge(EntryLines(repo, width)(hosts[i]), g) == OneHost(repo)(hosts[i]) {
      assert ReadsEntry(g, repo, width, hosts[i]);
      MergeOne(EntryLine(repo, width, hosts[i]), g);
    }
    MergeGather(hosts, EntryLines(repo, width), g, OneHost(repo));
    OneHostEach(hosts, repo);
  }

  lemma OwnHostsPrintable(registry: Registry, repo: string)
    requires AllPrintable(registry) && Name(repo)
    ensures HostsPrintable(InOrder(HostsOf(registry, repo)), repo)
  {
    var hosts := InOrder(HostsOf(registry, repo));
    forall i | 0 <= i < |hosts| ensures Printable(hosts[i], repo) {
      InOrderMembers(HostsOf(registry, repo));
      assert hosts[i] in hosts;
    }
  }

  ghost function LegibleOf(registry: Registry): string -> Registry {
    (repo: string) => map l | l in HostsOf(registry, repo) && Name(l) :: repo
  }

  lemma Framed(first: string, middle: seq<string>, last: string, f: string -> Registry)
    requires f(first) == map[] && f(last) == map[]
    ensures Merge([first] + middle + [last], f) == Merge(middle, f)
  {
    MergeConcat([first] + middle, [last], f);
    MergeConcat([first], middle, f);
    MergeOne(first, f);
    MergeOne(last, f);
  }

  lemma BlockParses(registry: Registry, width: nat, repo: string, g: string -> Registry)
    requires AllPrintable(registry) && Name(repo) && Reader(g)
    ensures Merge(Block(registry, width, repo), g) == LegibleOf(registry)(repo)
  {
    var hosts := InOrder(HostsOf(registry, repo));
    OwnHostsPrintable(registry, repo);
    EntryBlockParses(hosts, repo, width, g);
    InOrderMembers(HostsOf(registry, repo));
  }

  lemma EntryBlockParses(hosts: seq<string>, repo: string, width: nat, g: string -> Registry)
    requires HostsPrintable(hosts, repo) && Reader(g)
    ensures Merge([CommentLine(repo)] + Gather(hosts, EntryLines(repo, width)) + [""], g)
            == map l | l in hosts && Name(l) :: repo
  {
    assert Word("") && OneLine("");
    Framed(CommentLine(repo), Gather(hosts, EntryLines(repo, width)), "", g);
    EntriesParse(hosts, repo, width, g);
  }

  ghost function OwnedBy(registry: Registry, repos: seq<string>): Registry {
    map l | l in registry && Name(l) && registry[l] in repos :: registry[l]
  }

  lemma {:induction false} OwnedByEach(registry: Registry, repos: seq<string>)
    ensures Merge(repos, LegibleOf(registry)) == OwnedBy(registry, repos)
  {
    if repos != [] {
      OwnedByEach(registry, Front(repos));
      assert repos == Front(repos) + [Last(repos)];
    }
  }

  lemma BlocksParse(registry: Registry, width: nat, repos: seq<string>, g: string -> Registry)
    requires AllPrintable(registry) && Names(repos) && Reader(g)
    ensures Merge(Gather(repos, BlockOf(registry, width)), g) == OwnedBy(registry, repos)
  {
    forall i | 0 <= i < |repos| ensures Merge(BlockOf(registry, width)(repos[i]), g) == LegibleOf(registry)(repos[i]) {
      BlockParses(registry, width, repos[i], g);
    }
    MergeGather(repos, BlockOf(registry, width), g, LegibleOf(registry));
    OwnedByEach(registry, repos);
  }

  lemma ReposAreNames(registry: Registry)
    requires AllPrintable(registry)
    ensures Names(InOrder(registry.Values))
  {
    var repos := InOrder(registry.Values);
    forall i | 0 <= i < |repos| ensures Name(repos[i]) {
      InOrderMembers(registry.Values);
      assert repos[i] in repos;
    }
  }

  lemma OwnedByAll(registry: Registry)
    ensures OwnedBy(registry, InOrder(registry.Values)) == Legible(registry)
  {
    InOrderMembers(registry.Values);
  }

  predicate Frame(line: string) {
    Word(line) && OneLine(line)
  }

  lemma FramedBlocksParse(first: string, last: string, registry: Registry, width: nat, g: string -> Registry)
    requires AllPrintable(registry) && Reader(g) && Frame(first) && Frame(last)
    ensures Merge([first] + Gather(InOrder(registry.Values), BlockOf(registry, width)) + [last], g)
            == Legible(registry)
  {
    var repos := InOrder(registry.Values);
    Framed(first, Gather(repos, BlockOf(registry, width)), last, g);
    ReposAreNames(registry);
    BlocksParse(registry, width, repos, g);
    OwnedByAll(registry);
  }

  lemma Frames()
    ensures Frame("public_app_hosts = {") && Frame("}") && Frame("public_app_hosts = {}")
  {
  }

  lemma BodyParses(registry: Registry, g: string -> Registry)
    requires AllPrintable(registry) && Reader(g)
    ensures Merge(Body(registry), g) == Legible(registry)
  {
    Frames();
    if registry == map[] {
      MergeOne("public_app_hosts = {}", g);
    } else {
      FramedBlocksParse("public_app_hosts = {", "}", registry, Width(InOrder(registry.Keys)), g);
    }
  }

  // ---- The whole file ----

  lemma {:induction false} CommentsParse(lines: seq<string>, f: string -> Registry)
    requires SkipsWords(f) && AllOneLine(lines)
    requires forall i :: 0 <= i < |lines| ==> lines[i] == "" || lines[i][0] == '#'
    ensures Merge(lines, f) == map[]
  {
    if lines != [] {
      CommentsParse(Front(lines), f);
      assert Word(lines[|lines| - 1]) && OneLine(lines[|lines| - 1]);
    }
  }

  lemma LinesAfterHeader(header: string, rest: string)
    requires CommentsOnly(header)
    ensures Lines(header + "\n" + rest) == Lines(header) + [""] + Lines(rest)
  {
    LinesSplit(header + "\n", rest);
    LinesSplit(header, "\n");
    LinesOfOne("", '\n');
    assert "" + ['\n'] == "\n";
  }

  lemma AfterHeader(header: string, rest: string, f: string -> Registry)
    requires CommentsOnly(header) && SkipsWords(f)
    ensures Merge(Lines(header + "\n" + rest), f) == Merge(Lines(rest), f)
  {
    LinesAfterHeader(header, rest);
    LinesAreSingle(header);
    MergeConcat(Lines(header) + [""], Lines(rest), f);
    CommentsParse(Lines(header) + [""], f);
  }

  lemma RenderedReads(header: string, registry: Registry, f: string -> Registry)
    requires CommentsOnly(header) && AllPrintable(registry) && Reader(Chunk(f)) && SkipsWords(f)
    ensures Merge(Lines(Render(header, registry)), f) == Legible(registry)
  {
    UnlinesReads(Body(registry), f);
    AfterHeader(header, Unlines(Body(registry)), f);
    BodyParses(registry, Chunk(f));
  }

  /** Reading the printed file gives the registry without the hosts that end with a newline. */
  lemma PrintedReadsBack(header: string, registry: Registry)
    requires CommentsOnly(header) && AllPrintable(registry)
    ensures Parse(Render(header, registry)) == Legible(registry)
  {
    LineEntryReads();
    RenderedReads(header, registry, LineEntry());
  }

  lemma CleanRoundTrip(header: string, registry: Registry)
    requires CommentsOnly(header) && Clean(registry)
    ensures Parse(Render(header, registry)) == registry
  {
    CleanIsLegible(registry);
    PrintedReadsBack(header, registry);
  }

  lemma CleanIsLegible(registry: Registry)
    requires Clean(registry)
    ensures AllPrintable(registry) && Legible(registry) == registry
  {
  }

  // ---- Whatever the text, what is parsed can be written ----

  lemma {:induction false} ToQuoteExact(s: string)
    ensures NoQuote(s[..ToQuote(s)])
    ensures ToQuote(s) < |s| ==> s[ToQuote(s)] == '"'
  {
    if s != "" && s[0] != '"' {
      ToQuoteExact(s[1..]);
      assert s[..ToQuote(s)] == [s[0]] + s[1..][..ToQuote(s[1..])];
    }
  }

  lemma QuotedName(s: string)
    requires OneLine(s) && Quoted(s).Some?
    ensures Name(Quoted(s).value.0) && OneLine(Quoted(s).value.1)
  {
    ToQuoteExact(s[1..]);
    assert s[1..][..ToQuote(s[1..])] == s[1..ToQuote(s[1..]) + 1];
  }

  lemma {:induction false} SkipKeepsLine(s: string)
    requires OneLine(s)
    ensures OneLine(SkipBlanks(s))
  {
    if s != "" && Blank(s[0]) {
      SkipKeepsLine(s[1..]);
    }
  }

  lemma {:induction false} DropKeepsLine(s: string)
    requires OneLine(s)
    ensures OneLine(DropBlanks(s))
  {
    if s != "" && Blank(Last(s)) {
      DropKeepsLine(Front(s));
    }
  }

  lemma ParsedNames(s: string)
    requires OneLine(s) && ParseLine(s).Some?
    ensures Name(ParseLine(s).value.0) && Name(ParseLine(s).value.1)
  {
    QuotedName(s);
    var rest := Quoted(s).value.1;
    SkipKeepsLine(rest);
    var equals := SkipBlanks(rest);
    SkipKeepsLine(equals[1..]);
    QuotedName(SkipBlanks(equals[1..]));
  }

  /** The names the parser takes from one line are names. */
  ghost predicate TakesNames(parse: LineParser) {
    forall s :: OneLine(s) && parse(s).Some? ==> Name(parse(s).value.0) && Name(parse(s).value.1)
  }

  lemma ParseLineTakesNames()
    ensures TakesNames(ParseLine)
  {
    forall s | OneLine(s) && ParseLine(s).Some? ensures Name(ParseLine(s).value.0) && Name(ParseLine(s).value.1) {
      ParsedNames(s);
    }
  }

  lemma EntryIsClean(parse: LineParser, line: string)
    requires TakesNames(parse) && OneLine(line)
    ensures Clean(EntryWith(parse)(line))
  {
    SkipKeepsLine(line);
    DropKeepsLine(SkipBlanks(line));
    assert OneLine(Strip(line));
  }

  lemma {:induction false} LinesClean(lines: seq<string>, f: string -> Registry)
    requires AllOneLine(lines)
    requires forall line :: OneLine(line) ==> Clean(f(line))
    ensures Clean(Merge(lines, f))
  {
    if lines != [] {
      LinesClean(Front(lines), f);
      assert OneLine(Last(lines));
    }
  }

  lemma ParseIsClean(text: string)
    ensures Clean(Parse(text))
  {
    LinesAreSingle(text);
    ParseLineTakesNames();
    EntriesAreClean(Lines(text), ParseLine);
  }

  lemma EntriesAreClean(lines: seq<string>, parse: LineParser)
    requires AllOneLine(lines) && TakesNames(parse)
    ensures Clean(Merge(lines, EntryWith(parse)))
  {
    forall line | OneLine(line) ensures Clean(EntryWith(parse)(line)) {
      EntryIsClean(parse, line);
    }
    LinesClean(lines, EntryWith(parse));
  }

  /** The printed file reads back as the registry exactly when every name in it is one that a line can hold. */
  lemma RoundTripExact(header: string, registry: Registry)
    requires CommentsOnly(header)
    ensures Parse(Render(header, registry)) == registry <==> Clean(registry)
  {
    ParseIsClean(Render(header, registry));
    if Clean(registry) {
      CleanRoundTrip(header, registry);
    }
  }
}
